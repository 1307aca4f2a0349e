/** Recordings as files (src/c/tc_cache.c:591-844): write_cache, read_cache, and what survives. */
module TcFile {
  import opened Options
  import opened TcText
  import opened TcRoundTrip

  /** One typecheck call: the hash of its arguments if they have one, the verdict if it was kept. */
  datatype Entry = Entry(hash: Option<nat>, val: Option<Kl>, gensym: int)

  datatype Recording = Recording(start: int, end: int, tc: seq<Entry>, ckpt: seq<nat>)

  const HEADER: string := "shentc3-c "

  function WriteHash(h: Option<nat>): string {
    if h.Some? then "+" + Hex(h.value, 16) else "-"
  }

  function WriteVerdict(v: Option<Kl>): string {
    if v.Some? && Serialize(v.value).Some? then "+" + Serialize(v.value).value else "-"
  }

  function WriteEntry(e: Entry): string {
    WriteHash(e.hash) + WriteVerdict(if e.hash.Some? then e.val else None) + ("g" + Decimal(e.gensym) + ";")
  }

  function WriteEntries(es: seq<Entry>): string {
    if |es| == 0 then "" else WriteEntries(es[..|es| - 1]) + WriteEntry(es[|es| - 1])
  }

  function WriteHexes(hs: seq<nat>): string {
    if |hs| == 0 then "" else WriteHexes(hs[..|hs| - 1]) + Hex(hs[|hs| - 1], 16)
  }

  function WriteHead(r: Recording): string {
    HEADER + (Decimal(r.start) + " ") + (Decimal(r.end) + " ") + (Decimal(|r.tc|) + " ") + (Decimal(|r.ckpt|) + "\n")
  }

  /** write_cache */
  function WriteCache(r: Recording): string {
    WriteHead(r) + WriteEntries(r.tc) + WriteHexes(r.ckpt)
  }

  /** A hash or its absence. */
  function ParseHash(s: string, pos: nat): (r: Read<Option<nat>>)
    ensures r.Good? ==> pos < r.pos <= |s|
  {
    if pos >= |s| then Bad
    else if s[pos] == '+' then
      var x := HexAt(s, pos + 1);
      if x.Bad? then Bad else Good(Some(x.value), x.pos)
    else if s[pos] == '-' then Good(None, pos + 1)
    else Bad
  }

  /** A verdict or its absence. */
  function ParseVerdict(s: string, pos: nat): (r: Read<Option<Kl>>)
    ensures r.Good? ==> pos < r.pos <= |s|
  {
    if pos >= |s| then Bad
    else if s[pos] == '+' then
      var x := ParseValue(s, pos + 1);
      if x.Bad? then Bad else Good(Some(x.value), x.pos)
    else if s[pos] == '-' then Good(None, pos + 1)
    else Bad
  }

  /** parse_entry */
  function ParseEntry(s: string, pos: nat): (r: Read<Entry>)
    ensures r.Good? ==> pos < r.pos <= |s|
  {
    var h := ParseHash(s, pos);
    if h.Bad? then Bad
    else
      var v := ParseVerdict(s, h.pos);
      if v.Bad? || (h.value.None? && v.value.Some?) || v.pos >= |s| || s[v.pos] != 'g' then Bad
      else
        var g := NumberUntil(s, v.pos + 1, ';');
        if g.Bad? then Bad else Good(Entry(h.value, v.value, g.value), g.pos)
  }

  function ReadEntries(s: string, pos: nat, n: nat): (r: Read<seq<Entry>>)
    requires pos <= |s|
    ensures r.Good? ==> r.pos <= |s|
    decreases n
  {
    if n == 0 then Good([], pos)
    else
      var e := ParseEntry(s, pos);
      if e.Bad? then Bad
      else
        var rest := ReadEntries(s, e.pos, n - 1);
        if rest.Bad? then Bad else Good([e.value] + rest.value, rest.pos)
  }

  function ReadHexes(s: string, pos: nat, n: nat): (r: Read<seq<nat>>)
    requires pos <= |s|
    decreases n
  {
    if n == 0 then Good([], pos)
    else
      var h := HexAt(s, pos);
      if h.Bad? then Bad
      else
        var rest := ReadHexes(s, h.pos, n - 1);
        if rest.Bad? then Bad else Good([h.value] + rest.value, rest.pos)
  }

  /** read_cache of a file's bytes; anything after the last checkpoint is ignored. */
  function ReadCache(s: string): Option<Recording> {
    if |s| < |HEADER| || s[..|HEADER|] != HEADER then None
    else
      var start := NumberUntil(s, |HEADER|, ' ');
      if start.Bad? then None else
      var end := NumberUntil(s, start.pos, ' ');
      if end.Bad? then None else
      var ntc := NumberUntil(s, end.pos, ' ');
      if ntc.Bad? || ntc.value < 0 then None else
      var nckpt := NumberUntil(s, ntc.pos, '\n');
      if nckpt.Bad? || nckpt.value < 0 then None else
      var es := ReadEntries(s, nckpt.pos, ntc.value);
      if es.Bad? then None else
      var hs := ReadHexes(s, es.pos, nckpt.value);
      if hs.Bad? then None else Some(Recording(start.value, end.value, es.value, hs.value))
  }

  // The round trip ------------------------------------------------------------------------------

  /** What is left of an entry: a verdict without a text form, or without a hash, is dropped. */
  function Stored(e: Entry): Entry {
    e.(val := if e.hash.Some? && e.val.Some? && Serialize(e.val.value).Some? then e.val else None)
  }

  predicate Fits(e: Entry) {
    Stored(e).val.Some? ==> SpinesFit(Stored(e).val.value, 0)
  }

  predicate Is64Bit(n: nat) {
    n < 0x1_0000_0000_0000_0000
  }

  predicate WellFormed(e: Entry) {
    && (e.hash.Some? ==> Is64Bit(e.hash.value)) && (e.val.Some? ==> Representable(e.val.value)) && IsLong(e.gensym)
  }

  predicate WellFormedRecording(r: Recording) {
    && IsLong(r.start) && IsLong(r.end) && |r.tc| <= LONG_MAX && |r.ckpt| <= LONG_MAX
    && (forall i :: 0 <= i < |r.tc| ==> WellFormed(r.tc[i]))
    && (forall i :: 0 <= i < |r.ckpt| ==> Is64Bit(r.ckpt[i]))
  }

  function StoredAll(es: seq<Entry>): seq<Entry> {
    seq(|es|, i requires 0 <= i < |es| => Stored(es[i]))
  }

  lemma HashIsRead(s: string, pos: nat, h: Option<nat>)
    requires (h.Some? ==> Is64Bit(h.value)) && At(s, pos, WriteHash(h))
    ensures ParseHash(s, pos) == Good(h, pos + |WriteHash(h)|)
  {
    hide HexAt, Hex;
    if h.Some? {
      TagIsRead(s, pos, '+', Hex(h.value, 16));
      HexIsReadAt(s, pos + 1, h.value);
    } else {
      TagIsRead(s, pos, '-', "");
    }
  }

  lemma VerdictIsRead(s: string, pos: nat, v: Option<Kl>)
    requires (v.Some? ==> Representable(v.value)) && At(s, pos, WriteVerdict(v))
    ensures v.Some? && Serialize(v.value).Some? ==>
      ParseVerdict(s, pos) == if SpinesFit(v.value, 0) then Good(v, pos + |WriteVerdict(v)|) else Bad
    ensures v.None? || Serialize(v.value).None? ==> ParseVerdict(s, pos) == Good(None, pos + |WriteVerdict(v)|)
  {
    hide ParseChain, Serialize, Representable, SpinesFit;
    if v.Some? && Serialize(v.value).Some? {
      TagIsRead(s, pos, '+', Serialize(v.value).value);
      ValueIsRead(s, pos + 1, v.value, 0);
    } else {
      TagIsRead(s, pos, '-', "");
    }
  }

  lemma EntryIsRead(s: string, pos: nat, e: Entry)
    requires WellFormed(e) && At(s, pos, WriteEntry(e))
    ensures ParseEntry(s, pos) == if Fits(e) then Good(Stored(e), pos + |WriteEntry(e)|) else Bad
  {
    hide ParseHash, ParseVerdict, NumberUntil, Decimal, WriteHash, WriteVerdict, Representable, SpinesFit, Serialize;
    var h, v, g := WriteHash(e.hash), WriteVerdict(if e.hash.Some? then e.val else None), "g" + Decimal(e.gensym) + ";";
    AtParts(s, pos, h + v, g);
    AtParts(s, pos, h, v);
    HashIsRead(s, pos, e.hash);
    VerdictIsRead(s, pos + |h|, if e.hash.Some? then e.val else None);
    assert g == ['g'] + (Decimal(e.gensym) + ";");
    TagIsRead(s, pos + |h| + |v|, 'g', Decimal(e.gensym) + ";");
    NumberIsRead(s, pos + |h| + |v| + 1, e.gensym, ';');
  }

  lemma {:induction false} WriteFirst(es: seq<Entry>)
    requires |es| > 0
    ensures WriteEntries(es) == WriteEntry(es[0]) + WriteEntries(es[1..])
    decreases |es|
  {
    hide WriteEntry;
    var front, last := es[..|es| - 1], es[|es| - 1];
    if |es| > 1 {
      WriteFirst(front);
      assert front[1..] == es[1..][..|es| - 2] && es[1..][|es| - 2] == last;
    } else {
      assert es[..0] == [] && es[1..] == [];
    }
  }

  lemma {:induction false} EntriesAreRead(s: string, pos: nat, es: seq<Entry>)
    requires (forall i :: 0 <= i < |es| ==> WellFormed(es[i])) && At(s, pos, WriteEntries(es))
    ensures ReadEntries(s, pos, |es|)
      == if forall i :: 0 <= i < |es| ==> Fits(es[i]) then Good(StoredAll(es), pos + |WriteEntries(es)|) else Bad
    decreases |es|
  {
    hide WriteEntry, WriteEntries, ParseEntry, Fits, Stored, WellFormed;
    if |es| > 0 {
      WriteFirst(es);
      AtParts(s, pos, WriteEntry(es[0]), WriteEntries(es[1..]));
      EntryIsRead(s, pos, es[0]);
      EntriesAreRead(s, pos + |WriteEntry(es[0])|, es[1..]);
      assert forall i :: 0 < i < |es| ==> es[i] == es[1..][i - 1];
      if forall i :: 0 <= i < |es| ==> Fits(es[i]) {
        assert [Stored(es[0])] + StoredAll(es[1..]) == StoredAll(es);
      } else if Fits(es[0]) {
        var j :| 0 <= j < |es| && !Fits(es[j]);
        assert es[1..][j - 1] == es[j];
      }
    } else {
      EmptyText(es);
    }
  }

  lemma EmptyText(es: seq<Entry>)
    requires |es| == 0
    ensures WriteEntries(es) == "" && StoredAll(es) == []
  {
  }

  lemma {:induction false} HexesAreRead(s: string, pos: nat, hs: seq<nat>)
    requires (forall i :: 0 <= i < |hs| ==> Is64Bit(hs[i])) && At(s, pos, WriteHexes(hs))
    ensures ReadHexes(s, pos, |hs|) == Good(hs, pos + |WriteHexes(hs)|)
    decreases |hs|
  {
    hide Hex, HexAt;
    if |hs| > 0 {
      WriteFirstHex(hs);
      AtParts(s, pos, Hex(hs[0], 16), WriteHexes(hs[1..]));
      HexIsReadAt(s, pos, hs[0]);
      HexesAreRead(s, pos + 16, hs[1..]);
      assert [hs[0]] + hs[1..] == hs;
    }
  }

  lemma {:induction false} WriteFirstHex(hs: seq<nat>)
    requires |hs| > 0
    ensures WriteHexes(hs) == Hex(hs[0], 16) + WriteHexes(hs[1..])
    decreases |hs|
  {
    hide Hex;
    var front, last := hs[..|hs| - 1], hs[|hs| - 1];
    if |hs| > 1 {
      WriteFirstHex(front);
      assert front[1..] == hs[1..][..|hs| - 2] && hs[1..][|hs| - 2] == last;
    } else {
      assert hs[..0] == [] && hs[1..] == [];
    }
  }

  lemma HeadIsRead(s: string, r: Recording)
    requires WellFormedRecording(r) && At(s, 0, WriteHead(r))
    ensures |s| >= |HEADER| && s[..|HEADER|] == HEADER
    ensures var start := NumberUntil(s, |HEADER|, ' ');
      && start.Good? && start.value == r.start
      && var end := NumberUntil(s, start.pos, ' ');
      && end.Good? && end.value == r.end
      && var ntc := NumberUntil(s, end.pos, ' ');
      && ntc.Good? && ntc.value == |r.tc| && NumberUntil(s, ntc.pos, '\n') == Good(|r.ckpt|, |WriteHead(r)|)
  {
    hide NumberUntil, Decimal, WellFormed;
    var a, b, c, d := Decimal(r.start) + " ", Decimal(r.end) + " ", Decimal(|r.tc|) + " ", Decimal(|r.ckpt|) + "\n";
    AtParts(s, 0, HEADER + a + b + c, d);
    AtParts(s, 0, HEADER + a + b, c);
    AtParts(s, 0, HEADER + a, b);
    AtParts(s, 0, HEADER, a);
    NumberIsRead(s, |HEADER|, r.start, ' ');
    NumberIsRead(s, |HEADER| + |a|, r.end, ' ');
    NumberIsRead(s, |HEADER| + |a| + |b|, |r.tc|, ' ');
    NumberIsRead(s, |HEADER| + |a| + |b| + |c|, |r.ckpt|, '\n');
  }

  /** read_cache of write_cache: the recording, less the verdicts that have no text form; nothing at
      all when a verdict has a cdr chain that is too long. */
  lemma CacheIsRead(r: Recording)
    requires WellFormedRecording(r)
    ensures ReadCache(WriteCache(r))
      == if forall i :: 0 <= i < |r.tc| ==> Fits(r.tc[i]) then Some(r.(tc := StoredAll(r.tc))) else None
  {
    hide WriteHead, WriteEntries, WriteHexes, ReadEntries, ReadHexes, NumberUntil, Fits, WellFormed, StoredAll;
    var s := WriteCache(r);
    assert At(s, 0, WriteHead(r) + WriteEntries(r.tc) + WriteHexes(r.ckpt));
    AtParts(s, 0, WriteHead(r) + WriteEntries(r.tc), WriteHexes(r.ckpt));
    AtParts(s, 0, WriteHead(r), WriteEntries(r.tc));
    HeadIsRead(s, r);
    EntriesAreRead(s, |WriteHead(r)|, r.tc);
    HexesAreRead(s, |WriteHead(r)| + |WriteEntries(r.tc)|, r.ckpt);
  }
}
