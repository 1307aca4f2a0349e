/** Cache files that are not whole (read_cache in src/c/tc_cache.c): a file that was cut short anywhere,
    or that begins in another way, is not read at all. */
module TcDamage {
  import opened Options
  import opened TcText
  import opened TcRoundTrip
  import opened TcFile

  // A reader that succeeds on the beginning of a text does the same on the whole -------------------

  lemma {:induction false} FindMore(s: string, s': string, pos: nat, stop: char)
    requires s' <= s && Find(s', pos, stop) < |s'|
    ensures Find(s, pos, stop) == Find(s', pos, stop)
    decreases |s'| - pos
  {
    if pos < |s'| && s'[pos] != stop {
      FindMore(s, s', pos + 1, stop);
    }
  }

  lemma NumberMore(s: string, s': string, pos: nat, stop: char)
    requires s' <= s && NumberUntil(s', pos, stop).Good?
    ensures NumberUntil(s, pos, stop) == NumberUntil(s', pos, stop)
  {
    hide Strtol, Find;
    FindMore(s, s', pos, stop);
    assert s[pos..Find(s, pos, stop)] == s'[pos..Find(s', pos, stop)];
  }

  lemma HexMore(s: string, s': string, pos: nat)
    requires s' <= s && HexAt(s', pos).Good?
    ensures HexAt(s, pos) == HexAt(s', pos)
  {
    hide Strtoull;
    assert s[pos..pos + 16] == s'[pos..pos + 16];
  }

  lemma AtomMore(s: string, s': string, tag: char, pos: nat)
    requires s' <= s && pos <= |s'| && ParseAtom(s', tag, pos).Good?
    ensures ParseAtom(s, tag, pos) == ParseAtom(s', tag, pos)
  {
    hide NumberUntil, HexAt, CString;
    if tag == 'i' {
      NumberMore(s, s', pos, ';');
    } else if tag == 'f' {
      HexMore(s, s', pos);
    } else if tag == 'y' || tag == 's' {
      NumberMore(s, s', pos, ':');
      var n := NumberUntil(s, pos, ':');
      assert s[n.pos..n.pos + n.value] == s'[n.pos..n.pos + n.value];
    }
  }

  lemma {:induction false} ChainMore(s: string, s': string, pos: nat, n: nat)
    requires s' <= s && pos <= |s'| && ParseChain(s', pos, n).Good?
    ensures ParseChain(s, pos, n) == ParseChain(s', pos, n)
    decreases |s'| - pos
  {
    hide ParseAtom;
    if s'[pos] != 'c' {
      AtomMore(s, s', s'[pos], pos + 1);
    } else {
      ChainMore(s, s', pos + 1, 0);
      ChainMore(s, s', ParseChain(s', pos + 1, 0).pos, n + 1);
    }
  }

  lemma EntryMore(s: string, s': string, pos: nat)
    requires s' <= s && ParseEntry(s', pos).Good?
    ensures ParseEntry(s, pos) == ParseEntry(s', pos)
  {
    hide ParseChain, NumberUntil, HexAt;
    if s'[pos] == '+' {
      HexMore(s, s', pos + 1);
    }
    var h := ParseHash(s', pos);
    assert ParseHash(s, pos) == h;
    if s'[h.pos] == '+' {
      ChainMore(s, s', h.pos + 1, 0);
    }
    var v := ParseVerdict(s', h.pos);
    assert ParseVerdict(s, h.pos) == v;
    NumberMore(s, s', v.pos + 1, ';');
  }

  lemma {:induction false} EntriesMore(s: string, s': string, pos: nat, n: nat)
    requires s' <= s && pos <= |s'| && ReadEntries(s', pos, n).Good?
    ensures ReadEntries(s, pos, n) == ReadEntries(s', pos, n)
    decreases n
  {
    hide ParseEntry;
    if n > 0 {
      EntryMore(s, s', pos);
      EntriesMore(s, s', ParseEntry(s', pos).pos, n - 1);
    }
  }

  lemma {:induction false} HexesMore(s: string, s': string, pos: nat, n: nat)
    requires s' <= s && pos <= |s'| && ReadHexes(s', pos, n).Good?
    ensures ReadHexes(s, pos, n) == ReadHexes(s', pos, n) && ReadHexes(s', pos, n).pos <= |s'|
    decreases n
  {
    hide HexAt;
    if n > 0 {
      HexMore(s, s', pos);
      HexesMore(s, s', HexAt(s', pos).pos, n - 1);
    }
  }

  // Files ---------------------------------------------------------------------------------------

  lemma HeadMore(s: string, s': string)
    requires s' <= s && ReadCache(s').Some?
    ensures var start := NumberUntil(s', |HEADER|, ' ');
      && start.Good? && NumberUntil(s, |HEADER|, ' ') == start
      && var end := NumberUntil(s', start.pos, ' ');
      && end.Good? && NumberUntil(s, start.pos, ' ') == end
      && var ntc := NumberUntil(s', end.pos, ' ');
      && ntc.Good? && ntc.value >= 0 && NumberUntil(s, end.pos, ' ') == ntc
      && var nckpt := NumberUntil(s', ntc.pos, '\n');
      && nckpt.Good? && nckpt.value >= 0 && NumberUntil(s, ntc.pos, '\n') == nckpt
      && var es := ReadEntries(s', nckpt.pos, ntc.value);
      && es.Good? && ReadEntries(s, nckpt.pos, ntc.value) == es && ReadHexes(s', es.pos, nckpt.value).Good?
  {
    hide NumberUntil, ReadEntries, ReadHexes;
    var start := NumberUntil(s', |HEADER|, ' ');
    NumberMore(s, s', |HEADER|, ' ');
    var end := NumberUntil(s', start.pos, ' ');
    NumberMore(s, s', start.pos, ' ');
    var ntc := NumberUntil(s', end.pos, ' ');
    NumberMore(s, s', end.pos, ' ');
    var nckpt := NumberUntil(s', ntc.pos, '\n');
    NumberMore(s, s', ntc.pos, '\n');
    EntriesMore(s, s', nckpt.pos, ntc.value);
  }

  /** A file that was cut short anywhere is not read. */
  lemma CutFileIsRejected(r: Recording, k: nat)
    requires WellFormedRecording(r) && k < |WriteCache(r)|
    ensures ReadCache(WriteCache(r)[..k]).None?
  {
    hide WriteHead, WriteEntries, WriteHexes, ReadEntries, ReadHexes, NumberUntil, Fits, WellFormed, StoredAll;
    var s := WriteCache(r);
    var s' := s[..k];
    if ReadCache(s').Some? {
      HeadMore(s, s');
      PartsOfFile(r);
      HeadIsRead(s, r);
      EntriesAreRead(s, |WriteHead(r)|, r.tc);
      HexesAreRead(s, |WriteHead(r)| + |WriteEntries(r.tc)|, r.ckpt);
      HexesMore(s, s', |WriteHead(r)| + |WriteEntries(r.tc)|, |r.ckpt|);
      assert false;
    }
  }

  lemma PartsOfFile(r: Recording)
    ensures var s := WriteCache(r);
      At(s, 0, WriteHead(r)) && At(s, |WriteHead(r)|, WriteEntries(r.tc))
      && At(s, |WriteHead(r)| + |WriteEntries(r.tc)|, WriteHexes(r.ckpt)) && |s| == |WriteHead(r)| + |WriteEntries(r.tc)| + |WriteHexes(r.ckpt)|
  {
    hide WriteHead, WriteEntries, WriteHexes;
    var s := WriteCache(r);
    assert At(s, 0, s);
    AtParts(s, 0, WriteHead(r) + WriteEntries(r.tc), WriteHexes(r.ckpt));
    AtParts(s, 0, WriteHead(r), WriteEntries(r.tc));
  }

  /** A file that does not begin with the header is not read, so neither is one of another version. */
  lemma OtherHeaderIsRejected(s: string)
    requires !(HEADER <= s)
    ensures ReadCache(s).None?
  {
  }

  /** What follows a readable file makes no difference. */
  lemma RestIsIgnored(s: string, rest: string)
    requires ReadCache(s).Some?
    ensures ReadCache(s + rest) == ReadCache(s)
  {
    hide NumberUntil, ReadEntries, ReadHexes;
    var all := s + rest;
    assert s <= all && all[..|HEADER|] == s[..|HEADER|];
    HeadMore(all, s);
    var start := NumberUntil(s, |HEADER|, ' ');
    var end := NumberUntil(s, start.pos, ' ');
    var ntc := NumberUntil(s, end.pos, ' ');
    var nckpt := NumberUntil(s, ntc.pos, '\n');
    HexesMore(all, s, ReadEntries(s, nckpt.pos, ntc.value).pos, nckpt.value);
  }

  /** No entry is read that has a verdict but no hash. */
  lemma VerdictNeedsHash(s: string, pos: nat)
    requires ParseEntry(s, pos).Good?
    ensures ParseEntry(s, pos).value.val.Some? ==> ParseEntry(s, pos).value.hash.Some?
    ensures s[pos] == '+' || s[pos] == '-'
  {
  }

  /** A value begins with one of eight tags. */
  lemma OtherTagIsRejected(s: string, pos: nat)
    requires pos <= |s| && (pos < |s| ==> s[pos] !in {'n', 't', 'u', 'i', 'f', 'y', 's', 'c'})
    ensures ParseValue(s, pos).Bad?
  {
  }

  /** A name or a string ends at its first null byte, though the bytes after that are skipped. */
  lemma NullEndsText(s: string, pos: nat, text: string, rest: string)
    requires '\0' !in text && At(s, pos, "s" + Decimal(|text| + 1 + |rest|) + ":" + text + ['\0'] + rest)
    requires |text| + 1 + |rest| <= LONG_MAX
    ensures var digits := Decimal(|text| + 1 + |rest|);
      ParseValue(s, pos) == Good(Str(text), pos + 2 + |digits| + |text| + 1 + |rest|)
  {
    hide NumberUntil, Decimal, CString;
    var n := |text| + 1 + |rest|;
    var a, b := Decimal(n) + ":", text + ['\0'] + rest;
    assert "s" + Decimal(n) + ":" + text + ['\0'] + rest == "s" + (a + b);
    AtParts(s, pos, "s", a + b);
    AtParts(s, pos + 1, a, b);
    assert s[pos] == s[pos..pos + 1][0] == 's';
    NumberIsRead(s, pos + 1, n, ':');
    TextEnds(text, rest);
  }

  lemma TextEnds(text: string, rest: string)
    requires '\0' !in text
    ensures CString(text + ['\0'] + rest) == text
  {
    FindNull(text, rest, 0);
  }

  lemma {:induction false} FindNull(text: string, rest: string, i: nat)
    requires '\0' !in text && i <= |text|
    ensures Find(text + ['\0'] + rest, i, '\0') == |text|
    decreases |text| - i
  {
    var s := text + ['\0'] + rest;
    if i < |text| {
      assert s[i] == text[i] && text[i] in text;
      FindNull(text, rest, i + 1);
    } else {
      assert s[i] == '\0';
    }
  }
}
