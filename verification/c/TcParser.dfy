/** The parser and the output buffer of src/c/tc_cache.c as they run. */
module TcParser {
  import opened Options
  import opened TcText
  import opened TcFile

  class Buffer {
    var data: string

    constructor ()
      ensures data == ""
    {
      data := "";
    }

    method Put(s: string)
      modifies this
      ensures data == old(data) + s
    {
      data := data + s;
    }

    /** serialize_value; on failure the buffer may hold a part of the text. */
    method SerializeValue(v: Kl) returns (ok: bool)
      modifies this
      ensures ok <==> Serialize(v).Some?
      ensures ok ==> data == old(data) + Serialize(v).value
    {
      hide Decimal, Hex;
      ok := true;
      match v
      case Nil => Put("n");
      case Bool(b) => Put(if b then "t" else "u");
      case Int(n) => Put("i" + Decimal(n) + ";");
      case Double(bits) => Put("f" + Hex(bits, 16) + ";");
      case Symbol(name) =>
        Put("y" + Decimal(|name|) + ":");
        Put(name);
      case Str(text) =>
        Put("s" + Decimal(|text|) + ":");
        Put(text);
      case Opaque(_) => ok := false;
      case Cons(h, t) =>
        Put("c");
        ok := SerializeValue(h);
        if ok {
          ok := SerializeValue(t);
          assert ok ==> data == old(data) + ("c" + Serialize(h).value + Serialize(t).value);
        }
    }

    /** write_entries */
    method PutEntries(es: seq<Entry>)
      modifies this
      ensures data == old(data) + WriteEntries(es)
    {
      hide WriteEntry;
      var i := 0;
      assert es[..0] == [];
      while i < |es|
        invariant i <= |es| && data == old(data) + WriteEntries(es[..i])
      {
        PutEntry(es[i]);
        i := i + 1;
        assert es[..i][..i - 1] == es[..i - 1];
      }
      assert es[..i] == es;
    }

    method PutEntry(e: Entry)
      modifies this
      ensures data == old(data) + WriteEntry(e)
    {
      hide Decimal, Hex;
      if e.hash.Some? {
        Put("+" + Hex(e.hash.value, 16));
      } else {
        Put("-");
      }
      if e.val.Some? && e.hash.Some? {
        var text := new Buffer();
        var ok := text.SerializeValue(e.val.value);
        if ok {
          Put("+" + text.data);
        } else {
          Put("-");
        }
      } else {
        Put("-");
      }
      Put("g" + Decimal(e.gensym) + ";");
      assert data == old(data) + (WriteHash(e.hash) + WriteVerdict(if e.hash.Some? then e.val else None) + ("g" + Decimal(e.gensym) + ";"));
    }
  }

  /** Puts the conses of a chain back in front of its end. */
  function Rebuild(cars: seq<Kl>, r: Read<Kl>): Read<Kl> {
    if r.Bad? then Bad else Good(Chain(cars, r.value), r.pos)
  }

  function Chain(cars: seq<Kl>, end: Kl): Kl {
    if |cars| == 0 then end else Chain(cars[..|cars| - 1], Cons(cars[|cars| - 1], end))
  }

  lemma RebuildOneMore(cars: seq<Kl>, h: Kl, t: Read<Kl>)
    ensures Rebuild(cars, if t.Bad? then Bad else Good(Cons(h, t.value), t.pos)) == Rebuild(cars + [h], t)
  {
    assert (cars + [h])[..|cars|] == cars;
  }

  class Parser {
    const bytes: string
    var pos: nat

    constructor (bytes: string)
      ensures this.bytes == bytes && pos == 0
    {
      this.bytes := bytes;
      pos := 0;
    }

    /** p_number_until */
    method NumberTo(stop: char) returns (n: Option<int>)
      requires pos <= |bytes|
      modifies this
      ensures pos <= |bytes| && n.Some? == NumberUntil(bytes, old(pos), stop).Good?
      ensures n.Some? ==> NumberUntil(bytes, old(pos), stop) == Good(n.value, pos)
    {
      var start := pos;
      while pos < |bytes| && bytes[pos] != stop
        invariant start <= pos <= |bytes| && Find(bytes, start, stop) == Find(bytes, pos, stop)
      {
        pos := pos + 1;
      }
      if pos >= |bytes| || pos == start || pos - start >= 64 {
        return None;
      }
      n := Strtol(bytes[start..pos]);
      pos := pos + 1;
    }

    /** Sixteen hexadecimal digits through p_take. */
    method TakeHex() returns (n: Option<nat>)
      requires pos <= |bytes|
      modifies this
      ensures pos <= |bytes| && n.Some? == HexAt(bytes, old(pos)).Good?
      ensures n.Some? ==> HexAt(bytes, old(pos)) == Good(n.value, pos)
    {
      if pos + 16 > |bytes| {
        return None;
      }
      n := Strtoull(bytes[pos..pos + 16]);
      pos := pos + 16;
    }

    /** parse_value: the conses of a chain wait in an array of 256. */
    method Value() returns (v: Option<Kl>)
      requires pos <= |bytes|
      modifies this
      ensures pos <= |bytes| && v.Some? == ParseValue(bytes, old(pos)).Good?
      ensures v.Some? ==> ParseValue(bytes, old(pos)) == Good(v.value, pos)
      decreases |bytes| - pos
    {
      hide ParseAtom;
      var spine := new Kl[SPINE](_ => Nil);
      var n := 0;
      ghost var start := pos;
      while pos < |bytes| && bytes[pos] == 'c'
        invariant start <= pos <= |bytes| && n <= SPINE && fresh(spine)
        invariant ParseChain(bytes, start, 0) == Rebuild(spine[..n], ParseChain(bytes, pos, n))
        decreases |bytes| - pos
      {
        if n >= SPINE {
          return None;
        }
        ghost var cars, at := spine[..n], pos;
        pos := pos + 1;
        var car := Value();
        if car.None? {
          return None;
        }
        RebuildOneMore(cars, car.value, ParseChain(bytes, pos, n + 1));
        spine[n] := car.value;
        n := n + 1;
        assert spine[..n] == cars + [car.value];
      }
      if pos >= |bytes| {
        return None;
      }
      v := Atom();
      if v.Some? {
        ghost var end := v.value;
        var k := n;
        while k > 0
          invariant k <= n && v.Some? && Chain(spine[..n], end) == Chain(spine[..k], v.value)
        {
          k := k - 1;
          assert spine[..k + 1][..k] == spine[..k];
          v := Some(Cons(spine[k], v.value));
        }
      }
    }

    /** The tag and parse_atom. */
    method Atom() returns (v: Option<Kl>)
      requires pos < |bytes|
      modifies this
      ensures pos <= |bytes| && v.Some? == ParseAtom(bytes, bytes[old(pos)], old(pos) + 1).Good?
      ensures v.Some? ==> ParseAtom(bytes, bytes[old(pos)], old(pos) + 1) == Good(v.value, pos)
    {
      hide NumberUntil, HexAt;
      var tag := bytes[pos];
      pos := pos + 1;
      v := None;
      if tag == 'n' {
        v := Some(Nil);
      } else if tag == 't' || tag == 'u' {
        v := Some(Bool(tag == 't'));
      } else if tag == 'i' {
        var n := NumberTo(';');
        if n.Some? {
          v := Some(Int(n.value));
        }
      } else if tag == 'f' {
        var n := TakeHex();
        if n.Some? && pos < |bytes| && bytes[pos] == ';' {
          pos := pos + 1;
          v := Some(Double(n.value));
        }
      } else if tag == 'y' || tag == 's' {
        var n := NumberTo(':');
        if n.Some? && n.value >= 0 && pos + n.value <= |bytes| {
          var text := CString(bytes[pos..pos + n.value]);
          pos := pos + n.value;
          v := Some(if tag == 'y' then Symbol(text) else Str(text));
        }
      }
    }

    /** parse_entry */
    method NextEntry() returns (e: Option<Entry>)
      requires pos <= |bytes|
      modifies this
      ensures pos <= |bytes| && e.Some? == ParseEntry(bytes, old(pos)).Good?
      ensures e.Some? ==> ParseEntry(bytes, old(pos)) == Good(e.value, pos)
    {
      hide NumberUntil, HexAt, ParseChain;
      e := None;
      if pos >= |bytes| { return; }
      var mark, hash := bytes[pos], None;
      pos := pos + 1;
      if mark == '+' {
        hash := TakeHex();
        if hash.None? { return; }
      } else if mark != '-' {
        return;
      }
      if pos >= |bytes| { return; }
      mark := bytes[pos];
      pos := pos + 1;
      var val := None;
      if mark == '+' {
        val := Value();
        if val.None? { return; }
      } else if mark != '-' {
        return;
      }
      if (hash.None? && val.Some?) || pos >= |bytes| || bytes[pos] != 'g' { return; }
      pos := pos + 1;
      var g := NumberTo(';');
      if g.Some? {
        e := Some(Entry(hash, val, g.value));
      }
    }

    method Entries(n: nat) returns (es: Option<seq<Entry>>)
      requires pos <= |bytes|
      modifies this
      ensures pos <= |bytes| && es.Some? == ReadEntries(bytes, old(pos), n).Good?
      ensures es.Some? ==> ReadEntries(bytes, old(pos), n) == Good(es.value, pos)
    {
      hide ParseEntry;
      var read, i := [], 0;
      AfterNothing(ReadEntries(bytes, pos, n));
      while i < n
        invariant i <= n && pos <= |bytes|
        invariant ReadEntries(bytes, old(pos), n) == After(read, ReadEntries(bytes, pos, n - i))
      {
        var e := NextEntry();
        if e.None? {
          return None;
        }
        AfterTwice(read, e.value, ReadEntries(bytes, pos, n - i - 1));
        read, i := read + [e.value], i + 1;
      }
      assert read + [] == read;
      es := Some(read);
    }

    method Hexes(n: nat) returns (hs: Option<seq<nat>>)
      requires pos <= |bytes|
      modifies this
      ensures pos <= |bytes| && hs.Some? == ReadHexes(bytes, old(pos), n).Good?
      ensures hs.Some? ==> ReadHexes(bytes, old(pos), n) == Good(hs.value, pos)
    {
      hide HexAt;
      var read, i := [], 0;
      AfterNothing(ReadHexes(bytes, pos, n));
      while i < n
        invariant i <= n && pos <= |bytes|
        invariant ReadHexes(bytes, old(pos), n) == After(read, ReadHexes(bytes, pos, n - i))
      {
        var h := TakeHex();
        if h.None? {
          return None;
        }
        AfterTwice(read, h.value, ReadHexes(bytes, pos, n - i - 1));
        read, i := read + [h.value], i + 1;
      }
      assert read + [] == read;
      hs := Some(read);
    }
  }

  function After<T>(done: seq<T>, rest: Read<seq<T>>): Read<seq<T>> {
    if rest.Bad? then Bad else Good(done + rest.value, rest.pos)
  }

  lemma AfterTwice<T>(done: seq<T>, x: T, rest: Read<seq<T>>)
    ensures After(done, if rest.Bad? then Bad else Good([x] + rest.value, rest.pos)) == After(done + [x], rest)
  {
    if rest.Good? {
      assert done + ([x] + rest.value) == done + [x] + rest.value;
    }
  }

  lemma AfterNothing<T>(rest: Read<seq<T>>)
    ensures After([], rest) == rest
  {
    if rest.Good? {
      assert [] + rest.value == rest.value;
    }
  }

  /** read_cache */
  method LoadRecording(bytes: string) returns (r: Option<Recording>)
    ensures r == ReadCache(bytes)
  {
    hide NumberUntil, ReadEntries, ReadHexes;
    r := None;
    if |bytes| < |HEADER| || bytes[..|HEADER|] != HEADER {
      return;
    }
    var p := new Parser(bytes);
    p.pos := |HEADER|;
    var start := p.NumberTo(' ');
    if start.None? { return; }
    var end := p.NumberTo(' ');
    if end.None? { return; }
    var ntc := p.NumberTo(' ');
    if ntc.None? || ntc.value < 0 { return; }
    var nckpt := p.NumberTo('\n');
    if nckpt.None? || nckpt.value < 0 { return; }
    var es := p.Entries(ntc.value);
    if es.None? { return; }
    var hs := p.Hexes(nckpt.value);
    if hs.None? { return; }
    r := Some(Recording(start.value, end.value, es.value, hs.value));
  }
}
