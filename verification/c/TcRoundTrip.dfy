/** Reading back what was written (src/c/tc_cache.c): values whose cdr chains have at most 256
    conses come back exactly, and longer chains are rejected, never misread. */
module TcRoundTrip {
  import opened Options
  import opened TcText

  // Numbers -------------------------------------------------------------------------------------

  predicate AllDigits(ds: string, base: nat) {
    forall i :: 0 <= i < |ds| ==> DigitValue(ds[i]).Some? && DigitValue(ds[i]).value < base
  }

  function Fold(acc: nat, ds: string, base: nat): nat
    requires AllDigits(ds, base)
    decreases |ds|
  {
    if |ds| == 0 then acc else Fold(acc * base + DigitValue(ds[0]).value, ds[1..], base)
  }

  lemma {:induction false} FoldLast(acc: nat, ds: string, d: char, base: nat)
    requires AllDigits(ds, base) && DigitValue(d).Some? && DigitValue(d).value < base
    ensures AllDigits(ds + [d], base) && Fold(acc, ds + [d], base) == Fold(acc, ds, base) * base + DigitValue(d).value
    decreases |ds|
  {
    if |ds| > 0 {
      assert (ds + [d])[1..] == ds[1..] + [d];
      FoldLast(acc * base + DigitValue(ds[0]).value, ds[1..], d, base);
    } else {
      assert ds + [d] == [d] && [d][1..] == [];
    }
  }

  lemma DigitIsRead(d: nat)
    requires d < 16
    ensures DigitValue(Digit(d)) == Some(d)
    ensures !IsSpace(Digit(d)) && Digit(d) !in {'-', '+', 'x', 'X', ';', ':', ' ', '\n', '\0'}
  {
  }

  lemma QuotientIsLess(n: nat, base: nat)
    requires 2 <= base <= n
    ensures n / base < n && (n / base) * base + n % base == n
  {
  }

  lemma {:induction false} DigitsAreRead(n: nat, base: nat)
    requires 2 <= base <= 16
    ensures AllDigits(Digits(n, base), base) && Fold(0, Digits(n, base), base) == n
    decreases n
  {
    if n < base {
      DigitIsRead(n);
      assert Digits(n, base) == [Digit(n)] && [Digit(n)][1..] == [];
    } else {
      QuotientIsLess(n, base);
      DigitsAreRead(n / base, base);
      DigitIsRead(n % base);
      hide Fold, DigitValue, Digit;
      FoldLast(0, Digits(n / base, base), Digit(n % base), base);
    }
  }

  function Power(base: nat, w: nat): nat {
    if w == 0 then 1 else base * Power(base, w - 1)
  }

  lemma {:induction false} HexIsRead(n: nat, w: nat)
    requires n < Power(16, w)
    ensures AllDigits(Hex(n, w), 16) && Fold(0, Hex(n, w), 16) == n
  {
    if w > 0 {
      HexIsRead(n / 16, w - 1);
      DigitIsRead(n % 16);
      FoldLast(0, Hex(n / 16, w - 1), Digit(n % 16), 16);
    }
  }

  lemma {:induction false} PowerSplits(base: nat, a: nat, b: nat)
    ensures Power(base, a + b) == Power(base, a) * Power(base, b)
  {
    if a > 0 {
      PowerSplits(base, a - 1, b);
      TimesTwice(base, Power(base, a - 1), Power(base, b));
    }
  }

  lemma TimesTwice(x: nat, y: nat, z: nat)
    ensures x * (y * z) == (x * y) * z
  {
  }

  lemma PowerOfTen()
    ensures Power(10, 20) == 100000000000000000000
  {
    assert Power(10, 5) == 100000;
    PowerSplits(10, 5, 5);
    PowerSplits(10, 10, 10);
  }

  lemma PowerOfSixteen()
    ensures Power(16, 16) == 0x1_0000_0000_0000_0000
  {
    assert Power(16, 4) == 0x1_0000;
    PowerSplits(16, 4, 4);
    PowerSplits(16, 8, 8);
  }

  lemma {:induction false} DigitsLength(n: nat, w: nat)
    requires n < Power(10, w) && w > 0
    ensures |Digits(n, 10)| <= w
  {
    if n >= 10 {
      assert w > 1;
      DigitsLength(n / 10, w - 1);
    }
  }

  lemma {:induction false} ReadAll(s: string, i: nat, ds: string, base: nat, acc: nat)
    requires base <= 16 && AllDigits(ds, base) && i + |ds| <= |s| && s[i..i + |ds|] == ds
    requires i + |ds| == |s| || DigitValue(s[i + |ds|]).None?
    ensures ReadDigits(s, i, base, acc) == (Fold(acc, ds, base), i + |ds|)
    decreases |ds|
  {
    if |ds| > 0 {
      assert s[i] == ds[0] && s[i + 1..i + 1 + |ds[1..]|] == ds[1..];
      ReadAll(s, i + 1, ds[1..], base, acc * base + DigitValue(ds[0]).value);
    }
  }

  lemma PlainDigits(ds: string, base: nat)
    requires AllDigits(ds, base) && base <= 16
    ensures forall i :: 0 <= i < |ds| ==> !IsSpace(ds[i]) && ds[i] !in {'-', '+', 'x', 'X', ';', ':', ' ', '\n', '\0'}
  {
  }

  lemma DecimalIsRead(n: int)
    requires IsLong(n)
    ensures Strtol(Decimal(n)) == Some(n) && 0 < |Decimal(n)| < 64
    ensures forall i :: 0 <= i < |Decimal(n)| ==> Decimal(n)[i] !in {';', ':', ' ', '\n'}
  {
    var m := if n < 0 then -n else n;
    var s, ds := Decimal(n), Digits(m, 10);
    PowerOfTen();
    DigitsLength(m, 20);
    DigitsAreRead(m, 10);
    PlainDigits(ds, 10);
    var j := if n < 0 then 1 else 0;
    assert s[j..j + |ds|] == ds && (n < 0 ==> s[0] == '-') && (n >= 0 ==> s == ds);
    ReadAll(s, j, ds, 10, 0);
    assert SkipSpace(s, 0) == 0;
  }

  /** A number beyond 64 bits is read as the nearest one within. */
  lemma AnyDecimalIsRead(n: int)
    ensures Strtol(Decimal(n)) == Some(if n < LONG_MIN then LONG_MIN else if n > LONG_MAX then LONG_MAX else n)
  {
    var m := if n < 0 then -n else n;
    var s, ds := Decimal(n), Digits(m, 10);
    DigitsAreRead(m, 10);
    PlainDigits(ds, 10);
    var j := if n < 0 then 1 else 0;
    assert s[j..j + |ds|] == ds && (n < 0 ==> s[0] == '-') && (n >= 0 ==> s == ds);
    ReadAll(s, j, ds, 10, 0);
    assert SkipSpace(s, 0) == 0;
  }

  lemma HexIsParsed(n: nat)
    requires n < 0x1_0000_0000_0000_0000
    ensures Strtoull(Hex(n, 16)) == Some(n)
  {
    PowerOfSixteen();
    var s := Hex(n, 16);
    HexIsRead(n, 16);
    PlainDigits(s, 16);
    assert s[0..0 + |s|] == s;
    ReadAll(s, 0, s, 16, 0);
    assert SkipSpace(s, 0) == 0;
  }

  // Pieces of text ------------------------------------------------------------------------------

  /** The piece stands at a position of the text. */
  ghost predicate At(s: string, pos: nat, piece: string) {
    pos + |piece| <= |s| && s[pos..pos + |piece|] == piece
  }

  lemma AtParts(s: string, pos: nat, a: string, b: string)
    requires At(s, pos, a + b)
    ensures At(s, pos, a) && At(s, pos + |a|, b)
  {
    assert s[pos..pos + |a|] == (a + b)[..|a|];
    assert s[pos + |a|..pos + |a| + |b|] == (a + b)[|a|..];
  }

  lemma {:induction false} FindStops(s: string, pos: nat, piece: string, stop: char)
    requires At(s, pos, piece + [stop]) && stop !in piece
    ensures Find(s, pos, stop) == pos + |piece|
    decreases |piece|
  {
    AtParts(s, pos, piece, [stop]);
    if |piece| > 0 {
      assert s[pos] == piece[0];
      assert piece + [stop] == [piece[0]] + (piece[1..] + [stop]);
      AtParts(s, pos, [piece[0]], piece[1..] + [stop]);
      FindStops(s, pos + 1, piece[1..], stop);
    } else {
      assert s[pos..pos + 1] == [stop] && s[pos] == stop;
    }
  }

  lemma NumberIsRead(s: string, pos: nat, n: int, stop: char)
    requires IsLong(n) && stop in {';', ':', ' ', '\n'} && At(s, pos, Decimal(n) + [stop])
    ensures NumberUntil(s, pos, stop) == Good(n, pos + |Decimal(n)| + 1)
  {
    hide Strtol, Decimal, Find;
    DecimalIsRead(n);
    FindStops(s, pos, Decimal(n), stop);
    AtParts(s, pos, Decimal(n), [stop]);
  }

  lemma HexIsReadAt(s: string, pos: nat, n: nat)
    requires n < 0x1_0000_0000_0000_0000 && At(s, pos, Hex(n, 16))
    ensures HexAt(s, pos) == Good(n, pos + 16)
  {
    hide Strtoull, Hex;
    HexIsParsed(n);
  }

  lemma {:induction false} NoNull(s: string)
    requires '\0' !in s
    ensures CString(s) == s
  {
    NullNotFound(s, 0);
    assert s[..|s|] == s;
  }

  lemma {:induction false} NullNotFound(s: string, i: nat)
    requires '\0' !in s && i <= |s|
    ensures Find(s, i, '\0') == |s|
    decreases |s| - i
  {
    if i < |s| {
      NullNotFound(s, i + 1);
    }
  }

  lemma TextIsRead(s: string, pos: nat, text: string)
    requires |text| <= LONG_MAX && '\0' !in text && At(s, pos, Decimal(|text|) + ":" + text)
    ensures var n := NumberUntil(s, pos, ':');
      && n == Good(|text|, pos + |Decimal(|text|)| + 1) && n.pos + |text| <= |s|
      && CString(s[n.pos..n.pos + |text|]) == text
  {
    hide NumberUntil, Decimal;
    AtParts(s, pos, Decimal(|text|) + ":", text);
    NumberIsRead(s, pos, |text|, ':');
    NoNull(text);
  }

  lemma TagIsRead(s: string, pos: nat, tag: char, rest: string)
    requires At(s, pos, [tag] + rest)
    ensures pos < |s| && s[pos] == tag && At(s, pos + 1, rest)
  {
    AtParts(s, pos, [tag], rest);
    assert s[pos..pos + 1] == [tag];
  }

  lemma IntIsRead(s: string, pos: nat, n: int)
    requires IsLong(n) && At(s, pos, "i" + Decimal(n) + ";")
    ensures s[pos] == 'i' && ParseAtom(s, 'i', pos + 1) == Good(Int(n), pos + |"i" + Decimal(n) + ";"|)
  {
    hide NumberUntil, Decimal;
    assert "i" + Decimal(n) + ";" == ['i'] + (Decimal(n) + ";");
    TagIsRead(s, pos, 'i', Decimal(n) + ";");
    NumberIsRead(s, pos + 1, n, ';');
  }

  lemma DoubleIsRead(s: string, pos: nat, bits: nat)
    requires bits < 0x1_0000_0000_0000_0000 && At(s, pos, "f" + Hex(bits, 16) + ";")
    ensures s[pos] == 'f' && ParseAtom(s, 'f', pos + 1) == Good(Double(bits), pos + 18)
  {
    hide HexAt, Hex;
    assert "f" + Hex(bits, 16) + ";" == ['f'] + (Hex(bits, 16) + ";");
    TagIsRead(s, pos, 'f', Hex(bits, 16) + ";");
    AtParts(s, pos + 1, Hex(bits, 16), ";");
    HexIsReadAt(s, pos + 1, bits);
    assert s[pos + 17..pos + 18] == ";" && s[pos + 17] == ';';
  }

  lemma NameIsRead(s: string, pos: nat, tag: char, text: string)
    requires tag == 'y' || tag == 's'
    requires |text| <= LONG_MAX && '\0' !in text && At(s, pos, [tag] + Decimal(|text|) + ":" + text)
    ensures s[pos] == tag
    ensures ParseAtom(s, tag, pos + 1) == Good(if tag == 'y' then Symbol(text) else Str(text), pos + |[tag] + Decimal(|text|) + ":" + text|)
  {
    hide NumberUntil, CString, Decimal;
    assert [tag] + Decimal(|text|) + ":" + text == [tag] + (Decimal(|text|) + ":" + text);
    TagIsRead(s, pos, tag, Decimal(|text|) + ":" + text);
    TextIsRead(s, pos + 1, text);
  }

  lemma AtomIsRead(s: string, pos: nat, v: Kl)
    requires Representable(v) && !v.Cons? && Serialize(v).Some? && At(s, pos, Serialize(v).value)
    ensures |Serialize(v).value| > 0 && s[pos] != 'c' && ParseAtom(s, s[pos], pos + 1) == Good(v, pos + |Serialize(v).value|)
  {
    hide NumberUntil, HexAt, CString, Decimal, Hex;
    match v
    case Int(n) => IntIsRead(s, pos, n);
    case Double(bits) => DoubleIsRead(s, pos, bits);
    case Symbol(name) => NameIsRead(s, pos, 'y', name);
    case Str(t) => NameIsRead(s, pos, 's', t);
    case Nil => TagIsRead(s, pos, 'n', "");
    case Bool(b) => TagIsRead(s, pos, if b then 't' else 'u', "");
  }

  /** The round trip: exactly the bytes of the value are consumed, whatever stands around them. */
  lemma {:induction false} ValueIsRead(s: string, pos: nat, v: Kl, n: nat)
    requires Representable(v) && Serialize(v).Some? && At(s, pos, Serialize(v).value)
    ensures ParseChain(s, pos, n) == if SpinesFit(v, n) then Good(v, pos + |Serialize(v).value|) else Bad
    decreases v
  {
    hide ParseAtom;
    if v.Cons? {
      var a, b := Serialize(v.head).value, Serialize(v.tail).value;
      AtParts(s, pos, "c" + a, b);
      AtParts(s, pos, "c", a);
      assert s[pos..pos + 1] == "c" && s[pos] == 'c';
      ValueIsRead(s, pos + 1, v.head, 0);
      ValueIsRead(s, pos + 1 + |a|, v.tail, n + 1);
    } else {
      AtomIsRead(s, pos, v);
    }
  }
}
