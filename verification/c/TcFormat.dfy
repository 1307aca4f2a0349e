/** The bytes of a cache file, on examples with one value of every kind (src/c/tc_cache.c:381-446 and
    785-844). */
module TcFormat {
  import opened Options
  import opened TcText
  import opened TcFile

  lemma ConstantText()
    ensures Serialize(Nil) == Some("n") && Serialize(Bool(true)) == Some("t") && Serialize(Bool(false)) == Some("u")
    ensures Serialize(Opaque(0)).None?
  {
  }

  lemma NumberText()
    ensures Serialize(Int(-12)) == Some("i-12;") && Serialize(Double(255)) == Some("f00000000000000ff;")
  {
    hide Hex;
    DecimalText();
    HexText(255, "00000000000000", 14);
    assert Hex(255, 16) == "00000000000000ff";
    assert "i" + "-12" + ";" == "i-12;" && "f" + "00000000000000ff" + ";" == "f00000000000000ff;";
  }

  lemma DecimalText()
    ensures Decimal(-12) == "-12" && Decimal(2) == "2" && Decimal(0) == "0"
  {
    assert Digits(1, 10) == "1" && Digits(12, 10) == Digits(1, 10) + "2";
  }

  lemma NameText()
    ensures Serialize(Symbol("ab")) == Some("y2:ab") && Serialize(Str("")) == Some("s0:")
  {
    DecimalText();
    assert "y" + "2" + ":" + "ab" == "y2:ab" && "s" + "0" + ":" + "" == "s0:";
  }

  /** Small numbers in sixteen places: leading zeros. */
  lemma {:induction false} Zeros(n: nat)
    ensures |Hex(0, n)| == n && forall i :: 0 <= i < n ==> Hex(0, n)[i] == '0'
    decreases n
  {
    if n > 0 {
      Zeros(n - 1);
    }
  }

  lemma HexText(n: nat, zeros: string, w: nat)
    requires n < 256 && |zeros| == w && forall i :: 0 <= i < w ==> zeros[i] == '0'
    ensures Hex(n, w + 2) == zeros + [Digit(n / 16), Digit(n % 16)]
  {
    Zeros(w);
    assert Hex(0, w) == zeros;
    assert Hex(n / 16, w + 1) == Hex(0, w) + [Digit(n / 16)];
  }

  lemma ListText()
    ensures Serialize(Cons(Bool(true), Cons(Nil, Nil))) == Some("ctcnn")
  {
    assert "c" + "n" + "n" == "cnn" && "c" + "t" + "cnn" == "ctcnn";
    assert Serialize(Cons(Nil, Nil)) == Some("cnn");
  }

  const SAMPLE := Recording(1, 2, [Entry(Some(7), Some(Bool(true)), 3), Entry(None, None, 4)], [9])

  lemma EntryText()
    ensures WriteEntry(SAMPLE.tc[0]) == "+0000000000000007+tg3;" && WriteEntry(SAMPLE.tc[1]) == "--g4;"
  {
    hide Hex, Serialize;
    ConstantText();
    HexText(7, "00000000000000", 14);
    assert Decimal(3) == "3" && Decimal(4) == "4";
  }

  lemma HeadText()
    ensures WriteHead(SAMPLE) == "shentc3-c 1 2 2 1\n"
  {
    assert Decimal(1) == "1" && Decimal(2) == "2";
  }

  lemma FileText()
    ensures WriteCache(SAMPLE) == "shentc3-c 1 2 2 1\n" + "+0000000000000007+tg3;" + "--g4;" + "0000000000000009"
  {
    hide Hex, WriteEntry, WriteHead;
    EntryText();
    HeadText();
    HexText(9, "00000000000000", 14);
    var es := SAMPLE.tc;
    assert es[..1] == [es[0]] && es[..1][..0] == [];
    assert WriteEntries(es[..1]) == WriteEntry(es[0]);
    assert WriteEntries(es) == WriteEntry(es[0]) + WriteEntry(es[1]);
    assert WriteHexes([9][..0]) == "" && WriteHexes([9]) == Hex(9, 16);
  }
}
