/** kroundup32 of src/c/khash.h: the smearing of the highest bit over the lower ones, on 32-bit words. */
module RoundUp {
  import opened Probing
  import opened KHashTable

  const WORD: nat := 0x1_0000_0000

  /** khint_t */
  type Word = x: nat | x < WORD

  /** The bitwise or of two words. */
  function Or(x: nat, y: nat): nat {
    if x == 0 && y == 0 then 0
    else 2 * Or(x / 2, y / 2) + (if x % 2 == 0 && y % 2 == 0 then 0 else 1)
  }

  /** Bit i of the result is set when one of the bits i, i + 1, ... of x is, up to as many as m = 2^w
      says. */
  function Spread(x: nat, m: nat): nat
    requires m > 0
  {
    if x == 0 then 0 else 2 * Spread(x / 2, m) + (if x % m == 0 then 0 else 1)
  }

  lemma {:induction false} SpreadOne(x: nat)
    ensures Spread(x, 2) == x
  {
    if x > 0 {
      SpreadOne(x / 2);
    }
  }

  function Shift(x: nat, k: nat): nat
    requires k > 0
  {
    x / k
  }

  lemma MultipleIsFar(d: int, k: int)
    requires k >= 0
    ensures d > 0 ==> d * k >= k
    ensures d < 0 ==> d * k <= -k
  {
    if d > 0 {
      assert (d - 1) * k >= 0;
    } else if d < 0 {
      assert (-d - 1) * k >= 0;
    }
  }

  lemma DivIs(x: nat, k: nat, q: nat, r: nat)
    requires k > 0 && r < k && x == q * k + r
    ensures x / k == q && x % k == r
  {
    MultipleIsFar(x / k - q, k);
    assert (x / k - q) * k == r - x % k;
  }

  lemma HalvesSwap(x: nat, k: nat)
    requires k > 0
    ensures Shift(x, 2 * k) == Shift(x / 2, k)
  {
    var q, r := x / (2 * k), x % (2 * k);
    assert x == 2 * (q * k) + r && r / 2 < k;
    assert x / 2 == q * k + r / 2;
    DivIs(x / 2, k, q, r / 2);
  }

  lemma HalvesCommute(x: nat, m: nat)
    requires m > 0
    ensures Shift(x, m) / 2 == Shift(x / 2, m)
  {
    HalvesSwap(x, m);
    var q, r := Shift(x, 2 * m), x % (2 * m);
    DivMod(x, 2 * m);
    assert q * (2 * m) == (2 * q) * m;
    if r < m {
      DivIs(x, m, 2 * q, r);
    } else {
      assert (2 * q + 1) * m == (2 * q) * m + m;
      DivIs(x, m, 2 * q + 1, r - m);
    }
  }

  /** Shifting the spread is spreading the shifted word. */
  lemma {:induction false} SpreadShift(x: nat, m: nat, k: nat)
    requires m > 0 && k > 0 && PowerOfTwo(k)
    ensures Shift(Spread(x, m), k) == Spread(Shift(x, k), m)
    decreases k
  {
    if k > 1 {
      assert k == 2 * (k / 2);
      SpreadShift(x / 2, m, k / 2);
      HalvesSwap(x, k / 2);
      HalvesSwap(Spread(x, m), k / 2);
      SpreadParts(x, m);
    }
  }

  lemma DivMod(x: nat, m: nat)
    requires m > 0
    ensures x == Shift(x, m) * m + x % m
  {
  }

  lemma ModSquare(x: nat, m: nat, mm: nat)
    requires m > 0 && mm > 0 && mm == m * m
    ensures x % mm == 0 <==> x % m == 0 && Shift(x, m) % m == 0
  {
    var q, r := Shift(x, m), x % m;
    var q2, r2 := Shift(q, m), q % m;
    DivMod(x, m);
    DivMod(q, m);
    assert x == q2 * mm + (r2 * m + r) by {
      assert (q2 * m + r2) * m == q2 * (m * m) + r2 * m;
    }
    MultipleIsFar(m - r2, m);
    assert (m - r2) * m == mm - r2 * m;
    DivIs(x, mm, q2, r2 * m + r);
    MultipleIsFar(r2, m);
  }

  /** One line of the macro doubles the width of the spread. */
  lemma {:induction false} Doubles(x: nat, m: nat, mm: nat)
    requires m > 0 && mm > 0 && mm == m * m && PowerOfTwo(m)
    ensures Or(Spread(x, m), Shift(Spread(x, m), m)) == Spread(x, mm)
  {
    hide Shift, PowerOfTwo;
    ModSquare(x, m, mm);
    SpreadShift(x, m, m);
    if x > 0 {
      Doubles(x / 2, m, mm);
      SpreadShift(x / 2, m, m);
      HalvesCommute(x, m);
      SpreadParts(x, m);
      SpreadParts(Shift(x, m), m);
    } else {
      ZeroShift(m);
    }
  }

  lemma ZeroShift(m: nat)
    requires m > 0
    ensures Shift(0, m) == 0
  {
    DivIs(0, m, 0, 0);
  }

  lemma SpreadParts(x: nat, m: nat)
    requires m > 0
    ensures Spread(x, m) / 2 == Spread(x / 2, m) && (Spread(x, m) % 2 == 0 <==> x % m == 0)
  {
    if x == 0 {
      DivIs(0, m, 0, 0);
    }
  }

  /** Every bit up to the highest set bit. */
  function Filled(x: nat): nat {
    if x == 0 then 0 else 2 * Filled(x / 2) + 1
  }

  lemma {:induction false} SpreadIsFilled(x: nat, m: nat)
    requires x < m
    ensures Spread(x, m) == Filled(x)
  {
    if x > 0 {
      DivIs(x, m, 0, x);
      SpreadIsFilled(x / 2, m);
    }
  }

  lemma {:induction false} PowerFromHalf(x: nat, p: nat)
    requires p > 0
    ensures PowerFrom(x, 2 * p) == 2 * PowerFrom((x + 1) / 2, p)
    decreases x - p
  {
    if 2 * p < x {
      PowerFromHalf(x, 2 * p);
    }
  }

  lemma {:induction false} FilledIsLeast(x: nat)
    requires x > 0
    ensures Filled(x - 1) + 1 == PowerFrom(x, 1)
  {
    if x > 1 {
      PowerFromHalf(x, 1);
      FilledIsLeast((x + 1) / 2);
      assert (x - 1) / 2 == (x + 1) / 2 - 1;
    }
  }

  /** The macro, line by line; decrementing and incrementing wrap around. */
  method KRoundUp(x: Word) returns (r: nat)
    ensures r == RoundUp(x)
  {
    hide Spread, Or, Filled, PowerOfTwo;
    r := (x + WORD - 1) % WORD;
    ghost var y := r;
    SpreadOne(y);
    Widths();
    r := Or(r, Shift(r, 0x2));
    Doubles(y, 0x2, 0x4);
    r := Or(r, Shift(r, 0x4));
    Doubles(y, 0x4, 0x10);
    r := Or(r, Shift(r, 0x10));
    Doubles(y, 0x10, 0x100);
    r := Or(r, Shift(r, 0x100));
    Doubles(y, 0x100, 0x1_0000);
    r := Or(r, Shift(r, 0x1_0000));
    Doubles(y, 0x1_0000, WORD);
    SpreadIsFilled(y, WORD);
    r := (r + 1) % WORD;
    FilledWraps(x, y);
  }

  lemma Widths()
    ensures PowerOfTwo(0x2) && PowerOfTwo(0x4) && PowerOfTwo(0x10) && PowerOfTwo(0x100) && PowerOfTwo(0x1_0000)
  {
    hide PowerOfTwo;
    OneIsPower();
    DoubleIsPower(0x1);
    DoubleIsPower(0x2);
    SixteenTimes(0x1);
    SixteenTimes(0x10);
    SixteenTimes(0x100);
    SixteenTimes(0x1000);
  }

  lemma FilledWraps(x: nat, y: nat)
    requires x < WORD && y == (x + WORD - 1) % WORD
    ensures (Filled(y) + 1) % WORD == RoundUp(x)
  {
    hide PowerOfTwo, Filled, PowerFrom;
    if x == 0 {
      FilledIsLeast(WORD);
      TopPower(WORD);
    } else {
      assert y == x - 1;
      FilledIsLeast(x);
      if x > MAX_BUCKETS {
        TopPower(x);
      } else {
        MaximumIsPower();
        OneIsPower();
        PowerFromIsBounded(x, 1, MAX_BUCKETS);
      }
    }
  }

  lemma TopPower(x: nat)
    requires MAX_BUCKETS < x <= WORD
    ensures PowerFrom(x, 1) == WORD
  {
    MaximumIsPower();
    DoubleIsPower(MAX_BUCKETS);
    hide PowerOfTwo;
    OneIsPower();
    PowerFromIs(x, 1, WORD);
  }
}
