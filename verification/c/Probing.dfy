/** The probe sequence of src/c/khash.h: step sizes 1, 2, 3, ... modulo a power of two. */
module Probing {

  predicate PowerOfTwo(n: nat) {
    n == 1 || (n > 0 && n % 2 == 0 && PowerOfTwo(n / 2))
  }

  function Triangle(s: nat): nat {
    if s == 0 then 0 else Triangle(s - 1) + s
  }

  /** x & (n - 1) for a power of two n: the remainder by n. Adding in 32 bits first changes
      nothing, because a power of two n up to 2^31 divides 2^32. */
  function Mask(x: nat, n: nat): (r: nat)
    requires n > 0
    ensures r < n
    decreases x
  {
    if x < n then x else Mask(x - n, n)
  }

  lemma {:induction false} MaskIsRemainder(x: nat, n: nat)
    requires n > 0
    ensures Mask(x, n) == x % n
    decreases x
  {
    if x >= n {
      MaskIsRemainder(x - n, n);
      ModAdd(x - n, n);
    }
  }

  /** The bucket after s steps, as the loops compute it. */
  function Probe(h: nat, s: nat, n: nat): (p: nat)
    requires n > 0
    ensures p < n
  {
    if s == 0 then Mask(h, n) else Mask(Probe(h, s - 1, n) + s, n)
  }

  lemma ModCongruent(a: int, b: int, n: nat)
    requires n > 0
    ensures (a % n + b) % n == (a + b) % n
  {
    var q := a / n;
    assert a == q * n + a % n;
    ModShift(a % n + b, q, n);
    assert a % n + b + q * n == a + b;
  }

  lemma {:induction false} ModShift(a: int, q: int, n: nat)
    requires n > 0
    ensures (a + q * n) % n == a % n
    decreases if q < 0 then -q else q
  {
    if q > 0 {
      ModShift(a, q - 1, n);
      ModAdd(a + (q - 1) * n, n);
      assert a + q * n == a + (q - 1) * n + n;
    } else if q < 0 {
      ModShift(a, q + 1, n);
      ModAdd(a + q * n, n);
      assert a + (q + 1) * n == a + q * n + n;
    }
  }

  lemma ModAdd(a: int, n: nat)
    requires n > 0
    ensures (a + n) % n == a % n
  {
    var q, r := a / n, a % n;
    assert a == q * n + r;
    assert a + n == (q + 1) * n + r;
    QuotientUnique(a + n, q + 1, r, n);
  }

  lemma QuotientUnique(a: int, q: int, r: nat, n: nat)
    requires n > 0 && a == q * n + r && r < n
    ensures a % n == r
  {
    var d := a / n - q;
    assert d * n == r - a % n;
  }

  /** The closed form: triangular numbers. */
  lemma {:induction false} ProbeIsTriangular(h: nat, s: nat, n: nat)
    requires n > 0
    ensures Probe(h, s, n) == (h + Triangle(s)) % n
  {
    if s == 0 {
      MaskIsRemainder(h, n);
    } else {
      ProbeIsTriangular(h, s - 1, n);
      MaskIsRemainder(Probe(h, s - 1, n) + s, n);
      ModCongruent(h + Triangle(s - 1), s, n);
    }
  }

  lemma {:induction false} TwiceTriangle(s: nat)
    ensures 2 * Triangle(s) == s * (s + 1)
  {
    if s > 0 {
      TwiceTriangle(s - 1);
      assert (s - 1) * s + 2 * s == s * (s + 1);
    }
  }

  /** An odd factor does not help divisibility by a power of two. */
  lemma {:induction false} OddFactor(a: nat, b: nat, product: nat, m: nat)
    requires PowerOfTwo(m) && a % 2 == 1 && product == a * b && product % m == 0
    ensures b % m == 0
    decreases m
  {
    if m > 1 {
      var half, q := m / 2, product / m;
      assert m == 2 * half && PowerOfTwo(half);
      EvenFactor(a, b, q, half);
      MultipleHasNoRemainder(a * (b / 2), q, half);
      OddFactor(a, b / 2, a * (b / 2), half);
      hide PowerOfTwo;
      assert b / 2 == (b / 2 / half) * half;
      assert b == (b / 2 / half) * m;
      MultipleHasNoRemainder(b, b / 2 / half, m);
    }
  }

  /** If a * b is an even multiple and a is odd, then b is even and half of it does. */
  lemma EvenFactor(a: nat, b: nat, q: nat, half: nat)
    requires a % 2 == 1 && a * b == q * (2 * half)
    ensures b % 2 == 0 && a * (b / 2) == q * half
  {
    assert a * b == 2 * (q * half);
    if b % 2 == 1 {
      OddTimesOdd(a, b);
    } else {
      var c := b / 2;
      assert b == 2 * c;
      assert a * b == 2 * (a * c);
    }
  }

  lemma MultipleHasNoRemainder(x: nat, q: nat, n: nat)
    requires n > 0 && x == q * n
    ensures x % n == 0
  {
    ModShift(0, q, n);
  }

  lemma OddTimesOdd(a: nat, b: nat)
    requires a % 2 == 1 && b % 2 == 1
    ensures (a * b) % 2 == 1
  {
    var x, y := a / 2, b / 2;
    assert a * b == (2 * x + 1) * (2 * y + 1) == 2 * (2 * x * y + x + y) + 1;
  }

  /** Equal remainders of triangular numbers, doubled, factor as consecutive-parity numbers. */
  lemma TriangleDifference(s: nat, t: nat)
    requires s < t
    ensures 2 * (Triangle(t) - Triangle(s)) == (t - s) * (t + s + 1)
    ensures Triangle(s) <= Triangle(t)
  {
    TwiceTriangle(s);
    TwiceTriangle(t);
    assert (t - s) * (t + s + 1) == t * t + t - s * s - s;
    assert t * (t + 1) == t * t + t && s * (s + 1) == s * s + s;
  }

  lemma EqualRemainders(x: nat, y: nat, n: nat)
    requires n > 0 && x <= y && x % n == y % n
    ensures (2 * (y - x)) % (2 * n) == 0
  {
    var k := y / n - x / n;
    assert y - x == k * n;
    assert 2 * (y - x) == 0 + k * (2 * n);
    ModShift(0, k, 2 * n);
  }

  lemma NoSmallMultiple(a: nat, m: nat)
    requires 0 < a < m
    ensures a % m != 0
  {
  }

  /** Within one round no bucket is visited twice. */
  lemma ProbesAreDistinct(h: nat, s: nat, t: nat, n: nat)
    requires PowerOfTwo(n) && s < t < n
    ensures Probe(h, s, n) != Probe(h, t, n)
  {
    hide PowerOfTwo, Probe, Triangle;
    ProbeIsTriangular(h, s, n);
    ProbeIsTriangular(h, t, n);
    TriangleDifference(s, t);
    DifferentBuckets(h + Triangle(s), h + Triangle(t), t - s, t + s + 1, n);
  }

  lemma DifferentBuckets(x: nat, y: nat, d: nat, e: nat, n: nat)
    requires PowerOfTwo(n) && 0 < d < 2 * n && 0 < e < 2 * n && (d + e) % 2 == 1
    requires x <= y && 2 * (y - x) == d * e
    ensures x % n != y % n
  {
    if x % n == y % n {
      EqualRemainders(x, y, n);
      DoubleIsPower(n);
      NoOddSplit(d, e, 2 * (y - x), 2 * n);
    }
  }

  lemma DoubleIsPower(n: nat)
    requires PowerOfTwo(n)
    ensures PowerOfTwo(2 * n)
  {
    assert 2 * n / 2 == n;
  }

  lemma NoOddSplit(d: nat, e: nat, product: nat, m: nat)
    requires PowerOfTwo(m) && (d + e) % 2 == 1 && product == d * e && 0 < d < m && 0 < e < m
    ensures product % m != 0
  {
    hide PowerOfTwo;
    if product % m == 0 {
      if d % 2 == 1 {
        OddFactor(d, e, product, m);
        NoSmallMultiple(e, m);
      } else {
        OddFactor(e, d, product, m);
        NoSmallMultiple(d, m);
      }
    }
  }

  lemma {:induction false} DistinctElements<T>(q: seq<T>)
    requires forall i, j :: 0 <= i < j < |q| ==> q[i] != q[j]
    ensures |set x | x in q| == |q|
  {
    if |q| > 0 {
      var front, last := q[..|q| - 1], q[|q| - 1];
      DistinctElements(front);
      assert q == front + [last];
      assert (set x | x in q) == (set x | x in front) + {last};
      assert last !in front;
    } else {
      assert (set x | x in q) == {};
    }
  }

  function Below(n: nat): (r: set<nat>)
    ensures forall x: nat :: x in r <==> x < n
    ensures |r| == n
  {
    if n == 0 then {} else Below(n - 1) + {n - 1}
  }

  /** n distinct numbers below n are all of them. */
  lemma {:induction false} Pigeonhole(q: seq<nat>, p: nat)
    requires forall i, j :: 0 <= i < j < |q| ==> q[i] != q[j]
    requires (forall i :: 0 <= i < |q| ==> q[i] < |q|) && p < |q|
    ensures p in q
  {
    var hit := set x: nat | x in q;
    DistinctElements(q);
    if p !in q {
      assert hit <= Below(|q|) - {p};
      SubsetSize(hit, Below(|q|) - {p});
    }
  }

  lemma {:induction false} SubsetSize<T>(a: set<T>, b: set<T>)
    requires a <= b
    ensures |a| <= |b|
  {
    assert b == a + (b - a);
  }

  /** The first n probes visit every bucket. */
  lemma {:induction false} EveryBucketIsProbed(h: nat, p: nat, n: nat) returns (s: nat)
    requires PowerOfTwo(n) && p < n
    ensures s < n && Probe(h, s, n) == p
  {
    var q := seq(n, i requires 0 <= i < n => Probe(h, i, n));
    forall i, j | 0 <= i < j < n
      ensures q[i] != q[j]
    {
      ProbesAreDistinct(h, i, j, n);
    }
    Pigeonhole(q, p);
    s :| 0 <= s < |q| && q[s] == p;
  }

  /** The start comes round again after 2n - 1 steps. */
  lemma FullCycle(h: nat, n: nat)
    requires n > 0
    ensures Probe(h, 2 * n - 1, n) == Probe(h, 0, n)
  {
    ProbeIsTriangular(h, 0, n);
    ProbeIsTriangular(h, 2 * n - 1, n);
    LastTriangle(n);
    ModShift(h, 2 * n - 1, n);
  }

  /** And that is the first time it does. */
  lemma FirstReturn(h: nat, s: nat, n: nat)
    requires PowerOfTwo(n) && 0 < s < 2 * n
    ensures Probe(h, s, n) == Probe(h, 0, n) <==> s == 2 * n - 1
  {
    hide PowerOfTwo, Probe, Triangle;
    if s == 2 * n - 1 {
      FullCycle(h, n);
    } else {
      ProbeIsTriangular(h, 0, n);
      ProbeIsTriangular(h, s, n);
      TriangleDifference(0, s);
      DifferentBuckets(h + Triangle(0), h + Triangle(s), s, s + 1, n);
    }
  }

  lemma RoundEnds(h: nat, s: nat, n: nat)
    requires n > 0 && s < 2 * n - 1
    ensures Probe(h, s + 1, n) != Probe(h, 0, n) ==> s + 1 < 2 * n - 1
  {
    FullCycle(h, n);
  }

  lemma LastTriangle(n: nat)
    requires n > 0
    ensures Triangle(2 * n - 1) == (2 * n - 1) * n
  {
    TwiceTriangle(2 * n - 1);
    assert 2 * Triangle(2 * n - 1) == (2 * n - 1) * (2 * n) == 2 * ((2 * n - 1) * n);
  }
}
