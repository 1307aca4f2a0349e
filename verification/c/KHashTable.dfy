/** The open-addressing hash table of src/c/khash.h. Flags are kept one per bucket here; the
    table packs sixteen of them into a word. */
module KHashTable {
  import opened Probing

  datatype Flag = Empty | Live | Deleted

  const MAX_BUCKETS: nat := 0x8000_0000

  /** (khint_t)(n * 0.77 + 0.5) */
  function UpperBound(n: nat): nat {
    (77 * n + 50) / 100
  }

  function PowerFrom(x: nat, p: nat): (r: nat)
    requires p > 0
    ensures r >= x && r >= p
    decreases x - p
  {
    if p >= x then p else PowerFrom(x, 2 * p)
  }

  lemma {:induction false} PowerFromIsPower(x: nat, p: nat)
    requires PowerOfTwo(p)
    ensures PowerOfTwo(PowerFrom(x, p))
    decreases x - p
  {
    if p < x {
      DoubleIsPower(p);
      PowerFromIsPower(x, 2 * p);
    }
  }

  /** kroundup32: the least power of two from x on, or 0 where 32 bits cannot hold it. */
  function RoundUp(x: nat): nat {
    if x == 0 || x > MAX_BUCKETS then 0 else PowerFrom(x, 1)
  }

  function NewSize(requested: nat): nat {
    if RoundUp(requested) < 4 then 4 else RoundUp(requested)
  }

  lemma {:induction false} SamePower(p: nat, n: nat)
    requires PowerOfTwo(p) && PowerOfTwo(n) && n < 2 * p && p <= n
    ensures p == n
    decreases n
  {
    if p > 1 {
      assert p == 2 * (p / 2) && n == 2 * (n / 2);
      SamePower(p / 2, n / 2);
    }
  }

  lemma {:induction false} PowerFromIs(x: nat, p: nat, n: nat)
    requires PowerOfTwo(p) && PowerOfTwo(n) && p <= n && x <= n < 2 * x
    ensures PowerFrom(x, p) == n
    decreases n - p
  {
    DoubleIsPower(p);
    hide PowerOfTwo;
    if p >= x || 2 * p > n {
      SamePower(p, n);
    } else {
      PowerFromIs(x, 2 * p, n);
    }
  }

  lemma {:induction false} PowerFromIsBounded(x: nat, p: nat, cap: nat)
    requires PowerOfTwo(p) && PowerOfTwo(cap) && x <= cap && p <= cap
    ensures PowerFrom(x, p) <= cap
    decreases cap - p
  {
    if p < x {
      if cap < 2 * p {
        SamePower(p, cap);
      }
      PowerFromIsBounded(x, 2 * p, cap);
    }
  }

  lemma NewSizeIsValid(requested: nat)
    ensures PowerOfTwo(NewSize(requested)) && 4 <= NewSize(requested) <= MAX_BUCKETS
    ensures UpperBound(NewSize(requested)) < NewSize(requested)
  {
    MaximumIsPower();
    if 0 < requested <= MAX_BUCKETS {
      PowerFromIsPower(requested, 1);
      PowerFromIsBounded(requested, 1, MAX_BUCKETS);
    }
  }

  /** The two requests that kh_put makes: the same size again, or twice the size. */
  lemma PutSizes(n: nat)
    requires PowerOfTwo(n) && 4 <= n <= MAX_BUCKETS
    ensures NewSize(n - 1) == n
    ensures NewSize(n + 1) == (if n < MAX_BUCKETS then 2 * n else 4)
    ensures n < MAX_BUCKETS ==> 2 * n <= MAX_BUCKETS && PowerOfTwo(2 * n)
  {
    PowerFromIs(n - 1, 1, n);
    assert PowerOfTwo(2 * n);
    PowerFromIs(n + 1, 1, 2 * n);
    assert PowerOfTwo(0x8000_0000) by {
      MaximumIsPower();
    }
    if n < MAX_BUCKETS < 2 * n {
      SamePower(n, MAX_BUCKETS);
    }
  }

  lemma MaximumIsPower()
    ensures PowerOfTwo(MAX_BUCKETS)
  {
    hide PowerOfTwo;
    OneIsPower();
    SixteenTimes(0x1);
    SixteenTimes(0x10);
    SixteenTimes(0x100);
    SixteenTimes(0x1000);
    SixteenTimes(0x1_0000);
    SixteenTimes(0x10_0000);
    SixteenTimes(0x100_0000);
    DoubleIsPower(0x1000_0000);
    DoubleIsPower(0x2000_0000);
    DoubleIsPower(0x4000_0000);
  }

  lemma OneIsPower()
    ensures PowerOfTwo(1)
  {
  }

  lemma SixteenTimes(n: nat)
    requires PowerOfTwo(n)
    ensures PowerOfTwo(16 * n)
  {
    hide PowerOfTwo;
    DoubleIsPower(n);
    DoubleIsPower(2 * n);
    DoubleIsPower(4 * n);
    DoubleIsPower(8 * n);
  }

  /** The size that kh_put asks for when the load is reached: the same again if less than half
      of the buckets are live (size << 1 in 32 bits), the next size otherwise. */
  function PutRequest(n: nat, size: nat): nat {
    if n > (2 * size) % 0x1_0000_0000 then n - 1 else n + 1
  }

  lemma RequestFits(n: nat, size: nat)
    requires n == 0 || (PowerOfTwo(n) && 4 <= n <= MAX_BUCKETS)
    requires size <= n
    ensures var n' := NewSize(PutRequest(n, size));
      if n == MAX_BUCKETS then n' == n || size >= UpperBound(n')
      else n <= n' && size < UpperBound(n') < n'
  {
    if n == 0 {
      assert RoundUp(1) == 1;
    } else {
      hide NewSize, UpperBound, PowerOfTwo;
      PutSizes(n);
      RequestIs(n, size);
      SmallBound();
      if n < MAX_BUCKETS {
        LoadFits(n, size, NewSize(PutRequest(n, size)));
      }
    }
  }

  /** The 32-bit shift only overflows when all of 2^31 buckets are live. */
  lemma RequestIs(n: nat, size: nat)
    requires size <= n <= MAX_BUCKETS
    ensures PutRequest(n, size) == (if n > 2 * size || size == MAX_BUCKETS then n - 1 else n + 1)
  {
  }

  lemma SmallBound()
    ensures UpperBound(4) == 3
  {
  }

  lemma LoadFits(n: nat, size: nat, n': nat)
    requires 4 <= n < MAX_BUCKETS && size <= n && (if n > 2 * size then n' == n else n' == 2 * n)
    ensures size < UpperBound(n') < n'
  {
  }

  // Probe paths over a flag table -----------------------------------------------------------

  predicate NoEmptyBefore(flags: seq<Flag>, h: nat, s: nat)
    requires |flags| > 0
  {
    forall t :: 0 <= t < s ==> flags[Probe(h, t, |flags|)] != Empty
  }

  /** Bucket p is the s-th probe of the hash h, and every earlier probe meets a used bucket. */
  predicate Reaches(flags: seq<Flag>, h: nat, s: nat, p: nat) {
    s < |flags| && Probe(h, s, |flags|) == p && NoEmptyBefore(flags, h, s)
  }

  /** loc is exactly the inverse of keys over the live buckets. */
  ghost predicate Located<K>(flags: seq<Flag>, keys: seq<K>, loc: map<K, nat>) {
    && |keys| == |flags|
    && (forall k :: k in loc ==> loc[k] < |flags| && flags[loc[k]] == Live && keys[loc[k]] == k)
    && (forall p {:trigger keys[p]} :: 0 <= p < |flags| && flags[p] == Live ==> keys[p] in loc && loc[keys[p]] == p)
  }

  /** The probe invariant: a search for a live key meets no empty bucket before its own. */
  ghost predicate AllReachable<K(!new)>(hash: K -> nat, flags: seq<Flag>, loc: map<K, nat>, step: map<K, nat>) {
    forall k :: k in loc ==> k in step && Reaches(flags, hash(k), step[k], loc[k])
  }

  function Occupied(flags: seq<Flag>): set<nat> {
    set p | 0 <= p < |flags| && flags[p] != Empty
  }

  /** How many buckets are not empty. */
  function Used(flags: seq<Flag>): (n: nat)
    ensures n <= |flags|
  {
    if |flags| == 0 then 0
    else Used(flags[..|flags| - 1]) + (if flags[|flags| - 1] != Empty then 1 else 0)
  }

  lemma {:induction false} UsedIsOccupied(flags: seq<Flag>)
    ensures Used(flags) == |Occupied(flags)|
  {
    if |flags| > 0 {
      var front, last := flags[..|flags| - 1], |flags| - 1;
      UsedIsOccupied(front);
      assert Occupied(flags) == Occupied(front) + (if flags[last] != Empty then {last} else {});
    } else {
      assert Occupied(flags) == {};
    }
  }

  /** A table that is not full has an empty bucket, and every probe sequence finds one. */
  lemma {:induction false} ProbeFindsEmpty(flags: seq<Flag>, h: nat) returns (s: nat)
    requires PowerOfTwo(|flags|) && Used(flags) < |flags|
    ensures s < |flags| && flags[Probe(h, s, |flags|)] == Empty
  {
    UsedIsOccupied(flags);
    FullTable(flags);
    var p: nat :| p < |flags| && flags[p] == Empty;
    s := EveryBucketIsProbed(h, p, |flags|);
  }

  lemma FullTable(flags: seq<Flag>)
    ensures (forall p :: 0 <= p < |flags| ==> flags[p] != Empty) ==> |Occupied(flags)| == |flags|
  {
    if forall p :: 0 <= p < |flags| ==> flags[p] != Empty {
      assert Occupied(flags) == Below(|flags|);
    }
  }

  /** The first s probes met no live bucket with this key. */
  ghost predicate Missed<K>(flags: seq<Flag>, keys: seq<K>, h: nat, key: K, s: nat)
    requires |flags| > 0 && |keys| == |flags|
  {
    forall t :: 0 <= t < s ==> flags[Probe(h, t, |flags|)] != Live || keys[Probe(h, t, |flags|)] != key
  }

  lemma NothingMissed<K>(flags: seq<Flag>, keys: seq<K>, h: nat, key: K)
    requires |flags| > 0 && |keys| == |flags|
    ensures Missed(flags, keys, h, key, 0)
  {
  }

  lemma OneMoreMissed<K>(flags: seq<Flag>, keys: seq<K>, h: nat, key: K, s: nat)
    requires |flags| > 0 && |keys| == |flags| && Missed(flags, keys, h, key, s)
    requires flags[Probe(h, s, |flags|)] != Live || keys[Probe(h, s, |flags|)] != key
    ensures Missed(flags, keys, h, key, s + 1)
  {
  }

  /** A live key is met at its step, or an earlier probe has met it. */
  lemma LiveKeyIsMet<K(!new)>(hash: K -> nat, flags: seq<Flag>, keys: seq<K>, loc: map<K, nat>, step: map<K, nat>, key: K)
    requires Located(flags, keys, loc) && AllReachable(hash, flags, loc, step) && key in loc
    ensures key in step && Reaches(flags, hash(key), step[key], loc[key])
    ensures |flags| > 0 && flags[Probe(hash(key), step[key], |flags|)] == Live
      && keys[Probe(hash(key), step[key], |flags|)] == key
  {
  }

  lemma LiveKeyIsLocated<K(!new)>(flags: seq<Flag>, keys: seq<K>, loc: map<K, nat>, p: nat)
    requires Located(flags, keys, loc) && p < |flags| && flags[p] == Live
    ensures keys[p] in loc && loc[keys[p]] == p
  {
  }

  lemma AbsentAtEmpty<K(!new)>(hash: K -> nat, flags: seq<Flag>, keys: seq<K>, loc: map<K, nat>, step: map<K, nat>, key: K, s: nat)
    requires Located(flags, keys, loc) && AllReachable(hash, flags, loc, step) && |flags| > 0
    requires Missed(flags, keys, hash(key), key, s) && flags[Probe(hash(key), s, |flags|)] == Empty
    ensures key !in loc
  {
    if key in loc {
      LiveKeyIsMet(hash, flags, keys, loc, step, key);
    }
  }

  lemma AbsentAfterRound<K(!new)>(hash: K -> nat, flags: seq<Flag>, keys: seq<K>, loc: map<K, nat>, step: map<K, nat>, key: K, s: nat)
    requires Located(flags, keys, loc) && AllReachable(hash, flags, loc, step) && PowerOfTwo(|flags|)
    requires Missed(flags, keys, hash(key), key, s)
    requires 0 < s && Probe(hash(key), s, |flags|) == Probe(hash(key), 0, |flags|)
    ensures key !in loc && s >= |flags|
  {
    if s < |flags| {
      ProbesAreDistinct(hash(key), 0, s, |flags|);
    }
    if key in loc {
      LiveKeyIsMet(hash, flags, keys, loc, step, key);
    }
  }

  lemma UsedAfter(flags: seq<Flag>, p: nat, flag: Flag)
    requires p < |flags| && flag != Empty
    ensures Used(flags[p := flag]) == Used(flags) + (if flags[p] == Empty then 1 else 0)
  {
    UsedIsOccupied(flags);
    UsedIsOccupied(flags[p := flag]);
    OccupiedAfter(flags, p, flag);
    hide Used, Occupied;
    OneMoreElement(Occupied(flags), p);
  }

  lemma OccupiedAfter(flags: seq<Flag>, p: nat, flag: Flag)
    requires p < |flags| && flag != Empty
    ensures Occupied(flags[p := flag]) == Occupied(flags) + {p}
    ensures p in Occupied(flags) <==> flags[p] != Empty
  {
    var after := flags[p := flag];
    forall i: nat
      ensures i in Occupied(after) <==> i in Occupied(flags) + {p}
    {
      if i < |flags| {
        assert after[i] == if i == p then flag else flags[i];
      }
    }
  }

  lemma OneMoreElement(s: set<nat>, p: nat)
    ensures |s + {p}| == |s| + (if p in s then 0 else 1)
  {
    if p in s {
      assert s + {p} == s;
    }
  }

  /** The table invariant: counters, locations and probe paths. Below 2^31 buckets the load never
      exceeds the upper bound. */
  ghost predicate Consistent<K(!new)>(hash: K -> nat, flags: seq<Flag>, keys: seq<K>, size: nat, nOccupied: nat, loc: map<K, nat>, step: map<K, nat>) {
    && (|flags| == 0 || (PowerOfTwo(|flags|) && 4 <= |flags| <= MAX_BUCKETS))
    && |loc| == size && Used(flags) == nOccupied
    && (0 < |flags| < MAX_BUCKETS ==> nOccupied <= UpperBound(|flags|))
    && Located(flags, keys, loc) && AllReachable(hash, flags, loc, step)
  }

  /** Live buckets are among the used ones, and these among all. */
  lemma CountersAreOrdered<K(!new)>(flags: seq<Flag>, keys: seq<K>, loc: map<K, nat>)
    requires Located(flags, keys, loc)
    ensures |loc| <= Used(flags) <= |flags|
  {
    UsedIsOccupied(flags);
    LiveKeysFit(flags, loc, loc.Keys);
    SubsetSize(Occupied(flags), Below(|flags|));
  }

  lemma {:induction false} LiveKeysFit<K(!new)>(flags: seq<Flag>, loc: map<K, nat>, ks: set<K>)
    requires ks <= loc.Keys
    requires forall k :: k in loc ==> loc[k] < |flags| && flags[loc[k]] == Live
    requires forall j, k :: j in loc && k in loc && j != k ==> loc[j] != loc[k]
    ensures |ks| <= |Occupied(flags)|
  {
    var used := set k | k in ks :: loc[k];
    ImageSize(loc, ks);
    SubsetSize(used, Occupied(flags));
  }

  lemma {:induction false} ImageSize<K(!new)>(loc: map<K, nat>, ks: set<K>)
    requires ks <= loc.Keys
    requires forall j, k :: j in loc && k in loc && j != k ==> loc[j] != loc[k]
    ensures |set k | k in ks :: loc[k]| == |ks|
  {
    if ks != {} {
      var q :| q in ks;
      ImageSize(loc, ks - {q});
      assert (set k | k in ks :: loc[k]) == (set k | k in ks - {q} :: loc[k]) + {loc[q]};
    }
  }

  /** As many live keys as buckets: every bucket is live. */
  lemma FullIsLive<K(!new)>(flags: seq<Flag>, keys: seq<K>, loc: map<K, nat>)
    requires Located(flags, keys, loc) && |loc| >= |flags|
    ensures forall p :: 0 <= p < |flags| ==> flags[p] == Live
  {
    var used := set k | k in loc :: loc[k];
    ImageSize(loc, loc.Keys);
    forall p | 0 <= p < |flags|
      ensures flags[p] == Live
    {
      if flags[p] != Live {
        SubsetSize(used, Below(|flags|) - {p});
      }
    }
  }

  ghost predicate Holds<K(!new), V>(vals: seq<V>, loc: map<K, nat>, contents: map<K, V>) {
    contents.Keys == loc.Keys && forall k :: k in loc ==> loc[k] < |vals| && vals[loc[k]] == contents[k]
  }

  // One insertion or deletion ----------------------------------------------------------------

  /** Every probe of a hash before the s-th has an equal probe within the first round. */
  lemma FirstRoundStep(flags: seq<Flag>, h: nat, t: nat) returns (s: nat)
    requires PowerOfTwo(|flags|) && NoEmptyBefore(flags, h, t)
    ensures s <= t && Reaches(flags, h, s, Probe(h, t, |flags|))
  {
    s := t;
    if t >= |flags| {
      s := EveryBucketIsProbed(h, Probe(h, t, |flags|), |flags|);
    }
  }

  /** A new key goes into an unused bucket on its own probe path. */
  lemma InsertKeepsTable<K(!new)>(hash: K -> nat, flags: seq<Flag>, keys: seq<K>, size: nat, nOccupied: nat, loc: map<K, nat>, step: map<K, nat>, key: K, x: nat, s: nat)
    requires Consistent(hash, flags, keys, size, nOccupied, loc, step)
    requires key !in loc && x < |flags| && flags[x] != Live && Reaches(flags, hash(key), s, x)
    requires |flags| < MAX_BUCKETS ==> nOccupied < UpperBound(|flags|)
    ensures var used := nOccupied + (if flags[x] == Empty then 1 else 0);
      Consistent(hash, flags[x := Live], keys[x := key], size + 1, used, loc[key := x], step[key := s])
  {
    hide UpperBound, PowerOfTwo, Used, Probe;
    UsedAfter(flags, x, Live);
    forall k | k in loc
      ensures Reaches(flags[x := Live], hash(k), step[k], loc[k])
    {
      assert Reaches(flags, hash(k), step[k], loc[k]);
    }
  }

  /** A deleted bucket stays in use, so no probe path is cut. */
  lemma DeleteKeepsTable<K(!new)>(hash: K -> nat, flags: seq<Flag>, keys: seq<K>, size: nat, nOccupied: nat, loc: map<K, nat>, step: map<K, nat>, x: nat)
    requires Consistent(hash, flags, keys, size, nOccupied, loc, step)
    requires x < |flags| && flags[x] == Live
    ensures size > 0 && Consistent(hash, flags[x := Deleted], keys, size - 1, nOccupied, loc - {keys[x]}, step)
  {
    hide UpperBound, PowerOfTwo, Used, Probe;
    UsedAfter(flags, x, Deleted);
    var less := loc - {keys[x]};
    forall k | k in less
      ensures k in step && Reaches(flags[x := Deleted], hash(k), step[k], less[k])
    {
      assert Reaches(flags, hash(k), step[k], loc[k]);
    }
    assert loc == less[keys[x] := x];
  }

  lemma HoldsOneMore<K(!new), V>(vals: seq<V>, loc: map<K, nat>, contents: map<K, V>, key: K, x: nat)
    requires Holds(vals, loc, contents) && key !in loc && x < |vals|
    ensures Holds(vals, loc[key := x], contents[key := vals[x]])
  {
  }

  lemma UpdateTwice<K, V>(m: map<K, V>, k: K, v: V, w: V)
    ensures m[k := v][k := w] == m[k := w]
  {
  }

  /** After s probes: no empty bucket, no live bucket with the key, and the last deleted bucket. */
  ghost predicate Scanned<K>(flags: seq<Flag>, keys: seq<K>, h: nat, key: K, s: nat, site: nat, siteStep: nat) {
    && |flags| > 0 && |keys| == |flags| && site <= |flags|
    && NoEmptyBefore(flags, h, s) && Missed(flags, keys, h, key, s)
    && (site < |flags| ==> siteStep < s && Probe(h, siteStep, |flags|) == site && flags[site] == Deleted)
    && (site == |flags| ==> forall t :: 0 <= t < s ==> flags[Probe(h, t, |flags|)] == Live)
  }

  lemma ScanStarts<K>(flags: seq<Flag>, keys: seq<K>, h: nat, key: K)
    requires |flags| > 0 && |keys| == |flags|
    ensures Scanned(flags, keys, h, key, 0, |flags|, 0)
  {
  }

  lemma ExtendScan<K>(flags: seq<Flag>, keys: seq<K>, h: nat, key: K, s: nat, site: nat, siteStep: nat)
    requires Scanned(flags, keys, h, key, s, site, siteStep)
    requires var f := flags[Probe(h, s, |flags|)]; f == Deleted || (f == Live && keys[Probe(h, s, |flags|)] != key)
    ensures flags[Probe(h, s, |flags|)] == Deleted ==> Scanned(flags, keys, h, key, s + 1, Probe(h, s, |flags|), s)
    ensures flags[Probe(h, s, |flags|)] != Deleted ==> Scanned(flags, keys, h, key, s + 1, site, siteStep)
  {
  }

  /** A full round over live buckets only means that the table is full. */
  lemma AllLiveIsFull<K(!new)>(flags: seq<Flag>, keys: seq<K>, loc: map<K, nat>, h: nat, j: nat)
    requires Located(flags, keys, loc) && PowerOfTwo(|flags|) && j >= |flags|
    requires forall t :: 0 <= t < j ==> flags[Probe(h, t, |flags|)] == Live
    ensures |loc| >= |flags|
  {
    forall p | 0 <= p < |flags|
      ensures flags[p] == Live
    {
      var t := EveryBucketIsProbed(h, p, |flags|);
    }
    DistinctElements(keys);
    assert (set k | k in keys) <= loc.Keys;
    SubsetSize((set k | k in keys), loc.Keys);
  }
}
