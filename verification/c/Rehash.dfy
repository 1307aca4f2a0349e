/** The in-place rehash of kh_resize in src/c/khash.h. Live elements of the old table are taken
    out one by one and placed by the new probe sequence; an old element found in the way is
    kicked out and placed next. */
module Rehash {
  import opened Probing
  import opened KHashTable

  /** Bucket p holds an element that is still to be moved, or one that has been placed. */
  predicate Taken(old_: seq<Flag>, new_: seq<Flag>, p: nat) {
    (p < |old_| && old_[p] == Live) || (p < |new_| && new_[p] == Live)
  }

  /** The state between two steps: the elements in the arrays, waiting or placed, are those of m
      at the keys of loc, and the placed ones satisfy the probe invariant of the new table. */
  ghost predicate Moving<K(!new), V>(hash: K -> nat, m: map<K, V>, old_: seq<Flag>, new_: seq<Flag>, keys: seq<K>, vals: seq<V>, loc: map<K, nat>, step: map<K, nat>) {
    && |keys| == |vals| && |old_| <= |keys| && 0 < |new_| <= |keys|
    && (forall p :: 0 <= p < |new_| ==> new_[p] != Deleted)
    && (forall p :: 0 <= p < |old_| && old_[p] == Live && p < |new_| ==> new_[p] == Empty)
    && (forall k :: k in loc ==> k in m && loc[k] < |keys| && Taken(old_, new_, loc[k]) && keys[loc[k]] == k && vals[loc[k]] == m[k])
    && (forall p {:trigger keys[p]} :: 0 <= p < |keys| && Taken(old_, new_, p) ==> keys[p] in loc && loc[keys[p]] == p)
    && (forall k :: k in loc && Placed(new_, loc[k]) ==> k in step && Reaches(new_, hash(k), step[k], loc[k]))
  }

  predicate Placed(new_: seq<Flag>, p: nat) {
    p < |new_| && new_[p] == Live
  }

  /** One element is out of the table; all others are in it. */
  ghost predicate InHand<K(!new), V>(m: map<K, V>, loc: map<K, nat>, key: K, val: V) {
    key in m && m[key] == val && key !in loc && m.Keys == loc.Keys + {key}
  }

  /** Before the first element is moved, all wait in the old table. */
  lemma NothingPlaced<K(!new), V>(hash: K -> nat, m: map<K, V>, old_: seq<Flag>, new_: seq<Flag>, ks: seq<K>, keys: seq<K>, vals: seq<V>, loc: map<K, nat>, step: map<K, nat>)
    requires Located(old_, ks, loc) && m.Keys == loc.Keys && |keys| == |vals| && |old_| <= |keys| && 0 < |new_| <= |keys|
    requires forall p :: 0 <= p < |new_| ==> new_[p] == Empty
    requires forall p :: 0 <= p < |old_| ==> keys[p] == ks[p]
    requires forall k :: k in loc ==> vals[loc[k]] == m[k]
    ensures Moving(hash, m, old_, new_, keys, vals, loc, step)
  {
  }

  /** Taking a waiting element into the hand. */
  lemma TakeOut<K(!new), V>(hash: K -> nat, m: map<K, V>, old_: seq<Flag>, new_: seq<Flag>, keys: seq<K>, vals: seq<V>, loc: map<K, nat>, step: map<K, nat>, j: nat)
    requires Moving(hash, m, old_, new_, keys, vals, loc, step) && m.Keys == loc.Keys
    requires j < |old_| && old_[j] == Live
    ensures j < |keys| && j < |vals| && Moving(hash, m, old_[j := Deleted], new_, keys, vals, loc - {keys[j]}, step)
    ensures InHand(m, loc - {keys[j]}, keys[j], vals[j])
  {
    assert Taken(old_, new_, j);
    forall p | 0 <= p < |keys| && Taken(old_[j := Deleted], new_, p)
      ensures keys[p] in loc - {keys[j]} && loc[keys[p]] == p
    {
      assert Taken(old_, new_, p);
    }
    forall k | k in loc - {keys[j]}
      ensures Taken(old_[j := Deleted], new_, loc[k])
    {
      assert Taken(old_, new_, loc[k]);
    }
  }

  /** Placing the element in hand into bucket i, which no waiting element holds. */
  lemma PlaceFree<K(!new), V>(hash: K -> nat, m: map<K, V>, old_: seq<Flag>, new_: seq<Flag>, keys: seq<K>, vals: seq<V>, loc: map<K, nat>, step: map<K, nat>, key: K, val: V, i: nat, s: nat)
    requires Moving(hash, m, old_, new_, keys, vals, loc, step) && InHand(m, loc, key, val)
    requires Reaches(new_, hash(key), s, i) && new_[i] == Empty && !(i < |old_| && old_[i] == Live)
    ensures Moving(hash, m, old_, new_[i := Live], keys[i := key], vals[i := val], loc[key := i], step[key := s])
    ensures m.Keys == loc[key := i].Keys
  {
    var new', keys', loc' := new_[i := Live], keys[i := key], loc[key := i];
    assert !Taken(old_, new_, i);
    forall p | 0 <= p < |keys'| && Taken(old_, new', p)
      ensures keys'[p] in loc' && loc'[keys'[p]] == p
    {
      if p != i {
        assert Taken(old_, new_, p);
      }
    }
    forall k | k in loc'
      ensures loc'[k] < |keys'| && Taken(old_, new', loc'[k]) && keys'[loc'[k]] == k
    {
      if k != key {
        assert Taken(old_, new_, loc[k]);
      }
    }
    PathsSurvive(hash, new_, loc, step, key, i, s);
  }

  /** Placing the element in hand into bucket i and taking out the waiting element found there. */
  lemma PlaceKick<K(!new), V>(hash: K -> nat, m: map<K, V>, old_: seq<Flag>, new_: seq<Flag>, keys: seq<K>, vals: seq<V>, loc: map<K, nat>, step: map<K, nat>, key: K, val: V, i: nat, s: nat)
    requires Moving(hash, m, old_, new_, keys, vals, loc, step) && InHand(m, loc, key, val)
    requires Reaches(new_, hash(key), s, i) && new_[i] == Empty && i < |old_| && old_[i] == Live
    ensures var loc' := (loc - {keys[i]})[key := i];
      Moving(hash, m, old_[i := Deleted], new_[i := Live], keys[i := key], vals[i := val], loc', step[key := s])
      && InHand(m, loc', keys[i], vals[i])
  {
    var old', new', keys', loc' := old_[i := Deleted], new_[i := Live], keys[i := key], (loc - {keys[i]})[key := i];
    assert Taken(old_, new_, i);
    forall p | 0 <= p < |keys'| && Taken(old', new', p)
      ensures keys'[p] in loc' && loc'[keys'[p]] == p
    {
      if p != i {
        assert Taken(old_, new_, p);
      }
    }
    forall k | k in loc'
      ensures loc'[k] < |keys'| && Taken(old', new', loc'[k]) && keys'[loc'[k]] == k
    {
      if k != key {
        assert Taken(old_, new_, loc[k]);
      }
    }
    PathsSurvive(hash, new_, loc, step, key, i, s);
  }

  /** The new flags only go from empty to live, so no probe path is cut. */
  lemma PathsSurvive<K(!new)>(hash: K -> nat, new_: seq<Flag>, loc: map<K, nat>, step: map<K, nat>, key: K, i: nat, s: nat)
    requires Reaches(new_, hash(key), s, i) && i < |new_|
    requires forall k :: k in loc && Placed(new_, loc[k]) ==> k in step && Reaches(new_, hash(k), step[k], loc[k])
    ensures Reaches(new_[i := Live], hash(key), s, i)
    ensures forall k :: k in loc && Placed(new_, loc[k]) ==> k in step && Reaches(new_[i := Live], hash(k), step[k], loc[k])
  {
  }

  /** With an element in hand, fewer buckets are placed than there are elements. */
  lemma {:induction false} FreeBucket<K(!new), V>(hash: K -> nat, m: map<K, V>, old_: seq<Flag>, new_: seq<Flag>, keys: seq<K>, vals: seq<V>, loc: map<K, nat>, step: map<K, nat>)
    requires Moving(hash, m, old_, new_, keys, vals, loc, step) && |m| < |new_|
    ensures Used(new_) < |new_|
  {
    UsedIsOccupied(new_);
    var placed := Occupied(new_);
    PlacedKeys(new_, keys, loc, placed);
    assert (set p | p in placed :: keys[p]) <= m.Keys;
    SubsetSize((set p | p in placed :: keys[p]), m.Keys);
  }

  lemma {:induction false} PlacedKeys<K(!new)>(new_: seq<Flag>, keys: seq<K>, loc: map<K, nat>, buckets: set<nat>)
    requires forall p :: p in buckets ==> p < |keys| && keys[p] in loc && loc[keys[p]] == p
    ensures |set p | p in buckets :: keys[p]| == |buckets|
  {
    if buckets != {} {
      var q :| q in buckets;
      PlacedKeys(new_, keys, loc, buckets - {q});
      assert (set p | p in buckets :: keys[p]) == (set p | p in buckets - {q} :: keys[p]) + {keys[q]};
    }
  }

  function Waiting(old_: seq<Flag>): set<nat> {
    set p | 0 <= p < |old_| && old_[p] == Live
  }

  /** When nothing waits, the new table is a consistent table of the same elements. */
  lemma {:induction false} MovedIsLocated<K(!new), V>(hash: K -> nat, m: map<K, V>, old_: seq<Flag>, new_: seq<Flag>, keys: seq<K>, vals: seq<V>, loc: map<K, nat>, step: map<K, nat>)
    requires Moving(hash, m, old_, new_, keys, vals, loc, step) && m.Keys == loc.Keys
    requires forall p :: 0 <= p < |old_| ==> old_[p] != Live
    ensures Located(new_, keys[..|new_|], loc) && AllReachable(hash, new_, loc, step)
    ensures Used(new_) == |m| && |new_| <= |vals| && forall k :: k in loc ==> loc[k] < |new_| && vals[loc[k]] == m[k]
  {
    forall k | k in loc
      ensures loc[k] < |new_| && new_[loc[k]] == Live
    {
      assert Taken(old_, new_, loc[k]);
    }
    forall p | 0 <= p < |new_| && new_[p] == Live
      ensures keys[p] in loc && loc[keys[p]] == p
    {
      assert Taken(old_, new_, p);
    }
    UsedIsOccupied(new_);
    PlacedKeys(new_, keys, loc, Occupied(new_));
    assert (set p | p in Occupied(new_) :: keys[p]) == m.Keys by {
      forall k | k in m.Keys
        ensures k in (set p | p in Occupied(new_) :: keys[p])
      {
        assert loc[k] in Occupied(new_) && keys[loc[k]] == k;
      }
    }
  }

  lemma MovedIsConsistent<K(!new), V>(hash: K -> nat, m: map<K, V>, new_: seq<Flag>, keys: seq<K>, vals: seq<V>, loc: map<K, nat>, step: map<K, nat>)
    requires PowerOfTwo(|new_|) && 4 <= |new_| <= MAX_BUCKETS && |m| < UpperBound(|new_|) && |vals| >= |new_|
    requires Located(new_, keys, loc) && AllReachable(hash, new_, loc, step) && Used(new_) == |m| && m.Keys == loc.Keys
    requires forall k :: k in loc ==> loc[k] < |new_| && vals[loc[k]] == m[k]
    ensures Consistent(hash, new_, keys, |m|, |m|, loc, step) && Holds(vals, loc, m)
  {
    assert |loc| == |loc.Keys| == |m.Keys| == |m|;
  }
}
