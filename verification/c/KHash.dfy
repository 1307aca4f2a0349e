/** The hash table of src/c/khash.h as an object: kh_init, kh_get, kh_put, kh_del and kh_resize
    over its three arrays. */
module KHash {
  import opened Probing
  import opened KHashTable
  import opened Rehash
  import Rounding = RoundUp

  /** realloc: a larger or smaller buffer with the common prefix copied. */
  method Realloc<T(0)>(a: array<T>, n: nat) returns (b: array<T>)
    ensures fresh(b) && b.Length == n
    ensures forall i :: 0 <= i < n && i < a.Length ==> b[i] == a[i]
  {
    b := new T[n];
    forall i | 0 <= i < n && i < a.Length {
      b[i] := a[i];
    }
  }

  method Store<T>(a: array<T>, i: nat, v: T)
    requires i < a.Length
    modifies a
    ensures a[..] == old(a[..])[i := v]
  {
    a[i] := v;
  }

  class Table<K(==, 0, !new), V(0)> {
    const hash: K -> nat
    var nBuckets: nat
    var size: nat
    var nOccupied: nat
    var upperBound: nat
    var flags: array<Flag>
    var keys: array<K>
    var vals: array<V>
    /** The finite map that the table stores. */
    ghost var contents: map<K, V>
    ghost var loc: map<K, nat>
    ghost var step: map<K, nat>

    /** kh_init */
    constructor (hash: K -> nat)
      ensures Valid() && contents == map[] && this.hash == hash
    {
      this.hash := hash;
      nBuckets, size, nOccupied, upperBound := 0, 0, 0, 0;
      flags, keys, vals := new Flag[0](_ => Empty), new K[0], new V[0];
      contents, loc, step := map[], map[], map[];
    }

    ghost function Arrays(): set<object>
      reads this
    {
      {flags as object, keys as object, vals as object}
    }

    ghost predicate Separate()
      reads this
    {
      (flags as object) != keys && (flags as object) != vals && (keys as object) != vals
    }

    ghost predicate Valid()
      reads this, flags, keys, vals
    {
      && flags.Length == nBuckets && keys.Length == nBuckets && vals.Length == nBuckets && Separate()
      && upperBound == (if nBuckets == 0 then 0 else UpperBound(nBuckets))
      && Consistent(hash, flags[..], keys[..], size, nOccupied, loc, step)
      && Holds(vals[..], loc, contents)
    }

    /** kh_get: the bucket of a key, or n_buckets when the key is absent. */
    method Get(key: K) returns (x: nat)
      requires Valid()
      ensures x <= nBuckets && (x == nBuckets <==> key !in contents)
      ensures x < nBuckets ==> keys[x] == key && vals[x] == contents[key] && flags[x] == Live
    {
      hide Consistent, Missed, Holds;
      if nBuckets == 0 {
        NothingStored();
        return 0;
      }
      var h, n := hash(key), nBuckets;
      var i, s := Mask(h, n), 0;
      var last := i;
      NothingMissed(flags[..], keys[..], h, key);
      while flags[i] != Empty && (flags[i] == Deleted || keys[i] != key)
        invariant s < 2 * n - 1 && i == Probe(h, s, n) && i < n && last == Probe(h, 0, n)
        invariant Missed(flags[..], keys[..], h, key, s)
        decreases 2 * n - s
      {
        OneMoreMissed(flags[..], keys[..], h, key, s);
        RoundEnds(h, s, n);
        s := s + 1;
        i := Mask(i + s, n);
        if i == last {
          RoundIsAbsent(key, s);
          return n;
        }
      }
      SearchEnds(key, i, s);
      return if flags[i] == Empty then n else i;
    }

    lemma NothingStored()
      requires Valid() && nBuckets == 0
      ensures contents == map[]
    {
    }

    /** Where a search stops is the key's bucket or proof of its absence. */
    lemma SearchEnds(key: K, i: nat, s: nat)
      requires Valid() && i < nBuckets && i == Probe(hash(key), s, nBuckets) && Missed(flags[..], keys[..], hash(key), key, s)
      ensures flags[i] == Empty ==> key !in contents
      ensures flags[i] == Live && keys[i] == key ==> key in contents && vals[i] == contents[key]
    {
      hide PowerOfTwo, AllReachable, Reaches, NoEmptyBefore, Missed;
      if flags[i] == Empty {
        AbsentAtEmpty(hash, flags[..], keys[..], loc, step, key, s);
      } else if flags[i] == Live && keys[i] == key {
        LiveKeyIsLocated(flags[..], keys[..], loc, i);
      }
    }

    lemma RoundIsAbsent(key: K, s: nat)
      requires Valid() && nBuckets > 0 && Missed(flags[..], keys[..], hash(key), key, s)
      requires 0 < s && Probe(hash(key), s, nBuckets) == Probe(hash(key), 0, nBuckets)
      ensures key !in contents
    {
      hide PowerOfTwo, AllReachable, Located, Missed;
      AbsentAfterRound(hash, flags[..], keys[..], loc, step, key, s);
    }

    /** kh_del */
    method Delete(x: nat)
      requires Valid() && x <= nBuckets
      modifies this, flags
      ensures Valid() && nBuckets == old(nBuckets)
      ensures x == nBuckets || old(flags[x]) != Live ==> contents == old(contents)
      ensures x < nBuckets && old(flags[x]) == Live ==> contents == old(contents) - {old(keys[x])}
    {
      if x != nBuckets && flags[x] == Live {
        Vacate(x);
      }
    }

    method Vacate(x: nat)
      requires Valid() && x < nBuckets && flags[x] == Live
      modifies this, flags
      ensures Valid() && nBuckets == old(nBuckets) && contents == old(contents) - {old(keys[x])}
    {
      hide Consistent, Holds, UpperBound;
      ghost var key := keys[x];
      VacatedIsValid(x);
      Store(flags, x, Deleted);
      size := size - 1;
      loc, contents := loc - {key}, contents - {key};
    }

    lemma VacatedIsValid(x: nat)
      requires Valid() && x < nBuckets && flags[x] == Live
      ensures size > 0 && Consistent(hash, flags[..][x := Deleted], keys[..], size - 1, nOccupied, loc - {keys[x]}, step)
      ensures Holds(vals[..], loc - {keys[x]}, contents - {keys[x]})
    {
      hide Located, AllReachable, UpperBound, PowerOfTwo, Used;
      DeleteKeepsTable(hash, flags[..], keys[..], size, nOccupied, loc, step, x);
    }

    /** The one state in which a key cannot be taken: it is new, and 2^31 buckets are all live. */
    ghost predicate Stuck(key: K)
      reads this
    {
      nBuckets == size == MAX_BUCKETS && key !in contents
    }

    /** kh_put: finds or makes a bucket for the key. The value of a new key is whatever the bucket
        held. A table that is stuck answers that the key is there already, with the first bucket of
        its probe path, which holds another key. */
    method Put(key: K) returns (x: nat, ret: nat)
      requires Valid()
      modifies this, Arrays()
      ensures Valid() && x < nBuckets && flags[x] == Live
      ensures keys[x] == key <==> !old(Stuck(key))
      ensures key in contents <==> !old(Stuck(key))
      ensures key in contents ==> contents == old(contents)[key := contents[key]] && loc[key] == x
      ensures key in old(contents) || old(Stuck(key)) ==> contents == old(contents)
      ensures ret <= 2 && (ret == 0 <==> key in old(contents) || old(Stuck(key)))
      ensures fresh(Arrays() - old(Arrays()))
    {
      hide Located, AllReachable;
      MakeRoom();
      ghost var s;
      x, s := FindSlot(key);
      if flags[x] == Live {
        ret := 0;
      } else {
        ret := if flags[x] == Empty then 1 else 2;
        Occupy(x, key, s);
      }
    }

    /** The resize step of kh_put. */
    method MakeRoom()
      requires Valid()
      modifies this, Arrays()
      ensures Valid() && contents == old(contents) && nBuckets > 0
      ensures nBuckets < MAX_BUCKETS ==> nOccupied < upperBound
      ensures size == old(size) && (size == nBuckets <==> old(nBuckets) == size == MAX_BUCKETS)
      ensures fresh(Arrays() - old(Arrays()))
    {
      CountersAreOrdered(flags[..], keys[..], loc);
      if nOccupied >= upperBound {
        RequestFits(nBuckets, size);
        Resize(PutRequest(nBuckets, size));
      }
    }

    /** Turns an unused bucket on the probe path of a new key into its bucket. */
    method Occupy(x: nat, key: K, ghost s: nat)
      requires Valid() && x < nBuckets && flags[x] != Live && key !in loc && Reaches(flags[..], hash(key), s, x)
      requires nBuckets < MAX_BUCKETS ==> nOccupied < upperBound
      modifies this, flags, keys
      ensures Valid() && nBuckets == old(nBuckets) && flags == old(flags) && keys == old(keys) && vals == old(vals)
      ensures loc == old(loc)[key := x] && flags[x] == Live && keys[x] == key
      ensures contents == old(contents)[key := vals[x]]
    {
      hide Located, AllReachable, UpperBound, PowerOfTwo, Used, Holds, Reaches;
      ghost var fl, ks, used := flags[..], keys[..], nOccupied;
      nOccupied := nOccupied + (if flags[x] == Empty then 1 else 0);
      Store(keys, x, key);
      Store(flags, x, Live);
      HoldsOneMore(vals[..], loc, contents, key, x);
      InsertKeepsTable(hash, fl, ks, size, used, loc, step, key, x, s);
      size := size + 1;
      loc, step, contents := loc[key := x], step[key := s], contents[key := vals[x]];
    }

    /** kh_put followed by the store through kh_value, as every caller does. A table that is stuck
        changes the value of another key. */
    method Insert(key: K, value: V)
      requires Valid()
      modifies this, Arrays()
      ensures Valid() && (!old(Stuck(key)) ==> contents == old(contents)[key := value])
      ensures old(Stuck(key)) ==> exists other :: other in old(contents) && other != key && contents == old(contents)[other := value]
    {
      var x, ret := Put(key);
      if key in contents {
        UpdateTwice(old(contents), key, contents[key], value);
      } else {
        LiveKeyIsStored(x);
      }
      SetValue(x, value);
    }

    lemma LiveKeyIsStored(x: nat)
      requires Valid() && x < nBuckets && flags[x] == Live
      ensures keys[x] in contents
    {
    }

    /** The store through kh_value. */
    method SetValue(x: nat, value: V)
      requires Valid() && x < nBuckets && flags[x] == Live
      modifies this`contents, vals
      ensures Valid() && contents == old(contents)[keys[x] := value]
    {
      ghost var fl, ks, vs := flags[..], keys[..], vals[..];
      vals[x] := value;
      contents := contents[keys[x] := value];
      assert flags[..] == fl && keys[..] == ks && vals[..] == vs[x := value];
    }

    /** kh_get followed by kh_del, as every caller does. */
    method Remove(key: K)
      requires Valid()
      modifies this, flags
      ensures Valid() && contents == old(contents) - {key}
    {
      var x := Get(key);
      Delete(x);
    }

    /** The search of kh_put: the bucket of the key, or the unused bucket where it belongs. A
        deleted bucket met on the way is taken before the empty one that ends the search. */
    method FindSlot(key: K) returns (x: nat, ghost s: nat)
      requires Valid() && nBuckets > 0
      ensures x < nBuckets && size <= nBuckets
      ensures key in loc ==> x == loc[key] && flags[x] == Live && keys[x] == key
      ensures key !in loc && size < nBuckets ==> flags[x] != Live && Reaches(flags[..], hash(key), s, x)
      ensures key !in loc && size == nBuckets ==> flags[x] == Live && keys[x] != key && x == Probe(hash(key), 0, nBuckets)
    {
      var h, n := hash(key), nBuckets;
      var site, i := n, Mask(h, n);
      var wrapped := false;
      ghost var j, siteStep := 0, 0;
      hide Missed, NoEmptyBefore, Reaches, Scanned, AllReachable, PowerOfTwo, Used;
      ScanStarts(flags[..], keys[..], h, key);
      x := n;
      if flags[i] == Empty {
        x := i;
      } else {
        i, site, wrapped, j, siteStep := Scan(key, h);
        if wrapped {
          x := site;
        }
        if x == n {
          x := if flags[i] == Empty && site != n then site else i;
        }
      }
      CountersAreOrdered(flags[..], keys[..], loc);
      if key in loc || size < nBuckets {
        s := SlotIsRight(key, h, i, site, x, wrapped, j, siteStep);
      } else {
        s := 0;
        FullRound(key, h, i, site, wrapped, j, siteStep);
      }
    }

    /** In a full table the search for a new key goes all the way round, and no site is found. */
    lemma FullRound(key: K, h: nat, i: nat, site: nat, wrapped: bool, j: nat, siteStep: nat)
      requires Valid() && nBuckets > 0 && key !in loc && size >= nBuckets && h == hash(key)
      requires i < nBuckets && Probe(h, j, nBuckets) == i && Scanned(flags[..], keys[..], h, key, j, site, siteStep)
      requires wrapped ==> 0 < j && i == Probe(h, 0, nBuckets)
      requires !wrapped ==> flags[i] == Empty || (flags[i] == Live && keys[i] == key)
      ensures wrapped && site == nBuckets && flags[i] == Live && keys[i] != key
    {
      FullIsLive(flags[..], keys[..], loc);
      LiveKeyIsLocated(flags[..], keys[..], loc, i);
    }

    /** The loop of that search, up to an empty bucket, the key, or a full round. */
    method Scan(key: K, h: nat) returns (i: nat, site: nat, wrapped: bool, ghost j: nat, ghost siteStep: nat)
      requires Valid() && nBuckets > 0 && h == hash(key)
      ensures i < nBuckets && Probe(h, j, nBuckets) == i && Scanned(flags[..], keys[..], h, key, j, site, siteStep)
      ensures if wrapped then 0 < j && i == Probe(h, 0, nBuckets)
              else flags[i] == Empty || (flags[i] == Live && keys[i] == key)
    {
      hide Consistent, Scanned;
      ScanStarts(flags[..], keys[..], h, key);
      ghost var fl, ks := flags[..], keys[..];
      var n, s := nBuckets, 0;
      site, i, siteStep, wrapped := n, Mask(h, n), 0, false;
      var last := i;
      while flags[i] != Empty && (flags[i] == Deleted || keys[i] != key)
        invariant s < 2 * n - 1 && i == Probe(h, s, n) && i < n && last == Probe(h, 0, n)
        invariant Scanned(fl, ks, h, key, s, site, siteStep) && !wrapped
        decreases 2 * n - s
      {
        ExtendScan(fl, ks, h, key, s, site, siteStep);
        if flags[i] == Deleted {
          site, siteStep := i, s;
        }
        RoundEnds(h, s, n);
        s := s + 1;
        i := Mask(i + s, n);
        if i == last {
          wrapped := true;
          break;
        }
      }
      j := s;
    }

    lemma SlotIsRight(key: K, h: nat, i: nat, site: nat, x: nat, wrapped: bool, j: nat, siteStep: nat) returns (s: nat)
      requires Valid() && nBuckets > 0 && (size < nBuckets || key in loc) && h == hash(key)
      requires i < nBuckets && Probe(h, j, nBuckets) == i && Scanned(flags[..], keys[..], h, key, j, site, siteStep)
      requires if wrapped then 0 < j && i == Probe(h, 0, nBuckets)
               else flags[i] == Empty || (flags[i] == Live && keys[i] == key)
      requires x == (if (wrapped || flags[i] == Empty) && site != nBuckets then site else i)
      ensures x < nBuckets && (key in loc ==> x == loc[key])
      ensures if key in loc then flags[x] == Live && keys[x] == key else flags[x] != Live && Reaches(flags[..], hash(key), s, x)
    {
      var fl, ks := flags[..], keys[..];
      s := 0;
      if wrapped {
        AbsentAfterRound(hash, fl, ks, loc, step, key, j);
        if site == nBuckets {
          AllLiveIsFull(fl, ks, loc, h, j);
        }
      } else if flags[i] == Empty {
        AbsentAtEmpty(hash, fl, ks, loc, step, key, j);
      }
      if key !in loc {
        s := FirstRoundStep(fl, h, if site != nBuckets then siteStep else j);
      }
    }

    /** kh_resize: nothing happens when the elements would not fit; otherwise the table has the
        requested size, the same elements and no deleted bucket. */
    method Resize(requested: Rounding.Word)
      requires Valid()
      modifies this, Arrays()
      ensures Valid() && contents == old(contents) && size == old(size)
      ensures old(size) >= UpperBound(NewSize(requested)) ==> nBuckets == old(nBuckets) && nOccupied == old(nOccupied)
      ensures old(size) < UpperBound(NewSize(requested)) ==> nBuckets == NewSize(requested) && nOccupied == size
      ensures fresh(Arrays() - old(Arrays()))
    {
      hide Consistent, UpperBound, PowerOfTwo, Holds, RoundUp;
      var n := Rounding.KRoundUp(requested);
      if n < 4 {
        n := 4;
      }
      NewSizeIsValid(requested);
      if size >= UpperBound(n) {
        return;
      }
      var fresh_ := new Flag[n](_ => Empty);
      Rebuild(fresh_, n);
      flags := fresh_;
      nBuckets, nOccupied, upperBound := n, size, UpperBound(n);
    }

    /** The arrays of the new table: buffers of the new size with every element moved. */
    method Rebuild(fresh_: array<Flag>, n: nat)
      requires Valid() && fresh_.Length == n && PowerOfTwo(n) && 4 <= n <= MAX_BUCKETS && size < UpperBound(n) < n
      requires (forall i :: 0 <= i < n ==> fresh_[i] == Empty) && (fresh_ as object) !in Arrays()
      modifies this`loc, this`step, this`keys, this`vals, fresh_, Arrays()
      ensures Consistent(hash, fresh_[..], keys[..], size, size, loc, step) && Holds(vals[..], loc, contents)
      ensures keys.Length == n && vals.Length == n && (fresh_ as object) != keys && (fresh_ as object) != vals && (keys as object) != vals
      ensures fresh({keys as object, vals as object} - {old(keys) as object, old(vals) as object})
    {
      hide Moving, Located, AllReachable, UpperBound, PowerOfTwo, Used;
      assert |contents| == |contents.Keys| == |loc|;
      Stretch(fresh_, n, contents);
      MoveAll(fresh_, n, contents);
    }

    /** Moves every element and cuts the buffers back to the new size. */
    method MoveAll(fresh_: array<Flag>, n: nat, ghost m: map<K, V>)
      requires fresh_.Length == n && PowerOfTwo(n) && 4 <= n <= MAX_BUCKETS && |m| < UpperBound(n) < n
      requires Apart(fresh_) && nBuckets == flags.Length && keys.Length == (if nBuckets < n then n else nBuckets)
      requires Moving(hash, m, flags[..], fresh_[..], keys[..], vals[..], loc, step) && m.Keys == loc.Keys
      modifies this`loc, this`step, this`keys, this`vals, flags, fresh_, keys, vals
      ensures Consistent(hash, fresh_[..], keys[..], |m|, |m|, loc, step) && Holds(vals[..], loc, m)
      ensures keys.Length == n && vals.Length == n && (fresh_ as object) != keys && (fresh_ as object) != vals && (keys as object) != vals
      ensures fresh({keys as object, vals as object} - {old(keys) as object, old(vals) as object})
    {
      hide Moving, Consistent, Holds, Located, AllReachable, UpperBound, PowerOfTwo, Used;
      Rehash(fresh_, m);
      if nBuckets > n {
        ghost var ks := keys[..n];
        keys := Realloc(keys, n);
        vals := Realloc(vals, n);
        assert keys[..] == ks;
      }
      assert keys[..] == keys[..n];
      MovedIsConsistent(hash, m, fresh_[..], keys[..], vals[..], loc, step);
    }

    /** Makes the key and value buffers long enough for both tables. */
    method Stretch(fresh_: array<Flag>, n: nat, ghost m: map<K, V>)
      requires Valid() && fresh_.Length == n > 0 && (forall i :: 0 <= i < n ==> fresh_[i] == Empty) && m == contents
      requires fresh_ != flags && (fresh_ as object) != keys && (fresh_ as object) != vals
      modifies this`keys, this`vals
      ensures Apart(fresh_) && keys.Length == (if nBuckets < n then n else nBuckets)
      ensures if nBuckets < n then fresh(keys) && fresh(vals) else keys == old(keys) && vals == old(vals)
      ensures Moving(hash, m, flags[..], fresh_[..], keys[..], vals[..], loc, step)
    {
      ghost var ks, vs := keys[..], vals[..];
      if nBuckets < n {
        keys := Realloc(keys, n);
        vals := Realloc(vals, n);
      }
      NothingPlaced(hash, m, flags[..], fresh_[..], ks, keys[..], vals[..], loc, step);
    }

    /** The loop of kh_resize over the old buckets. */
    method Rehash(fresh_: array<Flag>, ghost m: map<K, V>)
      requires PowerOfTwo(fresh_.Length) && |m| < fresh_.Length && Apart(fresh_) && nBuckets == flags.Length
      requires Moving(hash, m, flags[..], fresh_[..], keys[..], vals[..], loc, step) && m.Keys == loc.Keys
      modifies this`loc, this`step, flags, fresh_, keys, vals
      ensures Located(fresh_[..], keys[..fresh_.Length], loc) && AllReachable(hash, fresh_[..], loc, step)
      ensures Used(fresh_[..]) == |m| && m.Keys == loc.Keys
      ensures forall k :: k in loc ==> loc[k] < fresh_.Length && vals[loc[k]] == m[k]
    {
      hide Moving, Located, AllReachable, UpperBound, PowerOfTwo, Used;
      var j := 0;
      while j != nBuckets
        invariant j <= nBuckets && m.Keys == loc.Keys
        invariant Moving(hash, m, flags[..], fresh_[..], keys[..], vals[..], loc, step)
        invariant forall p :: p in Waiting(flags[..]) ==> j <= p
        decreases nBuckets - j
      {
        if flags[j] == Live {
          Move(j, fresh_, m);
        }
        j := j + 1;
      }
      assert forall p :: 0 <= p < nBuckets && flags[..][p] == Live ==> p in Waiting(flags[..]);
      MovedIsLocated(hash, m, flags[..], fresh_[..], keys[..], vals[..], loc, step);
    }

    /** Takes one waiting element out and places it. */
    method Move(j: nat, fresh_: array<Flag>, ghost m: map<K, V>)
      requires PowerOfTwo(fresh_.Length) && |m| < fresh_.Length && Apart(fresh_)
      requires Moving(hash, m, flags[..], fresh_[..], keys[..], vals[..], loc, step) && m.Keys == loc.Keys
      requires j < flags.Length && flags[j] == Live
      modifies this`loc, this`step, flags, fresh_, keys, vals
      ensures Moving(hash, m, flags[..], fresh_[..], keys[..], vals[..], loc, step) && m.Keys == loc.Keys
      ensures Waiting(flags[..]) <= Waiting(old(flags[..])) - {j}
    {
      hide Moving, UpperBound, PowerOfTwo, Used;
      ghost var f := flags[..];
      Store(flags, j, Deleted);
      TakeOut(hash, m, f, fresh_[..], keys[..], vals[..], loc, step, j);
      loc, step := Place(keys[j], vals[j], fresh_, m, loc - {keys[j]}, step);
    }

    ghost predicate Apart(fresh_: array<Flag>)
      reads this
    {
      Separate() && fresh_ != flags && (fresh_ as object) != keys && (fresh_ as object) != vals && keys.Length == vals.Length
    }

    /** The kick-out loop: places the element in hand, and every element that it displaces. */
    method Place(key0: K, val0: V, fresh_: array<Flag>, ghost m: map<K, V>, ghost loc0: map<K, nat>, ghost step0: map<K, nat>)
      returns (ghost loc': map<K, nat>, ghost step': map<K, nat>)
      requires PowerOfTwo(fresh_.Length) && |m| < fresh_.Length && Apart(fresh_)
      requires Moving(hash, m, flags[..], fresh_[..], keys[..], vals[..], loc0, step0) && InHand(m, loc0, key0, val0)
      modifies flags, fresh_, keys, vals
      ensures Moving(hash, m, flags[..], fresh_[..], keys[..], vals[..], loc', step') && m.Keys == loc'.Keys
      ensures Waiting(flags[..]) <= Waiting(old(flags[..]))
    {
      var key, val := key0, val0;
      loc', step' := loc0, step0;
      while true
        invariant Moving(hash, m, flags[..], fresh_[..], keys[..], vals[..], loc', step') && InHand(m, loc', key, val)
        invariant Waiting(flags[..]) <= Waiting(old(flags[..]))
        decreases Waiting(flags[..])
      {
        FreeBucket(hash, m, flags[..], fresh_[..], keys[..], vals[..], loc', step');
        ghost var s;
        var i;
        i, s := FirstEmpty(fresh_, hash(key));
        if i < flags.Length && flags[i] == Live {
          key, val, loc', step' := Kick(i, key, val, fresh_, m, loc', step', s);
        } else {
          loc', step' := Settle(i, key, val, fresh_, m, loc', step', s);
          return;
        }
      }
    }

    method Kick(i: nat, key: K, val: V, fresh_: array<Flag>, ghost m: map<K, V>, ghost loc0: map<K, nat>, ghost step0: map<K, nat>, ghost s: nat)
      returns (key': K, val': V, ghost loc': map<K, nat>, ghost step': map<K, nat>)
      requires Apart(fresh_) && i < flags.Length && flags[i] == Live && i < fresh_.Length && fresh_[i] == Empty
      requires Moving(hash, m, flags[..], fresh_[..], keys[..], vals[..], loc0, step0) && InHand(m, loc0, key, val)
      requires Reaches(fresh_[..], hash(key), s, i)
      modifies flags, fresh_, keys, vals
      ensures Moving(hash, m, flags[..], fresh_[..], keys[..], vals[..], loc', step') && InHand(m, loc', key', val')
      ensures Waiting(flags[..]) == Waiting(old(flags[..])) - {i} && i in Waiting(old(flags[..]))
    {
      ghost var f, g, ks, vs := flags[..], fresh_[..], keys[..], vals[..];
      PlaceKick(hash, m, f, g, ks, vs, loc0, step0, key, val, i, s);
      loc', step' := (loc0 - {keys[i]})[key := i], step0[key := s];
      fresh_[i] := Live;
      key', keys[i] := keys[i], key;
      val', vals[i] := vals[i], val;
      flags[i] := Deleted;
      assert flags[..] == f[i := Deleted] && fresh_[..] == g[i := Live];
      assert keys[..] == ks[i := key] && vals[..] == vs[i := val];
    }

    method Settle(i: nat, key: K, val: V, fresh_: array<Flag>, ghost m: map<K, V>, ghost loc0: map<K, nat>, ghost step0: map<K, nat>, ghost s: nat)
      returns (ghost loc': map<K, nat>, ghost step': map<K, nat>)
      requires Apart(fresh_) && i < fresh_.Length && fresh_[i] == Empty && !(i < flags.Length && flags[i] == Live)
      requires Moving(hash, m, flags[..], fresh_[..], keys[..], vals[..], loc0, step0) && InHand(m, loc0, key, val)
      requires Reaches(fresh_[..], hash(key), s, i)
      modifies fresh_, keys, vals
      ensures Moving(hash, m, flags[..], fresh_[..], keys[..], vals[..], loc', step') && m.Keys == loc'.Keys
    {
      ghost var f, g, ks, vs := flags[..], fresh_[..], keys[..], vals[..];
      PlaceFree(hash, m, f, g, ks, vs, loc0, step0, key, val, i, s);
      loc', step' := loc0[key := i], step0[key := s];
      fresh_[i] := Live;
      keys[i] := key;
      vals[i] := val;
      assert flags[..] == f && fresh_[..] == g[i := Live];
      assert keys[..] == ks[i := key] && vals[..] == vs[i := val];
    }

    /** The first empty bucket on the probe path of a hash. */
    method FirstEmpty(table: array<Flag>, h: nat) returns (i: nat, ghost s: nat)
      requires PowerOfTwo(table.Length) && Used(table[..]) < table.Length
      ensures i < table.Length && table[i] == Empty && Reaches(table[..], h, s, i)
    {
      ghost var n := table.Length;
      ghost var stop := ProbeFindsEmpty(table[..], h);
      var j := 0;
      i := Mask(h, table.Length);
      while table[i] != Empty
        invariant j <= stop && i < n && i == Probe(h, j, n) && NoEmptyBefore(table[..], h, j)
        decreases stop - j
      {
        j := j + 1;
        i := Mask(i + j, table.Length);
      }
      s := j;
    }
  }
}
