/** The bounded object cache (prune_cache, entry_bytes and account_cache in
    src/rc/native_compile.c): oldest entries go first, and a recorded size saves the rescans. */
module CacheAccounting {
  import opened Options

  /** What the files of one key come to; age is the time of its source file. */
  datatype Entry = Entry(age: int, bytes: nat)

  type Key = string

  const SIZE_MAX: nat := 0xFFFF_FFFF_FFFF_FFFF

  // Sums ----------------------------------------------------------------------------------------

  ghost function Pick(entries: map<Key, Entry>): (k: Key)
    requires |entries| > 0
    ensures k in entries
  {
    var k :| k in entries;
    k
  }

  ghost function Sum(entries: map<Key, Entry>): nat
    decreases |entries|
  {
    if |entries| == 0 then 0 else entries[Pick(entries)].bytes + Sum(entries - {Pick(entries)})
  }

  lemma {:induction false} SumWithout(entries: map<Key, Entry>, k: Key)
    requires k in entries
    ensures Sum(entries) == entries[k].bytes + Sum(entries - {k})
    decreases |entries|
  {
    var first := Pick(entries);
    if first != k {
      SumWithout(entries - {first}, k);
      SumWithout(entries - {k}, first);
      assert entries - {first} - {k} == entries - {k} - {first};
    }
  }

  lemma SumWith(entries: map<Key, Entry>, k: Key, e: Entry)
    ensures Sum(entries[k := e]) + (if k in entries then entries[k].bytes else 0) == Sum(entries) + e.bytes
  {
    SumWithout(entries[k := e], k);
    if k in entries {
      SumWithout(entries, k);
      assert entries[k := e] - {k} == entries - {k};
    } else {
      assert entries[k := e] - {k} == entries;
    }
  }

  function Keys(order: seq<Key>): set<Key> {
    set k | k in order
  }

  ghost predicate Distinct(order: seq<Key>) {
    forall i, j :: 0 <= i < j < |order| ==> order[i] != order[j]
  }

  lemma Inserted(order: seq<Key>, n: nat, k: Key)
    requires n <= |order|
    ensures var r := order[..n] + [k] + order[n..];
      && |r| == |order| + 1 && Keys(r) == Keys(order) + {k}
      && forall i :: 0 <= i < |r| ==> r[i] == if i < n then order[i] else if i == n then k else order[i - 1]
  {
    var r := order[..n] + [k] + order[n..];
    assert order == order[..n] + order[n..];
    assert forall x :: x in r <==> x in order || x == k;
  }

  /** An older entry never comes after a younger one. */
  ghost predicate Aged(order: seq<Key>, entries: map<Key, Entry>) {
    && (forall k :: k in order ==> k in entries)
    && forall i, j :: 0 <= i < j < |order| ==> entries[order[i]].age <= entries[order[j]].age
  }

  ghost predicate OldestFirst(order: seq<Key>, entries: map<Key, Entry>) {
    Distinct(order) && Keys(order) == entries.Keys && Aged(order, entries)
  }

  lemma InsertedAged(order: seq<Key>, n: nat, k: Key, entries: map<Key, Entry>)
    requires n <= |order| && Distinct(order) && k !in order && k in entries && Aged(order, entries)
    requires n > 0 ==> entries[order[n - 1]].age <= entries[k].age
    requires n < |order| ==> entries[k].age <= entries[order[n]].age
    ensures var r := order[..n] + [k] + order[n..]; Distinct(r) && Aged(r, entries)
  {
    Inserted(order, n, k);
    var r := order[..n] + [k] + order[n..];
    forall i, j | 0 <= i < j < |r|
      ensures r[i] != r[j] && entries[r[i]].age <= entries[r[j]].age
    {
      assert i < n - 1 ==> entries[order[i]].age <= entries[order[n - 1]].age;
      assert n + 1 < j ==> entries[order[n]].age <= entries[order[j - 1]].age;
    }
    forall x | x in r
      ensures x in entries
    {
      assert x in Keys(r);
    }
  }

  lemma OneMoreRemoved(order: seq<Key>, entries: map<Key, Entry>, n: nat)
    requires OldestFirst(order, entries) && n < |order|
    ensures var rest := entries - Keys(order[..n]);
      order[n] in rest && rest - {order[n]} == entries - Keys(order[..n + 1])
      && Sum(rest) == rest[order[n]].bytes + Sum(entries - Keys(order[..n + 1]))
  {
    var rest := entries - Keys(order[..n]);
    assert order[n] in Keys(order) && order[n] !in order[..n];
    assert order[..n + 1] == order[..n] + [order[n]];
    assert rest - {order[n]} == entries - Keys(order[..n + 1]);
    SumWithout(rest, order[n]);
  }

  lemma NothingLeft(order: seq<Key>, entries: map<Key, Entry>)
    requires OldestFirst(order, entries)
    ensures Sum(entries - Keys(order[..|order|])) == 0
  {
    assert order[..|order|] == order;
    assert |entries - Keys(order)| == 0;
  }

  // Operations ----------------------------------------------------------------------------------

  class Cache {
    /** The entries on disk, and the contents of the size file where it can be read. */
    var entries: map<Key, Entry>
    var recorded: Option<nat>
    const limit: nat
    /** How far the recorded size is from the real one: what crashes have left out of it. */
    ghost var drift: int

    constructor (limit: nat)
      ensures Valid() && entries == map[] && recorded == None && this.limit == limit && drift == 0
    {
      this.entries, this.recorded, this.limit, drift := map[], None, limit, 0;
    }

    /** A recorded size is the real one but for the drift. */
    ghost predicate Valid()
      reads this
    {
      recorded.Some? ==> recorded.value == Sum(entries) + drift
    }

    function Bytes(key: Key): nat
      reads this
    {
      if key in entries then entries[key].bytes else 0
    }

    /** The recorded size is missing, cannot be right, or would be beyond the limit once the files of
        this key have become e. */
    predicate Rescans(key: Key, e: Entry)
      reads this
      requires e.bytes <= SIZE_MAX
    {
      || recorded.None? || recorded.value < Bytes(key)
      || recorded.value - Bytes(key) > SIZE_MAX - e.bytes || recorded.value - Bytes(key) + e.bytes > limit
    }

    /** The listing of the directory, sorted by age. */
    method Listing() returns (order: seq<Key>)
      ensures OldestFirst(order, entries)
    {
      order := [];
      var left := entries.Keys;
      while left != {}
        invariant left <= entries.Keys && Keys(order) == entries.Keys - left && Distinct(order) && Aged(order, entries)
        decreases |left|
      {
        var k :| k in left;
        assert k !in Keys(order);
        order := Insert(order, k);
        left := left - {k};
      }
    }

    method Insert(order: seq<Key>, k: Key) returns (r: seq<Key>)
      requires Distinct(order) && k !in order && k in entries && Aged(order, entries)
      ensures Distinct(r) && Keys(r) == Keys(order) + {k} && Aged(r, entries)
    {
      var n: nat := |order|;
      while n > 0 && entries[order[n - 1]].age > entries[k].age
        invariant n <= |order|
        invariant n < |order| ==> entries[k].age <= entries[order[n]].age
      {
        n := n - 1;
      }
      InsertedAged(order, n, k, entries);
      Inserted(order, n, k);
      r := order[..n] + [k] + order[n..];
    }

    /** prune_cache: the oldest entries are removed, and no more of them than it takes. */
    method Prune() returns (order: seq<Key>, n: nat)
      modifies `entries
      ensures OldestFirst(order, old(entries)) && n <= |order|
      ensures entries == old(entries) - Keys(order[..n])
      ensures Sum(entries) <= limit
      ensures n > 0 ==> Sum(old(entries) - Keys(order[..n - 1])) > limit
    {
      hide Sum, OldestFirst;
      order := Listing();
      ghost var all := entries;
      var total := Scan();
      n := 0;
      assert order[..0] == [] && all - Keys([]) == all;
      while n < |order| && total > limit
        invariant n <= |order| && OldestFirst(order, all) && entries == all - Keys(order[..n])
        invariant total == Sum(entries)
        invariant n > 0 ==> Sum(all - Keys(order[..n - 1])) > limit
      {
        OneMoreRemoved(order, all, n);
        total := total - entries[order[n]].bytes;
        entries := entries - {order[n]};
        n := n + 1;
      }
      if n == |order| {
        NothingLeft(order, all);
      }
    }

    /** Adds up the sizes of all entries, in the order of the directory. */
    method Scan() returns (total: nat)
      ensures total == Sum(entries)
    {
      total := 0;
      var left := entries;
      while |left| > 0
        invariant left.Keys <= entries.Keys && total + Sum(left) == Sum(entries)
        invariant forall k :: k in left ==> left[k] == entries[k]
        decreases |left|
      {
        var k :| k in left;
        SumWithout(left, k);
        total := total + left[k].bytes;
        left := left - {k};
      }
    }

    /** A locked section that leaves the files of one key as e, with account_cache at its end.
        order[..n] is what had to go. */
    method Store(key: Key, e: Entry) returns (order: seq<Key>, n: nat)
      requires Valid() && e.bytes <= SIZE_MAX
      modifies this
      ensures Valid() && recorded == Some(Sum(entries) + drift) && recorded.value <= limit
      ensures drift == if old(Rescans(key, e)) then 0 else old(drift)
      ensures old(drift) == 0 ==> recorded == Some(Sum(entries)) && Sum(entries) <= limit
      ensures n <= |order| && entries == old(entries)[key := e] - Keys(order[..n])
      ensures n > 0 ==> old(Rescans(key, e))
      ensures n > 0 ==> OldestFirst(order, old(entries)[key := e]) && Sum(old(entries)[key := e] - Keys(order[..n - 1])) > limit
    {
      hide Sum, OldestFirst;
      var previous := Bytes(key);
      var rescan := Rescans(key, e);
      SumWith(entries, key, e);
      entries := entries[key := e];
      var total;
      if rescan {
        order, n := Prune();
        total := Scan();
        drift := 0;
      } else {
        order, n, total := [], 0, recorded.value - previous + e.bytes;
        assert Keys([]) == {} && entries - {} == entries;
      }
      recorded := Some(total);
    }

    /** A locked section that a crash ends before the size is written: the files of the key are e, and
        pruning has removed what is gone. The recorded size stays, so the drift takes up the change. */
    method Interrupted(key: Key, e: Entry, gone: set<Key>)
      requires Valid()
      modifies this
      ensures Valid() && recorded == old(recorded) && entries == old(entries)[key := e] - gone
      ensures drift == old(drift) + old(Sum(entries)) - Sum(entries)
      ensures gone == {} ==> drift == old(drift) + old(Bytes(key)) - e.bytes
    {
      SumWith(entries, key, e);
      ghost var was := Sum(entries);
      assert entries[key := e] - {} == entries[key := e];
      entries := entries[key := e] - gone;
      drift := drift + was - Sum(entries);
    }
  }

  lemma NewestIsLast(order: seq<Key>, entries: map<Key, Entry>, i: nat)
    requires OldestFirst(order, entries) && i < |order|
    requires forall k :: k in entries && k != order[i] ==> entries[k].age < entries[order[i]].age
    ensures i == |order| - 1
  {
    var last := order[|order| - 1];
    assert last in Keys(order);
  }

  /** An entry younger than all others goes only if it alone is too large. */
  lemma NewestGoesLast(order: seq<Key>, entries: map<Key, Entry>, n: nat, newest: Key, limit: nat)
    requires OldestFirst(order, entries) && 0 < n <= |order| && newest in order[..n]
    requires forall k :: k in entries && k != newest ==> entries[k].age < entries[newest].age
    requires Sum(entries - Keys(order[..n - 1])) > limit
    ensures n == |order| && order[n - 1] == newest && entries[newest].bytes > limit
  {
    hide Sum, OldestFirst;
    var i :| 0 <= i < n && order[i] == newest;
    NewestIsLast(order, entries, i);
    OneMoreRemoved(order, entries, n - 1);
    NothingLeft(order, entries);
  }
}
