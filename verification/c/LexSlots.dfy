/** The slots of the lexical lookup cache of src/c/environment.c as values: what binding, entering
    a frame and rewinding do to them, and when a cached lookup agrees with the chain. */
module LexSlots {
  import opened Options
  import opened Lexical

  const MAX_EPOCH: nat := 0xFFFF_FFFF

  datatype Cell = Cell(gen: nat, value: Option<Value>)

  datatype Undo = Undo(id: nat, cell: Cell)

  /** cells holds an entry for every symbol; one beyond the capacity is Cell(0, None). */
  datatype Lex = Lex(epoch: nat, cells: imap<nat, Cell>, undo: seq<Undo>)

  datatype Mark = Mark(epoch: nat, sp: nat)

  ghost predicate Full(l: Lex) {
    forall id: nat :: id in l.cells
  }

  function MarkOf(l: Lex): Mark {
    Mark(l.epoch, |l.undo|)
  }

  /** 32-bit increment; 0 is never the epoch of a frame. */
  function NextEpoch(epoch: nat): nat {
    if epoch >= MAX_EPOCH then 1 else epoch + 1
  }

  function Stamp(epoch: nat): nat {
    if epoch == 0 then 1 else epoch
  }

  function EnterFrame(l: Lex): Lex {
    l.(epoch := NextEpoch(l.epoch))
  }

  function BindSlot(l: Lex, id: nat, v: Value): (r: Lex)
    requires id in l.cells
  {
    Lex(Stamp(l.epoch), l.cells[id := Cell(Stamp(l.epoch), Some(v))], l.undo + [Undo(id, l.cells[id])])
  }

  /** Takes back the entries of the undo log above sp, newest first. */
  function Unwind(cells: imap<nat, Cell>, undo: seq<Undo>, sp: nat): imap<nat, Cell>
    decreases |undo|
  {
    if |undo| <= sp then cells
    else
      var u := undo[|undo| - 1];
      Unwind(cells[u.id := u.cell], undo[..|undo| - 1], sp)
  }

  function Rewind(l: Lex, m: Mark): Lex
    requires m.sp <= |l.undo|
  {
    Lex(m.epoch, Unwind(l.cells, l.undo, m.sp), l.undo[..m.sp])
  }

  predicate Cached(l: Lex, id: nat)
    requires id in l.cells
  {
    l.epoch != 0 && l.cells[id].gen == l.epoch
  }

  /** lookup_environment */
  function LookupIn(l: Lex, env: Env, id: nat): Option<Value>
    requires id in l.cells
  {
    if Cached(l, id) then l.cells[id].value else Walk(env, id)
  }

  /** Every cached symbol has its meaning in the chain. */
  ghost predicate Coherent(l: Lex, env: Env)
    requires Full(l)
  {
    forall id: nat :: Cached(l, id) ==> l.cells[id].value == Walk(env, id)
  }

  /** No slot carries a future epoch, and a stamped slot holds a value. */
  ghost predicate Stamped(l: Lex) {
    Full(l) && forall id: nat {:trigger l.cells[id]} :: l.cells[id].gen <= l.epoch && (l.cells[id].gen > 0 ==> l.cells[id].value.Some?)
  }

  /** The cached lookup agrees with the chain for every symbol exactly when the slots are coherent. */
  lemma LookupAgrees(l: Lex, env: Env)
    requires Full(l)
    ensures (forall id: nat :: LookupIn(l, env, id) == Walk(env, id)) <==> Coherent(l, env)
  {
    if forall id: nat :: LookupIn(l, env, id) == Walk(env, id) {
      forall id: nat | Cached(l, id)
        ensures l.cells[id].value == Walk(env, id)
      {
        assert LookupIn(l, env, id) == Walk(env, id);
      }
    }
  }

  // Undoing -------------------------------------------------------------------------------------

  /** l was reached from l0 by steps whose undo entries are still in the log. */
  ghost predicate Since(l: Lex, l0: Lex) {
    && |l0.undo| <= |l.undo| && l.undo[..|l0.undo|] == l0.undo
    && Unwind(l.cells, l.undo, |l0.undo|) == l0.cells
  }

  /** Rewinding to a mark restores epoch, stamps, slots and log exactly. */
  lemma RewindRestores(l: Lex, l0: Lex)
    requires Since(l, l0)
    ensures Rewind(l, MarkOf(l0)) == l0
  {
  }

  lemma {:induction false} UnwindTwice(cells: imap<nat, Cell>, undo: seq<Undo>, mid: nat, sp: nat)
    requires sp <= mid <= |undo|
    ensures Unwind(cells, undo, sp) == Unwind(Unwind(cells, undo, mid), undo[..mid], sp)
    decreases |undo|
  {
    if mid < |undo| {
      var u := undo[|undo| - 1];
      UnwindTwice(cells[u.id := u.cell], undo[..|undo| - 1], mid, sp);
      assert undo[..|undo| - 1][..mid] == undo[..mid];
    } else {
      assert undo[..mid] == undo;
    }
  }

  /** Marks nest: what leads from l0 to l1 and from l1 to l2 leads from l0 to l2. */
  lemma SinceIsTransitive(l2: Lex, l1: Lex, l0: Lex)
    requires Since(l2, l1) && Since(l1, l0)
    ensures Since(l2, l0)
  {
    assert l2.undo[..|l0.undo|] == l1.undo[..|l0.undo|];
    UnwindTwice(l2.cells, l2.undo, |l1.undo|, |l0.undo|);
  }

  lemma SinceItself(l: Lex)
    ensures Since(l, l)
  {
  }

  lemma SinceEnter(l: Lex)
    ensures Since(EnterFrame(l), l)
  {
  }

  lemma SinceBind(l: Lex, id: nat, v: Value)
    requires Full(l)
    ensures Full(BindSlot(l, id, v)) && Since(BindSlot(l, id, v), l)
  {
    var r := BindSlot(l, id, v);
    assert r.undo[..|r.undo| - 1] == l.undo;
    assert r.cells[id := l.cells[id]] == l.cells;
    assert Unwind(l.cells, l.undo, |l.undo|) == l.cells;
  }

  // Coherence -----------------------------------------------------------------------------------

  /** Binding keeps coherence: the new slot is the new innermost binding. */
  lemma BindIsCoherent(l: Lex, env: Env, id: nat, v: Value, env': Env)
    requires Stamped(l) && Coherent(l, env)
    requires forall other: nat :: Walk(env', other) == if other == id then Some(v) else Walk(env, other)
    ensures Stamped(BindSlot(l, id, v)) && Coherent(BindSlot(l, id, v), env')
  {
    var r := BindSlot(l, id, v);
    forall other: nat | Cached(r, other)
      ensures r.cells[other].value == Walk(env', other)
    {
      if other != id {
        assert Cached(l, other);
      }
    }
  }

  /** A frame that has just been entered has no slots of its own, so it is coherent with whatever
      environment the callee runs in. The only exception is the wrap of the 32-bit epoch. */
  lemma EnterIsFresh(l: Lex)
    requires Stamped(l) && l.epoch < MAX_EPOCH
    ensures Stamped(EnterFrame(l)) && forall env :: Coherent(EnterFrame(l), env)
  {
  }

  /** Exactly when entering a frame is safe for every environment. */
  lemma EnterIsFreshExactly(l: Lex)
    requires Stamped(l) && l.epoch <= MAX_EPOCH
    ensures (forall env :: Coherent(EnterFrame(l), env)) <==> (l.epoch < MAX_EPOCH || forall id: nat :: l.cells[id].gen != 1)
  {
    if l.epoch == MAX_EPOCH && exists id: nat :: l.cells[id].gen == 1 {
      var id: nat :| l.cells[id].gen == 1;
      assert Cached(EnterFrame(l), id) && Walk(Root, id) == None;
      assert !Coherent(EnterFrame(l), Root);
    }
  }

  /** Running over the global environment without entering a frame, as shen_eval_kl does, is
      coherent exactly when the running frame has bound no symbol. */
  lemma ReentryExactly(l: Lex)
    requires Stamped(l)
    ensures Coherent(l, Root) <==> forall id: nat :: !Cached(l, id)
  {
    forall id: nat
      ensures Walk(Root, id) == None
    {
    }
  }

  /** A jump out of a let without a rewind, as c.recur makes, leaves the slot of the let behind:
      coherent exactly when the symbol means that value outside as well. */
  lemma SkippedRewindExactly(l: Lex, env: Env, id: nat, v: Value)
    requires Stamped(l) && Coherent(l, env)
    ensures Full(BindSlot(l, id, v))
    ensures Coherent(BindSlot(l, id, v), env) <==> Walk(env, id) == Some(v)
  {
    var r := BindSlot(l, id, v);
    assert Cached(r, id);
    forall other: nat | Cached(r, other) && other != id
      ensures r.cells[other].value == Walk(env, other)
    {
      assert Cached(l, other);
    }
  }
}
