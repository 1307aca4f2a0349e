/** The lexical lookup cache of src/c/environment.c: an epoch, a stamp and a slot for every symbol,
    and an undo log. The arrays grow on demand. */
module LexCache {
  import opened Options
  import opened Lexical
  import opened LexSlots

  function EmptyCell(id: nat): Cell {
    Cell(0, None)
  }

  /** The arrays hold the cells; every symbol beyond their length has the empty cell. */
  ghost predicate Represents(gen: seq<nat>, slots: seq<Option<Value>>, cells: imap<nat, Cell>) {
    && |gen| == |slots|
    && forall id: nat :: id in cells && cells[id] == if id < |gen| then Cell(gen[id], slots[id]) else Cell(0, None)
  }

  /** Every logged symbol has a slot. */
  ghost predicate LogCovers(undo: seq<Undo>, cap: nat) {
    forall i :: 0 <= i < |undo| ==> undo[i].id < cap
  }

  lemma StoredCell(gen: seq<nat>, slots: seq<Option<Value>>, cells: imap<nat, Cell>, id: nat, c: Cell)
    requires Represents(gen, slots, cells) && id < |gen|
    ensures Represents(gen[id := c.gen], slots[id := c.value], cells[id := c])
  {
  }

  lemma UnwindOne(cells: imap<nat, Cell>, undo: seq<Undo>, n: nat, sp: nat)
    requires sp <= n < |undo|
    ensures var u := undo[n];
      Unwind(cells, undo[..n + 1], sp) == Unwind(cells[u.id := u.cell], undo[..n], sp)
  {
    assert undo[..n + 1][..n] == undo[..n];
  }

  lemma Unwound(cells: imap<nat, Cell>, undo: seq<Undo>, sp: nat)
    requires |undo| <= sp
    ensures Unwind(cells, undo, sp) == cells
  {
  }

  class Cache {
    var epoch: nat
    var gen: array<nat>
    var slots: array<Option<Value>>
    var undo: array<Undo>
    var undoSp: nat
    /** The abstract state: all of the above as values. */
    ghost var lex: Lex

    constructor ()
      ensures Valid() && fresh(Arrays())
      ensures lex.epoch == 0 && lex.undo == [] && Stamped(lex) && forall env :: Coherent(lex, env)
    {
      epoch, undoSp := 0, 0;
      gen, slots, undo := new nat[0], new Option<Value>[0], new Undo[0];
      lex := Lex(0, imap id: nat :: EmptyCell(id), []);
    }

    ghost function Arrays(): set<object>
      reads this
    {
      {gen as object, slots as object, undo as object}
    }

    ghost predicate Valid()
      reads this, Arrays()
    {
      && (gen as object) != slots && (gen as object) != undo && (slots as object) != undo
      && gen.Length == slots.Length && undoSp <= undo.Length
      && lex.epoch == epoch && lex.undo == undo[..undoSp] && LogCovers(undo[..undoSp], gen.Length) && Represents(gen[..], slots[..], lex.cells)
    }

    /** lookup_environment */
    method Lookup(id: nat, env: Env) returns (r: Option<Value>)
      requires Valid()
      ensures r == LookupIn(lex, env, id)
    {
      if epoch != 0 && id < gen.Length && gen[id] == epoch {
        r := slots[id];
      } else {
        r := LookupWalk(id, env);
      }
    }

    /** shen_lex_mark */
    method TakeMark() returns (m: Mark)
      requires Valid()
      ensures m == MarkOf(lex)
    {
      m := Mark(epoch, undoSp);
    }

    /** shen_lex_enter_frame */
    method Enter()
      requires Valid()
      modifies this`epoch, this`lex
      ensures Valid() && lex == EnterFrame(old(lex))
    {
      epoch := NextEpoch(epoch);
      lex := EnterFrame(lex);
    }

    /** lex_ensure: doubles the capacity until it covers the symbol. */
    method Ensure(id: nat)
      requires Valid()
      modifies this`gen, this`slots
      ensures Valid() && id < gen.Length && fresh({gen as object, slots as object} - {old(gen) as object, old(slots) as object})
    {
      if id < gen.Length {
        return;
      }
      var cap := if gen.Length == 0 then 256 else gen.Length;
      while cap <= id
        invariant cap > 0 && gen.Length <= cap
        decreases id - cap
      {
        cap := cap * 2;
      }
      var gens, values := new nat[cap](_ => 0), new Option<Value>[cap](_ => None);
      forall i | 0 <= i < gen.Length {
        gens[i] := gen[i];
      }
      forall i | 0 <= i < slots.Length {
        values[i] := slots[i];
      }
      gen, slots := gens, values;
    }

    /** lex_ensure_undo */
    method EnsureUndo()
      requires Valid()
      modifies this`undo
      ensures Valid() && undoSp < undo.Length && fresh({undo} - {old(undo)})
    {
      if undoSp < undo.Length {
        return;
      }
      var cap := if undo.Length == 0 then 64 else undo.Length * 2;
      var log := new Undo[cap](_ => Undo(0, Cell(0, None)));
      forall i | 0 <= i < undo.Length {
        log[i] := undo[i];
      }
      assert log[..undoSp] == undo[..undoSp];
      undo := log;
    }

    /** shen_lex_bind */
    method Bind(id: nat, v: Value)
      requires Valid() && Full(lex)
      modifies this, Arrays()
      ensures Valid() && lex == BindSlot(old(lex), id, v) && fresh(Arrays() - old(Arrays()))
    {
      Ensure(id);
      EnsureUndo();
      ghost var l, log := lex, undo[..undoSp];
      undo[undoSp] := Undo(id, Cell(gen[id], slots[id]));
      undoSp := undoSp + 1;
      assert undo[..undoSp] == log + [Undo(id, l.cells[id])];
      Put(id, Cell(Stamp(epoch), Some(v)));
      epoch := Stamp(epoch);
      lex := BindSlot(l, id, v);
    }

    /** Writes one cell; the caller says what the abstract state becomes. */
    method Put(id: nat, c: Cell)
      requires (gen as object) != slots && id < gen.Length && Represents(gen[..], slots[..], lex.cells)
      modifies gen, slots
      ensures Represents(gen[..], slots[..], lex.cells[id := c])
    {
      ghost var g, s := gen[..], slots[..];
      slots[id] := c.value;
      gen[id] := c.gen;
      StoredCell(g, s, lex.cells, id, c);
      assert gen[..] == g[id := c.gen] && slots[..] == s[id := c.value];
    }

    /** shen_lex_rewind */
    method RewindTo(m: Mark)
      requires Valid() && m.sp <= undoSp
      modifies this, gen, slots
      ensures Valid() && lex == Rewind(old(lex), m) && Arrays() == old(Arrays())
    {
      hide Unwind, Represents;
      ghost var l := lex;
      while undoSp > m.sp
        invariant (gen as object) != slots && (gen as object) != undo && (slots as object) != undo
        invariant m.sp <= undoSp <= undo.Length && gen.Length == slots.Length && Arrays() == old(Arrays())
        invariant undo[..undoSp] == l.undo[..undoSp] && undoSp <= |l.undo| && LogCovers(l.undo, gen.Length)
        invariant Represents(gen[..], slots[..], lex.cells)
        invariant Unwind(lex.cells, undo[..undoSp], m.sp) == Unwind(l.cells, l.undo, m.sp)
      {
        undoSp := undoSp - 1;
        var u := undo[undoSp];
        assert u == l.undo[undoSp] && undo[..undoSp + 1] == l.undo[..undoSp + 1];
        UnwindOne(lex.cells, l.undo, undoSp, m.sp);
        if u.id < gen.Length {
          Put(u.id, u.cell);
          lex := lex.(cells := lex.cells[u.id := u.cell]);
        }
      }
      Unwound(lex.cells, undo[..undoSp], m.sp);
      epoch := m.epoch;
      lex := Rewind(l, m);
      assert undo[..undoSp] == lex.undo;
    }
  }
}
