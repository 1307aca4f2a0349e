/** plan_compile of src/rc/eval_plan.h: one pass over a body that fills fixed-size node,
    auxiliary and literal tables in place. */
module PlanCompiler {
  import opened Options
  import opened RcValue
  import opened Evaluator
  import opened EvalPlan
  import opened PlanTally

  ghost predicate FaithfulRange(c: Code, notes: seq<Note>, from: nat, to: nat, lo: nat) {
    |notes| == |c.nodes| && to <= |c.nodes| && forall id :: from <= id < to ==> Faithful(c, notes, id, lo)
  }

  /** Nothing that a node at or after from, with cells at or after lo, refers to has changed. */
  ghost predicate Keeps(c: Code, c': Code, from: nat, lo: nat) {
    && c.params == c'.params && c.literals <= c'.literals
    && |c.nodes| <= |c'.nodes| && (forall k :: from <= k < |c.nodes| ==> c'.nodes[k] == c.nodes[k])
    && |c.aux| <= |c'.aux| && (forall j :: lo <= j < |c.aux| ==> c'.aux[j] == c.aux[j])
  }

  lemma ClausesAreKept(c: Code, notes: seq<Note>, c': Code, notes': seq<Note>, id: nat, clauses: seq<Value>, start: nat, n: nat)
    requires id < |notes| && notes <= notes' && |c.aux| <= |c'.aux| && n <= |clauses|
    requires forall j :: start <= j < start + 2 * n && j < |c.aux| ==> c'.aux[j] == c.aux[j]
    requires forall j :: 0 <= j < n ==> ClauseMatches(c, notes, id, clauses[j], start + 2 * j)
    ensures forall j :: 0 <= j < n ==> ClauseMatches(c', notes', id, clauses[j], start + 2 * j)
  {
    forall j | 0 <= j < n
      ensures ClauseMatches(c', notes', id, clauses[j], start + 2 * j)
    {
      assert ClauseMatches(c, notes, id, clauses[j], start + 2 * j);
    }
  }

  lemma PlannedHasItems(params: seq<string>, e: Value, sc: Scope, depth: nat)
    requires e.Pair? && WellScoped(sc, depth) && PlannedForm(params, e, sc, depth).Some?
    ensures Items(e.tail).Some?
  {
  }

  lemma FaithfulIsKept(c: Code, notes: seq<Note>, c': Code, notes': seq<Note>, id: nat, lo: nat, lo': nat)
    requires Faithful(c, notes, id, lo) && Keeps(c, c', id, lo) && notes <= notes' && lo' <= lo
    ensures Faithful(c', notes', id, lo')
  {
    hide PlannedForm, PlanLocal;
    var note := notes[id];
    assert notes'[id] == note;
    if note.e.Pair? && !c.nodes[id].op.PFallback? {
      PlannedHasItems(c.params, note.e, note.sc, note.depth);
      var args := Items(note.e.tail).value;
      match PlannedForm(c.params, note.e, note.sc, note.depth).value
      case FCond =>
        forall i | 0 <= i < |args|
          ensures ClauseMatches(c', notes', id, args[i], c.nodes[id].a + 2 * i)
        {
          assert ClauseMatches(c, notes, id, args[i], c.nodes[id].a + 2 * i);
        }
      case FCall =>
        forall i | 0 <= i < |args|
          ensures StandsFor(notes', id, c'.aux[c.nodes[id].b + i], args[i], note.sc, note.depth)
        {
          assert StandsFor(notes, id, c.aux[c.nodes[id].b + i], args[i], note.sc, note.depth);
        }
      case _ =>
    }
  }

  lemma RangeIsKept(c: Code, notes: seq<Note>, c': Code, notes': seq<Note>, from: nat, to: nat, lo: nat, lo': nat)
    requires FaithfulRange(c, notes, from, to, lo) && Keeps(c, c', from, lo) && notes <= notes' && lo' <= lo
    requires |notes'| == |c'.nodes|
    ensures FaithfulRange(c', notes', from, to, lo')
  {
    forall id | from <= id < to
      ensures Faithful(c', notes', id, lo')
    {
      assert Faithful(c, notes, id, lo);
      FaithfulIsKept(c, notes, c', notes', id, lo, lo');
    }
  }

  /** c1 goes on from c0 with node id and what is below it: nothing before that has changed, and the
      nodes below it are faithful. */
  ghost predicate Resumes(c0: Code, notes0: seq<Note>, c1: Code, notes1: seq<Note>, id: nat, e: Value, sound: bool) {
    && id < |c1.nodes| && id <= |c0.nodes| && c0.params == c1.params && c0.nodes[..id] == c1.nodes[..id]
    && c0.literals <= c1.literals && notes0 <= notes1 && (forall i :: |c0.literals| <= i < |c1.literals| ==> c1.literals[i] < e)
    && (sound ==> c0.aux <= c1.aux && FaithfulRange(c1, notes1, id + 1, |c1.nodes|, |c0.aux|))
  }

  lemma NothingBelow(c: Code, notes: seq<Note>, at: nat, lo: nat)
    requires |notes| == |c.nodes| && at <= |c.nodes|
    ensures FaithfulRange(c, notes, at, at, lo)
  {
  }

  lemma JoinFaithful(c: Code, notes: seq<Note>, from: nat, mid: nat, to: nat, lo: nat)
    requires FaithfulRange(c, notes, from, mid, lo) && FaithfulRange(c, notes, mid, to, lo)
    ensures FaithfulRange(c, notes, from, to, lo)
  {
  }

  lemma IfIsFaithful(c: Code, notes: seq<Note>, id: nat, e: Value, args: seq<Value>, sc: Scope, depth: nat, lo: nat)
    requires id < |c.nodes| && id < |notes| && notes[id] == Note(e, sc, depth) && e.Pair? && WellScoped(sc, depth)
    requires Items(e.tail) == Some(args) && PlannedForm(c.params, e, sc, depth) == Some(FIf) && |args| == 3
    requires var n := c.nodes[id];
      n.op.PIf? && StandsFor(notes, id, n.a, args[0], sc, depth)
      && StandsFor(notes, id, n.b, args[1], sc, depth) && StandsFor(notes, id, n.c, args[2], sc, depth)
    ensures Faithful(c, notes, id, lo)
  {
    hide PlannedForm, StandsFor;
  }

  lemma LetIsFaithful(c: Code, notes: seq<Note>, id: nat, e: Value, args: seq<Value>, sc: Scope, depth: nat, lo: nat)
    requires id < |c.nodes| && id < |notes| && notes[id] == Note(e, sc, depth) && e.Pair? && WellScoped(sc, depth)
    requires Items(e.tail) == Some(args) && PlannedForm(c.params, e, sc, depth) == Some(FLet) && |args| == 3 && args[0].Sym?
    requires var n := c.nodes[id];
      n.op.PLet? && LiteralIs(c, n.a, args[0]) && StandsFor(notes, id, n.b, args[1], sc, depth)
      && StandsFor(notes, id, n.c, args[2], Binding(args[0].name, depth + 1, sc), depth + 1)
    ensures Faithful(c, notes, id, lo)
  {
    hide PlannedForm, StandsFor, LiteralIs;
  }

  /** and, or and type: the operand of a type that is no value is not compiled. */
  lemma BothIsFaithful(c: Code, notes: seq<Note>, id: nat, e: Value, form: Form, args: seq<Value>, sc: Scope, depth: nat, lo: nat)
    requires id < |c.nodes| && id < |notes| && notes[id] == Note(e, sc, depth) && e.Pair? && WellScoped(sc, depth)
    requires Items(e.tail) == Some(args) && PlannedForm(c.params, e, sc, depth) == Some(form) && |args| == 2 && form in {FAnd, FOr, FType}
    requires var n := c.nodes[id];
      n.op == (if form.FAnd? then PAnd else if form.FOr? then POr else PType) && StandsFor(notes, id, n.a, args[0], sc, depth)
      && (!form.FType? ==> StandsFor(notes, id, n.b, args[1], sc, depth))
    ensures Faithful(c, notes, id, lo)
  {
    hide PlannedForm, StandsFor;
  }

  lemma CondIsFaithful(c: Code, notes: seq<Note>, id: nat, e: Value, args: seq<Value>, sc: Scope, depth: nat, lo: nat)
    requires id < |c.nodes| && id < |notes| && notes[id] == Note(e, sc, depth) && e.Pair? && WellScoped(sc, depth)
    requires Items(e.tail) == Some(args) && PlannedForm(c.params, e, sc, depth) == Some(FCond)
    requires var n := c.nodes[id];
      n.op.PCond? && n.n == |args| && lo <= n.a && n.a + 2 * n.n <= |c.aux|
      && forall i :: 0 <= i < |args| ==> ClauseMatches(c, notes, id, args[i], n.a + 2 * i)
    ensures Faithful(c, notes, id, lo)
  {
    hide PlannedForm, ClauseMatches;
  }

  lemma CallIsFaithful(c: Code, notes: seq<Note>, id: nat, e: Value, args: seq<Value>, sc: Scope, depth: nat, lo: nat)
    requires id < |c.nodes| && id < |notes| && notes[id] == Note(e, sc, depth) && e.Pair? && WellScoped(sc, depth)
    requires Items(e.tail) == Some(args) && PlannedForm(c.params, e, sc, depth) == Some(FCall)
    requires var n := c.nodes[id];
      n.op == (if e.head.Sym? then PCall else PCallExpr) && StandsFor(notes, id, n.a, e.head, sc, depth)
      && n.n == |args| && lo <= n.b && n.b + n.n <= |c.aux|
      && forall i :: 0 <= i < |args| ==> StandsFor(notes, id, c.aux[n.b + i], args[i], sc, depth)
    ensures Faithful(c, notes, id, lo)
  {
    hide PlannedForm, StandsFor;
  }

  class PlanBuild {
    const params: seq<string>
    const nodes: array<Node>
    const aux: array<U16>
    const literals: array<Value>
    var nn: nat
    var na: nat
    var nl: nat
    var failed: bool
    /** A write has gone beyond the auxiliary table. */
    ghost var lost: bool
    /** What each allocated node is to stand for. */
    ghost var notes: seq<Note>

    constructor (parameters: seq<string>)
      requires |parameters| <= PLAN_LIMIT
      ensures Valid() && params == parameters && Spent() == START && notes == []
      ensures fresh(nodes) && fresh(aux) && fresh(literals)
    {
      params := parameters;
      nodes := new Node[PLAN_LIMIT](_ => Node(PConst, 0, 0, 0, 0));
      aux := new U16[PLAN_LIMIT](_ => 0);
      literals := new Value[PLAN_LIMIT](_ => Nil);
      nn, na, nl, failed := 0, 0, 0, false;
      notes, lost := [], false;
    }

    ghost predicate Valid()
      reads this
    {
      && nodes.Length == PLAN_LIMIT && aux.Length == PLAN_LIMIT && literals.Length == PLAN_LIMIT
      && nn <= PLAN_LIMIT && nl <= PLAN_LIMIT && |params| <= PLAN_LIMIT && |notes| == nn
    }

    /** What has been built so far can still become a plan. */
    ghost predicate Sound()
      reads this
    {
      !failed && na <= PLAN_LIMIT
    }

    ghost function Built(): Code
      requires Valid()
      reads this, nodes, aux, literals
    {
      Code(nodes[..nn], aux[..if na <= PLAN_LIMIT then na else PLAN_LIMIT], literals[..nl], params)
    }

    ghost function Spent(): Tally
      requires Valid()
      reads this, literals
    {
      Tally(nn, na, literals[..nl], failed, lost)
    }

    /** The tables have only been appended to, and failure is permanent. */
    twostate predicate Grew()
      requires old(Valid()) && Valid()
      reads this, nodes, aux, literals
    {
      && old(Built()).nodes <= Built().nodes && old(Built()).literals <= Built().literals && old(notes) <= notes
      && (old(failed) ==> failed) && old(na) <= na && (Sound() ==> old(Built()).aux <= Built().aux)
    }

    /** Literals from the given one on are proper parts of the expression, or the expression
        itself where it is an atom or falls back. */
    ghost predicate CapturesParts(from: nat, e: Value, whole: bool)
      requires Valid()
      reads this, literals
    {
      forall i :: from <= i < nl ==> literals[i] < e || (whole && literals[i] == e)
    }

    method Literal(v: Value) returns (at: U16)
      requires Valid()
      modifies this`nl, this`failed, literals
      ensures Valid() && Grew() && Spent() == WithLiteral(old(Spent()), v)
      ensures !failed ==> LiteralIs(Built(), at, v)
      ensures nl == old(nl) || (nl == old(nl) + 1 && literals[old(nl)] == v)
    {
      var i := 0;
      while i < nl
        invariant i <= nl && v !in literals[..i]
      {
        if literals[i] == v {
          return i;
        }
        i := i + 1;
      }
      if nl == PLAN_LIMIT {
        failed := true;
        return 0;
      }
      literals[nl] := v;
      at := nl;
      nl := nl + 1;
    }

    /** Node id is being built since the state c0, notes0: everything before it is as it was, and
        the nodes below it built so far are faithful and use auxiliary cells from lo on only. */
    ghost predicate Building(id: nat, e: Value, c0: Code, notes0: seq<Note>, lo: nat)
      reads this, nodes, aux, literals
    {
      && Valid() && id < nn && id <= |c0.nodes| && lo <= na && c0.params == params
      && c0.nodes[..id] == Built().nodes[..id] && c0.literals <= Built().literals
      && notes0 <= notes && CapturesParts(|c0.literals|, e, false)
      && (Sound() ==> c0.aux <= Built().aux && FaithfulRange(Built(), notes, id + 1, nn, lo))
    }

    /** Overwrites a node that is still being built. */
    method SetNode(id: nat, node: Node, ghost e: Value, ghost c0: Code, ghost notes0: seq<Note>, ghost lo: nat)
      requires Building(id, e, c0, notes0, lo)
      modifies nodes
      ensures Building(id, e, c0, notes0, lo) && nodes[id] == node
      ensures Built() == old(Built()).(nodes := old(Built()).nodes[id := node])
    {
      ghost var before := Built();
      nodes[id] := node;
      if Sound() {
        RangeIsKept(before, notes, Built(), notes, id + 1, nn, lo, lo);
      }
    }

    /** Fills an auxiliary cell that node id has reserved; the code does not test that there is one. */
    method SetCell(ghost id: nat, j: nat, child: U16, ghost e: Value, ghost c0: Code, ghost notes0: seq<Note>, ghost lo: nat)
      requires Building(id, e, c0, notes0, lo) && (na <= PLAN_LIMIT ==> |c0.aux| <= j < lo)
      modifies aux, this`lost
      ensures Building(id, e, c0, notes0, lo) && Spent() == Write(old(Spent()), j)
      ensures na <= PLAN_LIMIT ==> Built() == old(Built()).(aux := old(Built()).aux[j := child])
    {
      ghost var before := Built();
      if j < PLAN_LIMIT {
        aux[j] := child;
      } else {
        lost := true;
      }
      if Sound() {
        RangeIsKept(before, notes, Built(), notes, id + 1, nn, lo, lo);
      }
    }

    /** Adds a literal operand of node id, which stands for e. */
    method LiteralPart(ghost id: nat, ghost e: Value, v: Value, ghost c0: Code, ghost notes0: seq<Note>, ghost lo: nat)
      returns (at: U16)
      requires Building(id, e, c0, notes0, lo) && v < e
      modifies this`nl, this`failed, literals
      ensures Building(id, e, c0, notes0, lo) && Spent() == WithLiteral(old(Spent()), v)
      ensures !failed ==> LiteralIs(Built(), at, v)
    {
      ghost var before := Built();
      at := Literal(v);
      if Sound() {
        RangeIsKept(before, notes, Built(), notes, id + 1, nn, lo, lo);
      }
      forall i | |c0.literals| <= i < nl
        ensures literals[i] < e
      {
        if i < |before.literals| {
          assert literals[i] == Built().literals[i] == before.literals[i];
        }
      }
    }

    /** Compiles one operand of node id, which stands for e. */
    method CompilePart(ghost id: nat, ghost e: Value, part: Value, sc: Scope, depth: nat, recursion: nat, ghost c0: Code, ghost notes0: seq<Note>, ghost lo: nat)
      returns (child: U16)
      requires Building(id, e, c0, notes0, lo)
      requires WellScoped(sc, depth) && depth <= recursion + 1 <= PLAN_DEPTH && part < e
      modifies this, nodes, aux, literals
      ensures Building(id, e, c0, notes0, lo) && nodes[id] == old(nodes[id]) && Grew()
      ensures Spent() == Pass(params, part, sc, depth, recursion + 1, old(Spent()))
      ensures Sound() ==> StandsFor(notes, id, child, part, sc, depth)
      decreases part, 3
    {
      hide Pass, Faithful, FaithfulRange;
      ghost var before, notesBefore, nnBefore := Built(), notes, nn;
      child := Compile(part, sc, depth, recursion + 1);
      if Sound() {
        RangeIsKept(before, notesBefore, Built(), notes, id + 1, nnBefore, lo, lo);
        RangeIsKept(Built(), notes, Built(), notes, child, nn, |before.aux|, lo);
        JoinFaithful(Built(), notes, id + 1, child, nn, lo);
      }
      assert nodes[id] == Built().nodes[id] == before.nodes[id];
      PartIsCaptured(e, part, c0, before);
    }

    /** What a part captures is part of the whole. */
    lemma PartIsCaptured(e: Value, part: Value, c0: Code, before: Code)
      requires Valid() && part < e && c0.literals <= before.literals <= Built().literals
      requires forall i :: |c0.literals| <= i < |before.literals| ==> before.literals[i] < e
      requires CapturesParts(|before.literals|, part, true)
      ensures CapturesParts(|c0.literals|, e, false)
    {
      forall i | |c0.literals| <= i < nl
        ensures literals[i] < e
      {
        assert literals[i] == Built().literals[i];
        if i < |before.literals| {
          assert Built().literals[i] == before.literals[i];
        }
      }
    }

    /** Compiles an operand of node id and stores its place in the first, second or third field. */
    method CompileField(id: nat, field: nat, ghost e: Value, part: Value, sc: Scope, depth: nat, recursion: nat, ghost c0: Code, ghost notes0: seq<Note>, ghost lo: nat)
      returns (child: U16)
      requires Building(id, e, c0, notes0, lo) && field < 3
      requires WellScoped(sc, depth) && depth <= recursion + 1 <= PLAN_DEPTH && part < e
      modifies this, nodes, aux, literals
      ensures Building(id, e, c0, notes0, lo)
      ensures nodes[id] == (match field
        case 0 => old(nodes[id]).(a := child)
        case 1 => old(nodes[id]).(b := child)
        case _ => old(nodes[id]).(c := child))
      ensures old(notes) <= notes && (old(failed) ==> failed) && old(na) <= na && old(Built()).literals <= Built().literals
      ensures Spent() == Pass(params, part, sc, depth, recursion + 1, old(Spent()))
      ensures Sound() ==> StandsFor(notes, id, child, part, sc, depth)
      decreases part, 4
    {
      hide Pass;
      child := CompilePart(id, e, part, sc, depth, recursion, c0, notes0, lo);
      var n := nodes[id];
      var node := match field case 0 => n.(a := child) case 1 => n.(b := child) case _ => n.(c := child);
      SetNode(id, node, e, c0, notes0, lo);
    }

    /** plan_compile: allocates a node for the expression and compiles its operands. Whatever does
        not fail and stays within the auxiliary table is a faithful plan. */
    method Compile(e: Value, sc: Scope, depth: nat, recursion: nat) returns (id: U16)
      requires Valid() && WellScoped(sc, depth) && depth <= recursion <= PLAN_DEPTH
      modifies this, nodes, aux, literals
      ensures Valid() && Grew() && Spent() == Pass(params, e, sc, depth, recursion, old(Spent()))
      ensures Kept(old(Spent()), Spent(), 1, recursion + Depth(e) > PLAN_DEPTH)
      ensures Sound() ==> id == old(nn) < nn && notes[id] == Note(e, sc, depth)
                          && FaithfulRange(Built(), notes, id, nn, old(na))
      ensures CapturesParts(old(nl), e, true)
      ensures Sound() && e.Pair? && nodes[id].op != PFallback ==> CapturesParts(old(nl), e, false)
      ensures Sound() && e.Pair? ==> (nodes[id].op == PFallback <==> IsLeafAt(e, sc, depth, old(na)))
      decreases e, 2
    {
      hide Pass, PassNode, PassForm, Kept, Faithful, FormMatches, PlannedForm, HasRoom;
      PassStarts(params, e, sc, depth, recursion, Spent());
      PassKeeps(params, e, sc, depth, recursion, Spent());
      if failed || recursion == PLAN_DEPTH || nn == PLAN_LIMIT {
        failed := true;
        return 0;
      }
      ghost var c := Built();
      id := Allocate(e, sc, depth);
      ghost var c0, notes0 := Built(), notes;
      if !e.Pair? || IsLeafAt(e, sc, depth, na) {
        CompileLeaf(id, e, sc, depth, recursion, c);
        return;
      }
      var form := PlannedForm(params, e, sc, depth);
      PlannedHasItems(params, e, sc, depth);
      PassIsForm(params, e, form.value, Items(e.tail).value, sc, depth, recursion, Spent());
      CompileForm(id, e, form.value, Items(e.tail).value, sc, depth, recursion);
      FinishForm(id, e, c, c0, notes0);
    }

    /** A completed form only appends to what was built before its node was allocated. */
    lemma FinishForm(id: nat, e: Value, c: Code, c0: Code, notes0: seq<Note>)
      requires Completed(id, e, c0, notes0) && |c.nodes| == id
      requires c0 == c.(nodes := c.nodes + [Node(PConst, 0, 0, 0, 0)])
      ensures c.nodes <= Built().nodes && c.literals <= Built().literals
      ensures Sound() ==> FaithfulRange(Built(), notes, id, nn, |c.aux|) && c.aux <= Built().aux
    {
      assert c.nodes == c0.nodes[..id] == Built().nodes[..id];
    }

    method Allocate(e: Value, sc: Scope, depth: nat) returns (id: U16)
      requires Valid() && nn < PLAN_LIMIT
      modifies this`nn, this`notes, nodes
      ensures Valid() && id == old(nn) && notes == old(notes) + [Note(e, sc, depth)]
      ensures Built() == old(Built()).(nodes := old(Built()).nodes + [Node(PConst, 0, 0, 0, 0)])
      ensures Spent() == old(Spent()).(nn := old(nn) + 1)
    {
      id := nn;
      nn := nn + 1;
      notes := notes + [Note(e, sc, depth)];
      nodes[id] := Node(PConst, 0, 0, 0, 0);
    }

    /** An expression that the plan leaves to the tree evaluator. */
    predicate IsLeafAt(e: Value, sc: Scope, depth: nat, cells: nat)
      requires e.Pair? && WellScoped(sc, depth)
    {
      var form := PlannedForm(params, e, sc, depth);
      form.None? || !HasRoom(form.value, |Items(e.tail).value|, cells)
    }

    /** Completes a node that has no children: an atom or a fallback. */
    method CompileLeaf(id: nat, e: Value, sc: Scope, depth: nat, ghost recursion: nat, ghost c: Code)
      requires Valid() && !failed && id + 1 == nn && WellScoped(sc, depth) && depth <= PLAN_DEPTH
      requires notes[id] == Note(e, sc, depth) && Built() == c.(nodes := c.nodes + [Node(PConst, 0, 0, 0, 0)])
      requires e.Pair? ==> IsLeafAt(e, sc, depth, na)
      modifies this`nl, this`failed, nodes, literals
      ensures Valid() && Spent() == PassNode(params, e, sc, depth, recursion, old(Spent()))
      ensures c.nodes <= Built().nodes && c.literals <= Built().literals
      ensures Sound() ==> FaithfulRange(Built(), notes, id, nn, na) && (e.Pair? ==> nodes[id].op == PFallback)
      ensures CapturesParts(old(nl), e, true)
    {
      if e.Pair? {
        var a := Literal(e);
        nodes[id] := Node(PFallback, a, 0, 0, 0);
      } else {
        CompileAtom(id, e, sc, depth, recursion);
      }
      assert c.nodes == Built().nodes[..id];
    }

    /** Node id has just been allocated for e and nothing has been compiled below it. */
    ghost predicate Allocated(id: nat, e: Value, form: Form, args: seq<Value>, sc: Scope, depth: nat, recursion: nat)
      reads this, nodes
    {
      && Valid() && !failed && id + 1 == nn && notes[id] == Note(e, sc, depth) && nodes[id] == Node(PConst, 0, 0, 0, 0)
      && WellScoped(sc, depth) && depth <= recursion < PLAN_DEPTH
      && e.Pair? && Items(e.tail) == Some(args) && PlannedForm(params, e, sc, depth) == Some(form)
    }

    /** The node of a form and everything below it is in place. */
    ghost predicate Completed(id: nat, e: Value, c0: Code, notes0: seq<Note>)
      reads this, nodes, aux, literals
    {
      && Building(id, e, c0, notes0, |c0.aux|) && nodes[id].op != PFallback
      && (Sound() ==> Faithful(Built(), notes, id, |c0.aux|))
    }

    method CompileForm(id: nat, e: Value, form: Form, args: seq<Value>, sc: Scope, depth: nat, recursion: nat)
      requires Allocated(id, e, form, args, sc, depth, recursion)
      modifies this, nodes, aux, literals
      ensures Completed(id, e, old(Built()), old(notes)) && old(na) <= na
      ensures Spent() == PassForm(params, e, form, args, sc, depth, recursion, old(Spent()))
      decreases e, 1
    {
      hide Pass, PassParts, PassCells, PassClauses;
      if form.FCond? {
        CompileCond(id, e, args, sc, depth, recursion);
      } else if form.FCall? {
        CompileCall(id, e, args, sc, depth, recursion);
      } else if form.FIf? {
        CompileIf(id, e, args, sc, depth, recursion);
      } else if form.FLet? {
        CompileLet(id, e, args, sc, depth, recursion);
      } else if form.FQuote? {
        PartsAreShallower(e, args);
        ghost var c0 := Built();
        var a := LiteralPart(id, e, args[0], c0, notes, na);
        SetNode(id, nodes[id].(a := a), e, c0, notes, na);
      } else if form.FType? {
        CompileType(id, e, args, sc, depth, recursion);
      } else {
        CompileAndOr(id, e, form, args, sc, depth, recursion);
      }
    }

    method CompileIf(id: nat, e: Value, args: seq<Value>, sc: Scope, depth: nat, recursion: nat)
      requires Allocated(id, e, FIf, args, sc, depth, recursion)
      modifies this, nodes, aux, literals
      ensures Completed(id, e, old(Built()), old(notes)) && old(na) <= na
      ensures Spent() == PassForm(params, e, FIf, args, sc, depth, recursion, old(Spent()))
      decreases e, 0, 3
    {
      hide Pass, Faithful, FaithfulRange, FormMatches, PlannedForm;
      ghost var c0, notes0, lo := Built(), notes, na;
      FormIsShaped(params, e, FIf, args, sc, depth);
      PartsAreShallower(e, args);
      SetNode(id, nodes[id].(op := PIf), e, c0, notes0, lo);
      var a := CompileField(id, 0, e, args[0], sc, depth, recursion, c0, notes0, lo);
      var b := CompileField(id, 1, e, args[1], sc, depth, recursion, c0, notes0, lo);
      var c := CompileField(id, 2, e, args[2], sc, depth, recursion, c0, notes0, lo);
      ThreeParts(params, e, args, sc, depth, recursion, old(Spent()));
      if Sound() {
        IfIsFaithful(Built(), notes, id, e, args, sc, depth, lo);
      }
    }

    method BeginLet(id: nat, ghost e: Value, name: Value, ghost c0: Code, ghost notes0: seq<Note>, ghost lo: nat)
      requires Building(id, e, c0, notes0, lo) && name < e && nodes[id] == Node(PConst, 0, 0, 0, 0)
      modifies this`nl, this`failed, nodes, literals
      ensures Building(id, e, c0, notes0, lo) && Spent() == WithLiteral(old(Spent()), name)
      ensures nodes[id] == Node(PLet, nodes[id].a, 0, 0, 0) && (!failed ==> LiteralIs(Built(), nodes[id].a, name))
    {
      SetNode(id, nodes[id].(op := PLet), e, c0, notes0, lo);
      var a := LiteralPart(id, e, name, c0, notes0, lo);
      SetNode(id, nodes[id].(a := a), e, c0, notes0, lo);
    }

    method CompileLet(id: nat, e: Value, args: seq<Value>, sc: Scope, depth: nat, recursion: nat)
      requires Allocated(id, e, FLet, args, sc, depth, recursion)
      modifies this, nodes, aux, literals
      ensures Completed(id, e, old(Built()), old(notes)) && old(na) <= na
      ensures Spent() == PassForm(params, e, FLet, args, sc, depth, recursion, old(Spent()))
      decreases e, 0, 3
    {
      hide Pass, Faithful, FaithfulRange, FormMatches, PlannedForm;
      ghost var c0, notes0, lo := Built(), notes, na;
      FormIsShaped(params, e, FLet, args, sc, depth);
      PartsAreShallower(e, args);
      BeginLet(id, e, args[0], c0, notes0, lo);
      var b := CompileField(id, 1, e, args[1], sc, depth, recursion, c0, notes0, lo);
      var c := CompileField(id, 2, e, args[2], Binding(args[0].name, depth + 1, sc), depth + 1, recursion, c0, notes0, lo);
      if Sound() {
        LetIsFaithful(Built(), notes, id, e, args, sc, depth, lo);
      }
    }

    method CompileAndOr(id: nat, e: Value, form: Form, args: seq<Value>, sc: Scope, depth: nat, recursion: nat)
      requires Allocated(id, e, form, args, sc, depth, recursion) && form in {FAnd, FOr}
      modifies this, nodes, aux, literals
      ensures Completed(id, e, old(Built()), old(notes)) && old(na) <= na
      ensures Spent() == PassForm(params, e, form, args, sc, depth, recursion, old(Spent()))
      decreases e, 0, 3
    {
      hide Pass, Faithful, FaithfulRange, FormMatches, PlannedForm;
      ghost var c0, notes0, lo := Built(), notes, na;
      FormIsShaped(params, e, form, args, sc, depth);
      PartsAreShallower(e, args);
      SetNode(id, nodes[id].(op := if form.FAnd? then PAnd else POr), e, c0, notes0, lo);
      var a := CompileField(id, 0, e, args[0], sc, depth, recursion, c0, notes0, lo);
      var b := CompileField(id, 1, e, args[1], sc, depth, recursion, c0, notes0, lo);
      TwoParts(params, e, args, sc, depth, recursion, old(Spent()));
      if Sound() {
        BothIsFaithful(Built(), notes, id, e, form, args, sc, depth, lo);
      }
    }

    method CompileType(id: nat, e: Value, args: seq<Value>, sc: Scope, depth: nat, recursion: nat)
      requires Allocated(id, e, FType, args, sc, depth, recursion)
      modifies this, nodes, aux, literals
      ensures Completed(id, e, old(Built()), old(notes)) && old(na) <= na
      ensures Spent() == PassForm(params, e, FType, args, sc, depth, recursion, old(Spent()))
      decreases e, 0, 3
    {
      hide Pass, Faithful, FaithfulRange, FormMatches, PlannedForm;
      ghost var c0, notes0, lo := Built(), notes, na;
      FormIsShaped(params, e, FType, args, sc, depth);
      PartsAreShallower(e, args);
      SetNode(id, nodes[id].(op := PType), e, c0, notes0, lo);
      var a := CompileField(id, 0, e, args[0], sc, depth, recursion, c0, notes0, lo);
      OnePart(params, e, args[..1], sc, depth, recursion, old(Spent()));
      if Sound() {
        BothIsFaithful(Built(), notes, id, e, FType, args, sc, depth, lo);
      }
    }

    /** Nothing below node id has been compiled, so its cells come first. */
    method BeginCond(id: nat, ghost e: Value, ghost sc: Scope, ghost depth: nat, n: U16, ghost c0: Code, ghost notes0: seq<Note>)
      requires Building(id, e, c0, notes0, na) && id + 1 == nn && nodes[id] == Node(PConst, 0, 0, 0, 0) && notes[id] == Note(e, sc, depth)
      modifies this`na, nodes
      ensures Building(id, e, c0, notes0, na) && Spent() == old(Spent()).(na := old(na) + 2 * n)
      ensures nodes[id] == Node(PCond, CellStart(old(na)), 0, 0, n)
    {
      SetNode(id, nodes[id].(op := PCond, a := CellStart(na), n := n), e, c0, notes0, na);
      na := na + 2 * n;
    }

    method CompileCond(id: nat, e: Value, args: seq<Value>, sc: Scope, depth: nat, recursion: nat)
      requires Allocated(id, e, FCond, args, sc, depth, recursion)
      modifies this, nodes, aux, literals
      ensures Completed(id, e, old(Built()), old(notes)) && old(na) <= na
      ensures Spent() == PassForm(params, e, FCond, args, sc, depth, recursion, old(Spent()))
      decreases e, 0, 3
    {
      hide PassForm, PassClauses, Faithful, FaithfulRange, FormMatches, PlannedForm, ClauseMatches;
      CondIsClauses(params, e, args, sc, depth, recursion, Spent());
      ghost var c0, notes0 := Built(), notes;
      FormIsShaped(params, e, FCond, args, sc, depth);
      var start := CellStart(na);
      PartsAreShallower(e, args);
      BeginCond(id, e, sc, depth, |args|, c0, notes0);
      CompileClauses(id, e, args, start, sc, depth, recursion, c0, notes0);
      FinishCond(id, e, args, start, sc, depth, c0, notes0);
    }

    lemma FinishCond(id: nat, e: Value, args: seq<Value>, start: U16, sc: Scope, depth: nat, c0: Code, notes0: seq<Note>)
      requires Building(id, e, c0, notes0, |c0.aux|) && |args| <= PLAN_LIMIT && nodes[id] == Node(PCond, start, 0, 0, |args|) && notes[id] == Note(e, sc, depth)
      requires e.Pair? && WellScoped(sc, depth) && Items(e.tail) == Some(args) && PlannedForm(params, e, sc, depth) == Some(FCond)
      requires Sound() ==> start == |c0.aux| && start + 2 * |args| <= na
      requires Sound() ==> forall i :: 0 <= i < |args| ==> ClauseMatches(Built(), notes, id, args[i], start + 2 * i)
      ensures Completed(id, e, c0, notes0)
    {
      hide Faithful, FaithfulRange, PlannedForm, ClauseMatches;
      if Sound() {
        CondIsFaithful(Built(), notes, id, e, args, sc, depth, |c0.aux|);
      }
    }

    method CompileClauses(ghost id: nat, ghost e: Value, clauses: seq<Value>, start: U16, sc: Scope, depth: nat, recursion: nat, ghost c0: Code, ghost notes0: seq<Note>)
      requires Building(id, e, c0, notes0, |c0.aux| + 2 * |clauses|) && (na <= PLAN_LIMIT ==> start == |c0.aux|)
      requires notes[id] == Note(e, sc, depth) && ClausesAreShaped(clauses) && Within(clauses, e)
      requires WellScoped(sc, depth) && depth <= recursion < PLAN_DEPTH
      modifies this, nodes, aux, literals
      ensures Building(id, e, c0, notes0, |c0.aux|) && nodes[id] == old(nodes[id]) && old(na) <= na
      ensures Spent() == PassClauses(params, e, clauses, 0, start, sc, depth, recursion, old(Spent()))
      ensures Sound() ==> forall i :: 0 <= i < |clauses| ==> ClauseMatches(Built(), notes, id, clauses[i], start + 2 * i)
      decreases e, 0, 1
    {
      hide PassClause, Faithful, FaithfulRange, ClauseMatches;
      ghost var lo := |c0.aux| + 2 * |clauses|;
      var i := 0;
      while i < |clauses|
        invariant i <= |clauses| && Building(id, e, c0, notes0, lo) && nodes[id] == old(nodes[id]) && old(na) <= na
        invariant PassClauses(params, e, clauses, i, start, sc, depth, recursion, Spent())
          == PassClauses(params, e, clauses, 0, start, sc, depth, recursion, old(Spent()))
        invariant ClausesStand(id, clauses, i, start)
        invariant notes[id] == Note(e, sc, depth)
      {
        CompileNext(id, e, clauses, i, start, sc, depth, recursion, c0, notes0, lo);
        i := i + 1;
      }
      if Sound() {
        RangeIsKept(Built(), notes, Built(), notes, id + 1, nn, lo, |c0.aux|);
      }
    }

    /** The first n clauses are in place. */
    ghost predicate ClausesStand(id: nat, clauses: seq<Value>, n: nat, start: nat)
      requires Valid() && n <= |clauses| && id < nn
      reads this, nodes, aux, literals
    {
      Sound() ==> forall i :: 0 <= i < n ==> ClauseMatches(Built(), notes, id, clauses[i], start + 2 * i)
    }

    method CompileNext(ghost id: nat, ghost e: Value, clauses: seq<Value>, i: nat, start: U16, sc: Scope, depth: nat, recursion: nat, ghost c0: Code, ghost notes0: seq<Note>, ghost lo: nat)
      requires Building(id, e, c0, notes0, lo) && (na <= PLAN_LIMIT ==> |c0.aux| <= start && start + 2 * |clauses| <= lo)
      requires notes[id] == Note(e, sc, depth) && ClausesAreShaped(clauses) && Within(clauses, e) && i < |clauses|
      requires WellScoped(sc, depth) && depth <= recursion < PLAN_DEPTH && ClausesStand(id, clauses, i, start)
      modifies this, nodes, aux, literals
      ensures Building(id, e, c0, notes0, lo) && nodes[id] == old(nodes[id])
      ensures old(notes) <= notes && old(na) <= na && (old(failed) ==> failed)
      ensures Spent() == PassClause(params, clauses[i], start + 2 * i, sc, depth, recursion, old(Spent()))
      ensures ClausesStand(id, clauses, i + 1, start)
      decreases e, 0, 0, |clauses| - i
    {
      hide PassClause, Faithful, FaithfulRange, ClauseMatches;
      ghost var before, notesBefore := Built(), notes;
      CompileClause(id, e, clauses[i], start + 2 * i, sc, depth, recursion, c0, notes0, lo);
      if Sound() {
        ClausesAreKept(before, notesBefore, Built(), notes, id, clauses, start, i);
      }
    }

    method CompileClause(ghost id: nat, ghost e: Value, clause: Value, cell: nat, sc: Scope, depth: nat, recursion: nat, ghost c0: Code, ghost notes0: seq<Note>, ghost lo: nat)
      requires Building(id, e, c0, notes0, lo) && (na <= PLAN_LIMIT ==> |c0.aux| <= cell && cell + 2 <= lo)
      requires notes[id] == Note(e, sc, depth)
      requires WellScoped(sc, depth) && depth <= recursion < PLAN_DEPTH && clause < e
      requires Items(clause).Some? && |Items(clause).value| == 2
      modifies this, nodes, aux, literals
      ensures Building(id, e, c0, notes0, lo) && nodes[id] == old(nodes[id])
      ensures old(notes) <= notes && old(na) <= na && (old(failed) ==> failed)
      ensures Spent() == PassClause(params, clause, cell, sc, depth, recursion, old(Spent()))
      ensures Sound() ==> forall j :: 0 <= j < |old(Built()).aux| && j != cell && j != cell + 1 ==> aux[j] == old(Built()).aux[j]
      ensures Sound() ==> ClauseMatches(Built(), notes, id, clause, cell)
      decreases clause, 4
    {
      hide Pass;
      var parts := Items(clause).value;
      CompileCell(id, e, parts[0], cell, sc, depth, recursion, c0, notes0, lo);
      CompileCell(id, e, parts[1], cell + 1, sc, depth, recursion, c0, notes0, lo);
    }

    /** Compiles an operand into a reserved auxiliary cell. */
    method CompileCell(ghost id: nat, ghost e: Value, part: Value, cell: nat, sc: Scope, depth: nat, recursion: nat, ghost c0: Code, ghost notes0: seq<Note>, ghost lo: nat)
      requires Building(id, e, c0, notes0, lo) && (na <= PLAN_LIMIT ==> |c0.aux| <= cell < lo)
      requires WellScoped(sc, depth) && depth <= recursion < PLAN_DEPTH && part < e
      modifies this, nodes, aux, literals
      ensures Building(id, e, c0, notes0, lo) && nodes[id] == old(nodes[id])
      ensures old(notes) <= notes && old(na) <= na && (old(failed) ==> failed)
      ensures Spent() == Write(Pass(params, part, sc, depth, recursion + 1, old(Spent())), cell)
      ensures Sound() ==> forall j :: 0 <= j < |old(Built()).aux| && j != cell ==> aux[j] == old(Built()).aux[j]
      ensures Sound() ==> StandsFor(notes, id, aux[cell], part, sc, depth)
      decreases part, 4
    {
      hide Pass;
      ghost var before := Built();
      var child := CompilePart(id, e, part, sc, depth, recursion, c0, notes0, lo);
      SetCell(id, cell, child, e, c0, notes0, lo);
      if Sound() {
        assert aux[cell] == Built().aux[cell] == child;
        forall j | 0 <= j < |before.aux| && j != cell
          ensures aux[j] == before.aux[j]
        {
          assert aux[j] == Built().aux[j];
        }
      }
    }

    method BeginCall(id: nat, e: Value, args: seq<Value>, sc: Scope, depth: nat, recursion: nat, ghost c0: Code, ghost notes0: seq<Note>)
      requires Allocated(id, e, FCall, args, sc, depth, recursion) && c0 == Built() && notes0 == notes
      modifies this, nodes, aux, literals
      ensures Building(id, e, c0, notes0, |c0.aux|) && notes0 <= notes && old(na) <= na && (old(failed) ==> failed)
      ensures nodes[id] == Node(if e.head.Sym? then PCall else PCallExpr, nodes[id].a, 0, 0, 0)
      ensures Spent() == Pass(params, e.head, sc, depth, recursion + 1, old(Spent()))
      ensures Sound() ==> StandsFor(notes, id, nodes[id].a, e.head, sc, depth)
      decreases e, 0, 2
    {
      hide Pass, Faithful, PlannedForm;
      var op := if e.head.Sym? then PCall else PCallExpr;
      SetNode(id, nodes[id].(op := op), e, c0, notes0, na);
      var a := CompileField(id, 0, e, e.head, sc, depth, recursion, c0, notes0, |c0.aux|);
    }

    method CompileCall(id: nat, e: Value, args: seq<Value>, sc: Scope, depth: nat, recursion: nat)
      requires Allocated(id, e, FCall, args, sc, depth, recursion)
      modifies this, nodes, aux, literals
      ensures Completed(id, e, old(Built()), old(notes)) && old(na) <= na
      ensures Spent() == PassForm(params, e, FCall, args, sc, depth, recursion, old(Spent()))
      decreases e, 0, 3
    {
      hide Pass, PassCells, Faithful, FaithfulRange, FormMatches, PlannedForm;
      ghost var c0, notes0 := Built(), notes;
      FormIsShaped(params, e, FCall, args, sc, depth);
      BeginCall(id, e, args, sc, depth, recursion, c0, notes0);
      ghost var start := na;
      CompileOperands(id, e, args, sc, depth, recursion, c0, notes0);
      FinishCall(id, e, args, start, sc, depth, c0, notes0);
    }

    lemma FinishCall(id: nat, e: Value, args: seq<Value>, start: nat, sc: Scope, depth: nat, c0: Code, notes0: seq<Note>)
      requires Building(id, e, c0, notes0, |c0.aux|) && notes[id] == Note(e, sc, depth) && |c0.aux| <= start
      requires e.Pair? && WellScoped(sc, depth) && Items(e.tail) == Some(args) && PlannedForm(params, e, sc, depth) == Some(FCall)
      requires nodes[id].op == if e.head.Sym? then PCall else PCallExpr
      requires Sound() ==> StandsFor(notes, id, nodes[id].a, e.head, sc, depth)
      requires Sound() ==> nodes[id].b == start && nodes[id].n == |args| && start + |args| <= na
      requires Sound() ==> forall i :: 0 <= i < |args| ==> StandsFor(notes, id, aux[start + i], args[i], sc, depth)
      ensures Completed(id, e, c0, notes0)
    {
      hide Faithful, FaithfulRange, PlannedForm, StandsFor;
      if Sound() {
        CallIsFaithful(Built(), notes, id, e, args, sc, depth, |c0.aux|);
      }
    }

    /** Reserves the cells of a call's operands, after its head, and fills them; whether the cells
        are there was tested before the head. No node below id changes here, so the nodes of the
        head, whose cells precede the reserved ones, stay faithful. */
    method CompileOperands(id: nat, e: Value, args: seq<Value>, sc: Scope, depth: nat, recursion: nat, ghost c0: Code, ghost notes0: seq<Note>)
      requires Building(id, e, c0, notes0, |c0.aux|) && |args| <= PLAN_LIMIT
      requires e.Pair? && Items(e.tail) == Some(args) && WellScoped(sc, depth) && depth <= recursion < PLAN_DEPTH
      modifies this, nodes, aux, literals
      ensures Building(id, e, c0, notes0, |c0.aux|) && old(notes) <= notes && old(na) + |args| <= na && (old(failed) ==> failed)
      ensures nodes[id] == old(nodes[id]).(b := CellStart(old(na)), n := |args|)
      ensures Spent() == PassCells(params, e, args, 0, CellStart(old(na)), sc, depth, recursion, old(Spent()).(na := old(na) + |args|))
      ensures Sound() ==> forall i :: 0 <= i < |args| ==> StandsFor(notes, id, aux[old(na) + i], args[i], sc, depth)
      decreases e, 0, 2
    {
      hide PassCells, Faithful, FaithfulRange, Resumes, StandsFor;
      PartsAreShallower(e, args);
      ghost var notes1 := notes;
      ghost var c1, last, sound;
      var start;
      start, c1, last, sound := ReserveCells(id, |args|, e, c0, notes0);
      CompileCells(id, last, e, args, start, sc, depth, recursion, c1, notes1);
      JoinRanges(id, last, e, c0, notes0, c1, notes1, |c1.aux| + |args|, sound);
    }

    /** Cells for n operands, with the state c1 that filling them starts from. */
    method ReserveCells(id: nat, n: U16, ghost e: Value, ghost c0: Code, ghost notes0: seq<Note>)
      returns (start: U16, ghost c1: Code, ghost last: nat, ghost sound: bool)
      requires Building(id, e, c0, notes0, |c0.aux|)
      modifies this`na, nodes
      ensures start == CellStart(old(na)) && na == old(na) + n && last == nn - 1 && id <= last
      ensures Building(last, e, c1, notes, |c1.aux| + n) && (na <= PLAN_LIMIT ==> start == |c1.aux|)
      ensures nodes[id] == old(nodes[id]).(b := start, n := n) && |c1.nodes| == nn && nodes[last] == c1.nodes[last] && c1.nodes[id] == nodes[id]
      ensures Spent() == old(Spent()).(na := na)
      ensures Resumes(c0, notes0, c1, notes, id, e, sound) && (Sound() ==> sound)
    {
      hide Faithful;
      start := CellStart(na);
      SetNode(id, nodes[id].(b := start, n := n), e, c0, notes0, |c0.aux|);
      c1, last, sound := Built(), nn - 1, Sound();
      na := na + n;
      NothingBelow(Built(), notes, nn, |c1.aux| + n);
    }

    method CompileCells(ghost id: nat, ghost last: nat, ghost e: Value, args: seq<Value>, start: U16, sc: Scope, depth: nat, recursion: nat, ghost c1: Code, ghost notes1: seq<Note>)
      requires Building(last, e, c1, notes1, |c1.aux| + |args|) && (na <= PLAN_LIMIT ==> start == |c1.aux|) && id <= last
      requires Within(args, e) && WellScoped(sc, depth) && depth <= recursion < PLAN_DEPTH
      modifies this, nodes, aux, literals
      ensures Building(last, e, c1, notes1, |c1.aux| + |args|) && nodes[last] == old(nodes[last]) && old(na) <= na && (old(failed) ==> failed)
      ensures Spent() == PassCells(params, e, args, 0, start, sc, depth, recursion, old(Spent()))
      ensures Sound() ==> forall i :: 0 <= i < |args| ==> StandsFor(notes, id, aux[start + i], args[i], sc, depth)
      decreases e, 0, 1
    {
      hide Pass, Faithful, FaithfulRange, StandsFor;
      ghost var lo := |c1.aux| + |args|;
      var i := 0;
      while i < |args|
        invariant i <= |args| && nodes[last] == old(nodes[last]) && Building(last, e, c1, notes1, lo) && old(na) <= na
        invariant old(failed) ==> failed
        invariant PassCells(params, e, args, i, start, sc, depth, recursion, Spent())
          == PassCells(params, e, args, 0, start, sc, depth, recursion, old(Spent()))
        invariant CellsStand(id, args, i, start, sc, depth)
      {
        CompileNextCell(id, last, e, args, i, start, sc, depth, recursion, c1, notes1);
        i := i + 1;
      }
    }

    /** The first n operands are in place. */
    ghost predicate CellsStand(id: nat, args: seq<Value>, n: nat, start: nat, sc: Scope, depth: nat)
      requires Valid() && n <= |args| && (Sound() ==> start + n <= PLAN_LIMIT)
      reads this, aux
    {
      Sound() ==> forall i :: 0 <= i < n ==> StandsFor(notes, id, aux[start + i], args[i], sc, depth)
    }

    method CompileNextCell(ghost id: nat, ghost last: nat, ghost e: Value, args: seq<Value>, i: nat, start: U16, sc: Scope, depth: nat, recursion: nat, ghost c1: Code, ghost notes1: seq<Note>)
      requires Building(last, e, c1, notes1, |c1.aux| + |args|) && (na <= PLAN_LIMIT ==> start == |c1.aux|) && id <= last
      requires Within(args, e) && i < |args| && WellScoped(sc, depth) && depth <= recursion < PLAN_DEPTH && CellsStand(id, args, i, start, sc, depth)
      modifies this, nodes, aux, literals
      ensures Building(last, e, c1, notes1, |c1.aux| + |args|) && nodes[last] == old(nodes[last]) && old(na) <= na && (old(failed) ==> failed)
      ensures Spent() == Write(Pass(params, args[i], sc, depth, recursion + 1, old(Spent())), start + i)
      ensures CellsStand(id, args, i + 1, start, sc, depth)
      decreases e, 0, 0, |args| - i
    {
      hide Pass, Faithful, FaithfulRange;
      CompileCell(last, e, args[i], start + i, sc, depth, recursion, c1, notes1, |c1.aux| + |args|);
    }

    /** What was built up to c1 and what was built after it, with cells from lo on, together. */
    lemma JoinRanges(id: nat, last: nat, e: Value, c0: Code, notes0: seq<Note>, c1: Code, notes1: seq<Note>, lo: nat, sound: bool)
      requires id <= last && Building(last, e, c1, notes1, lo) && |c0.aux| <= na && |c1.aux| <= lo
      requires |c1.nodes| == last + 1 && nodes[last] == c1.nodes[last]
      requires Resumes(c0, notes0, c1, notes1, id, e, sound) && (Sound() ==> sound)
      ensures Building(id, e, c0, notes0, |c0.aux|) && nodes[id] == c1.nodes[id]
    {
      var c := Built();
      assert c.nodes[..last] == c1.nodes[..last] && c.nodes[last] == c1.nodes[last];
      assert c.nodes[..id] == c.nodes[..last][..id];
      if Sound() {
        RangeIsKept(c1, notes1, c, notes, id + 1, last + 1, |c0.aux|, |c0.aux|);
        RangeIsKept(c, notes, c, notes, last + 1, nn, lo, |c0.aux|);
      }
      forall i | |c0.literals| <= i < nl
        ensures literals[i] < e
      {
        assert literals[i] == c.literals[i];
      }
    }

    method CompileAtom(id: nat, e: Value, sc: Scope, depth: nat, ghost recursion: nat)
      requires Valid() && !failed && id + 1 == nn && WellScoped(sc, depth) && depth <= PLAN_DEPTH && !e.Pair?
      requires notes[id] == Note(e, sc, depth)
      modifies this`nl, this`failed, nodes, literals
      ensures Valid() && Spent() == PassNode(params, e, sc, depth, recursion, old(Spent()))
      ensures old(nodes[..id]) == nodes[..id] && old(literals[..nl]) <= literals[..nl]
      ensures Sound() ==> Faithful(Built(), notes, id, na)
      ensures CapturesParts(old(nl), e, true)
    {
      if e.Sym? {
        var local := PlanLocal(params, e.name, sc, depth);
        if local.Some? {
          nodes[id] := Node(PLocal, local.value.0, local.value.1, 0, 0);
        } else {
          var a := Literal(e);
          nodes[id] := Node(PNonlocal, a, 0, 0, 0);
        }
      } else {
        var a := Literal(e);
        nodes[id] := Node(PConst, a, 0, 0, 0);
      }
    }
  }

  lemma PassStarts(params: seq<string>, e: Value, sc: Scope, depth: nat, recursion: nat, t: Tally)
    requires WellScoped(sc, depth)
    ensures Pass(params, e, sc, depth, recursion, t)
      == if t.failed || recursion >= PLAN_DEPTH || t.nn >= PLAN_LIMIT then t.(failed := true)
         else PassNode(params, e, sc, depth, recursion, t.(nn := t.nn + 1))
  {
    hide PassNode;
  }

  lemma PassIsForm(params: seq<string>, e: Value, form: Form, args: seq<Value>, sc: Scope, depth: nat, recursion: nat, t: Tally)
    requires WellScoped(sc, depth) && e.Pair? && Items(e.tail) == Some(args) && PlannedForm(params, e, sc, depth) == Some(form)
    requires HasRoom(form, |args|, t.na)
    ensures PassNode(params, e, sc, depth, recursion, t) == PassForm(params, e, form, args, sc, depth, recursion, t)
  {
    hide PlannedForm, PassForm, HasRoom;
  }

  lemma CondIsClauses(params: seq<string>, e: Value, args: seq<Value>, sc: Scope, depth: nat, recursion: nat, t: Tally)
    requires WellScoped(sc, depth) && e.Pair? && Items(e.tail) == Some(args) && PlannedForm(params, e, sc, depth) == Some(FCond)
    ensures Within(args, e) && ClausesAreShaped(args)
    ensures PassForm(params, e, FCond, args, sc, depth, recursion, t)
      == PassClauses(params, e, args, 0, CellStart(t.na), sc, depth, recursion, t.(na := t.na + 2 * |args|))
  {
    hide PassClauses;
  }

  lemma OnePart(params: seq<string>, e: Value, parts: seq<Value>, sc: Scope, depth: nat, recursion: nat, t: Tally)
    requires WellScoped(sc, depth) && Within(parts, e) && |parts| == 1
    ensures PassParts(params, e, parts, 0, sc, depth, recursion, t) == Pass(params, parts[0], sc, depth, recursion + 1, t)
  {
    hide Pass;
  }

  lemma TwoParts(params: seq<string>, e: Value, parts: seq<Value>, sc: Scope, depth: nat, recursion: nat, t: Tally)
    requires WellScoped(sc, depth) && Within(parts, e) && |parts| == 2
    ensures PassParts(params, e, parts, 0, sc, depth, recursion, t)
      == Pass(params, parts[1], sc, depth, recursion + 1, Pass(params, parts[0], sc, depth, recursion + 1, t))
  {
    hide Pass;
    var first := Pass(params, parts[0], sc, depth, recursion + 1, t);
    assert PassParts(params, e, parts, 1, sc, depth, recursion, first) == Pass(params, parts[1], sc, depth, recursion + 1, first);
  }

  lemma ThreeParts(params: seq<string>, e: Value, parts: seq<Value>, sc: Scope, depth: nat, recursion: nat, t: Tally)
    requires WellScoped(sc, depth) && Within(parts, e) && |parts| == 3
    ensures var first := Pass(params, parts[0], sc, depth, recursion + 1, t);
      PassParts(params, e, parts, 0, sc, depth, recursion, t)
      == Pass(params, parts[2], sc, depth, recursion + 1, Pass(params, parts[1], sc, depth, recursion + 1, first))
  {
    hide Pass;
    var first := Pass(params, parts[0], sc, depth, recursion + 1, t);
    var second := Pass(params, parts[1], sc, depth, recursion + 1, first);
    assert PassParts(params, e, parts, 2, sc, depth, recursion, second) == Pass(params, parts[2], sc, depth, recursion + 1, second);
    assert PassParts(params, e, parts, 1, sc, depth, recursion, first) == PassParts(params, e, parts, 2, sc, depth, recursion, second);
  }
}
