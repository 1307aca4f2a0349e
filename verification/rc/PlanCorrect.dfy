/** A plan that represents a body computes what the reference evaluator computes. */
module PlanCorrect {
  import opened Options
  import opened RcValue
  import opened Evaluator
  import opened EvalPlan

  // Faithful plans are well-formed --------------------------------------------------------

  lemma {:induction false} FaithfulIsWellFormed(c: Code, notes: seq<Note>, id: nat)
    requires AllFaithful(c, notes, 0, 0) && id < |c.nodes|
    ensures WellFormed(c, id, notes[id].depth)
    decreases |c.nodes| - id, 1
  {
    assert Faithful(c, notes, id, 0);
    var n := c.nodes[id];
    match n.op
    case PIf | PLet | PAnd | POr | PType => FixedFormIsWellFormed(c, notes, id);
    case PCond => CondIsWellFormed(c, notes, id);
    case PCall | PCallExpr => CallIsWellFormed(c, notes, id);
    case _ =>
  }

  lemma {:induction false} FixedFormIsWellFormed(c: Code, notes: seq<Note>, id: nat)
    requires AllFaithful(c, notes, 0, 0) && id < |c.nodes| && c.nodes[id].op in {PIf, PLet, PAnd, POr, PType}
    ensures WellFormed(c, id, notes[id].depth)
    decreases |c.nodes| - id, 0
  {
    assert Faithful(c, notes, id, 0);
    var n := c.nodes[id];
    if !n.op.PLet? {
      FaithfulIsWellFormed(c, notes, n.a);
    }
    if !n.op.PType? {
      FaithfulIsWellFormed(c, notes, n.b);
    }
    if n.op in {PIf, PLet} {
      FaithfulIsWellFormed(c, notes, n.c);
    }
  }

  lemma {:induction false} CondIsWellFormed(c: Code, notes: seq<Note>, id: nat)
    requires AllFaithful(c, notes, 0, 0) && id < |c.nodes| && c.nodes[id].op.PCond?
    ensures WellFormed(c, id, notes[id].depth)
    decreases |c.nodes| - id, 0
  {
    assert Faithful(c, notes, id, 0);
    forall j | c.nodes[id].a <= j < c.nodes[id].a + 2 * c.nodes[id].n
      ensures id < c.aux[j] && WellFormed(c, c.aux[j], notes[id].depth)
    {
      ClauseCell(c, notes, id, j);
      FaithfulIsWellFormed(c, notes, c.aux[j]);
    }
  }

  lemma {:induction false} CallIsWellFormed(c: Code, notes: seq<Note>, id: nat)
    requires AllFaithful(c, notes, 0, 0) && id < |c.nodes| && c.nodes[id].op in {PCall, PCallExpr}
    ensures WellFormed(c, id, notes[id].depth)
    decreases |c.nodes| - id, 0
  {
    assert Faithful(c, notes, id, 0);
    var n, note := c.nodes[id], notes[id];
    FaithfulIsWellFormed(c, notes, n.a);
    assert Faithful(c, notes, n.a, 0);
    forall j | n.b <= j < n.b + n.n
      ensures id < c.aux[j] && WellFormed(c, c.aux[j], note.depth)
    {
      assert StandsFor(notes, id, c.aux[n.b + (j - n.b)], Items(note.e.tail).value[j - n.b], note.sc, note.depth);
      FaithfulIsWellFormed(c, notes, c.aux[j]);
    }
  }

  lemma ClauseCell(c: Code, notes: seq<Note>, id: nat, j: nat)
    requires Faithful(c, notes, id, 0) && c.nodes[id].op.PCond?
    requires c.nodes[id].a <= j < c.nodes[id].a + 2 * c.nodes[id].n
    ensures id < c.aux[j] < |notes| && notes[c.aux[j]].depth == notes[id].depth
  {
    var n := c.nodes[id];
    var i := (j - n.a) / 2;
    assert ClauseMatches(c, notes, id, Items(notes[id].e.tail).value[i], n.a + 2 * i);
    assert j == n.a + 2 * i || j == n.a + 2 * i + 1;
  }

  // Local addresses -------------------------------------------------------------------------

  predicate ScopeMatches(sc: Scope, l: Locals) {
    match sc
    case Top => l.Outermost?
    case Binding(n, _, outer) => l.Let? && l.name == n && ScopeMatches(outer, l.outer)
  }

  lemma {:induction false} FrameHolds(bs: seq<(string, Value)>, name: string, i: nat, n: nat)
    requires i < n <= |bs| && bs[i].0 == name
    requires forall j :: i < j < n ==> bs[j].0 != name
    ensures FindLast(bs, name, n) == Some(bs[i].1)
  {
    if i < n - 1 {
      FrameHolds(bs, name, i, n - 1);
    }
  }

  /** In the materialized frames a let binder is found where FindBinder says. */
  lemma {:induction false} BinderIsFound(run: Run, name: string, sc: Scope, depth: nat, l: Locals)
    requires Entered(run) && WellScoped(sc, depth) && ScopeMatches(sc, l) && Height(l) == depth
    ensures FindBinder(sc, name, depth).Some? ==>
      var at := Climb(l, FindBinder(sc, name, depth).value);
      at.Let? && Walk(Materialize(run, l), name) == Some(at.value)
    ensures FindBinder(sc, name, depth).None? ==>
      Walk(Materialize(run, l), name) == Walk(MakeFrame(run.parent, run.code.params, run.arguments), name)
    decreases sc
  {
    match sc
    case Top =>
    case Binding(n, _, outer) =>
      var frame := Materialize(run, l);
      assert frame.bindings == [(l.name, l.value)];
      if n == name {
        FrameHolds(frame.bindings, name, 0, 1);
      } else {
        BinderIsFound(run, name, outer, depth - 1, l.outer);
        assert FindLast(frame.bindings, name, 1).None?;
      }
  }

  /** Parameters are distinct, so searching them forwards agrees with the frame walk. */
  lemma {:induction false} ParameterIsFound(run: Run, name: string)
    requires Entered(run) && Distinct(run.code.params)
    ensures FindParameter(run.code.params, name, 0).Some? ==>
      Walk(MakeFrame(run.parent, run.code.params, run.arguments), name)
        == Some(run.arguments[FindParameter(run.code.params, name, 0).value])
    ensures FindParameter(run.code.params, name, 0).None? ==>
      Walk(MakeFrame(run.parent, run.code.params, run.arguments), name) == Walk(run.parent, name)
  {
    var frame := MakeFrame(run.parent, run.code.params, run.arguments);
    match FindParameter(run.code.params, name, 0)
    case None =>
      if frame != run.parent {
        assert FindLast(frame.bindings, name, |frame.bindings|).None?;
      }
    case Some(i) =>
      FrameHolds(frame.bindings, name, i, |frame.bindings|);
  }

  lemma {:induction false} ClimbToTop(l: Locals)
    ensures Climb(l, Height(l)) == Outermost
  {
    if l.Let? {
      ClimbToTop(l.outer);
    }
  }

  /** A local address denotes the lexical value of its name; a name without one is looked up
      in the captured environment. */
  lemma {:induction false} AddressIsLookup(run: Run, name: string, sc: Scope, depth: nat, l: Locals)
    requires Entered(run) && Distinct(run.code.params)
    requires WellScoped(sc, depth) && ScopeMatches(sc, l) && Height(l) == depth
    ensures var found := Lookup(Materialize(run, l), name);
      match PlanLocal(run.code.params, name, sc, depth)
      case Some((up, slot)) =>
        found == Some(match Climb(l, up) case Outermost => run.arguments[slot] case Let(_, v, _) => v)
      case None => found == Lookup(run.parent, name)
  {
    LookupIsWalk(Materialize(run, l), name);
    LookupIsWalk(run.parent, name);
    BinderIsFound(run, name, sc, depth, l);
    if FindBinder(sc, name, depth).None? {
      ParameterIsFound(run, name);
      ClimbToTop(l);
    }
  }

  // One node at a time ----------------------------------------------------------------------

  /** Running the plan from this node and evaluating e in env agree, whatever has happened
      before and whether or not a tail call is allowed. */
  ghost predicate Agree(rt: Runtime, run: Run, id: nat, l: Locals, e: Value, env: Env) {
    Entered(run) && WellFormed(run.code, id, Height(l))
    && forall h, tail :: Exec(rt, run, h, id, l, tail) == Eval(rt, h, e, env, tail)
  }

  /** The same against the evaluation of a special form or call with the given operands. */
  ghost predicate AgreeForm(rt: Runtime, run: Run, id: nat, l: Locals, e: Value, form: Form, args: seq<Value>, env: Env) {
    Entered(run) && WellFormed(run.code, id, Height(l)) && e.Pair? && Within(args, e)
    && forall h, tail :: Exec(rt, run, h, id, l, tail) == EvalForm(rt, h, e, form, args, env, tail)
  }

  ghost predicate Operands(run: Run, id: nat, l: Locals, op: Op, e: Value, args: seq<Value>) {
    Entered(run) && WellFormed(run.code, id, Height(l)) && run.code.nodes[id].op == op && e.Pair? && Within(args, e)
  }

  lemma IfAgrees(rt: Runtime, run: Run, id: nat, l: Locals, e: Value, args: seq<Value>, env: Env)
    requires Operands(run, id, l, PIf, e, args) && |args| == 3
    requires Agree(rt, run, run.code.nodes[id].a, l, args[0], env)
    requires Agree(rt, run, run.code.nodes[id].b, l, args[1], env)
    requires Agree(rt, run, run.code.nodes[id].c, l, args[2], env)
    ensures AgreeForm(rt, run, id, l, e, FIf, args, env)
  {
    forall h, tail
      ensures Exec(rt, run, h, id, l, tail) == EvalForm(rt, h, e, FIf, args, env, tail)
    {
      assert Exec(rt, run, h, run.code.nodes[id].a, l, false) == Eval(rt, h, args[0], env, false);
    }
  }

  lemma LetAgrees(rt: Runtime, run: Run, id: nat, l: Locals, e: Value, args: seq<Value>, env: Env)
    requires Operands(run, id, l, PLet, e, args) && |args| == 3 && args[0].Sym?
    requires run.code.literals[run.code.nodes[id].a] == args[0]
    requires Agree(rt, run, run.code.nodes[id].b, l, args[1], env)
    requires forall v :: Agree(rt, run, run.code.nodes[id].c, Let(args[0].name, v, l), args[2], Extend(env, args[0].name, v))
    ensures AgreeForm(rt, run, id, l, e, FLet, args, env)
  {
    forall h, tail
      ensures Exec(rt, run, h, id, l, tail) == EvalForm(rt, h, e, FLet, args, env, tail)
    {
      var value := Exec(rt, run, h, run.code.nodes[id].b, l, false);
      if value.Done? {
        assert Agree(rt, run, run.code.nodes[id].c, Let(args[0].name, value.value, l), args[2], Extend(env, args[0].name, value.value));
      }
    }
  }

  lemma AndOrAgrees(rt: Runtime, run: Run, id: nat, l: Locals, e: Value, form: Form, args: seq<Value>, env: Env)
    requires form in {FAnd, FOr} && |args| == 2
    requires Operands(run, id, l, if form.FAnd? then PAnd else POr, e, args)
    requires Agree(rt, run, run.code.nodes[id].a, l, args[0], env)
    requires Agree(rt, run, run.code.nodes[id].b, l, args[1], env)
    ensures AgreeForm(rt, run, id, l, e, form, args, env)
  {
    forall h, tail
      ensures Exec(rt, run, h, id, l, tail) == EvalForm(rt, h, e, form, args, env, tail)
    {
      assert Exec(rt, run, h, run.code.nodes[id].a, l, false) == Eval(rt, h, args[0], env, false);
    }
  }

  ghost predicate ClausesAgree(rt: Runtime, run: Run, id: nat, l: Locals, clauses: seq<Value>, env: Env)
    requires Entered(run) && WellFormed(run.code, id, Height(l)) && run.code.nodes[id].op.PCond?
    requires run.code.nodes[id].n == |clauses|
  {
    var n := run.code.nodes[id];
    forall i :: 0 <= i < n.n ==>
      Items(clauses[i]).Some? && |Items(clauses[i]).value| == 2
      && Agree(rt, run, run.code.aux[n.a + 2 * i], l, Items(clauses[i]).value[0], env)
      && Agree(rt, run, run.code.aux[n.a + 2 * i + 1], l, Items(clauses[i]).value[1], env)
  }

  lemma {:induction false} CondAgrees(rt: Runtime, run: Run, h: History, id: nat, i: nat, l: Locals, e: Value, clauses: seq<Value>, env: Env, tail: bool)
    requires Operands(run, id, l, PCond, e, clauses) && run.code.nodes[id].n == |clauses| && i <= |clauses|
    requires ClausesAgree(rt, run, id, l, clauses, env)
    ensures ExecCond(rt, run, h, id, i, l, tail) == EvalCond(rt, h, e, clauses[i..], env, tail)
    decreases |clauses| - i
  {
    hide Eval, Exec;
    if i < |clauses| {
      assert clauses[i..][0] == clauses[i] && clauses[i..][1..] == clauses[i + 1..];
      var test := Eval(rt, h, Items(clauses[i]).value[0], env, false);
      if test.Done? {
        CondAgrees(rt, run, test.history, id, i + 1, l, e, clauses, env, tail);
      }
    }
  }

  ghost predicate ArgumentsAgree(rt: Runtime, run: Run, id: nat, l: Locals, args: seq<Value>, env: Env)
    requires Entered(run) && WellFormed(run.code, id, Height(l)) && run.code.nodes[id].op in {PCall, PCallExpr}
    requires run.code.nodes[id].n == |args|
  {
    var n := run.code.nodes[id];
    forall i :: 0 <= i < n.n ==> Agree(rt, run, run.code.aux[n.b + i], l, args[i], env)
  }

  lemma {:induction false} ArgumentListAgrees(rt: Runtime, run: Run, h: History, id: nat, i: nat, l: Locals, e: Value, args: seq<Value>, env: Env)
    requires Operands(run, id, l, PCall, e, args) || Operands(run, id, l, PCallExpr, e, args)
    requires run.code.nodes[id].n == |args| && i <= |args|
    requires ArgumentsAgree(rt, run, id, l, args, env)
    ensures ExecArguments(rt, run, h, id, i, l) == EvalArguments(rt, h, e, args[i..], env)
    decreases |args| - i
  {
    if i < |args| {
      assert args[i..][0] == args[i] && args[i..][1..] == args[i + 1..];
      assert Agree(rt, run, run.code.aux[run.code.nodes[id].b + i], l, args[i], env);
      var first := Eval(rt, h, args[i], env, false);
      if first.Done? {
        ArgumentListAgrees(rt, run, first.history, id, i + 1, l, e, args, env);
      }
    }
  }

  lemma CallAgrees(rt: Runtime, run: Run, h: History, id: nat, l: Locals, e: Value, args: seq<Value>, env: Env, tail: bool)
    requires Operands(run, id, l, PCall, e, args) || Operands(run, id, l, PCallExpr, e, args)
    requires run.code.nodes[id].n == |args|
    requires ArgumentsAgree(rt, run, id, l, args, env)
    requires ExecCallee(rt, run, h, id, l) == Callee(rt, h, e, env)
    ensures ExecCall(rt, run, h, id, l, tail) == Application(rt, h, e, args, env, tail)
  {
    var f := Callee(rt, h, e, env);
    if f.Done? {
      if |args| == 2 {
        var b := run.code.nodes[id].b;
        assert run.code.aux[b] == run.code.aux[b + 0];
        assert Agree(rt, run, run.code.aux[b + 0], l, args[0], env) && Agree(rt, run, run.code.aux[b + 1], l, args[1], env);
      }
      ArgumentListAgrees(rt, run, f.history, id, 0, l, e, args, env);
      assert args[0..] == args;
    }
  }

  // Compilation preserves meaning -----------------------------------------------------------

  /** What a closure needs for its plan: distinct parameters, one argument for each, a captured
      environment that passes the plan guard, and a function table of closures. */
  ghost predicate Runnable(rt: Runtime, run: Run) {
    StoresClosures(rt) && Entered(run) && Distinct(run.code.params) && AdmitsPlans(run.parent)
  }

  /** The locals have the shape of the node's scope. */
  ghost predicate Fits(notes: seq<Note>, id: nat, l: Locals) {
    id < |notes| && WellScoped(notes[id].sc, notes[id].depth) && ScopeMatches(notes[id].sc, l)
    && Height(l) == notes[id].depth
  }

  lemma {:induction false} AtomAgrees(rt: Runtime, run: Run, notes: seq<Note>, id: nat, l: Locals)
    requires Runnable(rt, run) && AllFaithful(run.code, notes, 0, 0) && Fits(notes, id, l) && !notes[id].e.Pair?
    ensures Agree(rt, run, id, l, notes[id].e, Materialize(run, l))
    ensures IsOperand(run.code.nodes[id].op) && OperandValue(run, id, l) == Atomic(notes[id].e, Materialize(run, l))
  {
    assert Faithful(run.code, notes, id, 0);
    FaithfulIsWellFormed(run.code, notes, id);
    if notes[id].e.Sym? {
      AddressIsLookup(run, notes[id].e.name, notes[id].sc, notes[id].depth, l);
    }
  }

  /** The form that the plan chose is the one that the evaluator takes: a local head is a
      lexical head, and the plan guard keeps captured names from hiding a special form. */
  lemma {:induction false} SameForm(rt: Runtime, run: Run, h: History, e: Value, sc: Scope, depth: nat, l: Locals, tail: bool)
    requires Runnable(rt, run) && WellScoped(sc, depth) && ScopeMatches(sc, l) && Height(l) == depth
    requires e.Pair? && PlannedForm(run.code.params, e, sc, depth).Some?
    ensures var env := Materialize(run, l);
      Eval(rt, h, e, env, tail) ==
        EvalForm(rt, h, e, PlannedForm(run.code.params, e, sc, depth).value, Items(e.tail).value, env, tail)
  {
    if e.head.Sym? {
      AddressIsLookup(run, e.head.name, sc, depth, l);
      if FormOf(e.head) != FCall {
        AdmittedEnvHidesNoForm(run.parent, e.head.name);
      }
    }
  }

  lemma {:induction false} CalleeAgrees(rt: Runtime, run: Run, h: History, notes: seq<Note>, id: nat, l: Locals)
    requires Runnable(rt, run) && AllFaithful(run.code, notes, 0, 0) && Fits(notes, id, l) && notes[id].e.Pair?
    requires WellFormed(run.code, id, Height(l)) && run.code.nodes[id].op in {PCall, PCallExpr}
    requires Agree(rt, run, run.code.nodes[id].a, l, notes[id].e.head, Materialize(run, l))
    ensures ExecCallee(rt, run, h, id, l) == Callee(rt, h, notes[id].e, Materialize(run, l))
  {
    assert Faithful(run.code, notes, id, 0);
    if run.code.nodes[id].op.PCall? {
      AtomAgrees(rt, run, notes, run.code.nodes[id].a, l);
    }
  }

  /** The children of a form's node agree with its operands. */
  lemma {:induction false} PartAgrees(rt: Runtime, run: Run, notes: seq<Note>, id: nat, child: nat, l: Locals, part: Value)
    requires Runnable(rt, run) && AllFaithful(run.code, notes, 0, 0) && Fits(notes, id, l) && part < notes[id].e
    requires StandsFor(notes, id, child, part, notes[id].sc, notes[id].depth)
    ensures Agree(rt, run, child, l, part, Materialize(run, l))
    decreases notes[id].e, 0, 0
  {
    MeaningPreserved(rt, run, notes, child, l);
  }

  lemma {:induction false} LetFormAgrees(rt: Runtime, run: Run, notes: seq<Note>, id: nat, l: Locals, args: seq<Value>)
    requires AtForm(rt, run, notes, id, l, FLet, args)
    ensures AgreeForm(rt, run, id, l, notes[id].e, FLet, args, Materialize(run, l))
    decreases notes[id].e, 1
  {
    var n, e := run.code.nodes[id], notes[id].e;
    PartAgrees(rt, run, notes, id, n.b, l, args[1]);
    forall v
      ensures Agree(rt, run, n.c, Let(args[0].name, v, l), args[2], Extend(Materialize(run, l), args[0].name, v))
    {
      MeaningPreserved(rt, run, notes, n.c, Let(args[0].name, v, l));
    }
    LetAgrees(rt, run, id, l, e, args, Materialize(run, l));
  }

  lemma {:induction false} ClauseAgrees(rt: Runtime, run: Run, notes: seq<Note>, id: nat, l: Locals, clause: Value, cell: nat)
    requires Runnable(rt, run) && AllFaithful(run.code, notes, 0, 0) && Fits(notes, id, l)
    requires clause < notes[id].e && ClauseMatches(run.code, notes, id, clause, cell)
    ensures Agree(rt, run, run.code.aux[cell], l, Items(clause).value[0], Materialize(run, l))
    ensures Agree(rt, run, run.code.aux[cell + 1], l, Items(clause).value[1], Materialize(run, l))
    decreases notes[id].e, 0, 1
  {
    var parts := Items(clause).value;
    assert parts[0] < clause && parts[1] < clause;
    PartAgrees(rt, run, notes, id, run.code.aux[cell], l, parts[0]);
    PartAgrees(rt, run, notes, id, run.code.aux[cell + 1], l, parts[1]);
  }

  lemma {:induction false} AllClausesAgree(rt: Runtime, run: Run, notes: seq<Note>, id: nat, l: Locals, args: seq<Value>)
    requires AtForm(rt, run, notes, id, l, FCond, args)
    ensures Operands(run, id, l, PCond, notes[id].e, args) && run.code.nodes[id].n == |args|
    ensures ClausesAgree(rt, run, id, l, args, Materialize(run, l))
    decreases notes[id].e, 1, 0
  {
    hide Exec, ExecCond, EvalForm, Eval;
    var n := run.code.nodes[id];
    forall i | 0 <= i < n.n
      ensures Items(args[i]).Some? && |Items(args[i]).value| == 2
      ensures Agree(rt, run, run.code.aux[n.a + 2 * i], l, Items(args[i]).value[0], Materialize(run, l))
      ensures Agree(rt, run, run.code.aux[n.a + 2 * i + 1], l, Items(args[i]).value[1], Materialize(run, l))
    {
      assert ClauseMatches(run.code, notes, id, args[i], n.a + 2 * i);
      ClauseAgrees(rt, run, notes, id, l, args[i], n.a + 2 * i);
    }
  }

  lemma {:induction false} CondFormAgrees(rt: Runtime, run: Run, notes: seq<Note>, id: nat, l: Locals, args: seq<Value>)
    requires AtForm(rt, run, notes, id, l, FCond, args)
    ensures AgreeForm(rt, run, id, l, notes[id].e, FCond, args, Materialize(run, l))
    decreases notes[id].e, 1
  {
    hide ClausesAgree, ExecCond, EvalCond;
    var e, env := notes[id].e, Materialize(run, l);
    AllClausesAgree(rt, run, notes, id, l, args);
    forall h, tail
      ensures Exec(rt, run, h, id, l, tail) == EvalForm(rt, h, e, FCond, args, env, tail)
    {
      CondAgrees(rt, run, h, id, 0, l, e, args, env, tail);
      assert args[0..] == args;
    }
  }

  lemma {:induction false} CallFormAgrees(rt: Runtime, run: Run, notes: seq<Note>, id: nat, l: Locals, args: seq<Value>)
    requires AtForm(rt, run, notes, id, l, FCall, args)
    ensures AgreeForm(rt, run, id, l, notes[id].e, FCall, args, Materialize(run, l))
    decreases notes[id].e, 1
  {
    var n, e, env := run.code.nodes[id], notes[id].e, Materialize(run, l);
    PartAgrees(rt, run, notes, id, n.a, l, e.head);
    forall i | 0 <= i < n.n
      ensures Agree(rt, run, run.code.aux[n.b + i], l, args[i], env)
    {
      assert StandsFor(notes, id, run.code.aux[n.b + i], args[i], notes[id].sc, notes[id].depth);
      PartAgrees(rt, run, notes, id, run.code.aux[n.b + i], l, args[i]);
    }
    forall h, tail
      ensures Exec(rt, run, h, id, l, tail) == EvalForm(rt, h, e, FCall, args, env, tail)
    {
      CalleeAgrees(rt, run, h, notes, id, l);
      CallAgrees(rt, run, h, id, l, e, args, env, tail);
    }
  }

  /** Node id is compiled under a form of its own. */
  ghost predicate AtForm(rt: Runtime, run: Run, notes: seq<Note>, id: nat, l: Locals, form: Form, args: seq<Value>) {
    Runnable(rt, run) && AllFaithful(run.code, notes, 0, 0) && Fits(notes, id, l)
    && notes[id].e.Pair? && WellFormed(run.code, id, Height(l)) && !run.code.nodes[id].op.PFallback?
    && PlannedForm(run.code.params, notes[id].e, notes[id].sc, notes[id].depth) == Some(form)
    && FormMatches(run.code, notes, id, form, 0) && Items(notes[id].e.tail) == Some(args) && Within(args, notes[id].e)
  }

  lemma {:induction false} FormAgrees(rt: Runtime, run: Run, notes: seq<Note>, id: nat, l: Locals, form: Form, args: seq<Value>)
    requires AtForm(rt, run, notes, id, l, form, args)
    ensures AgreeForm(rt, run, id, l, notes[id].e, form, args, Materialize(run, l))
    decreases notes[id].e, 2
  {
    var n, e := run.code.nodes[id], notes[id].e;
    match form
    case FIf =>
      PartAgrees(rt, run, notes, id, n.a, l, args[0]);
      PartAgrees(rt, run, notes, id, n.b, l, args[1]);
      PartAgrees(rt, run, notes, id, n.c, l, args[2]);
      IfAgrees(rt, run, id, l, e, args, Materialize(run, l));
    case FAnd | FOr =>
      PartAgrees(rt, run, notes, id, n.a, l, args[0]);
      PartAgrees(rt, run, notes, id, n.b, l, args[1]);
      AndOrAgrees(rt, run, id, l, e, form, args, Materialize(run, l));
    case FLet => LetFormAgrees(rt, run, notes, id, l, args);
    case FType => PartAgrees(rt, run, notes, id, n.a, l, args[0]);
    case FCond => CondFormAgrees(rt, run, notes, id, l, args);
    case FCall => CallFormAgrees(rt, run, notes, id, l, args);
    case _ =>
  }

  /** Compiler correctness: running the plan from a node and evaluating what the node stands
      for in the rebuilt frames give the same value or error, and perform the same interactions
      in the same order. */
  lemma {:induction false} MeaningPreserved(rt: Runtime, run: Run, notes: seq<Note>, id: nat, l: Locals)
    requires Runnable(rt, run) && AllFaithful(run.code, notes, 0, 0) && Fits(notes, id, l)
    ensures Agree(rt, run, id, l, notes[id].e, Materialize(run, l))
    decreases notes[id].e, 3
  {
    FaithfulIsWellFormed(run.code, notes, id);
    assert Faithful(run.code, notes, id, 0);
    var note := notes[id];
    if !note.e.Pair? {
      AtomAgrees(rt, run, notes, id, l);
    } else if !run.code.nodes[id].op.PFallback? {
      var form := PlannedForm(run.code.params, note.e, note.sc, note.depth).value;
      FormAgrees(rt, run, notes, id, l, form, Items(note.e.tail).value);
      forall h, tail
        ensures Exec(rt, run, h, id, l, tail) == Eval(rt, h, note.e, Materialize(run, l), tail)
      {
        SameForm(rt, run, h, note.e, note.sc, note.depth, l, tail);
      }
    }
  }

  /** The statement for a whole body: a plan whose root stands for it does what the evaluator
      does in the parameter frame. */
  lemma PlanComputesBody(rt: Runtime, run: Run, notes: seq<Note>, body: Value, h: History, tail: bool)
    requires Runnable(rt, run) && AllFaithful(run.code, notes, 0, 0)
    requires |notes| > 0 && notes[0] == Note(body, Top, 0)
    ensures WellFormed(run.code, 0, 0)
    ensures Exec(rt, run, h, 0, Outermost, tail)
      == Eval(rt, h, body, MakeFrame(run.parent, run.code.params, run.arguments), tail)
  {
    MeaningPreserved(rt, run, notes, 0, Outermost);
  }
}
