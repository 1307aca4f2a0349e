/** The imperative evaluators: plan_evaluate of src/rc/eval_plan.h with its lazily built heap
    frames, and evaluate of src/rc/eval.c. Each is proved against its function. */
module PlanInterpreter {
  import opened Options
  import opened RcValue
  import opened Evaluator
  import opened EvalPlan

  // The tree evaluator -----------------------------------------------------------------------

  /** evaluate: the loop rewrites the expression and the environment in tail positions. */
  method Evaluate(rt: Runtime, history: History, input: Value, environment: Env, tail: bool) returns (o: Outcome)
    ensures o == Eval(rt, history, input, environment, tail)
    decreases input, 2
  {
    var h, expr, env := history, input, environment;
    while true
      invariant Eval(rt, history, input, environment, tail) == Eval(rt, h, expr, env, tail)
      invariant expr == input || expr < input
      decreases expr
    {
      if !expr.Pair? {
        return Done(Atomic(expr, env), h);
      }
      var items := Items(expr.tail);
      if items.None? {
        return Failed(ImproperList, h);
      }
      var args := items.value;
      if LexicalHead(expr.head, env).Some? {
        o := Apply(rt, h, expr, args, env, tail);
        return;
      }
      match FormOf(expr.head)
      case FIf =>
        if |args| != 3 {
          return Failed(WrongCount(FIf, 3, |args|), h);
        }
        var test := Evaluate(rt, h, args[0], env, false);
        if test.Failed? {
          return test;
        }
        if !IsBoolean(test.value) {
          return Failed(IfTest, test.history);
        }
        h, expr := test.history, if IsTrue(test.value) then args[1] else args[2];
      case FLet =>
        if |args| != 3 {
          return Failed(WrongCount(FLet, 3, |args|), h);
        }
        if !args[0].Sym? {
          return Failed(BadLetBinder, h);
        }
        var value := Evaluate(rt, h, args[1], env, false);
        if value.Failed? {
          return value;
        }
        h, expr, env := value.history, args[2], Extend(env, args[0].name, value.value);
      case FCond =>
        var next, failure;
        next, failure, h := SelectClause(rt, h, expr, args, env, tail);
        if next.None? {
          return Failed(failure, h);
        }
        expr := next.value;
      case FType =>
        if |args| != 2 {
          return Failed(WrongCount(FType, 2, |args|), h);
        }
        expr := args[0];
      case form =>
        o := EvaluateForm(rt, h, expr, form, args, env, tail);
        return;
    }
  }

  /** The clause search of cond: the body of the first true clause, or an error. */
  method SelectClause(rt: Runtime, history: History, e: Value, clauses: seq<Value>, env: Env, tail: bool)
    returns (next: Option<Value>, failure: Message, h: History)
    requires Within(clauses, e)
    ensures next.Some? ==> next.value < e && EvalCond(rt, history, e, clauses, env, tail) == Eval(rt, h, next.value, env, tail)
    ensures next.None? ==> EvalCond(rt, history, e, clauses, env, tail) == Failed(failure, h)
    decreases e, 0
  {
    next, failure, h := None, NoTrueCase, history;
    var i := 0;
    while i < |clauses|
      invariant i <= |clauses| && Within(clauses[i..], e)
      invariant EvalCond(rt, history, e, clauses, env, tail) == EvalCond(rt, h, e, clauses[i..], env, tail)
    {
      assert clauses[i..][0] == clauses[i] && clauses[i..][1..] == clauses[i + 1..];
      var items := Items(clauses[i]);
      if items.None? {
        return None, ImproperList, h;
      }
      if |items.value| != 2 {
        return None, WrongCount(FCond, 2, |items.value|), h;
      }
      var test := Evaluate(rt, h, items.value[0], env, false);
      if test.Failed? {
        return None, test.message, test.history;
      }
      h := test.history;
      if !IsBoolean(test.value) {
        return None, CondTest, h;
      }
      if IsTrue(test.value) {
        return Some(items.value[1]), failure, h;
      }
      i := i + 1;
    }
  }

  /** The forms that end the loop. */
  method EvaluateForm(rt: Runtime, h: History, e: Value, form: Form, args: seq<Value>, env: Env, tail: bool) returns (o: Outcome)
    requires e.Pair? && Within(args, e) && form !in {FIf, FLet, FCond, FType}
    ensures o == EvalForm(rt, h, e, form, args, env, tail)
    decreases e, 1
  {
    match form
    case FAnd | FOr =>
      if |args| != 2 {
        return Failed(WrongCount(form, 2, |args|), h);
      }
      var first := Evaluate(rt, h, args[0], env, false);
      if first.Failed? {
        return first;
      }
      if !IsBoolean(first.value) {
        return Failed(BooleanArguments, first.history);
      }
      if IsTrue(first.value) != form.FAnd? {
        return first;
      }
      var second := Evaluate(rt, first.history, args[1], env, tail);
      o := Require(rt, second, BooleanGuard);
    case FTrap =>
      if |args| != 2 {
        return Failed(WrongCount(form, 2, |args|), h);
      }
      o := Evaluate(rt, h, args[0], env, false);
      if o.Failed? {
        var message := o.message;
        o := Evaluate(rt, o.history, args[1], env, false);
        if o.Done? {
          o := Perform(o.history, Handled(o.value, message, tail), rt.handle(o.history, o.value, message, tail));
        }
      }
    case FLambda =>
      if |args| != 2 {
        return Failed(WrongCount(form, 2, |args|), h);
      }
      if !args[0].Sym? {
        return Failed(BadLambdaBinder, h);
      }
      o := MakeFunction(rt, h, Pair(0, args[0], Nil), args[1], env);
    case FFreeze =>
      if |args| != 1 {
        return Failed(WrongCount(form, 1, |args|), h);
      }
      o := MakeFunction(rt, h, Nil, args[0], env);
    case FDefun =>
      if |args| != 3 {
        return Failed(WrongCount(form, 3, |args|), h);
      }
      if !args[0].Sym? {
        return Failed(BadDefunName, h);
      }
      var made := MakeFunction(rt, h, args[1], args[2], Empty);
      o := DefineFunction(rt, args[0], made);
    case FQuote =>
      if |args| != 1 {
        return Failed(WrongCount(form, 1, |args|), h);
      }
      o := Done(args[0], h);
    case FCall =>
      o := Apply(rt, h, e, args, env, tail);
  }

  /** application: the function first, then the operands into an argument buffer. */
  method Apply(rt: Runtime, history: History, e: Value, args: seq<Value>, env: Env, tail: bool) returns (o: Outcome)
    requires e.Pair? && Within(args, e)
    ensures o == Application(rt, history, e, args, env, tail)
    decreases e, 0
  {
    var lexical := LexicalHead(e.head, env);
    var f;
    if lexical.Some? {
      f := Done(lexical.value, history);
    } else if e.head.Sym? {
      f := FunctionGet(rt, history, e.head.name);
    } else {
      f := Evaluate(rt, history, e.head, env, false);
    }
    if f.Done? && f.value.Sym? {
      f := FunctionGet(rt, f.history, f.value.name);
    }
    if f.Failed? {
      return f;
    }
    if tail && |args| == 2 && rt.returnsSecond(f.history, f.value) {
      var first := Evaluate(rt, f.history, args[0], env, false);
      if first.Failed? {
        return first;
      }
      var accepted := rt.accepts(first.history, f.value, first.value);
      var second := Evaluate(rt, first.history, args[1], env, accepted);
      o := FinishSecond(rt, f.value, first.value, accepted, second);
      return;
    }
    var arguments := EvaluateArguments(rt, f.history, e, args, env);
    if arguments.Stopped? {
      return Failed(arguments.message, arguments.history);
    }
    o := Call(rt, arguments.history, f.value, arguments.values, tail);
  }

  /** The argument buffer, filled from left to right. */
  method EvaluateArguments(rt: Runtime, history: History, e: Value, args: seq<Value>, env: Env) returns (r: Arguments)
    requires Within(args, e)
    ensures r == EvalArguments(rt, history, e, args, env)
    decreases e, 0, |args|
  {
    hide Eval;
    var argv: seq<Value> := [];
    var h := history;
    var i := 0;
    while i < |args|
      invariant i <= |args| && |argv| == i && Within(args[i..], e)
      invariant EvalArguments(rt, history, e, args, env) == Prefixed(argv, EvalArguments(rt, h, e, args[i..], env))
    {
      assert args[i..][0] == args[i] && args[i..][1..] == args[i + 1..];
      var argument := Evaluate(rt, h, args[i], env, false);
      if argument.Failed? {
        return Stopped(argument.message, argument.history);
      }
      PrefixedTwice(argv, argument.value, EvalArguments(rt, argument.history, e, args[i + 1..], env));
      argv, h := argv + [argument.value], argument.history;
      i := i + 1;
    }
    assert argv + [] == argv;
    r := Values(argv, h);
  }

  function Prefixed(done: seq<Value>, rest: Arguments): Arguments {
    match rest
    case Values(vs, h) => Values(done + vs, h)
    case Stopped(m, h) => rest
  }

  lemma PrefixedTwice(done: seq<Value>, v: Value, rest: Arguments)
    ensures Prefixed(done, Prefixed([v], rest)) == Prefixed(done + [v], rest)
  {
    if rest.Values? {
      assert done + ([v] + rest.values) == done + [v] + rest.values;
    }
  }

  // Frames built on demand --------------------------------------------------------------------

  /** The state of one prepared call: its plan, its operands, and the parameter frame once some
      fallback has needed it. */
  class PlanRun {
    const run: Run
    var materialized: Option<Env>

    constructor (r: Run)
      ensures run == r && materialized.None?
    {
      run := r;
      materialized := None;
    }

    ghost predicate Valid()
      reads this
    {
      Entered(run) && (materialized.Some? ==> materialized.value == Materialize(run, Outermost))
    }
  }

  /** One let binding; its heap frame is built when a fallback first needs it. */
  class PlanEnvironment {
    const parent: PlanEnvironment?
    const name: string
    const value: Value
    var materialized: Option<Env>
    ghost const locals: Locals
    ghost const repr: set<PlanEnvironment>

    constructor (parent: PlanEnvironment?, name: string, value: Value)
      ensures this.parent == parent && this.name == name && this.value == value && materialized.None?
      ensures locals == Let(name, value, LocalsOf(parent)) && repr == {this} + ReprOf(parent)
    {
      this.parent, this.name, this.value, materialized := parent, name, value, None;
      locals := Let(name, value, LocalsOf(parent));
      repr := {this} + ReprOf(parent);
    }

    ghost predicate Valid(run: Run)
      requires Entered(run)
      reads this, repr
      decreases repr
    {
      && this in repr && repr == {this} + ReprOf(parent) && this !in ReprOf(parent)
      && locals == Let(name, value, LocalsOf(parent))
      && (materialized.Some? ==> materialized.value == Materialize(run, locals))
      && (parent != null ==> parent in repr && parent.repr <= repr && parent.Valid(run))
    }
  }

  ghost function LocalsOf(env: PlanEnvironment?): Locals {
    if env == null then Outermost else env.locals
  }

  ghost function ReprOf(env: PlanEnvironment?): set<PlanEnvironment> {
    if env == null then {} else env.repr
  }

  ghost predicate ValidChain(run: Run, env: PlanEnvironment?)
    reads if env == null then {} else {env} + env.repr
  {
    Entered(run) && (env != null ==> env.Valid(run))
  }

  /** plan_environment: the heap frames of a chain, each built at most once. */
  method BuildFrames(state: PlanRun, env: PlanEnvironment?) returns (frame: Env)
    requires state.Valid() && ValidChain(state.run, env)
    modifies state, ReprOf(env)
    ensures state.Valid() && ValidChain(state.run, env)
    ensures frame == Materialize(state.run, LocalsOf(env))
    decreases ReprOf(env)
  {
    if env == null {
      if state.materialized.None? {
        state.materialized := Some(MakeFrame(state.run.parent, state.run.code.params, state.run.arguments));
      }
      return state.materialized.value;
    }
    if env.materialized.None? {
      var parent := BuildFrames(state, env.parent);
      env.materialized := Some(Extend(parent, env.name, env.value));
    }
    frame := env.materialized.value;
  }

  /** plan_value: climbs to the let that binds a local, or looks up or reads a literal. */
  method ReadOperand(state: PlanRun, id: nat, env: PlanEnvironment?) returns (v: Value)
    requires state.Valid() && ValidChain(state.run, env)
    requires WellFormed(state.run.code, id, Height(LocalsOf(env))) && IsOperand(state.run.code.nodes[id].op)
    ensures v == OperandValue(state.run, id, LocalsOf(env))
  {
    var n := state.run.code.nodes[id];
    if n.op.PLocal? {
      var at, i := env, 0;
      while i < n.a
        invariant i <= n.a && ValidChain(state.run, at) && n.a - i <= Height(LocalsOf(at))
        invariant Climb(LocalsOf(env), n.a) == Climb(LocalsOf(at), n.a - i)
      {
        at, i := at.parent, i + 1;
      }
      if at != null {
        return at.value;
      }
      return state.run.arguments[n.b];
    }
    var literal := state.run.code.literals[n.a];
    if n.op.PNonlocal? {
      var lexical := Lookup(state.run.parent, literal.name);
      if lexical.Some? {
        return lexical.value;
      }
    }
    v := literal;
  }

  // Running a plan ------------------------------------------------------------------------------

  /** The plan's node id runs in this chain of lets. */
  ghost predicate Ready(state: PlanRun, id: nat, env: PlanEnvironment?)
    reads state, if env == null then {} else {env} + env.repr
  {
    state.Valid() && ValidChain(state.run, env) && WellFormed(state.run.code, id, Height(LocalsOf(env)))
  }

  /** plan_argument: operands are read in place, anything else is run. */
  method RunArgument(rt: Runtime, state: PlanRun, h: History, id: nat, env: PlanEnvironment?, tail: bool) returns (o: Outcome)
    requires Ready(state, id, env)
    modifies state, ReprOf(env)
    ensures Ready(state, id, env) && o == Exec(rt, state.run, h, id, LocalsOf(env), tail)
    decreases |state.run.code.nodes| - id, 4
  {
    if IsOperand(state.run.code.nodes[id].op) {
      var v := ReadOperand(state, id, env);
      o := Done(v, h);
    } else {
      o := RunPlan(rt, state, h, id, env, tail);
    }
  }

  /** plan_evaluate: the loop moves to the chosen branch in tail positions. */
  method RunPlan(rt: Runtime, state: PlanRun, history: History, id: nat, env: PlanEnvironment?, tail: bool) returns (o: Outcome)
    requires Ready(state, id, env)
    modifies state, ReprOf(env)
    ensures Ready(state, id, env) && o == Exec(rt, state.run, history, id, LocalsOf(env), tail)
    decreases |state.run.code.nodes| - id, 3
  {
    hide Eval, ExecCall, ExecCallee, ExecArguments, ExecCond, Materialize, OperandValue;
    var h, pc := history, id;
    while true
      invariant id <= pc && Ready(state, pc, env)
      invariant Exec(rt, state.run, history, id, LocalsOf(env), tail) == Exec(rt, state.run, h, pc, LocalsOf(env), tail)
      decreases |state.run.code.nodes| - pc
    {
      var n := state.run.code.nodes[pc];
      match n.op
      case PConst | PLocal | PNonlocal =>
        var v := ReadOperand(state, pc, env);
        return Done(v, h);
      case PCall | PCallExpr =>
        o := RunCall(rt, state, h, pc, env, tail);
        return;
      case PIf =>
        var test := RunArgument(rt, state, h, n.a, env, false);
        if test.Failed? {
          return test;
        }
        if !IsBoolean(test.value) {
          return Failed(IfTest, test.history);
        }
        h, pc := test.history, if IsTrue(test.value) then n.b else n.c;
      case PLet =>
        o := RunLet(rt, state, h, pc, env, tail);
        return;
      case PCond =>
        var next, failure;
        next, failure, h := SelectBranch(rt, state, h, pc, env, tail);
        if next.None? {
          return Failed(failure, h);
        }
        pc := next.value;
      case PAnd | POr =>
        o := RunAndOr(rt, state, h, pc, env, tail);
        return;
      case PType =>
        pc := n.a;
      case PFallback =>
        var frame := BuildFrames(state, env);
        o := Evaluate(rt, h, state.run.code.literals[n.a], frame, tail);
        return;
    }
  }

  method RunAndOr(rt: Runtime, state: PlanRun, h: History, id: nat, env: PlanEnvironment?, tail: bool) returns (o: Outcome)
    requires Ready(state, id, env) && state.run.code.nodes[id].op in {PAnd, POr}
    modifies state, ReprOf(env)
    ensures Ready(state, id, env) && o == Exec(rt, state.run, h, id, LocalsOf(env), tail)
    decreases |state.run.code.nodes| - id, 0
  {
    var n := state.run.code.nodes[id];
    var first := RunArgument(rt, state, h, n.a, env, false);
    if first.Failed? {
      return first;
    }
    if !IsBoolean(first.value) {
      return Failed(BooleanArguments, first.history);
    }
    if IsTrue(first.value) != n.op.PAnd? {
      return first;
    }
    var second := RunArgument(rt, state, first.history, n.b, env, tail);
    o := Require(rt, second, BooleanGuard);
  }

  /** The body of a let runs with one more binding in front of the chain. */
  method RunLet(rt: Runtime, state: PlanRun, h: History, id: nat, env: PlanEnvironment?, tail: bool) returns (o: Outcome)
    requires Ready(state, id, env) && state.run.code.nodes[id].op.PLet?
    modifies state, ReprOf(env)
    ensures Ready(state, id, env) && o == Exec(rt, state.run, h, id, LocalsOf(env), tail)
    decreases |state.run.code.nodes| - id, 0
  {
    var n := state.run.code.nodes[id];
    var value := RunArgument(rt, state, h, n.b, env, false);
    if value.Failed? {
      return value;
    }
    var next := new PlanEnvironment(env, state.run.code.literals[n.a].name, value.value);
    o := RunArgument(rt, state, value.history, n.c, next, tail);
    assert next.Valid(state.run);
  }

  /** The branch of the first true test, or an error. */
  method SelectBranch(rt: Runtime, state: PlanRun, history: History, id: nat, env: PlanEnvironment?, tail: bool)
    returns (next: Option<nat>, failure: Message, h: History)
    requires Ready(state, id, env) && state.run.code.nodes[id].op.PCond?
    modifies state, ReprOf(env)
    ensures Ready(state, id, env)
    ensures next.Some? ==> id < next.value && WellFormed(state.run.code, next.value, Height(LocalsOf(env)))
    ensures next.Some? ==>
      Exec(rt, state.run, history, id, LocalsOf(env), tail) == Exec(rt, state.run, h, next.value, LocalsOf(env), tail)
    ensures next.None? ==> Exec(rt, state.run, history, id, LocalsOf(env), tail) == Failed(failure, h)
    decreases |state.run.code.nodes| - id, 0
  {
    next, failure, h := None, NoTrueCase, history;
    var n, i := state.run.code.nodes[id], 0;
    while i < n.n
      invariant i <= n.n && Ready(state, id, env)
      invariant ExecCond(rt, state.run, history, id, 0, LocalsOf(env), tail)
        == ExecCond(rt, state.run, h, id, i, LocalsOf(env), tail)
    {
      var test := RunArgument(rt, state, h, state.run.code.aux[n.a + 2 * i], env, false);
      if test.Failed? {
        return None, test.message, test.history;
      }
      h := test.history;
      if !IsBoolean(test.value) {
        return None, CondTest, h;
      }
      if IsTrue(test.value) {
        return Some(state.run.code.aux[n.a + 2 * i + 1]), failure, h;
      }
      i := i + 1;
    }
  }

  /** plan_application */
  method RunCall(rt: Runtime, state: PlanRun, history: History, id: nat, env: PlanEnvironment?, tail: bool) returns (o: Outcome)
    requires Ready(state, id, env) && state.run.code.nodes[id].op in {PCall, PCallExpr}
    modifies state, ReprOf(env)
    ensures Ready(state, id, env) && o == ExecCall(rt, state.run, history, id, LocalsOf(env), tail)
    decreases |state.run.code.nodes| - id, 2
  {
    var n := state.run.code.nodes[id];
    var f := ResolveCallee(rt, state, history, id, env);
    if f.Failed? {
      return f;
    }
    if tail && n.n == 2 && rt.returnsSecond(f.history, f.value) {
      var first := RunArgument(rt, state, f.history, state.run.code.aux[n.b], env, false);
      if first.Failed? {
        return first;
      }
      var accepted := rt.accepts(first.history, f.value, first.value);
      var second := RunArgument(rt, state, first.history, state.run.code.aux[n.b + 1], env, accepted);
      o := FinishSecond(rt, f.value, first.value, accepted, second);
      return;
    }
    var arguments := RunArguments(rt, state, f.history, id, env);
    if arguments.Stopped? {
      return Failed(arguments.message, arguments.history);
    }
    o := Call(rt, arguments.history, f.value, arguments.values, tail);
  }

  method ResolveCallee(rt: Runtime, state: PlanRun, h: History, id: nat, env: PlanEnvironment?) returns (f: Outcome)
    requires Ready(state, id, env) && state.run.code.nodes[id].op in {PCall, PCallExpr}
    modifies state, ReprOf(env)
    ensures Ready(state, id, env) && f == ExecCallee(rt, state.run, h, id, LocalsOf(env))
    decreases |state.run.code.nodes| - id, 0
  {
    var n := state.run.code.nodes[id];
    if n.op.PCall? {
      var v := ReadOperand(state, n.a, env);
      f := if v.Sym? then FunctionGet(rt, h, v.name) else Done(v, h);
    } else {
      f := RunArgument(rt, state, h, n.a, env, false);
      if f.Done? && f.value.Sym? {
        f := FunctionGet(rt, f.history, f.value.name);
      }
    }
  }

  method RunArguments(rt: Runtime, state: PlanRun, history: History, id: nat, env: PlanEnvironment?) returns (r: Arguments)
    requires Ready(state, id, env) && state.run.code.nodes[id].op in {PCall, PCallExpr}
    modifies state, ReprOf(env)
    ensures Ready(state, id, env) && r == ExecArguments(rt, state.run, history, id, 0, LocalsOf(env))
    decreases |state.run.code.nodes| - id, 0
  {
    var argv: seq<Value> := [];
    var n, h, i := state.run.code.nodes[id], history, 0;
    while i < n.n
      invariant i <= n.n && Ready(state, id, env)
      invariant ExecArguments(rt, state.run, history, id, 0, LocalsOf(env))
        == Prefixed(argv, ExecArguments(rt, state.run, h, id, i, LocalsOf(env)))
    {
      var argument := RunArgument(rt, state, h, state.run.code.aux[n.b + i], env, false);
      if argument.Failed? {
        return Stopped(argument.message, argument.history);
      }
      assert forall rest: seq<Value> :: argv + ([argument.value] + rest) == (argv + [argument.value]) + rest;
      argv, h := argv + [argument.value], argument.history;
      i := i + 1;
    }
    assert argv + [] == argv;
    r := Values(argv, h);
  }
}
