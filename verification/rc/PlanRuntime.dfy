/** Interpreted closures, the plan kept beside each hot body, and the two ways a closure is
    called: plan_prepare, dynamic_call, prepared_call and make_function. */
module PlanRuntime {
  import opened Options
  import opened RcValue
  import opened Evaluator
  import opened EvalPlan
  import opened PlanTally
  import opened PlanCompiler
  import opened PlanCorrect
  import opened PlanInterpreter

  /** The code really is a plan of this body under these parameters. */
  ghost predicate PlanOf(code: Code, body: Value, params: seq<string>) {
    code.params == params && exists notes ::
      AllFaithful(code, notes, 0, 0) && |notes| > 0 && notes[0] == Note(body, Top, 0)
  }

  lemma FaithfulIsPlan(code: Code, notes: seq<Note>, body: Value)
    requires AllFaithful(code, notes, 0, 0) && |notes| > 0 && notes[0] == Note(body, Top, 0)
    ensures PlanOf(code, body, code.params)
  {
  }

  /** No captured literal contains the body, so a plan kept beside its body makes no cycle. */
  ghost predicate CapturesOnlyParts(code: Code, body: Value) {
    forall i :: 0 <= i < |code.literals| ==> code.literals[i] < body
  }

  predicate IsPowerOfTwo(n: nat) {
    n == 1 || (n > 0 && n % 2 == 0 && IsPowerOfTwo(n / 2))
  }

  function TwoTo(k: nat): nat {
    if k == 0 then 1 else 2 * TwoTo(k - 1)
  }

  lemma PowersOfTwo(n: nat)
    ensures IsPowerOfTwo(n) <==> exists k: nat :: n == TwoTo(k)
  {
    if IsPowerOfTwo(n) {
      var k := PowerIsTwoTo(n);
    }
    forall k: nat | n == TwoTo(k)
      ensures IsPowerOfTwo(n)
    {
      TwoToIsPower(k);
    }
  }

  lemma {:induction false} TwoToIsPower(k: nat)
    ensures TwoTo(k) > 0 && IsPowerOfTwo(TwoTo(k))
    decreases k
  {
    if k > 0 {
      TwoToIsPower(k - 1);
      assert TwoTo(k) / 2 == TwoTo(k - 1);
    }
  }

  lemma {:induction false} PowerIsTwoTo(n: nat) returns (k: nat)
    requires IsPowerOfTwo(n)
    ensures n == TwoTo(k)
    decreases n
  {
    if n == 1 {
      k := 0;
    } else {
      var half := PowerIsTwoTo(n / 2);
      k := half + 1;
    }
  }

  /** The plan compiler makes a plan of the body: it has a shape of its own, its cells fit, and no table
      runs full. */
  predicate Plannable(params: seq<string>, body: Value)
    requires body.Pair?
  {
    && FormOf(body.head) !in {FLambda, FFreeze, FDefun, FTrap}
    && PlannedForm(params, body, Top, 0).Some?
    && AuxNeed(PlannedForm(params, body, Top, 0).value, |Items(body.tail).value|) <= PLAN_LIMIT
    && !Pass(params, body, Top, 0, 0, START).failed
  }

  datatype Entry = Entry(calls: nat, plan: Option<Code>)

  /** The plan table: call counts and at most one plan for each body. */
  class PlanTable {
    var entries: map<Value, Entry>

    constructor ()
      ensures Valid() && entries == map[]
    {
      entries := map[];
    }

    ghost predicate Valid()
      reads this
    {
      forall body :: body in entries && entries[body].plan.Some? ==>
        var code := entries[body].plan.value;
        PlanOf(code, body, code.params) && CapturesOnlyParts(code, body) && |code.params| <= PLAN_LIMIT
    }

    /** rc_eval_plan_heat: counts a call and is hot at powers of two from 32 on. */
    method Heat(body: Value) returns (hot: bool)
      requires Valid()
      modifies this
      ensures Valid()
      ensures forall b :: b in old(entries) && b != body ==> b in entries && entries[b] == old(entries)[b]
      ensures forall b :: b in entries ==> b in old(entries) || b == body
      ensures body in entries
      ensures var was := if body in old(entries) then old(entries)[body] else Entry(0, None);
        entries[body] == was.(calls := was.calls + 1)
        && hot == (was.calls + 1 >= 32 && IsPowerOfTwo(was.calls + 1))
    {
      var was := if body in entries then entries[body] else Entry(0, None);
      entries := entries[body := was.(calls := was.calls + 1)];
      hot := was.calls + 1 >= 32 && IsPowerOfTwo(was.calls + 1);
    }

    /** A plan is kept for this body and these parameters. */
    predicate Keeps(body: Value, params: seq<string>)
      reads this
    {
      body in entries && entries[body].plan.Some? && entries[body].plan.value.params == params
    }

    /** The next call of the body is its thirty-second, sixty-fourth and so on. */
    predicate IsDue(body: Value)
      reads this
    {
      var calls := if body in entries then entries[body].calls + 1 else 1;
      calls >= 32 && IsPowerOfTwo(calls)
    }

    /** plan_prepare: a kept plan with the same parameters, or a new one for a hot body. */
    method Prepare(body: Value, env: Env, params: seq<string>, executing: bool) returns (plan: Option<Code>)
      requires Valid()
      modifies this
      ensures Valid()
      ensures plan.Some? ==> PlanOf(plan.value, body, params) && CapturesOnlyParts(plan.value, body)
                             && |params| <= PLAN_LIMIT && AdmitsPlans(env)
      ensures plan.Some? <==> body.Pair? && |params| <= PLAN_LIMIT && AdmitsPlans(env)
                              && (old(Keeps(body, params)) || (executing && old(IsDue(body)) && Plannable(params, body)))
      ensures plan.Some? ==> body in entries && entries[body].plan == plan
      ensures forall b :: b in old(entries) && b != body ==> b in entries && entries[b] == old(entries)[b]
      ensures !executing ==> entries == old(entries)
    {
      hide PlanOf, Faithful, IsPowerOfTwo, AdmitsPlans;
      if !body.Pair? || |params| > PLAN_LIMIT || !AdmitsPlans(env) {
        return None;
      }
      if Keeps(body, params) {
        return entries[body].plan;
      }
      if !executing {
        return None;
      }
      var hot := Heat(body);
      if !hot {
        return None;
      }
      if FormOf(body.head) in {FLambda, FFreeze, FDefun, FTrap} {
        return None;
      }
      var b := new PlanBuild(params);
      var root := b.Compile(body, Top, 0, 0);
      if b.failed || b.nodes[root].op == PFallback {
        return None;
      }
      var code := Code(b.nodes[..b.nn], b.aux[..b.na], b.literals[..b.nl], params);
      assert AllFaithful(code, b.notes, 0, 0);
      FaithfulIsPlan(code, b.notes, body);
      entries := entries[body := entries[body].(plan := Some(code))];
      plan := Some(code);
    }
  }

  /** An interpreted closure starts with its body and may be promoted to a plan. */
  datatype Captured = Body(body: Value) | Prepared(code: Code)

  class InterpretedClosure {
    const params: seq<string>
    const env: Env
    ghost const body: Value
    var captured: Captured

    ghost predicate Valid()
      reads this
    {
      Distinct(params) &&
      match captured
      case Body(b) => b == body
      case Prepared(code) => PlanOf(code, body, params) && AdmitsPlans(env)
    }

    /** make_function, once the parameters are known to be distinct symbols: a body with a kept
        plan makes a prepared closure at once. */
    constructor (table: PlanTable, params: seq<string>, body: Value, env: Env)
      requires table.Valid() && Distinct(params)
      modifies table
      ensures Valid() && this.params == params && this.body == body && this.env == env
      ensures captured.Prepared? <==> !(|params| == 2 && body == Sym(params[1])) && body.Pair? && |params| <= PLAN_LIMIT
                                      && AdmitsPlans(env) && old(table.Keeps(body, params))
      ensures table.Valid() && table.entries == old(table.entries)
    {
      var plan := None;
      if !(|params| == 2 && body == Sym(params[1])) {
        plan := table.Prepare(body, env, params, false);
      }
      this.params, this.body, this.env := params, body, env;
      captured := if plan.Some? then Prepared(plan.value) else Body(body);
    }

    /** Calls the closure through dynamic_call or prepared_call. Whatever the table holds and
        whether or not this call promotes the closure, the outcome is that of the evaluator on
        the original body. */
    method Invoke(rt: Runtime, table: PlanTable, h: History, argv: seq<Value>) returns (o: Outcome)
      requires Valid() && table.Valid() && StoresClosures(rt) && |argv| == |params|
      modifies this, table
      ensures Valid() && table.Valid() && (old(captured).Prepared? ==> captured == old(captured))
      ensures captured.Prepared? <==> old(captured).Prepared? || (body.Pair? && |params| <= PLAN_LIMIT && AdmitsPlans(env)
                                      && (old(table.Keeps(body, params)) || (old(table.IsDue(body)) && Plannable(params, body))))
      ensures o == Eval(rt, h, body, MakeFrame(env, params, argv), true)
    {
      if captured.Body? {
        var plan := table.Prepare(captured.body, env, params, true);
        if plan.None? {
          o := Evaluate(rt, h, captured.body, MakeFrame(env, params, argv), true);
          return;
        }
        captured := Prepared(plan.value);
      }
      o := RunPrepared(rt, captured.code, h, argv);
    }

    /** prepared_call */
    method RunPrepared(rt: Runtime, code: Code, h: History, argv: seq<Value>) returns (o: Outcome)
      requires Valid() && captured == Prepared(code) && StoresClosures(rt) && |argv| == |params|
      ensures o == Eval(rt, h, body, MakeFrame(env, params, argv), true)
    {
      var run := Run(code, env, argv);
      ghost var notes :| AllFaithful(code, notes, 0, 0) && |notes| > 0 && notes[0] == Note(body, Top, 0);
      PlanComputesBody(rt, run, notes, body, h, true);
      var state := new PlanRun(run);
      o := RunPlan(rt, state, h, 0, null, true);
    }
  }
}
