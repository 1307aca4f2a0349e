/** Generated code computes what the program means (src/c/emit.c): by induction on the fuel and the
    expression, every run of the emitted statements ends as the evaluation does. */
module EmitCorrect {
  import opened Options
  import opened KlSyntax
  import opened KlMeaning
  import opened NativeCode
  import opened Emission
  import opened Acceptance
  import opened NativeRelation
  import opened NativeSteps

  ghost predicate Start(x: Setup, env: seq<Binding>, binds: seq<Bound>, self: Option<Self>, k: Counters, temps: Temps, ws: World, wt: World) {
    Below(binds, k.temp) && Matches(x.b, env, binds, temps) && SelfOk(x, self, k) && RelWorld(x, ws, wt)
  }

  lemma NextStart(x: Setup, env: seq<Binding>, binds: seq<Bound>, self: Option<Self>, k: Counters, k': Counters, temps: Temps, temps': Temps, ws: World, wt: World, ws': World, wt': World)
    requires Start(x, env, binds, self, k, temps, ws, wt) && k.temp <= k'.temp
    requires Kept(temps, temps', k.temp) && RelWorld(x, ws', wt')
    ensures Start(x, env, binds, self, k', temps', ws', wt')
  {
    hide RelWorld, Kept, Matches;
    MatchesLater(x.b, env, binds, temps, temps', k.temp);
  }

  lemma LaterStart(x: Setup, env: seq<Binding>, binds: seq<Bound>, self: Option<Self>, k: Counters, k': Counters, temps: Temps, ws: World, wt: World)
    requires Start(x, env, binds, self, k, temps, ws, wt) && k.temp <= k'.temp
    ensures Start(x, env, binds, self, k', temps, ws, wt) && Kept(temps, temps, k.temp) && RelWorld(x, ws, wt)
  {
    hide RelWorld, Matches;
  }

  /** The temporary of a result is a numbered one made so far. */
  lemma {:induction false} ResultBelow(e: Kl, binds: seq<Bound>, self: Option<Self>, tail: bool, k: Counters)
    requires Below(binds, k.temp) && Emit(e, binds, self, tail, k).Out?
    ensures var o := Emit(e, binds, self, tail, k); o.t.T? && o.t.n < o.k.temp
    decreases Size(e)
  {
    if e.Sym? {
      if TempOf(binds, e.name).Some? {
        var i := TempOfIsBound(binds, e.name);
      }
    } else if e.List? && |e.items| > 0 {
      PartsAreSmaller(e.items, IsBoundHead(e.items, binds));
      ResultBelowForm(e, FormOf(e.items, IsBoundHead(e.items, binds)), binds, self, tail, k);
    }
  }

  lemma {:induction false} ResultBelowForm(e: Kl, form: Form, binds: seq<Bound>, self: Option<Self>, tail: bool, k: Counters)
    requires Below(binds, k.temp) && (form.CondForm? ==> AreCases(form.cases)) && EmitForm(form, binds, self, tail, k).Out?
    requires FormSize(form) < Size(e)
    ensures var o := EmitForm(form, binds, self, tail, k); o.t.T? && o.t.n < o.k.temp
    decreases FormSize(form)
  {
    hide Emit, EmitClosureBody;
    match form
    case LetForm(name, bound, body) =>
      var a := Emit(bound, binds, self, false, k);
      ResultBelow(bound, binds, self, false, k);
      ResultBelow(body, binds + [Bound(name, a.t)], self, tail, a.k);
    case DoForm(first, second) =>
      ResultBelow(second, binds, self, tail, Emit(first, binds, self, false, k).k);
    case TypeForm(expr) => ResultBelow(expr, binds, self, tail, k);
    case CondForm(cases) => CasesResult(T(k.temp), cases, binds, self, tail, Fresh(k, 1));
    case _ =>
  }

  lemma CasesResult(t: Temp, cases: seq<Kl>, binds: seq<Bound>, self: Option<Self>, tail: bool, k: Counters)
    requires AreCases(cases) && EmitCases(t, cases, binds, self, tail, k).Out?
    ensures EmitCases(t, cases, binds, self, tail, k).t == t
  {
  }

  // Ends ----------------------------------------------------------------------------------------

  lemma AgreesFromEarlier(x: Setup, s: Result, f: Flow, t: Temp, temps: Temps, temps1: Temps, n: nat, n1: nat, self: Option<Self>, tail: bool, fuel: nat)
    requires Agrees(x, s, f, t, temps1, n1, self, tail, fuel) && Kept(temps, temps1, n) && n <= n1
    ensures Agrees(x, s, f, t, temps, n, self, tail, fuel)
  {
    hide Rel, RelResult, RelWorld, Kept;
    if f.Go? && f.pending.None? {
      KeptTwice(temps, temps1, f.temps, n, n1);
    }
  }

  lemma BranchAgrees(x: Setup, s: Result, f: Flow, from: Temp, m: nat, temps: Temps, temps1: Temps, n: nat, self: Option<Self>, tail: bool, fuel: nat)
    requires Agrees(x, s, f, from, temps, n, self, tail, fuel) && (f.Go? ==> from in f.temps)
    requires Kept(temps, temps1, n) && n <= m
    ensures Agrees(x, s, Branch(T(m), from, f, temps1), T(m), temps, n, self, tail, fuel)
  {
    hide Rel, RelResult, RelWorld, Kept;
    if f.Go? && f.pending.None? {
      KeptSet(temps, temps1, n, m, f.temps[from]);
    }
  }

  /** The if statement that follows a test: the branch taken decides. */
  lemma ChoiceAgrees(x: Setup, s: Result, m: nat, test: Temp, v: Value, error: Value, yes: seq<Stmt>, yesT: Temp, no: seq<Stmt>, noT: Temp,
      temps: Temps, temps1: Temps, w: World, n: nat, self: Option<Self>, tail: bool, fuel: nat)
    requires Accepted([If(T(m), test, error, yes, yesT, no, noT)], temps1.Keys) && Kept(temps, temps1, n) && n <= m
    requires (test in temps1 ==> Rel(x.b, v, temps1[test]))
    requires !v.Truth? ==> s.outcome == Thrown(error) && error.Data? && RelWorld(x, s.world, w)
    requires v.Truth? && v.b ==> Agrees(x, s, Exec(x.b.code, x.pr, yes, temps1, w, fuel), yesT, temps, n, self, tail, fuel)
    requires v.Truth? && !v.b ==> Agrees(x, s, Exec(x.b.code, x.pr, no, temps1, w, fuel), noT, temps, n, self, tail, fuel)
    ensures Agrees(x, s, Exec(x.b.code, x.pr, [If(T(m), test, error, yes, yesT, no, noT)], temps1, w, fuel), T(m), temps, n, self, tail, fuel)
  {
    hide RelWorld, Kept, Agrees, Exec, Accepted, After;
    var choice := If(T(m), test, error, yes, yesT, no, noT);
    AcceptedChoice(choice, temps1.Keys);
    ExecOne(x.b.code, x.pr, choice, temps1, w, fuel);
    if !v.Truth? {
      ThrownAgrees(x, s, error, w, T(m), temps, n, self, tail, fuel);
    } else if v.b {
      BranchDefines(x.b.code, x.pr, yes, yesT, temps1, w, fuel);
      BranchAgrees(x, s, Exec(x.b.code, x.pr, yes, temps1, w, fuel), yesT, m, temps, temps1, n, self, tail, fuel);
    } else {
      BranchDefines(x.b.code, x.pr, no, noT, temps1, w, fuel);
      BranchAgrees(x, s, Exec(x.b.code, x.pr, no, temps1, w, fuel), noT, m, temps, temps1, n, self, tail, fuel);
    }
  }

  lemma ThrownAgrees(x: Setup, s: Result, error: Value, w: World, t: Temp, temps: Temps, n: nat, self: Option<Self>, tail: bool, fuel: nat)
    requires s.outcome == Thrown(error) && error.Data? && RelWorld(x, s.world, w)
    ensures Agrees(x, s, End(Result(Thrown(error), w)), t, temps, n, self, tail, fuel)
  {
    hide RelWorld;
  }

  /** The value of an application or primitive is stored and the code goes on. */
  lemma GiveAgrees(x: Setup, s: Result, r: Result, m: nat, temps: Temps, temps1: Temps, n: nat, self: Option<Self>, tail: bool, fuel: nat)
    requires RelResult(x, s, r) && Kept(temps, temps1, n) && n <= m
    ensures Agrees(x, s, Give(T(m), r, temps1), T(m), temps, n, self, tail, fuel)
  {
    hide Rel, RelWorld, Kept;
    if r.outcome.Done? {
      KeptSet(temps, temps1, n, m, r.outcome.value);
    }
  }

  lemma SetAgrees(x: Setup, v: Value, ws: World, t: Value, wt: World, m: nat, temps: Temps, n: nat, self: Option<Self>, tail: bool, fuel: nat)
    requires Rel(x.b, v, t) && RelWorld(x, ws, wt) && n <= m
    ensures Agrees(x, Result(Done(v), ws), Go(temps[T(m) := t], wt, None), T(m), temps, n, self, tail, fuel)
  {
    hide Rel, RelWorld;
  }

  // Expressions ---------------------------------------------------------------------------------

  lemma {:induction false} Sim(x: Setup, e: Kl, env: seq<Binding>, binds: seq<Bound>, self: Option<Self>, tail: bool, k: Counters, temps: Temps, ws: World, wt: World, fuel: nat)
    requires Ready(x) && Start(x, env, binds, self, k, temps, ws, wt)
    requires var o := Emit(e, binds, self, tail, k); o.Out? && Contains(x.b, o.fns) && Accepted(o.stmts, temps.Keys)
    ensures var o := Emit(e, binds, self, tail, k);
      Agrees(x, Eval(x.p, x.pr, e, env, ws, fuel), Exec(x.b.code, x.pr, o.stmts, temps, wt, fuel), o.t, temps, k.temp, self, tail, fuel)
    decreases fuel, 1, Size(e), 0
  {
    hide RelWorld, EmitForm, EvalForm, Ready, SelfOk;
    var o := Emit(e, binds, self, tail, k);
    match e
    case Sym(name) =>
      if TempOf(binds, name).None? {
        SimConstant(x, Symbol(name), Intern(name), k, temps, ws, wt, self, tail, fuel);
      }
    case Bool(b) => SimConstant(x, Constant(e), Literal(Constant(e)), k, temps, ws, wt, self, tail, fuel);
    case Lit(n) => SimConstant(x, Constant(e), Literal(Constant(e)), k, temps, ws, wt, self, tail, fuel);
    case List(items) =>
      if |items| == 0 {
        SimConstant(x, Nil, Literal(Nil), k, temps, ws, wt, self, tail, fuel);
      } else {
        assert HeadBound(items, env) == IsBoundHead(items, binds);
        PartsAreSmaller(items, IsBoundHead(items, binds));
        SimForm(x, FormOf(items, IsBoundHead(items, binds)), env, binds, self, tail, k, temps, ws, wt, fuel);
      }
  }

  lemma SimConstant(x: Setup, v: Value, rhs: Rhs, k: Counters, temps: Temps, ws: World, wt: World, self: Option<Self>, tail: bool, fuel: nat)
    requires RelWorld(x, ws, wt) && (rhs == Literal(v) || (v.Symbol? && rhs == Intern(v.name)))
    requires v.Symbol? || v.Truth? || v.Data? || v.Nil?
    ensures Agrees(x, Result(Done(v), ws), Exec(x.b.code, x.pr, [Set(T(k.temp), rhs)], temps, wt, fuel), T(k.temp), temps, k.temp, self, tail, fuel)
  {
    hide RelWorld;
    ExecOne(x.b.code, x.pr, Set(T(k.temp), rhs), temps, wt, fuel);
    SetAgrees(x, v, ws, v, wt, k.temp, temps, k.temp, self, tail, fuel);
  }

  lemma {:induction false} SimForm(x: Setup, form: Form, env: seq<Binding>, binds: seq<Bound>, self: Option<Self>, tail: bool, k: Counters, temps: Temps, ws: World, wt: World, fuel: nat)
    requires Ready(x) && Start(x, env, binds, self, k, temps, ws, wt) && (form.CondForm? ==> AreCases(form.cases))
    requires var o := EmitForm(form, binds, self, tail, k); o.Out? && Contains(x.b, o.fns) && Accepted(o.stmts, temps.Keys)
    ensures var o := EmitForm(form, binds, self, tail, k);
      Agrees(x, EvalForm(x.p, x.pr, form, env, ws, fuel), Exec(x.b.code, x.pr, o.stmts, temps, wt, fuel), o.t, temps, k.temp, self, tail, fuel)
    decreases fuel, 1, FormSize(form), 3
  {
    hide RelWorld, Ready, SelfOk, Matches, Below, Agrees, Exec, Accepted, Contains, Emit, EmitIf, EmitBoth, EmitCases, EmitClosure, EmitTrap, EmitNamed, EmitValueCall, EvalIf, EvalBoth, EvalCases, EvalTrap, EvalCall, Eval;
    match form
    case IfForm(test, yes, no) => SimIf(x, test, yes, no, env, binds, self, tail, k, temps, ws, wt, fuel);
    case AndForm(left, right) => SimBoth(x, left, right, true, env, binds, self, tail, k, temps, ws, wt, fuel);
    case OrForm(left, right) => SimBoth(x, left, right, false, env, binds, self, tail, k, temps, ws, wt, fuel);
    case CondForm(cases) =>
      LaterStart(x, env, binds, self, k, Fresh(k, 1), temps, ws, wt);
      SimCases(x, k.temp, cases, env, binds, self, tail, Fresh(k, 1), temps, ws, wt, fuel);
    case LetForm(name, bound, body) => SimLet(x, name, bound, body, env, binds, self, tail, k, temps, ws, wt, fuel);
    case DoForm(first, second) => SimDo(x, first, second, env, binds, self, tail, k, temps, ws, wt, fuel);
    case LambdaForm(name, body) => SimClosure(x, [name], body, env, binds, self, tail, k, temps, ws, wt, fuel);
    case FreezeForm(body) => SimClosure(x, [], body, env, binds, self, tail, k, temps, ws, wt, fuel);
    case TrapForm(body, handler) => SimTrap(x, body, handler, env, binds, self, tail, k, temps, ws, wt, fuel);
    case TypeForm(expr) => Sim(x, expr, env, binds, self, tail, k, temps, ws, wt, fuel);
    case NamedCall(f, args) => SimNamed(x, f, args, env, binds, self, tail, k, temps, ws, wt, fuel);
    case ValueCall(head, args) => SimValueCall(x, head, args, env, binds, self, tail, k, temps, ws, wt, fuel);
    case Unsupported =>
  }

  /** An expression that runs after other statements. */
  lemma {:induction false} SimNext(x: Setup, e: Kl, env: seq<Binding>, binds: seq<Bound>, self: Option<Self>, tail: bool, k: Counters, temps: Temps, n: nat, temps1: Temps, ws: World, wt: World, fuel: nat)
    requires Ready(x) && Start(x, env, binds, self, k, temps1, ws, wt) && Kept(temps, temps1, n) && n <= k.temp
    requires var o := Emit(e, binds, self, tail, k); o.Out? && Contains(x.b, o.fns) && Accepted(o.stmts, temps1.Keys)
    ensures var o := Emit(e, binds, self, tail, k);
      Agrees(x, Eval(x.p, x.pr, e, env, ws, fuel), Exec(x.b.code, x.pr, o.stmts, temps1, wt, fuel), o.t, temps, n, self, tail, fuel)
    decreases fuel, 1, Size(e), 1
  {
    hide *;
    var o := Emit(e, binds, self, tail, k);
    Sim(x, e, env, binds, self, tail, k, temps1, ws, wt, fuel);
    AgreesFromEarlier(x, Eval(x.p, x.pr, e, env, ws, fuel), Exec(x.b.code, x.pr, o.stmts, temps1, wt, fuel), o.t, temps, temps1, n, k.temp, self, tail, fuel);
  }

  lemma {:induction false} SimIf(x: Setup, test: Kl, yes: Kl, no: Kl, env: seq<Binding>, binds: seq<Bound>, self: Option<Self>, tail: bool, k: Counters, temps: Temps, ws: World, wt: World, fuel: nat)
    requires Ready(x) && Start(x, env, binds, self, k, temps, ws, wt)
    requires var o := EmitIf(test, yes, no, binds, self, tail, k); o.Out? && Contains(x.b, o.fns) && Accepted(o.stmts, temps.Keys)
    ensures var o := EmitIf(test, yes, no, binds, self, tail, k);
      Agrees(x, EvalIf(x.p, x.pr, test, yes, no, env, ws, fuel), Exec(x.b.code, x.pr, o.stmts, temps, wt, fuel), o.t, temps, k.temp, self, tail, fuel)
    decreases fuel, 1, 1 + Size(test) + Size(yes) + Size(no), 0
  {
    hide RelWorld, Rel, RelResult, Ready, SelfOk, Matches, Below, Exec, Accepted, After, Contains, Emit, Eval, Start, Kept;
    var k1 := Fresh(k, 1);
    var a := Emit(test, binds, self, false, k1);
    var b := Emit(yes, binds, self, tail, a.k);
    var c := Emit(no, binds, self, tail, b.k);
    var choice := If(T(k.temp), a.t, TEST_ERROR, b.stmts, b.t, c.stmts, c.t);
    ContainsParts(x.b, a.fns + b.fns, c.fns);
    ContainsParts(x.b, a.fns, b.fns);
    RunFirst(x.b.code, x.pr, a.stmts, [choice], temps, wt, fuel);
    LaterStart(x, env, binds, self, k, k1, temps, ws, wt);
    SimNext(x, test, env, binds, self, false, k1, temps, k.temp, temps, ws, wt, fuel);
    var s, f := Eval(x.p, x.pr, test, env, ws, fuel), Exec(x.b.code, x.pr, a.stmts, temps, wt, fuel);
    if f.Go? {
      AcceptedBranches(choice, f.temps.Keys);
      NextStart(x, env, binds, self, k, a.k, temps, f.temps, ws, wt, s.world, f.world);
      if s.outcome.value.Truth? && s.outcome.value.b {
        SimNext(x, yes, env, binds, self, tail, a.k, temps, k.temp, f.temps, s.world, f.world, fuel);
      } else if s.outcome.value.Truth? {
        LaterStart(x, env, binds, self, a.k, b.k, f.temps, s.world, f.world);
        SimNext(x, no, env, binds, self, tail, b.k, temps, k.temp, f.temps, s.world, f.world, fuel);
      }
      ChoiceAgrees(x, EvalIf(x.p, x.pr, test, yes, no, env, ws, fuel), k.temp, a.t, s.outcome.value, TEST_ERROR, b.stmts, b.t, c.stmts, c.t,
        temps, f.temps, f.world, k.temp, self, tail, fuel);
    }
  }

  lemma AcceptedBranches(s: Stmt, d: set<Temp>)
    requires s.If? && Accepted([s], d)
    ensures Accepted(s.yes, d) && Accepted(s.no, d)
  {
  }

  lemma AcceptedChoice(s: Stmt, d: set<Temp>)
    requires Accepted([s], d)
    ensures AcceptedOne(s, d)
  {
  }

  lemma BranchDefines(c: Code, pr: Prims, stmts: seq<Stmt>, t: Temp, temps: Temps, w: World, fuel: nat)
    requires t in After(stmts, temps.Keys)
    ensures var f := Exec(c, pr, stmts, temps, w, fuel); f.Go? ==> t in f.temps
  {
    hide Exec;
    ExecKeys(c, pr, stmts, temps, w, fuel);
  }

  lemma {:induction false} SimBoth(x: Setup, left: Kl, right: Kl, want: bool, env: seq<Binding>, binds: seq<Bound>, self: Option<Self>, tail: bool, k: Counters, temps: Temps, ws: World, wt: World, fuel: nat)
    requires Ready(x) && Start(x, env, binds, self, k, temps, ws, wt)
    requires var o := EmitBoth(left, right, want, binds, self, k); o.Out? && Contains(x.b, o.fns) && Accepted(o.stmts, temps.Keys)
    ensures var o := EmitBoth(left, right, want, binds, self, k);
      Agrees(x, EvalBoth(x.p, x.pr, left, right, want, env, ws, fuel), Exec(x.b.code, x.pr, o.stmts, temps, wt, fuel), o.t, temps, k.temp, self, tail, fuel)
    decreases fuel, 1, 1 + Size(left) + Size(right), 0
  {
    hide RelWorld, Rel, RelResult, Ready, SelfOk, Matches, Below, Exec, Accepted, After, Contains, Emit, Eval, Start, Kept;
    var k1 := Fresh(k, 1);
    var a := Emit(left, binds, self, false, k1);
    var b := Emit(right, binds, self, false, a.k);
    var checked := b.stmts + [Check(b.t, ARGUMENT_ERROR)];
    var choice := if want then If(T(k.temp), a.t, ARGUMENT_ERROR, checked, b.t, [], a.t)
                  else If(T(k.temp), a.t, ARGUMENT_ERROR, [], a.t, checked, b.t);
    ContainsParts(x.b, a.fns, b.fns);
    RunFirst(x.b.code, x.pr, a.stmts, [choice], temps, wt, fuel);
    LaterStart(x, env, binds, self, k, k1, temps, ws, wt);
    SimNext(x, left, env, binds, self, false, k1, temps, k.temp, temps, ws, wt, fuel);
    var s, f := Eval(x.p, x.pr, left, env, ws, fuel), Exec(x.b.code, x.pr, a.stmts, temps, wt, fuel);
    if f.Go? {
      AcceptedBranches(choice, f.temps.Keys);
      NextStart(x, env, binds, self, k, a.k, temps, f.temps, ws, wt, s.world, f.world);
      NoStatements(x.b.code, x.pr, f.temps, f.world, fuel);
      if s.outcome.value.Truth? && s.outcome.value.b == want {
        SimChecked(x, right, env, binds, self, tail, a.k, temps, k.temp, f.temps, s.world, f.world, fuel);
      }
      ChoiceAgrees(x, EvalBoth(x.p, x.pr, left, right, want, env, ws, fuel), k.temp, a.t, s.outcome.value, ARGUMENT_ERROR,
        choice.yes, choice.yesT, choice.no, choice.noT, temps, f.temps, f.world, k.temp, self, tail, fuel);
    }
  }

  lemma NoStatements(c: Code, pr: Prims, temps: Temps, w: World, fuel: nat)
    ensures Exec(c, pr, [], temps, w, fuel) == Go(temps, w, None)
  {
  }

  /** The right argument of and or or, and the test of its value. */
  lemma {:induction false} SimChecked(x: Setup, right: Kl, env: seq<Binding>, binds: seq<Bound>, self: Option<Self>, tail: bool, k: Counters, temps: Temps, n: nat, temps1: Temps, ws: World, wt: World, fuel: nat)
    requires Ready(x) && Start(x, env, binds, self, k, temps1, ws, wt) && Kept(temps, temps1, n) && n <= k.temp
    requires var o := Emit(right, binds, self, false, k);
      o.Out? && Contains(x.b, o.fns) && Accepted(o.stmts + [Check(o.t, ARGUMENT_ERROR)], temps1.Keys)
    ensures var o := Emit(right, binds, self, false, k);
      var r := Eval(x.p, x.pr, right, env, ws, fuel);
      var r' := if r.outcome.Done? && !r.outcome.value.Truth? then Result(Thrown(ARGUMENT_ERROR), r.world) else r;
      Agrees(x, r', Exec(x.b.code, x.pr, o.stmts + [Check(o.t, ARGUMENT_ERROR)], temps1, wt, fuel), o.t, temps, n, self, tail, fuel)
    decreases fuel, 1, Size(right), 2
  {
    hide RelWorld, Ready, SelfOk, Matches, Below, Exec, Accepted, After, Contains, Emit, Eval, Start, Kept;
    var o := Emit(right, binds, self, false, k);
    var check := Check(o.t, ARGUMENT_ERROR);
    RunFirst(x.b.code, x.pr, o.stmts, [check], temps1, wt, fuel);
    SimNext(x, right, env, binds, self, false, k, temps, n, temps1, ws, wt, fuel);
    var f := Exec(x.b.code, x.pr, o.stmts, temps1, wt, fuel);
    if f.Go? {
      AcceptedChoice(check, f.temps.Keys);
      ExecOne(x.b.code, x.pr, check, f.temps, f.world, fuel);
    }
  }

  /** The cases of a cond; t<m> is the temporary of its value. */
  lemma {:induction false} SimCases(x: Setup, m: nat, cases: seq<Kl>, env: seq<Binding>, binds: seq<Bound>, self: Option<Self>, tail: bool, k: Counters, temps: Temps, ws: World, wt: World, fuel: nat)
    requires Ready(x) && Start(x, env, binds, self, k, temps, ws, wt) && AreCases(cases) && m < k.temp
    requires var o := EmitCases(T(m), cases, binds, self, tail, k); o.Out? && Contains(x.b, o.fns) && Accepted(o.stmts, temps.Keys)
    ensures var o := EmitCases(T(m), cases, binds, self, tail, k);
      Agrees(x, EvalCases(x.p, x.pr, cases, env, ws, fuel), Exec(x.b.code, x.pr, o.stmts, temps, wt, fuel), o.t, temps, m, self, tail, fuel)
    decreases fuel, 1, 1 + SizeAll(cases), 2
  {
    hide RelWorld, Ready, Start, Exec, Accepted, Contains, Emit, Eval;
    if |cases| == 0 {
      NoCase(x.b.code, x.pr, T(m), temps, wt, fuel);
      LaterStart(x, env, binds, self, k, k, temps, ws, wt);
    } else {
      CasesAreSmaller(cases);
      SimCase(x, m, cases[0].items[0], cases[0].items[1], cases[1..], env, binds, self, tail, k, temps, ws, wt, fuel);
    }
  }

  lemma {:induction false} SimCase(x: Setup, m: nat, test: Kl, then_: Kl, cases: seq<Kl>, env: seq<Binding>, binds: seq<Bound>, self: Option<Self>, tail: bool, k: Counters, temps: Temps, ws: World, wt: World, fuel: nat)
    requires Ready(x) && Start(x, env, binds, self, k, temps, ws, wt) && AreCases(cases) && m < k.temp
    requires Emit(test, binds, self, false, k).Out?
    requires Emit(then_, binds, self, tail, Emit(test, binds, self, false, k).k).Out?
    requires EmitCases(T(m), cases, binds, self, tail, Emit(then_, binds, self, tail, Emit(test, binds, self, false, k).k).k).Out?
    requires var a := Emit(test, binds, self, false, k);
      var b := Emit(then_, binds, self, tail, a.k);
      var c := EmitCases(T(m), cases, binds, self, tail, b.k);
      Contains(x.b, a.fns + b.fns + c.fns) && Accepted(a.stmts + [If(T(m), a.t, CASE_ERROR, b.stmts, b.t, c.stmts, T(m))], temps.Keys)
    ensures var a := Emit(test, binds, self, false, k);
      var b := Emit(then_, binds, self, tail, a.k);
      var c := EmitCases(T(m), cases, binds, self, tail, b.k);
      var t := Eval(x.p, x.pr, test, env, ws, fuel);
      var s := if !t.outcome.Done? then t
        else if !t.outcome.value.Truth? then Result(Thrown(CASE_ERROR), t.world)
        else if t.outcome.value.b then Eval(x.p, x.pr, then_, env, t.world, fuel)
        else EvalCases(x.p, x.pr, cases, env, t.world, fuel);
      Agrees(x, s, Exec(x.b.code, x.pr, a.stmts + [If(T(m), a.t, CASE_ERROR, b.stmts, b.t, c.stmts, T(m))], temps, wt, fuel), T(m), temps, m, self, tail, fuel)
    decreases fuel, 1, 1 + Size(test) + Size(then_) + SizeAll(cases), 0
  {
    hide Rel, RelResult, RelWorld, Ready, SelfOk, Matches, Below, Exec, Accepted, After, Contains, Emit, Eval, EmitCases, EvalCases, Start, Kept;
    var a := Emit(test, binds, self, false, k);
    var b := Emit(then_, binds, self, tail, a.k);
    var c := EmitCases(T(m), cases, binds, self, tail, b.k);
    var choice := If(T(m), a.t, CASE_ERROR, b.stmts, b.t, c.stmts, T(m));
    ContainsParts(x.b, a.fns + b.fns, c.fns);
    ContainsParts(x.b, a.fns, b.fns);
    RunFirst(x.b.code, x.pr, a.stmts, [choice], temps, wt, fuel);
    Sim(x, test, env, binds, self, false, k, temps, ws, wt, fuel);
    var t, f := Eval(x.p, x.pr, test, env, ws, fuel), Exec(x.b.code, x.pr, a.stmts, temps, wt, fuel);
    CasesResult(T(m), cases, binds, self, tail, b.k);
    if f.Go? {
      AcceptedBranches(choice, f.temps.Keys);
      NextStart(x, env, binds, self, k, a.k, temps, f.temps, ws, wt, t.world, f.world);
      KeptLess(temps, f.temps, k.temp, m);
      var s := Result(Thrown(CASE_ERROR), t.world);
      if t.outcome.value.Truth? && t.outcome.value.b {
        s := Eval(x.p, x.pr, then_, env, t.world, fuel);
        SimNext(x, then_, env, binds, self, tail, a.k, temps, m, f.temps, t.world, f.world, fuel);
      } else if t.outcome.value.Truth? {
        s := EvalCases(x.p, x.pr, cases, env, t.world, fuel);
        LaterStart(x, env, binds, self, a.k, b.k, f.temps, t.world, f.world);
        SimCases(x, m, cases, env, binds, self, tail, b.k, f.temps, t.world, f.world, fuel);
        AgreesFromEarlier(x, s, Exec(x.b.code, x.pr, c.stmts, f.temps, f.world, fuel), T(m), temps, f.temps, m, m, self, tail, fuel);
      }
      ChoiceAgrees(x, s, m, a.t, t.outcome.value, CASE_ERROR, b.stmts, b.t, c.stmts, T(m), temps, f.temps, f.world, m, self, tail, fuel);
    }
  }

  lemma KeptLess(t0: Temps, t1: Temps, n: nat, m: nat)
    requires Kept(t0, t1, n) && m <= n
    ensures Kept(t0, t1, m)
  {
  }

  lemma NoCase(c: Code, pr: Prims, t: Temp, temps: Temps, w: World, fuel: nat)
    ensures Exec(c, pr, [Fail(NO_CASE_ERROR), Set(t, Literal(Nil))], temps, w, fuel) == End(Result(Thrown(NO_CASE_ERROR), w))
  {
    assert Step(c, pr, Fail(NO_CASE_ERROR), temps, w, fuel) == End(Result(Thrown(NO_CASE_ERROR), w));
  }

  lemma {:induction false} SimLet(x: Setup, name: string, bound: Kl, body: Kl, env: seq<Binding>, binds: seq<Bound>, self: Option<Self>, tail: bool, k: Counters, temps: Temps, ws: World, wt: World, fuel: nat)
    requires Ready(x) && Start(x, env, binds, self, k, temps, ws, wt)
    requires var o := EmitLet(name, bound, body, binds, self, tail, k); o.Out? && Contains(x.b, o.fns) && Accepted(o.stmts, temps.Keys)
    ensures var o := EmitLet(name, bound, body, binds, self, tail, k);
      Agrees(x, EvalForm(x.p, x.pr, LetForm(name, bound, body), env, ws, fuel), Exec(x.b.code, x.pr, o.stmts, temps, wt, fuel), o.t, temps, k.temp, self, tail, fuel)
    decreases fuel, 1, 1 + Size(bound) + Size(body), 0
  {
    hide RelWorld, Ready, SelfOk, Matches, Exec, Accepted, After, Contains, Emit, Eval, Kept;
    var a := Emit(bound, binds, self, false, k);
    var b := Emit(body, binds + [Bound(name, a.t)], self, tail, a.k);
    ContainsParts(x.b, a.fns, b.fns);
    RunFirst(x.b.code, x.pr, a.stmts, b.stmts, temps, wt, fuel);
    Sim(x, bound, env, binds, self, false, k, temps, ws, wt, fuel);
    var s, f := Eval(x.p, x.pr, bound, env, ws, fuel), Exec(x.b.code, x.pr, a.stmts, temps, wt, fuel);
    if f.Go? {
      var v := s.outcome.value;
      ResultBelow(bound, binds, self, false, k);
      NextStart(x, env, binds, self, k, a.k, temps, f.temps, ws, wt, s.world, f.world);
      MatchesLet(x.b, env, binds, f.temps, name, v, a.t);
      var s', f' := Eval(x.p, x.pr, body, env + [Binding(name, v)], s.world, fuel), Exec(x.b.code, x.pr, b.stmts, f.temps, f.world, fuel);
      Sim(x, body, env + [Binding(name, v)], binds + [Bound(name, a.t)], self, tail, a.k, f.temps, s.world, f.world, fuel);
      AgreesFromEarlier(x, s', f', b.t, temps, f.temps, k.temp, a.k.temp, self, tail, fuel);
      if |b.stmts| == 0 {
        NoStatements(x.b.code, x.pr, f.temps, f.world, fuel);
      }
    }
  }

  lemma {:induction false} SimDo(x: Setup, first: Kl, second: Kl, env: seq<Binding>, binds: seq<Bound>, self: Option<Self>, tail: bool, k: Counters, temps: Temps, ws: World, wt: World, fuel: nat)
    requires Ready(x) && Start(x, env, binds, self, k, temps, ws, wt)
    requires var o := EmitDo(first, second, binds, self, tail, k); o.Out? && Contains(x.b, o.fns) && Accepted(o.stmts, temps.Keys)
    ensures var o := EmitDo(first, second, binds, self, tail, k);
      Agrees(x, EvalForm(x.p, x.pr, DoForm(first, second), env, ws, fuel), Exec(x.b.code, x.pr, o.stmts, temps, wt, fuel), o.t, temps, k.temp, self, tail, fuel)
    decreases fuel, 1, 1 + Size(first) + Size(second), 0
  {
    hide RelWorld, Ready, SelfOk, Matches, Exec, Accepted, After, Contains, Emit, Eval, Kept, Start;
    var a := Emit(first, binds, self, false, k);
    var b := Emit(second, binds, self, tail, a.k);
    ContainsParts(x.b, a.fns, b.fns);
    RunFirst(x.b.code, x.pr, a.stmts, b.stmts, temps, wt, fuel);
    Sim(x, first, env, binds, self, false, k, temps, ws, wt, fuel);
    var s, f := Eval(x.p, x.pr, first, env, ws, fuel), Exec(x.b.code, x.pr, a.stmts, temps, wt, fuel);
    if f.Go? {
      NextStart(x, env, binds, self, k, a.k, temps, f.temps, ws, wt, s.world, f.world);
      var s', f' := Eval(x.p, x.pr, second, env, s.world, fuel), Exec(x.b.code, x.pr, b.stmts, f.temps, f.world, fuel);
      Sim(x, second, env, binds, self, tail, a.k, f.temps, s.world, f.world, fuel);
      AgreesFromEarlier(x, s', f', b.t, temps, f.temps, k.temp, a.k.temp, self, tail, fuel);
      if |b.stmts| == 0 {
        NoStatements(x.b.code, x.pr, f.temps, f.world, fuel);
      }
    }
  }

  lemma {:induction false} SimClosure(x: Setup, params: seq<string>, body: Kl, env: seq<Binding>, binds: seq<Bound>, self: Option<Self>, tail: bool, k: Counters, temps: Temps, ws: World, wt: World, fuel: nat)
    requires Ready(x) && Start(x, env, binds, self, k, temps, ws, wt)
    requires var o := EmitClosure(params, body, binds, k); o.Out? && Contains(x.b, o.fns) && Accepted(o.stmts, temps.Keys)
    ensures var o := EmitClosure(params, body, binds, k);
      Agrees(x, Result(Done(SourceClosure(params, body, env)), ws), Exec(x.b.code, x.pr, o.stmts, temps, wt, fuel), o.t, temps, k.temp, self, tail, fuel)
    decreases fuel, 1, 1 + Size(body), 0
  {
    hide RelWorld, Ready, SelfOk, Exec, Accepted, EmitClosureBody, Captures, Rel, Below;
    var o := EmitClosure(params, body, binds, k);
    var names := Captures(params, body, binds);
    var ts := CaptureTemps(binds, names);
    var make := Set(T(k.temp), MakeClosure(k.lambdaId, |params|, ts));
    AcceptedChoice(make, temps.Keys);
    ExecOne(x.b.code, x.pr, make, temps, wt, fuel);
    assert Holds(x.b, o.fns[|o.fns| - 1]);
    ClosureRelates(x.b, params, body, env, binds, k.lambdaId, temps);
    SetAgrees(x, SourceClosure(params, body, env), ws, NativeClosure(k.lambdaId, |params|, Values(temps, ts)), wt, k.temp, temps, k.temp, self, tail, fuel);
  }

  lemma ClosureRelates(b: Build, params: seq<string>, body: Kl, env: seq<Binding>, binds: seq<Bound>, id: nat, temps: Temps)
    requires Matches(b, env, binds, temps) && id in b.notes
    requires b.notes[id].params == params && b.notes[id].body == body && b.notes[id].binds == binds
    requires AllDefined(temps, CaptureTemps(binds, Captures(params, body, binds)))
    ensures Rel(b, SourceClosure(params, body, env), NativeClosure(id, |params|, Values(temps, CaptureTemps(binds, Captures(params, body, binds)))))
  {
    hide Captures;
    var names := Captures(params, body, binds);
    var ts := CaptureTemps(binds, names);
    forall i | 0 <= i < |names|
      ensures Position(env, names[i]) < |env| && Rel(b, env[Position(env, names[i])].value, Values(temps, ts)[i])
    {
      assert TempOf(binds, names[i]).Some? && ts[i] in temps;
    }
  }

  lemma {:induction false} SimTrap(x: Setup, body: Kl, handler: Kl, env: seq<Binding>, binds: seq<Bound>, self: Option<Self>, tail: bool, k: Counters, temps: Temps, ws: World, wt: World, fuel: nat)
    requires Ready(x) && Start(x, env, binds, self, k, temps, ws, wt)
    requires var o := EmitTrap(body, handler, binds, k); o.Out? && Contains(x.b, o.fns) && Accepted(o.stmts, temps.Keys)
    ensures var o := EmitTrap(body, handler, binds, k);
      Agrees(x, EvalTrap(x.p, x.pr, body, handler, env, ws, fuel), Exec(x.b.code, x.pr, o.stmts, temps, wt, fuel), o.t, temps, k.temp, self, tail, fuel)
    decreases fuel, 1, 1 + Size(body) + Size(handler), 0
  {
    hide RelWorld, Rel, RelResult, Ready, SelfOk, Exec, Accepted, Contains, Emit, EvalTrap, TrapError, Matches, Below;
    var o := EmitTrap(body, handler, binds, k);
    var trap := Set(T(k.temp), Trap(k.trapId, TempsOf(binds)));
    AcceptedChoice(trap, temps.Keys);
    ExecOne(x.b.code, x.pr, trap, temps, wt, fuel);
    LaterStart(x, env, binds, self, k, k, temps, ws, wt);
    SimTrapError(x, body, handler, env, binds, k, temps, ws, wt, fuel);
    GiveAgrees(x, EvalTrap(x.p, x.pr, body, handler, env, ws, fuel),
      TrapError(x.b.code, x.pr, k.trapId, Values(temps, TempsOf(binds)), wt, fuel), k.temp, temps, temps, k.temp, self, tail, fuel);
  }

  lemma {:induction false} SimTrapError(x: Setup, body: Kl, handler: Kl, env: seq<Binding>, binds: seq<Bound>, k: Counters, temps: Temps, ws: World, wt: World, fuel: nat)
    requires Ready(x) && Matches(x.b, env, binds, temps) && RelWorld(x, ws, wt) && AllDefined(temps, TempsOf(binds))
    requires EmitTrap(body, handler, binds, k).Out? && Contains(x.b, EmitTrap(body, handler, binds, k).fns)
    ensures RelResult(x, EvalTrap(x.p, x.pr, body, handler, env, ws, fuel), TrapError(x.b.code, x.pr, k.trapId, Values(temps, TempsOf(binds)), wt, fuel))
    decreases fuel, 1, 0, 0
  {
    hide RelWorld, Rel, Ready, Exec, Accepted, Contains, Emit, Eval, Call, Matches, KlMeaning.Apply;
    var n := |binds|;
    var k1 := k.(temp := k.temp + 1, trapId := k.trapId + 1);
    var b := Emit(body, Bind(Names(binds), Range(k1.temp, n)), None, false, Fresh(k1, n));
    var h := Emit(handler, Bind(Names(binds), Range(b.k.temp, n)), None, false, Fresh(b.k, n));
    var applied := T(h.k.temp);
    var bodyFn := Function(Range(k1.temp, n), [], b.stmts, b.t);
    var handlerFn := Function(Range(b.k.temp, n), [Exception], h.stmts + [Set(applied, Indirect(h.t, [Exception]))], applied);
    TrapFunctions(x.b, b.fns, BodyCode(k.trapId, bodyFn), h.fns, HandlerCode(k.trapId, handlerFn));
    if fuel > 0 {
      AcceptedTrap(x, k.trapId);
      SimTrapBody(x, body, env, binds, k1, temps, ws, wt, fuel - 1);
      var s, r := Eval(x.p, x.pr, body, env, ws, fuel - 1), Call(x.b.code, x.pr, bodyFn, Values(temps, TempsOf(binds)), [], wt, fuel - 1);
      if s.outcome.Thrown? {
        SimHandler(x, handler, env, binds, b.k, temps, s.outcome.error, r.outcome.error, s.world, r.world, fuel - 1);
      }
    }
  }

  lemma TrapFunctions(b: Build, f: seq<Generated>, g: Generated, h: seq<Generated>, i: Generated)
    requires Contains(b, f + [g] + h + [i])
    ensures Contains(b, f) && Contains(b, h) && Holds(b, g) && Holds(b, i)
  {
    hide Holds;
    var all := f + [g] + h + [i];
    ContainsParts(b, f + [g] + h, [i]);
    ContainsParts(b, f + [g], h);
    ContainsParts(b, f, [g]);
    assert all[|f|] == g && all[|all| - 1] == i;
  }

  lemma AcceptedTrap(x: Setup, id: nat)
    requires Ready(x) && id in x.b.code.bodies && id in x.b.code.handlers
    ensures AcceptedFunction(x.b.code.bodies[id]) && AcceptedFunction(x.b.code.handlers[id])
  {
    hide AcceptedFunction, Parametric, DefunOk, ClosureOk;
  }

  /** The same scope in new temporaries, slot by slot. */
  lemma RenamedMatches(b: Build, env: seq<Binding>, binds: seq<Bound>, temps: Temps, first: nat, temps1: Temps)
    requires Matches(b, env, binds, temps) && AllDefined(temps, TempsOf(binds))
    requires forall t :: InRange(t, first, |binds|) ==> t in temps1 && temps1[t] == Values(temps, TempsOf(binds))[t.n - first]
    ensures Matches(b, env, Bind(Names(binds), Range(first, |binds|)), temps1)
  {
    hide Rel, TempOf, ValueOf;
    var renamed := Bind(Names(binds), Range(first, |binds|));
    forall name
      ensures ValueOf(env, name).Some? <==> TempOf(renamed, name).Some?
      ensures TempOf(renamed, name).Some? && TempOf(renamed, name).value in temps1
        ==> Rel(b, ValueOf(env, name).value, temps1[TempOf(renamed, name).value])
    {
      RenamedTemp(binds, first, name);
      if TempOf(renamed, name).Some? {
        var t := TempOf(renamed, name).value;
        assert InRange(t, first, |binds|) && TempsOf(binds)[t.n - first] in temps;
      }
    }
  }

  lemma RenamedTemp(binds: seq<Bound>, first: nat, name: string)
    ensures var renamed := Bind(Names(binds), Range(first, |binds|));
      && (TempOf(renamed, name).Some? <==> TempOf(binds, name).Some?)
      && (TempOf(renamed, name).Some? ==>
            && InRange(TempOf(renamed, name).value, first, |binds|)
            && TempOf(binds, name).value == TempsOf(binds)[TempOf(renamed, name).value.n - first])
  {
    var renamed := Bind(Names(binds), Range(first, |binds|));
    assert forall i :: 0 <= i < |binds| ==> renamed[i].name == binds[i].name;
    TempOfNone(renamed, name);
    TempOfNone(binds, name);
    if TempOf(renamed, name).Some? {
      var i := TempOfIsBound(renamed, name);
      TempOfLast(binds, i, name);
    }
  }

  lemma RangeIsBelow(names: seq<string>, first: nat)
    ensures Below(Bind(names, Range(first, |names|)), first + |names|)
  {
  }

  /** The temporaries of an outlined body hold the scope, slot by slot. */
  lemma TrapStart(x: Setup, env: seq<Binding>, binds: seq<Bound>, k: Counters, temps: Temps, ws: World, wt: World)
    requires Matches(x.b, env, binds, temps) && RelWorld(x, ws, wt) && AllDefined(temps, TempsOf(binds))
    ensures var n := |binds|;
      var temps1 := Store(map[], Range(k.temp, n), Values(temps, TempsOf(binds)));
      Start(x, env, Bind(Names(binds), Range(k.temp, n)), None, Fresh(k, n), temps1, ws, wt)
  {
    hide RelWorld, Matches, Below, Store;
    var captures := Values(temps, TempsOf(binds));
    RangeStored(map[], k.temp, captures);
    RenamedMatches(x.b, env, binds, temps, k.temp, Store(map[], Range(k.temp, |binds|), captures));
    RangeIsBelow(Names(binds), k.temp);
  }

  lemma {:induction false} SimTrapBody(x: Setup, body: Kl, env: seq<Binding>, binds: seq<Bound>, k: Counters, temps: Temps, ws: World, wt: World, fuel: nat)
    requires Ready(x) && Matches(x.b, env, binds, temps) && RelWorld(x, ws, wt) && AllDefined(temps, TempsOf(binds))
    requires var o := Emit(body, Bind(Names(binds), Range(k.temp, |binds|)), None, false, Fresh(k, |binds|));
      o.Out? && Contains(x.b, o.fns) && AcceptedFunction(Function(Range(k.temp, |binds|), [], o.stmts, o.t))
    ensures var o := Emit(body, Bind(Names(binds), Range(k.temp, |binds|)), None, false, Fresh(k, |binds|));
      RelResult(x, Eval(x.p, x.pr, body, env, ws, fuel),
        Call(x.b.code, x.pr, Function(Range(k.temp, |binds|), [], o.stmts, o.t), Values(temps, TempsOf(binds)), [], wt, fuel))
    decreases fuel, 3, 0, 0
  {
    hide RelWorld, Rel, RelResult, Ready, Exec, Accepted, After, Contains, Emit, Eval, Loop, Matches, Below, AcceptedFunction, Start, Agrees;
    var n := |binds|;
    var renamed := Bind(Names(binds), Range(k.temp, n));
    var o := Emit(body, renamed, None, false, Fresh(k, n));
    var f := Function(Range(k.temp, n), [], o.stmts, o.t);
    var captures := Values(temps, TempsOf(binds));
    var temps1 := Store(map[], f.captures, captures);
    AcceptedStart(f, temps1) by {
      RangeStored(map[], k.temp, captures);
      assert forall i :: 0 <= i < n ==> InRange(f.captures[i], k.temp, n);
    }
    TrapStart(x, env, binds, k, temps, ws, wt);
    Sim(x, body, env, renamed, None, false, Fresh(k, n), temps1, ws, wt, fuel);
    BranchDefines(x.b.code, x.pr, f.body, f.result, temps1, wt, fuel);
    LoopRelates(x, Eval(x.p, x.pr, body, env, ws, fuel), "", f, temps1, wt, k.temp + n, None, false, fuel);
  }

  lemma {:induction false} SimHandler(x: Setup, handler: Kl, env: seq<Binding>, binds: seq<Bound>, k: Counters, temps: Temps, error: Value, error': Value, ws: World, wt: World, fuel: nat)
    requires Ready(x) && Matches(x.b, env, binds, temps) && RelWorld(x, ws, wt) && AllDefined(temps, TempsOf(binds)) && Rel(x.b, error, error')
    requires var h := Emit(handler, Bind(Names(binds), Range(k.temp, |binds|)), None, false, Fresh(k, |binds|));
      h.Out? && Contains(x.b, h.fns)
      && AcceptedFunction(Function(Range(k.temp, |binds|), [Exception], h.stmts + [Set(T(h.k.temp), Indirect(h.t, [Exception]))], T(h.k.temp)))
    ensures var h := Emit(handler, Bind(Names(binds), Range(k.temp, |binds|)), None, false, Fresh(k, |binds|));
      var s := Eval(x.p, x.pr, handler, env, ws, fuel);
      RelResult(x, if s.outcome.Done? then KlMeaning.Apply(x.p, x.pr, s.outcome.value, [error], s.world, fuel) else s,
        Call(x.b.code, x.pr, Function(Range(k.temp, |binds|), [Exception], h.stmts + [Set(T(h.k.temp), Indirect(h.t, [Exception]))], T(h.k.temp)),
          Values(temps, TempsOf(binds)), [error'], wt, fuel))
    decreases fuel, 3, 0, 0
  {
    hide RelWorld, Rel, RelResult, Ready, Exec, Accepted, After, Contains, Emit, Eval, Loop, Matches, Below, AcceptedFunction, KlMeaning.Apply, Kept, NativeCode.Apply;
    var n := |binds|;
    var renamed := Bind(Names(binds), Range(k.temp, n));
    var h := Emit(handler, renamed, None, false, Fresh(k, n));
    var last := Set(T(h.k.temp), Indirect(h.t, [Exception]));
    var f := Function(Range(k.temp, n), [Exception], h.stmts + [last], T(h.k.temp));
    var captures := Values(temps, TempsOf(binds));
    var temps1 := HandlerTemps(f, captures, error', k.temp);
    AcceptedStart(f, temps1);
    RenamedMatches(x.b, env, binds, temps, k.temp, temps1);
    RangeIsBelow(Names(binds), k.temp);
    RunFirst(x.b.code, x.pr, h.stmts, [last], temps1, wt, fuel);
    Sim(x, handler, env, renamed, None, false, Fresh(k, n), temps1, ws, wt, fuel);
    var s, g := Eval(x.p, x.pr, handler, env, ws, fuel), Exec(x.b.code, x.pr, h.stmts, temps1, wt, fuel);
    var s' := if s.outcome.Done? then KlMeaning.Apply(x.p, x.pr, s.outcome.value, [error], s.world, fuel) else s;
    if g.Go? {
      AcceptedChoice(last, g.temps.Keys);
      KeepsException(temps1, g.temps, k.temp + n);
      assert InScope([h.t] + [Exception], g.temps.Keys);
      assert ([h.t] + [Exception])[0] in g.temps;
      var hv := g.temps[h.t];
      SimApply(x, s.outcome.value, hv, [error], [error'], s.world, g.world, fuel);
      assert [hv] + [error'] == Values(g.temps, [h.t] + [Exception]);
      CallAgrees(x, s', h.k.temp, last.rhs, hv, [error'], temps1, g.temps, g.world, k.temp + n, None, false, fuel);
    }
    BranchDefines(x.b.code, x.pr, f.body, f.result, temps1, wt, fuel);
    LoopRelates(x, s', "", f, temps1, wt, k.temp + n, None, false, fuel);
  }

  lemma KeepsException(temps: Temps, temps': Temps, n: nat)
    requires Kept(temps, temps', n) && Exception in temps
    ensures Exception in temps' && temps'[Exception] == temps[Exception]
  {
  }

  /** The temporaries of a handler's activation. */
  lemma HandlerTemps(f: Function, captures: seq<Value>, error: Value, first: nat) returns (temps: Temps)
    requires f.captures == Range(first, |captures|) && f.params == [Exception]
    ensures temps == Store(Store(map[], f.captures, captures), f.params, [error])
    ensures forall t :: InRange(t, first, |captures|) ==> t in temps && temps[t] == captures[t.n - first]
    ensures Exception in temps && temps[Exception] == error && AllDefined(temps, f.captures) && AllDefined(temps, f.params)
  {
    var temps1 := Store(map[], f.captures, captures);
    RangeStored(map[], first, captures);
    temps := temps1[Exception := error];
    assert temps == Store(temps1, [Exception], [error]);
    assert forall i :: 0 <= i < |captures| ==> InRange(f.captures[i], first, |captures|);
  }

  // Applications --------------------------------------------------------------------------------

  lemma {:induction false} ArgsBelow(args: seq<Kl>, binds: seq<Bound>, self: Option<Self>, k: Counters)
    requires Below(binds, k.temp) && EmitArgs(args, binds, self, k).OutArgs?
    ensures var a := EmitArgs(args, binds, self, k); forall i :: 0 <= i < |a.ts| ==> a.ts[i].T? && a.ts[i].n < a.k.temp
    decreases |args|
  {
    hide Emit;
    if |args| > 0 {
      ResultBelow(args[0], binds, self, false, k);
      ArgsBelow(args[1..], binds, self, Emit(args[0], binds, self, false, k).k);
    }
  }

  ghost predicate RelTemps(b: Build, vs: seq<Value>, ts: seq<Temp>, temps: Temps) {
    |vs| == |ts| && forall i :: 0 <= i < |ts| ==> ts[i] in temps ==> Rel(b, vs[i], temps[ts[i]])
  }

  /** Arguments from left to right: either one of them fails, or all have their temporaries. */
  lemma {:induction false} SimArgs(x: Setup, f: Value, done: seq<Value>, args: seq<Kl>, env: seq<Binding>, binds: seq<Bound>, self: Option<Self>, k: Counters, temps: Temps, ws: World, wt: World, fuel: nat)
    returns (vs: seq<Value>, ws': World)
    requires Ready(x) && Start(x, env, binds, self, k, temps, ws, wt)
    requires var a := EmitArgs(args, binds, self, k); a.OutArgs? && Contains(x.b, a.fns) && Accepted(a.stmts, temps.Keys)
    ensures var a := EmitArgs(args, binds, self, k);
      var s := EvalCall(x.p, x.pr, f, done, args, env, ws, fuel);
      match Exec(x.b.code, x.pr, a.stmts, temps, wt, fuel)
      case End(r) => !s.outcome.Done? && RelResult(x, s, r)
      case Go(temps', w, None) =>
        && s == KlMeaning.Apply(x.p, x.pr, f, done + vs, ws', fuel) && |vs| == |args|
        && Kept(temps, temps', k.temp) && RelWorld(x, ws', w) && RelTemps(x.b, vs, a.ts, temps')
      case _ => false
    decreases fuel, 1, 1 + SizeAll(args), 0
  {
    hide RelWorld, Rel, RelResult, Ready, SelfOk, Matches, Exec, Accepted, After, Contains, Emit, Eval, Kept, KlMeaning.Apply;
    vs, ws' := [], ws;
    if |args| == 0 {
      NoStatements(x.b.code, x.pr, temps, wt, fuel);
      LaterStart(x, env, binds, self, k, k, temps, ws, wt);
      assert done + [] == done;
    } else {
      var a := Emit(args[0], binds, self, false, k);
      var rest := EmitArgs(args[1..], binds, self, a.k);
      ContainsParts(x.b, a.fns, rest.fns);
      RunFirst(x.b.code, x.pr, a.stmts, rest.stmts, temps, wt, fuel);
      Sim(x, args[0], env, binds, self, false, k, temps, ws, wt, fuel);
      var s, g := Eval(x.p, x.pr, args[0], env, ws, fuel), Exec(x.b.code, x.pr, a.stmts, temps, wt, fuel);
      if g.Go? {
        var v := s.outcome.value;
        NextStart(x, env, binds, self, k, a.k, temps, g.temps, ws, wt, s.world, g.world);
        var vs';
        vs', ws' := SimArgs(x, f, done + [v], args[1..], env, binds, self, a.k, g.temps, s.world, g.world, fuel);
        vs := [v] + vs';
        assert done + [v] + vs' == done + vs;
        var h := Exec(x.b.code, x.pr, rest.stmts, g.temps, g.world, fuel);
        if |rest.stmts| == 0 {
          NoStatements(x.b.code, x.pr, g.temps, g.world, fuel);
        }
        if h.Go? {
          ResultBelow(args[0], binds, self, false, k);
          KeptTwice(temps, g.temps, h.temps, k.temp, a.k.temp);
          ArgsRelate(x.b, v, a.t, vs', rest.ts, g.temps, h.temps, a.k.temp);
        }
      }
    }
  }

  lemma ArgsRelate(b: Build, v: Value, t: Temp, vs: seq<Value>, ts: seq<Temp>, temps: Temps, temps': Temps, n: nat)
    requires (t in temps ==> Rel(b, v, temps[t])) && RelTemps(b, vs, ts, temps') && Kept(temps, temps', n) && t.T? && t.n < n
    ensures RelTemps(b, [v] + vs, [t] + ts, temps')
  {
    hide Rel;
    assert t == T(t.n);
    forall i | 0 <= i < |ts| + 1 && ([t] + ts)[i] in temps'
      ensures Rel(b, ([v] + vs)[i], temps'[([t] + ts)[i]])
    {
      if i > 0 {
        assert ([t] + ts)[i] == ts[i - 1];
      }
    }
  }

  lemma RelValues(b: Build, vs: seq<Value>, ts: seq<Temp>, temps: Temps)
    requires RelTemps(b, vs, ts, temps) && AllDefined(temps, ts)
    ensures RelAll(b, vs, Values(temps, ts))
  {
    hide Rel;
  }

  /** The statement that makes a call: in tail position it only leaves the call pending. */
  lemma CallAgrees(x: Setup, s: Result, m: nat, rhs: Rhs, f: Value, args: seq<Value>, temps: Temps, temps1: Temps, w: World, n: nat, self: Option<Self>, tail: bool, fuel: nat)
    requires rhs.Direct? || rhs.Indirect? || rhs.TailDirect? || rhs.TailIndirect?
    requires tail <==> rhs.TailDirect? || rhs.TailIndirect?
    requires AllDefined(temps1, Operands(rhs))
    requires if rhs.Direct? || rhs.TailDirect? then f == Symbol(rhs.name) && args == Values(temps1, Operands(rhs))
             else [f] + args == Values(temps1, Operands(rhs))
    requires RelResult(x, s, NativeCode.Apply(x.b.code, x.pr, f, args, w, fuel)) && Kept(temps, temps1, n) && n <= m
    ensures Agrees(x, s, Exec(x.b.code, x.pr, [Set(T(m), rhs)], temps1, w, fuel), T(m), temps, n, self, tail, fuel)
  {
    hide Rel, RelResult, RelWorld, Kept, NativeCode.Apply;
    ExecOne(x.b.code, x.pr, Set(T(m), rhs), temps1, w, fuel);
    var vs := Values(temps1, Operands(rhs));
    if rhs.Indirect? || rhs.TailIndirect? {
      assert vs[0] == f && vs[1..] == args;
    }
    if !tail {
      GiveAgrees(x, s, NativeCode.Apply(x.b.code, x.pr, f, args, w, fuel), m, temps, temps1, n, self, tail, fuel);
    }
  }

  lemma {:induction false} SimNamed(x: Setup, f: string, args: seq<Kl>, env: seq<Binding>, binds: seq<Bound>, self: Option<Self>, tail: bool, k: Counters, temps: Temps, ws: World, wt: World, fuel: nat)
    requires Ready(x) && Start(x, env, binds, self, k, temps, ws, wt)
    requires var o := EmitNamed(f, args, binds, self, tail, k); o.Out? && Contains(x.b, o.fns) && Accepted(o.stmts, temps.Keys)
    ensures var o := EmitNamed(f, args, binds, self, tail, k);
      Agrees(x, EvalCall(x.p, x.pr, Symbol(f), [], args, env, ws, fuel), Exec(x.b.code, x.pr, o.stmts, temps, wt, fuel), o.t, temps, k.temp, self, tail, fuel)
    decreases fuel, 1, 1 + SizeAll(args), 2
  {
    hide RelWorld, Ready, SelfOk, Matches, Below, Agrees, Exec, Accepted, Contains, EmitArgs, EvalCall, Start;
    if InlineArity(f) == |args| > 0 {
      SimInline(x, f, args, env, binds, self, tail, k, temps, ws, wt, fuel);
    } else if IsSelfTail(f, |args|, self, tail) {
      SimSelfTail(x, f, args, env, binds, self.value, k, temps, ws, wt, fuel);
    } else {
      SimDirect(x, f, args, env, binds, self, tail, k, temps, ws, wt, fuel);
    }
  }

  lemma {:induction false} SimDirect(x: Setup, f: string, args: seq<Kl>, env: seq<Binding>, binds: seq<Bound>, self: Option<Self>, tail: bool, k: Counters, temps: Temps, ws: World, wt: World, fuel: nat)
    requires Ready(x) && Start(x, env, binds, self, k, temps, ws, wt)
    requires var a := EmitArgs(args, binds, self, Fresh(k, 1));
      a.OutArgs? && Contains(x.b, a.fns) && Accepted(a.stmts + [Set(T(k.temp), if tail then TailDirect(f, a.ts) else Direct(f, a.ts))], temps.Keys)
    ensures var a := EmitArgs(args, binds, self, Fresh(k, 1));
      Agrees(x, EvalCall(x.p, x.pr, Symbol(f), [], args, env, ws, fuel),
        Exec(x.b.code, x.pr, a.stmts + [Set(T(k.temp), if tail then TailDirect(f, a.ts) else Direct(f, a.ts))], temps, wt, fuel),
        T(k.temp), temps, k.temp, self, tail, fuel)
    decreases fuel, 1, 1 + SizeAll(args), 1
  {
    hide RelWorld, Rel, RelResult, Ready, SelfOk, Matches, Below, Exec, Accepted, After, Contains, EmitArgs, EvalCall, Start, Kept, KlMeaning.Apply, NativeCode.Apply;
    var k1 := Fresh(k, 1);
    var a := EmitArgs(args, binds, self, k1);
    var rhs := if tail then TailDirect(f, a.ts) else Direct(f, a.ts);
    RunFirst(x.b.code, x.pr, a.stmts, [Set(T(k.temp), rhs)], temps, wt, fuel);
    LaterStart(x, env, binds, self, k, k1, temps, ws, wt);
    var vs, ws' := SimArgs(x, Symbol(f), [], args, env, binds, self, k1, temps, ws, wt, fuel);
    var g := Exec(x.b.code, x.pr, a.stmts, temps, wt, fuel);
    if g.Go? {
      assert [] + vs == vs;
      AcceptedChoice(Set(T(k.temp), rhs), g.temps.Keys);
      RelValues(x.b, vs, a.ts, g.temps);
      var vals := Values(g.temps, a.ts);
      SymbolRelates(x.b, f);
      SimApply(x, Symbol(f), Symbol(f), vs, vals, ws', g.world, fuel);
      KeptLess(temps, g.temps, k1.temp, k.temp);
      CallAgrees(x, KlMeaning.Apply(x.p, x.pr, Symbol(f), vs, ws', fuel), k.temp, rhs, Symbol(f), vals, temps, g.temps, g.world, k.temp, self, tail, fuel);
    }
  }

  lemma SymbolRelates(b: Build, name: string)
    ensures Rel(b, Symbol(name), Symbol(name))
  {
  }

  lemma {:induction false} SimInline(x: Setup, f: string, args: seq<Kl>, env: seq<Binding>, binds: seq<Bound>, self: Option<Self>, tail: bool, k: Counters, temps: Temps, ws: World, wt: World, fuel: nat)
    requires Ready(x) && Start(x, env, binds, self, k, temps, ws, wt) && InlineArity(f) == |args| > 0
    requires var a := EmitArgs(args, binds, self, k);
      a.OutArgs? && Contains(x.b, a.fns) && Accepted(a.stmts + [Set(T(a.k.temp), Inline(f, a.ts))], temps.Keys)
    ensures var a := EmitArgs(args, binds, self, k);
      Agrees(x, EvalCall(x.p, x.pr, Symbol(f), [], args, env, ws, fuel),
        Exec(x.b.code, x.pr, a.stmts + [Set(T(a.k.temp), Inline(f, a.ts))], temps, wt, fuel), T(a.k.temp), temps, k.temp, self, tail, fuel)
    decreases fuel, 1, 1 + SizeAll(args), 1
  {
    hide RelWorld, Rel, RelResult, Ready, SelfOk, Matches, Below, Exec, Accepted, After, Contains, EmitArgs, EvalCall, Start, Kept, KlMeaning.Apply, NativeCode.Apply;
    var a := EmitArgs(args, binds, self, k);
    var call := Set(T(a.k.temp), Inline(f, a.ts));
    RunFirst(x.b.code, x.pr, a.stmts, [call], temps, wt, fuel);
    var vs, ws' := SimArgs(x, Symbol(f), [], args, env, binds, self, k, temps, ws, wt, fuel);
    var g := Exec(x.b.code, x.pr, a.stmts, temps, wt, fuel);
    if g.Go? {
      assert [] + vs == vs;
      AcceptedChoice(call, g.temps.Keys);
      RelValues(x.b, vs, a.ts, g.temps);
      var vals := Values(g.temps, a.ts);
      ExecOne(x.b.code, x.pr, call, g.temps, g.world, fuel);
      InlineIsApply(x, f, vs, vals, ws', g.world, fuel);
      if fuel > 0 {
        GiveAgrees(x, KlMeaning.Apply(x.p, x.pr, Symbol(f), vs, ws', fuel), x.pr(f, vals, g.world), a.k.temp, temps, g.temps, k.temp, self, tail, fuel);
      }
    }
  }

  /** An inlined primitive is what its function cell holds. */
  lemma InlineIsApply(x: Setup, f: string, vs: seq<Value>, vals: seq<Value>, ws: World, wt: World, fuel: nat)
    requires Ready(x) && RelAll(x.b, vs, vals) && RelWorld(x, ws, wt) && InlineArity(f) == |vs| > 0
    ensures fuel > 0 ==> RelResult(x, KlMeaning.Apply(x.p, x.pr, Symbol(f), vs, ws, fuel), x.pr(f, vals, wt))
    ensures fuel == 0 ==> KlMeaning.Apply(x.p, x.pr, Symbol(f), vs, ws, fuel).outcome.Exhausted?
    ensures fuel == 0 ==> RelResult(x, KlMeaning.Apply(x.p, x.pr, Symbol(f), vs, ws, fuel), Result(Exhausted, wt))
  {
    hide Rel, Built;
    if fuel > 0 {
      assert Resolve(Symbol(f), ws) == Cell(Primitive(f, |vs|));
      assert KlMeaning.Apply(x.p, x.pr, Symbol(f), vs, ws, fuel) == x.pr(f, vs, ws);
    }
  }

  lemma {:induction false} SimSelfTail(x: Setup, f: string, args: seq<Kl>, env: seq<Binding>, binds: seq<Bound>, self: Self, k: Counters, temps: Temps, ws: World, wt: World, fuel: nat)
    requires Ready(x) && Start(x, env, binds, Some(self), k, temps, ws, wt) && f == self.name && |args| == |self.params|
    requires var a := EmitArgs(args, binds, Some(self), k);
      a.OutArgs? && Contains(x.b, a.fns) && Accepted(a.stmts + SelfTail(a.k.temp, a.ts, self.params), temps.Keys)
    ensures var a := EmitArgs(args, binds, Some(self), k);
      Agrees(x, EvalCall(x.p, x.pr, Symbol(f), [], args, env, ws, fuel),
        Exec(x.b.code, x.pr, a.stmts + SelfTail(a.k.temp, a.ts, self.params), temps, wt, fuel), T(a.k.temp), temps, k.temp, Some(self), true, fuel)
    decreases fuel, 1, 1 + SizeAll(args), 1
  {
    hide RelWorld, Rel, RelResult, Ready, Matches, Exec, Accepted, After, Contains, EmitArgs, EvalCall, Kept, KlMeaning.Apply, SelfTail;
    var a := EmitArgs(args, binds, Some(self), k);
    var t := a.k.temp;
    RunFirst(x.b.code, x.pr, a.stmts, SelfTail(t, a.ts, self.params), temps, wt, fuel);
    var vs, ws' := SimArgs(x, Symbol(f), [], args, env, binds, Some(self), k, temps, ws, wt, fuel);
    ArgsBelow(args, binds, Some(self), k);
    var g := Exec(x.b.code, x.pr, a.stmts, temps, wt, fuel);
    if g.Go? {
      assert [] + vs == vs;
      SelfTailDefined(t, a.ts, self.params, g.temps);
      SelfParams(x, self, k);
      var temps' := SelfTailIsParallel(x.b.code, x.pr, t, a.ts, self.params, g.temps, g.world, fuel);
      SelfTailNotEmpty(t, a.ts, self.params);
      SimAgain(x, f, vs, a.ts, g.temps, temps', ws', g.world, fuel);
    }
  }

  lemma SelfTailNotEmpty(t: nat, args: seq<Temp>, params: seq<Temp>)
    requires |args| == |params|
    ensures |SelfTail(t, args, params)| > 0
  {
  }

  lemma SelfParams(x: Setup, self: Self, k: Counters)
    requires Ready(x) && SelfOk(x, Some(self), k)
    ensures Distinct(self.params)
  {
    hide Emit, EmitDefun, Parametric;
    RangeIsDistinct(x.b.starts[self.name].temp, |x.p[self.name].params|);
    assert DefunOk(x.p, x.b, self.name);
  }

  lemma SelfTailDefined(t: nat, args: seq<Temp>, params: seq<Temp>, temps: Temps)
    requires |args| == |params| && Accepted(SelfTail(t, args, params), temps.Keys)
    requires forall i :: 0 <= i < |args| ==> args[i].T?
    ensures AllDefined(temps, args)
  {
    AfterConcat(Moves(Copies(t, |args|), args) + Moves(params, Copies(t, |args|)), [Goto, Set(T(t), Literal(Null))], temps.Keys);
    AfterConcat(Moves(Copies(t, |args|), args), Moves(params, Copies(t, |args|)), temps.Keys);
    MovesDefined(Copies(t, |args|), args, temps.Keys);
  }

  lemma {:induction false} MovesDefined(to: seq<Temp>, from: seq<Temp>, d: set<Temp>)
    requires |to| == |from| && Accepted(Moves(to, from), d)
    requires forall i, j :: 0 <= i < |to| && 0 <= j < |from| ==> to[i] != from[j]
    ensures forall i :: 0 <= i < |from| ==> from[i] in d
    decreases |to|
  {
    if |to| > 0 {
      var moves := Moves(to, from);
      assert moves[1..] == Moves(to[1..], from[1..]);
      assert Operands(Move(from[0])) == [from[0]];
      assert InScope([from[0]], d);
      assert [from[0]][0] in d;
      MovesDefined(to[1..], from[1..], d + {to[0]});
      forall i | 0 <= i < |from|
        ensures from[i] in d
      {
        if i > 0 {
          assert from[i] == from[1..][i - 1];
        }
      }
    }
  }

  /** The next round of a self tail call is the recursive call. */
  lemma {:induction false} SimAgain(x: Setup, f: string, vs: seq<Value>, ts: seq<Temp>, temps: Temps, temps': Temps, ws: World, wt: World, fuel: nat)
    requires Ready(x) && RelWorld(x, ws, wt) && f in x.p && f in x.b.code.defuns && |vs| == |ts| == |x.b.code.defuns[f].params|
    requires AllDefined(temps, ts) && RelTemps(x.b, vs, ts, temps)
    requires var ps := x.b.code.defuns[f].params; forall i :: 0 <= i < |ps| ==> ps[i] in temps' && temps'[ps[i]] == temps[ts[i]]
    ensures RelResult(x, KlMeaning.Apply(x.p, x.pr, Symbol(f), vs, ws, fuel), Again(x, f, temps', wt, fuel))
    decreases fuel, 1, 0, 0
  {
    hide *;
    if fuel > 0 {
      CallOfDefined(x, f, vs, ws, wt, fuel);
      RoundStarts(x.b, vs, ts, temps, x.b.code.defuns[f].params, temps');
      SimLoop(x, f, vs, temps', ws, wt, fuel - 1);
    }
    AgainIs(x, f, vs, temps', ws, wt, fuel);
  }

  lemma CallOfDefined(x: Setup, f: string, vs: seq<Value>, ws: World, wt: World, fuel: nat)
    requires Ready(x) && RelWorld(x, ws, wt) && f in x.p && f in x.b.code.defuns && |vs| == |x.b.code.defuns[f].params| && fuel > 0
    ensures |vs| == |x.p[f].params|
    ensures KlMeaning.Apply(x.p, x.pr, Symbol(f), vs, ws, fuel) == Eval(x.p, x.pr, x.p[f].body, Bindings(x.p[f].params, vs), ws, fuel - 1)
  {
    hide Rel, Emit, Eval, Parametric, AcceptedCode;
    assert Resolve(Symbol(f), ws) == Cell(Fun.Defined(f));
    assert DefunOk(x.p, x.b, f);
    assert KlMeaning.Arity(x.p, Cell(Fun.Defined(f))) == Some(|vs|);
  }

  lemma AgainIs(x: Setup, f: string, vs: seq<Value>, temps: Temps, ws: World, wt: World, fuel: nat)
    requires f in x.b.code.defuns
    ensures fuel == 0 ==> Again(x, f, temps, wt, fuel) == Result(Exhausted, wt)
    ensures fuel == 0 && RelWorld(x, ws, wt) ==> RelResult(x, KlMeaning.Apply(x.p, x.pr, Symbol(f), vs, ws, fuel), Again(x, f, temps, wt, fuel))
    ensures fuel > 0 ==> Again(x, f, temps, wt, fuel) == Loop(x.b.code, x.pr, x.b.code.defuns[f], temps, wt, fuel - 1)
  {
    hide RelWorld, Loop;
  }

  lemma RoundStarts(b: Build, vs: seq<Value>, ts: seq<Temp>, temps: Temps, params: seq<Temp>, temps': Temps)
    requires |ts| == |params| && AllDefined(temps, ts) && RelTemps(b, vs, ts, temps)
    requires forall i :: 0 <= i < |params| ==> params[i] in temps' && temps'[params[i]] == temps[ts[i]]
    ensures RelTemps(b, vs, params, temps') && AllDefined(temps', params)
  {
    hide Rel;
  }

  lemma {:induction false} SimValueCall(x: Setup, head: Kl, args: seq<Kl>, env: seq<Binding>, binds: seq<Bound>, self: Option<Self>, tail: bool, k: Counters, temps: Temps, ws: World, wt: World, fuel: nat)
    requires Ready(x) && Start(x, env, binds, self, k, temps, ws, wt)
    requires var o := EmitValueCall(head, args, binds, self, tail, k); o.Out? && Contains(x.b, o.fns) && Accepted(o.stmts, temps.Keys)
    ensures var o := EmitValueCall(head, args, binds, self, tail, k);
      Agrees(x, EvalForm(x.p, x.pr, ValueCall(head, args), env, ws, fuel), Exec(x.b.code, x.pr, o.stmts, temps, wt, fuel), o.t, temps, k.temp, self, tail, fuel)
    decreases fuel, 1, 1 + Size(head) + SizeAll(args), 1
  {
    hide RelWorld, Rel, RelResult, Ready, SelfOk, Matches, Exec, Accepted, After, Contains, Emit, EmitArgs, Eval, EvalCall, Start, Kept;
    var k1 := Fresh(k, 1);
    var h := Emit(head, binds, self, false, k1);
    var a := EmitArgs(args, binds, self, h.k);
    var call := Set(T(k.temp), if tail then TailIndirect(h.t, a.ts) else Indirect(h.t, a.ts));
    ContainsParts(x.b, h.fns, a.fns);
    assert h.stmts + a.stmts + [call] == h.stmts + (a.stmts + [call]);
    RunFirst(x.b.code, x.pr, h.stmts, a.stmts + [call], temps, wt, fuel);
    LaterStart(x, env, binds, self, k, k1, temps, ws, wt);
    Sim(x, head, env, binds, self, false, k1, temps, ws, wt, fuel);
    var s, g := Eval(x.p, x.pr, head, env, ws, fuel), Exec(x.b.code, x.pr, h.stmts, temps, wt, fuel);
    if g.Go? {
      KeptLess(temps, g.temps, k1.temp, k.temp);
      NextStart(x, env, binds, self, k, h.k, temps, g.temps, ws, wt, s.world, g.world);
      StartIsBelow(x, env, binds, self, k1, temps, ws, wt);
      ResultBelow(head, binds, self, false, k1);
      SimOperands(x, s.outcome.value, h.t, args, env, binds, self, tail, k.temp, h.k, temps, g.temps, s.world, g.world, fuel);
    }
  }

  lemma StartIsBelow(x: Setup, env: seq<Binding>, binds: seq<Bound>, self: Option<Self>, k: Counters, temps: Temps, ws: World, wt: World)
    requires Start(x, env, binds, self, k, temps, ws, wt)
    ensures Below(binds, k.temp)
  {
  }

  /** The arguments and the call, once the head has its value. */
  lemma {:induction false} SimOperands(x: Setup, f: Value, t: Temp, args: seq<Kl>, env: seq<Binding>, binds: seq<Bound>, self: Option<Self>, tail: bool, m: nat, k: Counters, temps: Temps, temps1: Temps, ws: World, wt: World, fuel: nat)
    requires Ready(x) && Start(x, env, binds, self, k, temps1, ws, wt) && m < k.temp && Kept(temps, temps1, m)
    requires t.T? && t.n < k.temp && (t in temps1 ==> Rel(x.b, f, temps1[t]))
    requires var a := EmitArgs(args, binds, self, k);
      a.OutArgs? && Contains(x.b, a.fns) && Accepted(a.stmts + [Set(T(m), if tail then TailIndirect(t, a.ts) else Indirect(t, a.ts))], temps1.Keys)
    ensures var a := EmitArgs(args, binds, self, k);
      Agrees(x, EvalCall(x.p, x.pr, f, [], args, env, ws, fuel),
        Exec(x.b.code, x.pr, a.stmts + [Set(T(m), if tail then TailIndirect(t, a.ts) else Indirect(t, a.ts))], temps1, wt, fuel),
        T(m), temps, m, self, tail, fuel)
    decreases fuel, 1, 1 + SizeAll(args), 1
  {
    hide RelWorld, Rel, RelTemps, RelResult, Ready, SelfOk, Matches, Below, Exec, Accepted, After, Contains, EmitArgs, EvalCall, Start, Kept, Agrees, KlMeaning.Apply, NativeCode.Apply;
    var a := EmitArgs(args, binds, self, k);
    var rhs := if tail then TailIndirect(t, a.ts) else Indirect(t, a.ts);
    RunFirst(x.b.code, x.pr, a.stmts, [Set(T(m), rhs)], temps1, wt, fuel);
    var vs, ws' := SimArgs(x, f, [], args, env, binds, self, k, temps1, ws, wt, fuel);
    var g := Exec(x.b.code, x.pr, a.stmts, temps1, wt, fuel);
    if g.Go? {
      assert [] + vs == vs;
      AcceptedChoice(Set(T(m), rhs), g.temps.Keys);
      SimIndirect(x, f, t, vs, a.ts, self, tail, m, k.temp, temps, temps1, g.temps, ws', g.world, fuel);
    } else {
      EndAgrees(x, EvalCall(x.p, x.pr, f, [], args, env, ws, fuel), g, T(m), temps, m, self, tail, fuel);
    }
  }

  lemma EndAgrees(x: Setup, s: Result, f: Flow, t: Temp, temps: Temps, n: nat, self: Option<Self>, tail: bool, fuel: nat)
    requires f.End? && !s.outcome.Done? && RelResult(x, s, f.result)
    ensures Agrees(x, s, f, t, temps, n, self, tail, fuel)
  {
  }

  /** The call itself, with the head and all arguments in their temporaries. */
  lemma {:induction false} SimIndirect(x: Setup, f: Value, t: Temp, vs: seq<Value>, ts: seq<Temp>, self: Option<Self>, tail: bool, m: nat, n: nat, temps: Temps, temps1: Temps, temps2: Temps, ws: World, wt: World, fuel: nat)
    requires Ready(x) && RelWorld(x, ws, wt) && RelTemps(x.b, vs, ts, temps2)
    requires Kept(temps, temps1, m) && Kept(temps1, temps2, n) && m < n && t.T? && t.n < n && (t in temps1 ==> Rel(x.b, f, temps1[t]))
    requires AllDefined(temps2, [t] + ts)
    ensures Agrees(x, KlMeaning.Apply(x.p, x.pr, f, vs, ws, fuel),
      Exec(x.b.code, x.pr, [Set(T(m), if tail then TailIndirect(t, ts) else Indirect(t, ts))], temps2, wt, fuel), T(m), temps, m, self, tail, fuel)
    decreases fuel, 1, 0, 0
  {
    hide RelWorld, Rel, RelAll, RelTemps, RelResult, Ready, Kept, Agrees, Exec, KlMeaning.Apply, NativeCode.Apply;
    var rhs := if tail then TailIndirect(t, ts) else Indirect(t, ts);
    ArgsRelate(x.b, f, t, vs, ts, temps1, temps2, n);
    RelValues(x.b, [f] + vs, [t] + ts, temps2);
    var vals := Values(temps2, [t] + ts);
    HeadAndArgs(x.b, f, vs, vals);
    SimApply(x, f, vals[0], vs, vals[1..], ws, wt, fuel);
    KeptTwice(temps, temps1, temps2, m, n);
    assert [vals[0]] + vals[1..] == vals;
    CallAgrees(x, KlMeaning.Apply(x.p, x.pr, f, vs, ws, fuel), m, rhs, vals[0], vals[1..], temps, temps2, wt, m, self, tail, fuel);
  }

  lemma HeadAndArgs(b: Build, f: Value, vs: seq<Value>, vals: seq<Value>)
    requires RelAll(b, [f] + vs, vals)
    ensures |vals| == 1 + |vs| && Rel(b, f, vals[0]) && RelAll(b, vs, vals[1..])
  {
    hide Rel;
    assert ([f] + vs)[0] == f;
    forall i | 0 <= i < |vs|
      ensures Rel(b, vs[i], vals[1..][i])
    {
      assert ([f] + vs)[i + 1] == vs[i];
    }
  }

  lemma {:induction false} ArityRelates(x: Setup, f: Value, f': Value)
    requires Built(x.p, x.b) && Rel(x.b, f, f')
    ensures KlMeaning.Arity(x.p, f) == NativeCode.Arity(x.b.code, f')
    decreases f
  {
    hide Emit, EmitClosureBody, AcceptedCode;
    match f
    case Partial(g, args) => ArityRelates(x, g, f'.f);
    case Cell(Defined(name)) =>
      if name in x.p {
        assert DefunOk(x.p, x.b, name);
      }
    case _ =>
  }

  lemma ResolveRelates(x: Setup, f: Value, f': Value, ws: World, wt: World)
    requires Rel(x.b, f, f') && RelWorld(x, ws, wt)
    ensures Rel(x.b, Resolve(f, ws), Resolve(f', wt))
  {
  }

  lemma RelSlices(b: Build, s: seq<Value>, t: seq<Value>, n: nat)
    requires RelAll(b, s, t) && n <= |s|
    ensures RelAll(b, s[..n], t[..n]) && RelAll(b, s[n..], t[n..])
  {
    hide Rel;
  }

  /** Application on both sides: the same counting of arguments. */
  lemma {:induction false} SimApply(x: Setup, f: Value, f': Value, args: seq<Value>, args': seq<Value>, ws: World, wt: World, fuel: nat)
    requires Ready(x) && Rel(x.b, f, f') && RelAll(x.b, args, args') && RelWorld(x, ws, wt)
    ensures RelResult(x, KlMeaning.Apply(x.p, x.pr, f, args, ws, fuel), NativeCode.Apply(x.b.code, x.pr, f', args', wt, fuel))
    decreases fuel, 0, 0, 1
  {
    hide Rel, RelWorld, RelAll, Built, Parametric, Resolve, KlMeaning.Arity, NativeCode.Arity, KlMeaning.Enter, NativeCode.Enter;
    if fuel == 0 {
      return;
    }
    var g, g' := Resolve(f, ws), Resolve(f', wt);
    ResolveRelates(x, f, f', ws, wt);
    ArityRelates(x, g, g');
    SameLength(x.b, args, args');
    var arity := KlMeaning.Arity(x.p, g);
    ErrorRelates(x.b);
    if arity.Some? && |args| < arity.value {
      PartialRelates(x.b, g, g', args, args');
    } else if arity.Some? && |args| == arity.value {
      SimEnter(x, g, g', args, args', ws, wt, fuel);
    } else if arity.Some? {
      RelSlices(x.b, args, args', arity.value);
      SimEnter(x, g, g', args[..arity.value], args'[..arity.value], ws, wt, fuel);
      var first := KlMeaning.Enter(x.p, x.pr, g, args[..arity.value], ws, fuel);
      var first' := NativeCode.Enter(x.b.code, x.pr, g', args'[..arity.value], wt, fuel);
      if first.outcome.Done? {
        SimApply(x, first.outcome.value, first'.outcome.value, args[arity.value..], args'[arity.value..], first.world, first'.world, fuel - 1);
      }
    }
  }

  lemma SameLength(b: Build, s: seq<Value>, t: seq<Value>)
    requires RelAll(b, s, t)
    ensures |s| == |t|
  {
  }

  lemma ErrorRelates(b: Build)
    ensures Rel(b, APPLY_ERROR, APPLY_ERROR)
  {
  }

  lemma PartialRelates(b: Build, g: Value, g': Value, args: seq<Value>, args': seq<Value>)
    requires Rel(b, g, g') && RelAll(b, args, args')
    ensures Rel(b, Partial(g, args), Partial(g', args'))
  {
  }

  lemma {:induction false} SimEnter(x: Setup, g: Value, g': Value, args: seq<Value>, args': seq<Value>, ws: World, wt: World, fuel: nat)
    requires Ready(x) && fuel > 0 && Rel(x.b, g, g') && RelAll(x.b, args, args') && RelWorld(x, ws, wt)
    requires KlMeaning.Arity(x.p, g) == Some(|args|) && NativeCode.Arity(x.b.code, g') == Some(|args'|)
    ensures RelResult(x, KlMeaning.Enter(x.p, x.pr, g, args, ws, fuel), NativeCode.Enter(x.b.code, x.pr, g', args', wt, fuel))
    decreases fuel, 0, 0, 0
  {
    hide RelWorld, RelAll, Eval, Call, KlMeaning.Apply, NativeCode.Apply, Built;
    match g
    case Cell(Primitive(name, _)) =>
    case Cell(Defined(name)) =>
      SimDefined(x, name, args, args', ws, wt, fuel - 1);
    case SourceClosure(params, body, env) =>
      SimClosureCall(x, g, g', args, args', ws, wt, fuel - 1);
    case Partial(f, prefix) =>
      ConcatRelates(x.b, prefix, g'.args, args, args');
      SimApply(x, f, g'.f, prefix + args, g'.args + args', ws, wt, fuel - 1);
  }

  lemma ConcatRelates(b: Build, s: seq<Value>, t: seq<Value>, s': seq<Value>, t': seq<Value>)
    requires |s| == |t| && (forall i :: 0 <= i < |s| ==> Rel(b, s[i], t[i])) && RelAll(b, s', t')
    ensures RelAll(b, s + s', t + t')
  {
    hide Rel;
  }

  // Activations ---------------------------------------------------------------------------------

  /** A function that the program defines. */
  lemma {:induction false} SimDefined(x: Setup, name: string, args: seq<Value>, args': seq<Value>, ws: World, wt: World, fuel: nat)
    requires Ready(x) && RelAll(x.b, args, args') && RelWorld(x, ws, wt) && name in x.p && name in x.b.code.defuns && |args| == |x.p[name].params|
    ensures RelResult(x, Eval(x.p, x.pr, x.p[name].body, Bindings(x.p[name].params, args), ws, fuel), Call(x.b.code, x.pr, x.b.code.defuns[name], [], args', wt, fuel))
    decreases fuel, 3, 0, 0
  {
    hide Rel, RelWorld, RelResult, Eval, Loop, Emit, EmitDefun, Parametric, AcceptedCode;
    assert DefunOk(x.p, x.b, name);
    var f := x.b.code.defuns[name];
    RangeIsDistinct(x.b.starts[name].temp, |x.p[name].params|);
    Stored(map[], f.params, args');
    SimLoop(x, name, args, Store(map[], f.params, args'), ws, wt, fuel);
  }

  /** The rounds of a function: a self tail call starts the next one. */
  lemma {:induction false} SimLoop(x: Setup, name: string, vs: seq<Value>, temps: Temps, ws: World, wt: World, fuel: nat)
    requires Ready(x) && RelWorld(x, ws, wt) && name in x.p && name in x.b.code.defuns && |vs| == |x.p[name].params| == |x.b.code.defuns[name].params|
    requires RelTemps(x.b, vs, x.b.code.defuns[name].params, temps) && AllDefined(temps, x.b.code.defuns[name].params)
    ensures RelResult(x, Eval(x.p, x.pr, x.p[name].body, Bindings(x.p[name].params, vs), ws, fuel), Loop(x.b.code, x.pr, x.b.code.defuns[name], temps, wt, fuel))
    decreases fuel, 2, 0, 0
  {
    hide Rel, RelWorld, RelResult, Eval, Exec, Emit, Parametric, AcceptedCode, Accepted, After, Matches, Contains;
    var d, k, f := x.p[name], x.b.starts[name], x.b.code.defuns[name];
    assert DefunOk(x.p, x.b, name);
    var o := EmitDefun(name, d, k);
    var params := Range(k.temp, |d.params|);
    var self, k1 := Some(Self(name, params)), Fresh(k, |d.params|);
    MatchesParams(x.b, d.params, vs, params, temps);
    AcceptedBody(x, name, temps);
    assert Start(x, Bindings(d.params, vs), Bind(d.params, params), self, k1, temps, ws, wt);
    Sim(x, d.body, Bindings(d.params, vs), Bind(d.params, params), self, true, k1, temps, ws, wt, fuel);
    var flow := Exec(x.b.code, x.pr, f.body, temps, wt, fuel);
    assert flow == Exec(x.b.code, x.pr, o.stmts, temps, wt, fuel);
    BranchDefines(x.b.code, x.pr, f.body, f.result, temps, wt, fuel);
    LoopRelates(x, Eval(x.p, x.pr, d.body, Bindings(d.params, vs), ws, fuel), name, f, temps, wt, k1.temp, self, true, fuel);
  }

  lemma LoopRelates(x: Setup, s: Result, name: string, f: Function, temps: Temps, w: World, n: nat, self: Option<Self>, tail: bool, fuel: nat)
    requires self.Some? ==> self.value.name == name && name in x.b.code.defuns && f == x.b.code.defuns[name]
    requires var flow := Exec(x.b.code, x.pr, f.body, temps, w, fuel);
      Agrees(x, s, flow, f.result, temps, n, self, tail, fuel) && (flow.Go? ==> f.result in flow.temps)
    ensures RelResult(x, s, Loop(x.b.code, x.pr, f, temps, w, fuel))
  {
    hide Rel, RelWorld, Exec, NativeCode.Apply;
  }

  lemma AcceptedBody(x: Setup, name: string, temps: Temps)
    requires Ready(x) && name in x.b.code.defuns && x.b.code.defuns[name].captures == [] && AllDefined(temps, x.b.code.defuns[name].params)
    ensures var f := x.b.code.defuns[name]; Accepted(f.body, temps.Keys) && f.result in After(f.body, temps.Keys)
  {
    hide Parametric, Accepted, After, DefunOk, ClosureOk;
    AcceptedStart(x.b.code.defuns[name], temps);
  }

  /** An accepted function may start as soon as its captures and parameters are stored. */
  lemma AcceptedStart(f: Function, temps: Temps)
    requires AcceptedFunction(f) && AllDefined(temps, f.captures) && AllDefined(temps, f.params)
    ensures Accepted(f.body, temps.Keys) && f.result in After(f.body, temps.Keys)
  {
    hide Accepted, After;
    var d := (set i | 0 <= i < |f.captures| :: f.captures[i]) + (set i | 0 <= i < |f.params| :: f.params[i]);
    AcceptedForMore(f.body, d, temps.Keys);
  }

  /** The temporaries of a closure's activation. */
  function ClosureTemps(f: Function, captures: seq<Value>, args: seq<Value>): Temps
    requires |captures| == |f.captures| && |args| == |f.params|
  {
    Store(Store(map[], f.captures, captures), f.params, args)
  }

  ghost predicate EnteredWith(n: Note, captures: seq<Value>, args: seq<Value>, temps: Temps) {
    var names := Captures(n.params, n.body, n.binds);
    && |captures| == |names| && |args| == |n.params|
    && (forall t :: InRange(t, n.k.temp, |names|) ==> t in temps && temps[t] == captures[t.n - n.k.temp])
    && (forall t :: InRange(t, n.k.temp + |names|, |args|) ==> t in temps && temps[t] == args[t.n - n.k.temp - |names|])
    && (forall t :: t in temps ==> InRange(t, n.k.temp, |names| + |args|))
  }

  lemma ClosureTempsHold(n: Note, f: Function, captures: seq<Value>, args: seq<Value>)
    requires var names := Captures(n.params, n.body, n.binds);
      && f.captures == Range(n.k.temp, |names|) && f.params == Range(n.k.temp + |names|, |n.params|)
      && |captures| == |names| && |args| == |n.params|
    ensures EnteredWith(n, captures, args, ClosureTemps(f, captures, args))
    ensures AllDefined(ClosureTemps(f, captures, args), f.captures) && AllDefined(ClosureTemps(f, captures, args), f.params)
  {
    hide Captures, Store;
    var names := Captures(n.params, n.body, n.binds);
    var temps1 := Store(map[], f.captures, captures);
    var temps := Store(temps1, f.params, args);
    RangeStored(map[], n.k.temp, captures);
    RangeStored(temps1, n.k.temp + |names|, args);
    assert forall i :: 0 <= i < |names| ==> InRange(f.captures[i], n.k.temp, |names|);
    assert forall i :: 0 <= i < |args| ==> InRange(f.params[i], n.k.temp + |names|, |args|);
  }

  /** Entering a native closure: its captures stand for the environment of the source closure. */
  lemma {:induction false} SimClosureCall(x: Setup, g: Value, g': Value, args: seq<Value>, args': seq<Value>, ws: World, wt: World, fuel: nat)
    requires Ready(x) && g.SourceClosure? && Rel(x.b, g, g') && RelAll(x.b, args, args') && RelWorld(x, ws, wt) && |args| == |g.params|
    ensures g'.NativeClosure? && g'.id in x.b.code.lambdas
    ensures RelResult(x, Eval(x.p, x.pr, g.body, g.env + Bindings(g.params, args), ws, fuel),
      Call(x.b.code, x.pr, x.b.code.lambdas[g'.id], g'.captures, args', wt, fuel))
    decreases fuel, 3, 0, 0
  {
    hide RelWorld, RelResult, Eval, Exec, Loop, Emit, Parametric, AcceptedCode, Accepted, After, Matches, Contains, Captures, Store, Start, EnteredWith;
    var n := x.b.notes[g'.id];
    assert ClosureOk(x.b, g'.id);
    var f, o := x.b.code.lambdas[g'.id], EmitClosureBody(n);
    var env, k := g.env + Bindings(g.params, args), ClosureStart(n);
    var temps := ClosureTemps(f, g'.captures, args');
    ClosureTempsHold(n, f, g'.captures, args');
    AcceptedLambda(x.b.code, g'.id);
    AcceptedStart(f, temps);
    StartClosure(x, g, g', args, args', temps, ws, wt);
    Sim(x, n.body, env, ClosureBinds(n), None, true, k, temps, ws, wt, fuel);
    BranchDefines(x.b.code, x.pr, f.body, f.result, temps, wt, fuel);
    LoopRelates(x, Eval(x.p, x.pr, g.body, env, ws, fuel), "", f, temps, wt, k.temp, None, true, fuel);
  }

  lemma AcceptedLambda(c: Code, id: nat)
    requires AcceptedCode(c) && id in c.lambdas
    ensures AcceptedFunction(c.lambdas[id])
  {
  }

  lemma StartClosure(x: Setup, g: Value, g': Value, args: seq<Value>, args': seq<Value>, temps: Temps, ws: World, wt: World)
    requires g.SourceClosure? && Rel(x.b, g, g') && RelAll(x.b, args, args') && |args| == |g.params| && RelWorld(x, ws, wt)
    requires Below(x.b.notes[g'.id].binds, x.b.notes[g'.id].k.temp) && EnteredWith(x.b.notes[g'.id], g'.captures, args', temps)
    ensures Start(x, g.env + Bindings(g.params, args), ClosureBinds(x.b.notes[g'.id]), None, ClosureStart(x.b.notes[g'.id]), temps, ws, wt)
  {
    hide RelWorld, Captures;
    var n := x.b.notes[g'.id];
    var env, binds := g.env + Bindings(g.params, args), ClosureBinds(n);
    forall name
      ensures ValueOf(env, name).Some? <==> TempOf(binds, name).Some?
      ensures TempOf(binds, name).Some? && TempOf(binds, name).value in temps ==> Rel(x.b, ValueOf(env, name).value, temps[TempOf(binds, name).value])
    {
      MatchesClosureName(x.b, g, g', args, args', temps, name);
    }
  }

  /** Inside a closure every name is a parameter, a capture, or out of reach. */
  lemma MatchesClosureName(b: Build, g: Value, g': Value, args: seq<Value>, args': seq<Value>, temps: Temps, name: string)
    requires g.SourceClosure? && Rel(b, g, g') && RelAll(b, args, args') && |args| == |g.params|
    requires Below(b.notes[g'.id].binds, b.notes[g'.id].k.temp) && EnteredWith(b.notes[g'.id], g'.captures, args', temps)
    ensures var env, binds := g.env + Bindings(g.params, args), ClosureBinds(b.notes[g'.id]);
      && (ValueOf(env, name).Some? <==> TempOf(binds, name).Some?)
      && (TempOf(binds, name).Some? && TempOf(binds, name).value in temps ==> Rel(b, ValueOf(env, name).value, temps[TempOf(binds, name).value]))
  {
    hide Captures, ValueOf, TempOf, Rel, SameScope;
    ClosureParts(b, g, g', name);
    var n := b.notes[g'.id];
    var names := Captures(n.params, n.body, n.binds);
    var params, captures := Bind(n.params, Range(n.k.temp + |names|, |n.params|)), Bind(names, Range(n.k.temp, |names|));
    ValueOfConcat(g.env, Bindings(g.params, args), name);
    TempOfConcat(n.binds + captures, params, name);
    TempOfConcat(n.binds, captures, name);
    SameNames(Bindings(g.params, args), params, name);
    if TempOf(params, name).Some? {
      ParamValue(g.params, args, name);
      assert InRange(TempOf(params, name).value, n.k.temp + |names|, |args|);
    } else if TempOf(captures, name).Some? {
      var j := TempOfIsBound(captures, name);
      assert names[j] == name;
      CaptureValue(g.env, name);
    } else if TempOf(n.binds, name).Some? {
      var j := TempOfIsBound(n.binds, name);
    }
  }

  /** What a closure of the generated code keeps of a closure of the source. */
  lemma ClosureParts(b: Build, g: Value, g': Value, name: string)
    requires g.SourceClosure? && Rel(b, g, g')
    ensures g'.NativeClosure? && g'.id in b.notes
    ensures var n := b.notes[g'.id];
      var names := Captures(n.params, n.body, n.binds);
      && n.params == g.params && |g'.captures| == |names| && (ValueOf(g.env, name).Some? <==> TempOf(n.binds, name).Some?)
      && forall i :: 0 <= i < |names| ==> Position(g.env, names[i]) < |g.env| && Rel(b, g.env[Position(g.env, names[i])].value, g'.captures[i])
  {
    hide Captures, ValueOf, TempOf;
  }

  lemma ParamValue(params: seq<string>, args: seq<Value>, name: string)
    requires |params| == |args| && Position(Bindings(params, args), name) < |params|
    ensures ValueOf(Bindings(params, args), name) == Some(args[Position(Bindings(params, args), name)])
  {
  }

  lemma CaptureValue(env: seq<Binding>, name: string)
    requires Position(env, name) < |env|
    ensures ValueOf(env, name) == Some(env[Position(env, name)].value)
  {
  }

  // Closed results ------------------------------------------------------------------------------

  /** A value without closures. */
  predicate Plain(v: Value) {
    match v
    case Pair(head, tail) => Plain(head) && Plain(tail)
    case Partial(f, args) => Plain(f) && forall i :: 0 <= i < |args| ==> Plain(args[i])
    case SourceClosure(_, _, _) => false
    case NativeClosure(_, _, _) => false
    case _ => true
  }

  lemma {:induction false} PlainIsItself(b: Build, s: Value, t: Value)
    requires Plain(s)
    ensures Rel(b, s, t) <==> s == t
    decreases s
  {
    match s
    case Pair(head, tail) =>
      if t.Pair? {
        PlainIsItself(b, head, t.head);
        PlainIsItself(b, tail, t.tail);
      }
    case Partial(f, args) =>
      if t.Partial? {
        PlainIsItself(b, f, t.f);
        forall i | 0 <= i < |args| && i < |t.args|
          ensures Rel(b, args[i], t.args[i]) <==> args[i] == t.args[i]
        {
          PlainIsItself(b, args[i], t.args[i]);
        }
      }
    case _ =>
  }

  /** Calling a compiled function gives the value or error that the program means, whenever that
      holds no closure; it needs no more stack, and leaves the function cells and global variables
      as the program would, up to closures. */
  lemma CompiledCallIsMeaning(x: Setup, f: string, args: seq<Value>, w: World, fuel: nat)
    requires Ready(x) && (forall name :: name in x.p ==> Ordinary(name, x.p[name]))
    requires RelWorld(x, w, w) && forall i :: 0 <= i < |args| ==> Plain(args[i])
    ensures var s, t := KlMeaning.Apply(x.p, x.pr, Symbol(f), args, w, fuel), NativeCode.Apply(x.b.code, x.pr, Symbol(f), args, w, fuel);
      && !t.outcome.Stuck? && (s.outcome.Exhausted? <==> t.outcome.Exhausted?)
      && (s.outcome.Done? && Plain(s.outcome.value) ==> t.outcome == s.outcome)
      && (s.outcome.Thrown? && Plain(s.outcome.error) ==> t.outcome == s.outcome)
      && RelWorld(x, s.world, t.world) && s.world.funs == t.world.funs
      && forall name :: name in s.world.vals && Plain(s.world.vals[name]) ==> name in t.world.vals && t.world.vals[name] == s.world.vals[name]
  {
    hide Ready, RelWorld, Rel, Plain, KlMeaning.Apply, NativeCode.Apply;
    SymbolRelates(x.b, f);
    forall i | 0 <= i < |args|
      ensures Rel(x.b, args[i], args[i])
    {
      PlainIsItself(x.b, args[i], args[i]);
    }
    SimApply(x, Symbol(f), Symbol(f), args, args, w, w, fuel);
    var s, t := KlMeaning.Apply(x.p, x.pr, Symbol(f), args, w, fuel), NativeCode.Apply(x.b.code, x.pr, Symbol(f), args, w, fuel);
    if s.outcome.Done? && Plain(s.outcome.value) {
      PlainIsItself(x.b, s.outcome.value, t.outcome.value);
    }
    if s.outcome.Thrown? && Plain(s.outcome.error) {
      PlainIsItself(x.b, s.outcome.error, t.outcome.error);
    }
    PlainVariables(x, s.world, t.world);
  }

  lemma PlainVariables(x: Setup, s: World, t: World)
    requires RelWorld(x, s, t)
    ensures s.funs == t.funs && forall name :: name in s.vals && Plain(s.vals[name]) ==> name in t.vals && t.vals[name] == s.vals[name]
  {
    hide Plain, Rel;
    forall name | name in s.vals && Plain(s.vals[name])
      ensures name in t.vals && t.vals[name] == s.vals[name]
    {
      PlainIsItself(x.b, s.vals[name], t.vals[name]);
    }
  }
}
