/** The C compiler accepts the emitter's output exactly for the programs that Compilable describes
    (src/c/emit.c:422-672). */
module AcceptedIff {
  import opened Options
  import opened KlSyntax
  import opened NativeCode
  import opened Emission
  import opened Acceptance
  import opened NativeSteps
  import opened Compilable

  ghost predicate AllAccepted(fns: seq<Generated>) {
    forall i :: 0 <= i < |fns| ==> AcceptedFunction(fns[i].f)
  }

  lemma AllAcceptedParts(f: seq<Generated>, g: seq<Generated>)
    ensures AllAccepted(f + g) <==> AllAccepted(f) && AllAccepted(g)
  {
    if AllAccepted(f + g) {
      assert forall i :: 0 <= i < |f| ==> (f + g)[i] == f[i];
      assert forall i :: 0 <= i < |g| ==> (f + g)[|f| + i] == g[i];
    }
  }

  /** sc describes the emitter's scope while d is declared; nothing from number n on is. */
  ghost predicate Views(sc: seq<Scoped>, binds: seq<Bound>, d: set<Temp>, n: nat) {
    && |sc| == |binds|
    && (forall i :: 0 <= i < |sc| ==> sc[i].name == binds[i].name && binds[i].temp.T? && binds[i].temp.n < n && (binds[i].temp in d <==> sc[i].here))
    && (forall t: Temp :: t.T? && t.n >= n ==> t !in d)
  }

  /** d' declares what d does, and besides only temporaries from n up to n'. */
  ghost predicate Later(d: set<Temp>, d': set<Temp>, n: nat, n': nat) {
    && n <= n' && d <= d'
    && (forall t: Temp :: t in d' && t !in d ==> (t.T? && n <= t.n < n') || t.Copy?)
  }

  lemma LaterTwice(d: set<Temp>, d1: set<Temp>, d2: set<Temp>, n: nat, n1: nat, n2: nat)
    requires Later(d, d1, n, n1) && Later(d1, d2, n1, n2)
    ensures Later(d, d2, n, n2)
  {
  }

  lemma ViewsLater(sc: seq<Scoped>, binds: seq<Bound>, d: set<Temp>, d': set<Temp>, n: nat, n': nat)
    requires Views(sc, binds, d, n) && Later(d, d', n, n')
    ensures Views(sc, binds, d', n')
  {
    forall t: Temp | t.T? && t.n >= n'
      ensures t !in d'
    {
      assert t !in d;
    }
  }

  lemma StillIn(t: Temp, d: set<Temp>, d': set<Temp>, n: nat, n': nat)
    requires Later(d, d', n, n') && t.T? && t.n < n
    ensures t in d <==> t in d'
  {
  }

  lemma HereIsDeclared(sc: seq<Scoped>, binds: seq<Bound>, d: set<Temp>, n: nat, name: string)
    requires Views(sc, binds, d, n)
    ensures InScopeOf(sc, name) <==> TempOf(binds, name).Some?
    ensures TempOf(binds, name).Some? ==> (Here(sc, name) <==> TempOf(binds, name).value in d)
    ensures TempOf(binds, name).None? ==> Here(sc, name)
    decreases |sc|
  {
    if |sc| > 0 {
      var sc', binds' := sc[..|sc| - 1], binds[..|sc| - 1];
      assert Views(sc', binds', d, n);
      HereIsDeclared(sc', binds', d, n, name);
      assert ScopeNames(sc) == ScopeNames(sc') + [sc[|sc| - 1].name];
    }
  }

  lemma SameForm(sc: seq<Scoped>, binds: seq<Bound>, d: set<Temp>, n: nat, items: seq<Kl>)
    requires Views(sc, binds, d, n) && |items| > 0
    ensures HeadInScope(items, sc) == IsBoundHead(items, binds)
  {
    if items[0].Sym? {
      HereIsDeclared(sc, binds, d, n, items[0].name);
    }
  }

  // Captures depend on the names in scope only --------------------------------------------------

  ghost predicate SameBound(a: seq<Bound>, b: seq<Bound>) {
    forall name :: TempOf(a, name).Some? <==> TempOf(b, name).Some?
  }

  lemma {:induction false} CollectSame(e: Kl, a: seq<Bound>, b: seq<Bound>, extra: seq<string>, names: seq<string>)
    requires SameBound(a, b) && AllBound(a, names)
    ensures AllBound(b, names) && Collect(e, a, extra, names) == Collect(e, b, extra, names)
    decreases Size(e), 0
  {
    if e.List? {
      var items := e.items;
      SizeOfParts(items);
      if |items| == 3 && items[0] == Sym("lambda") && items[1].Sym? {
        CollectSame(items[2], a, b, [items[1].name], names);
      } else if |items| == 4 && items[0] == Sym("let") && items[1].Sym? {
        CollectSame(items[2], a, b, extra, names);
        CollectSame(items[3], a, b, [items[1].name], Collect(items[2], a, extra, names));
      } else {
        CollectAllSame(items, a, b, extra, names);
      }
    }
  }

  lemma {:induction false} CollectAllSame(es: seq<Kl>, a: seq<Bound>, b: seq<Bound>, extra: seq<string>, names: seq<string>)
    requires SameBound(a, b) && AllBound(a, names)
    ensures AllBound(b, names) && CollectAll(es, a, extra, names) == CollectAll(es, b, extra, names)
    decreases SizeAll(es), 1
  {
    if |es| > 0 {
      CollectSame(es[0], a, b, extra, names);
      CollectAllSame(es[1..], a, b, extra, Collect(es[0], a, extra, names));
    }
  }

  lemma CapturesSame(params: seq<string>, body: Kl, sc: seq<Scoped>, binds: seq<Bound>, d: set<Temp>, n: nat)
    requires Views(sc, binds, d, n)
    ensures ScopeCaptures(params, body, sc) == Captures(params, body, binds)
  {
    hide Collect, TempOf;
    var plain := Bind(ScopeNames(sc), Range(0, |sc|));
    forall name
      ensures TempOf(plain, name).Some? <==> TempOf(binds, name).Some?
    {
      TempOfNone(plain, name);
      TempOfNone(binds, name);
      assert forall i :: 0 <= i < |sc| ==> plain[i].name == binds[i].name;
    }
    CollectSame(body, plain, binds, params, []);
  }

  // The equivalence -----------------------------------------------------------------------------

  ghost predicate Judged(t: Temp, stmts: seq<Stmt>, fns: seq<Generated>, d: set<Temp>, n: nat, n': nat, ok: bool, res: bool) {
    && (Accepted(stmts, d) && AllAccepted(fns) <==> ok)
    && (t in After(stmts, d) <==> res)
    && t.T? && t.n < n' && Later(d, After(stmts, d), n, n')
  }

  ghost predicate SelfHere(self: Option<Self>, d: set<Temp>) {
    self.Some? ==> forall i :: 0 <= i < |self.value.params| ==> self.value.params[i] in d && self.value.params[i].T?
  }

  lemma {:induction false} Judge(e: Kl, sc: seq<Scoped>, binds: seq<Bound>, self: Option<Self>, tail: bool, k: Counters, d: set<Temp>)
    requires Views(sc, binds, d, k.temp) && SelfHere(self, d) && Emit(e, binds, self, tail, k).Out?
    ensures var o := Emit(e, binds, self, tail, k); Judged(o.t, o.stmts, o.fns, d, k.temp, o.k.temp, Compiles(e, sc), HasResult(e, sc))
    decreases Size(e), 2
  {
    hide EmitForm, CompilesForm, HasFormResult;
    match e
    case Sym(name) =>
      HereIsDeclared(sc, binds, d, k.temp, name);
      if TempOf(binds, name).Some? {
        var i := TempOfIsBound(binds, name);
      } else {
        JudgeSimple(Intern(name), k, d);
      }
    case Bool(b) => JudgeSimple(Literal(Constant(e)), k, d);
    case Lit(n) => JudgeSimple(Literal(Constant(e)), k, d);
    case List(items) =>
      if |items| == 0 {
        JudgeSimple(Literal(Nil), k, d);
      } else {
        SameForm(sc, binds, d, k.temp, items);
        PartsAreSmaller(items, IsBoundHead(items, binds));
        JudgeForm(FormOf(items, IsBoundHead(items, binds)), sc, binds, self, tail, k, d);
      }
  }

  lemma JudgeSimple(rhs: Rhs, k: Counters, d: set<Temp>)
    requires rhs.Intern? || rhs.Literal?
    requires forall t: Temp :: t.T? && t.n >= k.temp ==> t !in d
    ensures Judged(T(k.temp), [Set(T(k.temp), rhs)], [], d, k.temp, k.temp + 1, true, true)
  {
    assert Operands(rhs) == [];
    AfterSet(T(k.temp), rhs, d);
  }

  lemma AfterSet(t: Temp, rhs: Rhs, d: set<Temp>)
    ensures After([Set(t, rhs)], d) == d + {t}
    ensures Accepted([Set(t, rhs)], d) <==> InScope(Operands(rhs), d)
  {
    assert [Set(t, rhs)][1..] == [];
  }

  lemma AfterIf(s: Stmt, d: set<Temp>)
    requires s.If?
    ensures After([s], d) == d + {s.t}
    ensures Accepted([s], d) <==> AcceptedOne(s, d)
  {
    assert [s][1..] == [];
  }

  /** One piece of code after another. */
  lemma JudgedInOrder(t1: Temp, s1: seq<Stmt>, f1: seq<Generated>, ok1: bool, res1: bool, t2: Temp, s2: seq<Stmt>, f2: seq<Generated>, ok2: bool, res2: bool, d: set<Temp>, n: nat, n1: nat, n2: nat)
    requires Judged(t1, s1, f1, d, n, n1, ok1, res1) && Judged(t2, s2, f2, After(s1, d), n1, n2, ok2, res2)
    ensures Judged(t2, s1 + s2, f1 + f2, d, n, n2, ok1 && ok2, res2)
  {
    hide Accepted, After, AllAccepted, Later;
    AfterConcat(s1, s2, d);
    AllAcceptedParts(f1, f2);
    LaterTwice(d, After(s1, d), After(s2, After(s1, d)), n, n1, n2);
  }

  /** A test and the if statement that follows it. */
  lemma JudgedChoice(m: nat, error: Value, t: Temp, s: seq<Stmt>, f: seq<Generated>, ok: bool, res: bool,
      yes: seq<Stmt>, yesT: Temp, no: seq<Stmt>, noT: Temp, fns: seq<Generated>, branches: bool, d: set<Temp>, n: nat, n1: nat, n2: nat)
    requires Judged(t, s, f, d, n, n1, ok, res) && n <= n1 <= n2 && n <= m < n2
    requires var d1 := After(s, d);
      (Accepted(yes, d1) && yesT in After(yes, d1) && Accepted(no, d1) && noT in After(no, d1) && AllAccepted(fns)) <==> branches
    ensures Judged(T(m), s + [If(T(m), t, error, yes, yesT, no, noT)], f + fns, d, n, n2, ok && res && branches, true)
  {
    hide Accepted, After, AllAccepted;
    var choice := If(T(m), t, error, yes, yesT, no, noT);
    AfterConcat(s, [choice], d);
    AfterIf(choice, After(s, d));
    AllAcceptedParts(f, fns);
  }

  lemma ViewsFrom(sc: seq<Scoped>, binds: seq<Bound>, d: set<Temp>, n: nat, n': nat)
    requires Views(sc, binds, d, n) && n <= n'
    ensures Views(sc, binds, d, n')
  {
  }

  lemma SelfLater(self: Option<Self>, d: set<Temp>, d': set<Temp>)
    requires SelfHere(self, d) && d <= d'
    ensures SelfHere(self, d')
  {
  }

  /** The judgement of an expression that starts later than its scope. */
  lemma {:induction false} JudgeNext(e: Kl, sc: seq<Scoped>, binds: seq<Bound>, self: Option<Self>, tail: bool, k: Counters, n: nat, d: set<Temp>)
    requires Views(sc, binds, d, n) && n <= k.temp && SelfHere(self, d) && Emit(e, binds, self, tail, k).Out?
    ensures var o := Emit(e, binds, self, tail, k); Judged(o.t, o.stmts, o.fns, d, k.temp, o.k.temp, Compiles(e, sc), HasResult(e, sc))
    ensures var o := Emit(e, binds, self, tail, k); Judged(o.t, o.stmts, o.fns, d, n, o.k.temp, Compiles(e, sc), HasResult(e, sc))
    ensures var o := Emit(e, binds, self, tail, k);
      Views(sc, binds, After(o.stmts, d), o.k.temp) && SelfHere(self, After(o.stmts, d))
    decreases Size(e), 3
  {
    hide Emit, Compiles, HasResult, Accepted, After, AllAccepted;
    ViewsFrom(sc, binds, d, n, k.temp);
    Judge(e, sc, binds, self, tail, k, d);
    var o := Emit(e, binds, self, tail, k);
    ViewsLater(sc, binds, d, After(o.stmts, d), k.temp, o.k.temp);
    SelfLater(self, d, After(o.stmts, d));
  }

  lemma {:induction false} JudgeForm(form: Form, sc: seq<Scoped>, binds: seq<Bound>, self: Option<Self>, tail: bool, k: Counters, d: set<Temp>)
    requires Views(sc, binds, d, k.temp) && SelfHere(self, d) && (form.CondForm? ==> AreCases(form.cases)) && EmitForm(form, binds, self, tail, k).Out?
    ensures var o := EmitForm(form, binds, self, tail, k);
      Judged(o.t, o.stmts, o.fns, d, k.temp, o.k.temp, CompilesForm(form, sc), HasFormResult(form, sc))
    decreases FormSize(form), 1
  {
    hide Emit, Judged, Views, SelfHere, EmitIf, EmitBoth, EmitCases, EmitClosure, EmitTrap, EmitNamed, EmitValueCall, EmitArgs, Compiles, Usable, HasResult, CompilesCases, CompilesArgs, CompilesClosure;
    match form
    case IfForm(test, yes, no) => JudgeIf(test, yes, no, sc, binds, self, tail, k, d);
    case AndForm(left, right) => JudgeBoth(left, right, true, sc, binds, self, k, d);
    case OrForm(left, right) => JudgeBoth(left, right, false, sc, binds, self, k, d);
    case CondForm(cases) =>
      ViewsFrom(sc, binds, d, k.temp, k.temp + 1);
      JudgeCases(k.temp, cases, sc, binds, self, tail, k.temp, Fresh(k, 1), d);
    case LetForm(name, bound, body) => JudgeLet(name, bound, body, sc, binds, self, tail, k, d);
    case DoForm(first, second) => JudgeDo(first, second, sc, binds, self, tail, k, d);
    case LambdaForm(name, body) => JudgeClosure([name], body, sc, binds, k, d);
    case FreezeForm(body) => JudgeClosure([], body, sc, binds, k, d);
    case TrapForm(body, handler) => JudgeTrap(body, handler, sc, binds, k, d);
    case TypeForm(expr) => Judge(expr, sc, binds, self, tail, k, d);
    case NamedCall(f, args) => JudgeNamed(f, args, sc, binds, self, tail, k, d);
    case ValueCall(head, args) => JudgeValueCall(head, args, sc, binds, self, tail, k, d);
    case Unsupported =>
  }

  lemma {:induction false} JudgeIf(test: Kl, yes: Kl, no: Kl, sc: seq<Scoped>, binds: seq<Bound>, self: Option<Self>, tail: bool, k: Counters, d: set<Temp>)
    requires Views(sc, binds, d, k.temp) && SelfHere(self, d) && EmitIf(test, yes, no, binds, self, tail, k).Out?
    ensures var o := EmitIf(test, yes, no, binds, self, tail, k);
      Judged(o.t, o.stmts, o.fns, d, k.temp, o.k.temp, Usable(test, sc) && Usable(yes, sc) && Usable(no, sc), true)
    decreases 1 + Size(test) + Size(yes) + Size(no), 0
  {
    hide Emit, Views, SelfHere, Compiles, HasResult, Accepted, After, AllAccepted, Later;
    var a := Emit(test, binds, self, false, Fresh(k, 1));
    var b := Emit(yes, binds, self, tail, a.k);
    var c := Emit(no, binds, self, tail, b.k);
    JudgeNext(test, sc, binds, self, false, Fresh(k, 1), k.temp, d);
    var d1 := After(a.stmts, d);
    JudgeNext(yes, sc, binds, self, tail, a.k, a.k.temp, d1);
    JudgeNext(no, sc, binds, self, tail, b.k, a.k.temp, d1);
    AllAcceptedParts(b.fns, c.fns);
    JudgedChoice(k.temp, TEST_ERROR, a.t, a.stmts, a.fns, Compiles(test, sc), HasResult(test, sc), b.stmts, b.t, c.stmts, c.t, b.fns + c.fns,
      Usable(yes, sc) && Usable(no, sc), d, k.temp, a.k.temp, c.k.temp);
    assert a.fns + b.fns + c.fns == a.fns + (b.fns + c.fns);
  }

  lemma {:induction false} JudgeBoth(left: Kl, right: Kl, want: bool, sc: seq<Scoped>, binds: seq<Bound>, self: Option<Self>, k: Counters, d: set<Temp>)
    requires Views(sc, binds, d, k.temp) && SelfHere(self, d) && EmitBoth(left, right, want, binds, self, k).Out?
    ensures var o := EmitBoth(left, right, want, binds, self, k);
      Judged(o.t, o.stmts, o.fns, d, k.temp, o.k.temp, Usable(left, sc) && Usable(right, sc), true)
    decreases 1 + Size(left) + Size(right), 0
  {
    hide Emit, Views, SelfHere, Compiles, HasResult, AllAccepted, Later;
    var a := Emit(left, binds, self, false, Fresh(k, 1));
    var b := Emit(right, binds, self, false, a.k);
    JudgeNext(left, sc, binds, self, false, Fresh(k, 1), k.temp, d);
    var d1 := After(a.stmts, d);
    JudgeNext(right, sc, binds, self, false, a.k, a.k.temp, d1);
    var checked := b.stmts + [Check(b.t, ARGUMENT_ERROR)];
    AfterCheck(b.stmts, b.t, ARGUMENT_ERROR, d1);
    var branches := Usable(right, sc);
    if want {
      JudgedChoice(k.temp, ARGUMENT_ERROR, a.t, a.stmts, a.fns, Compiles(left, sc), HasResult(left, sc), checked, b.t, [], a.t, b.fns,
        branches && HasResult(left, sc), d, k.temp, a.k.temp, b.k.temp);
    } else {
      JudgedChoice(k.temp, ARGUMENT_ERROR, a.t, a.stmts, a.fns, Compiles(left, sc), HasResult(left, sc), [], a.t, checked, b.t, b.fns,
        branches && HasResult(left, sc), d, k.temp, a.k.temp, b.k.temp);
    }
  }

  lemma AfterCheck(stmts: seq<Stmt>, t: Temp, error: Value, d: set<Temp>)
    ensures After(stmts + [Check(t, error)], d) == After(stmts, d)
    ensures Accepted(stmts + [Check(t, error)], d) <==> Accepted(stmts, d) && t in After(stmts, d)
  {
    AfterConcat(stmts, [Check(t, error)], d);
    assert [Check(t, error)][1..] == [];
  }

  lemma {:induction false} JudgeCases(m: nat, cases: seq<Kl>, sc: seq<Scoped>, binds: seq<Bound>, self: Option<Self>, tail: bool, n: nat, k: Counters, d: set<Temp>)
    requires Views(sc, binds, d, k.temp) && SelfHere(self, d) && AreCases(cases) && EmitCases(T(m), cases, binds, self, tail, k).Out?
    requires n <= m < k.temp
    ensures var o := EmitCases(T(m), cases, binds, self, tail, k);
      o.t == T(m) && Judged(o.t, o.stmts, o.fns, d, n, o.k.temp, CompilesCases(cases, sc), true)
    decreases SizeAll(cases), 2
  {
    hide Emit, Views, SelfHere, Compiles, HasResult;
    if |cases| == 0 {
      AfterNoCase(T(m), d);
    } else {
      CasesAreSmaller(cases);
      JudgeCase(m, cases[0].items[0], cases[0].items[1], cases[1..], sc, binds, self, tail, n, k, d);
    }
  }

  lemma AfterNoCase(t: Temp, d: set<Temp>)
    ensures var s := [Fail(NO_CASE_ERROR), Set(t, Literal(Nil))]; After(s, d) == d + {t} && Accepted(s, d)
  {
    var s := [Fail(NO_CASE_ERROR), Set(t, Literal(Nil))];
    assert s[1..] == [Set(t, Literal(Nil))];
    AfterSet(t, Literal(Nil), d);
  }

  lemma {:induction false} JudgeCase(m: nat, test: Kl, then_: Kl, cases: seq<Kl>, sc: seq<Scoped>, binds: seq<Bound>, self: Option<Self>, tail: bool, n: nat, k: Counters, d: set<Temp>)
    requires Views(sc, binds, d, k.temp) && SelfHere(self, d) && AreCases(cases) && n <= m < k.temp
    requires Emit(test, binds, self, false, k).Out?
    requires Emit(then_, binds, self, tail, Emit(test, binds, self, false, k).k).Out?
    requires EmitCases(T(m), cases, binds, self, tail, Emit(then_, binds, self, tail, Emit(test, binds, self, false, k).k).k).Out?
    ensures var a := Emit(test, binds, self, false, k);
      var b := Emit(then_, binds, self, tail, a.k);
      var c := EmitCases(T(m), cases, binds, self, tail, b.k);
      Judged(T(m), a.stmts + [If(T(m), a.t, CASE_ERROR, b.stmts, b.t, c.stmts, T(m))], a.fns + b.fns + c.fns, d, n, c.k.temp,
        Usable(test, sc) && Usable(then_, sc) && CompilesCases(cases, sc), true)
    decreases Size(test) + Size(then_) + SizeAll(cases), 4
  {
    hide Emit, EmitCases, Views, SelfHere, Compiles, HasResult, Accepted, After, AllAccepted, CompilesCases;
    var a := Emit(test, binds, self, false, k);
    var b := Emit(then_, binds, self, tail, a.k);
    var c := EmitCases(T(m), cases, binds, self, tail, b.k);
    JudgeNext(test, sc, binds, self, false, k, k.temp, d);
    var d1 := After(a.stmts, d);
    JudgeNext(then_, sc, binds, self, tail, a.k, a.k.temp, d1);
    ViewsFrom(sc, binds, d1, a.k.temp, b.k.temp);
    JudgeCases(m, cases, sc, binds, self, tail, n, b.k, d1);
    AllAcceptedParts(b.fns, c.fns);
    LaterFrom(d, d1, n, k.temp, a.k.temp);
    JudgedChoice(m, CASE_ERROR, a.t, a.stmts, a.fns, Compiles(test, sc), HasResult(test, sc), b.stmts, b.t, c.stmts, T(m), b.fns + c.fns,
      Usable(then_, sc) && CompilesCases(cases, sc), d, n, a.k.temp, c.k.temp);
    assert a.fns + b.fns + c.fns == a.fns + (b.fns + c.fns);
  }

  lemma LaterFrom(d: set<Temp>, d': set<Temp>, n: nat, n1: nat, n2: nat)
    requires Later(d, d', n1, n2) && n <= n1
    ensures Later(d, d', n, n2)
  {
  }

  lemma {:induction false} JudgeLet(name: string, bound: Kl, body: Kl, sc: seq<Scoped>, binds: seq<Bound>, self: Option<Self>, tail: bool, k: Counters, d: set<Temp>)
    requires Views(sc, binds, d, k.temp) && SelfHere(self, d) && EmitLet(name, bound, body, binds, self, tail, k).Out?
    ensures var o := EmitLet(name, bound, body, binds, self, tail, k);
      Judged(o.t, o.stmts, o.fns, d, k.temp, o.k.temp, CompilesForm(LetForm(name, bound, body), sc), HasFormResult(LetForm(name, bound, body), sc))
    decreases 1 + Size(bound) + Size(body), 0
  {
    hide Emit, SelfHere, Compiles, HasResult, Accepted, After, AllAccepted, Later;
    var a := Emit(bound, binds, self, false, k);
    var b := Emit(body, binds + [Bound(name, a.t)], self, tail, a.k);
    JudgeNext(bound, sc, binds, self, false, k, k.temp, d);
    var d1 := After(a.stmts, d);
    var sc' := sc + [Scoped(name, HasResult(bound, sc))];
    JudgeNext(body, sc', binds + [Bound(name, a.t)], self, tail, a.k, a.k.temp, d1);
    JudgedInOrder(a.t, a.stmts, a.fns, Compiles(bound, sc), HasResult(bound, sc), b.t, b.stmts, b.fns, Compiles(body, sc'), HasResult(body, sc'),
      d, k.temp, a.k.temp, b.k.temp);
  }

  lemma {:induction false} JudgeDo(first: Kl, second: Kl, sc: seq<Scoped>, binds: seq<Bound>, self: Option<Self>, tail: bool, k: Counters, d: set<Temp>)
    requires Views(sc, binds, d, k.temp) && SelfHere(self, d) && EmitDo(first, second, binds, self, tail, k).Out?
    ensures var o := EmitDo(first, second, binds, self, tail, k);
      Judged(o.t, o.stmts, o.fns, d, k.temp, o.k.temp, Compiles(first, sc) && Compiles(second, sc), HasResult(second, sc))
    decreases 1 + Size(first) + Size(second), 0
  {
    hide Emit, Views, SelfHere, Compiles, HasResult, Accepted, After, AllAccepted, Later;
    var a := Emit(first, binds, self, false, k);
    var b := Emit(second, binds, self, tail, a.k);
    JudgeNext(first, sc, binds, self, false, k, k.temp, d);
    JudgeNext(second, sc, binds, self, tail, a.k, a.k.temp, After(a.stmts, d));
    JudgedInOrder(a.t, a.stmts, a.fns, Compiles(first, sc), HasResult(first, sc), b.t, b.stmts, b.fns, Compiles(second, sc), HasResult(second, sc),
      d, k.temp, a.k.temp, b.k.temp);
  }

  // Calls ---------------------------------------------------------------------------------------

  ghost predicate JudgedArgs(a: OutArgs, d: set<Temp>, n: nat, ok: bool) {
    && a.OutArgs?
    && (Accepted(a.stmts, d) && AllAccepted(a.fns) && InScope(a.ts, After(a.stmts, d)) <==> ok)
    && (forall i :: 0 <= i < |a.ts| ==> a.ts[i].T? && a.ts[i].n < a.k.temp) && Later(d, After(a.stmts, d), n, a.k.temp)
  }

  lemma {:induction false} JudgeArgs(args: seq<Kl>, sc: seq<Scoped>, binds: seq<Bound>, self: Option<Self>, n: nat, k: Counters, d: set<Temp>)
    requires Views(sc, binds, d, n) && n <= k.temp && SelfHere(self, d) && EmitArgs(args, binds, self, k).OutArgs?
    ensures JudgedArgs(EmitArgs(args, binds, self, k), d, n, CompilesArgs(args, sc))
    decreases SizeAll(args), 4
  {
    hide Emit, Views, SelfHere, Compiles, HasResult;
    if |args| > 0 {
      var a := Emit(args[0], binds, self, false, k);
      var rest := EmitArgs(args[1..], binds, self, a.k);
      JudgeNext(args[0], sc, binds, self, false, k, n, d);
      JudgeArgs(args[1..], sc, binds, self, a.k.temp, a.k, After(a.stmts, d));
      JudgedOneMore(a, rest, d, n, Compiles(args[0], sc), HasResult(args[0], sc), CompilesArgs(args[1..], sc));
    }
  }

  lemma JudgedOneMore(a: Out, rest: OutArgs, d: set<Temp>, n: nat, ok: bool, res: bool, more: bool)
    requires a.Out? && Judged(a.t, a.stmts, a.fns, d, n, a.k.temp, ok, res)
    requires rest.OutArgs? && JudgedArgs(rest, After(a.stmts, d), a.k.temp, more)
    ensures JudgedArgs(OutArgs([a.t] + rest.ts, a.stmts + rest.stmts, rest.k, a.fns + rest.fns), d, n, ok && res && more)
  {
    hide Accepted, After, AllAccepted;
    var d1 := After(a.stmts, d);
    AfterConcat(a.stmts, rest.stmts, d);
    AllAcceptedParts(a.fns, rest.fns);
    hide Later;
    LaterTwice(d, d1, After(rest.stmts, d1), n, a.k.temp, rest.k.temp);
    StillIn(a.t, d1, After(rest.stmts, d1), a.k.temp, rest.k.temp);
    var ts, d2 := [a.t] + rest.ts, After(rest.stmts, d1);
    assert InScope(ts, d2) <==> a.t in d2 && InScope(rest.ts, d2) by {
      assert ts[0] == a.t;
      assert forall i :: 0 <= i < |rest.ts| ==> ts[i + 1] == rest.ts[i];
    }
  }

  /** The statement that uses the arguments. */
  lemma JudgedUse(a: OutArgs, m: nat, rhs: Rhs, n2: nat, d: set<Temp>, n: nat, ok: bool)
    requires JudgedArgs(a, d, n, ok) && Operands(rhs) == a.ts && n <= m < n2 && a.k.temp <= n2
    ensures Judged(T(m), a.stmts + [Set(T(m), rhs)], a.fns, d, n, n2, ok, true)
  {
    hide Accepted, After, AllAccepted;
    AfterConcat(a.stmts, [Set(T(m), rhs)], d);
    AfterSet(T(m), rhs, After(a.stmts, d));
  }

  lemma {:induction false} JudgeNamed(f: string, args: seq<Kl>, sc: seq<Scoped>, binds: seq<Bound>, self: Option<Self>, tail: bool, k: Counters, d: set<Temp>)
    requires Views(sc, binds, d, k.temp) && SelfHere(self, d) && EmitNamed(f, args, binds, self, tail, k).Out?
    ensures var o := EmitNamed(f, args, binds, self, tail, k); Judged(o.t, o.stmts, o.fns, d, k.temp, o.k.temp, CompilesArgs(args, sc), true)
    decreases 1 + SizeAll(args), 0
  {
    hide Views, SelfHere, Judged, JudgedArgs, EmitArgs, CompilesArgs, SelfTail;
    if InlineArity(f) == |args| > 0 {
      var a := EmitArgs(args, binds, self, k);
      JudgeArgs(args, sc, binds, self, k.temp, k, d);
      JudgedUse(a, a.k.temp, Inline(f, a.ts), a.k.temp + 1, d, k.temp, CompilesArgs(args, sc));
    } else if IsSelfTail(f, |args|, self, tail) {
      var a := EmitArgs(args, binds, self, k);
      JudgeArgs(args, sc, binds, self, k.temp, k, d);
      JudgedSelfTail(a, self, d, k.temp, CompilesArgs(args, sc));
    } else {
      var a := EmitArgs(args, binds, self, Fresh(k, 1));
      JudgeArgs(args, sc, binds, self, k.temp, Fresh(k, 1), d);
      JudgedUse(a, k.temp, if tail then TailDirect(f, a.ts) else Direct(f, a.ts), a.k.temp, d, k.temp, CompilesArgs(args, sc));
    }
  }

  lemma {:induction false} AfterMoves(to: seq<Temp>, from: seq<Temp>, d: set<Temp>)
    requires |to| == |from| && forall i, j :: 0 <= i < |to| && 0 <= j < |from| ==> to[i] != from[j]
    ensures Accepted(Moves(to, from), d) <==> InScope(from, d)
    ensures After(Moves(to, from), d) == d + set i | 0 <= i < |to| :: to[i]
    decreases |to|
  {
    if |to| > 0 {
      var moves := Moves(to, from);
      assert moves[1..] == Moves(to[1..], from[1..]);
      assert Operands(Move(from[0])) == [from[0]];
      AfterMoves(to[1..], from[1..], d + {to[0]});
      assert InScope(from, d) <==> from[0] in d && InScope(from[1..], d + {to[0]}) by {
        assert forall i :: 0 <= i < |from| - 1 ==> from[1..][i] == from[i + 1];
        assert forall i :: 0 < i < |from| ==> from[i] == from[1..][i - 1];
      }
      assert InScope([from[0]], d) <==> from[0] in d by {
        assert [from[0]][0] == from[0];
      }
      assert (set i | 0 <= i < |to| :: to[i]) == {to[0]} + set i | 0 <= i < |to| - 1 :: to[1..][i] by {
        assert forall i :: 0 < i < |to| ==> to[i] == to[1..][i - 1];
      }
    }
  }

  lemma JudgedSelfTail(a: OutArgs, self: Option<Self>, d: set<Temp>, n: nat, ok: bool)
    requires JudgedArgs(a, d, n, ok) && SelfHere(self, d) && self.Some? && |a.ts| == |self.value.params|
    ensures Judged(T(a.k.temp), a.stmts + SelfTail(a.k.temp, a.ts, self.value.params), a.fns, d, n, a.k.temp + 1, ok, true)
  {
    hide Accepted, After, AllAccepted;
    var t, params := a.k.temp, self.value.params;
    var copies := Copies(t, |a.ts|);
    var d1 := After(a.stmts, d);
    var d2 := d1 + set i | 0 <= i < |copies| :: copies[i];
    var d3 := d2 + set i | 0 <= i < |params| :: params[i];
    AfterMoves(copies, a.ts, d1);
    AfterMoves(params, copies, d2);
    AfterGoto(t, d3);
    AfterConcat(Moves(copies, a.ts) + Moves(params, copies), [Goto, Set(T(t), Literal(Null))], d1);
    AfterConcat(Moves(copies, a.ts), Moves(params, copies), d1);
    AfterConcat(a.stmts, SelfTail(t, a.ts, params), d);
    assert After(SelfTail(t, a.ts, params), d1) == d3 + {T(t)};
    assert d3 == d2;
  }

  lemma AfterGoto(t: nat, d: set<Temp>)
    ensures var s := [Goto, Set(T(t), Literal(Null))]; After(s, d) == d + {T(t)} && Accepted(s, d)
  {
    var s := [Goto, Set(T(t), Literal(Null))];
    assert s[1..] == [Set(T(t), Literal(Null))];
    AfterSet(T(t), Literal(Null), d);
  }

  lemma {:induction false} JudgeValueCall(head: Kl, args: seq<Kl>, sc: seq<Scoped>, binds: seq<Bound>, self: Option<Self>, tail: bool, k: Counters, d: set<Temp>)
    requires Views(sc, binds, d, k.temp) && SelfHere(self, d) && EmitValueCall(head, args, binds, self, tail, k).Out?
    ensures var o := EmitValueCall(head, args, binds, self, tail, k);
      Judged(o.t, o.stmts, o.fns, d, k.temp, o.k.temp, Usable(head, sc) && CompilesArgs(args, sc), true)
    decreases 1 + Size(head) + SizeAll(args), 0
  {
    hide Views, SelfHere, Judged, JudgedArgs, Emit, EmitArgs, CompilesArgs, Compiles, HasResult;
    var h := Emit(head, binds, self, false, Fresh(k, 1));
    var a := EmitArgs(args, binds, self, h.k);
    JudgeNext(head, sc, binds, self, false, Fresh(k, 1), k.temp, d);
    JudgeArgs(args, sc, binds, self, h.k.temp, h.k, After(h.stmts, d));
    JudgedOneMore(h, a, d, k.temp, Compiles(head, sc), HasResult(head, sc), CompilesArgs(args, sc));
    var all := OutArgs([h.t] + a.ts, h.stmts + a.stmts, a.k, h.fns + a.fns);
    JudgedUse(all, k.temp, if tail then TailIndirect(h.t, a.ts) else Indirect(h.t, a.ts), a.k.temp, d, k.temp,
      Compiles(head, sc) && HasResult(head, sc) && CompilesArgs(args, sc));
  }

  // Generated functions -------------------------------------------------------------------------

  lemma {:induction false} JudgeClosure(params: seq<string>, body: Kl, sc: seq<Scoped>, binds: seq<Bound>, k: Counters, d: set<Temp>)
    requires Views(sc, binds, d, k.temp) && EmitClosure(params, body, binds, k).Out?
    ensures var o := EmitClosure(params, body, binds, k); Judged(o.t, o.stmts, o.fns, d, k.temp, o.k.temp, CompilesClosure(params, body, sc), true)
    decreases 1 + Size(body), 0
  {
    hide Emit, Captures, Collect, Compiles, HasResult, AllAccepted, TempOf;
    var note := Note(params, body, binds, k.(temp := k.temp + 1, lambdaId := k.lambdaId + 1));
    var b := EmitClosureBody(note);
    var f := ClosureFunction(note, b);
    var names := Captures(params, body, binds);
    var ts := CaptureTemps(binds, names);
    CapturesSame(params, body, sc, binds, d, k.temp);
    AfterSet(T(k.temp), MakeClosure(k.lambdaId, |params|, ts), d);
    forall i | 0 <= i < |names|
      ensures Here(sc, names[i]) <==> ts[i] in d
    {
      HereIsDeclared(sc, binds, d, k.temp, names[i]);
    }
    assert (forall i :: 0 <= i < |names| ==> Here(sc, names[i])) <==> InScope(ts, d);
    var sc' := Foreign(sc) + Locals(names) + Locals(params);
    JudgeFunction(body, sc', ClosureBinds(note), true, ClosureStart(note), f, d, sc, note);
    AllAcceptedParts(b.fns, [LambdaCode(k.lambdaId, f, note)]);
    OneAccepted(LambdaCode(k.lambdaId, f, note));
  }

  lemma OneAccepted(g: Generated)
    ensures AllAccepted([g]) <==> AcceptedFunction(g.f)
  {
    assert [g][0] == g;
  }

  lemma {:induction false} JudgeFunction(body: Kl, sc': seq<Scoped>, binds': seq<Bound>, tail: bool, k: Counters, f: Function, d: set<Temp>, sc: seq<Scoped>, n: Note)
    requires Views(sc, n.binds, d, n.k.temp) && EmitClosureBody(n).Out? && body == n.body && tail
    requires binds' == ClosureBinds(n) && k == ClosureStart(n) && f == ClosureFunction(n, EmitClosureBody(n))
    requires sc' == Foreign(sc) + Locals(Captures(n.params, n.body, n.binds)) + Locals(n.params)
    ensures var o := EmitClosureBody(n);
      (AcceptedFunction(f) && AllAccepted(o.fns)) <==> Usable(body, sc')
    decreases Size(body), 5
  {
    hide Emit, Captures, Compiles, HasResult, Accepted, After, AllAccepted;
    var o := EmitClosureBody(n);
    var names := Captures(n.params, n.body, n.binds);
    var d0 := (set i | 0 <= i < |f.captures| :: f.captures[i]) + (set i | 0 <= i < |f.params| :: f.params[i]);
    forall t: Temp
      ensures t in d0 <==> InRange(t, n.k.temp, |names| + |n.params|)
    {
      if InRange(t, n.k.temp, |names|) {
        assert f.captures[t.n - n.k.temp] == t;
      } else if InRange(t, n.k.temp + |names|, |n.params|) {
        assert f.params[t.n - n.k.temp - |names|] == t;
      }
    }
    ClosureViews(sc, sc', n, d, d0);
    Judge(body, sc', binds', None, true, k, d0);
  }

  lemma ClosureViews(sc: seq<Scoped>, sc': seq<Scoped>, n: Note, d: set<Temp>, d0: set<Temp>)
    requires Views(sc, n.binds, d, n.k.temp) && sc' == Foreign(sc) + Locals(Captures(n.params, n.body, n.binds)) + Locals(n.params)
    requires var m := |Captures(n.params, n.body, n.binds)| + |n.params|;
      forall t: Temp :: t in d0 <==> InRange(t, n.k.temp, m)
    ensures Views(sc', ClosureBinds(n), d0, ClosureStart(n).temp)
  {
    hide Captures;
    var names := Captures(n.params, n.body, n.binds);
    var binds' := ClosureBinds(n);
    forall i | 0 <= i < |sc'|
      ensures sc'[i].name == binds'[i].name && binds'[i].temp.T? && binds'[i].temp.n < ClosureStart(n).temp && (binds'[i].temp in d0 <==> sc'[i].here)
    {
      if i < |sc| {
        assert binds'[i] == n.binds[i];
        assert sc[i].name == n.binds[i].name;
      } else if i < |sc| + |names| {
        assert binds'[i] == Bound(names[i - |sc|], T(n.k.temp + (i - |sc|)));
      } else {
        var j := i - |sc| - |names|;
        assert binds'[i] == Bound(n.params[j], T(n.k.temp + |names| + j));
      }
    }
  }

  /** Every name in scope has its value here exactly when the temporaries of all are defined. */
  lemma HereIsInScope(sc: seq<Scoped>, binds: seq<Bound>, d: set<Temp>, n: nat)
    requires Views(sc, binds, d, n)
    ensures (forall i :: 0 <= i < |sc| ==> sc[i].here) <==> InScope(TempsOf(binds), d)
  {
    var ts := TempsOf(binds);
    assert |ts| == |sc| && forall i :: 0 <= i < |ts| ==> ts[i] == binds[i].temp && (ts[i] in d <==> sc[i].here);
    if InScope(ts, d) {
      forall i | 0 <= i < |sc|
        ensures sc[i].here
      {
        assert ts[i] in d;
      }
    }
  }

  lemma {:induction false} JudgeTrap(body: Kl, handler: Kl, sc: seq<Scoped>, binds: seq<Bound>, k: Counters, d: set<Temp>)
    requires Views(sc, binds, d, k.temp) && EmitTrap(body, handler, binds, k).Out?
    ensures var o := EmitTrap(body, handler, binds, k);
      Judged(o.t, o.stmts, o.fns, d, k.temp, o.k.temp, (forall i :: 0 <= i < |sc| ==> sc[i].here) && Usable(body, sc) && Usable(handler, sc), true)
    decreases 1 + Size(body) + Size(handler), 0
  {
    hide Emit, Compiles, HasResult, AllAccepted, AcceptedFunction;
    var n := |binds|;
    var k1 := k.(temp := k.temp + 1, trapId := k.trapId + 1);
    var b := Emit(body, Bind(Names(binds), Range(k1.temp, n)), None, false, Fresh(k1, n));
    var h := Emit(handler, Bind(Names(binds), Range(b.k.temp, n)), None, false, Fresh(b.k, n));
    var applied := T(h.k.temp);
    var bodyFn := Function(Range(k1.temp, n), [], b.stmts, b.t);
    var handlerFn := Function(Range(b.k.temp, n), [Exception], h.stmts + [Set(applied, Indirect(h.t, [Exception]))], applied);
    AfterSet(T(k.temp), Trap(k.trapId, TempsOf(binds)), d);
    HereIsInScope(sc, binds, d, k.temp);
    if forall i :: 0 <= i < |sc| ==> sc[i].here {
      var g := b.fns + [BodyCode(k.trapId, bodyFn)] + h.fns;
      AllAcceptedParts(g, [HandlerCode(k.trapId, handlerFn)]);
      AllAcceptedParts(b.fns + [BodyCode(k.trapId, bodyFn)], h.fns);
      AllAcceptedParts(b.fns, [BodyCode(k.trapId, bodyFn)]);
      OneAccepted(BodyCode(k.trapId, bodyFn));
      OneAccepted(HandlerCode(k.trapId, handlerFn));
      JudgeTrapPart(body, sc, binds, k1);
      JudgeHandler(handler, sc, binds, b.k);
    }
  }

  lemma RenamedViews(sc: seq<Scoped>, binds: seq<Bound>, first: nat, d0: set<Temp>)
    requires |sc| == |binds| && forall i :: 0 <= i < |sc| ==> sc[i].name == binds[i].name && sc[i].here
    requires forall t: Temp :: t.T? ==> (t in d0 <==> InRange(t, first, |binds|))
    ensures Views(sc, Bind(Names(binds), Range(first, |binds|)), d0, first + |binds|)
  {
  }

  lemma {:induction false} JudgeTrapPart(body: Kl, sc: seq<Scoped>, binds: seq<Bound>, k: Counters)
    requires |sc| == |binds| && forall i :: 0 <= i < |sc| ==> sc[i].name == binds[i].name && sc[i].here
    requires Emit(body, Bind(Names(binds), Range(k.temp, |binds|)), None, false, Fresh(k, |binds|)).Out?
    ensures var b := Emit(body, Bind(Names(binds), Range(k.temp, |binds|)), None, false, Fresh(k, |binds|));
      (AcceptedFunction(Function(Range(k.temp, |binds|), [], b.stmts, b.t)) && AllAccepted(b.fns)) <==> Usable(body, sc)
    decreases Size(body), 5
  {
    hide Emit, Compiles, HasResult, Accepted, After, AllAccepted;
    var f := Range(k.temp, |binds|);
    var d0 := (set i | 0 <= i < |f| :: f[i]);
    forall t: Temp
      ensures t in d0 <==> InRange(t, k.temp, |binds|)
    {
      if InRange(t, k.temp, |binds|) {
        assert f[t.n - k.temp] == t;
      }
    }
    RenamedViews(sc, binds, k.temp, d0);
    Judge(body, sc, Bind(Names(binds), Range(k.temp, |binds|)), None, false, Fresh(k, |binds|), d0);
    var b := Emit(body, Bind(Names(binds), Range(k.temp, |binds|)), None, false, Fresh(k, |binds|));
    ActivationScope(Function(f, [], b.stmts, b.t), d0);
  }

  lemma ActivationScope(f: Function, d0: set<Temp>)
    requires forall t: Temp :: t in d0 <==> t in f.captures || t in f.params
    ensures AcceptedFunction(f) <==> Accepted(f.body, d0) && f.result in After(f.body, d0)
  {
    hide Accepted, After;
    var d := (set i | 0 <= i < |f.captures| :: f.captures[i]) + (set i | 0 <= i < |f.params| :: f.params[i]);
    assert d == d0;
  }

  lemma {:induction false} JudgeHandler(handler: Kl, sc: seq<Scoped>, binds: seq<Bound>, k: Counters)
    requires |sc| == |binds| && forall i :: 0 <= i < |sc| ==> sc[i].name == binds[i].name && sc[i].here
    requires Emit(handler, Bind(Names(binds), Range(k.temp, |binds|)), None, false, Fresh(k, |binds|)).Out?
    ensures var h := Emit(handler, Bind(Names(binds), Range(k.temp, |binds|)), None, false, Fresh(k, |binds|));
      var f := Function(Range(k.temp, |binds|), [Exception], h.stmts + [Set(T(h.k.temp), Indirect(h.t, [Exception]))], T(h.k.temp));
      (AcceptedFunction(f) && AllAccepted(h.fns)) <==> Usable(handler, sc)
    decreases Size(handler), 5
  {
    hide Emit, Compiles, HasResult, Accepted, After, AllAccepted;
    var captures := Range(k.temp, |binds|);
    var d0 := (set i | 0 <= i < |captures| :: captures[i]) + {Exception};
    forall t: Temp
      ensures t in d0 <==> InRange(t, k.temp, |binds|) || t == Exception
    {
      if InRange(t, k.temp, |binds|) {
        assert captures[t.n - k.temp] == t;
      }
    }
    RenamedViews(sc, binds, k.temp, d0);
    Judge(handler, sc, Bind(Names(binds), captures), None, false, Fresh(k, |binds|), d0);
    var h := Emit(handler, Bind(Names(binds), captures), None, false, Fresh(k, |binds|));
    var last := Set(T(h.k.temp), Indirect(h.t, [Exception]));
    ActivationScope(Function(captures, [Exception], h.stmts + [last], T(h.k.temp)), d0);
    AfterConcat(h.stmts, [last], d0);
    AfterSet(T(h.k.temp), last.rhs, After(h.stmts, d0));
    assert InScope([h.t] + [Exception], After(h.stmts, d0)) <==> h.t in After(h.stmts, d0) by {
      assert ([h.t] + [Exception])[0] == h.t;
    }
  }

  /** The functions generated for a definition are accepted exactly when its body compiles in the
      scope of its parameters. */
  lemma {:induction false} DefunAcceptedExactly(name: string, d: Defun, k: Counters)
    requires Ordinary(name, d) && EmitDefun(name, d, k).Out?
    ensures var o := EmitDefun(name, d, k);
      (AcceptedFunction(DefunFunction(d, k, o)) && AllAccepted(o.fns)) <==> Usable(d.body, Locals(d.params))
  {
    hide Emit, Compiles, HasResult, Accepted, After, AllAccepted;
    var params := Range(k.temp, |d.params|);
    var d0 := set i | 0 <= i < |params| :: params[i];
    forall t: Temp
      ensures t in d0 <==> InRange(t, k.temp, |params|)
    {
      if InRange(t, k.temp, |params|) {
        assert params[t.n - k.temp] == t;
      }
    }
    var sc, binds := Locals(d.params), Bind(d.params, params);
    assert Views(sc, binds, d0, k.temp + |d.params|);
    Judge(d.body, sc, binds, Some(Self(name, params)), true, Fresh(k, |d.params|), d0);
    ActivationScope(DefunFunction(d, k, EmitDefun(name, d, k)), d0);
  }
}
