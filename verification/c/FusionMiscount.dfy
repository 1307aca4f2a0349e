/** Where the miscounted run of FusionMeaning shows, told from the body alone: the innermost call of
    hd or tl with another number of arguments either has none, or it is a call that can return. */
module FusionMiscount {
  import opened Options
  import opened TreeWalk
  import opened CallFusion
  import FusionMeaning
  import LoopMeaning

  /** An expression that has a value in every environment, and calls nothing for it. */
  predicate Immediate(e: Kl) {
    e.Sym? || e.Obj? || e == List([])
  }

  /** The run ends in a call of the same function with no argument, or with several of which the
      first is a variable. */
  predicate EndsInVariables(e: Kl, name: string) {
    var core := Core(e, name);
    && HeadedBy(core, name) && (forall i :: 1 <= i < |core.items| ==> Immediate(core.items[i]))
    && (|core.items| > 1 ==> core.items[1].Sym?)
  }

  /** Without an argument the call is the function itself, which has no head and no tail. */
  lemma NoArgumentIsRight(m: Machine, e: Kl, name: string, env: Env, h: History, fuel: nat)
    requires IsSideName(name) && Run(e, name) > 1 && Core(e, name) == List([Sym(name)])
    ensures Eval(m, Fuse(e), env, h, fuel) == Eval(m, e, env, h, fuel)
  {
    hide Eval, Fuse, Run, Core;
    FusionMeaning.MiscountedRun(m, e, name, env, h, fuel);
    FusionMeaning.RunIsNest(e, name);
    FusionMeaning.NestValue(m, name, Run(e, name), Core(e, name), env, h, fuel);
    NoArgumentValue(m, name, env, h, fuel);
    assert Side(Partial(name, []), name == "hd") == Outside;
  }

  lemma NoArgumentValue(m: Machine, name: string, env: Env, h: History, fuel: nat)
    requires IsSideName(name)
    ensures Eval(m, List([Sym(name)]), env, h, fuel) == Result(Done(Partial(name, [])), h)
  {
    hide Eval;
    var core := List([Sym(name)]);
    assert FormOf(core.items) == CallForm(Sym(name), []);
    LoopMeaning.EvalUnfolds(m, core, env, h, fuel);
    assert EvalCall(m, Sym(name), [], env, h, fuel) == CallNamed(m, name, [], env, h, fuel);
    assert CallNamed(m, name, [], env, h, fuel) == CallEach(m, Partial(name, []), [], env, h, fuel);
  }

  // A machine and an environment in which the call returns ---------------------------------------

  /** Data under n pairs, on either side. */
  function Deep(n: nat): Value {
    if n == 0 then Data(0) else Pair(Deep(n - 1), Deep(n - 1))
  }

  lemma {:induction false} DeepSides(n: nat, head: bool)
    ensures Sides(Deep(n), head, n) == Done(Data(0))
    decreases n
  {
    if n > 0 {
      DeepSides(n - 1, head);
    }
  }

  const DEEPENS := "deepens"

  /** One primitive, which gives v for n arguments whatever they are. */
  function Deepening(n: nat, v: Value): Machine {
    Machine(map[], map[DEEPENS := n], (f, args, h) => Result(Done(v), h))
  }

  /** A variable holds a list that has the primitive on both sides. */
  function Holding(variable: string): Env {
    Frame([Binding(variable, Pair(Partial(DEEPENS, []), Partial(DEEPENS, [])))], Root)
  }

  lemma {:induction false} CollectsAll(v: Value, n: nat, done: seq<Value>, args: seq<Kl>, env: Env, h: History)
    requires |done| + |args| == n && |args| > 0 && forall i :: 0 <= i < |args| ==> Immediate(args[i])
    ensures CallEach(Deepening(n, v), Partial(DEEPENS, done), args, env, h, 0).outcome == Done(v)
    decreases |args|
  {
    var m, f := Deepening(n, v), Partial(DEEPENS, done);
    var a := Eval(m, args[0], env, h, 0);
    assert a.outcome.Done? && a.history == h;
    var r := CallOne(m, f, args[0], env, h, 0);
    assert r == Handle(m, f, a.outcome.value, h, 0);
    assert r == EnterPartial(m, f, a.outcome.value, h, 0);
    if |args| > 1 {
      CollectsAll(v, n, done + [a.outcome.value], args[1..], env, h);
    }
  }

  /** (hd x a b ...) gives v when the head of x is the primitive. */
  lemma CallReturns(v: Value, core: Kl, name: string)
    requires IsSideName(name) && HeadedBy(core, name) && |core.items| > 2 && core.items[1].Sym?
    requires forall i :: 1 <= i < |core.items| ==> Immediate(core.items[i])
    ensures Eval(Deepening(|core.items| - 2, v), core, Holding(core.items[1].name), [], 0).outcome == Done(v)
  {
    var args := core.items[1..];
    var m, env := Deepening(|core.items| - 2, v), Holding(core.items[1].name);
    var list := env.binds[0].value;
    hide Handle;
    assert FormOf(core.items) == CallForm(Sym(name), args);
    LoopMeaning.EvalUnfolds(m, core, env, [], 0);
    assert EvalForm(m, CallForm(Sym(name), args), env, [], 0) == EvalCall(m, Sym(name), args, env, [], 0);
    assert EvalCall(m, Sym(name), args, env, [], 0) == CallNamed(m, name, args, env, [], 0);
    assert CallNamed(m, name, args, env, [], 0) == CallEach(m, Partial(name, []), args, env, [], 0);
    assert Position(env.binds, args[0].name) == 0;
    assert CallOne(m, Partial(name, []), args[0], env, [], 0) == Handle(m, Partial(name, []), list, [], 0);
    SideOfHeld(m, name, list);
    CollectsAll(v, |args| - 1, [], args[1..], env, []);
  }

  lemma SideOfHeld(m: Machine, name: string, list: Value)
    requires IsSideName(name) && list == Pair(Partial(DEEPENS, []), Partial(DEEPENS, []))
    ensures Handle(m, Partial(name, []), list, [], 0) == Result(Done(Partial(DEEPENS, [])), [])
  {
    assert [] + [list] == [list];
    assert Enter(m, name, [list], [], 0) == Result(Done(Partial(DEEPENS, [])), []);
  }

  /** With several arguments some machine tells the fused code from the written one. */
  lemma SeveralArgumentsAreWrong(e: Kl, name: string)
    requires IsSideName(name) && Run(e, name) > 1 && EndsInVariables(e, name) && |Core(e, name).items| > 2
    ensures var core := Core(e, name);
      var m, env := Deepening(|core.items| - 2, Deep(Run(e, name))), Holding(core.items[1].name);
      Eval(m, Fuse(e), env, [], 0) != Eval(m, e, env, [], 0)
  {
    hide Eval, Fuse, Run, Core;
    var run, core := Run(e, name), Core(e, name);
    var m, env := Deepening(|core.items| - 2, Deep(run)), Holding(core.items[1].name);
    CallReturns(Deep(run), core, name);
    DeepSides(run, name == "hd");
    FusionMeaning.RunIsNest(e, name);
    FusionMeaning.NestValue(m, name, run, core, env, [], 0);
    FusionMeaning.MiscountedRun(m, e, name, env, [], 0);
  }

  /** Such a run is fused rightly, for every machine and environment, exactly when the call it ends in
      has no argument. */
  lemma MiscountedRunExactly(e: Kl, name: string)
    requires IsSideName(name) && Run(e, name) > 1 && EndsInVariables(e, name)
    ensures (forall m, env, h, fuel :: Eval(m, Fuse(e), env, h, fuel) == Eval(m, e, env, h, fuel)) <==> |Core(e, name).items| == 1
  {
    hide Eval, Fuse;
    CoreIsSmaller(e, name);
    if |Core(e, name).items| == 1 {
      forall m, env, h, fuel
        ensures Eval(m, Fuse(e), env, h, fuel) == Eval(m, e, env, h, fuel)
      {
        NoArgumentIsRight(m, e, name, env, h, fuel);
      }
    } else {
      SeveralArgumentsAreWrong(e, name);
    }
  }
}
