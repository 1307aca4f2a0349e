/** Laws of application (src/c/abi.c:770-890): results do not depend on the stack that is left, a
    chain of tail calls never nests, and arguments can be given in one go or in two. */
module Currying {
  import opened Options
  import opened DirectApply

  // More fuel -----------------------------------------------------------------------------------

  /** Equal up to the fuel left over. */
  predicate Same<T(==)>(r: Result<T>, s: Result<T>) {
    r.outcome == s.outcome && r.world == s.world && r.nesting == s.nesting
  }

  predicate SameEnd(r: Result<Final>, s: Result<Final>) {
    Same(r, s) && (r.outcome.Done? ==> s.left == r.left + 1)
  }

  lemma {:induction false} MoreDirect(m: Machine, f: Value, args: seq<Value>, w: World, fuel: nat)
    requires !Direct(m, f, args, w, fuel).outcome.Exhausted?
    ensures Same(Direct(m, f, args, w, fuel), Direct(m, f, args, w, fuel + 1))
    decreases fuel, 6
  {
    hide Dispatch;
    var r := Dispatch(m, f, args, w, fuel);
    MoreDispatch(m, f, args, w, fuel);
    if r.outcome.Done? && r.outcome.value.Tail? {
      MoreDirect(m, r.outcome.value.f, r.outcome.value.args, r.world, r.left);
    }
  }

  lemma {:induction false} MoreDispatch(m: Machine, f: Value, args: seq<Value>, w: World, fuel: nat)
    requires !Dispatch(m, f, args, w, fuel).outcome.Exhausted?
    ensures SameEnd(Dispatch(m, f, args, w, fuel), Dispatch(m, f, args, w, fuel + 1))
    decreases fuel, 5
  {
    hide Exact, Surplus;
    var g := Resolve(f, w);
    if g.Some? {
      if |args| == Arity(g.value) {
        MoreExact(m, g.value, args, w, fuel);
      } else if |args| > Arity(g.value) {
        MoreSurplus(m, g.value, args, w, fuel);
      }
    }
  }

  lemma {:induction false} MoreSurplus(m: Machine, g: Fun, args: seq<Value>, w: World, fuel: nat)
    requires fuel > 0 && |args| > Arity(g) && !Surplus(m, g, args, w, fuel).outcome.Exhausted?
    ensures SameEnd(Surplus(m, g, args, w, fuel), Surplus(m, g, args, w, fuel + 1))
    decreases fuel, 4
  {
    hide Exact, Direct, Settle;
    var first := Settle(m, Exact(m, g, args[..Arity(g)], w, fuel), fuel);
    MoreSettle(m, g, args[..Arity(g)], w, fuel);
    if first.outcome.Done? {
      MoreDirect(m, first.outcome.value, args[Arity(g)..], first.world, fuel - 1);
    }
  }

  lemma {:induction false} MoreSettle(m: Machine, g: Fun, args: seq<Value>, w: World, fuel: nat)
    requires fuel > 0 && |args| == Arity(g) && !Settle(m, Exact(m, g, args, w, fuel), fuel).outcome.Exhausted?
    ensures Same(Settle(m, Exact(m, g, args, w, fuel), fuel), Settle(m, Exact(m, g, args, w, fuel + 1), fuel + 1))
    decreases fuel, 3, 1
  {
    hide Exact, Direct;
    var r := Exact(m, g, args, w, fuel);
    MoreExact(m, g, args, w, fuel);
    if r.outcome.Done? && r.outcome.value.Tail? {
      MoreDirect(m, r.outcome.value.f, r.outcome.value.args, r.world, r.left);
    }
  }

  lemma {:induction false} MoreExact(m: Machine, g: Fun, args: seq<Value>, w: World, fuel: nat)
    requires fuel > 0 && |args| == Arity(g) && !Exact(m, g, args, w, fuel).outcome.Exhausted?
    ensures SameEnd(Exact(m, g, args, w, fuel), Exact(m, g, args, w, fuel + 1))
    decreases fuel, 3, 0
  {
    hide Run, Direct;
    if g.Partial? {
      MoreDirect(m, Function(g.target), g.prefix + args, w, fuel - 1);
    } else {
      MoreRun(m, g, args, [], w, fuel);
    }
  }

  lemma {:induction false} MoreRun(m: Machine, g: Fun, args: seq<Value>, results: seq<Value>, w: World, fuel: nat)
    requires !Run(m, g, args, results, w, fuel).outcome.Exhausted?
    ensures SameEnd(Run(m, g, args, results, w, fuel), Run(m, g, args, results, w, fuel + 1))
    decreases fuel, 2
  {
    hide Direct, Perform;
    var action := m.code(g, args, results);
    if action.TailCall? && !g.Native? {
      MoreDirect(m, action.f, action.args, w, fuel - 1);
    } else if !action.Return? && !action.Throw? && !action.TailCall? {
      MorePerform(m, action, w, fuel);
      var r := Perform(m, action, w, fuel);
      if r.outcome.Done? {
        MoreRun(m, g, args, results + [r.outcome.value], r.world, fuel - 1);
      }
    }
  }

  lemma {:induction false} MorePerform(m: Machine, action: Action, w: World, fuel: nat)
    requires fuel > 0 && (action.Effect? || action.Call? || action.Trap?)
    requires !Perform(m, action, w, fuel).outcome.Exhausted?
    ensures Same(Perform(m, action, w, fuel), Perform(m, action, w, fuel + 1))
    decreases fuel, 1
  {
    hide Direct, Run;
    if action.Call? {
      MoreDirect(m, action.f, action.args, w, fuel - 1);
    } else if action.Trap? {
      var data := action.data;
      var b := Run(m, Walked(action.body, |data|, []), data, [], w, fuel - 1);
      MoreRun(m, Walked(action.body, |data|, []), data, [], w, fuel - 1);
      if b.outcome.Thrown? && action.handler.Some? {
        MoreRun(m, Walked(action.handler.value, 1 + |data|, []), [b.outcome.error] + data, [], b.world, fuel - 1);
      }
    }
  }

  lemma {:induction false} EnoughFuel(m: Machine, f: Value, args: seq<Value>, w: World, fuel: nat, more: nat)
    requires !Direct(m, f, args, w, fuel).outcome.Exhausted? && fuel <= more
    ensures Same(Direct(m, f, args, w, fuel), Direct(m, f, args, w, more))
    decreases more - fuel
  {
    hide Direct;
    if fuel < more {
      MoreDirect(m, f, args, w, fuel);
      EnoughFuel(m, f, args, w, fuel + 1, more);
    }
  }

  // Giving arguments in two parts ---------------------------------------------------------------

  predicate SameValue(r: Result<Value>, s: Result<Value>) {
    r.outcome == s.outcome && r.world == s.world
  }

  /** A partial application of a partial application holds the arguments of both. */
  function FlatFun(f: Fun): Fun {
    match f
    case Partial(target, prefix) =>
      var t := FlatFun(target);
      if t.Partial? then Partial(t.target, t.prefix + prefix) else Partial(t, prefix)
    case _ => f
  }

  function Flat(v: Value): Value {
    if v.Function? then Function(FlatFun(v.f)) else v
  }

  /** Equal results, partial applications up to how their arguments are grouped. */
  predicate Alike(r: Result<Value>, s: Result<Value>) {
    && r.world == s.world
    && (r.outcome == s.outcome || (r.outcome.Done? && s.outcome.Done? && Flat(r.outcome.value) == Flat(s.outcome.value)))
  }

  /** f is applied to xs, and its value to ys. */
  function Twice(m: Machine, f: Value, xs: seq<Value>, ys: seq<Value>, w: World, p: nat, q: nat): Result<Value> {
    var a := Direct(m, f, xs, w, p);
    if a.outcome.Done? then Direct(m, a.outcome.value, ys, a.world, q) else a
  }

  /** xs does not complete the application, or more arguments follow. */
  predicate Splits(f: Value, xs: seq<Value>, ys: seq<Value>, w: World) {
    |ys| > 0 || Resolve(f, w).None? || |xs| < Arity(Resolve(f, w).value)
  }

  /** Too many arguments: apply to the right number, and the value to the rest. */
  lemma SurplusIsTwice(m: Machine, f: Value, g: Fun, args: seq<Value>, w: World, fuel: nat)
    requires Resolve(f, w) == Some(g) && |args| > Arity(g) && fuel > 0
    ensures SameValue(Direct(m, f, args, w, fuel), Twice(m, f, args[..Arity(g)], args[Arity(g)..], w, fuel, fuel - 1))
  {
    hide Exact;
    var a := Dispatch(m, f, args[..Arity(g)], w, fuel);
    assert a == Exact(m, g, args[..Arity(g)], w, fuel);
    assert Dispatch(m, f, args, w, fuel) == Surplus(m, g, args, w, fuel);
    assert SameValue(Follow(m, a, fuel), Settle(m, a, fuel));
  }

  /** The last arguments of a partial application call its target with all of them. */
  lemma PartialIsExact(m: Machine, g: Fun, xs: seq<Value>, ys: seq<Value>, w: World, fuel: nat)
    requires |xs| < Arity(g) && |xs| + |ys| == Arity(g)
    ensures SameValue(Direct(m, Function(Partial(g, xs)), ys, w, fuel + 1), Direct(m, Function(g), xs + ys, w, fuel))
  {
    hide Run;
    var d := Dispatch(m, Function(Partial(g, xs)), ys, w, fuel + 1);
    assert d == Exact(m, Partial(g, xs), ys, w, fuel + 1);
  }

  lemma FlatPartials(g: Fun, xs: seq<Value>, ys: seq<Value>)
    ensures Flat(Function(Partial(Partial(g, xs), ys))) == Flat(Function(Partial(g, xs + ys)))
  {
    var t := FlatFun(g);
    assert FlatFun(Partial(g, xs)) == if t.Partial? then Partial(t.target, t.prefix + xs) else Partial(t, xs);
    if t.Partial? {
      assert t.prefix + (xs + ys) == t.prefix + xs + ys;
    }
  }

  lemma TooFew(m: Machine, f: Value, g: Fun, args: seq<Value>, w: World, fuel: nat)
    requires Resolve(f, w) == Some(g) && |args| < Arity(g) && fuel > 0
    ensures SameValue(Direct(m, f, args, w, fuel), Result(Done(Function(Partial(g, args))), w, 0, 1))
  {
    assert Dispatch(m, f, args, w, fuel) == Result(Done(Finished(Function(Partial(g, args)))), w, fuel - 1, 1);
  }

  lemma NoFunction(m: Machine, f: Value, args: seq<Value>, w: World, fuel: nat)
    requires Resolve(f, w).None? && fuel > 0
    ensures SameValue(Direct(m, f, args, w, fuel), Result(Thrown(NOT_APPLICABLE), w, 0, 1))
  {
    assert Dispatch(m, f, args, w, fuel) == Result(Thrown(NOT_APPLICABLE), w, 0, 1);
  }

  lemma Resolved(m: Machine, f: Value, g: Fun, args: seq<Value>, w: World, fuel: nat)
    requires Resolve(f, w) == Some(g)
    ensures SameValue(Direct(m, f, args, w, fuel), Direct(m, Function(g), args, w, fuel))
  {
    hide Exact, Surplus;
    assert Dispatch(m, f, args, w, fuel) == Dispatch(m, Function(g), args, w, fuel);
  }

  /** Whenever the whole application has a result, so has the one in two parts, and they agree. */
  lemma {:induction false} OneGoThenTwo(m: Machine, f: Value, xs: seq<Value>, ys: seq<Value>, w: World, fuel: nat)
    requires Splits(f, xs, ys, w) && !Direct(m, f, xs + ys, w, fuel).outcome.Exhausted?
    ensures Alike(Twice(m, f, xs, ys, w, fuel + 1, fuel + 1), Direct(m, f, xs + ys, w, fuel))
    decreases fuel
  {
    hide Direct, Dispatch;
    FuelIsUsed(m, f, xs + ys, w, fuel);
    var g? := Resolve(f, w);
    if g?.None? {
      NoFunction(m, f, xs + ys, w, fuel);
      NoFunction(m, f, xs, w, fuel + 1);
      return;
    }
    var g := g?.value;
    if |xs| < Arity(g) {
      TooFew(m, f, g, xs, w, fuel + 1);
      Resolved(m, f, g, xs + ys, w, fuel);
      PartialThenRest(m, g, xs, ys, w, fuel);
    } else {
      var n := Arity(g);
      assert (xs + ys)[..n] == xs[..n] && (xs + ys)[n..] == xs[n..] + ys;
      SurplusIsTwice(m, f, g, xs + ys, w, fuel);
      var a := Direct(m, f, xs[..n], w, fuel);
      EnoughFuel(m, f, xs[..n], w, fuel, fuel + 1);
      if |xs| == n {
        assert xs[..n] == xs && xs[n..] + ys == ys;
        if a.outcome.Done? {
          EnoughFuel(m, a.outcome.value, ys, a.world, fuel - 1, fuel + 1);
        }
      } else {
        SurplusIsTwice(m, f, g, xs, w, fuel + 1);
        if a.outcome.Done? {
          OneGoThenTwo(m, a.outcome.value, xs[n..], ys, a.world, fuel - 1);
          var b := Direct(m, a.outcome.value, xs[n..], a.world, fuel);
          if b.outcome.Done? {
            EnoughFuel(m, b.outcome.value, ys, b.world, fuel, fuel + 1);
          }
        }
      }
    }
  }

  lemma FuelIsUsed(m: Machine, f: Value, args: seq<Value>, w: World, fuel: nat)
    requires !Direct(m, f, args, w, fuel).outcome.Exhausted?
    ensures fuel > 0
  {
  }

  /** The rest of the arguments given to a partial application, in both directions. */
  lemma PartialThenRest(m: Machine, g: Fun, xs: seq<Value>, ys: seq<Value>, w: World, fuel: nat)
    requires |xs| < Arity(g) && fuel > 0
    ensures !Direct(m, Function(g), xs + ys, w, fuel).outcome.Exhausted?
      ==> Alike(Direct(m, Function(Partial(g, xs)), ys, w, fuel + 1), Direct(m, Function(g), xs + ys, w, fuel))
    ensures !Direct(m, Function(Partial(g, xs)), ys, w, fuel).outcome.Exhausted?
      ==> Alike(Direct(m, Function(Partial(g, xs)), ys, w, fuel), Direct(m, Function(g), xs + ys, w, fuel))
  {
    hide Direct, Dispatch, FlatFun;
    var rem := Arity(g) - |xs|;
    if |ys| < rem {
      TooFew(m, Function(g), g, xs + ys, w, fuel);
      TooFew(m, Function(Partial(g, xs)), Partial(g, xs), ys, w, fuel);
      TooFew(m, Function(Partial(g, xs)), Partial(g, xs), ys, w, fuel + 1);
      FlatPartials(g, xs, ys);
    } else if |ys| == rem {
      LastArguments(m, g, xs, ys, w, fuel);
    } else {
      MoreThanLast(m, g, xs, ys, w, fuel);
    }
  }

  lemma LastArguments(m: Machine, g: Fun, xs: seq<Value>, ys: seq<Value>, w: World, fuel: nat)
    requires |xs| < Arity(g) && |xs| + |ys| == Arity(g) && fuel > 0
    ensures SameValue(Direct(m, Function(Partial(g, xs)), ys, w, fuel + 1), Direct(m, Function(g), xs + ys, w, fuel))
    ensures !Direct(m, Function(Partial(g, xs)), ys, w, fuel).outcome.Exhausted?
      ==> SameValue(Direct(m, Function(Partial(g, xs)), ys, w, fuel), Direct(m, Function(g), xs + ys, w, fuel))
  {
    hide Direct;
    PartialIsExact(m, g, xs, ys, w, fuel);
    PartialIsExact(m, g, xs, ys, w, fuel - 1);
    if !Direct(m, Function(g), xs + ys, w, fuel - 1).outcome.Exhausted? {
      EnoughFuel(m, Function(g), xs + ys, w, fuel - 1, fuel);
    }
  }

  lemma MoreThanLast(m: Machine, g: Fun, xs: seq<Value>, ys: seq<Value>, w: World, fuel: nat)
    requires |xs| < Arity(g) < |xs| + |ys| && fuel > 0
    ensures !Direct(m, Function(g), xs + ys, w, fuel).outcome.Exhausted?
      ==> SameValue(Direct(m, Function(Partial(g, xs)), ys, w, fuel + 1), Direct(m, Function(g), xs + ys, w, fuel))
    ensures !Direct(m, Function(Partial(g, xs)), ys, w, fuel).outcome.Exhausted?
      ==> SameValue(Direct(m, Function(Partial(g, xs)), ys, w, fuel), Direct(m, Function(g), xs + ys, w, fuel))
  {
    hide Direct;
    var p, n := Function(Partial(g, xs)), Arity(g) - |xs|;
    assert (xs + ys)[..Arity(g)] == xs + ys[..n] && (xs + ys)[Arity(g)..] == ys[n..];
    SurplusIsTwice(m, Function(g), g, xs + ys, w, fuel);
    SurplusIsTwice(m, p, Partial(g, xs), ys, w, fuel + 1);
    SurplusIsTwice(m, p, Partial(g, xs), ys, w, fuel);
    LastArguments(m, g, xs, ys[..n], w, fuel);
    var a := Direct(m, Function(g), xs + ys[..n], w, fuel);
    if a.outcome.Done? && !Direct(m, a.outcome.value, ys[n..], a.world, fuel - 1).outcome.Exhausted? {
      EnoughFuel(m, a.outcome.value, ys[n..], a.world, fuel - 1, fuel);
    }
  }

  /** Whenever the application in two parts has a result, so has the whole one, and they agree. */
  lemma {:induction false} TwoThenOneGo(m: Machine, f: Value, xs: seq<Value>, ys: seq<Value>, w: World, p: nat, q: nat)
    requires Splits(f, xs, ys, w) && !Twice(m, f, xs, ys, w, p, q).outcome.Exhausted?
    ensures Alike(Twice(m, f, xs, ys, w, p, q), Direct(m, f, xs + ys, w, p + q + 1))
    decreases p
  {
    hide Direct, Dispatch;
    FuelIsUsed(m, f, xs, w, p);
    var g? := Resolve(f, w);
    if g?.None? {
      NoFunction(m, f, xs + ys, w, p + q + 1);
      NoFunction(m, f, xs, w, p);
      return;
    }
    var g := g?.value;
    if |xs| < Arity(g) {
      TooFew(m, f, g, xs, w, p);
      Resolved(m, f, g, xs + ys, w, p + q + 1);
      EnoughFuel(m, Function(Partial(g, xs)), ys, w, q, p + q + 1);
      PartialThenRest(m, g, xs, ys, w, p + q + 1);
    } else {
      var n := Arity(g);
      assert (xs + ys)[..n] == xs[..n] && (xs + ys)[n..] == xs[n..] + ys;
      SurplusIsTwice(m, f, g, xs + ys, w, p + q + 1);
      if |xs| == n {
        assert xs[..n] == xs && xs[n..] + ys == ys;
      } else {
        SurplusIsTwice(m, f, g, xs, w, p);
      }
      EnoughFuel(m, f, xs[..n], w, p, p + q + 1);
      var a := Direct(m, f, xs[..n], w, p);
      if a.outcome.Done? {
        if |xs| == n {
          EnoughFuel(m, a.outcome.value, ys, a.world, q, p + q);
        } else {
          TwoThenOneGo(m, a.outcome.value, xs[n..], ys, a.world, p - 1, q);
        }
      }
    }
  }

  // Tail calls ----------------------------------------------------------------------------------

  /** Every application of a chain of tail calls, whatever its body does before its tail call, nests
      at most k deep. */
  predicate EachNests(m: Machine, f: Value, args: seq<Value>, w: World, fuel: nat, k: nat)
    decreases fuel
  {
    var r := Dispatch(m, f, args, w, fuel);
    && r.nesting <= k
    && (r.outcome.Done? && r.outcome.value.Tail? ==> EachNests(m, r.outcome.value.f, r.outcome.value.args, r.world, r.left, k))
  }

  /** However long the chain, it nests exactly as deep as its deepest application. */
  lemma {:induction false} ChainNestsAsDeepest(m: Machine, f: Value, args: seq<Value>, w: World, fuel: nat, k: nat)
    ensures Direct(m, f, args, w, fuel).nesting <= k <==> EachNests(m, f, args, w, fuel, k)
    decreases fuel
  {
    hide Dispatch;
    var r := Dispatch(m, f, args, w, fuel);
    if r.outcome.Done? && r.outcome.value.Tail? {
      ChainNestsAsDeepest(m, r.outcome.value.f, r.outcome.value.args, r.world, r.left, k);
    }
  }

  /** n tail calls, each with exactly the arguments that the callee wants, and then a value. */
  predicate TailCalls(m: Machine, f: Value, args: seq<Value>, w: World, n: nat)
    decreases n
  {
    var g := Resolve(f, w);
    && g.Some? && g.value.Native? && |args| == Arity(g.value)
    && var action := m.code(g.value, args, []);
       if n == 0 then action.Return? else action.TailCall? && TailCalls(m, action.f, action.args, w, n - 1)
  }

  /** However long the chain, one application is active at a time. */
  lemma {:induction false} TailCallsDoNotNest(m: Machine, f: Value, args: seq<Value>, w: World, n: nat, fuel: nat)
    requires TailCalls(m, f, args, w, n)
    ensures Direct(m, f, args, w, fuel).nesting == 1
    ensures fuel > n ==> Direct(m, f, args, w, fuel).outcome.Done?
    decreases n
  {
    if fuel > 0 {
      var g := Resolve(f, w).value;
      var action := m.code(g, args, []);
      assert Dispatch(m, f, args, w, fuel) == Exact(m, g, args, w, fuel) == Run(m, g, args, [], w, fuel);
      if n > 0 {
        TailCallsDoNotNest(m, action.f, action.args, w, n - 1, fuel - 1);
      }
    }
  }
}
