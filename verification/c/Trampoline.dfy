/** shen_apply, shen_tail_apply and shen_trap_error of src/c/abi.c over their global variables. */
module Trampoline {
  import opened Options
  import opened DirectApply
  import opened Currying

  class Context {
    var applyDepth: nat
    var bouncePending: bool
    var bounceFn: Value
    var bounceArgs: seq<Value>
    /** The greatest apply depth so far. */
    ghost var peak: nat

    /** What a body left behind: its value, or a pending tail call and a null result. */
    ghost predicate Ended(r: Result<Value>, end: Result<Final>, depth: nat)
      reads this
    {
      && r.world == end.world && r.left == end.left && r.nesting == end.nesting
      && match end.outcome
         case Done(Finished(v)) => r.outcome == Done(v) && !bouncePending && applyDepth == depth
         case Done(Tail(f, bs)) => r.outcome == Done(Null) && bouncePending && bounceFn == f && bounceArgs == bs && applyDepth == depth
         case Thrown(e) => r.outcome == Thrown(e)
         case Exhausted => r.outcome.Exhausted?
    }

    /** The variables are as they were on entry, and the depth reached is what the nesting says. */
    twostate predicate Restored(done: bool, nesting: nat)
      reads this
    {
      && peak == Max(old(peak), old(applyDepth) + nesting)
      && (done ==> applyDepth == old(applyDepth) && bouncePending == old(bouncePending) && bounceFn == old(bounceFn) && bounceArgs == old(bounceArgs))
    }

    /** shen_apply: the value that direct tail calls would give, with every variable restored. A
        chain of tail calls, however long, goes no deeper than its deepest application. */
    method Apply(m: Machine, f: Value, args: seq<Value>, w: World, fuel: nat) returns (r: Result<Value>)
      requires applyDepth <= peak
      modifies this
      ensures r == Direct(m, f, args, w, fuel)
      ensures Restored(r.outcome.Done?, r.nesting) && (r.outcome.Done? ==> applyDepth <= peak)
      ensures forall k: nat :: EachNests(m, f, args, w, fuel, k) ==> peak <= Max(old(peak), old(applyDepth) + k)
      decreases fuel, 7
    {
      hide Dispatch, EachNests;
      forall k: nat
        ensures EachNests(m, f, args, w, fuel, k) ==> Direct(m, f, args, w, fuel).nesting <= k
      {
        ChainNestsAsDeepest(m, f, args, w, fuel, k);
      }
      var savedBounce, savedFn, savedArgs := bouncePending, bounceFn, bounceArgs;
      applyDepth := applyDepth + 1;
      bouncePending := false;
      peak := Max(peak, applyDepth);
      ghost var depth := applyDepth;
      var f', args', w' := f, args, w;
      var fuel': nat, nesting: nat := fuel, 1;
      while true
        invariant 0 <= fuel' <= fuel && !bouncePending && applyDepth == depth == old(applyDepth) + 1 && nesting >= 1
        invariant peak == Max(old(peak), old(applyDepth) + nesting) && applyDepth <= peak
        invariant Direct(m, f, args, w, fuel) == AtLeast(Direct(m, f', args', w', fuel'), nesting)
        decreases fuel'
      {
        r := DispatchOnce(m, f', args', w', fuel');
        nesting := Max(nesting, r.nesting);
        r := r.(nesting := nesting);
        if !r.outcome.Done? {
          return;
        }
        if !bouncePending {
          applyDepth := applyDepth - 1;
          bouncePending, bounceFn, bounceArgs := savedBounce, savedFn, savedArgs;
          return;
        }
        f', args', w', fuel' := bounceFn, bounceArgs, r.world, r.left;
        bouncePending := false;
      }
    }

    /** apply_dispatch */
    method DispatchOnce(m: Machine, f: Value, args: seq<Value>, w: World, fuel: nat) returns (r: Result<Value>)
      requires 0 < applyDepth <= peak && !bouncePending
      modifies this
      ensures Ended(r, Dispatch(m, f, args, w, fuel), old(applyDepth))
      ensures peak == Max(old(peak), old(applyDepth) - 1 + r.nesting) && (r.outcome.Done? ==> applyDepth <= peak)
      decreases fuel, 6
    {
      if fuel == 0 {
        return Result(Exhausted, w, 0, 1);
      }
      var g := Resolve(f, w);
      if g.None? {
        return Result(Thrown(NOT_APPLICABLE), w, 0, 1);
      }
      if |args| == Arity(g.value) {
        r := ApplyExact(m, g.value, args, w, fuel);
      } else if |args| < Arity(g.value) {
        r := Result(Done(Function(Partial(g.value, args))), w, fuel - 1, 1);
      } else {
        r := ApplySurplus(m, g.value, args, w, fuel);
      }
    }

    /** The last branch of apply_dispatch: a tail call left pending by the first application is
        run before its value gets the remaining arguments. */
    method ApplySurplus(m: Machine, g: Fun, args: seq<Value>, w: World, fuel: nat) returns (r: Result<Value>)
      requires 0 < applyDepth <= peak && !bouncePending && fuel > 0 && |args| > Arity(g)
      modifies this
      ensures Ended(r, Surplus(m, g, args, w, fuel), old(applyDepth))
      ensures peak == Max(old(peak), old(applyDepth) - 1 + r.nesting) && (r.outcome.Done? ==> applyDepth <= peak)
      decreases fuel, 5
    {
      hide Settle, Exact, Direct;
      var first := ApplyFirst(m, g, args[..Arity(g)], w, fuel);
      if !first.outcome.Done? {
        return first;
      }
      r := Apply(m, first.outcome.value, args[Arity(g)..], first.world, fuel - 1);
      r := AtLeast(Deeper(r), first.nesting).(left := if r.outcome.Done? then fuel - 1 else r.left);
    }

    method ApplyFirst(m: Machine, g: Fun, args: seq<Value>, w: World, fuel: nat) returns (r: Result<Value>)
      requires 0 < applyDepth <= peak && !bouncePending && fuel > 0 && |args| == Arity(g)
      modifies this
      ensures r == Settle(m, Exact(m, g, args, w, fuel), fuel) && (r.outcome.Done? ==> applyDepth == old(applyDepth) && !bouncePending)
      ensures peak == Max(old(peak), old(applyDepth) - 1 + r.nesting) && (r.outcome.Done? ==> applyDepth <= peak)
      decreases fuel, 4
    {
      hide Exact, Direct;
      r := ApplyExact(m, g, args, w, fuel);
      if r.outcome.Done? && bouncePending {
        var fn, rest := bounceFn, bounceArgs;
        bouncePending := false;
        var v := Apply(m, fn, rest, r.world, r.left);
        r := AtLeast(Deeper(v), r.nesting);
      }
    }

    /** apply_exact; a partial application applies its target (native_partial). */
    method ApplyExact(m: Machine, g: Fun, args: seq<Value>, w: World, fuel: nat) returns (r: Result<Value>)
      requires 0 < applyDepth <= peak && !bouncePending && fuel > 0 && |args| == Arity(g)
      modifies this
      ensures Ended(r, Exact(m, g, args, w, fuel), old(applyDepth))
      ensures peak == Max(old(peak), old(applyDepth) - 1 + r.nesting) && (r.outcome.Done? ==> applyDepth <= peak)
      decreases fuel, 3
    {
      if g.Partial? {
        r := Apply(m, Function(g.target), g.prefix + args, w, fuel - 1);
        r := Deeper(r).(left := if r.outcome.Done? then fuel - 1 else r.left);
      } else {
        r := RunBody(m, g, args, w, fuel);
      }
    }

    /** A native function or the tree walker, action by action. */
    method RunBody(m: Machine, g: Fun, args: seq<Value>, w: World, fuel: nat) returns (r: Result<Value>)
      requires applyDepth <= peak && !bouncePending && (g.Native? ==> applyDepth > 0)
      modifies this
      ensures Ended(r, Run(m, g, args, [], w, fuel), old(applyDepth))
      ensures r.outcome.Done? && !bouncePending ==> bounceFn == old(bounceFn) && bounceArgs == old(bounceArgs)
      ensures peak == Max(old(peak), old(applyDepth) - 1 + r.nesting) && (r.outcome.Done? ==> applyDepth <= peak)
      decreases fuel, 2
    {
      hide Direct, Perform, Plain;
      var results, w' := [], w;
      var fuel': nat, n: nat := fuel, 1;
      while true
        invariant 0 <= fuel' <= fuel && n >= 1 && !bouncePending && applyDepth == old(applyDepth) <= peak
        invariant bounceFn == old(bounceFn) && bounceArgs == old(bounceArgs)
        invariant peak == Max(old(peak), old(applyDepth) - 1 + n)
        invariant Run(m, g, args, [], w, fuel) == AtLeast(Run(m, g, args, results, w', fuel'), n)
        decreases fuel'
      {
        if fuel' == 0 {
          return Result(Exhausted, w', 0, n);
        }
        var action := m.code(g, args, results);
        if action.Return? {
          return Result(Done(action.value), w', fuel' - 1, n);
        } else if action.Throw? {
          return Result(Thrown(action.error), w', 0, n);
        } else if action.TailCall? {
          r := EndWithCall(m, g, action.f, action.args, w', fuel');
          return AtLeast(r, n);
        }
        var v := PerformAction(m, action, w', fuel');
        n := Max(n, v.nesting);
        if !v.outcome.Done? {
          return AtLeast(v, n);
        }
        results, w', fuel' := results + [v.outcome.value], v.world, fuel' - 1;
      }
    }

    method PerformAction(m: Machine, action: Action, w: World, fuel: nat) returns (r: Result<Value>)
      requires applyDepth <= peak && !bouncePending && fuel > 0 && (action.Effect? || action.Call? || action.Trap?)
      modifies this
      ensures r == Perform(m, action, w, fuel)
      ensures r.outcome.Done? ==> applyDepth == old(applyDepth) && bouncePending == old(bouncePending)
      ensures r.outcome.Done? ==> bounceFn == old(bounceFn) && bounceArgs == old(bounceArgs)
      ensures peak == Max(old(peak), old(applyDepth) - 1 + r.nesting) && (r.outcome.Done? ==> applyDepth <= peak)
      decreases fuel, 1
    {
      hide Direct, Guarded;
      match action
      case Effect(op) =>
        var (v, w') := m.effect(w, op);
        r := Result(Done(v), w', 0, 1);
      case Call(f, args) =>
        r := Apply(m, f, args, w, fuel - 1);
        r := Deeper(r);
      case Trap(body, handler, data) =>
        r := TrapError(m, body, handler, data, w, fuel);
    }

    /** The call in tail position: shen_tail_apply in generated code, shen_apply elsewhere. */
    method EndWithCall(m: Machine, g: Fun, f: Value, args: seq<Value>, w: World, fuel: nat) returns (r: Result<Value>)
      requires applyDepth <= peak && !bouncePending && fuel > 0 && (g.Native? ==> applyDepth > 0)
      modifies this
      ensures r.outcome.Done? && !bouncePending ==> bounceFn == old(bounceFn) && bounceArgs == old(bounceArgs)
      ensures g.Native? ==> Ended(r, Result(Done(Tail(f, args)), w, fuel - 1, 1), old(applyDepth))
      ensures !g.Native? ==> Ended(r, Plain(Deeper(Direct(m, f, args, w, fuel - 1)), fuel - 1), old(applyDepth))
      ensures peak == Max(old(peak), old(applyDepth) - 1 + r.nesting) && (r.outcome.Done? ==> applyDepth <= peak)
      decreases fuel, 1
    {
      if g.Native? {
        r := TailApply(m, f, args, w, fuel - 1);
      } else {
        r := Apply(m, f, args, w, fuel - 1);
        r := Deeper(r).(left := if r.outcome.Done? then fuel - 1 else r.left);
      }
    }

    /** shen_trap_error: an escape from any depth restores the variables before the handler runs. */
    method TrapError(m: Machine, body: nat, handler: Option<nat>, data: seq<Value>, w: World, fuel: nat) returns (r: Result<Value>)
      requires applyDepth <= peak && !bouncePending && fuel > 0
      modifies this
      ensures r == Guarded(m, body, handler, data, w, fuel)
      ensures r.outcome.Done? ==> applyDepth == old(applyDepth) && bouncePending == old(bouncePending)
      ensures r.outcome.Done? ==> bounceFn == old(bounceFn) && bounceArgs == old(bounceArgs)
      ensures peak == Max(old(peak), old(applyDepth) - 1 + r.nesting) && (r.outcome.Done? ==> applyDepth <= peak)
      decreases fuel, 0
    {
      var savedDepth, savedBounce, savedFn, savedArgs := applyDepth, bouncePending, bounceFn, bounceArgs;
      r := RunBody(m, Walked(body, |data|, []), data, w, fuel - 1);
      if r.outcome.Exhausted? {
        return;
      }
      applyDepth, bouncePending, bounceFn, bounceArgs := savedDepth, savedBounce, savedFn, savedArgs;
      if r.outcome.Thrown? {
        if handler.None? {
          return Result(Done(r.outcome.error), r.world, 0, r.nesting);
        }
        var h := RunBody(m, Walked(handler.value, 1 + |data|, []), [r.outcome.error] + data, r.world, fuel - 1);
        r := AtLeast(h, r.nesting);
      }
    }

    /** shen_tail_apply: under shen_apply the call is left to its loop. */
    method TailApply(m: Machine, f: Value, args: seq<Value>, w: World, fuel: nat) returns (r: Result<Value>)
      requires applyDepth <= peak
      modifies this
      ensures old(applyDepth) == 0 ==> r == Direct(m, f, args, w, fuel) && Restored(r.outcome.Done?, r.nesting)
      ensures old(applyDepth) > 0 ==> Ended(r, Result(Done(Tail(f, args)), w, fuel, 1), old(applyDepth)) && peak == old(peak)
      decreases fuel, 8
    {
      if applyDepth > 0 {
        bounceFn, bounceArgs, bouncePending := f, args, true;
        r := Result(Done(Null), w, fuel, 1);
      } else {
        r := Apply(m, f, args, w, fuel);
      }
    }
  }
}
