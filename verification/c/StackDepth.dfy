/** The reference evaluator does not depend on how much stack there is: a run that ends with some
    depth of stack ends in the same way with any greater depth. */
module StackDepth {
  import opened Lexical
  import opened ChainEvaluator

  lemma {:induction false} DeeperStackSameResult(prims: Primitives, e: Expr, env: Env, w: World, fuel: nat, more: nat)
    requires !Eval(prims, e, env, w, fuel).outcome.Exhausted? && fuel <= more
    ensures Eval(prims, e, env, w, more) == Eval(prims, e, env, w, fuel)
    decreases more - fuel
  {
    if fuel < more {
      OneMore(prims, e, env, w, fuel);
      DeeperStackSameResult(prims, e, env, w, fuel + 1, more);
    }
  }

  lemma {:induction false} OneMore(prims: Primitives, e: Expr, env: Env, w: World, fuel: nat)
    requires !Eval(prims, e, env, w, fuel).outcome.Exhausted?
    ensures Eval(prims, e, env, w, fuel + 1) == Eval(prims, e, env, w, fuel)
    decreases fuel, 5, 0
  {
    hide ApplyHead, Handle, VariableValue, Extend;
    match e
    case Let(id, bound, body) =>
      OneMore(prims, bound, env, w, fuel - 1);
      var a := Eval(prims, bound, env, w, fuel - 1);
      if a.outcome.Done? {
        OneMore(prims, body, Extend(env, [id], [a.outcome.value]), a.world, fuel - 1);
      }
    case If(test, yes, no) =>
      OneMore(prims, test, env, w, fuel - 1);
      var t := Eval(prims, test, env, w, fuel - 1);
      if t.outcome.Done? && t.outcome.value.Boolean? {
        OneMore(prims, if t.outcome.value.b then yes else no, env, t.world, fuel - 1);
      }
    case Trap(body, handler) =>
      OneMore(prims, body, env, w, fuel - 1);
      var b := Eval(prims, body, env, w, fuel - 1);
      if b.outcome.Thrown? {
        OneMoreHandle(prims, handler, b.outcome.error, env, b.world, fuel);
      }
    case Apply(head, args) => OneMoreHead(prims, head, args, env, w, fuel);
    case _ =>
  }

  lemma {:induction false} OneMoreHead(prims: Primitives, head: Expr, args: seq<Expr>, env: Env, w: World, fuel: nat)
    requires fuel > 0 && !ApplyHead(prims, head, args, env, w, fuel).outcome.Exhausted?
    ensures ApplyHead(prims, head, args, env, w, fuel + 1) == ApplyHead(prims, head, args, env, w, fuel)
    decreases fuel, 4, 0
  {
    hide Eval, ApplyNamed, ApplyClosure;
    if head.Var? && head.id in w.funs {
      OneMoreNamed(prims, head, w.funs[head.id], args, env, w, fuel);
    } else {
      OneMore(prims, head, env, w, fuel - 1);
      var h := Eval(prims, head, env, w, fuel - 1);
      if h.outcome.Done? && h.outcome.value.Closure? {
        OneMoreClosure(prims, h.outcome.value, args, env, h.world, fuel);
      } else if h.outcome.Done? && h.outcome.value.Symbol? && h.outcome.value.id in h.world.funs {
        OneMoreNamed(prims, head, h.world.funs[h.outcome.value.id], args, env, h.world, fuel);
      }
    }
  }

  lemma {:induction false} OneMoreNamed(prims: Primitives, head: Expr, f: Fun, args: seq<Expr>, env: Env, w: World, fuel: nat)
    requires fuel > 0 && !ApplyNamed(prims, head, f, args, env, w, fuel).outcome.Exhausted?
    ensures ApplyNamed(prims, head, f, args, env, w, fuel + 1) == ApplyNamed(prims, head, f, args, env, w, fuel)
    decreases fuel, 2, 0
  {
    hide Eval, EvalArgs, CallFunction, Nest, PartialClosure;
    if |args| == Arity(f) {
      OneMoreArgs(prims, args, env, w, fuel);
      var a := EvalArgs(prims, args, env, w, fuel);
      if a.outcome.Done? {
        OneMoreCall(prims, f, a.outcome.value, a.world, fuel);
      }
    } else if Arity(f) == 0 {
      OneMore(prims, Nest(Apply(head, []), args), env, w, fuel - 1);
    } else if |args| > 0 {
      var w' := w.(gensym := w.gensym + Arity(f));
      OneMore(prims, Nest(Const(PartialClosure(head, Arity(f), env, w)), args), env, w', fuel - 1);
    }
  }

  lemma {:induction false} OneMoreClosure(prims: Primitives, f: Value, args: seq<Expr>, env: Env, w: World, fuel: nat)
    requires fuel > 0 && f.Closure? && !ApplyClosure(prims, f, args, env, w, fuel).outcome.Exhausted?
    ensures ApplyClosure(prims, f, args, env, w, fuel + 1) == ApplyClosure(prims, f, args, env, w, fuel)
    decreases fuel, 2, 0
  {
    hide Eval, EvalArgs, EnterClosure, Nest;
    if |args| > 1 {
      OneMore(prims, Nest(Const(f), args), env, w, fuel - 1);
    } else {
      OneMoreArgs(prims, args, env, w, fuel);
      var a := EvalArgs(prims, args, env, w, fuel);
      if a.outcome.Done? {
        OneMoreEnter(prims, f, a.outcome.value, a.world, fuel);
      }
    }
  }

  lemma {:induction false} OneMoreCall(prims: Primitives, f: Fun, values: seq<Value>, w: World, fuel: nat)
    requires fuel > 0 && |values| == Arity(f) && !CallFunction(prims, f, values, w, fuel).outcome.Exhausted?
    ensures CallFunction(prims, f, values, w, fuel + 1) == CallFunction(prims, f, values, w, fuel)
    decreases fuel, 0, 0
  {
    if f.User? {
      OneMore(prims, f.body, Extend(Root, f.params, values), w, fuel - 1);
    }
  }

  lemma {:induction false} OneMoreEnter(prims: Primitives, f: Value, values: seq<Value>, w: World, fuel: nat)
    requires fuel > 0 && f.Closure? && !EnterClosure(prims, f, values, w, fuel).outcome.Exhausted?
    ensures EnterClosure(prims, f, values, w, fuel + 1) == EnterClosure(prims, f, values, w, fuel)
    decreases fuel, 0, 0
  {
    if |values| == |f.params| {
      OneMore(prims, f.body, Extend(f.env, f.params, values), w, fuel - 1);
    }
  }

  lemma {:induction false} OneMoreHandle(prims: Primitives, handler: Expr, error: Value, env: Env, w: World, fuel: nat)
    requires fuel > 0 && !Handle(prims, handler, error, env, w, fuel).outcome.Exhausted?
    ensures Handle(prims, handler, error, env, w, fuel + 1) == Handle(prims, handler, error, env, w, fuel)
    decreases fuel, 2, 0
  {
    hide Eval, EnterClosure, CallFunction;
    OneMore(prims, handler, env, w, fuel - 1);
    var h := Eval(prims, handler, env, w, fuel - 1);
    if h.outcome.Done? && h.outcome.value.Closure? {
      OneMoreEnter(prims, h.outcome.value, [error], h.world, fuel);
    } else if h.outcome.Done? && h.outcome.value.Symbol? && h.outcome.value.id in h.world.funs {
      var f := h.world.funs[h.outcome.value.id];
      if Arity(f) == 1 {
        OneMoreCall(prims, f, [error], h.world, fuel);
      }
    }
  }

  lemma {:induction false} OneMoreArgs(prims: Primitives, args: seq<Expr>, env: Env, w: World, fuel: nat)
    requires fuel > 0 && !EvalArgs(prims, args, env, w, fuel).outcome.Exhausted?
    ensures EvalArgs(prims, args, env, w, fuel + 1) == EvalArgs(prims, args, env, w, fuel)
    decreases fuel, 1, |args|
  {
    hide Eval;
    if |args| > 0 {
      OneMore(prims, args[0], env, w, fuel - 1);
      var a := Eval(prims, args[0], env, w, fuel - 1);
      if a.outcome.Done? {
        OneMoreArgs(prims, args[1..], env, a.world, fuel);
      }
    }
  }
}
