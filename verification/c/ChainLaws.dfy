/** What the tree-walking evaluator gives for every form, told from the results of the parts. The
    evaluator over the lexical cache gives the same (CachedEvaluator.Evaluate). */
module ChainLaws {
  import opened Options
  import opened Lexical
  import opened ChainEvaluator

  predicate Is(r: Result<Value>, v: Value) {
    r.outcome == Done(v)
  }

  // Variables -----------------------------------------------------------------------------------

  /** A variable means the value of its innermost binding, and without one the symbol itself. */
  lemma VariableLaw(prims: Primitives, id: nat, x: nat, v: Value, env: Env, w: World, fuel: nat)
    requires fuel > 0
    ensures Eval(prims, Var(id), Extend(env, [x], [v]), w, fuel) == if id == x then Result(Done(v), w) else Eval(prims, Var(id), env, w, fuel)
    ensures Eval(prims, Var(id), Root, w, fuel) == Result(Done(Symbol(id)), w)
  {
    WalkOneMore(env, [], [], x, v, id);
    assert [] + [x] == [x] && [] + [v] == [v];
  }

  /** In the frame of a call the i-th parameter means the i-th argument, unless a later one has its
      name; the frame hides nothing else. */
  lemma ParameterLaw(prims: Primitives, params: seq<nat>, vs: seq<Value>, env: Env, id: nat, i: nat, w: World, fuel: nat)
    requires |params| == |vs| && fuel > 0
    ensures id !in params ==> Eval(prims, Var(id), Extend(env, params, vs), w, fuel) == Eval(prims, Var(id), env, w, fuel)
    ensures i < |params| && params[i] == id && id !in params[i + 1..] ==>
      Eval(prims, Var(id), Extend(env, params, vs), w, fuel) == Result(Done(vs[i]), w)
  {
    hide Walk, Extend;
    if id !in params {
      OutsideFrame(env, params, vs, id);
    }
    if i < |params| && params[i] == id && id !in params[i + 1..] {
      InsideFrame(env, params, vs, id, i);
    }
    assert Eval(prims, Var(id), Extend(env, params, vs), w, fuel) == Result(Done(VariableValue(Extend(env, params, vs), id)), w);
    assert Eval(prims, Var(id), env, w, fuel) == Result(Done(VariableValue(env, id)), w);
  }

  lemma {:induction false} OutsideFrame(env: Env, params: seq<nat>, vs: seq<Value>, id: nat)
    requires |params| == |vs| && id !in params
    ensures Walk(Extend(env, params, vs), id) == Walk(env, id) && VariableValue(Extend(env, params, vs), id) == VariableValue(env, id)
    decreases |params|
  {
    if |params| > 0 {
      var n := |params| - 1;
      assert params[n] in params;
      OutsideFrame(env, params[..n], vs[..n], id);
      WalkOneMore(env, params[..n], vs[..n], params[n], vs[n], id);
      assert params == params[..n] + [params[n]] && vs == vs[..n] + [vs[n]];
    }
  }

  lemma {:induction false} InsideFrame(env: Env, params: seq<nat>, vs: seq<Value>, id: nat, i: nat)
    requires |params| == |vs| && i < |params| && params[i] == id && id !in params[i + 1..]
    ensures Walk(Extend(env, params, vs), id) == Some(vs[i]) && VariableValue(Extend(env, params, vs), id) == vs[i]
    decreases |params|
  {
    var n := |params| - 1;
    if i < n {
      assert params[i + 1..][n - i - 1] == params[n];
      assert params[..n][i + 1..] == params[i + 1..][..n - i - 1];
      InsideFrame(env, params[..n], vs[..n], id, i);
    }
    WalkOneMore(env, params[..n], vs[..n], params[n], vs[n], id);
    assert params == params[..n] + [params[n]] && vs == vs[..n] + [vs[n]];
  }

  // Forms ---------------------------------------------------------------------------------------

  lemma ConstantLaw(prims: Primitives, v: Value, env: Env, w: World, fuel: nat)
    requires fuel > 0
    ensures Eval(prims, Const(v), env, w, fuel) == Result(Done(v), w)
  {
  }

  /** Without room on the stack nothing is evaluated. */
  lemma NoRoomLaw(prims: Primitives, e: Expr, env: Env, w: World)
    ensures Eval(prims, e, env, w, 0) == Result(Exhausted, w)
  {
  }

  lemma IfLaw(prims: Primitives, test: Expr, yes: Expr, no: Expr, env: Env, w: World, fuel: nat)
    requires fuel > 0
    ensures var t, r := Eval(prims, test, env, w, fuel - 1), Eval(prims, If(test, yes, no), env, w, fuel);
      && (!t.outcome.Done? ==> r == t)
      && (Is(t, Boolean(true)) ==> r == Eval(prims, yes, env, t.world, fuel - 1))
      && (Is(t, Boolean(false)) ==> r == Eval(prims, no, env, t.world, fuel - 1))
      && (t.outcome.Done? && !t.outcome.value.Boolean? ==> r == Result(Thrown(NOT_BOOLEAN), t.world))
  {
  }

  /** The body sees the variable as the value (VariableLaw). */
  lemma LetLaw(prims: Primitives, x: nat, bound: Expr, body: Expr, env: Env, w: World, fuel: nat)
    requires fuel > 0
    ensures var v, r := Eval(prims, bound, env, w, fuel - 1), Eval(prims, Let(x, bound, body), env, w, fuel);
      r == if v.outcome.Done? then Eval(prims, body, Extend(env, [x], [v.outcome.value]), v.world, fuel - 1) else v
  {
  }

  /** A closure, called anywhere and at any time, sees the environment in which it was made. */
  lemma LambdaLaw(prims: Primitives, x: nat, body: Expr, env: Env, w: World, fuel: nat, arg: Expr, env': Env, w': World, fuel': nat)
    requires fuel > 0 && fuel' > 1
    ensures var f := Eval(prims, Lambda(x, body), env, w, fuel);
      && f.outcome.Done? && f.world == w
      && var a, r := Eval(prims, arg, env', w', fuel' - 1), Eval(prims, Apply(Const(f.outcome.value), [arg]), env', w', fuel');
         r == if a.outcome.Done? then Eval(prims, body, Extend(env, [x], [a.outcome.value]), a.world, fuel' - 1) else a
  {
    hide Eval;
    EvalOf(prims, Lambda(x, body), env, w, fuel);
    var c, a := Closure([x], body, env), Eval(prims, arg, env', w', fuel' - 1);
    CallOfValue(prims, c, [arg], env', w', fuel');
    OneArgument(prims, arg, env', w', fuel');
    assert ApplyValue(prims, Const(c), c, [arg], env', w', fuel') == ApplyClosure(prims, c, [arg], env', w', fuel');
    if a.outcome.Done? {
      assert ApplyClosure(prims, c, [arg], env', w', fuel') == EnterClosure(prims, c, [a.outcome.value], a.world, fuel');
    }
  }

  lemma FreezeLaw(prims: Primitives, body: Expr, env: Env, w: World, fuel: nat, env': Env, w': World, fuel': nat)
    requires fuel > 0 && fuel' > 1
    ensures var f := Eval(prims, Freeze(body), env, w, fuel);
      && f.outcome.Done? && f.world == w
      && Eval(prims, Apply(Const(f.outcome.value), []), env', w', fuel') == Eval(prims, body, env, w', fuel' - 1)
  {
    hide Eval;
    EvalOf(prims, Freeze(body), env, w, fuel);
    var c := Closure([], body, env);
    CallOfValue(prims, c, [], env', w', fuel');
    assert EvalArgs(prims, [], env', w', fuel') == Result(Done([]), w');
    assert ApplyValue(prims, Const(c), c, [], env', w', fuel') == ApplyClosure(prims, c, [], env', w', fuel');
    assert ApplyClosure(prims, c, [], env', w', fuel') == EnterClosure(prims, c, [], w', fuel');
  }

  lemma EvalOf(prims: Primitives, e: Expr, env: Env, w: World, fuel: nat)
    requires fuel > 0 && (e.Lambda? || e.Freeze?)
    ensures Eval(prims, e, env, w, fuel) == Result(Done(Closure(if e.Lambda? then [e.id] else [], e.body, env)), w)
  {
  }

  lemma CallOfValue(prims: Primitives, f: Value, args: seq<Expr>, env: Env, w: World, fuel: nat)
    requires fuel > 1
    ensures Eval(prims, Apply(Const(f), args), env, w, fuel) == ApplyValue(prims, Const(f), f, args, env, w, fuel)
  {
    hide ApplyValue;
    assert Eval(prims, Const(f), env, w, fuel - 1) == Result(Done(f), w);
  }

  lemma OneArgument(prims: Primitives, arg: Expr, env: Env, w: World, fuel: nat)
    requires fuel > 0
    ensures var a, r := Eval(prims, arg, env, w, fuel - 1), EvalArgs(prims, [arg], env, w, fuel);
      r == if a.outcome.Done? then Result(Done([a.outcome.value]), a.world) else Failed(a)
  {
    hide Eval;
    var a := Eval(prims, arg, env, w, fuel - 1);
    assert [arg][1..] == [] && EvalArgs(prims, [], env, a.world, fuel) == Result(Done([]), a.world);
    assert a.outcome.Done? ==> [a.outcome.value] + [] == [a.outcome.value];
  }

  /** A body that does not throw is the answer; otherwise the handler, evaluated where the form stands,
      is applied to the error. */
  lemma TrapLaw(prims: Primitives, body: Expr, handler: Expr, env: Env, w: World, fuel: nat)
    requires fuel > 0
    ensures var b, r := Eval(prims, body, env, w, fuel - 1), Eval(prims, Trap(body, handler), env, w, fuel);
      && (!b.outcome.Thrown? ==> r == b)
      && (b.outcome.Thrown? ==>
            var h := Eval(prims, handler, env, b.world, fuel - 1);
            && (!h.outcome.Done? ==> r == h)
            && (h.outcome.Done? ==> HandledBy(prims, h.outcome.value, b.outcome.error, h.world, fuel, r)))
  {
    hide EnterClosure, CallFunction;
    var b := Eval(prims, body, env, w, fuel - 1);
    if b.outcome.Thrown? {
      var h := Eval(prims, handler, env, b.world, fuel - 1);
      if h.outcome.Done? {
        HandlerRuns(prims, h.outcome.value, b.outcome.error, h.world, fuel, Eval(prims, Trap(body, handler), env, w, fuel), handler, env, b.world);
      }
    }
  }

  /** What a handler makes of an error: a closure of one parameter runs with it in the environment in
      which it was made, a symbol is called by its function; anything else is an error itself. */
  ghost predicate HandledBy(prims: Primitives, f: Value, error: Value, w: World, fuel: nat, r: Result<Value>)
    requires fuel > 0
  {
    && (f.Closure? && |f.params| == 1 ==> r == Eval(prims, f.body, Extend(f.env, f.params, [error]), w, fuel - 1))
    && (f.Closure? && |f.params| != 1 ==> r == Result(Thrown(WRONG_ARGUMENTS), w))
    && (f.Symbol? && f.id !in w.funs ==> r == Result(Thrown(UNDEFINED), w))
    && (f.Symbol? && f.id in w.funs && Arity(w.funs[f.id]) == 1 ==> Runs(prims, w.funs[f.id], [error], w, fuel - 1, r))
    && (f.Symbol? && f.id in w.funs && Arity(w.funs[f.id]) != 1 ==>
          r == prims(w.(calls := w.calls + [(f.id, [error])]), f.id, [error]))
    && (!f.Closure? && !f.Symbol? ==> r == Result(Thrown(NOT_FUNCTION), w))
  }

  lemma HandlerRuns(prims: Primitives, f: Value, error: Value, w: World, fuel: nat, r: Result<Value>, handler: Expr, env: Env, w0: World)
    requires fuel > 0 && Eval(prims, handler, env, w0, fuel - 1) == Result(Done(f), w) && r == Handle(prims, handler, error, env, w0, fuel)
    ensures HandledBy(prims, f, error, w, fuel, r)
  {
    hide Eval;
  }

  // Calls ---------------------------------------------------------------------------------------

  /** The arguments, evaluated from left to right, have these values. */
  ghost predicate HaveValues(prims: Primitives, args: seq<Expr>, env: Env, w: World, fuel: nat, vs: seq<Value>, w': World)
    requires fuel > 0
    decreases |args|
  {
    if |args| == 0 then vs == [] && w' == w
    else
      var a := Eval(prims, args[0], env, w, fuel - 1);
      |vs| > 0 && Is(a, vs[0]) && HaveValues(prims, args[1..], env, a.world, fuel, vs[1..], w')
  }

  lemma {:induction false} ValuesOf(prims: Primitives, args: seq<Expr>, env: Env, w: World, fuel: nat, vs: seq<Value>, w': World)
    requires fuel > 0 && HaveValues(prims, args, env, w, fuel, vs, w')
    ensures EvalArgs(prims, args, env, w, fuel) == Result(Done(vs), w') && |vs| == |args|
    decreases |args|
  {
    hide Eval;
    if |args| > 0 {
      ValuesOf(prims, args[1..], env, Eval(prims, args[0], env, w, fuel - 1).world, fuel, vs[1..], w');
      assert vs == [vs[0]] + vs[1..];
    }
  }

  /** The first argument without a value ends the call. */
  lemma {:induction false} NoValueOf(prims: Primitives, args: seq<Expr>, env: Env, w: World, fuel: nat, i: nat, vs: seq<Value>, w': World)
    requires fuel > 0 && i < |args| && HaveValues(prims, args[..i], env, w, fuel, vs, w')
    requires !Eval(prims, args[i], env, w', fuel - 1).outcome.Done?
    ensures EvalArgs(prims, args, env, w, fuel) == Failed(Eval(prims, args[i], env, w', fuel - 1))
    decreases i
  {
    hide Eval;
    if i > 0 {
      assert args[..i][1..] == args[1..][..i - 1];
      NoValueOf(prims, args[1..], env, Eval(prims, args[0], env, w, fuel - 1).world, fuel, i - 1, vs[1..], w');
    }
  }

  /** The function runs on these values: a body over the global environment, with the parameters bound,
      or a primitive, whose call is remembered. */
  ghost predicate Runs(prims: Primitives, f: Fun, vs: seq<Value>, w: World, fuel: nat, r: Result<Value>)
    requires |vs| == Arity(f)
  {
    match f
    case User(params, body) => r == Eval(prims, body, Extend(Root, params, vs), w, fuel)
    case Primitive(name, _) => r == prims(w.(calls := w.calls + [(name, vs)]), name, vs)
  }

  /** A name with a function is called by it, whether or not it is bound: the arguments in the caller's
      environment, the body over the global one. */
  lemma NamedCallLaw(prims: Primitives, f: nat, args: seq<Expr>, env: Env, w: World, fuel: nat, vs: seq<Value>, w': World)
    requires fuel > 0 && f in w.funs && |args| == Arity(w.funs[f]) && HaveValues(prims, args, env, w, fuel, vs, w')
    ensures var r := Eval(prims, Apply(Var(f), args), env, w, fuel);
      |vs| == Arity(w.funs[f]) && Runs(prims, w.funs[f], vs, w', fuel - 1, r)
  {
    hide Eval;
    ValuesOf(prims, args, env, w, fuel, vs, w');
    NamedHead(prims, f, args, env, w, fuel);
  }

  lemma NamedHead(prims: Primitives, f: nat, args: seq<Expr>, env: Env, w: World, fuel: nat)
    requires fuel > 0 && f in w.funs
    ensures Eval(prims, Apply(Var(f), args), env, w, fuel) == ApplyNamed(prims, Var(f), w.funs[f], args, env, w, fuel)
  {
    hide ApplyNamed;
  }

  lemma FailedArgumentLaw(prims: Primitives, f: nat, args: seq<Expr>, env: Env, w: World, fuel: nat, i: nat, vs: seq<Value>, w': World)
    requires fuel > 0 && f in w.funs && |args| == Arity(w.funs[f]) && i < |args| && HaveValues(prims, args[..i], env, w, fuel, vs, w')
    requires !Eval(prims, args[i], env, w', fuel - 1).outcome.Done?
    ensures Eval(prims, Apply(Var(f), args), env, w, fuel) == Eval(prims, args[i], env, w', fuel - 1)
  {
    hide Eval;
    NoValueOf(prims, args, env, w, fuel, i, vs, w');
    NamedHead(prims, f, args, env, w, fuel);
  }

  /** A call of something that is no function is an error, before any argument. */
  lemma NoFunctionLaw(prims: Primitives, head: Expr, args: seq<Expr>, env: Env, w: World, fuel: nat)
    requires fuel > 0 && (head.Var? ==> head.id !in w.funs)
    ensures var h, r := Eval(prims, head, env, w, fuel - 1), Eval(prims, Apply(head, args), env, w, fuel);
      && (!h.outcome.Done? ==> r == h)
      && (h.outcome.Done? && h.outcome.value.Symbol? && h.outcome.value.id !in h.world.funs ==> r == Result(Thrown(UNDEFINED), h.world))
      && (h.outcome.Done? && (h.outcome.value.Boolean? || h.outcome.value.Data?) ==> r == Result(Thrown(NOT_FUNCTION), h.world))
  {
    var h := Eval(prims, head, env, w, fuel - 1);
    assert Eval(prims, Apply(head, args), env, w, fuel) == ApplyHead(prims, head, args, env, w, fuel);
    if h.outcome.Done? {
      assert ApplyHead(prims, head, args, env, w, fuel) == ApplyValue(prims, head, h.outcome.value, args, env, h.world, fuel);
    }
  }

  /** A closure takes its arguments one by one. */
  lemma SurplusLaw(prims: Primitives, f: Value, args: seq<Expr>, env: Env, w: World, fuel: nat)
    requires fuel > 1 && f.Closure? && |args| > 1
    ensures Eval(prims, Apply(Const(f), args), env, w, fuel) == Eval(prims, Nest(Apply(Const(f), [args[0]]), args[1..]), env, w, fuel - 1)
  {
    hide Eval;
    CallOfValue(prims, f, args, env, w, fuel);
  }

  /** A function of two parameters waits for the second one: what its first argument gives, called with
      the second anywhere and at any time, is the call on both. */
  lemma WaitingLaw(prims: Primitives, f: nat, x: Expr, v: Value, w1: World, env: Env, w: World, fuel: nat, y: Expr, u: Value, w2: World, env': Env, w': World, fuel': nat)
    requires f in w.funs && Arity(w.funs[f]) == 2 && fuel > 4 && fuel' > 4
    requires Eval(prims, x, env, w.(gensym := w.gensym + 2), fuel - 2) == Result(Done(v), w1)
    requires Eval(prims, y, env', w', fuel' - 1) == Result(Done(u), w2) && f in w2.funs && w2.funs[f] == w.funs[f]
    ensures var c := Eval(prims, Apply(Var(f), [x]), env, w, fuel);
      && c.outcome.Done? && c.world == w1
      && Runs(prims, w.funs[f], [v, u], w2, fuel' - 2, Eval(prims, Apply(Const(c.outcome.value), [y]), env', w', fuel'))
  {
    hide Eval, Walk, ApplyNamed, Runs;
    var g := w.gensym;
    var env1 := Extend(env, [g], [v]);
    LastCurried(f, g);
    FirstOfTwo(prims, f, x, env, w, fuel);
    LambdaLaw(prims, g, Curried(Var(f), g, 2, 1), env, w, 1, x, env, w.(gensym := w.gensym + 2), fuel - 1);
    EvalOf(prims, Lambda(g, Curried(Var(f), g, 2, 1)), env, w, 1);
    EvalOf(prims, Curried(Var(f), g, 2, 1), env1, w1, fuel - 2);
    var both := Apply(Var(f), [Var(g), Var(g + 1)]);
    LambdaLaw(prims, g + 1, both, env1, w1, fuel - 2, y, env', w', fuel');
    BothBound(prims, g, v, u, env, w2, fuel' - 1);
    NamedCallLaw(prims, f, [Var(g), Var(g + 1)], Extend(env1, [g + 1], [u]), w2, fuel' - 1, [v, u], w2);
  }

  /** A call of one argument too few goes through a closure with generated parameters. */
  lemma FirstOfTwo(prims: Primitives, f: nat, x: Expr, env: Env, w: World, fuel: nat)
    requires f in w.funs && Arity(w.funs[f]) == 2 && fuel > 1
    ensures var c := Closure([w.gensym], Curried(Var(f), w.gensym, 2, 1), env);
      Eval(prims, Apply(Var(f), [x]), env, w, fuel) == Eval(prims, Apply(Const(c), [x]), env, w.(gensym := w.gensym + 2), fuel - 1)
  {
    hide Eval, Curried;
    NamedHead(prims, f, [x], env, w, fuel);
    var c := Const(PartialClosure(Var(f), 2, env, w));
    assert Nest(Apply(c, [x]), []) == Apply(c, [x]) && [x][1..] == [];
  }

  lemma LastCurried(f: nat, g: nat)
    ensures Curried(Var(f), g, 2, 1) == Lambda(g + 1, Apply(Var(f), [Var(g), Var(g + 1)]))
  {
    assert seq(2, k requires 0 <= k < 2 => Var(g + k)) == [Var(g), Var(g + 1)];
    assert Curried(Var(f), g, 2, 2) == Apply(Var(f), [Var(g), Var(g + 1)]);
  }

  lemma BothBound(prims: Primitives, g: nat, v: Value, u: Value, env: Env, w: World, fuel: nat)
    requires fuel > 1
    ensures HaveValues(prims, [Var(g), Var(g + 1)], Extend(Extend(env, [g], [v]), [g + 1], [u]), w, fuel, [v, u], w)
  {
    hide Eval;
    var env1 := Extend(env, [g], [v]);
    VariableLaw(prims, g, g, v, env, w, fuel - 1);
    VariableLaw(prims, g, g + 1, u, env1, w, fuel - 1);
    VariableLaw(prims, g + 1, g + 1, u, env1, w, fuel - 1);
    var args, vs := [Var(g), Var(g + 1)], [v, u];
    assert args[1..] == [Var(g + 1)] && vs[1..] == [u] && args[1..][1..] == [] && vs[1..][1..] == [];
    assert HaveValues(prims, args[1..], Extend(env1, [g + 1], [u]), w, fuel, [u], w);
  }
}
