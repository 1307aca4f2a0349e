/** The tree-walking evaluator of src/c/evaluator.c as it runs: variables come from the lexical
    cache, and a thrown error leaves the cache to the next trap-error that rewinds it. Every
    method computes exactly what the evaluator over environment chains computes. */
module CachedEvaluator {
  import opened Options
  import opened Lexical
  import opened ChainEvaluator
  import opened LexSlots
  import opened LexCache

  const STACK_ARGUMENTS: nat := 16

  /** The cache agrees with the environment, and 32 bits can count the frames that fit on the stack. */
  ghost predicate Ready(l: Lex, env: Env, fuel: nat) {
    Stamped(l) && Coherent(l, env) && l.epoch + fuel < MAX_EPOCH
  }

  /** What a run leaves: the cache as it was, or after an error a cache that rewinds to it and whose
      stamps are still in order. */
  ghost predicate Ran(l: Lex, l0: Lex, fuel: nat, done: bool) {
    Since(l, l0) && (done ==> l == l0) && Stamped(l) && l.epoch <= l0.epoch + fuel
  }

  lemma ReadyForLess(l: Lex, env: Env, fuel: nat)
    requires Ready(l, env, fuel) && fuel > 0
    ensures Ready(l, env, fuel - 1) && Ran(l, l, fuel, true)
  {
    SinceItself(l);
  }

  lemma Started(l: Lex, env: Env, fuel: nat)
    requires Ready(l, env, fuel)
    ensures Ran(l, l, fuel, true)
  {
    SinceItself(l);
  }

  lemma ReadyInLet(l: Lex, env: Env, id: nat, v: Value, fuel: nat)
    requires Ready(l, env, fuel) && fuel > 0
    ensures Full(l) && Ready(BindSlot(l, id, v), Extend(env, [id], [v]), fuel - 1) && Since(BindSlot(l, id, v), l)
    ensures Ran(l, l, fuel, true) && BindSlot(l, id, v).epoch <= l.epoch + 1
  {
    forall other: nat
      ensures Walk(Extend(env, [id], [v]), other) == if other == id then Some(v) else Walk(env, other)
    {
      WalkOneMore(env, [], [], id, v, other);
      assert [] + [id] == [id] && [] + [v] == [v];
    }
    BindIsCoherent(l, env, id, v, Extend(env, [id], [v]));
    SinceBind(l, id, v);
    SinceItself(l);
  }

  lemma ReadyInFrame(l: Lex, env: Env, fuel: nat, callee: Env)
    requires Ready(l, env, fuel) && fuel > 0
    ensures Ready(EnterFrame(l), callee, fuel - 1) && Since(EnterFrame(l), l) && 0 < EnterFrame(l).epoch == l.epoch + 1
    ensures Ran(l, l, fuel, true)
  {
    SinceItself(l);
    EnterIsFresh(l);
    SinceEnter(l);
  }

  lemma LookupIsWalk(l: Lex, env: Env, fuel: nat, id: nat)
    requires Ready(l, env, fuel)
    ensures Full(l) && LookupIn(l, env, id) == Walk(env, id)
  {
  }

  /** The rewind at the end of a let, a call or a trapped error. */
  method Leave(c: Cache, m: Mark, ghost l0: Lex)
    requires c.Valid() && Since(c.lex, l0) && m == MarkOf(l0)
    modifies c, c.Arrays()
    ensures c.Valid() && c.Arrays() == old(c.Arrays()) && c.lex == l0 && Since(c.lex, l0)
  {
    RewindRestores(c.lex, l0);
    c.RewindTo(m);
    SinceItself(l0);
  }

  /** The loops that bind the parameters of an entered frame. */
  method BindAll(c: Cache, ids: seq<nat>, values: seq<Value>, env: Env, ghost fuel: nat)
    requires c.Valid() && |ids| == |values| && Ready(c.lex, env, fuel) && c.lex.epoch > 0
    modifies c, c.Arrays()
    ensures c.Valid() && fresh(c.Arrays() - old(c.Arrays()))
    ensures Ready(c.lex, Extend(env, ids, values), fuel) && Since(c.lex, old(c.lex)) && c.lex.epoch == old(c.lex.epoch)
  {
    hide Stamped, Coherent, Since, Walk, Represents;
    SinceItself(c.lex);
    assert ids[..0] == [] && values[..0] == [];
    var i := 0;
    while i < |ids|
      invariant i <= |ids| && c.Valid() && fresh(c.Arrays() - old(c.Arrays())) && c.lex.epoch == old(c.lex.epoch)
      invariant Ready(c.lex, Extend(env, ids[..i], values[..i]), fuel) && Since(c.lex, old(c.lex))
    {
      ghost var l := c.lex;
      BindNext(l, old(c.lex), env, ids, values, i, fuel);
      c.Bind(ids[i], values[i]);
      i := i + 1;
    }
    assert ids[..i] == ids && values[..i] == values;
  }

  lemma BindNext(l: Lex, l0: Lex, env: Env, ids: seq<nat>, values: seq<Value>, i: nat, fuel: nat)
    requires i < |ids| == |values| && Ready(l, Extend(env, ids[..i], values[..i]), fuel) && l.epoch > 0 && Since(l, l0)
    ensures Full(l) && Since(BindSlot(l, ids[i], values[i]), l0)
    ensures Ready(BindSlot(l, ids[i], values[i]), Extend(env, ids[..i + 1], values[..i + 1]), fuel)
  {
    hide Since, Walk;
    var before, after := Extend(env, ids[..i], values[..i]), Extend(env, ids[..i + 1], values[..i + 1]);
    forall other: nat
      ensures Walk(after, other) == if other == ids[i] then Some(values[i]) else Walk(before, other)
    {
      assert ids[..i + 1] == ids[..i] + [ids[i]] && values[..i + 1] == values[..i] + [values[i]];
      WalkOneMore(env, ids[..i], values[..i], ids[i], values[i], other);
    }
    BindIsCoherent(l, before, ids[i], values[i], after);
    SinceBind(l, ids[i], values[i]);
    SinceIsTransitive(BindSlot(l, ids[i], values[i]), l, l0);
  }

  /** eval_kl_object */
  method Evaluate(c: Cache, prims: Primitives, e: Expr, env: Env, w: World, fuel: nat) returns (r: Result<Value>)
    requires c.Valid() && Ready(c.lex, env, fuel)
    modifies c, c.Arrays()
    ensures c.Valid() && fresh(c.Arrays() - old(c.Arrays())) && Ran(c.lex, old(c.lex), fuel, r.outcome.Done?)
    ensures r == Eval(prims, e, env, w, fuel)
    decreases fuel, 5, 0
  {
    hide Since, Represents, Ready, Stamped, Walk, Unwind, Extend, BindSlot;
    Started(c.lex, env, fuel);
    if fuel == 0 {
      return Result(Exhausted, w);
    }
    match e
    case Const(v) => r := Result(Done(v), w);
    case Var(id) => r := Variable(c, env, w, id, fuel);
    case Let(id, bound, body) => r := EvaluateLet(c, prims, id, bound, body, env, w, fuel);
    case If(test, yes, no) => r := EvaluateIf(c, prims, test, yes, no, env, w, fuel);
    case Lambda(id, body) => r := Result(Done(Closure([id], body, env)), w);
    case Freeze(body) => r := Result(Done(Closure([], body, env)), w);
    case Trap(body, handler) => r := EvaluateTrap(c, prims, body, handler, env, w, fuel);
    case Apply(head, args) => r := EvaluateApply(c, prims, head, args, env, w, fuel);
  }

  method Variable(c: Cache, env: Env, w: World, id: nat, ghost fuel: nat) returns (r: Result<Value>)
    requires c.Valid() && Ready(c.lex, env, fuel)
    ensures r == Result(Done(VariableValue(env, id)), w)
  {
    if env.Root? {
      return Result(Done(Symbol(id)), w);
    }
    LookupIsWalk(c.lex, env, fuel, id);
    var v := c.Lookup(id, env);
    r := Result(Done(if v.None? then Symbol(id) else v.value), w);
  }

  /** eval_let_expression */
  method EvaluateLet(c: Cache, prims: Primitives, id: nat, bound: Expr, body: Expr, env: Env, w: World, fuel: nat) returns (r: Result<Value>)
    requires c.Valid() && Ready(c.lex, env, fuel) && fuel > 0
    modifies c, c.Arrays()
    ensures c.Valid() && fresh(c.Arrays() - old(c.Arrays())) && Ran(c.lex, old(c.lex), fuel, r.outcome.Done?)
    ensures r == Eval(prims, Let(id, bound, body), env, w, fuel)
    decreases fuel, 4, 0
  {
    hide Since, Represents, Ready, Stamped, Walk, Unwind, Extend, BindSlot;
    ReadyForLess(c.lex, env, fuel);
    r := Evaluate(c, prims, bound, env, w, fuel - 1);
    if r.outcome.Done? {
      r := RunLetBody(c, prims, id, r.outcome.value, body, env, r.world, fuel);
    }
  }

  method RunLetBody(c: Cache, prims: Primitives, id: nat, v: Value, body: Expr, env: Env, w: World, fuel: nat) returns (r: Result<Value>)
    requires c.Valid() && Ready(c.lex, env, fuel) && fuel > 0
    modifies c, c.Arrays()
    ensures c.Valid() && fresh(c.Arrays() - old(c.Arrays())) && Ran(c.lex, old(c.lex), fuel, r.outcome.Done?)
    ensures r == Eval(prims, body, Extend(env, [id], [v]), w, fuel - 1)
    decreases fuel, 0, 0
  {
    hide Since, Represents, Ready, Stamped, Walk, Unwind, Extend, BindSlot;
    ghost var l := c.lex;
    ReadyInLet(l, env, id, v, fuel);
    var m := c.TakeMark();
    c.Bind(id, v);
    r := Evaluate(c, prims, body, Extend(env, [id], [v]), w, fuel - 1);
    SinceIsTransitive(c.lex, BindSlot(l, id, v), l);
    if r.outcome.Done? {
      Leave(c, m, l);
    }
  }

  /** eval_if_expression */
  method EvaluateIf(c: Cache, prims: Primitives, test: Expr, yes: Expr, no: Expr, env: Env, w: World, fuel: nat) returns (r: Result<Value>)
    requires c.Valid() && Ready(c.lex, env, fuel) && fuel > 0
    modifies c, c.Arrays()
    ensures c.Valid() && fresh(c.Arrays() - old(c.Arrays())) && Ran(c.lex, old(c.lex), fuel, r.outcome.Done?)
    ensures r == Eval(prims, If(test, yes, no), env, w, fuel)
    decreases fuel, 4, 0
  {
    hide Since, Represents, Ready, Stamped, Walk, Unwind, Extend, BindSlot;
    ghost var l := c.lex;
    ReadyForLess(l, env, fuel);
    r := Evaluate(c, prims, test, env, w, fuel - 1);
    if r.outcome.Done? {
      assert c.lex == l;
      if !r.outcome.value.Boolean? {
        r := Result(Thrown(NOT_BOOLEAN), r.world);
      } else {
        r := Evaluate(c, prims, if r.outcome.value.b then yes else no, env, r.world, fuel - 1);
      }
    }
  }

  /** eval_trap_error_expression: an error rewinds to the mark before the handler runs. */
  method EvaluateTrap(c: Cache, prims: Primitives, body: Expr, handler: Expr, env: Env, w: World, fuel: nat) returns (r: Result<Value>)
    requires c.Valid() && Ready(c.lex, env, fuel) && fuel > 0
    modifies c, c.Arrays()
    ensures c.Valid() && fresh(c.Arrays() - old(c.Arrays())) && Ran(c.lex, old(c.lex), fuel, r.outcome.Done?)
    ensures r == Eval(prims, Trap(body, handler), env, w, fuel)
    decreases fuel, 4, 0
  {
    hide Since, Represents, Ready, Stamped, Walk, Unwind, Extend, BindSlot;
    ghost var l := c.lex;
    ReadyForLess(l, env, fuel);
    var m := c.TakeMark();
    r := Evaluate(c, prims, body, env, w, fuel - 1);
    if r.outcome.Thrown? {
      Leave(c, m, l);
      r := RunHandler(c, prims, handler, r.outcome.error, env, r.world, fuel);
    }
  }

  /** The handler and its application (eval_trap_error_handler_application). */
  method RunHandler(c: Cache, prims: Primitives, handler: Expr, error: Value, env: Env, w: World, fuel: nat) returns (r: Result<Value>)
    requires c.Valid() && Ready(c.lex, env, fuel) && fuel > 0
    modifies c, c.Arrays()
    ensures c.Valid() && fresh(c.Arrays() - old(c.Arrays())) && Ran(c.lex, old(c.lex), fuel, r.outcome.Done?)
    ensures r == Handle(prims, handler, error, env, w, fuel)
    decreases fuel, 3, 0
  {
    hide Since, Represents, Ready, Stamped, Walk, Unwind, Extend, BindSlot;
    ReadyForLess(c.lex, env, fuel);
    r := Evaluate(c, prims, handler, env, w, fuel - 1);
    if r.outcome.Done? {
      var f := r.outcome.value;
      if f.Closure? {
        r := RunClosure(c, prims, f, [error], env, r.world, fuel);
      } else if !f.Symbol? {
        r := Result(Thrown(NOT_FUNCTION), r.world);
      } else if f.id !in r.world.funs {
        r := Result(Thrown(UNDEFINED), r.world);
      } else if Arity(r.world.funs[f.id]) == 1 {
        r := RunFunction(c, prims, r.world.funs[f.id], [error], env, r.world, fuel);
      } else {
        r := prims(r.world.(calls := r.world.calls + [(f.id, [error])]), f.id, [error]);
      }
    }
  }

  /** eval_kl_list for a form that is not special, and eval_kl_list_operator. */
  method EvaluateApply(c: Cache, prims: Primitives, head: Expr, args: seq<Expr>, env: Env, w: World, fuel: nat) returns (r: Result<Value>)
    requires c.Valid() && Ready(c.lex, env, fuel) && fuel > 0
    modifies c, c.Arrays()
    ensures c.Valid() && fresh(c.Arrays() - old(c.Arrays())) && Ran(c.lex, old(c.lex), fuel, r.outcome.Done?)
    ensures r == ApplyHead(prims, head, args, env, w, fuel)
    decreases fuel, 4, 0
  {
    hide Since, Represents, Ready, Stamped, Walk, Unwind, Extend, BindSlot;
    ReadyForLess(c.lex, env, fuel);
    if head.Var? && head.id in w.funs {
      r := RunNamed(c, prims, head, w.funs[head.id], args, env, w, fuel);
      return;
    }
    r := Evaluate(c, prims, head, env, w, fuel - 1);
    if r.outcome.Done? {
      var f := r.outcome.value;
      if f.Closure? {
        r := ApplyToClosure(c, prims, f, args, env, r.world, fuel);
      } else if !f.Symbol? {
        r := Result(Thrown(NOT_FUNCTION), r.world);
      } else if f.id !in r.world.funs {
        r := Result(Thrown(UNDEFINED), r.world);
      } else {
        r := RunNamed(c, prims, head, r.world.funs[f.id], args, env, r.world, fuel);
      }
    }
  }

  /** eval_kl_list_user_function_application and eval_kl_list_primitive_function_application */
  method RunNamed(c: Cache, prims: Primitives, head: Expr, f: Fun, args: seq<Expr>, env: Env, w: World, fuel: nat) returns (r: Result<Value>)
    requires c.Valid() && Ready(c.lex, env, fuel) && fuel > 0
    modifies c, c.Arrays()
    ensures c.Valid() && fresh(c.Arrays() - old(c.Arrays())) && Ran(c.lex, old(c.lex), fuel, r.outcome.Done?)
    ensures r == ApplyNamed(prims, head, f, args, env, w, fuel)
    decreases fuel, 3, 0
  {
    hide Eval, EvalArgs, CallFunction, PartialClosure, Nest, Since, Represents, Ready, Stamped, Walk, Unwind, Extend, BindSlot;
    ReadyForLess(c.lex, env, fuel);
    if |args| == Arity(f) {
      if f.User? && |args| <= STACK_ARGUMENTS {
        r := CallInEnteredFrame(c, prims, f, args, env, w, fuel);
      } else {
        var a := EvaluateArguments(c, prims, args, env, w, fuel);
        if a.outcome.Done? {
          r := RunFunction(c, prims, f, a.outcome.value, env, a.world, fuel);
        } else {
          r := Failed(a);
        }
      }
    } else if Arity(f) == 0 {
      r := Evaluate(c, prims, Nest(Apply(head, []), args), env, w, fuel - 1);
    } else {
      var closure, w' := PartialClosure(head, Arity(f), env, w), w.(gensym := w.gensym + Arity(f));
      if |args| == 0 {
        r := Result(Done(closure), w');
      } else {
        r := Evaluate(c, prims, Nest(Const(closure), args), env, w', fuel - 1);
      }
    }
  }

  /** bind_user_call and eval_user_function_body: the callee's frame is entered before the
      arguments are evaluated in the caller's environment. */
  method CallInEnteredFrame(c: Cache, prims: Primitives, f: Fun, args: seq<Expr>, env: Env, w: World, fuel: nat) returns (r: Result<Value>)
    requires c.Valid() && Ready(c.lex, env, fuel) && fuel > 0 && f.User? && |args| == |f.params|
    modifies c, c.Arrays()
    ensures c.Valid() && fresh(c.Arrays() - old(c.Arrays())) && Ran(c.lex, old(c.lex), fuel, r.outcome.Done?)
    ensures r == ApplyNamed(prims, Const(Data(0)), f, args, env, w, fuel)
    decreases fuel, 2, 0
  {
    hide Since, Represents, Ready, Stamped, Walk, Unwind, Extend, BindSlot;
    ghost var l := c.lex;
    ReadyInFrame(l, env, fuel, env);
    ReadyInFrame(l, env, fuel, Root);
    var m := c.TakeMark();
    c.Enter();
    var a := EvaluateArguments(c, prims, args, env, w, fuel);
    if a.outcome.Done? {
      r := RunFrame(c, prims, Root, f.params, a.outcome.value, f.body, a.world, fuel, m, l);
    } else {
      SinceIsTransitive(c.lex, EnterFrame(l), l);
      r := Failed(a);
    }
  }

  /** eval_kl_list_closure_function_application */
  method ApplyToClosure(c: Cache, prims: Primitives, f: Value, args: seq<Expr>, env: Env, w: World, fuel: nat) returns (r: Result<Value>)
    requires c.Valid() && Ready(c.lex, env, fuel) && fuel > 0 && f.Closure?
    modifies c, c.Arrays()
    ensures c.Valid() && fresh(c.Arrays() - old(c.Arrays())) && Ran(c.lex, old(c.lex), fuel, r.outcome.Done?)
    ensures r == ApplyClosure(prims, f, args, env, w, fuel)
    decreases fuel, 3, 0
  {
    hide Since, Represents, Ready, Stamped, Walk, Unwind, Extend, BindSlot;
    ReadyForLess(c.lex, env, fuel);
    if |args| > 1 {
      r := Evaluate(c, prims, Nest(Const(f), args), env, w, fuel - 1);
      return;
    }
    var a := EvaluateArguments(c, prims, args, env, w, fuel);
    if a.outcome.Done? {
      r := RunClosure(c, prims, f, a.outcome.value, env, a.world, fuel);
    } else {
      r := Failed(a);
    }
  }

  /** A primitive, or eval_user_function_application and apply_user_function. */
  method RunFunction(c: Cache, prims: Primitives, f: Fun, values: seq<Value>, ghost env: Env, w: World, fuel: nat) returns (r: Result<Value>)
    requires c.Valid() && Ready(c.lex, env, fuel) && fuel > 0 && |values| == Arity(f)
    modifies c, c.Arrays()
    ensures c.Valid() && fresh(c.Arrays() - old(c.Arrays())) && Ran(c.lex, old(c.lex), fuel, r.outcome.Done?)
    ensures r == CallFunction(prims, f, values, w, fuel)
    decreases fuel, 2, 0
  {
    hide Since, Represents, Ready, Stamped, Walk, Unwind, Extend, BindSlot;
    ghost var l := c.lex;
    Started(l, env, fuel);
    match f
    case Primitive(name, _) => r := prims(w.(calls := w.calls + [(name, values)]), name, values);
    case User(params, body) =>
      ReadyInFrame(l, env, fuel, Root);
      var m := c.TakeMark();
      c.Enter();
      r := RunFrame(c, prims, Root, params, values, body, w, fuel, m, l);
  }

  /** eval_closure_function_application and apply_closure */
  method RunClosure(c: Cache, prims: Primitives, f: Value, values: seq<Value>, ghost env: Env, w: World, fuel: nat) returns (r: Result<Value>)
    requires c.Valid() && Ready(c.lex, env, fuel) && fuel > 0 && f.Closure?
    modifies c, c.Arrays()
    ensures c.Valid() && fresh(c.Arrays() - old(c.Arrays())) && Ran(c.lex, old(c.lex), fuel, r.outcome.Done?)
    ensures r == EnterClosure(prims, f, values, w, fuel)
    decreases fuel, 2, 0
  {
    hide Since, Represents, Ready, Stamped, Walk, Unwind, Extend, BindSlot;
    ghost var l := c.lex;
    Started(l, env, fuel);
    var m := c.TakeMark();
    if |values| != |f.params| {
      return Result(Thrown(WRONG_ARGUMENTS), w);
    }
    ReadyInFrame(l, env, fuel, f.env);
    c.Enter();
    r := RunFrame(c, prims, f.env, f.params, values, f.body, w, fuel, m, l);
  }

  /** Binds the parameters in the entered frame, runs the body and leaves the frame. */
  method RunFrame(c: Cache, prims: Primitives, base: Env, params: seq<nat>, values: seq<Value>, body: Expr, w: World, fuel: nat, m: Mark, ghost l0: Lex) returns (r: Result<Value>)
    requires c.Valid() && |params| == |values| && fuel > 0 && m == MarkOf(l0)
    requires c.lex == EnterFrame(l0) && 0 < c.lex.epoch == l0.epoch + 1 && Ready(c.lex, base, fuel - 1) && Ran(l0, l0, fuel, true)
    modifies c, c.Arrays()
    ensures c.Valid() && fresh(c.Arrays() - old(c.Arrays())) && Ran(c.lex, l0, fuel, r.outcome.Done?)
    ensures r == Eval(prims, body, Extend(base, params, values), w, fuel - 1)
    decreases fuel, 0, 0
  {
    hide Since, Represents, Ready, Stamped, Walk, Unwind, Extend, BindSlot;
    SinceEnter(l0);
    BindAll(c, params, values, base, fuel - 1);
    ghost var l := c.lex;
    SinceIsTransitive(l, EnterFrame(l0), l0);
    r := Evaluate(c, prims, body, Extend(base, params, values), w, fuel - 1);
    SinceIsTransitive(c.lex, l, l0);
    if r.outcome.Done? {
      Leave(c, m, l0);
    }
  }

  /** eval_list_into_array */
  method EvaluateArguments(c: Cache, prims: Primitives, args: seq<Expr>, env: Env, w: World, fuel: nat) returns (r: Result<seq<Value>>)
    requires c.Valid() && fuel > 0 && Ready(c.lex, env, fuel - 1)
    modifies c, c.Arrays()
    ensures c.Valid() && fresh(c.Arrays() - old(c.Arrays())) && Ran(c.lex, old(c.lex), fuel - 1, r.outcome.Done?)
    ensures r == EvalArgs(prims, args, env, w, fuel)
    decreases fuel, 1, 0
  {
    hide Since, Represents, Ready, Stamped, Walk, Unwind, Extend, BindSlot;
    Started(c.lex, env, fuel - 1);
    var i, values, w' := 0, [], w;
    assert args[0..] == args;
    PrependNothing(EvalArgs(prims, args, env, w, fuel));
    while i < |args|
      invariant i <= |args| && |values| == i && c.Valid() && fresh(c.Arrays() - old(c.Arrays())) && c.lex == old(c.lex)
      invariant EvalArgs(prims, args, env, w, fuel) == Prepend(values, EvalArgs(prims, args[i..], env, w', fuel))
    {
      var a := Evaluate(c, prims, args[i], env, w', fuel - 1);
      assert args[i..][0] == args[i] && args[i..][1..] == args[i + 1..];
      if !a.outcome.Done? {
        return Failed(a);
      }
      PrependTwice(values, a.outcome.value, EvalArgs(prims, args[i + 1..], env, a.world, fuel));
      values, w', i := values + [a.outcome.value], a.world, i + 1;
    }
    assert args[i..] == [] && values + [] == values;
    r := Result(Done(values), w');
  }

  lemma PrependNothing(rest: Result<seq<Value>>)
    ensures Prepend([], rest) == rest
  {
    if rest.outcome.Done? {
      assert [] + rest.outcome.value == rest.outcome.value;
    }
  }

  lemma PrependTwice(done: seq<Value>, v: Value, rest: Result<seq<Value>>)
    ensures Prepend(done, Prepend([v], rest)) == Prepend(done + [v], rest)
  {
    if rest.outcome.Done? {
      assert done + ([v] + rest.outcome.value) == done + [v] + rest.outcome.value;
    }
  }

  // Top-level forms -----------------------------------------------------------------------------

  /** One form of run_kl_repl, which catches an error without rewinding. left is how many frames
      32 bits can still count afterwards. The next form has a coherent cache to start from exactly
      when the running frame has bound no symbol: always after a value, not always after an error. */
  method TopLevelForm(c: Cache, prims: Primitives, e: Expr, w: World, fuel: nat, ghost left: nat) returns (r: Result<Value>)
    requires c.Valid() && Ready(c.lex, Root, fuel + left)
    modifies c, c.Arrays()
    ensures c.Valid() && fresh(c.Arrays() - old(c.Arrays()))
    ensures r == Eval(prims, e, Root, w, fuel)
    ensures Ready(c.lex, Root, left) <==> forall id: nat :: !Cached(c.lex, id)
    ensures r.outcome.Done? ==> c.lex == old(c.lex) && Ready(c.lex, Root, left)
  {
    ghost var l := c.lex;
    r := Evaluate(c, prims, e, Root, w, fuel);
    ReentryExactly(c.lex);
    if r.outcome.Done? {
      assert Ready(l, Root, left);
    }
  }

  /** What a let in that next form makes of it: its body is coherent exactly when no symbol but its
      own was left behind. */
  lemma NextFormExactly(l: Lex, id: nat, v: Value)
    requires Stamped(l)
    ensures Full(BindSlot(l, id, v))
    ensures Coherent(BindSlot(l, id, v), Extend(Root, [id], [v])) <==> forall other: nat :: other != id ==> !Cached(l, other)
  {
    var r, env := BindSlot(l, id, v), Extend(Root, [id], [v]);
    forall other: nat
      ensures Walk(env, other) == if other == id then Some(v) else None
    {
      WalkOneMore(Root, [], [], id, v, other);
      assert [] + [id] == [id] && [] + [v] == [v];
    }
    forall other: nat | other != id
      ensures Cached(r, other) <==> Cached(l, other)
    {
      assert l.cells[other].gen <= l.epoch;
    }
    assert Cached(r, id);
    if Coherent(r, env) {
      forall other: nat | other != id
        ensures !Cached(l, other)
      {
        assert l.cells[other].gen > 0 ==> l.cells[other].value.Some?;
      }
    }
  }

  /** (defun f (X) (simple-error "e")), (f 3), (let Y 1 X): the call has entered its frame and bound X
      when it throws, nothing takes that back, and the let finds 3 where the chain has the symbol. */
  lemma ThrowLeavesParameter(l: Lex, x: nat, y: nat, three: Value, one: Value)
    requires Stamped(l) && Coherent(l, Root) && l.epoch < MAX_EPOCH && x != y
    ensures Full(EnterFrame(l))
    ensures var thrown := BindSlot(EnterFrame(l), x, three);
      && Full(thrown) && Stamped(thrown) && !Coherent(thrown, Root)
      && var next, env := BindSlot(thrown, y, one), Extend(Root, [y], [one]);
         Full(next) && LookupIn(next, env, x) == Some(three) && VariableValue(env, x) == Symbol(x)
  {
    var thrown, env := BindSlot(EnterFrame(l), x, three), Extend(Root, [y], [one]);
    WalkOneMore(Root, [], [], y, one, x);
    assert [] + [y] == [y] && [] + [one] == [one];
    assert Cached(thrown, x) && Walk(Root, x) == None;
  }
}
