/** The reference meaning of the tree-walking evaluator (src/c/evaluator.c): every variable is
    looked up by walking its environment chain. fuel is the nesting depth that the C stack has
    room for; a run that needs more is Exhausted. */
module ChainEvaluator {
  import opened Options
  import opened Lexical

  datatype Fun =
    | User(params: seq<nat>, body: Expr)
    | Primitive(name: nat, arity: nat)

  /** What a run can change: the function table, the counter of generated symbols, and the calls
      of primitives made so far. */
  datatype World = World(funs: map<nat, Fun>, gensym: nat, calls: seq<(nat, seq<Value>)>)

  datatype Outcome<+T> = Done(value: T) | Thrown(error: Value) | Exhausted

  datatype Result<+T> = Result(outcome: Outcome<T>, world: World)

  /** A primitive is given the world with its own call recorded. */
  type Primitives = (World, nat, seq<Value>) -> Result<Value>

  const UNDEFINED: Value := Data(0)
  const NOT_BOOLEAN: Value := Data(1)
  const NOT_FUNCTION: Value := Data(2)
  const WRONG_ARGUMENTS: Value := Data(3)

  function Arity(f: Fun): nat {
    match f
    case User(params, _) => |params|
    case Primitive(_, arity) => arity
  }

  /** At the global environment a symbol is not looked up at all. */
  function VariableValue(env: Env, id: nat): Value {
    if env.Frame? && Walk(env, id).Some? then Walk(env, id).value else Symbol(id)
  }

  /** ((f a) b) ... for the arguments from i on (create_kl_list_partial_function_application). */
  function Nest(f: Expr, args: seq<Expr>): Expr
    decreases |args|
  {
    if |args| == 0 then f else Nest(Apply(f, [args[0]]), args[1..])
  }

  /** The body under the i-th of n generated parameters: (lambda g_i ... (head g_0 ... g_n-1)). */
  function Curried(head: Expr, first: nat, n: nat, i: nat): Expr
    requires i <= n
    decreases n - i
  {
    if i == n then Apply(head, seq(n, k requires 0 <= k < n => Var(first + k)))
    else Lambda(first + i, Curried(head, first, n, i + 1))
  }

  /** The closure that stands for a function applied to too few or too many arguments. */
  function PartialClosure(head: Expr, arity: nat, env: Env, w: World): Value
    requires arity > 0
  {
    Closure([w.gensym], Curried(head, w.gensym, arity, 1), env)
  }

  function Failed<S, T>(r: Result<S>): Result<T>
    requires !r.outcome.Done?
  {
    match r.outcome
    case Thrown(error) => Result(Thrown(error), r.world)
    case Exhausted => Result(Exhausted, r.world)
  }

  function Eval(prims: Primitives, e: Expr, env: Env, w: World, fuel: nat): Result<Value>
    decreases fuel, 5, 0
  {
    if fuel == 0 then Result(Exhausted, w) else
    match e
    case Const(v) => Result(Done(v), w)
    case Var(id) => Result(Done(VariableValue(env, id)), w)
    case Let(id, bound, body) =>
      var a := Eval(prims, bound, env, w, fuel - 1);
      if !a.outcome.Done? then a
      else Eval(prims, body, Extend(env, [id], [a.outcome.value]), a.world, fuel - 1)
    case If(test, yes, no) =>
      var t := Eval(prims, test, env, w, fuel - 1);
      if !t.outcome.Done? then t
      else if !t.outcome.value.Boolean? then Result(Thrown(NOT_BOOLEAN), t.world)
      else Eval(prims, if t.outcome.value.b then yes else no, env, t.world, fuel - 1)
    case Lambda(id, body) => Result(Done(Closure([id], body, env)), w)
    case Freeze(body) => Result(Done(Closure([], body, env)), w)
    case Trap(body, handler) =>
      var b := Eval(prims, body, env, w, fuel - 1);
      if b.outcome.Thrown? then Handle(prims, handler, b.outcome.error, env, b.world, fuel) else b
    case Apply(head, args) => ApplyHead(prims, head, args, env, w, fuel)
  }

  /** A head symbol with a global function is not looked up lexically. */
  function ApplyHead(prims: Primitives, head: Expr, args: seq<Expr>, env: Env, w: World, fuel: nat): Result<Value>
    requires fuel > 0
    decreases fuel, 4, 0
  {
    if head.Var? && head.id in w.funs then ApplyNamed(prims, head, w.funs[head.id], args, env, w, fuel)
    else
      var h := Eval(prims, head, env, w, fuel - 1);
      if !h.outcome.Done? then h else ApplyValue(prims, head, h.outcome.value, args, env, h.world, fuel)
  }

  function ApplyValue(prims: Primitives, head: Expr, f: Value, args: seq<Expr>, env: Env, w: World, fuel: nat): Result<Value>
    requires fuel > 0
    decreases fuel, 3, 0
  {
    match f
    case Symbol(id) =>
      if id in w.funs then ApplyNamed(prims, head, w.funs[id], args, env, w, fuel) else Result(Thrown(UNDEFINED), w)
    case Closure(_, _, _) => ApplyClosure(prims, f, args, env, w, fuel)
    case _ => Result(Thrown(NOT_FUNCTION), w)
  }

  function ApplyNamed(prims: Primitives, head: Expr, f: Fun, args: seq<Expr>, env: Env, w: World, fuel: nat): Result<Value>
    requires fuel > 0
    decreases fuel, 2, 0
  {
    if |args| == Arity(f) then
      var a := EvalArgs(prims, args, env, w, fuel);
      if !a.outcome.Done? then Failed(a) else CallFunction(prims, f, a.outcome.value, a.world, fuel)
    else if Arity(f) == 0 then Eval(prims, Nest(Apply(head, []), args), env, w, fuel - 1)
    else
      var closure := PartialClosure(head, Arity(f), env, w);
      var w' := w.(gensym := w.gensym + Arity(f));
      if |args| == 0 then Result(Done(closure), w') else Eval(prims, Nest(Const(closure), args), env, w', fuel - 1)
  }

  function ApplyClosure(prims: Primitives, f: Value, args: seq<Expr>, env: Env, w: World, fuel: nat): Result<Value>
    requires fuel > 0 && f.Closure?
    decreases fuel, 2, 0
  {
    if |args| > 1 then Eval(prims, Nest(Const(f), args), env, w, fuel - 1)
    else
      var a := EvalArgs(prims, args, env, w, fuel);
      if !a.outcome.Done? then Failed(a) else EnterClosure(prims, f, a.outcome.value, a.world, fuel)
  }

  /** A user function runs over the global environment, a closure over its own. */
  function CallFunction(prims: Primitives, f: Fun, values: seq<Value>, w: World, fuel: nat): Result<Value>
    requires fuel > 0 && |values| == Arity(f)
    decreases fuel, 0, 0
  {
    match f
    case User(params, body) => Eval(prims, body, Extend(Root, params, values), w, fuel - 1)
    case Primitive(name, _) => prims(w.(calls := w.calls + [(name, values)]), name, values)
  }

  function EnterClosure(prims: Primitives, f: Value, values: seq<Value>, w: World, fuel: nat): Result<Value>
    requires fuel > 0 && f.Closure?
    decreases fuel, 0, 0
  {
    if |values| != |f.params| then Result(Thrown(WRONG_ARGUMENTS), w)
    else Eval(prims, f.body, Extend(f.env, f.params, values), w, fuel - 1)
  }

  /** The handler is evaluated in the environment of the trap-error form. */
  function Handle(prims: Primitives, handler: Expr, error: Value, env: Env, w: World, fuel: nat): Result<Value>
    requires fuel > 0
    decreases fuel, 2, 0
  {
    var h := Eval(prims, handler, env, w, fuel - 1);
    if !h.outcome.Done? then h
    else if h.outcome.value.Closure? then EnterClosure(prims, h.outcome.value, [error], h.world, fuel)
    else if !h.outcome.value.Symbol? then Result(Thrown(NOT_FUNCTION), h.world)
    else if h.outcome.value.id !in h.world.funs then Result(Thrown(UNDEFINED), h.world)
    else
      var f := h.world.funs[h.outcome.value.id];
      if Arity(f) == 1 then CallFunction(prims, f, [error], h.world, fuel)
      else prims(h.world.(calls := h.world.calls + [(h.outcome.value.id, [error])]), h.outcome.value.id, [error])
  }

  function EvalArgs(prims: Primitives, args: seq<Expr>, env: Env, w: World, fuel: nat): (r: Result<seq<Value>>)
    requires fuel > 0
    ensures r.outcome.Done? ==> |r.outcome.value| == |args|
    decreases fuel, 1, |args|
  {
    if |args| == 0 then Result(Done([]), w) else
    var a := Eval(prims, args[0], env, w, fuel - 1);
    if !a.outcome.Done? then Failed(a) else Prepend([a.outcome.value], EvalArgs(prims, args[1..], env, a.world, fuel))
  }

  function Prepend(done: seq<Value>, rest: Result<seq<Value>>): Result<seq<Value>> {
    if rest.outcome.Done? then Result(Done(done + rest.outcome.value), rest.world) else rest
  }
}
