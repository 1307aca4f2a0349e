/** What application means in src/c/abi.c, without the trampoline: a tail call is simply the next
    application. Compiled code is a function from the results it has had so far to its next
    action; the world is what actions can read and change besides. */
module DirectApply {
  import opened Options

  datatype Value = Null | Symbol(id: nat) | Function(f: Fun) | Data(n: nat)

  /** A generated native function, a function that the tree walker runs (also the C code of a
      trapped body or handler), and a partial application made by apply_dispatch. */
  datatype Fun =
    | Native(code: nat, arity: nat, captures: seq<Value>)
    | Walked(code: nat, arity: nat, captures: seq<Value>)
    | Partial(target: Fun, prefix: seq<Value>)

  datatype Action =
    | Return(value: Value)
    | Throw(error: Value)
    | Call(f: Value, args: seq<Value>)
    | TailCall(f: Value, args: seq<Value>)
    | Effect(op: nat)
    | Trap(body: nat, handler: Option<nat>, data: seq<Value>)

  datatype World = World(funs: map<nat, Fun>, log: seq<nat>)

  datatype Machine = Machine(code: (Fun, seq<Value>, seq<Value>) -> Action, effect: (World, nat) -> (Value, World))

  datatype Outcome<+T> = Done(value: T) | Thrown(error: Value) | Exhausted

  /** How a body ends when it does not throw. */
  datatype Final = Finished(v: Value) | Tail(f: Value, args: seq<Value>)

  /** left is the fuel that a following tail call has; nesting is the greatest number of
      applications that are active at once, tail calls replacing their caller. */
  datatype Result<+T> = Result(outcome: Outcome<T>, world: World, left: nat, nesting: nat)

  const NOT_APPLICABLE: Value := Data(0)

  function Arity(f: Fun): nat {
    match f
    case Native(_, arity, _) => arity
    case Walked(_, arity, _) => arity
    case Partial(target, prefix) => if |prefix| <= Arity(target) then Arity(target) - |prefix| else 0
  }

  function Resolve(f: Value, w: World): Option<Fun> {
    match f
    case Function(g) => Some(g)
    case Symbol(id) => if id in w.funs then Some(w.funs[id]) else None
    case _ => None
  }

  function Max(a: nat, b: nat): nat {
    if a < b then b else a
  }

  function AtLeast<T>(r: Result<T>, n: nat): Result<T> {
    r.(nesting := Max(n, r.nesting))
  }

  function Deeper<T>(r: Result<T>): Result<T> {
    r.(nesting := 1 + r.nesting)
  }

  function Failed<S, T>(r: Result<S>): Result<T>
    requires !r.outcome.Done?
  {
    Result(match r.outcome case Thrown(e) => Thrown(e) case Exhausted => Exhausted, r.world, r.left, r.nesting)
  }

  function Plain(r: Result<Value>, left: nat): Result<Final> {
    if r.outcome.Done? then Result(Done(Finished(r.outcome.value)), r.world, left, r.nesting) else Failed(r)
  }

  /** f applied to any number of arguments, tail calls followed. */
  function Direct(m: Machine, f: Value, args: seq<Value>, w: World, fuel: nat): (r: Result<Value>)
    ensures r.nesting >= 1
    decreases fuel, 6
  {
    Follow(m, Dispatch(m, f, args, w, fuel), fuel)
  }

  function Follow(m: Machine, r: Result<Final>, fuel: nat): (r': Result<Value>)
    requires r.outcome.Done? ==> r.left < fuel
    requires r.nesting >= 1
    ensures r'.nesting >= 1
    decreases fuel, 0
  {
    if !r.outcome.Done? then Failed(r)
    else match r.outcome.value
      case Finished(v) => Result(Done(v), r.world, r.left, r.nesting)
      case Tail(g, bs) => AtLeast(Direct(m, g, bs, r.world, r.left), r.nesting)
  }

  /** One application up to its own end: too few arguments make a partial function, too many are
      kept for the value of the application to the right number. */
  function Dispatch(m: Machine, f: Value, args: seq<Value>, w: World, fuel: nat): (r: Result<Final>)
    ensures r.nesting >= 1
    ensures r.outcome.Done? ==> r.left < fuel
    decreases fuel, 5
  {
    if fuel == 0 then Result(Exhausted, w, 0, 1)
    else match Resolve(f, w)
      case None => Result(Thrown(NOT_APPLICABLE), w, 0, 1)
      case Some(g) =>
        if |args| < Arity(g) then Result(Done(Finished(Function(Partial(g, args)))), w, fuel - 1, 1)
        else if |args| == Arity(g) then Exact(m, g, args, w, fuel)
        else Surplus(m, g, args, w, fuel)
  }

  function Surplus(m: Machine, g: Fun, args: seq<Value>, w: World, fuel: nat): (r: Result<Final>)
    requires fuel > 0 && |args| > Arity(g)
    ensures r.nesting >= 1
    ensures r.outcome.Done? ==> r.left < fuel
    decreases fuel, 4
  {
    var first := Settle(m, Exact(m, g, args[..Arity(g)], w, fuel), fuel);
    if !first.outcome.Done? then Failed(first)
    else AtLeast(Plain(Deeper(Direct(m, first.outcome.value, args[Arity(g)..], first.world, fuel - 1)), fuel - 1), first.nesting)
  }

  /** A pending tail call is applied at once, within the running application. */
  function Settle(m: Machine, r: Result<Final>, fuel: nat): (r': Result<Value>)
    requires r.outcome.Done? ==> r.left < fuel
    requires r.nesting >= 1
    ensures r'.nesting >= 1
    decreases fuel, 0
  {
    if !r.outcome.Done? then Failed(r)
    else match r.outcome.value
      case Finished(v) => Result(Done(v), r.world, r.left, r.nesting)
      case Tail(g, bs) => AtLeast(Deeper(Direct(m, g, bs, r.world, r.left)), r.nesting)
  }

  /** As many arguments as the function wants (apply_exact, native_partial). */
  function Exact(m: Machine, g: Fun, args: seq<Value>, w: World, fuel: nat): (r: Result<Final>)
    requires fuel > 0 && |args| == Arity(g)
    ensures r.nesting >= 1
    ensures r.outcome.Done? ==> r.left < fuel
    decreases fuel, 3
  {
    match g
    case Partial(target, prefix) => Plain(Deeper(Direct(m, Function(target), prefix + args, w, fuel - 1)), fuel - 1)
    case _ => Run(m, g, args, [], w, fuel)
  }

  /** A body from its next action on. Only generated native code ends in a tail call; the tree
      walker and trapped code apply and return the value. */
  function Run(m: Machine, g: Fun, args: seq<Value>, results: seq<Value>, w: World, fuel: nat): (r: Result<Final>)
    ensures r.nesting >= 1
    ensures r.outcome.Done? ==> r.left < fuel
    ensures r.outcome.Done? && !g.Native? ==> r.outcome.value.Finished?
    decreases fuel, 2
  {
    if fuel == 0 then Result(Exhausted, w, 0, 1)
    else match m.code(g, args, results)
      case Return(v) => Result(Done(Finished(v)), w, fuel - 1, 1)
      case Throw(e) => Result(Thrown(e), w, 0, 1)
      case TailCall(f, bs) =>
        if g.Native? then Result(Done(Tail(f, bs)), w, fuel - 1, 1)
        else Plain(Deeper(Direct(m, f, bs, w, fuel - 1)), fuel - 1)
      case action => Resume(m, g, args, results, Perform(m, action, w, fuel), fuel)
  }

  /** The value of an action that the body goes on from. */
  function Perform(m: Machine, action: Action, w: World, fuel: nat): (r: Result<Value>)
    requires fuel > 0 && (action.Effect? || action.Call? || action.Trap?)
    ensures r.nesting >= 1
    decreases fuel, 1
  {
    match action
    case Effect(op) => var (v, w') := m.effect(w, op); Result(Done(v), w', 0, 1)
    case Call(f, args) => Deeper(Direct(m, f, args, w, fuel - 1))
    case Trap(body, handler, data) => Guarded(m, body, handler, data, w, fuel)
  }

  /** The rest of a body once an action has a value. */
  function Resume(m: Machine, g: Fun, args: seq<Value>, results: seq<Value>, r: Result<Value>, fuel: nat): (r': Result<Final>)
    requires fuel > 0
    requires r.nesting >= 1
    ensures r'.nesting >= 1
    ensures r'.outcome.Done? ==> r'.left < fuel
    ensures r'.outcome.Done? && !g.Native? ==> r'.outcome.value.Finished?
    decreases fuel, 0
  {
    if !r.outcome.Done? then Failed(r)
    else AtLeast(Run(m, g, args, results + [r.outcome.value], r.world, fuel - 1), r.nesting)
  }

  /** shen_trap_error: the handler gets the error and the same data. */
  function Guarded(m: Machine, body: nat, handler: Option<nat>, data: seq<Value>, w: World, fuel: nat): (r: Result<Value>)
    requires fuel > 0
    ensures r.nesting >= 1
    decreases fuel, 0
  {
    var b := Run(m, Walked(body, |data|, []), data, [], w, fuel - 1);
    match b.outcome
    case Done(v) => Result(Done(v.v), b.world, b.left, b.nesting)
    case Exhausted => Failed(b)
    case Thrown(e) =>
      if handler.None? then Result(Done(e), b.world, 0, b.nesting)
      else
        var h := Run(m, Walked(handler.value, 1 + |data|, []), [e] + data, [], b.world, fuel - 1);
        if h.outcome.Done? then Result(Done(h.outcome.value.v), h.world, h.left, Max(b.nesting, h.nesting))
        else AtLeast(Failed(h), b.nesting)
  }
}
