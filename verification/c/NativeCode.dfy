/** Generated code (src/c/emit.c) and how C runs it. Temporaries live in blocks: what a branch of
    an if declares is gone after it. A tail call leaves a pending application and a null result. */
module NativeCode {
  import opened Options
  import opened KlSyntax

  /** t<n>; the copies n<t>_<i> of a self tail call; the exception parameter of a handler. */
  datatype Temp = T(n: nat) | Copy(t: nat, i: nat) | Exception

  datatype Rhs =
    | Literal(value: Value)
    | Intern(name: string)
    | Move(from: Temp)
    | Direct(name: string, args: seq<Temp>)
    | TailDirect(name: string, args: seq<Temp>)
    | Indirect(head: Temp, args: seq<Temp>)
    | TailIndirect(head: Temp, args: seq<Temp>)
    | Inline(name: string, args: seq<Temp>)
    | MakeClosure(id: nat, arity: nat, captures: seq<Temp>)
    | Trap(id: nat, captures: seq<Temp>)

  datatype Stmt =
    | Set(t: Temp, rhs: Rhs)
    | Check(test: Temp, error: Value)
    | If(t: Temp, test: Temp, error: Value, yes: seq<Stmt>, yesT: Temp, no: seq<Stmt>, noT: Temp)
    | Fail(error: Value)
    | Goto

  /** A generated C function: where captures and parameters are stored, the body, the result. */
  datatype Function = Function(captures: seq<Temp>, params: seq<Temp>, body: seq<Stmt>, result: Temp)

  /** lambda_<id>, trap_body_<id>, trap_handler_<id> and native_<name>. */
  datatype Code = Code(lambdas: map<nat, Function>, bodies: map<nat, Function>, handlers: map<nat, Function>, defuns: map<string, Function>)

  type Temps = map<Temp, Value>

  datatype Pending = Pending(f: Value, args: seq<Value>)

  datatype Flow =
    | Go(temps: Temps, world: World, pending: Option<Pending>)
    | Jump(temps: Temps, world: World)
    | End(result: Result)

  predicate AllDefined(temps: Temps, ts: seq<Temp>) {
    forall i :: 0 <= i < |ts| ==> ts[i] in temps
  }

  function Values(temps: Temps, ts: seq<Temp>): seq<Value>
    requires AllDefined(temps, ts)
  {
    seq(|ts|, i requires 0 <= i < |ts| => temps[ts[i]])
  }

  function Store(temps: Temps, ts: seq<Temp>, values: seq<Value>): Temps
    requires |ts| == |values|
    decreases |ts|
  {
    if |ts| == 0 then temps else Store(temps[ts[0] := values[0]], ts[1..], values[1..])
  }

  function Operands(rhs: Rhs): seq<Temp> {
    match rhs
    case Move(from) => [from]
    case Direct(_, args) => args
    case TailDirect(_, args) => args
    case Indirect(head, args) => [head] + args
    case TailIndirect(head, args) => [head] + args
    case Inline(_, args) => args
    case MakeClosure(_, _, captures) => captures
    case Trap(_, captures) => captures
    case _ => []
  }

  function Stops(w: World): Flow {
    End(Result(Stuck, w))
  }

  function Exec(c: Code, pr: Prims, stmts: seq<Stmt>, temps: Temps, w: World, fuel: nat): Flow
    decreases fuel, 3, stmts
  {
    if |stmts| == 0 then Go(temps, w, None)
    else
      var f := Step(c, pr, stmts[0], temps, w, fuel);
      if !f.Go? || |stmts| == 1 then f
      else if f.pending.Some? then Stops(f.world)
      else Exec(c, pr, stmts[1..], f.temps, f.world, fuel)
  }

  function Step(c: Code, pr: Prims, s: Stmt, temps: Temps, w: World, fuel: nat): Flow
    decreases fuel, 3, s
  {
    match s
    case Set(t, rhs) => if AllDefined(temps, Operands(rhs)) then Assign(c, pr, t, rhs, temps, w, fuel) else Stops(w)
    case Check(test, error) =>
      if test !in temps then Stops(w)
      else if temps[test].Truth? then Go(temps, w, None)
      else End(Result(Thrown(error), w))
    case If(t, test, error, yes, yesT, no, noT) =>
      if test !in temps then Stops(w)
      else if !temps[test].Truth? then End(Result(Thrown(error), w))
      else if temps[test].b then Branch(t, yesT, Exec(c, pr, yes, temps, w, fuel), temps)
      else Branch(t, noT, Exec(c, pr, no, temps, w, fuel), temps)
    case Fail(error) => End(Result(Thrown(error), w))
    case Goto => Jump(temps, w)
  }

  /** The assignment at the end of a branch; the temporaries of the branch are gone. */
  function Branch(t: Temp, from: Temp, f: Flow, temps: Temps): Flow {
    if !f.Go? then f
    else if from !in f.temps then Stops(f.world)
    else Go(temps[t := f.temps[from]], f.world, f.pending)
  }

  function Give(t: Temp, r: Result, temps: Temps): Flow {
    if r.outcome.Done? then Go(temps[t := r.outcome.value], r.world, None) else End(r)
  }

  function Assign(c: Code, pr: Prims, t: Temp, rhs: Rhs, temps: Temps, w: World, fuel: nat): Flow
    requires AllDefined(temps, Operands(rhs))
    decreases fuel, 2
  {
    match rhs
    case Literal(v) => Go(temps[t := v], w, None)
    case Intern(name) => Go(temps[t := Symbol(name)], w, None)
    case Move(from) => Go(temps[t := temps[Operands(rhs)[0]]], w, None)
    case Direct(name, args) => Give(t, Apply(c, pr, Symbol(name), Values(temps, Operands(rhs)), w, fuel), temps)
    case TailDirect(name, args) => Go(temps[t := Null], w, Some(Pending(Symbol(name), Values(temps, Operands(rhs)))))
    case Indirect(_, _) =>
      var vs := Values(temps, Operands(rhs));
      Give(t, Apply(c, pr, vs[0], vs[1..], w, fuel), temps)
    case TailIndirect(_, _) =>
      var vs := Values(temps, Operands(rhs));
      Go(temps[t := Null], w, Some(Pending(vs[0], vs[1..])))
    case Inline(name, args) =>
      if fuel == 0 then End(Result(Exhausted, w)) else Give(t, pr(name, Values(temps, Operands(rhs)), w), temps)
    case MakeClosure(id, arity, captures) => Go(temps[t := NativeClosure(id, arity, Values(temps, Operands(rhs)))], w, None)
    case Trap(id, captures) => Give(t, TrapError(c, pr, id, Values(temps, Operands(rhs)), w, fuel), temps)
  }

  /** shen_trap_error with the functions generated for one trap-error form. */
  function TrapError(c: Code, pr: Prims, id: nat, captures: seq<Value>, w: World, fuel: nat): Result
    decreases fuel, 1
  {
    if fuel == 0 then Result(Exhausted, w)
    else if id !in c.bodies || id !in c.handlers then Result(Stuck, w)
    else
      var b := Call(c, pr, c.bodies[id], captures, [], w, fuel - 1);
      if b.outcome.Thrown? then Call(c, pr, c.handlers[id], captures, [b.outcome.error], b.world, fuel - 1) else b
  }

  /** One activation of a generated function; its pending tail call is run by the trampoline. */
  function Call(c: Code, pr: Prims, f: Function, captures: seq<Value>, args: seq<Value>, w: World, fuel: nat): Result
    decreases fuel, 5
  {
    if |captures| != |f.captures| || |args| != |f.params| then Result(Stuck, w)
    else Loop(c, pr, f, Store(Store(map[], f.captures, captures), f.params, args), w, fuel)
  }

  function Loop(c: Code, pr: Prims, f: Function, temps: Temps, w: World, fuel: nat): Result
    decreases fuel, 4
  {
    var flow := Exec(c, pr, f.body, temps, w, fuel);
    match flow
    case End(r) => r
    case Jump(temps', w') => if fuel == 0 then Result(Exhausted, w') else Loop(c, pr, f, temps', w', fuel - 1)
    case Go(temps', w', Some(call)) => Apply(c, pr, call.f, call.args, w', fuel)
    case Go(temps', w', None) => if f.result in temps' then Result(Done(temps'[f.result]), w') else Result(Stuck, w')
  }

  function Arity(c: Code, f: Value): Option<nat> {
    match f
    case Cell(Primitive(_, arity)) => Some(arity)
    case Cell(Defined(name)) => if name in c.defuns then Some(|c.defuns[name].params|) else None
    case NativeClosure(_, arity, _) => Some(arity)
    case Partial(g, args) =>
      var arity := Arity(c, g);
      if arity.Some? && |args| <= arity.value then Some(arity.value - |args|) else None
    case _ => None
  }

  function Apply(c: Code, pr: Prims, f: Value, args: seq<Value>, w: World, fuel: nat): Result
    decreases fuel, 0, 1
  {
    if fuel == 0 then Result(Exhausted, w)
    else
      var g := Resolve(f, w);
      var arity := Arity(c, g);
      if arity.None? then Result(Thrown(APPLY_ERROR), w)
      else if |args| < arity.value then Result(Done(Partial(g, args)), w)
      else if |args| == arity.value then Enter(c, pr, g, args, w, fuel)
      else
        var first := Enter(c, pr, g, args[..arity.value], w, fuel);
        if !first.outcome.Done? then first else Apply(c, pr, first.outcome.value, args[arity.value..], first.world, fuel - 1)
  }

  function Enter(c: Code, pr: Prims, g: Value, args: seq<Value>, w: World, fuel: nat): Result
    requires fuel > 0 && Arity(c, g) == Some(|args|)
    decreases fuel, 0, 0
  {
    match g
    case Cell(Primitive(name, _)) => pr(name, args, w)
    case Cell(Defined(name)) => Call(c, pr, c.defuns[name], [], args, w, fuel - 1)
    case NativeClosure(id, _, captures) =>
      if id in c.lambdas then Call(c, pr, c.lambdas[id], captures, args, w, fuel - 1) else Result(Stuck, w)
    case Partial(f, prefix) => Apply(c, pr, f, prefix + args, w, fuel - 1)
  }
}
