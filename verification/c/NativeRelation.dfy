/** How values, worlds and results of generated code stand for those of the program. They differ
    in closures only: a native closure holds the captured values instead of the environment. */
module NativeRelation {
  import opened Options
  import opened KlSyntax
  import opened KlMeaning
  import opened NativeCode
  import opened Emission
  import opened Acceptance

  /** A compiled program; notes and starts record where each function came from. */
  datatype Build = Build(code: Code, notes: map<nat, Note>, starts: map<string, Counters>)

  datatype Setup = Setup(p: Program, b: Build, pr: Prims)

  predicate Holds(b: Build, g: Generated) {
    match g
    case LambdaCode(id, f, note) => id in b.code.lambdas && b.code.lambdas[id] == f && id in b.notes && b.notes[id] == note
    case BodyCode(id, f) => id in b.code.bodies && b.code.bodies[id] == f
    case HandlerCode(id, f) => id in b.code.handlers && b.code.handlers[id] == f
  }

  ghost predicate Contains(b: Build, fns: seq<Generated>) {
    forall i :: 0 <= i < |fns| ==> Holds(b, fns[i])
  }

  lemma ContainsParts(b: Build, f: seq<Generated>, g: seq<Generated>)
    requires Contains(b, f + g)
    ensures Contains(b, f) && Contains(b, g)
  {
    forall i | 0 <= i < |f|
      ensures Holds(b, f[i])
    {
      assert (f + g)[i] == f[i];
    }
    forall i | 0 <= i < |g|
      ensures Holds(b, g[i])
    {
      assert (f + g)[|f| + i] == g[i];
    }
  }

  /** All temporaries of a scope were made before number n. */
  ghost predicate Below(binds: seq<Bound>, n: nat) {
    forall i :: 0 <= i < |binds| ==> binds[i].temp.T? && binds[i].temp.n < n
  }

  ghost predicate ClosureOk(b: Build, id: nat)
    requires id in b.notes
  {
    var n := b.notes[id];
    var body := EmitClosureBody(n);
    && Below(n.binds, n.k.temp) && |n.params| <= 1
    && body.Out? && Contains(b, body.fns)
    && id in b.code.lambdas && b.code.lambdas[id] == ClosureFunction(n, body)
  }

  ghost predicate DefunOk(p: Program, b: Build, name: string)
    requires name in p && name in b.starts
  {
    Ordinary(name, p[name]) &&
    var body := EmitDefun(name, p[name], b.starts[name]);
    && body.Out? && Contains(b, body.fns)
    && name in b.code.defuns && b.code.defuns[name] == DefunFunction(p[name], b.starts[name], body)
  }

  /** Every function of the code was generated from the program, and the C compiler accepts it. */
  ghost predicate Built(p: Program, b: Build) {
    && p.Keys == b.code.defuns.Keys == b.starts.Keys
    && (forall name :: name in p ==> DefunOk(p, b, name))
    && (forall id :: id in b.notes ==> ClosureOk(b, id))
    && AcceptedCode(b.code)
  }

  // Values --------------------------------------------------------------------------------------

  ghost predicate SameScope(env: seq<Binding>, binds: seq<Bound>) {
    forall name :: ValueOf(env, name).Some? <==> TempOf(binds, name).Some?
  }

  ghost predicate Rel(b: Build, s: Value, t: Value)
    decreases s
  {
    match s
    case Pair(head, tail) => t.Pair? && Rel(b, head, t.head) && Rel(b, tail, t.tail)
    case Partial(f, args) =>
      t.Partial? && Rel(b, f, t.f) && |args| == |t.args| && forall i :: 0 <= i < |args| ==> Rel(b, args[i], t.args[i])
    case SourceClosure(params, body, env) =>
      && t.NativeClosure? && t.arity == |params| && t.id in b.notes
      && b.notes[t.id].params == params && b.notes[t.id].body == body
      && SameScope(env, b.notes[t.id].binds)
      && var names := Captures(params, body, b.notes[t.id].binds);
         |t.captures| == |names|
         && forall i :: 0 <= i < |names| ==> Position(env, names[i]) < |env| && Rel(b, env[Position(env, names[i])].value, t.captures[i])
    case NativeClosure(_, _, _) => false
    case _ => s == t
  }

  ghost predicate RelAll(b: Build, s: seq<Value>, t: seq<Value>) {
    |s| == |t| && forall i :: 0 <= i < |s| ==> Rel(b, s[i], t[i])
  }

  /** The cells of the program's own functions and of the inlined primitives are never changed. */
  ghost predicate Stable(p: Program, w: World) {
    && (forall name :: name in p ==> name in w.funs && w.funs[name] == Fun.Defined(name))
    && (forall name :: InlineArity(name) > 0 ==> name in w.funs && w.funs[name] == Primitive(name, InlineArity(name)))
  }

  ghost predicate RelWorld(x: Setup, s: World, t: World) {
    && s.funs == t.funs && s.vals.Keys == t.vals.Keys && Stable(x.p, s)
    && forall name :: name in s.vals ==> Rel(x.b, s.vals[name], t.vals[name])
  }

  ghost predicate RelOutcome(b: Build, s: Outcome, t: Outcome) {
    match s
    case Done(v) => t.Done? && Rel(b, v, t.value)
    case Thrown(e) => t.Thrown? && Rel(b, e, t.error)
    case Exhausted => t.Exhausted?
    case Stuck => false
  }

  ghost predicate RelResult(x: Setup, s: Result, t: Result) {
    RelOutcome(x.b, s.outcome, t.outcome) && RelWorld(x, s.world, t.world)
  }

  /** The runtime's primitives do not look inside closures, and leave the cells above alone. */
  ghost predicate Parametric(x: Setup) {
    forall name, s, t, ws, wt :: RelAll(x.b, s, t) && RelWorld(x, ws, wt) ==> RelResult(x, x.pr(name, s, ws), x.pr(name, t, wt))
  }

  ghost predicate Ready(x: Setup) {
    Built(x.p, x.b) && Parametric(x)
  }

  /** Every name in scope whose temporary is defined here has a related value. */
  ghost predicate Matches(b: Build, env: seq<Binding>, binds: seq<Bound>, temps: Temps) {
    && SameScope(env, binds)
    && forall name :: TempOf(binds, name).Some? && TempOf(binds, name).value in temps
         ==> Rel(b, ValueOf(env, name).value, temps[TempOf(binds, name).value])
  }

  /** The temporaries before number n are as they were. */
  ghost predicate Kept(temps: Temps, temps': Temps, n: nat) {
    && (forall i: nat :: i < n ==> (T(i) in temps <==> T(i) in temps') && (T(i) in temps ==> temps[T(i)] == temps'[T(i)]))
    && (Exception in temps <==> Exception in temps') && (Exception in temps ==> temps[Exception] == temps'[Exception])
  }

  /** The function that a self tail call starts again is the one being run. */
  ghost predicate SelfOk(x: Setup, self: Option<Self>, k: Counters) {
    self.Some? ==>
      && self.value.name in x.p && self.value.name in x.b.code.defuns
      && x.b.code.defuns[self.value.name].params == self.value.params && x.b.code.defuns[self.value.name].captures == []
      && |x.p[self.value.name].params| == |self.value.params|
      && forall i :: 0 <= i < |self.value.params| ==> self.value.params[i].T? && self.value.params[i].n < k.temp
  }

  /** How a run of generated statements for an expression ends, given what the expression means. */
  ghost predicate Agrees(x: Setup, s: Result, f: Flow, t: Temp, temps: Temps, n: nat, self: Option<Self>, tail: bool, fuel: nat) {
    match f
    case Go(temps', w, None) =>
      && s.outcome.Done? && (t in temps' ==> Rel(x.b, s.outcome.value, temps'[t])) && RelWorld(x, s.world, w)
      && Kept(temps, temps', n)
    case Go(temps', w, Some(call)) =>
      tail && t in temps' && RelResult(x, s, NativeCode.Apply(x.b.code, x.pr, call.f, call.args, w, fuel))
    case Jump(temps', w) =>
      && tail && self.Some? && self.value.name in x.b.code.defuns
      && RelResult(x, s, Again(x, self.value.name, temps', w, fuel))
    case End(r) => !s.outcome.Done? && RelResult(x, s, r)
  }

  function Again(x: Setup, name: string, temps: Temps, w: World, fuel: nat): Result
    requires name in x.b.code.defuns
  {
    if fuel == 0 then Result(Exhausted, w) else Loop(x.b.code, x.pr, x.b.code.defuns[name], temps, w, fuel - 1)
  }
}
