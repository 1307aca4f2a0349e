/** What a KLambda program means: environments map names to values, a lexically bound head shadows
    a global function, and the cell of a named function is read after its arguments. fuel bounds
    the depth of applications. */
module KlMeaning {
  import opened Options
  import opened KlSyntax

  type Program = map<string, Defun>

  function HeadBound(items: seq<Kl>, env: seq<Binding>): bool
    requires |items| > 0
  {
    items[0].Sym? && ValueOf(env, items[0].name).Some?
  }

  function Eval(p: Program, pr: Prims, e: Kl, env: seq<Binding>, w: World, fuel: nat): Result
    decreases fuel, 1, Size(e), 0
  {
    match e
    case Sym(name) => Result(Done(if ValueOf(env, name).Some? then ValueOf(env, name).value else Symbol(name)), w)
    case Bool(_) => Result(Done(Constant(e)), w)
    case Lit(_) => Result(Done(Constant(e)), w)
    case List(items) =>
      if |items| == 0 then Result(Done(Nil), w)
      else
        PartsAreSmaller(items, HeadBound(items, env));
        EvalForm(p, pr, FormOf(items, HeadBound(items, env)), env, w, fuel)
  }

  function EvalForm(p: Program, pr: Prims, form: Form, env: seq<Binding>, w: World, fuel: nat): Result
    requires form.CondForm? ==> AreCases(form.cases)
    decreases fuel, 1, FormSize(form), 1
  {
    match form
    case IfForm(test, yes, no) => EvalIf(p, pr, test, yes, no, env, w, fuel)
    case AndForm(left, right) => EvalBoth(p, pr, left, right, true, env, w, fuel)
    case OrForm(left, right) => EvalBoth(p, pr, left, right, false, env, w, fuel)
    case CondForm(cases) => EvalCases(p, pr, cases, env, w, fuel)
    case LetForm(name, bound, body) =>
      var v := Eval(p, pr, bound, env, w, fuel);
      if !v.outcome.Done? then v else Eval(p, pr, body, env + [Binding(name, v.outcome.value)], v.world, fuel)
    case DoForm(first, second) =>
      var v := Eval(p, pr, first, env, w, fuel);
      if !v.outcome.Done? then v else Eval(p, pr, second, env, v.world, fuel)
    case LambdaForm(name, body) => Result(Done(SourceClosure([name], body, env)), w)
    case FreezeForm(body) => Result(Done(SourceClosure([], body, env)), w)
    case TrapForm(body, handler) => EvalTrap(p, pr, body, handler, env, w, fuel)
    case TypeForm(expr) => Eval(p, pr, expr, env, w, fuel)
    case NamedCall(f, args) => EvalCall(p, pr, Symbol(f), [], args, env, w, fuel)
    case ValueCall(head, args) =>
      var h := Eval(p, pr, head, env, w, fuel);
      if !h.outcome.Done? then h else EvalCall(p, pr, h.outcome.value, [], args, env, h.world, fuel)
    case Unsupported => Result(Thrown(APPLY_ERROR), w)
  }

  function EvalIf(p: Program, pr: Prims, test: Kl, yes: Kl, no: Kl, env: seq<Binding>, w: World, fuel: nat): Result
    decreases fuel, 1, 1 + Size(test) + Size(yes) + Size(no), 0
  {
    var t := Eval(p, pr, test, env, w, fuel);
    if !t.outcome.Done? then t
    else if !t.outcome.value.Truth? then Result(Thrown(TEST_ERROR), t.world)
    else if t.outcome.value.b then Eval(p, pr, yes, env, t.world, fuel)
    else Eval(p, pr, no, env, t.world, fuel)
  }

  /** and (want = true) and or (want = false): the right argument counts only if the left is want. */
  function EvalBoth(p: Program, pr: Prims, left: Kl, right: Kl, want: bool, env: seq<Binding>, w: World, fuel: nat): Result
    decreases fuel, 1, 1 + Size(left) + Size(right), 0
  {
    var l := Eval(p, pr, left, env, w, fuel);
    if !l.outcome.Done? then l
    else if !l.outcome.value.Truth? then Result(Thrown(ARGUMENT_ERROR), l.world)
    else if l.outcome.value.b != want then l
    else
      var r := Eval(p, pr, right, env, l.world, fuel);
      if r.outcome.Done? && !r.outcome.value.Truth? then Result(Thrown(ARGUMENT_ERROR), r.world) else r
  }

  function EvalCases(p: Program, pr: Prims, cases: seq<Kl>, env: seq<Binding>, w: World, fuel: nat): Result
    requires AreCases(cases)
    decreases fuel, 1, 1 + SizeAll(cases), 0
  {
    if |cases| == 0 then Result(Thrown(NO_CASE_ERROR), w)
    else
      CasesAreSmaller(cases);
      var t := Eval(p, pr, cases[0].items[0], env, w, fuel);
      if !t.outcome.Done? then t
      else if !t.outcome.value.Truth? then Result(Thrown(CASE_ERROR), t.world)
      else if t.outcome.value.b then Eval(p, pr, cases[0].items[1], env, t.world, fuel)
      else EvalCases(p, pr, cases[1..], env, t.world, fuel)
  }

  /** The handler is evaluated and applied only when the body throws. */
  function EvalTrap(p: Program, pr: Prims, body: Kl, handler: Kl, env: seq<Binding>, w: World, fuel: nat): Result
    decreases fuel, 1, 0, 0
  {
    if fuel == 0 then Result(Exhausted, w)
    else
      var b := Eval(p, pr, body, env, w, fuel - 1);
      if !b.outcome.Thrown? then b
      else
        var h := Eval(p, pr, handler, env, b.world, fuel - 1);
        if !h.outcome.Done? then h else Apply(p, pr, h.outcome.value, [b.outcome.error], h.world, fuel - 1)
  }

  /** The remaining arguments from left to right, then the application. */
  function EvalCall(p: Program, pr: Prims, f: Value, done: seq<Value>, args: seq<Kl>, env: seq<Binding>, w: World, fuel: nat): Result
    decreases fuel, 1, 1 + SizeAll(args), 0
  {
    if |args| == 0 then Apply(p, pr, f, done, w, fuel)
    else
      var v := Eval(p, pr, args[0], env, w, fuel);
      if !v.outcome.Done? then v else EvalCall(p, pr, f, done + [v.outcome.value], args[1..], env, v.world, fuel)
  }

  function Arity(p: Program, f: Value): Option<nat> {
    match f
    case Cell(Primitive(_, arity)) => Some(arity)
    case Cell(Defined(name)) => if name in p then Some(|p[name].params|) else None
    case SourceClosure(params, _, _) => Some(|params|)
    case Partial(g, args) =>
      var arity := Arity(p, g);
      if arity.Some? && |args| <= arity.value then Some(arity.value - |args|) else None
    case _ => None
  }

  /** Application to any number of arguments (apply_dispatch). */
  function Apply(p: Program, pr: Prims, f: Value, args: seq<Value>, w: World, fuel: nat): Result
    decreases fuel, 0, 0, 1
  {
    if fuel == 0 then Result(Exhausted, w)
    else
      var g := Resolve(f, w);
      var arity := Arity(p, g);
      if arity.None? then Result(Thrown(APPLY_ERROR), w)
      else if |args| < arity.value then Result(Done(Partial(g, args)), w)
      else if |args| == arity.value then Enter(p, pr, g, args, w, fuel)
      else
        var first := Enter(p, pr, g, args[..arity.value], w, fuel);
        if !first.outcome.Done? then first else Apply(p, pr, first.outcome.value, args[arity.value..], first.world, fuel - 1)
  }

  function Enter(p: Program, pr: Prims, g: Value, args: seq<Value>, w: World, fuel: nat): Result
    requires fuel > 0 && Arity(p, g) == Some(|args|)
    decreases fuel, 0, 0, 0
  {
    match g
    case Cell(Primitive(name, _)) => pr(name, args, w)
    case Cell(Defined(name)) => Eval(p, pr, p[name].body, Bindings(p[name].params, args), w, fuel - 1)
    case SourceClosure(params, body, env) => Eval(p, pr, body, env + Bindings(params, args), w, fuel - 1)
    case Partial(f, prefix) => Apply(p, pr, f, prefix + args, w, fuel - 1)
  }
}
