/** Exactly which programs the emitter turns into code that a C compiler accepts. */
module Compilable {
  import opened Options
  import opened KlSyntax
  import opened NativeCode
  import opened Emission
  import opened Acceptance
  import opened NativeSteps

  /** A name in the emitter's scope, and whether its temporary is declared in the C function that is
      being written. Inside a closure the scope outside is still listed, but is not here. */
  datatype Scoped = Scoped(name: string, here: bool)

  function ScopeNames(sc: seq<Scoped>): seq<string> {
    seq(|sc|, i requires 0 <= i < |sc| => sc[i].name)
  }

  predicate InScopeOf(sc: seq<Scoped>, name: string) {
    name in ScopeNames(sc)
  }

  /** A name that is not bound is interned, so it can always be read. */
  predicate Here(sc: seq<Scoped>, name: string) {
    if |sc| == 0 then true
    else if sc[|sc| - 1].name == name then sc[|sc| - 1].here
    else Here(sc[..|sc| - 1], name)
  }

  function Locals(names: seq<string>): seq<Scoped> {
    seq(|names|, i requires 0 <= i < |names| => Scoped(names[i], true))
  }

  function Foreign(sc: seq<Scoped>): seq<Scoped> {
    seq(|sc|, i requires 0 <= i < |sc| => Scoped(sc[i].name, false))
  }

  /** What collect_free finds in a scope of these names. */
  function ScopeCaptures(params: seq<string>, body: Kl, sc: seq<Scoped>): seq<string> {
    Captures(params, body, Bind(ScopeNames(sc), Range(0, |sc|)))
  }

  predicate HeadInScope(items: seq<Kl>, sc: seq<Scoped>)
    requires |items| > 0
  {
    items[0].Sym? && InScopeOf(sc, items[0].name)
  }

  /** The temporary that holds the value of the expression is declared here. */
  predicate HasResult(e: Kl, sc: seq<Scoped>)
    decreases Size(e), 0
  {
    match e
    case Sym(name) => Here(sc, name)
    case List(items) =>
      |items| == 0 || (
        PartsAreSmaller(items, HeadInScope(items, sc));
        HasFormResult(FormOf(items, HeadInScope(items, sc)), sc))
    case _ => true
  }

  predicate HasFormResult(form: Form, sc: seq<Scoped>)
    decreases FormSize(form), 1
  {
    match form
    case LetForm(name, bound, body) => HasResult(body, sc + [Scoped(name, HasResult(bound, sc))])
    case DoForm(_, second) => HasResult(second, sc)
    case TypeForm(expr) => HasResult(expr, sc)
    case _ => true
  }

  predicate Usable(e: Kl, sc: seq<Scoped>)
    decreases Size(e), 3
  {
    Compiles(e, sc) && HasResult(e, sc)
  }

  /** Every temporary that the code for the expression reads is declared in its C function. The two
      ways to fail are a closure that reads a name it has not captured, and a trap-error form in a
      scope with names from outside its function, because it copies the whole scope. */
  predicate Compiles(e: Kl, sc: seq<Scoped>)
    decreases Size(e), 2
  {
    e.List? && |e.items| > 0 ==> (
      PartsAreSmaller(e.items, HeadInScope(e.items, sc));
      CompilesForm(FormOf(e.items, HeadInScope(e.items, sc)), sc))
  }

  predicate CompilesForm(form: Form, sc: seq<Scoped>)
    requires form.CondForm? ==> AreCases(form.cases)
    decreases FormSize(form), 1
  {
    match form
    case IfForm(test, yes, no) => Usable(test, sc) && Usable(yes, sc) && Usable(no, sc)
    case AndForm(left, right) => Usable(left, sc) && Usable(right, sc)
    case OrForm(left, right) => Usable(left, sc) && Usable(right, sc)
    case CondForm(cases) => CompilesCases(cases, sc)
    case LetForm(name, bound, body) => Compiles(bound, sc) && Compiles(body, sc + [Scoped(name, HasResult(bound, sc))])
    case DoForm(first, second) => Compiles(first, sc) && Compiles(second, sc)
    case LambdaForm(name, body) => CompilesClosure([name], body, sc)
    case FreezeForm(body) => CompilesClosure([], body, sc)
    case TrapForm(body, handler) => (forall i :: 0 <= i < |sc| ==> sc[i].here) && Usable(body, sc) && Usable(handler, sc)
    case TypeForm(expr) => Compiles(expr, sc)
    case NamedCall(_, args) => CompilesArgs(args, sc)
    case ValueCall(head, args) => Usable(head, sc) && CompilesArgs(args, sc)
    case Unsupported => true
  }

  predicate CompilesCases(cases: seq<Kl>, sc: seq<Scoped>)
    requires AreCases(cases)
    decreases SizeAll(cases), 0
  {
    |cases| > 0 ==> (
      CasesAreSmaller(cases);
      Usable(cases[0].items[0], sc) && Usable(cases[0].items[1], sc) && CompilesCases(cases[1..], sc))
  }

  predicate CompilesArgs(args: seq<Kl>, sc: seq<Scoped>)
    decreases SizeAll(args), 4
  {
    |args| > 0 ==> Usable(args[0], sc) && CompilesArgs(args[1..], sc)
  }

  predicate CompilesClosure(params: seq<string>, body: Kl, sc: seq<Scoped>)
    decreases Size(body), 4
  {
    var names := ScopeCaptures(params, body, sc);
    && (forall i :: 0 <= i < |names| ==> Here(sc, names[i]))
    && Usable(body, Foreign(sc) + Locals(names) + Locals(params))
  }
}
