/** What a call of a compiled function gives, told from its written body: the laws of KlLaws hold of
    the generated code. */
module CompiledLaws {
  import opened Options
  import opened KlSyntax
  import opened KlMeaning
  import opened KlLaws
  import NativeCode
  import opened Emission
  import opened NativeRelation
  import opened EmitCorrect

  /** A compiled program, a function of it that is written f, and as many arguments as f takes. */
  ghost predicate Calls(x: Setup, f: string, args: seq<Value>, w: World, fuel: nat) {
    && Ready(x) && (forall name :: name in x.p ==> Ordinary(name, x.p[name])) && RelWorld(x, w, w)
    && f in x.p && |args| == |x.p[f].params| && fuel > 0 && forall i :: 0 <= i < |args| ==> Plain(args[i])
  }

  /** What the parameters mean. */
  function Inside(x: Setup, f: string, args: seq<Value>): seq<Binding>
    requires f in x.p && |args| == |x.p[f].params|
  {
    Bindings(x.p[f].params, args)
  }

  function Compiled(x: Setup, f: string, args: seq<Value>, w: World, fuel: nat): Outcome {
    NativeCode.Apply(x.b.code, x.pr, Symbol(f), args, w, fuel).outcome
  }

  /** A value or an error without a closure in it. */
  predicate PlainEnd(o: Outcome) {
    (o.Done? && Plain(o.value)) || (o.Thrown? && Plain(o.error))
  }

  lemma PlainConstants()
    ensures forall b :: PlainEnd(Done(Truth(b)))
    ensures forall n: nat :: PlainEnd(Thrown(Data(n)))
  {
  }

  lemma {:induction false} FreeInside(names: seq<string>, args: seq<Value>, name: string)
    requires |names| == |args|
    ensures Free(Bindings(names, args), name) <==> name !in names
    decreases |names|
  {
    if |names| > 0 {
      var n := |names| - 1;
      assert Bindings(names, args) == Bindings(names[..n], args[..n]) + [Binding(names[n], args[n])];
      assert names == names[..n] + [names[n]];
      ValueOfLast(Bindings(names[..n], args[..n]), Binding(names[n], args[n]), name);
      FreeInside(names[..n], args[..n], name);
    }
  }

  lemma CellHoldsFunction(x: Setup, f: string, args: seq<Value>, w: World, fuel: nat)
    requires Calls(x, f, args, w, fuel)
    ensures f in w.funs && w.funs[f] == Fun.Defined(f)
  {
  }

  /** The generated code ends as the body evaluates. */
  lemma CompiledIsBody(x: Setup, f: string, args: seq<Value>, w: World, fuel: nat)
    requires Calls(x, f, args, w, fuel)
    ensures var o := Eval(x.p, x.pr, x.p[f].body, Inside(x, f, args), w, fuel - 1).outcome;
      PlainEnd(o) ==> Compiled(x, f, args, w, fuel) == o
  {
    hide Ready, Plain, Eval, KlMeaning.Apply, NativeCode.Apply;
    DefinedLaw(x.p, x.pr, f, args, w, fuel);
    CompiledCallIsMeaning(x, f, args, w, fuel);
  }

  /** (if test yes no) */
  lemma CompiledIf(x: Setup, f: string, test: Kl, yes: Kl, no: Kl, args: seq<Value>, w: World, fuel: nat)
    requires Calls(x, f, args, w, fuel) && x.p[f].body == List([Sym("if"), test, yes, no]) && "if" !in x.p[f].params
    ensures var env := Inside(x, f, args);
      var t := Eval(x.p, x.pr, test, env, w, fuel - 1);
      var y, n := Eval(x.p, x.pr, yes, env, t.world, fuel - 1).outcome, Eval(x.p, x.pr, no, env, t.world, fuel - 1).outcome;
      && (IsTruth(t, true) && PlainEnd(y) ==> Compiled(x, f, args, w, fuel) == y)
      && (IsTruth(t, false) && PlainEnd(n) ==> Compiled(x, f, args, w, fuel) == n)
      && (NoTruth(t) ==> Compiled(x, f, args, w, fuel) == Thrown(TEST_ERROR))
  {
    hide Ready, RelWorld, Ordinary, Plain, Free, Eval, NativeCode.Apply;
    FreeInside(x.p[f].params, args, "if");
    PlainConstants();
    CompiledIsBody(x, f, args, w, fuel);
    IfLaw(x.p, x.pr, test, yes, no, Inside(x, f, args), w, fuel - 1);
  }

  /** (and left right) */
  lemma CompiledAnd(x: Setup, f: string, left: Kl, right: Kl, args: seq<Value>, w: World, fuel: nat)
    requires Calls(x, f, args, w, fuel) && x.p[f].body == List([Sym("and"), left, right]) && "and" !in x.p[f].params
    ensures var env := Inside(x, f, args);
      var l := Eval(x.p, x.pr, left, env, w, fuel - 1);
      var r := Eval(x.p, x.pr, right, env, l.world, fuel - 1);
      && (IsTruth(l, false) ==> Compiled(x, f, args, w, fuel) == Done(Truth(false)))
      && (forall b :: IsTruth(l, true) && IsTruth(r, b) ==> Compiled(x, f, args, w, fuel) == Done(Truth(b)))
      && (NoTruth(l) || (IsTruth(l, true) && NoTruth(r)) ==> Compiled(x, f, args, w, fuel) == Thrown(ARGUMENT_ERROR))
  {
    hide Ready, RelWorld, Ordinary, Plain, Free, Eval, NativeCode.Apply;
    FreeInside(x.p[f].params, args, "and");
    PlainConstants();
    CompiledIsBody(x, f, args, w, fuel);
    AndLaw(x.p, x.pr, left, right, Inside(x, f, args), w, fuel - 1);
  }

  /** (or left right) */
  lemma CompiledOr(x: Setup, f: string, left: Kl, right: Kl, args: seq<Value>, w: World, fuel: nat)
    requires Calls(x, f, args, w, fuel) && x.p[f].body == List([Sym("or"), left, right]) && "or" !in x.p[f].params
    ensures var env := Inside(x, f, args);
      var l := Eval(x.p, x.pr, left, env, w, fuel - 1);
      var r := Eval(x.p, x.pr, right, env, l.world, fuel - 1);
      && (IsTruth(l, true) ==> Compiled(x, f, args, w, fuel) == Done(Truth(true)))
      && (forall b :: IsTruth(l, false) && IsTruth(r, b) ==> Compiled(x, f, args, w, fuel) == Done(Truth(b)))
      && (NoTruth(l) || (IsTruth(l, false) && NoTruth(r)) ==> Compiled(x, f, args, w, fuel) == Thrown(ARGUMENT_ERROR))
  {
    hide Ready, RelWorld, Ordinary, Plain, Free, Eval, NativeCode.Apply;
    FreeInside(x.p[f].params, args, "or");
    PlainConstants();
    CompiledIsBody(x, f, args, w, fuel);
    OrLaw(x.p, x.pr, left, right, Inside(x, f, args), w, fuel - 1);
  }

  /** (cond (test result) case ...) */
  lemma CompiledCond(x: Setup, f: string, test: Kl, result: Kl, cases: seq<Kl>, args: seq<Value>, w: World, fuel: nat)
    requires Calls(x, f, args, w, fuel) && x.p[f].body == List([Sym("cond"), List([test, result])] + cases) && AreCases(cases) && "cond" !in x.p[f].params
    ensures var env := Inside(x, f, args);
      var t := Eval(x.p, x.pr, test, env, w, fuel - 1);
      var y, n := Eval(x.p, x.pr, result, env, t.world, fuel - 1).outcome, Eval(x.p, x.pr, List([Sym("cond")] + cases), env, t.world, fuel - 1).outcome;
      && (IsTruth(t, true) && PlainEnd(y) ==> Compiled(x, f, args, w, fuel) == y)
      && (IsTruth(t, false) && |cases| > 0 && PlainEnd(n) ==> Compiled(x, f, args, w, fuel) == n)
      && (IsTruth(t, false) && |cases| == 0 ==> Compiled(x, f, args, w, fuel) == Thrown(NO_CASE_ERROR))
      && (NoTruth(t) ==> Compiled(x, f, args, w, fuel) == Thrown(CASE_ERROR))
  {
    hide Ready, RelWorld, Ordinary, Plain, Free, Eval, NativeCode.Apply;
    FreeInside(x.p[f].params, args, "cond");
    PlainConstants();
    CompiledIsBody(x, f, args, w, fuel);
    CondLaw(x.p, x.pr, test, result, cases, Inside(x, f, args), w, fuel - 1);
  }

  /** (let y bound body) */
  lemma CompiledLet(x: Setup, f: string, y: string, bound: Kl, body: Kl, args: seq<Value>, w: World, fuel: nat)
    requires Calls(x, f, args, w, fuel) && x.p[f].body == List([Sym("let"), Sym(y), bound, body]) && "let" !in x.p[f].params
    ensures var env := Inside(x, f, args);
      var v := Eval(x.p, x.pr, bound, env, w, fuel - 1);
      v.outcome.Done? ==>
        var o := Eval(x.p, x.pr, body, env + [Binding(y, v.outcome.value)], v.world, fuel - 1).outcome;
        PlainEnd(o) ==> Compiled(x, f, args, w, fuel) == o
  {
    hide Ready, RelWorld, Ordinary, Plain, Free, Eval, NativeCode.Apply;
    FreeInside(x.p[f].params, args, "let");
    CompiledIsBody(x, f, args, w, fuel);
    LetLaw(x.p, x.pr, y, bound, body, Inside(x, f, args), w, fuel - 1);
  }

  /** (do first second) */
  lemma CompiledDo(x: Setup, f: string, first: Kl, second: Kl, args: seq<Value>, w: World, fuel: nat)
    requires Calls(x, f, args, w, fuel) && x.p[f].body == List([Sym("do"), first, second]) && "do" !in x.p[f].params
    ensures var env := Inside(x, f, args);
      var v := Eval(x.p, x.pr, first, env, w, fuel - 1);
      var o := Eval(x.p, x.pr, second, env, v.world, fuel - 1).outcome;
      v.outcome.Done? && PlainEnd(o) ==> Compiled(x, f, args, w, fuel) == o
  {
    hide Ready, RelWorld, Ordinary, Plain, Free, Eval, NativeCode.Apply;
    FreeInside(x.p[f].params, args, "do");
    CompiledIsBody(x, f, args, w, fuel);
    DoLaw(x.p, x.pr, first, second, Inside(x, f, args), w, fuel - 1);
  }

  /** (type expr t) */
  lemma CompiledType(x: Setup, f: string, expr: Kl, t: Kl, args: seq<Value>, w: World, fuel: nat)
    requires Calls(x, f, args, w, fuel) && x.p[f].body == List([Sym("type"), expr, t]) && "type" !in x.p[f].params
    ensures var env := Inside(x, f, args);
      var o := Eval(x.p, x.pr, expr, env, w, fuel - 1).outcome;
      PlainEnd(o) ==> Compiled(x, f, args, w, fuel) == o
  {
    hide Ready, RelWorld, Ordinary, Plain, Free, Eval, NativeCode.Apply;
    FreeInside(x.p[f].params, args, "type");
    CompiledIsBody(x, f, args, w, fuel);
    TypeLaw(x.p, x.pr, expr, t, Inside(x, f, args), w, fuel - 1);
  }

  /** (trap-error body handler) */
  lemma CompiledTrap(x: Setup, f: string, body: Kl, handler: Kl, args: seq<Value>, w: World, fuel: nat)
    requires Calls(x, f, args, w, fuel) && x.p[f].body == List([Sym("trap-error"), body, handler]) && "trap-error" !in x.p[f].params && fuel > 1
    ensures var env := Inside(x, f, args);
      var b := Eval(x.p, x.pr, body, env, w, fuel - 2);
      var h := Eval(x.p, x.pr, handler, env, b.world, fuel - 2);
      && (b.outcome.Done? && Plain(b.outcome.value) ==> Compiled(x, f, args, w, fuel) == b.outcome)
      && (b.outcome.Thrown? && h.outcome.Done? ==>
            var o := KlMeaning.Apply(x.p, x.pr, h.outcome.value, [b.outcome.error], h.world, fuel - 2).outcome;
            PlainEnd(o) ==> Compiled(x, f, args, w, fuel) == o)
  {
    hide Ready, RelWorld, Ordinary, Plain, Free, Eval, KlMeaning.Apply, NativeCode.Apply;
    FreeInside(x.p[f].params, args, "trap-error");
    CompiledIsBody(x, f, args, w, fuel);
    TrapLaw(x.p, x.pr, body, handler, Inside(x, f, args), w, fuel - 1);
  }

  /** (g arg ...) for a primitive g, whether or not the emitter inlines it. */
  lemma CompiledPrimitive(x: Setup, f: string, g: string, name: string, parts: seq<Kl>, vs: seq<Value>, w1: World, args: seq<Value>, w: World, fuel: nat)
    requires Calls(x, f, args, w, fuel) && x.p[f].body == List([Sym(g)] + parts) && g !in x.p[f].params && !IsSpecial(g) && fuel > 1
    requires HaveValues(x.p, x.pr, parts, Inside(x, f, args), w, fuel - 1, vs, w1) && g in w1.funs && w1.funs[g] == Primitive(name, |vs|)
    ensures var o := x.pr(name, vs, w1).outcome; PlainEnd(o) ==> Compiled(x, f, args, w, fuel) == o
  {
    hide Ready, RelWorld, Ordinary, Plain, Free, HaveValues, Eval, KlMeaning.Apply, NativeCode.Apply;
    FreeInside(x.p[f].params, args, g);
    CompiledIsBody(x, f, args, w, fuel);
    NamedCallLaw(x.p, x.pr, g, parts, Inside(x, f, args), w, fuel - 1, vs, w1);
    PrimitiveLaw(x.p, x.pr, g, name, vs, w1, fuel - 1);
  }

  /** (lambda y body): the generated closure, called in the world that f has left, gives the body with
      y as the argument and the parameters of f as they were. */
  lemma CompiledLambda(x: Setup, f: string, y: string, body: Kl, args: seq<Value>, w: World, fuel: nat, v: Value, fuel': nat)
    requires Calls(x, f, args, w, fuel) && x.p[f].body == List([Sym("lambda"), Sym(y), body]) && "lambda" !in x.p[f].params
    requires Plain(v) && fuel' > 0
    ensures var t := NativeCode.Apply(x.b.code, x.pr, Symbol(f), args, w, fuel);
      && t.outcome.Done?
      && var o := Eval(x.p, x.pr, body, Inside(x, f, args) + [Binding(y, v)], w, fuel' - 1).outcome;
         PlainEnd(o) ==> NativeCode.Apply(x.b.code, x.pr, t.outcome.value, [v], t.world, fuel').outcome == o
  {
    hide Ready, RelWorld, Ordinary, Plain, Free, Eval, KlMeaning.Apply, NativeCode.Apply;
    FreeInside(x.p[f].params, args, "lambda");
    LambdaLaw(x.p, x.pr, y, body, Inside(x, f, args), w, fuel - 1, v, w, fuel');
    ClosureRuns(x, f, args, w, fuel, [v], fuel');
  }

  /** (freeze body) */
  lemma CompiledFreeze(x: Setup, f: string, body: Kl, args: seq<Value>, w: World, fuel: nat, fuel': nat)
    requires Calls(x, f, args, w, fuel) && x.p[f].body == List([Sym("freeze"), body]) && "freeze" !in x.p[f].params && fuel' > 0
    ensures var t := NativeCode.Apply(x.b.code, x.pr, Symbol(f), args, w, fuel);
      && t.outcome.Done?
      && var o := Eval(x.p, x.pr, body, Inside(x, f, args), w, fuel' - 1).outcome;
         PlainEnd(o) ==> NativeCode.Apply(x.b.code, x.pr, t.outcome.value, [], t.world, fuel').outcome == o
  {
    hide Ready, RelWorld, Ordinary, Plain, Free, Eval, KlMeaning.Apply, NativeCode.Apply;
    FreeInside(x.p[f].params, args, "freeze");
    FreezeLaw(x.p, x.pr, body, Inside(x, f, args), w, fuel - 1, w, fuel');
    ClosureRuns(x, f, args, w, fuel, [], fuel');
  }

  /** What a call returns, called in turn. */
  lemma ClosureRuns(x: Setup, f: string, args: seq<Value>, w: World, fuel: nat, more: seq<Value>, fuel': nat)
    requires Calls(x, f, args, w, fuel) && forall i :: 0 <= i < |more| ==> Plain(more[i])
    ensures var s := Eval(x.p, x.pr, x.p[f].body, Inside(x, f, args), w, fuel - 1);
      var t := NativeCode.Apply(x.b.code, x.pr, Symbol(f), args, w, fuel);
      s.outcome.Done? ==>
        && t.outcome.Done?
        && var o := KlMeaning.Apply(x.p, x.pr, s.outcome.value, more, s.world, fuel').outcome;
           PlainEnd(o) ==> NativeCode.Apply(x.b.code, x.pr, t.outcome.value, more, t.world, fuel').outcome == o
  {
    hide Ready, RelWorld, Ordinary, Plain, Rel, Eval, KlMeaning.Apply, NativeCode.Apply;
    PlainRelates(x, args);
    PlainRelates(x, more);
    SymbolRelates(x.b, f);
    CellHoldsFunction(x, f, args, w, fuel);
    DefinedLaw(x.p, x.pr, f, args, w, fuel);
    SimApply(x, Symbol(f), Symbol(f), args, args, w, w, fuel);
    var s := Eval(x.p, x.pr, x.p[f].body, Inside(x, f, args), w, fuel - 1);
    var t := NativeCode.Apply(x.b.code, x.pr, Symbol(f), args, w, fuel);
    if s.outcome.Done? {
      SimApply(x, s.outcome.value, t.outcome.value, more, more, s.world, t.world, fuel');
      SameEnd(x, KlMeaning.Apply(x.p, x.pr, s.outcome.value, more, s.world, fuel'),
              NativeCode.Apply(x.b.code, x.pr, t.outcome.value, more, t.world, fuel'));
    }
  }

  lemma PlainRelates(x: Setup, vs: seq<Value>)
    requires forall i :: 0 <= i < |vs| ==> Plain(vs[i])
    ensures RelAll(x.b, vs, vs)
  {
    forall i | 0 <= i < |vs|
      ensures Rel(x.b, vs[i], vs[i])
    {
      PlainIsItself(x.b, vs[i], vs[i]);
    }
  }

  lemma SameEnd(x: Setup, s: Result, t: Result)
    requires RelResult(x, s, t)
    ensures PlainEnd(s.outcome) ==> t.outcome == s.outcome
  {
    if s.outcome.Done? && Plain(s.outcome.value) {
      PlainIsItself(x.b, s.outcome.value, t.outcome.value);
    }
    if s.outcome.Thrown? && Plain(s.outcome.error) {
      PlainIsItself(x.b, s.outcome.error, t.outcome.error);
    }
  }
}
