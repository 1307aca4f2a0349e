/** What the forms and calls of KLambda mean, told on the lists themselves: each law gives the result
    of a list from the results of its parts. A head that is bound is never a form. */
module KlLaws {
  import opened Options
  import opened KlSyntax
  import opened KlMeaning

  /** The name is not bound here. */
  predicate Free(env: seq<Binding>, name: string) {
    ValueOf(env, name).None?
  }

  predicate IsTruth(r: Result, b: bool) {
    r.outcome == Done(Truth(b))
  }

  predicate NoTruth(r: Result) {
    r.outcome.Done? && !r.outcome.value.Truth?
  }

  lemma Unfolds(p: Program, pr: Prims, name: string, args: seq<Kl>, env: seq<Binding>, w: World, fuel: nat)
    requires Free(env, name) && IsSpecial(name)
    ensures Eval(p, pr, List([Sym(name)] + args), env, w, fuel)
      == EvalForm(p, pr, SpecialForm([Sym(name)] + args), env, w, fuel)
  {
    hide EvalForm, SpecialForm, IsSpecial;
  }

  // Names ---------------------------------------------------------------------------------------

  /** A bound symbol means the value of its innermost binding, any other symbol itself. */
  lemma SymbolLaw(p: Program, pr: Prims, x: string, env: seq<Binding>, b: Binding, w: World, fuel: nat)
    ensures Eval(p, pr, Sym(x), env + [b], w, fuel)
      == if b.name == x then Result(Done(b.value), w) else Eval(p, pr, Sym(x), env, w, fuel)
    ensures Eval(p, pr, Sym(x), [], w, fuel) == Result(Done(Symbol(x)), w)
  {
    ValueOfLast(env, b, x);
  }

  // Forms ---------------------------------------------------------------------------------------

  /** (if test yes no) */
  lemma IfLaw(p: Program, pr: Prims, test: Kl, yes: Kl, no: Kl, env: seq<Binding>, w: World, fuel: nat)
    requires Free(env, "if")
    ensures var t, r := Eval(p, pr, test, env, w, fuel), Eval(p, pr, List([Sym("if"), test, yes, no]), env, w, fuel);
      && (!t.outcome.Done? ==> r == t)
      && (IsTruth(t, true) ==> r == Eval(p, pr, yes, env, t.world, fuel))
      && (IsTruth(t, false) ==> r == Eval(p, pr, no, env, t.world, fuel))
      && (NoTruth(t) ==> r == Result(Thrown(TEST_ERROR), t.world))
  {
    hide Eval;
    assert [Sym("if"), test, yes, no] == [Sym("if")] + [test, yes, no];
    Unfolds(p, pr, "if", [test, yes, no], env, w, fuel);
  }

  /** (and left right): the right one counts where the left one is true, and is a boolean. */
  lemma AndLaw(p: Program, pr: Prims, left: Kl, right: Kl, env: seq<Binding>, w: World, fuel: nat)
    requires Free(env, "and")
    ensures var l, r := Eval(p, pr, left, env, w, fuel), Eval(p, pr, List([Sym("and"), left, right]), env, w, fuel);
      && (!l.outcome.Done? || IsTruth(l, false) ==> r == l)
      && (IsTruth(l, true) ==>
            var v := Eval(p, pr, right, env, l.world, fuel);
            r == if NoTruth(v) then Result(Thrown(ARGUMENT_ERROR), v.world) else v)
      && (NoTruth(l) ==> r == Result(Thrown(ARGUMENT_ERROR), l.world))
  {
    hide Eval;
    assert [Sym("and"), left, right] == [Sym("and")] + [left, right];
    Unfolds(p, pr, "and", [left, right], env, w, fuel);
  }

  /** (or left right): the right one counts where the left one is false, and is a boolean. */
  lemma OrLaw(p: Program, pr: Prims, left: Kl, right: Kl, env: seq<Binding>, w: World, fuel: nat)
    requires Free(env, "or")
    ensures var l, r := Eval(p, pr, left, env, w, fuel), Eval(p, pr, List([Sym("or"), left, right]), env, w, fuel);
      && (!l.outcome.Done? || IsTruth(l, true) ==> r == l)
      && (IsTruth(l, false) ==>
            var v := Eval(p, pr, right, env, l.world, fuel);
            r == if NoTruth(v) then Result(Thrown(ARGUMENT_ERROR), v.world) else v)
      && (NoTruth(l) ==> r == Result(Thrown(ARGUMENT_ERROR), l.world))
  {
    hide Eval;
    assert [Sym("or"), left, right] == [Sym("or")] + [left, right];
    Unfolds(p, pr, "or", [left, right], env, w, fuel);
  }

  /** (cond (test result) case ...): the cases are tried in order. */
  lemma CondLaw(p: Program, pr: Prims, test: Kl, result: Kl, cases: seq<Kl>, env: seq<Binding>, w: World, fuel: nat)
    requires Free(env, "cond") && AreCases(cases)
    ensures var t := Eval(p, pr, test, env, w, fuel);
      var r := Eval(p, pr, List([Sym("cond"), List([test, result])] + cases), env, w, fuel);
      && (!t.outcome.Done? ==> r == t)
      && (IsTruth(t, true) ==> r == Eval(p, pr, result, env, t.world, fuel))
      && (IsTruth(t, false) && |cases| > 0 ==> r == Eval(p, pr, List([Sym("cond")] + cases), env, t.world, fuel))
      && (IsTruth(t, false) && |cases| == 0 ==> r == Result(Thrown(NO_CASE_ERROR), t.world))
      && (NoTruth(t) ==> r == Result(Thrown(CASE_ERROR), t.world))
  {
    hide Eval;
    var all, t := [List([test, result])] + cases, Eval(p, pr, test, env, w, fuel);
    assert [Sym("cond"), List([test, result])] + cases == [Sym("cond")] + all;
    assert all[1..] == cases;
    Unfolds(p, pr, "cond", all, env, w, fuel);
    CasesOf(all);
    assert IsTruth(t, false) ==> EvalCases(p, pr, all, env, w, fuel) == EvalCases(p, pr, cases, env, t.world, fuel);
    if |cases| > 0 {
      Unfolds(p, pr, "cond", cases, env, t.world, fuel);
      CasesOf(cases);
    }
  }

  lemma CasesOf(cases: seq<Kl>)
    requires |cases| > 0 && AreCases(cases)
    ensures SpecialForm([Sym("cond")] + cases) == CondForm(cases)
  {
    assert ([Sym("cond")] + cases)[1..] == cases;
  }

  /** (let x bound body): the body sees x as the value. */
  lemma LetLaw(p: Program, pr: Prims, x: string, bound: Kl, body: Kl, env: seq<Binding>, w: World, fuel: nat)
    requires Free(env, "let")
    ensures var v, r := Eval(p, pr, bound, env, w, fuel), Eval(p, pr, List([Sym("let"), Sym(x), bound, body]), env, w, fuel);
      r == if v.outcome.Done? then Eval(p, pr, body, env + [Binding(x, v.outcome.value)], v.world, fuel) else v
  {
    hide Eval;
    assert [Sym("let"), Sym(x), bound, body] == [Sym("let")] + [Sym(x), bound, body];
    Unfolds(p, pr, "let", [Sym(x), bound, body], env, w, fuel);
  }

  /** (do first second) */
  lemma DoLaw(p: Program, pr: Prims, first: Kl, second: Kl, env: seq<Binding>, w: World, fuel: nat)
    requires Free(env, "do")
    ensures var v, r := Eval(p, pr, first, env, w, fuel), Eval(p, pr, List([Sym("do"), first, second]), env, w, fuel);
      r == if v.outcome.Done? then Eval(p, pr, second, env, v.world, fuel) else v
  {
    hide Eval;
    assert [Sym("do"), first, second] == [Sym("do")] + [first, second];
    Unfolds(p, pr, "do", [first, second], env, w, fuel);
  }

  /** (type expr t) */
  lemma TypeLaw(p: Program, pr: Prims, expr: Kl, t: Kl, env: seq<Binding>, w: World, fuel: nat)
    requires Free(env, "type")
    ensures Eval(p, pr, List([Sym("type"), expr, t]), env, w, fuel) == Eval(p, pr, expr, env, w, fuel)
  {
    hide Eval;
    assert [Sym("type"), expr, t] == [Sym("type")] + [expr, t];
    Unfolds(p, pr, "type", [expr, t], env, w, fuel);
  }

  /** (lambda x body) is a function of one argument: applied anywhere, at any time, it gives the body
      with x as the argument and every other name as it was where the form stood. */
  lemma LambdaLaw(p: Program, pr: Prims, x: string, body: Kl, env: seq<Binding>, w: World, fuel: nat, v: Value, w': World, fuel': nat)
    requires Free(env, "lambda") && fuel' > 0
    ensures var r := Eval(p, pr, List([Sym("lambda"), Sym(x), body]), env, w, fuel);
      && r.outcome.Done? && r.world == w
      && Apply(p, pr, r.outcome.value, [v], w', fuel') == Eval(p, pr, body, env + [Binding(x, v)], w', fuel' - 1)
  {
    hide Eval;
    assert [Sym("lambda"), Sym(x), body] == [Sym("lambda")] + [Sym(x), body];
    Unfolds(p, pr, "lambda", [Sym(x), body], env, w, fuel);
    assert Bindings([x], [v]) == [Binding(x, v)];
  }

  /** (freeze body) is a function of no arguments. */
  lemma FreezeLaw(p: Program, pr: Prims, body: Kl, env: seq<Binding>, w: World, fuel: nat, w': World, fuel': nat)
    requires Free(env, "freeze") && fuel' > 0
    ensures var r := Eval(p, pr, List([Sym("freeze"), body]), env, w, fuel);
      && r.outcome.Done? && r.world == w
      && Apply(p, pr, r.outcome.value, [], w', fuel') == Eval(p, pr, body, env, w', fuel' - 1)
  {
    hide Eval;
    assert [Sym("freeze"), body] == [Sym("freeze")] + [body];
    Unfolds(p, pr, "freeze", [body], env, w, fuel);
    assert env + Bindings([], []) == env;
  }

  /** (trap-error body handler): the handler is applied to the error of the body, if it has one. */
  lemma TrapLaw(p: Program, pr: Prims, body: Kl, handler: Kl, env: seq<Binding>, w: World, fuel: nat)
    requires Free(env, "trap-error") && fuel > 0
    ensures var b := Eval(p, pr, body, env, w, fuel - 1);
      var r := Eval(p, pr, List([Sym("trap-error"), body, handler]), env, w, fuel);
      && (!b.outcome.Thrown? ==> r == b)
      && (b.outcome.Thrown? ==>
            var h := Eval(p, pr, handler, env, b.world, fuel - 1);
            r == if h.outcome.Done? then Apply(p, pr, h.outcome.value, [b.outcome.error], h.world, fuel - 1) else h)
  {
    hide Eval, Apply;
    assert [Sym("trap-error"), body, handler] == [Sym("trap-error")] + [body, handler];
    Unfolds(p, pr, "trap-error", [body, handler], env, w, fuel);
  }

  // Calls ---------------------------------------------------------------------------------------

  /** The arguments, evaluated from left to right, have these values. */
  ghost predicate HaveValues(p: Program, pr: Prims, args: seq<Kl>, env: seq<Binding>, w: World, fuel: nat, vs: seq<Value>, w': World)
    decreases |args|
  {
    if |args| == 0 then vs == [] && w' == w
    else
      var a := Eval(p, pr, args[0], env, w, fuel);
      |vs| > 0 && a.outcome == Done(vs[0]) && HaveValues(p, pr, args[1..], env, a.world, fuel, vs[1..], w')
  }

  lemma {:induction false} CallWithValues(p: Program, pr: Prims, f: Value, done: seq<Value>, args: seq<Kl>, env: seq<Binding>, w: World, fuel: nat, vs: seq<Value>, w': World)
    requires HaveValues(p, pr, args, env, w, fuel, vs, w')
    ensures EvalCall(p, pr, f, done, args, env, w, fuel) == Apply(p, pr, f, done + vs, w', fuel)
    decreases |args|
  {
    hide Eval, Apply;
    if |args| > 0 {
      CallWithValues(p, pr, f, done + [vs[0]], args[1..], env, Eval(p, pr, args[0], env, w, fuel).world, fuel, vs[1..], w');
      assert done + [vs[0]] + vs[1..] == done + vs;
    } else {
      assert done + vs == done;
    }
  }

  /** The first argument without a value is the end of a call: nothing after it is evaluated. */
  lemma {:induction false} CallWithoutValue(p: Program, pr: Prims, f: Value, done: seq<Value>, args: seq<Kl>, env: seq<Binding>, w: World, fuel: nat, i: nat, vs: seq<Value>, w': World)
    requires i < |args| && HaveValues(p, pr, args[..i], env, w, fuel, vs, w') && !Eval(p, pr, args[i], env, w', fuel).outcome.Done?
    ensures EvalCall(p, pr, f, done, args, env, w, fuel) == Eval(p, pr, args[i], env, w', fuel)
    decreases i
  {
    hide Eval, Apply;
    if i > 0 {
      assert args[..i][1..] == args[1..][..i - 1];
      CallWithoutValue(p, pr, f, done + [vs[0]], args[1..], env, Eval(p, pr, args[0], env, w, fuel).world, fuel, i - 1, vs[1..], w');
    }
  }

  /** (f arg ...) for a name that is neither bound nor a form: the arguments from left to right, then
      the function that the name has by then. */
  lemma NamedCallLaw(p: Program, pr: Prims, f: string, args: seq<Kl>, env: seq<Binding>, w: World, fuel: nat, vs: seq<Value>, w': World)
    requires Free(env, f) && !IsSpecial(f) && HaveValues(p, pr, args, env, w, fuel, vs, w')
    ensures Eval(p, pr, List([Sym(f)] + args), env, w, fuel) == Apply(p, pr, Symbol(f), vs, w', fuel)
  {
    hide Eval, EvalCall, Apply, HaveValues;
    NamedUnfolds(p, pr, f, args, env, w, fuel);
    CallWithValues(p, pr, Symbol(f), [], args, env, w, fuel, vs, w');
    assert [] + vs == vs;
  }

  lemma FailedArgumentLaw(p: Program, pr: Prims, f: string, args: seq<Kl>, env: seq<Binding>, w: World, fuel: nat, i: nat, vs: seq<Value>, w': World)
    requires Free(env, f) && !IsSpecial(f) && i < |args| && HaveValues(p, pr, args[..i], env, w, fuel, vs, w')
    requires !Eval(p, pr, args[i], env, w', fuel).outcome.Done?
    ensures Eval(p, pr, List([Sym(f)] + args), env, w, fuel) == Eval(p, pr, args[i], env, w', fuel)
  {
    hide Eval, EvalCall, Apply, HaveValues;
    NamedUnfolds(p, pr, f, args, env, w, fuel);
    CallWithoutValue(p, pr, Symbol(f), [], args, env, w, fuel, i, vs, w');
  }

  lemma NamedUnfolds(p: Program, pr: Prims, f: string, args: seq<Kl>, env: seq<Binding>, w: World, fuel: nat)
    requires Free(env, f) && !IsSpecial(f)
    ensures Eval(p, pr, List([Sym(f)] + args), env, w, fuel) == EvalCall(p, pr, Symbol(f), [], args, env, w, fuel)
  {
    hide EvalCall, IsSpecial;
  }

  /** A head that is bound, or that is no symbol, is evaluated first, whatever its name. */
  lemma ValueCallLaw(p: Program, pr: Prims, head: Kl, args: seq<Kl>, env: seq<Binding>, w: World, fuel: nat, vs: seq<Value>, w': World)
    requires head.Sym? ==> !Free(env, head.name)
    ensures var h, r := Eval(p, pr, head, env, w, fuel), Eval(p, pr, List([head] + args), env, w, fuel);
      && (!h.outcome.Done? ==> r == h)
      && (h.outcome.Done? && HaveValues(p, pr, args, env, h.world, fuel, vs, w') ==> r == Apply(p, pr, h.outcome.value, vs, w', fuel))
  {
    hide EvalCall, Apply, HaveValues;
    var h := Eval(p, pr, head, env, w, fuel);
    assert Eval(p, pr, List([head] + args), env, w, fuel)
      == if h.outcome.Done? then EvalCall(p, pr, h.outcome.value, [], args, env, h.world, fuel) else h;
    if h.outcome.Done? && HaveValues(p, pr, args, env, h.world, fuel, vs, w') {
      CallWithValues(p, pr, h.outcome.value, [], args, env, h.world, fuel, vs, w');
      assert [] + vs == vs;
    }
  }

  /** A defined function applied to its number of arguments is its body, every parameter meaning its
      argument (SymbolLaw), and nothing else bound. */
  lemma DefinedLaw(p: Program, pr: Prims, f: string, args: seq<Value>, w: World, fuel: nat)
    requires f in w.funs && w.funs[f] == Fun.Defined(f) && f in p && |args| == |p[f].params| && fuel > 0
    ensures Apply(p, pr, Symbol(f), args, w, fuel) == Eval(p, pr, p[f].body, Bindings(p[f].params, args), w, fuel - 1)
  {
    hide Eval;
  }

  lemma PrimitiveLaw(p: Program, pr: Prims, f: string, name: string, args: seq<Value>, w: World, fuel: nat)
    requires f in w.funs && w.funs[f] == Primitive(name, |args|) && fuel > 0
    ensures Apply(p, pr, Symbol(f), args, w, fuel) == pr(name, args, w)
  {
  }

  /** With too few arguments a function waits for the others. */
  lemma FewerArgumentsLaw(p: Program, pr: Prims, f: string, args: seq<Value>, more: seq<Value>, w: World, fuel: nat, w': World, fuel': nat)
    requires f in w.funs && w.funs[f] == Fun.Defined(f) && f in p && 0 < |more| && |args| + |more| == |p[f].params|
    requires fuel > 0 && fuel' > 1
    ensures var r := Apply(p, pr, Symbol(f), args, w, fuel);
      && r.outcome.Done? && r.world == w
      && Apply(p, pr, r.outcome.value, more, w', fuel') == Eval(p, pr, p[f].body, Bindings(p[f].params, args + more), w', fuel' - 2)
  {
    hide Eval;
    var cell := Cell(Fun.Defined(f));
    assert Apply(p, pr, Symbol(f), args, w, fuel) == Result(Done(Partial(cell, args)), w);
    assert Arity(p, cell) == Some(|args| + |more|) && Arity(p, Partial(cell, args)) == Some(|more|);
    assert Apply(p, pr, Partial(cell, args), more, w', fuel') == Apply(p, pr, cell, args + more, w', fuel' - 1);
    assert Apply(p, pr, cell, args + more, w', fuel' - 1) == Enter(p, pr, cell, args + more, w', fuel' - 1);
  }

  /** With too many arguments the others go to the value. */
  lemma MoreArgumentsLaw(p: Program, pr: Prims, f: string, args: seq<Value>, more: seq<Value>, w: World, fuel: nat)
    requires f in w.funs && w.funs[f] == Fun.Defined(f) && f in p && 0 < |more| && |args| == |p[f].params| && fuel > 0
    ensures var first := Eval(p, pr, p[f].body, Bindings(p[f].params, args), w, fuel - 1);
      Apply(p, pr, Symbol(f), args + more, w, fuel)
      == if first.outcome.Done? then Apply(p, pr, first.outcome.value, more, first.world, fuel - 1) else first
  {
    hide Eval;
    var all := args + more;
    assert all[..|args|] == args && all[|args|..] == more;
  }

  lemma UndefinedLaw(p: Program, pr: Prims, f: string, args: seq<Value>, w: World, fuel: nat)
    requires f !in w.funs && fuel > 0
    ensures Apply(p, pr, Symbol(f), args, w, fuel) == Result(Thrown(APPLY_ERROR), w)
  {
  }
}
