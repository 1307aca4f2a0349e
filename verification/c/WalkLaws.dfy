/** What the tree-walking evaluator on lists makes of every form, told on the lists themselves from the
    results of the parts. A head symbol that names a form is one, bound or not. */
module WalkLaws {
  import opened Options
  import opened TreeWalk

  const IF_TEST := "Test should be a boolean value"
  const AND_ARGUMENT := "Arguments should be boolean values"
  const OR_ARGUMENT := "Arguments should be boolean value"
  const CASE_TEST := "Case test should be a boolean value"
  const NO_CASE := "No true case found for cond"

  predicate IsTruth(r: Result<Value>, b: bool) {
    r.outcome == Done(Truth(b))
  }

  predicate NoTruth(r: Result<Value>) {
    r.outcome.Done? && !r.outcome.value.Truth?
  }

  lemma Unfolds(m: Machine, name: string, args: seq<Kl>, env: Env, h: History, fuel: nat)
    requires !KeywordOf(name).KNone?
    ensures Eval(m, List([Sym(name)] + args), env, h, fuel) == EvalForm(m, SpecialForm(KeywordOf(name), args), env, h, fuel)
  {
    hide EvalForm, SpecialForm, KeywordOf;
    assert ([Sym(name)] + args)[1..] == args;
  }

  /** A symbol means its innermost binding, or itself; a constant means itself, and so does nothing. */
  lemma AtomLaw(m: Machine, x: string, b: Binding, v: Value, env: Env, h: History, fuel: nat)
    ensures Eval(m, Sym(x), Frame([b], env), h, fuel) == if x == b.name then Result(Done(b.value), h) else Eval(m, Sym(x), env, h, fuel)
    ensures Eval(m, Sym(x), Root, h, fuel) == Result(Done(Symbol(x)), h)
    ensures Eval(m, Obj(v), env, h, fuel) == Result(Done(v), h)
    ensures Eval(m, List([]), env, h, fuel) == Result(Done(Nil), h)
  {
  }

  // Forms ---------------------------------------------------------------------------------------

  /** (if test yes no) */
  lemma IfLaw(m: Machine, test: Kl, yes: Kl, no: Kl, env: Env, h: History, fuel: nat)
    ensures var t, r := Eval(m, test, env, h, fuel), Eval(m, List([Sym("if"), test, yes, no]), env, h, fuel);
      && (!t.outcome.Done? ==> r == t)
      && (IsTruth(t, true) ==> r == Eval(m, yes, env, t.history, fuel))
      && (IsTruth(t, false) ==> r == Eval(m, no, env, t.history, fuel))
      && (NoTruth(t) ==> r == Throw(IF_TEST, t.history))
  {
    hide Eval;
    assert [Sym("if"), test, yes, no] == [Sym("if")] + [test, yes, no];
    Unfolds(m, "if", [test, yes, no], env, h, fuel);
  }

  /** (and left right) */
  lemma AndLaw(m: Machine, left: Kl, right: Kl, env: Env, h: History, fuel: nat)
    ensures var l, r := Eval(m, left, env, h, fuel), Eval(m, List([Sym("and"), left, right]), env, h, fuel);
      && (!l.outcome.Done? || IsTruth(l, false) ==> r == l)
      && (IsTruth(l, true) ==>
            var v := Eval(m, right, env, l.history, fuel);
            r == if NoTruth(v) then Throw(AND_ARGUMENT, v.history) else v)
      && (NoTruth(l) ==> r == Throw(AND_ARGUMENT, l.history))
  {
    hide Eval;
    assert [Sym("and"), left, right] == [Sym("and")] + [left, right];
    Unfolds(m, "and", [left, right], env, h, fuel);
  }

  /** (or left right) */
  lemma OrLaw(m: Machine, left: Kl, right: Kl, env: Env, h: History, fuel: nat)
    ensures var l, r := Eval(m, left, env, h, fuel), Eval(m, List([Sym("or"), left, right]), env, h, fuel);
      && (!l.outcome.Done? || IsTruth(l, true) ==> r == l)
      && (IsTruth(l, false) ==>
            var v := Eval(m, right, env, l.history, fuel);
            r == if NoTruth(v) then Throw(OR_ARGUMENT, v.history) else v)
      && (NoTruth(l) ==> r == Throw(OR_ARGUMENT, l.history))
  {
    hide Eval;
    assert [Sym("or"), left, right] == [Sym("or")] + [left, right];
    Unfolds(m, "or", [left, right], env, h, fuel);
  }

  /** (cond (test result) case ...) */
  lemma CondLaw(m: Machine, test: Kl, result: Kl, cases: seq<Kl>, env: Env, h: History, fuel: nat)
    ensures var t := Eval(m, test, env, h, fuel);
      var r := Eval(m, List([Sym("cond"), List([test, result])] + cases), env, h, fuel);
      && (!t.outcome.Done? ==> r == t)
      && (IsTruth(t, true) ==> r == Eval(m, result, env, t.history, fuel))
      && (IsTruth(t, false) && |cases| > 0 ==> r == Eval(m, List([Sym("cond")] + cases), env, t.history, fuel))
      && (IsTruth(t, false) && |cases| == 0 ==> r == Throw(NO_CASE, t.history))
      && (NoTruth(t) ==> r == Throw(CASE_TEST, t.history))
  {
    hide Eval;
    var all, t := [List([test, result])] + cases, Eval(m, test, env, h, fuel);
    assert [Sym("cond"), List([test, result])] + cases == [Sym("cond")] + all;
    assert all[1..] == cases;
    Unfolds(m, "cond", all, env, h, fuel);
    assert IsTruth(t, false) ==> EvalCases(m, all, env, h, fuel) == EvalCases(m, cases, env, t.history, fuel);
    if |cases| > 0 {
      Unfolds(m, "cond", cases, env, t.history, fuel);
    }
  }

  /** (let x bound body) */
  lemma LetLaw(m: Machine, x: string, bound: Kl, body: Kl, env: Env, h: History, fuel: nat)
    ensures var v, r := Eval(m, bound, env, h, fuel), Eval(m, List([Sym("let"), Sym(x), bound, body]), env, h, fuel);
      r == if v.outcome.Done? then Eval(m, body, Frame([Binding(x, v.outcome.value)], env), v.history, fuel) else v
  {
    hide Eval;
    assert [Sym("let"), Sym(x), bound, body] == [Sym("let")] + [Sym(x), bound, body];
    Unfolds(m, "let", [Sym(x), bound, body], env, h, fuel);
  }

  /** (type expr t) */
  lemma TypeLaw(m: Machine, expr: Kl, t: Kl, env: Env, h: History, fuel: nat)
    ensures Eval(m, List([Sym("type"), expr, t]), env, h, fuel) == Eval(m, expr, env, h, fuel)
  {
    hide Eval;
    assert [Sym("type"), expr, t] == [Sym("type")] + [expr, t];
    Unfolds(m, "type", [expr, t], env, h, fuel);
  }

  /** The result of a body that does not end in a jump to an outer loop. */
  ghost predicate Stays(b: Result<Value>, r: Result<Value>) {
    !b.outcome.Recur? ==> r == b
  }

  /** (lambda x body) gives a function: called anywhere and at any time, it gives the body with x as the
      argument and other names as they were where the form stood. */
  lemma LambdaLaw(m: Machine, x: string, body: Kl, env: Env, h: History, fuel: nat, arg: Kl, env': Env, h': History, fuel': nat)
    requires fuel' > 0
    ensures var f := Eval(m, List([Sym("lambda"), Sym(x), body]), env, h, fuel);
      && f.outcome.Done? && f.history == h
      && var a, r := Eval(m, arg, env', h', fuel'), Eval(m, List([Obj(f.outcome.value), arg]), env', h', fuel');
         && (!a.outcome.Done? ==> r == a)
         && (a.outcome.Done? ==> Stays(Eval(m, body, Frame([Binding(x, a.outcome.value)], env), a.history, fuel' - 1), r))
  {
    hide Eval;
    assert [Sym("lambda"), Sym(x), body] == [Sym("lambda")] + [Sym(x), body];
    Unfolds(m, "lambda", [Sym(x), body], env, h, fuel);
    var c := Closure(Some(x), body, env);
    CalledWithOne(m, c, arg, env', h', fuel');
    assert Eval(m, List([Sym("lambda"), Sym(x), body]), env, h, fuel) == Result(Done(c), h);
  }

  /** A function value in head position, and one argument. */
  lemma CalledWithOne(m: Machine, f: Value, arg: Kl, env: Env, h: History, fuel: nat)
    requires f.Closure? || f.Partial?
    ensures var a, r := Eval(m, arg, env, h, fuel), Eval(m, List([Obj(f), arg]), env, h, fuel);
      && (!a.outcome.Done? ==> r == a)
      && (a.outcome.Done? ==> r == Handle(m, f, a.outcome.value, a.history, fuel))
  {
    hide Handle, KeywordOf;
    var items := [Obj(f), arg];
    assert items[1..] == [arg] && FormOf(items) == CallForm(Obj(f), [arg]);
    assert Eval(m, List(items), env, h, fuel) == EvalForm(m, CallForm(Obj(f), [arg]), env, h, fuel);
    assert EvalForm(m, CallForm(Obj(f), [arg]), env, h, fuel) == EvalCall(m, Obj(f), [arg], env, h, fuel);
    assert EvalCall(m, Obj(f), [arg], env, h, fuel) == CallValue(m, f, [arg], env, h, fuel);
    assert CallValue(m, f, [arg], env, h, fuel) == CallEach(m, f, [arg], env, h, fuel);
    var one := CallOne(m, f, arg, env, h, fuel);
    assert [arg][1..] == [];
    assert CallEach(m, f, [arg], env, h, fuel)
      == if one.outcome.Done? then CallEach(m, one.outcome.value, [], env, one.history, fuel) else one;
  }

  /** (freeze body): a function of no argument. */
  lemma FreezeLaw(m: Machine, body: Kl, env: Env, h: History, fuel: nat, env': Env, h': History, fuel': nat)
    requires fuel' > 0
    ensures var f := Eval(m, List([Sym("freeze"), body]), env, h, fuel);
      && f.outcome.Done? && f.history == h
      && Stays(Eval(m, body, env, h', fuel' - 1), Eval(m, List([Obj(f.outcome.value)]), env', h', fuel'))
  {
    hide Eval, KeywordOf;
    assert [Sym("freeze"), body] == [Sym("freeze")] + [body];
    FreezeKeyword();
    Unfolds(m, "freeze", [body], env, h, fuel);
    var c := Closure(None, body, env);
    assert Eval(m, List([Sym("freeze"), body]), env, h, fuel) == Result(Done(c), h);
    CalledWithNone(m, c, env', h', fuel');
  }

  lemma FreezeKeyword()
    ensures KeywordOf("freeze").KFreeze?
  {
  }

  lemma CalledWithNone(m: Machine, f: Value, env: Env, h: History, fuel: nat)
    requires f.Closure?
    ensures Eval(m, List([Obj(f)]), env, h, fuel) == EnterClosure(m, f, [], h, fuel)
  {
    hide EnterClosure, KeywordOf;
    var items := [Obj(f)];
    assert items[1..] == [] && FormOf(items) == CallForm(Obj(f), []);
    assert EvalForm(m, CallForm(Obj(f), []), env, h, fuel) == EvalCall(m, Obj(f), [], env, h, fuel);
    assert EvalCall(m, Obj(f), [], env, h, fuel) == CallValue(m, f, [], env, h, fuel);
  }

  /** (trap-error body handler): without an error the body; with one the handler, applied to it. */
  lemma TrapLaw(m: Machine, body: Kl, handler: Kl, env: Env, h: History, fuel: nat)
    ensures var b, r := Eval(m, body, env, h, fuel), Eval(m, List([Sym("trap-error"), body, handler]), env, h, fuel);
      && (!b.outcome.Thrown? && !b.outcome.Recur? ==> r == b)
      && (b.outcome.Thrown? ==>
            var g := Eval(m, handler, env, b.history, fuel);
            && (!g.outcome.Done? ==> r == g)
            && (g.outcome.Done? && (g.outcome.value.Closure? || g.outcome.value.Partial?) ==>
                  r == Eval(m, List([Obj(g.outcome.value), Obj(b.outcome.error)]), env, g.history, fuel)))
  {
    hide Eval, Handle, EvalTrap;
    TrapUnfolds(m, body, handler, env, h, fuel);
    var b := Eval(m, body, env, h, fuel);
    TrapEnds(m, body, handler, env, h, fuel);
    if b.outcome.Thrown? {
      var g := Eval(m, handler, env, b.history, fuel);
      AtomLaw(m, "", Binding("", Nil), b.outcome.error, env, g.history, fuel);
      if g.outcome.Done? && (g.outcome.value.Closure? || g.outcome.value.Partial?) {
        CalledWithOne(m, g.outcome.value, Obj(b.outcome.error), env, g.history, fuel);
      }
    }
  }

  lemma TrapUnfolds(m: Machine, body: Kl, handler: Kl, env: Env, h: History, fuel: nat)
    ensures Eval(m, List([Sym("trap-error"), body, handler]), env, h, fuel) == EvalTrap(m, body, handler, env, h, fuel)
  {
    hide Eval, EvalTrap;
    assert [Sym("trap-error"), body, handler] == [Sym("trap-error")] + [body, handler];
    Unfolds(m, "trap-error", [body, handler], env, h, fuel);
  }

  lemma TrapEnds(m: Machine, body: Kl, handler: Kl, env: Env, h: History, fuel: nat)
    ensures var b, r := Eval(m, body, env, h, fuel), EvalTrap(m, body, handler, env, h, fuel);
      && (!b.outcome.Thrown? && !b.outcome.Recur? ==> r == b)
      && (b.outcome.Thrown? ==>
            var g := Eval(m, handler, env, b.history, fuel);
            r == if g.outcome.Done? then Handle(m, g.outcome.value, b.outcome.error, g.history, fuel) else g)
  {
    hide Eval, Handle;
  }

  // Loops ---------------------------------------------------------------------------------------

  /** (c.loop (x start) body): a body that ends in c.recur starts over with the new value. */
  lemma LoopLaw(m: Machine, x: string, start: Kl, body: Kl, env: Env, h: History, fuel: nat)
    ensures var v, r := Eval(m, start, env, h, fuel), Eval(m, List([Sym("c.loop"), List([Sym(x), start]), body]), env, h, fuel);
      && (v.outcome.Thrown? || v.outcome.Exhausted? ==> r == v)
      && (v.outcome.Done? ==>
            var b := Eval(m, body, Frame([Binding(x, v.outcome.value)], env), v.history, fuel);
            && (!b.outcome.Recur? ==> r == b)
            && (b.outcome.Recur? && |b.outcome.args| == 1 && fuel > 0 ==>
                  r == Eval(m, List([Sym("c.loop"), List([Sym(x), Obj(b.outcome.args[0])]), body]), env, b.history, fuel - 1)))
  {
    hide Eval;
    var v := Eval(m, start, env, h, fuel);
    LoopUnfolds(m, x, start, body, env, h, fuel);
    if v.outcome.Done? {
      var frame := Frame([Binding(x, v.outcome.value)], env);
      var b := Eval(m, body, frame, v.history, fuel);
      if b.outcome.Recur? && |b.outcome.args| == 1 && fuel > 0 {
        var u := b.outcome.args[0];
        AtomLaw(m, x, Binding(x, u), u, env, b.history, fuel - 1);
        LoopUnfolds(m, x, Obj(u), body, env, b.history, fuel - 1);
        OneUpdate(x, v.outcome.value, u, env);
        assert b.outcome.args == [u];
      }
    }
  }

  lemma OneUpdate(x: string, v: Value, u: Value, env: Env)
    ensures UpdateAll(Frame([Binding(x, v)], env), [x], [u]) == Some(Frame([Binding(x, u)], env))
  {
    var frame := Frame([Binding(x, v)], env);
    assert Position(frame.binds, x) == 0 && frame.binds[0 := Binding(x, u)] == [Binding(x, u)];
    assert [x][1..] == [] && [u][1..] == [];
    assert UpdateAll(Frame([Binding(x, u)], env), [], []) == Some(Frame([Binding(x, u)], env));
  }

  lemma LoopUnfolds(m: Machine, x: string, start: Kl, body: Kl, env: Env, h: History, fuel: nat)
    ensures var v, r := Eval(m, start, env, h, fuel), Eval(m, List([Sym("c.loop"), List([Sym(x), start]), body]), env, h, fuel);
      && (v.outcome.Done? ==> r == Rounds(m, [x], body, Frame([Binding(x, v.outcome.value)], env), v.history, fuel))
      && (v.outcome.Thrown? || v.outcome.Exhausted? ==> r == v)
  {
    hide Eval, Rounds;
    var binds, v := List([Sym(x), start]), Eval(m, start, env, h, fuel);
    assert [Sym("c.loop"), binds, body] == [Sym("c.loop")] + [binds, body];
    Unfolds(m, "c.loop", [binds, body], env, h, fuel);
    assert EvalForm(m, LoopForm(binds, body), env, h, fuel) == EvalLoop(m, binds, body, env, h, fuel);
    assert binds.items[2..] == [] && EvalBinds(m, [], env, v.history, fuel) == Result(Done([]), v.history);
    if v.outcome.Done? {
      var bs := [Binding(x, v.outcome.value)];
      assert bs + [] == bs;
      assert EvalBinds(m, binds.items, env, h, fuel) == Result(Done(bs), v.history);
      assert Names(bs) == [x];
    } else {
      assert EvalBinds(m, binds.items, env, h, fuel) == Failed(v);
    }
  }

  // Calls ---------------------------------------------------------------------------------------

  predicate IsKeyword(name: string) {
    name in {"let", "if", "and", "or", "cond", "trap-error", "lambda", "freeze", "c.loop", "c.recur", "type", "c.mcons", "defun", "eval-kl", "c.quote"}
  }

  /** The arguments, evaluated from left to right, have these values. */
  ghost predicate HaveValues(m: Machine, args: seq<Kl>, env: Env, h: History, fuel: nat, vs: seq<Value>, h': History)
    decreases |args|
  {
    if |args| == 0 then vs == [] && h' == h
    else
      var a := Eval(m, args[0], env, h, fuel);
      |vs| > 0 && a.outcome == Done(vs[0]) && HaveValues(m, args[1..], env, a.history, fuel, vs[1..], h')
  }

  lemma {:induction false} ValuesOf(m: Machine, args: seq<Kl>, env: Env, h: History, fuel: nat, vs: seq<Value>, h': History)
    requires HaveValues(m, args, env, h, fuel, vs, h')
    ensures EvalArgs(m, args, env, h, fuel) == Result(Done(vs), h') && |vs| == |args|
    decreases |args|
  {
    hide Eval;
    if |args| > 0 {
      ValuesOf(m, args[1..], env, Eval(m, args[0], env, h, fuel).history, fuel, vs[1..], h');
      assert vs == [vs[0]] + vs[1..];
    }
  }

  /** (c.recur arg ...) jumps with all its values. */
  lemma RecurLaw(m: Machine, args: seq<Kl>, env: Env, h: History, fuel: nat, vs: seq<Value>, h': History)
    requires HaveValues(m, args, env, h, fuel, vs, h')
    ensures Eval(m, List([Sym("c.recur")] + args), env, h, fuel) == Result(Recur(vs), h')
  {
    hide Eval, HaveValues, EvalArgs;
    Unfolds(m, "c.recur", args, env, h, fuel);
    ValuesOf(m, args, env, h, fuel, vs, h');
  }

  /** (c.mcons a b) is (cons a b). */
  lemma MconsLaw(m: Machine, args: seq<Kl>, env: Env, h: History, fuel: nat, vs: seq<Value>, h': History)
    requires HaveValues(m, args, env, h, fuel, vs, h') && |args| == |vs| == 2
    ensures Eval(m, List([Sym("c.mcons")] + args), env, h, fuel) == Result(Done(Pair(vs[0], vs[1])), h')
  {
    hide Eval, HaveValues, EvalArgs;
    Unfolds(m, "c.mcons", args, env, h, fuel);
    ValuesOf(m, args, env, h, fuel, vs, h');
    assert vs[1..] == [vs[1]] && Chain(vs[1..]) == vs[1];
  }

  lemma NamedUnfolds(m: Machine, f: string, args: seq<Kl>, env: Env, h: History, fuel: nat)
    requires !IsKeyword(f) && IsFunction(m, f)
    ensures Eval(m, List([Sym(f)] + args), env, h, fuel) == CallNamed(m, f, args, env, h, fuel)
  {
    hide CallNamed, KeywordOf;
    NoKeyword(f);
    assert ([Sym(f)] + args)[1..] == args;
    assert FormOf([Sym(f)] + args) == CallForm(Sym(f), args);
    assert EvalForm(m, CallForm(Sym(f), args), env, h, fuel) == EvalCall(m, Sym(f), args, env, h, fuel);
  }

  lemma NoKeyword(f: string)
    requires !IsKeyword(f)
    ensures KeywordOf(f).KNone?
  {
  }

  /** (f arg ...) for a function with that many parameters: the body over the global environment, the
      parameters bound to the arguments. */
  lemma DefinedLaw(m: Machine, f: string, args: seq<Kl>, env: Env, h: History, fuel: nat, vs: seq<Value>, h': History)
    requires !IsKeyword(f) && !IsBuiltin(f) && f in m.funs && |args| == |m.funs[f].params| && fuel > 0
    requires HaveValues(m, args, env, h, fuel, vs, h')
    ensures |vs| == |m.funs[f].params|
    ensures Stays(Eval(m, m.funs[f].body, Extend(Root, Bindings(m.funs[f].params, vs)), h', fuel - 1), Eval(m, List([Sym(f)] + args), env, h, fuel))
  {
    hide Eval, HaveValues, EvalArgs;
    NamedUnfolds(m, f, args, env, h, fuel);
    ValuesOf(m, args, env, h, fuel, vs, h');
    assert CallNamed(m, f, args, env, h, fuel) == Enter(m, f, vs, h', fuel);
  }

  lemma PrimitiveLaw(m: Machine, f: string, args: seq<Kl>, env: Env, h: History, fuel: nat, vs: seq<Value>, h': History)
    requires !IsKeyword(f) && !IsBuiltin(f) && f !in m.funs && f in m.arity && |args| == m.arity[f]
    requires HaveValues(m, args, env, h, fuel, vs, h')
    ensures Stays(m.prims(f, vs, h' + [(f, vs)]), Eval(m, List([Sym(f)] + args), env, h, fuel))
  {
    hide Eval, HaveValues, EvalArgs;
    NamedUnfolds(m, f, args, env, h, fuel);
    ValuesOf(m, args, env, h, fuel, vs, h');
    assert CallNamed(m, f, args, env, h, fuel) == Enter(m, f, vs, h', fuel);
  }

  /** cons, hd and tl: the empty list is its own head and tail. */
  lemma ListLaw(m: Machine, a: Kl, b: Kl, env: Env, h: History, fuel: nat, v: Value, u: Value, h1: History, h2: History)
    requires Eval(m, a, env, h, fuel) == Result(Done(v), h1) && Eval(m, b, env, h1, fuel) == Result(Done(u), h2)
    ensures Eval(m, List([Sym("cons"), a, b]), env, h, fuel) == Result(Done(Pair(v, u)), h2)
    ensures v.Pair? ==> Eval(m, List([Sym("hd"), a]), env, h, fuel) == Result(Done(v.head), h1)
                        && Eval(m, List([Sym("tl"), a]), env, h, fuel) == Result(Done(v.tail), h1)
    ensures v.Nil? ==> Eval(m, List([Sym("hd"), a]), env, h, fuel) == Result(Done(Nil), h1)
                       && Eval(m, List([Sym("tl"), a]), env, h, fuel) == Result(Done(Nil), h1)
  {
    hide Eval, EvalArgs, HaveValues;
    BuiltinUnfolds(m, "cons", [a, b], env, h, fuel, [v, u], h2);
    BuiltinUnfolds(m, "hd", [a], env, h, fuel, [v], h1);
    BuiltinUnfolds(m, "tl", [a], env, h, fuel, [v], h1);
    assert [Sym("cons"), a, b] == [Sym("cons")] + [a, b] && [Sym("hd"), a] == [Sym("hd")] + [a] && [Sym("tl"), a] == [Sym("tl")] + [a];
  }

  lemma BuiltinUnfolds(m: Machine, f: string, args: seq<Kl>, env: Env, h: History, fuel: nat, vs: seq<Value>, h': History)
    requires f in {"cons", "hd", "tl"} && |args| == |vs| == (if f == "cons" then 2 else 1)
    requires var a := Eval(m, args[0], env, h, fuel);
      a.outcome == Done(vs[0]) && if |args| == 1 then a.history == h' else Eval(m, args[1], env, a.history, fuel) == Result(Done(vs[1]), h')
    ensures Eval(m, List([Sym(f)] + args), env, h, fuel) == Builtin(f, vs, h')
  {
    hide Eval, EvalArgs, Builtin;
    NamedUnfolds(m, f, args, env, h, fuel);
    assert HaveValues(m, args, env, h, fuel, vs, h') by {
      if |args| == 2 {
        var a := Eval(m, args[0], env, h, fuel);
        assert args[1..][0] == args[1] && vs[1..][0] == vs[1] && args[1..][1..] == [] && vs[1..][1..] == [];
        assert HaveValues(m, args[1..][1..], env, h', fuel, vs[1..][1..], h');
        assert HaveValues(m, args[1..], env, a.history, fuel, vs[1..], h');
      } else {
        assert args[1..] == [] && vs[1..] == [];
        assert HaveValues(m, args[1..], env, h', fuel, vs[1..], h');
      }
    }
    ValuesOf(m, args, env, h, fuel, vs, h');
    assert CallNamed(m, f, args, env, h, fuel) == Enter(m, f, vs, h', fuel);
  }

  /** A call of a name that stands for nothing. */
  lemma UndefinedLaw(m: Machine, f: string, args: seq<Kl>, env: Env, h: History, fuel: nat)
    requires !IsKeyword(f) && !IsFunction(m, f) && Lookup(env, f).None?
    ensures Eval(m, List([Sym(f)] + args), env, h, fuel) == Throw("Function is undefined", h)
  {
    hide KeywordOf;
    NoKeyword(f);
    assert ([Sym(f)] + args)[1..] == args;
    assert FormOf([Sym(f)] + args) == CallForm(Sym(f), args);
    assert EvalForm(m, CallForm(Sym(f), args), env, h, fuel) == EvalCall(m, Sym(f), args, env, h, fuel);
    assert EvalCall(m, Sym(f), args, env, h, fuel) == CallValue(m, Symbol(f), args, env, h, fuel);
  }

  /** With too few arguments a function waits for the others, one at a time. */
  lemma WaitingLaw(m: Machine, f: string, a: Kl, env: Env, h: History, fuel: nat, b: Kl, env': Env, h': History, fuel': nat, v: Value, h1: History, u: Value, h2: History)
    requires !IsKeyword(f) && !IsBuiltin(f) && f in m.funs && |m.funs[f].params| == 2 && fuel' > 0
    requires Eval(m, a, env, h, fuel) == Result(Done(v), h1) && Eval(m, b, env', h', fuel') == Result(Done(u), h2)
    ensures var c := Eval(m, List([Sym(f), a]), env, h, fuel);
      && c.outcome.Done? && c.history == h1
      && Stays(Eval(m, m.funs[f].body, Extend(Root, Bindings(m.funs[f].params, [v, u])), h2, fuel' - 1),
               Eval(m, List([Obj(c.outcome.value), b]), env', h', fuel'))
  {
    hide Eval;
    assert [Sym(f), a] == [Sym(f)] + [a];
    NamedUnfolds(m, f, [a], env, h, fuel);
    var none, one := Partial(f, []), Partial(f, [v]);
    assert [] + [v] == [v] && [v] + [u] == [v, u] && [a][1..] == [];
    assert CallNamed(m, f, [a], env, h, fuel) == CallEach(m, none, [a], env, h, fuel);
    assert CallOne(m, none, a, env, h, fuel) == Handle(m, none, v, h1, fuel) == EnterPartial(m, none, v, h1, fuel);
    assert EnterPartial(m, none, v, h1, fuel) == Result(Done(one), h1);
    assert CallEach(m, none, [a], env, h, fuel) == CallEach(m, one, [], env, h1, fuel) == Result(Done(one), h1);
    CalledWithOne(m, one, b, env', h', fuel');
    assert Handle(m, one, u, h2, fuel') == EnterPartial(m, one, u, h2, fuel') == Enter(m, f, [v, u], h2, fuel');
  }
}
