/** What the reference evaluator gives, told on the lists themselves: each law gives the outcome of a
    form or a call from the outcomes of its parts. A head that is bound is never a form. */
module EvalLaws {
  import opened Options
  import opened RcValue
  import opened Evaluator

  /** A proper list of these elements; the addresses of its cells do not matter. */
  ghost predicate IsList(v: Value, items: seq<Value>)
    decreases |items|
  {
    if |items| == 0 then v == Nil else v.Pair? && v.head == items[0] && IsList(v.tail, items[1..])
  }

  lemma {:induction false} ListItems(v: Value, items: seq<Value>)
    ensures IsList(v, items) <==> Items(v) == Some(items)
    decreases |items|
  {
    if v.Pair? && |items| > 0 {
      ListItems(v.tail, items[1..]);
      assert items == [items[0]] + items[1..];
    }
  }

  /** A list that begins with a name that is not bound. */
  ghost predicate IsForm(e: Value, name: string, args: seq<Value>, env: Env) {
    IsList(e, [Sym(name)] + args) && Lookup(env, name).None?
  }

  predicate IsFormName(name: string) {
    name in {"if", "let", "lambda", "cond", "c-quote", "and", "or", "freeze", "defun", "trap-error", "type", "quote"}
  }

  lemma FormUnfolds(rt: Runtime, h: History, e: Value, name: string, args: seq<Value>, env: Env, tail: bool)
    requires IsForm(e, name, args, env)
    ensures e.Pair? && e.head == Sym(name) && Within(args, e)
    ensures Eval(rt, h, e, env, tail) == EvalForm(rt, h, e, FormOf(Sym(name)), args, env, tail)
  {
    hide EvalForm, FormOf, Items;
    ListItems(e.tail, args);
    assert ([Sym(name)] + args)[1..] == args;
  }

  // Atoms ---------------------------------------------------------------------------------------

  /** A symbol means its innermost binding, or itself; anything else that is no list means itself. */
  lemma AtomLaw(rt: Runtime, h: History, x: string, name: string, v: Value, e: Value, env: Env, tail: bool)
    ensures Eval(rt, h, Sym(x), Extend(env, name, v), tail) == if x == name then Done(v, h) else Eval(rt, h, Sym(x), env, tail)
    ensures Eval(rt, h, Sym(x), Empty, tail) == Done(Sym(x), h)
    ensures !e.Sym? && !e.Pair? ==> Eval(rt, h, e, env, tail) == Done(e, h)
  {
    LookupIsWalk(Extend(env, name, v), x);
    LookupIsWalk(env, x);
    assert FindLast([(name, v)], x, 1) == if x == name then Some(v) else FindLast([(name, v)], x, 0);
  }

  /** In the frame of a call every parameter means its argument, and other names what they did. */
  lemma ParameterLaw(rt: Runtime, h: History, params: seq<string>, args: seq<Value>, i: nat, x: string, env: Env, tail: bool)
    requires |params| == |args| && Distinct(params) && (i < |params| ==> x == params[i]) && (i >= |params| ==> x !in params)
    ensures Eval(rt, h, Sym(x), MakeFrame(env, params, args), tail)
      == if i < |params| then Done(args[i], h) else Eval(rt, h, Sym(x), env, tail)
  {
    var frame := MakeFrame(env, params, args);
    LookupIsWalk(frame, x);
    LookupIsWalk(env, x);
    if |params| > 0 {
      LastBinding(frame.bindings, x, i, |params|);
    }
  }

  lemma {:induction false} LastBinding(bs: seq<(string, Value)>, x: string, i: nat, n: nat)
    requires n <= |bs| && forall j :: 0 <= j < |bs| ==> (bs[j].0 == x <==> j == i)
    ensures FindLast(bs, x, n) == if i < n then Some(bs[i].1) else None
    decreases n
  {
    if n > 0 {
      LastBinding(bs, x, i, n - 1);
    }
  }

  lemma ImproperLaw(rt: Runtime, h: History, e: Value, env: Env, tail: bool)
    requires e.Pair? && forall items :: !IsList(e.tail, items)
    ensures Eval(rt, h, e, env, tail) == Failed(ImproperList, h)
  {
    if Items(e.tail).Some? {
      ListItems(e.tail, Items(e.tail).value);
    }
  }

  // Forms ---------------------------------------------------------------------------------------

  /** (if test yes no) */
  lemma IfLaw(rt: Runtime, h: History, e: Value, test: Value, yes: Value, no: Value, env: Env, tail: bool)
    requires IsForm(e, "if", [test, yes, no], env)
    ensures var t, o := Eval(rt, h, test, env, false), Eval(rt, h, e, env, tail);
      && (t.Failed? ==> o == t)
      && (t.Done? && t.value == Sym("true") ==> o == Eval(rt, t.history, yes, env, tail))
      && (t.Done? && t.value == Sym("false") ==> o == Eval(rt, t.history, no, env, tail))
      && (t.Done? && t.value != Sym("true") && t.value != Sym("false") ==> o == Failed(IfTest, t.history))
  {
    hide Eval, IsForm;
    FormUnfolds(rt, h, e, "if", [test, yes, no], env, tail);
  }

  /** (let x bound body): the body sees x as the value. */
  lemma LetLaw(rt: Runtime, h: History, e: Value, x: string, bound: Value, body: Value, env: Env, tail: bool)
    requires IsForm(e, "let", [Sym(x), bound, body], env)
    ensures var v, o := Eval(rt, h, bound, env, false), Eval(rt, h, e, env, tail);
      o == if v.Done? then Eval(rt, v.history, body, Extend(env, x, v.value), tail) else v
  {
    hide Eval, IsForm;
    FormUnfolds(rt, h, e, "let", [Sym(x), bound, body], env, tail);
  }

  /** The right operand of and and or: a boolean, an error, or a deferred call that takes the guard
      on. */
  ghost predicate Checked(rt: Runtime, right: Outcome, o: Outcome) {
    && (right.Failed? || (right.value in {Sym("true"), Sym("false")}) ==> o == right)
    && (right.Done? && right.value.Request? ==>
          match rt.guard(right.history, right.value, BooleanGuard)
          case Return(v) => o == Done(v, right.history + [Guarded(right.value, BooleanGuard)])
          case Raise(m) => o == Failed(m, right.history + [Guarded(right.value, BooleanGuard)]))
    && (right.Done? && !right.value.Request? && right.value !in {Sym("true"), Sym("false")} ==> o == Failed(BooleanExpected, right.history))
  }

  /** (and left right) */
  lemma AndLaw(rt: Runtime, h: History, e: Value, left: Value, right: Value, env: Env, tail: bool)
    requires IsForm(e, "and", [left, right], env)
    ensures var l, o := Eval(rt, h, left, env, false), Eval(rt, h, e, env, tail);
      && (l.Failed? || l.value == Sym("false") ==> o == l)
      && (l.Done? && l.value == Sym("true") ==> Checked(rt, Eval(rt, l.history, right, env, tail), o))
      && (l.Done? && l.value !in {Sym("true"), Sym("false")} ==> o == Failed(BooleanArguments, l.history))
  {
    hide Eval, IsForm;
    FormUnfolds(rt, h, e, "and", [left, right], env, tail);
  }

  /** (or left right) */
  lemma OrLaw(rt: Runtime, h: History, e: Value, left: Value, right: Value, env: Env, tail: bool)
    requires IsForm(e, "or", [left, right], env)
    ensures var l, o := Eval(rt, h, left, env, false), Eval(rt, h, e, env, tail);
      && (l.Failed? || l.value == Sym("true") ==> o == l)
      && (l.Done? && l.value == Sym("false") ==> Checked(rt, Eval(rt, l.history, right, env, tail), o))
      && (l.Done? && l.value !in {Sym("true"), Sym("false")} ==> o == Failed(BooleanArguments, l.history))
  {
    hide Eval, IsForm;
    FormUnfolds(rt, h, e, "or", [left, right], env, tail);
  }

  /** (cond clause ...): the clauses are tried in order, and looked at only when it is their turn. */
  lemma CondLaw(rt: Runtime, h: History, e: Value, clause: Value, test: Value, result: Value, e': Value, clauses: seq<Value>, env: Env, tail: bool)
    requires IsForm(e, "cond", [clause] + clauses, env) && IsForm(e', "cond", clauses, env) && IsList(clause, [test, result])
    ensures var t, o := Eval(rt, h, test, env, false), Eval(rt, h, e, env, tail);
      && (t.Failed? ==> o == t)
      && (t.Done? && t.value == Sym("true") ==> o == Eval(rt, t.history, result, env, tail))
      && (t.Done? && t.value == Sym("false") ==> o == Eval(rt, t.history, e', env, tail))
      && (t.Done? && t.value !in {Sym("true"), Sym("false")} ==> o == Failed(CondTest, t.history))
  {
    hide Eval, EvalCond, IsForm, IsList, Within, IsBoolean, IsTrue;
    var t := Eval(rt, h, test, env, false);
    FormUnfolds(rt, h, e, "cond", [clause] + clauses, env, tail);
    FormUnfolds(rt, t.history, e', "cond", clauses, env, tail);
    FirstClause(rt, h, e, e', clause, test, result, clauses, env, tail);
  }

  lemma FirstClause(rt: Runtime, h: History, e: Value, e': Value, clause: Value, test: Value, result: Value, clauses: seq<Value>, env: Env, tail: bool)
    requires Within([clause] + clauses, e) && Within(clauses, e') && IsList(clause, [test, result])
    ensures var t, o := Eval(rt, h, test, env, false), EvalCond(rt, h, e, [clause] + clauses, env, tail);
      && (t.Failed? ==> o == t)
      && (t.Done? && t.value == Sym("true") ==> o == Eval(rt, t.history, result, env, tail))
      && (t.Done? && t.value == Sym("false") ==> o == EvalCond(rt, t.history, e', clauses, env, tail))
      && (t.Done? && t.value !in {Sym("true"), Sym("false")} ==> o == Failed(CondTest, t.history))
  {
    hide Eval;
    var all, t := [clause] + clauses, Eval(rt, h, test, env, false);
    assert all[1..] == clauses;
    ListItems(clause, [test, result]);
    assert forall i :: 0 <= i < |clauses| ==> clauses[i] == all[i + 1];
    CondOfEither(rt, t.history, e, e', clauses, env, tail);
  }

  lemma {:induction false} CondOfEither(rt: Runtime, h: History, e: Value, e': Value, clauses: seq<Value>, env: Env, tail: bool)
    requires Within(clauses, e) && Within(clauses, e')
    ensures EvalCond(rt, h, e, clauses, env, tail) == EvalCond(rt, h, e', clauses, env, tail)
    decreases |clauses|
  {
    hide Eval;
    if |clauses| > 0 && Items(clauses[0]).Some? && |Items(clauses[0]).value| == 2 {
      var t := Eval(rt, h, Items(clauses[0]).value[0], env, false);
      if t.Done? {
        CondOfEither(rt, t.history, e, e', clauses[1..], env, tail);
      }
    }
  }

  lemma NoClauseLaw(rt: Runtime, h: History, e: Value, env: Env, tail: bool)
    requires IsForm(e, "cond", [], env)
    ensures Eval(rt, h, e, env, tail) == Failed(NoTrueCase, h)
  {
    hide Eval, IsForm;
    FormUnfolds(rt, h, e, "cond", [], env, tail);
  }

  /** (type expr t) and (quote e): the expression itself, evaluated or not. */
  lemma TypeLaw(rt: Runtime, h: History, e: Value, expr: Value, t: Value, env: Env, tail: bool)
    requires IsForm(e, "type", [expr, t], env)
    ensures Eval(rt, h, e, env, tail) == Eval(rt, h, expr, env, tail)
  {
    hide Eval, IsForm;
    FormUnfolds(rt, h, e, "type", [expr, t], env, tail);
  }

  lemma QuoteLaw(rt: Runtime, h: History, e: Value, expr: Value, env: Env, tail: bool)
    requires IsForm(e, "quote", [expr], env) || IsForm(e, "c-quote", [expr], env)
    ensures Eval(rt, h, e, env, tail) == Done(expr, h)
  {
    hide Eval, IsForm;
    if IsForm(e, "quote", [expr], env) {
      FormUnfolds(rt, h, e, "quote", [expr], env, tail);
    } else {
      FormUnfolds(rt, h, e, "c-quote", [expr], env, tail);
    }
  }

  /** The runtime is asked to make a function of these parameters, and the request is remembered. */
  ghost predicate Makes(rt: Runtime, h: History, params: seq<string>, body: Value, env: Env, o: Outcome) {
    match rt.makeFunction(h, params, body, env)
    case Return(f) => o == Done(f, h + [MadeFunction(params, body, env)])
    case Raise(m) => o == Failed(m, h + [MadeFunction(params, body, env)])
  }

  /** (lambda x body) makes a function of x over the environment where it stands. */
  lemma LambdaLaw(rt: Runtime, h: History, e: Value, x: string, body: Value, env: Env, tail: bool)
    requires IsForm(e, "lambda", [Sym(x), body], env)
    ensures Makes(rt, h, [x], body, env, Eval(rt, h, e, env, tail))
  {
    hide Eval, IsForm;
    FormUnfolds(rt, h, e, "lambda", [Sym(x), body], env, tail);
    ListItems(Pair(0, Sym(x), Nil), [Sym(x)]);
    FunctionOf(rt, h, Pair(0, Sym(x), Nil), [x], body, env);
  }

  /** (freeze body) makes a function of nothing. */
  lemma FreezeLaw(rt: Runtime, h: History, e: Value, body: Value, env: Env, tail: bool)
    requires IsForm(e, "freeze", [body], env)
    ensures Makes(rt, h, [], body, env, Eval(rt, h, e, env, tail))
  {
    hide Eval, IsForm;
    FormUnfolds(rt, h, e, "freeze", [body], env, tail);
    FunctionOf(rt, h, Nil, [], body, env);
  }

  ghost predicate AreSymbols(params: seq<Value>, names: seq<string>) {
    |params| == |names| && forall i :: 0 <= i < |params| ==> params[i] == Sym(names[i])
  }

  lemma FunctionOf(rt: Runtime, h: History, params: Value, names: seq<string>, body: Value, env: Env)
    requires Items(params).Some? && AreSymbols(Items(params).value, names) && Distinct(names)
    ensures Makes(rt, h, names, body, env, MakeFunction(rt, h, params, body, env))
  {
    var items := Items(params).value;
    forall i, j | 0 <= i < j < |items|
      ensures items[i] != items[j]
    {
      assert names[i] != names[j];
    }
    DistinctParameters(items, 0);
    assert Names(items) == names;
  }

  lemma {:induction false} DistinctParameters(items: seq<Value>, i: nat)
    requires i <= |items| && Distinct(items) && forall j :: 0 <= j < |items| ==> items[j].Sym?
    ensures ParametersFrom(items, i).None?
    decreases |items| - i
  {
    if i < |items| {
      DistinctParameters(items, i + 1);
    }
  }

  /** (defun f (x ...) body) makes a function over no environment, sets it, and gives the name. */
  lemma DefunLaw(rt: Runtime, h: History, e: Value, f: string, params: Value, names: seq<string>, body: Value, env: Env, tail: bool, made: Outcome)
    requires IsForm(e, "defun", [Sym(f), params, body], env) && Distinct(names)
    requires exists items :: IsList(params, items) && AreSymbols(items, names)
    requires Makes(rt, h, names, body, Empty, made)
    ensures var o := Eval(rt, h, e, env, tail);
      && (made.Failed? ==> o == made)
      && (made.Done? ==>
            var h' := made.history + [SetFunction(f, made.value)];
            match rt.setFunction(made.history, f, made.value)
            case None => o == Done(Sym(f), h')
            case Some(m) => o == Failed(m, h'))
  {
    hide Eval, IsForm;
    FormUnfolds(rt, h, e, "defun", [Sym(f), params, body], env, tail);
    var items :| IsList(params, items) && AreSymbols(items, names);
    ListItems(params, items);
    FunctionOf(rt, h, params, names, body, Empty);
  }

  /** The first i parameters are symbols that do not come again. */
  ghost predicate InOrder(items: seq<Value>, i: nat)
    requires i <= |items|
  {
    forall k :: 0 <= k < i ==> items[k].Sym? && items[k] !in items[k + 1..]
  }

  /** The first parameter that comes again, or that is no symbol, is an error, and nothing is made. */
  lemma BadParameterLaw(rt: Runtime, h: History, e: Value, f: string, params: Value, items: seq<Value>, i: nat, body: Value, env: Env, tail: bool)
    requires IsForm(e, "defun", [Sym(f), params, body], env) && IsList(params, items) && i < |items| && InOrder(items, i)
    ensures !items[i].Sym? ==> Eval(rt, h, e, env, tail) == Failed(BadParameter, h)
    ensures items[i].Sym? && items[i] in items[i + 1..] ==> Eval(rt, h, e, env, tail) == Failed(DuplicateParameter(items[i].name), h)
  {
    hide Eval, IsForm, IsList, InOrder, ParametersFrom, MakeFunction;
    FormUnfolds(rt, h, e, "defun", [Sym(f), params, body], env, tail);
    ListItems(params, items);
    FirstBad(items, i, 0);
    if ParametersFrom(items, 0).Some? {
      NothingIsMade(rt, h, params, items, body);
    }
  }

  lemma NothingIsMade(rt: Runtime, h: History, params: Value, items: seq<Value>, body: Value)
    requires Items(params) == Some(items) && ParametersFrom(items, 0).Some?
    ensures MakeFunction(rt, h, params, body, Empty) == Failed(ParametersFrom(items, 0).value, h)
  {
    hide Items, ParametersFrom;
  }

  lemma {:induction false} FirstBad(items: seq<Value>, i: nat, from: nat)
    requires from <= i < |items| && InOrder(items, i)
    ensures !items[i].Sym? ==> ParametersFrom(items, from) == Some(BadParameter)
    ensures items[i].Sym? && items[i] in items[i + 1..] ==> ParametersFrom(items, from) == Some(DuplicateParameter(items[i].name))
    decreases i - from
  {
    if from < i {
      FirstBad(items, i, from + 1);
    }
  }

  /** (trap-error body handler): the handler is evaluated and applied only after an error, which it is
      given. */
  lemma TrapLaw(rt: Runtime, h: History, e: Value, body: Value, handler: Value, env: Env, tail: bool)
    requires IsForm(e, "trap-error", [body, handler], env)
    ensures var b, o := Eval(rt, h, body, env, false), Eval(rt, h, e, env, tail);
      && (b.Done? ==> o == b)
      && (b.Failed? ==>
            var g := Eval(rt, b.history, handler, env, false);
            && (g.Failed? ==> o == g)
            && (g.Done? ==>
                  var h' := g.history + [Handled(g.value, b.message, tail)];
                  match rt.handle(g.history, g.value, b.message, tail)
                  case Return(v) => o == Done(v, h')
                  case Raise(m) => o == Failed(m, h')))
  {
    hide Eval, IsForm;
    FormUnfolds(rt, h, e, "trap-error", [body, handler], env, tail);
  }

  /** A form with another number of parts is an error. */
  lemma WrongCountLaw(rt: Runtime, h: History, e: Value, name: string, args: seq<Value>, env: Env, tail: bool)
    requires IsForm(e, name, args, env)
    requires (name in {"if", "let", "defun"} && |args| != 3) || (name in {"and", "or", "trap-error", "type", "lambda"} && |args| != 2)
          || (name in {"quote", "c-quote", "freeze"} && |args| != 1)
    ensures Eval(rt, h, e, env, tail).Failed? && Eval(rt, h, e, env, tail).message.WrongCount?
    ensures Eval(rt, h, e, env, tail).history == h && Eval(rt, h, e, env, tail).message.received == |args|
  {
    hide Eval, IsForm;
    FormUnfolds(rt, h, e, name, args, env, tail);
  }

  /** What is bound has to be a symbol. */
  lemma BinderLaw(rt: Runtime, h: History, e: Value, name: string, binder: Value, second: Value, third: Value, env: Env, tail: bool)
    requires !binder.Sym?
    ensures IsForm(e, "let", [binder, second, third], env) ==> Eval(rt, h, e, env, tail) == Failed(BadLetBinder, h)
    ensures IsForm(e, "lambda", [binder, second], env) ==> Eval(rt, h, e, env, tail) == Failed(BadLambdaBinder, h)
    ensures IsForm(e, "defun", [binder, second, third], env) ==> Eval(rt, h, e, env, tail) == Failed(BadDefunName, h)
  {
    hide Eval, IsForm;
    if IsForm(e, "let", [binder, second, third], env) {
      FormUnfolds(rt, h, e, "let", [binder, second, third], env, tail);
    }
    if IsForm(e, "lambda", [binder, second], env) {
      FormUnfolds(rt, h, e, "lambda", [binder, second], env, tail);
    }
    if IsForm(e, "defun", [binder, second, third], env) {
      FormUnfolds(rt, h, e, "defun", [binder, second, third], env, tail);
    }
  }

  // Calls ---------------------------------------------------------------------------------------

  /** A call: its head is bound, or names no form. */
  ghost predicate IsCall(e: Value, head: Value, args: seq<Value>, env: Env) {
    IsList(e, [head] + args) && (head.Sym? && IsFormName(head.name) ==> Lookup(env, head.name).Some?)
  }

  /** The function that the value v of a head stands for: a symbol stands for what is in the function
      table. */
  ghost predicate StandsFor(rt: Runtime, h: History, v: Value, f: Value) {
    if v.Sym? then rt.functionOf(h, v.name) == Some(f) else v == f
  }

  /** The head is found to be the function f: a bound name means its value, another name the function
      of that name, and anything else is evaluated. */
  ghost predicate Finds(rt: Runtime, h: History, head: Value, env: Env, f: Value, h': History) {
    exists v ::
      && (if head.Sym? then
            h' == h && (if Lookup(env, head.name).Some? then Lookup(env, head.name) == Some(v) else rt.functionOf(h, head.name) == Some(v))
          else Eval(rt, h, head, env, false) == Done(v, h'))
      && StandsFor(rt, h', v, f)
  }

  /** The arguments, evaluated from left to right, have these values. */
  ghost predicate HaveValues(rt: Runtime, h: History, args: seq<Value>, env: Env, vs: seq<Value>, h': History)
    decreases |args|
  {
    if |args| == 0 then vs == [] && h' == h
    else
      var a := Eval(rt, h, args[0], env, false);
      |vs| > 0 && a.Done? && a.value == vs[0] && HaveValues(rt, a.history, args[1..], env, vs[1..], h')
  }

  /** f is called with these values, and the call is remembered. */
  ghost predicate IsCallOf(rt: Runtime, h: History, f: Value, vs: seq<Value>, tail: bool, o: Outcome) {
    match rt.call(h, f, vs, tail)
    case Return(v) => o == Done(v, h + [Called(f, vs, tail)])
    case Raise(m) => o == Failed(m, h + [Called(f, vs, tail)])
  }

  lemma CallUnfolds(rt: Runtime, h: History, e: Value, head: Value, args: seq<Value>, env: Env, tail: bool)
    requires IsCall(e, head, args, env)
    ensures e.Pair? && e.head == head && Within(args, e) && Eval(rt, h, e, env, tail) == Application(rt, h, e, args, env, tail)
  {
    hide Application, Items;
    ListItems(e.tail, args);
    assert ([head] + args)[1..] == args;
  }

  lemma CalleeIsFound(rt: Runtime, h: History, e: Value, env: Env, f: Value, h': History)
    requires e.Pair? && Finds(rt, h, e.head, env, f, h')
    ensures Callee(rt, h, e, env) == Done(f, h')
  {
    hide Eval;
  }

  lemma {:induction false} ArgumentsHaveValues(rt: Runtime, h: History, e: Value, args: seq<Value>, env: Env, vs: seq<Value>, h': History)
    requires Within(args, e) && HaveValues(rt, h, args, env, vs, h')
    ensures EvalArguments(rt, h, e, args, env) == Arguments.Values(vs, h')
    decreases |args|
  {
    hide Eval;
    if |args| > 0 {
      ArgumentsHaveValues(rt, Eval(rt, h, args[0], env, false).history, e, args[1..], env, vs[1..], h');
      assert vs == [vs[0]] + vs[1..];
    }
  }

  /** (f arg ...): the function is found first, then the arguments are evaluated from left to right. */
  lemma CallLaw(rt: Runtime, h: History, e: Value, head: Value, args: seq<Value>, env: Env, tail: bool, f: Value, h1: History, vs: seq<Value>, h2: History)
    requires IsCall(e, head, args, env) && Finds(rt, h, head, env, f, h1) && HaveValues(rt, h1, args, env, vs, h2)
    requires !(tail && |args| == 2 && rt.returnsSecond(h1, f))
    ensures IsCallOf(rt, h2, f, vs, tail, Eval(rt, h, e, env, tail))
  {
    hide Eval, IsCall, Finds, HaveValues;
    CallUnfolds(rt, h, e, head, args, env, tail);
    CalleeIsFound(rt, h, e, env, f, h1);
    ArgumentsHaveValues(rt, h1, e, args, env, vs, h2);
  }

  /** The first argument that fails ends the call: nothing after it is evaluated. */
  lemma {:induction false} FailedArgument(rt: Runtime, h: History, e: Value, args: seq<Value>, env: Env, i: nat, vs: seq<Value>, h': History)
    requires Within(args, e) && i < |args| && HaveValues(rt, h, args[..i], env, vs, h') && Eval(rt, h', args[i], env, false).Failed?
    ensures var a := Eval(rt, h', args[i], env, false);
      EvalArguments(rt, h, e, args, env) == Stopped(a.message, a.history)
    decreases i
  {
    hide Eval;
    if i > 0 {
      assert args[..i][1..] == args[1..][..i - 1];
      FailedArgument(rt, Eval(rt, h, args[0], env, false).history, e, args[1..], env, i - 1, vs[1..], h');
    }
  }

  lemma FailedArgumentLaw(rt: Runtime, h: History, e: Value, head: Value, args: seq<Value>, env: Env, f: Value, h1: History, i: nat, vs: seq<Value>, h2: History)
    requires IsCall(e, head, args, env) && Finds(rt, h, head, env, f, h1)
    requires i < |args| && HaveValues(rt, h1, args[..i], env, vs, h2) && Eval(rt, h2, args[i], env, false).Failed?
    ensures Eval(rt, h, e, env, false) == Eval(rt, h2, args[i], env, false)
  {
    hide Eval, IsCall, Finds, HaveValues;
    CallUnfolds(rt, h, e, head, args, env, false);
    CalleeIsFound(rt, h, e, env, f, h1);
    FailedArgument(rt, h1, e, args, env, i, vs, h2);
  }

  /** A name that is neither bound nor in the function table stops a call before its arguments. */
  lemma UndefinedLaw(rt: Runtime, h: History, e: Value, name: string, args: seq<Value>, env: Env, tail: bool)
    requires IsCall(e, Sym(name), args, env) && Lookup(env, name).None? && rt.functionOf(h, name).None?
    ensures Eval(rt, h, e, env, tail) == Failed(UndefinedFunction(name), h)
  {
    hide IsCall;
    CallUnfolds(rt, h, e, Sym(name), args, env, tail);
  }

  /** The end of a call that is not made: after the second argument, a pending error counts, a deferred
      call is guarded, and otherwise the value is the answer. */
  ghost predicate EndsSecond(rt: Runtime, second: Outcome, o: Outcome) {
    && (second.Failed? ==> o == second)
    && (second.Done? && rt.pending(second.history).Some? ==> o == Failed(rt.pending(second.history).value, second.history))
    && (second.Done? && rt.pending(second.history).None? && !second.value.Request? ==> o == Done(second.value, second.history + [Safepoint]))
    && (second.Done? && rt.pending(second.history).None? && second.value.Request? ==>
          var h' := second.history + [Guarded(second.value, ContextGuard)];
          match rt.guard(second.history, second.value, ContextGuard)
          case Return(v) => o == Done(v, h' + [Safepoint])
          case Raise(m) => o == Failed(m, h'))
  }

  /** A tail call of a function that returns its second argument. If the first argument is accepted,
      the second is evaluated in tail position and is the answer, without a call; if not, it is the
      call on both values. */
  lemma SecondLaw(rt: Runtime, h: History, e: Value, head: Value, a: Value, b: Value, env: Env, f: Value, h1: History)
    requires IsCall(e, head, [a, b], env) && Finds(rt, h, head, env, f, h1) && rt.returnsSecond(h1, f)
    ensures var first, o := Eval(rt, h1, a, env, false), Eval(rt, h, e, env, true);
      && (first.Failed? ==> o == first)
      && (first.Done? && rt.accepts(first.history, f, first.value) ==> EndsSecond(rt, Eval(rt, first.history, b, env, true), o))
      && (first.Done? && !rt.accepts(first.history, f, first.value) ==>
            var second := Eval(rt, first.history, b, env, false);
            && (second.Failed? ==> o == second)
            && (second.Done? ==> IsCallOf(rt, second.history, f, [first.value, second.value], true, o)))
  {
    hide Eval, IsCall, Finds;
    CallUnfolds(rt, h, e, head, [a, b], env, true);
    CalleeIsFound(rt, h, e, env, f, h1);
  }
}
