/** Curried eta expansions that need no compiler (eta_template and eta_call in
    src/rc/native_compile.c), against the evaluation of the nested lambdas. */
module EtaTemplate {
  import opened Options
  import opened RcValue
  import opened Evaluator

  const ETA_LIMIT: nat := 16

  /** What eta_call captures: the target, the arguments so far, and how many it takes in all. */
  datatype Eta = Eta(target: string, bound: seq<Value>, arity: nat)

  /** The names that a target must not have. */
  const SPECIALS: set<string> :=
    {"if", "cond", "let", "lambda", "freeze", "defun", "trap-error", "type", "quote", "c-quote", "and", "or"}

  lemma SpecialsAreForms(name: string)
    ensures name in SPECIALS <==> FormOf(Sym(name)) != FCall
  {
  }

  // Matching ------------------------------------------------------------------------------------

  predicate IsLambda(e: Value) {
    e.Pair? && e.head == Sym("lambda")
  }

  predicate HasWidth(e: Value, n: nat) {
    Items(e).Some? && |Items(e).value| == n
  }

  lemma WidthOfTail(e: Value, n: nat)
    ensures HasWidth(e, n) == if n == 0 then e.Nil? else e.Pair? && HasWidth(e.tail, n - 1)
  {
  }

  datatype Match = Match(params: seq<Value>, target: string)

  /** (lambda p (lambda q ... (target p q ...))), params being the parameters above e. */
  function Matching(e: Value, params: seq<Value>): Option<Match>
    decreases e
  {
    if IsLambda(e) then
      if |params| == ETA_LIMIT || !HasWidth(e, 3) then None
      else
        WidthOfTail(e, 3);
        WidthOfTail(e.tail, 2);
        WidthOfTail(e.tail.tail, 1);
        var p := e.tail.head;
        if !p.Sym? || p in params then None else Matching(e.tail.tail.head, params + [p])
    else if |params| == 0 || !HasWidth(e, |params| + 1) then None
    else if !e.head.Sym? || e.head in params || e.head.name in SPECIALS || Items(e.tail) != Some(params) then None
    else Some(Match(params, e.head.name))
  }

  /** list_width */
  method ListWidth(e: Value, width: nat) returns (r: bool)
    ensures r == HasWidth(e, width)
  {
    var x, i := e, 0;
    while i < width
      invariant i <= width && HasWidth(e, width) == HasWidth(x, width - i)
    {
      WidthOfTail(x, width - i);
      if !x.Pair? {
        return false;
      }
      x, i := x.tail, i + 1;
    }
    WidthOfTail(x, 0);
    r := x.Nil?;
  }

  /** The comparison of the arguments with the parameters, one by one. */
  method SameItems(e: Value, params: seq<Value>) returns (r: bool)
    requires HasWidth(e, |params|)
    ensures r == (Items(e) == Some(params))
  {
    var x, i := e, 0;
    assert params[0..] == params;
    while i < |params|
      invariant i <= |params| && HasWidth(x, |params| - i)
      invariant (Items(e) == Some(params)) == (Items(x) == Some(params[i..]))
    {
      WidthOfTail(x, |params| - i);
      assert params[i..] == [params[i]] + params[i + 1..];
      assert Items(x).value == [x.head] + Items(x.tail).value;
      assert Items(x).value[1..] == Items(x.tail).value && params[i..][1..] == params[i + 1..];
      if x.head != params[i] {
        return false;
      }
      x, i := x.tail, i + 1;
    }
    assert params[i..] == [];
    r := true;
  }

  /** eta_template */
  method Template(e: Value) returns (r: Option<Eta>)
    ensures r.Some? == Matching(e, []).Some?
    ensures r.Some? ==> var m := Matching(e, []).value; r.value == Eta(m.target, [], |m.params|) && 0 < |m.params| <= ETA_LIMIT
  {
    var params, body := [], e;
    while IsLambda(body)
      invariant |params| <= ETA_LIMIT && Matching(body, params) == Matching(e, [])
      decreases body
    {
      var wide := ListWidth(body, 3);
      if |params| == ETA_LIMIT || !wide {
        return None;
      }
      WidthOfTail(body, 3);
      WidthOfTail(body.tail, 2);
      WidthOfTail(body.tail.tail, 1);
      var p := body.tail.head;
      if !p.Sym? || p in params {
        return None;
      }
      params, body := params + [p], body.tail.tail.head;
    }
    var wide := ListWidth(body, |params| + 1);
    if |params| == 0 || !wide {
      return None;
    }
    WidthOfTail(body, |params| + 1);
    var target := body.head;
    if !target.Sym? || target in params || target.name in SPECIALS {
      return None;
    }
    var same := SameItems(body.tail, params);
    r := if same then Some(Eta(target.name, [], |params|)) else None;
  }

  // Applying to one argument at a time ----------------------------------------------------------

  /** A function of one argument: a lambda in its environment, or a template. */
  datatype Function = Lambda(param: string, body: Value, env: Env) | Templated(eta: Eta)

  datatype Applied = Next(f: Function) | Result(outcome: Outcome)

  /** The lambda that an expression evaluates to, if it is one. */
  function LambdaOf(e: Value, env: Env): Option<Function> {
    if IsLambda(e) && LexicalHead(e.head, env).None? && HasWidth(e.tail, 2)
      && (WidthOfTail(e.tail, 2); WidthOfTail(e.tail.tail, 1); e.tail.head.Sym?)
    then Some(Lambda(e.tail.head.name, e.tail.tail.head, env)) else None
  }

  function ApplyLambda(rt: Runtime, h: History, f: Function, v: Value): Applied
    requires f.Lambda?
  {
    var env := Extend(f.env, f.param, v);
    if LambdaOf(f.body, env).Some? then Next(LambdaOf(f.body, env).value) else Result(Eval(rt, h, f.body, env, true))
  }

  /** eta_call: the target is looked up with the last argument. */
  function ApplyTemplate(rt: Runtime, h: History, eta: Eta, v: Value): Applied {
    if |eta.bound| + 1 < eta.arity then Next(Templated(eta.(bound := eta.bound + [v])))
    else Result(CallTarget(rt, h, eta.target, eta.bound + [v]))
  }

  function CallTarget(rt: Runtime, h: History, target: string, args: seq<Value>): Outcome {
    match FunctionGet(rt, h, target)
    case Failed(m, h') => Failed(m, h')
    case Done(f, h') => Call(rt, h', f, args, true)
  }

  /** eta_call; None for a closure or a call that eta_template never makes. */
  method EtaCall(rt: Runtime, h: History, eta: Eta, argv: seq<Value>) returns (r: Option<Applied>)
    ensures r.Some? <==> |argv| == 1 && 0 < eta.arity <= ETA_LIMIT && |eta.bound| < eta.arity
    ensures r.Some? ==> r.value == ApplyTemplate(rt, h, eta, argv[0])
  {
    var n := |eta.bound|;
    if |argv| != 1 || eta.arity == 0 || eta.arity > ETA_LIMIT || n >= eta.arity {
      return None;
    }
    var args, i := [], 0;
    while i < n
      invariant i <= n && args == eta.bound[..i]
    {
      args, i := args + [eta.bound[i]], i + 1;
    }
    assert eta.bound[..n] == eta.bound;
    args := args + [argv[0]];
    if n + 1 < eta.arity {
      return Some(Next(Templated(Eta(eta.target, args, eta.arity))));
    }
    var f := FunctionGet(rt, h, eta.target);
    r := Some(Result(if f.Done? then Call(rt, f.history, f.value, args, true) else f));
  }

  function Apply(rt: Runtime, h: History, f: Function, v: Value): Applied {
    match f
    case Lambda(_, _, _) => ApplyLambda(rt, h, f, v)
    case Templated(eta) => ApplyTemplate(rt, h, eta, v)
  }

  /** The arguments one after the other, each at a time of its own. */
  function Feed(rt: Runtime, times: seq<History>, f: Function, args: seq<Value>): Applied
    requires |times| == |args|
    decreases |args|
  {
    if |args| == 0 then Next(f)
    else
      var r := Apply(rt, times[0], f, args[0]);
      if r.Next? then Feed(rt, times[1..], r.f, args[1..]) else r
  }

  // The template is the nest --------------------------------------------------------------------

  ghost predicate AreParams(params: seq<Value>) {
    Distinct(params) && forall p :: p in params ==> p.Sym?
  }

  function Inner(params: seq<Value>, args: seq<Value>): Env
    requires |params| == |args| && forall p :: p in params ==> p.Sym?
  {
    if |params| == 0 then Empty
    else
      assert params[|params| - 1] in params;
      Extend(Inner(params[..|params| - 1], args[..|args| - 1]), params[|params| - 1].name, args[|args| - 1])
  }

  lemma {:induction false} InnerWalk(params: seq<Value>, args: seq<Value>, name: string)
    requires |params| == |args| && AreParams(params)
    ensures Sym(name) !in params ==> Walk(Inner(params, args), name).None?
    ensures forall i :: 0 <= i < |params| && params[i] == Sym(name) ==> Walk(Inner(params, args), name) == Some(args[i])
    decreases |params|
  {
    var n := |params|;
    if n > 0 {
      InnerWalk(params[..n - 1], args[..n - 1], name);
      assert params[n - 1] in params;
      var env := Inner(params, args);
      assert FindLast(env.bindings, name, 1) == if params[n - 1] == Sym(name) then Some(args[n - 1]) else None;
    }
  }

  lemma InnerLookup(params: seq<Value>, args: seq<Value>, name: string)
    requires |params| == |args| && AreParams(params)
    ensures Sym(name) !in params ==> Lookup(Inner(params, args), name).None?
    ensures forall i :: 0 <= i < |params| && params[i] == Sym(name) ==> Lookup(Inner(params, args), name) == Some(args[i])
  {
    LookupIsWalk(Inner(params, args), name);
    InnerWalk(params, args, name);
  }

  lemma InnerOneMore(params: seq<Value>, args: seq<Value>, p: Value, v: Value)
    requires |params| == |args| && AreParams(params) && p.Sym? && p !in params
    ensures AreParams(params + [p]) && Inner(params + [p], args + [v]) == Extend(Inner(params, args), p.name, v)
  {
    assert (params + [p])[..|params|] == params && (args + [v])[..|args|] == args;
  }

  lemma {:induction false} ParametersAreValues(rt: Runtime, h: History, e: Value, params: seq<Value>, args: seq<Value>, i: nat)
    requires |params| == |args| && AreParams(params) && i <= |params| && Within(params, e)
    ensures EvalArguments(rt, h, e, params[i..], Inner(params, args)) == Values(args[i..], h)
    decreases |params| - i
  {
    if i < |params| {
      ParametersAreValues(rt, h, e, params, args, i + 1);
      assert params[i] in params;
      InnerLookup(params, args, params[i].name);
      assert params[i..][1..] == params[i + 1..] && args[i..] == [args[i]] + args[i + 1..];
    }
  }

  /** The slot of the target holds no symbol: only closures are ever stored. */
  ghost predicate HoldsFunction(rt: Runtime, target: string) {
    forall h :: rt.functionOf(h, target).Some? ==> !rt.functionOf(h, target).value.Sym?
  }

  /** The target is never a function that returns its second argument without a call. */
  ghost predicate AlwaysCalled(rt: Runtime, target: string) {
    forall h :: rt.functionOf(h, target).Some? ==> !rt.returnsSecond(h, rt.functionOf(h, target).value)
  }

  /** The same value or the same error; the interactions on the way may differ. */
  predicate SameAnswer(o: Outcome, o': Outcome) {
    match (o, o')
    case (Done(v, _), Done(v', _)) => v == v'
    case (Failed(m, _), Failed(m', _)) => m == m'
    case _ => false
  }

  /** A call of two arguments that is shortened to its second argument answers as the call would. */
  ghost predicate ShortensAlike(rt: Runtime, target: string) {
    forall h, first, second :: rt.functionOf(h, target).Some? && rt.returnsSecond(h, rt.functionOf(h, target).value) ==>
      var f := rt.functionOf(h, target).value;
      SameAnswer(FinishSecond(rt, f, first, rt.accepts(h, f, first), Done(second, h)), Call(rt, h, f, [first, second], true))
  }

  /** Only calls of two arguments are ever shortened. */
  ghost predicate Plain(rt: Runtime, target: string, arity: nat) {
    arity != 2 || AlwaysCalled(rt, target)
  }

  ghost predicate Alike(rt: Runtime, target: string, arity: nat) {
    HoldsFunction(rt, target) && (arity == 2 ==> ShortensAlike(rt, target))
  }

  lemma PlainIsAlike(rt: Runtime, target: string, arity: nat)
    requires HoldsFunction(rt, target) && Plain(rt, target, arity)
    ensures Alike(rt, target, arity)
  {
  }

  /** The innermost body is the call that the template makes. */
  lemma InnermostCall(rt: Runtime, h: History, e: Value, params: seq<Value>, args: seq<Value>)
    requires !IsLambda(e) && Matching(e, params).Some? && |args| == |params| && AreParams(params)
    requires Alike(rt, Matching(e, params).value.target, |params|)
    ensures var target := Matching(e, params).value.target;
      var nest, template := Eval(rt, h, e, Inner(params, args), true), CallTarget(rt, h, target, args);
      SameAnswer(nest, template) && (Plain(rt, target, |params|) ==> nest == template)
  {
    WidthOfTail(e, |params| + 1);
    InnerLookup(params, args, e.head.name);
    SpecialsAreForms(e.head.name);
    hide SameAnswer;
    assert Within(params, e);
    ParametersAreValues(rt, h, e, params, args, 0);
    assert params[0..] == params && args[0..] == args;
    var env := Inner(params, args);
    assert Eval(rt, h, e, env, true) == EvalForm(rt, h, e, FCall, params, env, true) == Application(rt, h, e, params, env, true);
    assert Callee(rt, h, e, env) == FunctionGet(rt, h, e.head.name);
    var f := rt.functionOf(h, e.head.name);
    if f.Some? && |params| == 2 && rt.returnsSecond(h, f.value) {
      ShortenedCall(rt, h, e, f.value, params, args);
    } else {
      SameAsItself(CallTarget(rt, h, e.head.name, args));
    }
  }

  lemma SameAsItself(o: Outcome)
    ensures SameAnswer(o, o)
  {
  }

  lemma ShortenedCall(rt: Runtime, h: History, e: Value, f: Value, params: seq<Value>, args: seq<Value>)
    requires e.Pair? && e.head.Sym? && Within(params, e) && |params| == |args| == 2 && AreParams(params)
    requires rt.functionOf(h, e.head.name) == Some(f) && Callee(rt, h, e, Inner(params, args)) == Done(f, h) && rt.returnsSecond(h, f)
    requires ShortensAlike(rt, e.head.name)
    ensures SameAnswer(Application(rt, h, e, params, Inner(params, args), true), CallTarget(rt, h, e.head.name, args))
  {
    hide Inner, SameAnswer, FinishSecond;
    var env := Inner(params, args);
    ParameterIsValue(rt, h, params, args, 0, false);
    var accepted := rt.accepts(h, f, args[0]);
    ParameterIsValue(rt, h, params, args, 1, accepted);
    assert args == [args[0], args[1]];
    assert Application(rt, h, e, params, env, true) == FinishSecond(rt, f, args[0], accepted, Done(args[1], h));
  }

  lemma ParameterIsValue(rt: Runtime, h: History, params: seq<Value>, args: seq<Value>, i: nat, tail: bool)
    requires |params| == |args| && AreParams(params) && i < |params|
    ensures Eval(rt, h, params[i], Inner(params, args), tail) == Done(args[i], h)
  {
    assert params[i] in params;
    InnerLookup(params, args, params[i].name);
  }

  lemma {:induction false} MatchingExtends(e: Value, params: seq<Value>)
    requires Matching(e, params).Some?
    ensures var all := Matching(e, params).value.params;
      params <= all && (if IsLambda(e) then |all| > |params| && e.tail.Pair? && all[|params|] == e.tail.head else all == params)
    decreases e
  {
    if IsLambda(e) {
      WidthOfTail(e, 3);
      WidthOfTail(e.tail, 2);
      WidthOfTail(e.tail.tail, 1);
      MatchingExtends(e.tail.tail.head, params + [e.tail.head]);
    }
  }

  /** The two results of the last argument. */
  ghost predicate Agree(rt: Runtime, m: Match, nest: Applied, template: Applied) {
    && nest.Result? && template.Result? && SameAnswer(nest.outcome, template.outcome)
    && (Plain(rt, m.target, |m.params|) ==> nest == template)
  }

  /** Every argument but the last gives a function, the last one the call. */
  lemma {:induction false} StagesAgree(rt: Runtime, times: seq<History>, e: Value, params: seq<Value>, args: seq<Value>, more: seq<Value>)
    requires Matching(e, params).Some? && IsLambda(e) && AreParams(params) && |args| == |params| && |times| == |more|
    requires Alike(rt, Matching(e, params).value.target, |Matching(e, params).value.params|)
    requires var all := Matching(e, params).value.params;
      |params| + |more| <= |all| && forall i :: 0 <= i < |all| - 1 ==> all[i] != Sym("lambda")
    ensures var m := Matching(e, params).value;
      var f, g := LambdaOf(e, Inner(params, args)), Templated(Eta(m.target, args, |m.params|));
      && f.Some?
      && if |params| + |more| < |m.params| then Feed(rt, times, f.value, more).Next? && Feed(rt, times, g, more).Next?
         else Agree(rt, m, Feed(rt, times, f.value, more), Feed(rt, times, g, more))
    decreases e
  {
    hide SameAnswer, Plain, Alike, Inner, CallTarget, Eval;
    WidthOfTail(e, 3);
    WidthOfTail(e.tail, 2);
    WidthOfTail(e.tail.tail, 1);
    MatchingExtends(e, params);
    var m, p, body := Matching(e, params).value, e.tail.head, e.tail.tail.head;
    assert Sym("lambda") !in params;
    InnerLookup(params, args, "lambda");
    if |more| > 0 {
      var v := more[0];
      InnerOneMore(params, args, p, v);
      MatchingExtends(body, params + [p]);
      if IsLambda(body) {
        StagesAgree(rt, times[1..], body, params + [p], args + [v], more[1..]);
      } else {
        InnermostCall(rt, times[0], body, params + [p], args + [v]);
        InnerLookup(params + [p], args + [v], body.head.name);
      }
    }
  }

  /** Main result: the closure of the template behaves as the nest of lambdas, argument by argument,
      and looks its target up when the last one arrives, whatever happened in between. Unless it is a
      call of two arguments that the evaluator shortens, the interactions are the same too. */
  lemma TemplateIsNest(rt: Runtime, times: seq<History>, e: Value, args: seq<Value>)
    requires Matching(e, []).Some? && |times| == |args| <= |Matching(e, []).value.params|
    requires Alike(rt, Matching(e, []).value.target, |Matching(e, []).value.params|)
    requires var all := Matching(e, []).value.params; forall i :: 0 <= i < |all| - 1 ==> all[i] != Sym("lambda")
    ensures var m := Matching(e, []).value;
      var f, g := LambdaOf(e, Empty), Templated(Eta(m.target, [], |m.params|));
      && f.Some?
      && if |args| < |m.params| then Feed(rt, times, f.value, args).Next? && Feed(rt, times, g, args).Next?
         else Agree(rt, m, Feed(rt, times, f.value, args), Feed(rt, times, g, args))
  {
    StagesAgree(rt, times, e, [], [], args);
  }

  /** Where nothing is shortened, nest and template do the very same. */
  lemma PlainTemplateIsNest(rt: Runtime, times: seq<History>, e: Value, args: seq<Value>)
    requires Matching(e, []).Some? && |times| == |args| == |Matching(e, []).value.params|
    requires var m := Matching(e, []).value; HoldsFunction(rt, m.target) && Plain(rt, m.target, |m.params|)
    requires var all := Matching(e, []).value.params; forall i :: 0 <= i < |all| - 1 ==> all[i] != Sym("lambda")
    ensures var m := Matching(e, []).value;
      var f, g := LambdaOf(e, Empty), Templated(Eta(m.target, [], |m.params|));
      f.Some? && Feed(rt, times, f.value, args) == Feed(rt, times, g, args)
  {
    hide SameAnswer, Plain, Alike, Matching, LambdaOf, Feed;
    var m := Matching(e, []).value;
    PlainIsAlike(rt, m.target, |m.params|);
    TemplateIsNest(rt, times, e, args);
  }

  /** A parameter named lambda above another lambda: the nest applies the value of that parameter,
      the template waits for the next argument. */
  lemma {:induction false} LambdaParameterDiffers(rt: Runtime, times: seq<History>, e: Value, params: seq<Value>, args: seq<Value>, more: seq<Value>)
    requires Matching(e, params).Some? && IsLambda(e) && AreParams(params) && |args| == |params| && |times| == |more| > 0
    requires var all := Matching(e, params).value.params;
      |params| + |more| < |all| && all[|params| + |more| - 1] == Sym("lambda") && Sym("lambda") !in params
    ensures var m := Matching(e, params).value;
      var f, g := LambdaOf(e, Inner(params, args)), Templated(Eta(m.target, args, |m.params|));
      f.Some? && Feed(rt, times, f.value, more).Result? && Feed(rt, times, g, more).Next?
    decreases e
  {
    WidthOfTail(e, 3);
    WidthOfTail(e.tail, 2);
    WidthOfTail(e.tail.tail, 1);
    MatchingExtends(e, params);
    var p, body := e.tail.head, e.tail.tail.head;
    InnerLookup(params, args, "lambda");
    InnerOneMore(params, args, p, more[0]);
    MatchingExtends(body, params + [p]);
    if |more| == 1 {
      InnerLookup(params + [p], args + [more[0]], "lambda");
    } else {
      assert p != Sym("lambda") by {
        MatchedAreParams(e, params);
      }
      LambdaParameterDiffers(rt, times[1..], body, params + [p], args + [more[0]], more[1..]);
    }
  }

  lemma {:induction false} MatchedAreParams(e: Value, params: seq<Value>)
    requires Matching(e, params).Some? && AreParams(params)
    ensures AreParams(Matching(e, params).value.params)
    decreases e
  {
    if IsLambda(e) {
      WidthOfTail(e, 3);
      WidthOfTail(e.tail, 2);
      WidthOfTail(e.tail.tail, 1);
      assert AreParams(params + [e.tail.head]);
      MatchedAreParams(e.tail.tail.head, params + [e.tail.head]);
    }
  }
}
