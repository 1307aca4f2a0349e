/** Running fused code is running the code as written: the values, errors and calls of primitives
    correspond, at every depth of calls. */
module FusionMeaning {
  import opened Options
  import opened TreeWalk
  import opened CallFusion
  import opened FusionRelation

  // Forms ---------------------------------------------------------------------------------------

  ghost predicate TurnedList(e: Kl, e': Kl) {
    if e.List? then e'.List? && TurnedAll(e.items, e'.items) else e' == e
  }

  /** A case of a cond: a wrong number of parts stays wrong. */
  ghost predicate TurnedCase(e: Kl, e': Kl) {
    TurnedList(e, e') || (e.List? && e'.List? && |e.items| != 2 && |e'.items| != 2)
  }

  /** A list of loop bindings: an odd number stays odd. */
  ghost predicate TurnedBinds(e: Kl, e': Kl) {
    TurnedList(e, e') || (e.List? && e'.List? && |e.items| % 2 == 1 && |e'.items| % 2 == 1)
  }

  ghost predicate TurnedVariable(e: Kl, e': Kl) {
    if e.Sym? then e' == e else !e'.Sym?
  }

  ghost predicate TurnedForm(form: Form, form': Form) {
    match form
    case LetForm(variable, bound, body) => form'.LetForm? && TurnedVariable(variable, form'.variable) && Turned(bound, form'.bound) && Turned(body, form'.body)
    case IfForm(test, yes, no) => form'.IfForm? && Turned(test, form'.test) && Turned(yes, form'.yes) && Turned(no, form'.no)
    case AndForm(left, right) => form'.AndForm? && Turned(left, form'.left) && Turned(right, form'.right)
    case OrForm(left, right) => form'.OrForm? && Turned(left, form'.left) && Turned(right, form'.right)
    case CondForm(cases) => form'.CondForm? && TurnedCases(cases, form'.cases)
    case TrapForm(body, handler) => form'.TrapForm? && Turned(body, form'.body) && Turned(handler, form'.handler)
    case LambdaForm(variable, body) => form'.LambdaForm? && TurnedVariable(variable, form'.variable) && Turned(body, form'.body)
    case FreezeForm(body) => form'.FreezeForm? && Turned(body, form'.body)
    case LoopForm(binds, body) => form'.LoopForm? && TurnedBinds(binds, form'.binds) && Turned(body, form'.body)
    case RecurForm(args) => form'.RecurForm? && TurnedAll(args, form'.args)
    case TypeForm(expr) => form'.TypeForm? && Turned(expr, form'.expr)
    case MconsForm(args) => form'.MconsForm? && TurnedAll(args, form'.args)
    case CallForm(head, args) => form'.CallForm? && Turned(head, form'.head) && TurnedAll(args, form'.args)
    case _ => form' == form
  }

  ghost predicate TurnedCases(cases: seq<Kl>, cases': seq<Kl>) {
    |cases'| == |cases| && forall i :: 0 <= i < |cases| ==> TurnedCase(cases[i], cases'[i])
  }

  lemma TurnedShape(e: Kl, e': Kl)
    requires Turned(e, e')
    ensures (e.List? && e.items != []) == (e'.List? && e'.items != [])
    ensures !(e.List? && e.items != []) ==> e' == e
  {
    hide Tidy, FuseRun, Parts, FuseAll;
  }

  /** The elements of a list that is not fused as a whole. */
  ghost predicate TurnedParts(items: seq<Kl>, items': seq<Kl>, cases: bool, loop: bool) {
    && |items'| == |items|
    && forall i :: 0 <= i < |items| ==>
      && Turned(items[i], items'[i]) && TurnedVariable(items[i], items'[i])
      && (cases && i > 0 ==> TurnedCase(items[i], items'[i]))
      && (loop && |items| == 3 && i == 1 ==> TurnedBinds(items[i], items'[i]))
  }

  /** A list that does not look like a run keeps its items, or is nested calls of cons. */
  lemma NotARun(e: Kl, e': Kl)
    requires e.List? && Turned(e, e') && !LooksLikeRun(e)
    ensures TurnedCase(e, e') && (!BecomesEven(e) ==> TurnedBinds(e, e'))
  {
    hide Fuse, Tidy, Run, Core;
    if !FusesWhole(e) {
      TurnedItems(e, e');
    } else if e' != e {
      MconsShape(e);
    } else {
      assert TurnedAll(e.items, e'.items);
    }
  }

  lemma MconsShape(e: Kl)
    requires IsCons(e) && IsCons(e.items[2])
    ensures Fuse(e).List? && |Fuse(e).items| == 1 + |Parts(e)| && |Parts(e)| >= 2
  {
  }

  lemma ItemsTurned(e: Kl, e': Kl)
    requires NonEmpty(e) && Turned(e, e') && (e' == e || !FusesWhole(e))
    ensures NonEmpty(e') && TurnedParts(e.items, e'.items, HeadedBy(e, "cond"), HeadedBy(e, "c.loop"))
  {
    hide Fuse, FusesWhole, Run, Core, Miscount, Parts;
    TurnedShape(e, e');
    var items, items' := e.items, e'.items;
    if e' != e {
      TurnedItems(e, e');
      forall i | 0 <= i < |items|
        ensures Turned(items[i], items'[i]) && TurnedVariable(items[i], items'[i])
        ensures HeadedBy(e, "cond") && i > 0 ==> TurnedCase(items[i], items'[i])
        ensures HeadedBy(e, "c.loop") && |items| == 3 && i == 1 ==> TurnedBinds(items[i], items'[i])
      {
        TurnedShape(items[i], items'[i]);
        if items[i].List? && !LooksLikeRun(items[i]) {
          NotARun(items[i], items'[i]);
        }
      }
    }
  }

  lemma TurnedForms(e: Kl, e': Kl)
    requires NonEmpty(e) && Turned(e, e') && (e' == e || !FusesWhole(e))
    ensures NonEmpty(e') && TurnedForm(FormOf(e.items), FormOf(e'.items))
  {
    hide Turned, FusesWhole, SpecialForm, KeywordOf, TurnedForm;
    ItemsTurned(e, e');
    PartsForm(e.items, e'.items);
  }

  lemma PartsForm(items: seq<Kl>, items': seq<Kl>)
    requires |items| > 0 && TurnedParts(items, items', items[0] == Sym("cond"), items[0] == Sym("c.loop"))
    ensures TurnedForm(FormOf(items), FormOf(items'))
  {
    hide Turned, TurnedList, TurnedCase, TurnedBinds, KeywordOf;
    assert items[0].Sym? ==> items'[0] == items[0];
    if items[0].Sym? && !KeywordOf(items[0].name).KNone? {
      KeywordIs(items[0]);
    }
  }

  lemma KeywordIs(head: Kl)
    requires head.Sym?
    ensures KeywordOf(head.name).KCond? ==> head == Sym("cond")
    ensures KeywordOf(head.name).KLoop? ==> head == Sym("c.loop")
  {
  }

  // Evaluation ----------------------------------------------------------------------------------

  ghost predicate Related(m: Machine, m': Machine, env: Env, env': Env, h: History, h': History) {
    Fused(m, m') && RelEnv(env, env') && RelHistory(h, h')
  }

  lemma {:induction false} FuseAgrees(m: Machine, m': Machine, e: Kl, e': Kl, env: Env, env': Env, h: History, h': History, fuel: nat)
    requires Related(m, m', env, env', h, h') && Turned(e, e')
    ensures RelResult(Eval(m, e, env, h, fuel), Eval(m', e', env', h', fuel))
    decreases fuel, 1, Size(e), 2
  {
    hide Turned, FormOf, EvalForm, Fused, RelEnv, RelHistory, FusesWhole;
    TurnedShape(e, e');
    match e
    case Sym(name) => RelLookup(env, env', name);
    case Obj(v) => RelItself(v);
    case List(items) =>
      if |items| > 0 {
        if e' == e || !FusesWhole(e) {
          TurnedForms(e, e');
          PartsAreSmaller(items);
          FormAgrees(m, m', FormOf(items), FormOf(e'.items), env, env', h, h', fuel);
        } else {
          assert Tidy(e) && e' == Fuse(e) by {
            TurnedOtherwise(e, e');
          }
          WholeAgrees(m, m', e, e', env, env', h, h', fuel);
        }
      }
  }

  lemma {:induction false} FormAgrees(m: Machine, m': Machine, form: Form, form': Form, env: Env, env': Env, h: History, h': History, fuel: nat)
    requires Related(m, m', env, env', h, h') && TurnedForm(form, form')
    ensures RelResult(EvalForm(m, form, env, h, fuel), EvalForm(m', form', env', h', fuel))
    decreases fuel, 1, FormSize(form), 1
  {
    hide Eval, EvalArgs, EvalLet, EvalIf, EvalBoth, EvalCases, EvalTrap, EvalLoop, EvalCall, Turned, TurnedAll, TurnedList, TurnedCase, TurnedBinds, Related, RelHistory, Chain;
    assert RelHistory(h, h') && RelEnv(env, env') by {
      RelatedParts(m, m', env, env', h, h');
    }
    match form
    case LetForm(variable, bound, body) => LetAgrees(m, m', variable, bound, body, form'.variable, form'.bound, form'.body, env, env', h, h', fuel);
    case IfForm(test, yes, no) => IfAgrees(m, m', test, yes, no, form'.test, form'.yes, form'.no, env, env', h, h', fuel);
    case AndForm(left, right) => BothAgree(m, m', left, right, form'.left, form'.right, true, env, env', h, h', fuel);
    case OrForm(left, right) => BothAgree(m, m', left, right, form'.left, form'.right, false, env, env', h, h', fuel);
    case CondForm(cases) => CasesAgree(m, m', cases, form'.cases, env, env', h, h', fuel);
    case TrapForm(body, handler) => TrapAgrees(m, m', body, handler, form'.body, form'.handler, env, env', h, h', fuel);
    case LoopForm(binds, body) => LoopAgrees(m, m', binds, body, form'.binds, form'.body, env, env', h, h', fuel);
    case RecurForm(args) => ArgsAgree(m, m', args, form'.args, env, env', h, h', fuel);
    case TypeForm(expr) => FuseAgrees(m, m', expr, form'.expr, env, env', h, h', fuel);
    case MconsForm(args) =>
      ArgsAgree(m, m', args, form'.args, env, env', h, h', fuel);
      RelGathered(EvalArgs(m, args, env, h, fuel), EvalArgs(m', form'.args, env', h', fuel));
    case CallForm(head, args) => CallAgrees(m, m', head, args, form'.head, form'.args, env, env', h, h', fuel);
    case _ =>
  }

  lemma TurnedOtherwise(e: Kl, e': Kl)
    requires Turned(e, e') && e' != e
    ensures Tidy(e) && e' == Fuse(e)
  {
  }

  /** The value of a c.mcons, given those of its elements. */
  function Gathered(a: Result<seq<Value>>): Result<Value> {
    if a.outcome.Done? then Result(Done(Chain(a.outcome.value)), a.history) else Failed(a)
  }

  lemma RelGathered(a: Result<seq<Value>>, a': Result<seq<Value>>)
    requires RelArgs(a, a')
    ensures RelResult(Gathered(a), Gathered(a'))
  {
    hide RelAll, RelHistory, Chain;
    if a.outcome.Done? {
      RelChain(a.outcome.value, a'.outcome.value);
    }
  }

  lemma RelatedParts(m: Machine, m': Machine, env: Env, env': Env, h: History, h': History)
    requires Related(m, m', env, env', h, h')
    ensures Fused(m, m') && RelEnv(env, env') && RelHistory(h, h')
  {
  }

  lemma RelatedLater(m: Machine, m': Machine, env: Env, env': Env, h: History, h': History)
    requires Fused(m, m') && RelEnv(env, env') && RelHistory(h, h')
    ensures Related(m, m', env, env', h, h')
  {
  }

  lemma {:induction false} LetAgrees(m: Machine, m': Machine, variable: Kl, bound: Kl, body: Kl, variable': Kl, bound': Kl, body': Kl, env: Env, env': Env, h: History, h': History, fuel: nat)
    requires Related(m, m', env, env', h, h') && TurnedVariable(variable, variable') && Turned(bound, bound') && Turned(body, body')
    ensures RelResult(EvalLet(m, variable, bound, body, env, h, fuel), EvalLet(m', variable', bound', body', env', h', fuel))
    decreases fuel, 1, 1 + Size(bound) + Size(body), 0
  {
    hide Eval, Turned, Fused, RelHistory;
    FuseAgrees(m, m', bound, bound', env, env', h, h', fuel);
    var a, a' := Eval(m, bound, env, h, fuel), Eval(m', bound', env', h', fuel);
    if a.outcome.Done? && variable.Sym? {
      var inner, inner' := Frame([Binding(variable.name, a.outcome.value)], env), Frame([Binding(variable.name, a'.outcome.value)], env');
      FuseAgrees(m, m', body, body', inner, inner', a.history, a'.history, fuel);
    }
  }

  lemma {:induction false} IfAgrees(m: Machine, m': Machine, test: Kl, yes: Kl, no: Kl, test': Kl, yes': Kl, no': Kl, env: Env, env': Env, h: History, h': History, fuel: nat)
    requires Related(m, m', env, env', h, h') && Turned(test, test') && Turned(yes, yes') && Turned(no, no')
    ensures RelResult(EvalIf(m, test, yes, no, env, h, fuel), EvalIf(m', test', yes', no', env', h', fuel))
    decreases fuel, 1, 1 + Size(test) + Size(yes) + Size(no), 0
  {
    hide Eval, Turned, Fused, RelHistory, RelEnv;
    FuseAgrees(m, m', test, test', env, env', h, h', fuel);
    var t, t' := Eval(m, test, env, h, fuel), Eval(m', test', env', h', fuel);
    FuseAgrees(m, m', yes, yes', env, env', t.history, t'.history, fuel);
    FuseAgrees(m, m', no, no', env, env', t.history, t'.history, fuel);
  }

  lemma {:induction false} BothAgree(m: Machine, m': Machine, left: Kl, right: Kl, left': Kl, right': Kl, want: bool, env: Env, env': Env, h: History, h': History, fuel: nat)
    requires Related(m, m', env, env', h, h') && Turned(left, left') && Turned(right, right')
    ensures RelResult(EvalBoth(m, left, right, want, env, h, fuel), EvalBoth(m', left', right', want, env', h', fuel))
    decreases fuel, 1, 1 + Size(left) + Size(right), 0
  {
    hide Eval, Turned, Fused, RelHistory, RelEnv;
    FuseAgrees(m, m', left, left', env, env', h, h', fuel);
    var l, l' := Eval(m, left, env, h, fuel), Eval(m', left', env', h', fuel);
    FuseAgrees(m, m', right, right', env, env', l.history, l'.history, fuel);
  }

  lemma {:induction false} CasesAgree(m: Machine, m': Machine, cases: seq<Kl>, cases': seq<Kl>, env: Env, env': Env, h: History, h': History, fuel: nat)
    requires Related(m, m', env, env', h, h') && TurnedCases(cases, cases')
    ensures RelResult(EvalCases(m, cases, env, h, fuel), EvalCases(m', cases', env', h', fuel))
    decreases fuel, 1, 1 + SizeAll(cases), 0
  {
    hide Eval, Turned, Fused, RelHistory, RelEnv;
    if |cases| > 0 {
      assert TurnedCase(cases[0], cases'[0]);
      if cases[0].List? && |cases[0].items| == 2 {
        SizeOfParts(cases);
        SizeOfParts(cases[0].items);
        FuseAgrees(m, m', cases[0].items[0], cases'[0].items[0], env, env', h, h', fuel);
        var t, t' := Eval(m, cases[0].items[0], env, h, fuel), Eval(m', cases'[0].items[0], env', h', fuel);
        FuseAgrees(m, m', cases[0].items[1], cases'[0].items[1], env, env', t.history, t'.history, fuel);
        CasesAgree(m, m', cases[1..], cases'[1..], env, env', t.history, t'.history, fuel);
      }
    }
  }

  lemma {:induction false} TrapAgrees(m: Machine, m': Machine, body: Kl, handler: Kl, body': Kl, handler': Kl, env: Env, env': Env, h: History, h': History, fuel: nat)
    requires Related(m, m', env, env', h, h') && Turned(body, body') && Turned(handler, handler')
    ensures RelResult(EvalTrap(m, body, handler, env, h, fuel), EvalTrap(m', body', handler', env', h', fuel))
    decreases fuel, 1, 1 + Size(body) + Size(handler), 0
  {
    hide Eval, Turned, Fused, RelHistory, RelEnv, Handle;
    FuseAgrees(m, m', body, body', env, env', h, h', fuel);
    var b, b' := Eval(m, body, env, h, fuel), Eval(m', body', env', h', fuel);
    FuseAgrees(m, m', handler, handler', env, env', b.history, b'.history, fuel);
    var f, f' := Eval(m, handler, env, b.history, fuel), Eval(m', handler', env', b'.history, fuel);
    if b.outcome.Thrown? && f.outcome.Done? {
      HandleAgrees(m, m', f.outcome.value, f'.outcome.value, b.outcome.error, b'.outcome.error, f.history, f'.history, fuel);
    }
  }

  lemma {:induction false} ArgsAgree(m: Machine, m': Machine, args: seq<Kl>, args': seq<Kl>, env: Env, env': Env, h: History, h': History, fuel: nat)
    requires Related(m, m', env, env', h, h') && TurnedAll(args, args')
    ensures RelArgs(EvalArgs(m, args, env, h, fuel), EvalArgs(m', args', env', h', fuel))
    decreases fuel, 1, SizeAll(args), 3
  {
    hide Eval, Turned, Fused, RelHistory, RelEnv, Rel;
    if |args| > 0 {
      SizeOfParts(args);
      OneSize(args[0]);
      FuseAgrees(m, m', args[0], args'[0], env, env', h, h', fuel);
      var a, a' := Eval(m, args[0], env, h, fuel), Eval(m', args'[0], env', h', fuel);
      ArgsAgree(m, m', args[1..], args'[1..], env, env', a.history, a'.history, fuel);
    }
  }

  lemma TurnedFrom(es: seq<Kl>, es': seq<Kl>, i: nat)
    requires TurnedAll(es, es') && i <= |es|
    ensures |es'| == |es| && TurnedAll(es[i..], es'[i..])
    ensures forall j :: 0 <= j < i ==> Turned(es[j], es'[j])
  {
    hide Turned;
  }

  lemma {:induction false} BindsAgree(m: Machine, m': Machine, items: seq<Kl>, items': seq<Kl>, env: Env, env': Env, h: History, h': History, fuel: nat)
    requires Related(m, m', env, env', h, h') && TurnedAll(items, items') && |items| % 2 == 0 && |items'| % 2 == 0
    ensures RelStart(EvalBinds(m, items, env, h, fuel), EvalBinds(m', items', env', h', fuel))
    decreases fuel, 1, SizeAll(items), 3
  {
    hide Eval, Turned, TurnedAll, Related, RelHistory, Rel, RelBinds;
    RelatedParts(m, m', env, env', h, h');
    TurnedFrom(items, items', 0);
    if |items| == 0 {
      NoBinds();
    } else {
      TurnedFrom(items, items', 2);
      TurnedShape(items[0], items'[0]);
      if items[0].Sym? {
        SizeOfParts(items);
        OneSize(items[0]);
        FuseAgrees(m, m', items[1], items'[1], env, env', h, h', fuel);
        var a, a' := Eval(m, items[1], env, h, fuel), Eval(m', items'[1], env', h', fuel);
        RelatedLater(m, m', env, env', a.history, a'.history);
        BindsAgree(m, m', items[2..], items'[2..], env, env', a.history, a'.history, fuel);
        if a.outcome.Done? {
          MoreBinds(items[0].name, a.outcome.value, a'.outcome.value,
                    EvalBinds(m, items[2..], env, a.history, fuel), EvalBinds(m', items'[2..], env', a'.history, fuel));
        }
      } else {
        RelItself(Error("c.loop parameter should be a symbol"));
      }
    }
  }

  lemma NoBinds()
    ensures RelBinds([], [])
  {
  }

  lemma MoreBinds(name: string, v: Value, v': Value, rest: Result<seq<Binding>>, rest': Result<seq<Binding>>)
    requires Rel(v, v') && RelStart(rest, rest')
    ensures rest.outcome.Done? ==>
      rest'.outcome.Done? && RelBinds([Binding(name, v)] + rest.outcome.value, [Binding(name, v')] + rest'.outcome.value)
  {
    hide Rel;
  }

  lemma {:induction false} LoopAgrees(m: Machine, m': Machine, binds: Kl, body: Kl, binds': Kl, body': Kl, env: Env, env': Env, h: History, h': History, fuel: nat)
    requires Related(m, m', env, env', h, h') && TurnedBinds(binds, binds') && Turned(body, body')
    ensures RelResult(EvalLoop(m, binds, body, env, h, fuel), EvalLoop(m', binds', body', env', h', fuel))
    decreases fuel, 1, 1 + Size(binds) + Size(body), 0
  {
    hide Eval, EvalBinds, Rounds, Turned, TurnedAll, Fused, RelHistory;
    if binds.List? {
      assert |binds'.items| % 2 == |binds.items| % 2 by {
        if TurnedList(binds, binds') {
          TurnedLength(binds, binds');
        }
      }
      if |binds.items| % 2 == 0 {
        BindsAgree(m, m', binds.items, binds'.items, env, env', h, h', fuel);
        var bs, bs' := EvalBinds(m, binds.items, env, h, fuel), EvalBinds(m', binds'.items, env', h', fuel);
        if bs.outcome.Done? {
          var names := Names(bs.outcome.value);
          assert names == Names(bs'.outcome.value);
          RoundsAgree(m, m', names, body, body', Extend(env, bs.outcome.value), Extend(env', bs'.outcome.value), bs.history, bs'.history, fuel);
        }
      }
    }
  }

  lemma TurnedLength(e: Kl, e': Kl)
    requires TurnedList(e, e') && e.List?
    ensures |e'.items| == |e.items|
  {
    hide Turned;
  }

  lemma {:induction false} RoundsAgree(m: Machine, m': Machine, names: seq<string>, body: Kl, body': Kl, env: Env, env': Env, h: History, h': History, fuel: nat)
    requires Related(m, m', env, env', h, h') && Turned(body, body')
    ensures RelResult(Rounds(m, names, body, env, h, fuel), Rounds(m', names, body', env', h', fuel))
    decreases fuel, 1, Size(body), 3
  {
    hide Eval, Turned, Fused, RelHistory, RelEnv, UpdateAll;
    FuseAgrees(m, m', body, body', env, env', h, h', fuel);
    var r, r' := Eval(m, body, env, h, fuel), Eval(m', body', env', h', fuel);
    if r.outcome.Recur? && |r.outcome.args| == |names| && fuel > 0 {
      RelUpdateAll(env, env', names, r.outcome.args, r'.outcome.args);
      var next, next' := UpdateAll(env, names, r.outcome.args), UpdateAll(env', names, r'.outcome.args);
      if next.Some? {
        RoundsAgree(m, m', names, body, body', next.value, next'.value, r.history, r'.history, fuel - 1);
      }
    }
  }

  // Calls ---------------------------------------------------------------------------------------

  lemma SameArity(m: Machine, m': Machine, f: string)
    requires Fused(m, m')
    ensures IsFunction(m', f) == IsFunction(m, f)
    ensures IsFunction(m, f) ==> Arity(m', f) == Arity(m, f)
  {
    hide Blind, Turned;
  }

  lemma {:induction false} CallAgrees(m: Machine, m': Machine, head: Kl, args: seq<Kl>, head': Kl, args': seq<Kl>, env: Env, env': Env, h: History, h': History, fuel: nat)
    requires Related(m, m', env, env', h, h') && Turned(head, head') && TurnedAll(args, args')
    ensures RelResult(EvalCall(m, head, args, env, h, fuel), EvalCall(m', head', args', env', h', fuel))
    decreases fuel, 1, 1 + Size(head) + SizeAll(args), 0
  {
    hide Eval, CallNamed, CallValue, Turned, TurnedAll, Fused, RelHistory, RelEnv, IsFunction, Arity;
    OneSize(head);
    TurnedShape(head, head');
    if head.Sym? {
      SameArity(m, m', head.name);
    }
    if head.Sym? && IsFunction(m, head.name) {
      NamedAgrees(m, m', head.name, args, args', env, env', h, h', fuel);
    } else {
      FuseAgrees(m, m', head, head', env, env', h, h', fuel);
      var f, f' := Eval(m, head, env, h, fuel), Eval(m', head', env', h', fuel);
      if f.outcome.Done? {
        ValueAgrees(m, m', f.outcome.value, f'.outcome.value, args, args', env, env', f.history, f'.history, fuel);
      }
    }
  }

  lemma {:induction false} NamedAgrees(m: Machine, m': Machine, f: string, args: seq<Kl>, args': seq<Kl>, env: Env, env': Env, h: History, h': History, fuel: nat)
    requires Related(m, m', env, env', h, h') && IsFunction(m, f) && IsFunction(m', f) && TurnedAll(args, args')
    ensures RelResult(CallNamed(m, f, args, env, h, fuel), CallNamed(m', f, args', env', h', fuel))
    decreases fuel, 1, 1 + SizeAll(args), 1
  {
    hide EvalArgs, CallEach, Enter, Turned, Fused, RelHistory, RelEnv, IsFunction, Arity;
    SameArity(m, m', f);
    if |args| == Arity(m, f) {
      ArgsAgree(m, m', args, args', env, env', h, h', fuel);
      var a, a' := EvalArgs(m, args, env, h, fuel), EvalArgs(m', args', env', h', fuel);
      if a.outcome.Done? {
        EnterAgrees(m, m', f, a.outcome.value, a'.outcome.value, a.history, a'.history, fuel);
      }
    } else if Arity(m, f) == 0 {
      EnterAgrees(m, m', f, [], [], h, h', fuel);
      var first, first' := Enter(m, f, [], h, fuel), Enter(m', f, [], h', fuel);
      if first.outcome.Done? {
        EachAgrees(m, m', first.outcome.value, first'.outcome.value, args, args', env, env', first.history, first'.history, fuel);
      }
    } else {
      EachAgrees(m, m', Partial(f, []), Partial(f, []), args, args', env, env', h, h', fuel);
    }
  }

  lemma {:induction false} ValueAgrees(m: Machine, m': Machine, f: Value, f': Value, args: seq<Kl>, args': seq<Kl>, env: Env, env': Env, h: History, h': History, fuel: nat)
    requires Related(m, m', env, env', h, h') && Rel(f, f') && TurnedAll(args, args')
    ensures RelResult(CallValue(m, f, args, env, h, fuel), CallValue(m', f', args', env', h', fuel))
    decreases fuel, 1, 1 + SizeAll(args), 2
  {
    hide CallEach, CallNamed, EnterClosure, Turned, Fused, RelHistory, RelEnv, IsFunction, Arity;
    if f.Symbol? {
      SameArity(m, m', f.name);
      if IsFunction(m, f.name) && |args| == Arity(m, f.name) {
        NamedAgrees(m, m', f.name, args, args', env, env', h, h', fuel);
      }
    } else if f.Closure? || f.Partial? {
      if |args| == 0 && f.Closure? {
        ClosureAgrees(m, m', f, f', [], [], h, h', fuel);
      }
      EachAgrees(m, m', f, f', args, args', env, env', h, h', fuel);
    }
  }

  lemma {:induction false} EachAgrees(m: Machine, m': Machine, f: Value, f': Value, args: seq<Kl>, args': seq<Kl>, env: Env, env': Env, h: History, h': History, fuel: nat)
    requires Related(m, m', env, env', h, h') && Rel(f, f') && TurnedAll(args, args')
    ensures RelResult(CallEach(m, f, args, env, h, fuel), CallEach(m', f', args', env', h', fuel))
    decreases fuel, 1, 1 + SizeAll(args), 0
  {
    hide Eval, CallOne, Turned, Fused, RelHistory, RelEnv, Rel;
    if |args| > 0 {
      SizeOfParts(args);
      OneSize(args[0]);
      OneAgrees(m, m', f, f', args[0], args'[0], env, env', h, h', fuel);
      var a, a' := CallOne(m, f, args[0], env, h, fuel), CallOne(m', f', args'[0], env', h', fuel);
      if a.outcome.Done? {
        EachAgrees(m, m', a.outcome.value, a'.outcome.value, args[1..], args'[1..], env, env', a.history, a'.history, fuel);
      }
    }
  }

  lemma {:induction false} OneAgrees(m: Machine, m': Machine, f: Value, f': Value, arg: Kl, arg': Kl, env: Env, env': Env, h: History, h': History, fuel: nat)
    requires Related(m, m', env, env', h, h') && Rel(f, f') && Turned(arg, arg')
    ensures RelResult(CallOne(m, f, arg, env, h, fuel), CallOne(m', f', arg', env', h', fuel))
    decreases fuel, 1, Size(arg), 3
  {
    hide Eval, Handle, Turned, Fused, RelHistory, RelEnv, IsFunction, Arity;
    FuseAgrees(m, m', arg, arg', env, env', h, h', fuel);
    var v, v' := Eval(m, arg, env, h, fuel), Eval(m', arg', env', h', fuel);
    if f.Symbol? {
      SameArity(m, m', f.name);
    }
    if v.outcome.Done? {
      HandleAgrees(m, m', f, f', v.outcome.value, v'.outcome.value, v.history, v'.history, fuel);
    }
  }

  lemma {:induction false} HandleAgrees(m: Machine, m': Machine, f: Value, f': Value, arg: Value, arg': Value, h: History, h': History, fuel: nat)
    requires Fused(m, m') && RelHistory(h, h') && Rel(f, f') && Rel(arg, arg')
    ensures RelResult(Handle(m, f, arg, h, fuel), Handle(m', f', arg', h', fuel))
    decreases fuel, 0, 1, 0
  {
    hide Eval, Enter, EnterClosure, EnterPartial, Fused, RelHistory, IsFunction, Arity, Turned;
    match f
    case Closure(_, _, _) => ClosureAgrees(m, m', f, f', [arg], [arg'], h, h', fuel);
    case Partial(_, _) => PartialAgrees(m, m', f, f', arg, arg', h, h', fuel);
    case Symbol(g) =>
      SameArity(m, m', g);
      if IsFunction(m, g) && Arity(m, g) == 1 {
        EnterAgrees(m, m', g, [arg], [arg'], h, h', fuel);
      }
    case _ =>
  }

  lemma {:induction false} ClosureAgrees(m: Machine, m': Machine, f: Value, f': Value, args: seq<Value>, args': seq<Value>, h: History, h': History, fuel: nat)
    requires Fused(m, m') && RelHistory(h, h') && Rel(f, f') && RelAll(args, args') && f.Closure? && |args| <= 1
    ensures RelResult(EnterClosure(m, f, args, h, fuel), EnterClosure(m', f', args', h', fuel))
    decreases fuel, 0, 0, 0
  {
    hide Eval, Fused, RelHistory, Turned;
    if |args| == (if f.param.Some? then 1 else 0) && fuel > 0 {
      var env := if f.param.Some? then Frame([Binding(f.param.value, args[0])], f.env) else f.env;
      var env' := if f.param.Some? then Frame([Binding(f.param.value, args'[0])], f'.env) else f'.env;
      FuseAgrees(m, m', f.body, f'.body, env, env', h, h', fuel - 1);
    }
  }

  lemma {:induction false} PartialAgrees(m: Machine, m': Machine, f: Value, f': Value, arg: Value, arg': Value, h: History, h': History, fuel: nat)
    requires Fused(m, m') && RelHistory(h, h') && Rel(f, f') && Rel(arg, arg') && f.Partial?
    ensures RelResult(EnterPartial(m, f, arg, h, fuel), EnterPartial(m', f', arg', h', fuel))
    decreases fuel, 0, 0, 1
  {
    hide Enter, Fused, RelHistory, IsFunction, Arity;
    SameArity(m, m', f.f);
    var args, args' := f.args + [arg], f'.args + [arg'];
    assert RelAll(args, args');
    if IsFunction(m, f.f) && |args| == Arity(m, f.f) {
      EnterAgrees(m, m', f.f, args, args', h, h', fuel);
    }
  }

  lemma {:induction false} EnterAgrees(m: Machine, m': Machine, f: string, args: seq<Value>, args': seq<Value>, h: History, h': History, fuel: nat)
    requires Fused(m, m') && RelHistory(h, h') && RelAll(args, args')
    requires IsFunction(m, f) && IsFunction(m', f) && |args| == Arity(m, f) == Arity(m', f)
    ensures RelResult(Enter(m, f, args, h, fuel), Enter(m', f, args', h', fuel))
    decreases fuel, 0, 0, 0
  {
    hide Eval, Builtin, Turned, Blind, Rel;
    if IsBuiltin(f) {
      RelBuiltin(f, args, args', h, h');
    } else if f in m.funs {
      if fuel > 0 {
        var params := m.funs[f].params;
        RelParameters(params, args, args');
        FuseAgrees(m, m', m.funs[f].body, m'.funs[f].body, Extend(Root, Bindings(params, args)), Extend(Root, Bindings(params, args')), h, h', fuel - 1);
      }
    } else {
      BlindCall(m.prims, f, args, args', h + [(f, args)], h' + [(f, args')]);
    }
  }

  lemma RelParameters(params: seq<string>, args: seq<Value>, args': seq<Value>)
    requires |params| == |args| && RelAll(args, args')
    ensures RelEnv(Extend(Root, Bindings(params, args)), Extend(Root, Bindings(params, args')))
  {
  }

  lemma BlindCall(prims: Prims, f: string, args: seq<Value>, args': seq<Value>, h: History, h': History)
    requires Blind(prims) && RelAll(args, args') && RelHistory(h, h')
    ensures RelResult(prims(f, args, h), prims(f, args', h'))
  {
  }

  // Fused lists ---------------------------------------------------------------------------------

  lemma {:induction false} WholeAgrees(m: Machine, m': Machine, e: Kl, e': Kl, env: Env, env': Env, h: History, h': History, fuel: nat)
    requires Related(m, m', env, env', h, h') && Tidy(e) && e' == Fuse(e) && FusesWhole(e)
    ensures RelResult(Eval(m, e, env, h, fuel), Eval(m', e', env', h', fuel))
    decreases fuel, 1, Size(e), 1
  {
    hide Eval, Related, Run, Core, Parts, Tidy, Fuse, FuseRun;
    if FusesRun(e, "hd") {
      RunAgrees(m, m', e, "hd", env, env', h, h', fuel);
    } else if FusesRun(e, "tl") {
      RunAgrees(m, m', e, "tl", env, env', h, h', fuel);
    } else {
      PartsAgree(m, m', e, env, env', h, h', fuel);
      MconsValue(m', e, env', h', fuel);
    }
  }

  lemma MconsValue(m: Machine, e: Kl, env: Env, h: History, fuel: nat)
    requires IsCons(e) && IsCons(e.items[2])
    ensures Eval(m, Fuse(e), env, h, fuel) == Gathered(EvalArgs(m, Parts(e), env, h, fuel))
  {
    hide EvalArgs, FuseRun, FormOf;
    var items := [Sym("c.mcons")] + Parts(e);
    assert Fuse(e) == List(items);
    MconsIs(Parts(e));
  }

  lemma MconsIs(args: seq<Kl>)
    ensures FormOf([Sym("c.mcons")] + args) == MconsForm(args)
  {
    assert KeywordOf("c.mcons").KMcons?;
    hide KeywordOf;
    assert ([Sym("c.mcons")] + args)[1..] == args;
  }

  /** A call of cons evaluates its arguments from left to right. */
  function Joined(m: Machine, a: Kl, b: Kl, env: Env, h: History, fuel: nat): Result<Value> {
    var x := Eval(m, a, env, h, fuel);
    if !x.outcome.Done? then x
    else
      var y := Eval(m, b, env, x.history, fuel);
      if !y.outcome.Done? then y else Result(Done(Pair(x.outcome.value, y.outcome.value)), y.history)
  }

  lemma ConsValue(m: Machine, e: Kl, env: Env, h: History, fuel: nat)
    requires IsCons(e)
    ensures Eval(m, e, env, h, fuel) == Joined(m, e.items[1], e.items[2], env, h, fuel)
  {
    hide Eval, EvalArgs, FormOf;
    var args := e.items[1..];
    BuiltinCall(m, e.items, env, h, fuel);
    TwoArgs(m, args, env, h, fuel);
  }

  lemma TwoArgs(m: Machine, args: seq<Kl>, env: Env, h: History, fuel: nat)
    requires |args| == 2
    ensures var x := Eval(m, args[0], env, h, fuel);
      EvalArgs(m, args, env, h, fuel) ==
      if !x.outcome.Done? then Failed(x)
      else
        var y := Eval(m, args[1], env, x.history, fuel);
        if !y.outcome.Done? then Failed(y) else Result(Done([x.outcome.value] + [y.outcome.value]), y.history)
  {
    hide Eval;
    var x := Eval(m, args[0], env, h, fuel);
    if x.outcome.Done? {
      OneArg(m, args[1..], env, x.history, fuel);
    }
  }

  lemma OneArg(m: Machine, args: seq<Kl>, env: Env, h: History, fuel: nat)
    requires |args| == 1
    ensures var a := Eval(m, args[0], env, h, fuel);
      EvalArgs(m, args, env, h, fuel) == if a.outcome.Done? then Result(Done([a.outcome.value]), a.history) else Failed(a)
  {
    hide Eval;
    var a := Eval(m, args[0], env, h, fuel);
    assert EvalArgs(m, args[1..], env, a.history, fuel) == Result(Done([]), a.history);
    if a.outcome.Done? {
      assert [a.outcome.value] + [] == [a.outcome.value];
    }
  }

  /** A call of a builtin with all its arguments. */
  lemma BuiltinCall(m: Machine, items: seq<Kl>, env: Env, h: History, fuel: nat)
    requires |items| > 0 && items[0].Sym? && IsBuiltin(items[0].name) && |items| == Arity(m, items[0].name) + 1
    ensures var a := EvalArgs(m, items[1..], env, h, fuel);
      Eval(m, List(items), env, h, fuel)
      == if a.outcome.Done? then Builtin(items[0].name, a.outcome.value, a.history) else Failed(a)
  {
    hide EvalArgs, Builtin;
    assert KeywordOf(items[0].name).KNone? by {
      BuiltinIsOrdinary(items[0].name);
    }
    hide KeywordOf, IsBuiltin;
    var f, args := items[0].name, items[1..];
    assert FormOf(items) == CallForm(items[0], args);
    assert Eval(m, List(items), env, h, fuel) == EvalCall(m, items[0], args, env, h, fuel) == CallNamed(m, f, args, env, h, fuel);
    NamedBuiltin(m, f, args, env, h, fuel);
  }

  lemma NamedBuiltin(m: Machine, f: string, args: seq<Kl>, env: Env, h: History, fuel: nat)
    requires IsBuiltin(f) && |args| == Arity(m, f)
    ensures var a := EvalArgs(m, args, env, h, fuel);
      CallNamed(m, f, args, env, h, fuel) == if a.outcome.Done? then Builtin(f, a.outcome.value, a.history) else Failed(a)
  {
    hide EvalArgs, Builtin;
  }

  lemma BuiltinIsOrdinary(name: string)
    requires IsBuiltin(name)
    ensures KeywordOf(name).KNone?
  {
  }

  lemma {:induction false} PartsAgree(m: Machine, m': Machine, e: Kl, env: Env, env': Env, h: History, h': History, fuel: nat)
    requires Related(m, m', env, env', h, h') && Tidy(e) && IsCons(e)
    ensures RelResult(Eval(m, e, env, h, fuel), Gathered(EvalArgs(m', Parts(e), env', h', fuel)))
    decreases fuel, 1, Size(e), 0
  {
    hide Eval, Fused, RelEnv, RelHistory, Rel, Fuse, FusesWhole;
    var a, b := e.items[1], e.items[2];
    SizeOfParts(e.items);
    assert Tidy(a) && Tidy(b);
    ConsValue(m, e, env, h, fuel);
    FuseAgrees(m, m', a, Fuse(a), env, env', h, h', fuel);
    var x, x' := Eval(m, a, env, h, fuel), Eval(m', Fuse(a), env', h', fuel);
    var parts := Parts(e);
    if x.outcome.Done? {
      if IsCons(b) {
        assert parts[1..] == Parts(b);
        PartsAgree(m, m', b, env, env', x.history, x'.history, fuel);
      } else {
        assert parts[1..] == [Fuse(b)];
        FuseAgrees(m, m', b, Fuse(b), env, env', x.history, x'.history, fuel);
        OneArg(m', parts[1..], env', x'.history, fuel);
      }
      PairedChain(x.outcome.value, x'.outcome.value, Eval(m, b, env, x.history, fuel), EvalArgs(m', parts[1..], env', x'.history, fuel));
    }
  }

  /** One more element in front. */
  lemma PairedChain(v: Value, v': Value, r: Result<Value>, rest: Result<seq<Value>>)
    requires Rel(v, v') && RelResult(r, Gathered(rest)) && (rest.outcome.Done? ==> |rest.outcome.value| > 0)
    ensures r.outcome.Done? == rest.outcome.Done?
    ensures r.outcome.Done? ==> Rel(Pair(v, r.outcome.value), Chain([v'] + rest.outcome.value))
  {
    if rest.outcome.Done? {
      assert ([v'] + rest.outcome.value)[1..] == rest.outcome.value;
    }
  }

  function Sided(r: Result<Value>, head: bool, n: nat): Result<Value> {
    if r.outcome.Done? then Result(Sides(r.outcome.value, head, n), r.history) else r
  }

  lemma {:induction false} NestValue(m: Machine, name: string, n: nat, core: Kl, env: Env, h: History, fuel: nat)
    requires IsSideName(name)
    ensures Eval(m, Nest(name, n, core), env, h, fuel) == Sided(Eval(m, core, env, h, fuel), name == "hd", n)
    decreases n
  {
    hide Eval, IsBuiltin;
    if n > 0 {
      NestValue(m, name, n - 1, core, env, h, fuel);
      var items := [Sym(name), Nest(name, n - 1, core)];
      assert items[1..] == [Nest(name, n - 1, core)];
      SideCall(m, items, name, env, h, fuel);
      OneMoreSide(Eval(m, core, env, h, fuel), name == "hd", n - 1);
    }
  }

  lemma OneMoreSide(r: Result<Value>, head: bool, n: nat)
    ensures Sided(Sided(r, head, n), head, 1) == Sided(r, head, n + 1)
  {
    if r.outcome.Done? {
      SidesLast(r.outcome.value, head, n);
      if Sides(r.outcome.value, head, n).Done? {
        SidesLast(Sides(r.outcome.value, head, n).value, head, 0);
      }
    }
  }

  lemma SideCall(m: Machine, items: seq<Kl>, name: string, env: Env, h: History, fuel: nat)
    requires IsSideName(name) && |items| == 2 && items[0] == Sym(name)
    ensures Eval(m, List(items), env, h, fuel) == Sided(Eval(m, items[1], env, h, fuel), name == "hd", 1)
  {
    hide Eval, EvalArgs;
    BuiltinCall(m, items, env, h, fuel);
    OneArg(m, items[1..], env, h, fuel);
    var r := Eval(m, items[1], env, h, fuel);
    if r.outcome.Done? {
      SidesLast(r.outcome.value, name == "hd", 0);
    }
  }

  /** The last step of a run of heads or tails. */
  lemma {:induction false} SidesLast(v: Value, head: bool, n: nat)
    ensures var r := Sides(v, head, n); Sides(v, head, n + 1) == if r.Done? then Side(r.value, head) else r
    decreases n
  {
    if n > 0 && Side(v, head).Done? {
      SidesLast(Side(v, head).value, head, n - 1);
    }
  }

  lemma NthValue(m: Machine, name: string, n: nat, core: Kl, env: Env, h: History, fuel: nat)
    requires IsSideName(name)
    ensures Eval(m, List([Sym(NthName(name)), Obj(Data(n))] + [core]), env, h, fuel) == Sided(Eval(m, core, env, h, fuel), name == "hd", n)
  {
    hide Eval;
    var items := [Sym(NthName(name)), Obj(Data(n))] + [core];
    BuiltinCall(m, items, env, h, fuel);
    var args := items[1..];
    assert args[0] == Obj(Data(n)) && args[1..] == [core];
    assert Eval(m, args[0], env, h, fuel) == Result(Done(Data(n)), h) by {
      ObjValue(m, Data(n), env, h, fuel);
    }
    OneArg(m, args[1..], env, h, fuel);
  }

  lemma ObjValue(m: Machine, v: Value, env: Env, h: History, fuel: nat)
    ensures Eval(m, Obj(v), env, h, fuel) == Result(Done(v), h)
  {
  }

  lemma {:induction false} RunIsNest(e: Kl, name: string)
    ensures Nest(name, Run(e, name), Core(e, name)) == e
  {
    if IsSide(e, name) {
      RunIsNest(e.items[1], name);
      assert e.items == [Sym(name), e.items[1]];
    }
  }

  lemma {:induction false} RunAgrees(m: Machine, m': Machine, e: Kl, name: string, env: Env, env': Env, h: History, h': History, fuel: nat)
    requires Related(m, m', env, env', h, h') && Tidy(e) && IsSideName(name) && FusesRun(e, name)
    ensures RelResult(Eval(m, e, env, h, fuel), Eval(m', Fuse(e), env', h', fuel))
    decreases fuel, 1, Size(e), 0
  {
    hide Eval, Related, Fuse, Cancels;
    SideIsRun(e, name);
    CoreIsSmaller(e, name);
    RunIsNest(e, name);
    TidyCore(e, name);
    var run, core := Run(e, name), Core(e, name);
    NestValue(m, name, run, core, env, h, fuel);
    NthValue(m', name, run, Fuse(core), env', h', fuel);
    FuseAgrees(m, m', core, Fuse(core), env, env', h, h', fuel);
    var r, r' := Eval(m, core, env, h, fuel), Eval(m', Fuse(core), env', h', fuel);
    if r.outcome.Done? {
      RelSides(r.outcome.value, r'.outcome.value, name == "hd", run);
    }
  }

  lemma {:induction false} TidyCore(e: Kl, name: string)
    requires Tidy(e)
    ensures Tidy(Core(e, name))
  {
    if IsSide(e, name) {
      TidyCore(e.items[1], name);
    }
  }

  // Main results --------------------------------------------------------------------------------

  /** Every run ends in the same way with fused definitions: results without closures are equal. */
  lemma FusedRunsAlike(m: Machine, m': Machine, e: Kl, env: Env, h: History, fuel: nat)
    requires Fused(m, m')
    ensures var r, r' := Eval(m, e, env, h, fuel), Eval(m', e, env, h, fuel);
      && RelResult(r, r')
      && (r.outcome.Done? && NoClosures(r.outcome.value) ==> r'.outcome == r.outcome)
  {
    hide Eval, Fused;
    EnvItself(env);
    HistoryItself(h);
    FuseAgrees(m, m', e, e, env, env, h, h, fuel);
    var r, r' := Eval(m, e, env, h, fuel), Eval(m', e, env, h, fuel);
    if r.outcome.Done? && NoClosures(r.outcome.value) {
      SameWithoutClosures(r.outcome.value, r'.outcome.value);
    }
  }

  lemma HistoryItself(h: History)
    ensures RelHistory(h, h)
  {
    forall i, j | 0 <= i < |h| && 0 <= j < |h[i].1|
      ensures Rel(h[i].1[j], h[i].1[j])
    {
      RelItself(h[i].1[j]);
    }
  }

  /** A run of hd or tl that ends in a call of the same function with another number of arguments
      takes one head or tail too many. */
  lemma MiscountedRun(m: Machine, e: Kl, name: string, env: Env, h: History, fuel: nat)
    requires IsSideName(name) && Run(e, name) > 1 && Miscount(Core(e, name), name) == 1
    ensures Eval(m, Fuse(e), env, h, fuel) == Sided(Eval(m, e, env, h, fuel), name == "hd", 1)
    ensures Eval(m, Fuse(e), env, h, fuel) == Eval(m, e, env, h, fuel)
      <==> (Eval(m, e, env, h, fuel).outcome.Done? ==> Side(Eval(m, e, env, h, fuel).outcome.value, name == "hd") == Eval(m, e, env, h, fuel).outcome)
  {
    hide Eval, Fuse;
    var run, core := Run(e, name), Core(e, name);
    SideIsRun(e, name);
    CoreIsSmaller(e, name);
    RunIsNest(e, name);
    MalformedStays(core, name);
    NestValue(m, name, run, core, env, h, fuel);
    NthValue(m, name, run + 1, core, env, h, fuel);
    OneMoreSide(Eval(m, core, env, h, fuel), name == "hd", run);
    var r := Eval(m, e, env, h, fuel);
    if r.outcome.Done? {
      SidesLast(r.outcome.value, name == "hd", 0);
    }
  }

  lemma MalformedStays(e: Kl, name: string)
    requires IsSideName(name) && HeadedBy(e, name) && |e.items| != 2
    ensures Fuse(e) == e && !Cancels(e)
  {
  }

  // Where the pass is wrong ---------------------------------------------------------------------

  const WRONG_CASE := "Wrong number of arguments for a case"
  const ODD_BINDINGS := "Odd number of c.loop bindings"

  /** The history with which evaluation reaches the k-th case, if it does: every case before it is
      well formed, and its test is false. */
  function Reached(m: Machine, cases: seq<Kl>, k: nat, env: Env, h: History, fuel: nat): Option<History>
    requires k <= |cases|
    decreases k
  {
    if k == 0 then Some(h)
    else if !cases[0].List? || |cases[0].items| != 2 then None
    else
      var t := Eval(m, cases[0].items[0], env, h, fuel);
      if t.outcome != Done(Truth(false)) then None else Reached(m, cases[1..], k - 1, env, t.history, fuel)
  }

  /** The k-th case is the first that looks like a run: the fused cases throw there and nowhere
      before, and without reaching it they do what the cases as written do. */
  lemma {:induction false} CasesUpToRun(m: Machine, m': Machine, cases: seq<Kl>, k: nat, env: Env, env': Env, h: History, h': History, fuel: nat)
    requires Related(m, m', env, env', h, h') && k < |cases| && LooksLikeRun(cases[k])
    requires forall i :: 0 <= i < k ==> Tidy(cases[i]) && !LooksLikeRun(cases[i])
    ensures var reached, r' := Reached(m, cases, k, env, h, fuel), EvalCases(m', FuseAll(cases), env', h', fuel);
      if reached.Some? then r'.outcome == Thrown(Error(WRONG_CASE)) && RelHistory(reached.value, r'.history)
      else RelResult(EvalCases(m, cases, env, h, fuel), r')
    decreases k
  {
    hide Eval, Fuse, Fused, RelHistory, RelEnv, LooksLikeRun, Turned, Tidy;
    var cases' := FuseAll(cases);
    assert cases'[0] == Fuse(cases[0]) && cases'[1..] == FuseAll(cases[1..]);
    if k == 0 {
      RunHasThreeItems(cases[0]);
    } else {
      var c, c' := cases[0], cases'[0];
      FusedIsTurned(c);
      if c.List? {
        NotARun(c, c');
        if |c.items| == 2 {
          FuseAgrees(m, m', c.items[0], c'.items[0], env, env', h, h', fuel);
          var t, t' := Eval(m, c.items[0], env, h, fuel), Eval(m', c'.items[0], env', h', fuel);
          FuseAgrees(m, m', c.items[1], c'.items[1], env, env', t.history, t'.history, fuel);
          if t.outcome == Done(Truth(false)) {
            CasesUpToRun(m, m', cases[1..], k - 1, env, env', t.history, t'.history, fuel);
          }
        }
      } else {
        TurnedShape(c, c');
      }
    }
  }

  lemma FusedIsTurned(e: Kl)
    requires Tidy(e)
    ensures Turned(e, Fuse(e))
  {
  }

  lemma RunHasThreeItems(e: Kl)
    requires LooksLikeRun(e)
    ensures Fuse(e).List? && |Fuse(e).items| == 3
  {
    hide Fuse, Cancels;
    SideIsRun(e, if FusesRun(e, "hd") then "hd" else "tl");
  }

  /** Main result on cond: fusing a cond with a case that looks like a run is right exactly when
      evaluation does not reach the first such case, or would have thrown the same error, after the
      same calls, anyway. */
  lemma RunCaseExactly(m: Machine, m': Machine, e: Kl, k: nat, env: Env, env': Env, h: History, h': History, fuel: nat)
    requires Related(m, m', env, env', h, h') && HeadedBy(e, "cond") && k < |e.items| - 1 && LooksLikeRun(e.items[1..][k])
    requires forall i :: 0 <= i < k ==> Tidy(e.items[1..][i]) && !LooksLikeRun(e.items[1..][i])
    ensures var reached := Reached(m, e.items[1..], k, env, h, fuel);
      var r, r' := Eval(m, e, env, h, fuel), Eval(m', Fuse(e), env', h', fuel);
      && (reached.Some? ==> r'.outcome == Thrown(Error(WRONG_CASE)) && RelHistory(reached.value, r'.history))
      && (RelResult(r, r') <==> reached.None? || (r.outcome == Thrown(Error(WRONG_CASE)) && RelHistory(r.history, r'.history)))
  {
    hide EvalCases, LooksLikeRun, Tidy, Fused, RelEnv, RelHistory;
    var cases := e.items[1..];
    CasesUpToRun(m, m', cases, k, env, env', h, h', fuel);
    CondValue(m, e.items, env, h, fuel);
    CondIsFused(e);
    assert Fuse(e).items[1..] == FuseAll(cases);
    CondValue(m', Fuse(e).items, env', h', fuel);
    assert List(e.items) == e && List(Fuse(e).items) == Fuse(e);
    if Reached(m, cases, k, env, h, fuel).Some? {
      OnlySameError(Eval(m, e, env, h, fuel), Eval(m', Fuse(e), env', h', fuel), WRONG_CASE);
    }
  }

  lemma CondIsFused(e: Kl)
    requires HeadedBy(e, "cond")
    ensures Fuse(e).List? && |Fuse(e).items| == |e.items| && Fuse(e).items == [Sym("cond")] + FuseAll(e.items[1..])
  {
    assert Fuse(e) == List(FuseAll(e.items)) && Fuse(e.items[0]) == Sym("cond");
  }

  lemma CondValue(m: Machine, items: seq<Kl>, env: Env, h: History, fuel: nat)
    requires |items| > 1 && items[0] == Sym("cond")
    ensures Eval(m, List(items), env, h, fuel) == EvalCases(m, items[1..], env, h, fuel)
  {
    hide EvalCases;
    assert KeywordOf("cond").KCond?;
    assert FormOf(items) == CondForm(items[1..]);
  }

  lemma OnlySameError(r: Result<Value>, r': Result<Value>, message: string)
    requires r'.outcome == Thrown(Error(message))
    ensures RelResult(r, r') <==> r.outcome == Thrown(Error(message)) && RelHistory(r.history, r'.history)
  {
    hide RelHistory;
  }

  /** Main result on c.loop: where the bindings look like a run, the fused loop always throws, so the
      pass is right exactly when the loop as written throws that at once. */
  lemma RunBindingsExactly(m: Machine, m': Machine, e: Kl, env: Env, env': Env, h: History, h': History, fuel: nat)
    requires HeadedBy(e, "c.loop") && |e.items| == 3 && LooksLikeRun(e.items[1])
    ensures var r, r' := Eval(m, e, env, h, fuel), Eval(m', Fuse(e), env', h', fuel);
      && r' == Throw(ODD_BINDINGS, h')
      && (RelResult(r, r') <==> r.outcome == Thrown(Error(ODD_BINDINGS)) && RelHistory(r.history, h'))
  {
    hide Eval, LooksLikeRun;
    LoopIsFused(e);
    RunHasThreeItems(e.items[1]);
    LoopValue(m', Fuse(e).items, env', h', fuel);
    OnlySameError(Eval(m, e, env, h, fuel), Throw(ODD_BINDINGS, h'), ODD_BINDINGS);
  }

  /** Where they are nested calls of cons, the loop as written throws at once; fused, it does so
      exactly if the number of elements is even, and otherwise takes them for bindings. */
  lemma ConsBindingsThrow(m: Machine, m': Machine, e: Kl, env: Env, env': Env, h: History, h': History, fuel: nat)
    requires HeadedBy(e, "c.loop") && |e.items| == 3 && IsCons(e.items[1]) && IsCons(e.items[1].items[2])
    ensures Eval(m, e, env, h, fuel) == Throw(ODD_BINDINGS, h)
    ensures !BecomesEven(e.items[1]) ==> Eval(m', Fuse(e), env', h', fuel) == Throw(ODD_BINDINGS, h')
    ensures BecomesEven(e.items[1]) ==>
      Fuse(e.items[1]).List? && |Fuse(e.items[1]).items| % 2 == 0
      && Eval(m', Fuse(e), env', h', fuel) == EvalLoop(m', Fuse(e.items[1]), Fuse(e.items[2]), env', h', fuel)
  {
    hide Eval, Fuse, Parts;
    LoopIsFused(e);
    MconsShape(e.items[1]);
    LoopValue(m, e.items, env, h, fuel);
    assert List(e.items) == e;
    LoopValue(m', Fuse(e).items, env', h', fuel);
  }

  lemma LoopIsFused(e: Kl)
    requires HeadedBy(e, "c.loop") && |e.items| == 3
    ensures Fuse(e) == List([Sym("c.loop"), Fuse(e.items[1]), Fuse(e.items[2])])
  {
    assert e.items == [e.items[0], e.items[1], e.items[2]];
    assert Fuse(e) == List(FuseAll(e.items)) && Fuse(e.items[0]) == Sym("c.loop");
    forall i | 0 <= i < 3
      ensures FuseAll(e.items)[i] == Fuse(e.items[i])
    {
      FuseAllAt(e.items, i);
    }
  }

  lemma LoopValue(m: Machine, items: seq<Kl>, env: Env, h: History, fuel: nat)
    requires |items| == 3 && items[0] == Sym("c.loop")
    ensures Eval(m, List(items), env, h, fuel) == EvalLoop(m, items[1], items[2], env, h, fuel)
  {
    hide EvalLoop;
    assert KeywordOf("c.loop").KLoop?;
    assert FormOf(items) == LoopForm(items[1], items[2]);
  }
}
