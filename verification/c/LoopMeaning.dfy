/** Running the loop that optimize_tail_call makes of a function is running the function: the same
    value, the same error, the same calls of primitives, at every depth of calls. */
module LoopMeaning {
  import opened Options
  import opened TreeWalk
  import opened TailLoop

  // What is rewritten ---------------------------------------------------------------------------

  /** Nothing in e can keep the environment or jump by itself, and e mentions no name of made. */
  predicate Plain(e: Kl, made: set<string>) {
    match e
    case Sym(name) => name !in made
    case Obj(_) => true
    case List(items) =>
      && (|items| > 0 && items[0].Sym? ==> !KeywordOf(items[0].name).KLambda? && !KeywordOf(items[0].name).KFreeze?
                                           && !KeywordOf(items[0].name).KLoop? && !KeywordOf(items[0].name).KRecur?)
      && forall i :: 0 <= i < |items| ==> Plain(items[i], made)
  }

  predicate PlainAll(es: seq<Kl>, made: set<string>) {
    forall i :: 0 <= i < |es| ==> Plain(es[i], made)
  }

  predicate PlainForm(form: Form, made: set<string>) {
    match form
    case LetForm(variable, bound, body) => Plain(variable, made) && Plain(bound, made) && Plain(body, made)
    case IfForm(test, yes, no) => Plain(test, made) && Plain(yes, made) && Plain(no, made)
    case AndForm(left, right) => Plain(left, made) && Plain(right, made)
    case OrForm(left, right) => Plain(left, made) && Plain(right, made)
    case CondForm(cases) => PlainAll(cases, made)
    case TrapForm(body, handler) => Plain(body, made) && Plain(handler, made)
    case TypeForm(expr) => Plain(expr, made)
    case MconsForm(args) => PlainAll(args, made)
    case CallForm(head, args) => Plain(head, made) && PlainAll(args, made)
    case BadForm(_) => true
    case OutsideForm => true
    case _ => false
  }

  lemma PlainParts(items: seq<Kl>, made: set<string>)
    requires |items| > 0 && Plain(List(items), made)
    ensures PlainForm(FormOf(items), made)
  {
    hide KeywordOf, CountMessage;
  }

  /** Both environments give every name but the generated ones the same meaning. */
  ghost predicate Same(env: Env, env': Env, made: set<string>) {
    forall name :: name !in made ==> Lookup(env, name) == Lookup(env', name)
  }

  lemma SameWith(env: Env, env': Env, made: set<string>, b: Binding)
    requires Same(env, env', made)
    ensures Same(Frame([b], env), Frame([b], env'), made)
  {
  }

  ghost predicate OrdinaryName(f: string) {
    KeywordOf(f).KNone? && !IsBuiltin(f)
  }

  /** d' is what the definition of f as d stores. */
  ghost predicate Stored(f: string, d: Defun, d': Defun, made: seq<string>) {
    && OrdinaryName(f) && |made| == |d.params|
    && (forall i, j :: 0 <= i < j < |made| ==> made[i] != made[j])
    && Optimise(f, d, made) == Definition(d')
    && (IsLoop(f, d) ==> Plain(d.body, Made(made)))
  }

  function Made(made: seq<string>): set<string> {
    set name | name in made
  }

  /** m' runs the stored definitions of the functions that m runs as they are written. */
  ghost predicate Optimised(m: Machine, m': Machine) {
    && m'.arity == m.arity && m'.prims == m.prims && m'.funs.Keys == m.funs.Keys
    && forall f :: f in m.funs ==> m'.funs[f] == m.funs[f] || exists made :: Stored(f, m.funs[f], m'.funs[f], made)
  }

  lemma SameArity(m: Machine, m': Machine, f: string)
    requires Optimised(m, m')
    ensures IsFunction(m', f) == IsFunction(m, f)
    ensures IsFunction(m, f) ==> Arity(m', f) == Arity(m, f)
  {
    if f in m.funs && m'.funs[f] != m.funs[f] {
      var made :| Stored(f, m.funs[f], m'.funs[f], made);
    }
  }

  // A plain expression ends without a jump ------------------------------------------------------

  lemma {:induction false} NeverJumps(m: Machine, e: Kl, made: set<string>, env: Env, h: History, fuel: nat)
    requires Plain(e, made)
    ensures !Eval(m, e, env, h, fuel).outcome.Recur?
    decreases Size(e), 0
  {
    hide KeywordOf, FormOf, EvalForm;
    if e.List? && |e.items| > 0 {
      PlainParts(e.items, made);
      PartsAreSmaller(e.items);
      FormNeverJumps(m, FormOf(e.items), made, env, h, fuel);
    }
  }

  lemma {:induction false} FormNeverJumps(m: Machine, form: Form, made: set<string>, env: Env, h: History, fuel: nat)
    requires PlainForm(form, made)
    ensures !EvalForm(m, form, env, h, fuel).outcome.Recur?
    decreases FormSize(form), 1
  {
    hide Eval, EvalArgs, EvalCases, EvalCall, Handle, Plain;
    match form
    case LetForm(variable, bound, body) =>
      NeverJumps(m, bound, made, env, h, fuel);
      var a := Eval(m, bound, env, h, fuel);
      if a.outcome.Done? && variable.Sym? {
        NeverJumps(m, body, made, Frame([Binding(variable.name, a.outcome.value)], env), a.history, fuel);
      }
    case IfForm(test, yes, no) =>
      NeverJumps(m, test, made, env, h, fuel);
      var t := Eval(m, test, env, h, fuel);
      NeverJumps(m, yes, made, env, t.history, fuel);
      NeverJumps(m, no, made, env, t.history, fuel);
    case AndForm(left, right) =>
      NeverJumps(m, left, made, env, h, fuel);
      NeverJumps(m, right, made, env, Eval(m, left, env, h, fuel).history, fuel);
    case OrForm(left, right) =>
      NeverJumps(m, left, made, env, h, fuel);
      NeverJumps(m, right, made, env, Eval(m, left, env, h, fuel).history, fuel);
    case CondForm(cases) => CasesNeverJump(m, cases, made, env, h, fuel);
    case TrapForm(body, handler) =>
      var b := Eval(m, body, env, h, fuel);
      NeverJumps(m, handler, made, env, b.history, fuel);
      var f := Eval(m, handler, env, b.history, fuel);
      if b.outcome.Thrown? && f.outcome.Done? {
        HandleLands(m, f.outcome.value, b.outcome.error, f.history, fuel);
      }
    case TypeForm(expr) => NeverJumps(m, expr, made, env, h, fuel);
    case MconsForm(args) => ArgsNeverJump(m, args, made, env, h, fuel);
    case CallForm(head, args) => CallNeverJumps(m, head, args, made, env, h, fuel);
    case _ =>
  }

  lemma {:induction false} CasesNeverJump(m: Machine, cases: seq<Kl>, made: set<string>, env: Env, h: History, fuel: nat)
    requires PlainAll(cases, made)
    ensures !EvalCases(m, cases, env, h, fuel).outcome.Recur?
    decreases 1 + SizeAll(cases), 0
  {
    hide Eval, KeywordOf;
    if |cases| > 0 && cases[0].List? && |cases[0].items| == 2 {
      SizeOfParts(cases);
      SizeOfParts(cases[0].items);
      assert Plain(cases[0], made);
      NeverJumps(m, cases[0].items[0], made, env, h, fuel);
      var t := Eval(m, cases[0].items[0], env, h, fuel);
      NeverJumps(m, cases[0].items[1], made, env, t.history, fuel);
      CasesNeverJump(m, cases[1..], made, env, t.history, fuel);
    }
  }

  lemma {:induction false} ArgsNeverJump(m: Machine, args: seq<Kl>, made: set<string>, env: Env, h: History, fuel: nat)
    requires PlainAll(args, made)
    ensures !EvalArgs(m, args, env, h, fuel).outcome.Recur?
    decreases SizeAll(args), 1
  {
    hide Eval, Plain;
    if |args| > 0 {
      SizeOfParts(args);
      NeverJumps(m, args[0], made, env, h, fuel);
      OneSize(args[0]);
      ArgsNeverJump(m, args[1..], made, env, Eval(m, args[0], env, h, fuel).history, fuel);
    }
  }

  lemma {:induction false} CallNeverJumps(m: Machine, head: Kl, args: seq<Kl>, made: set<string>, env: Env, h: History, fuel: nat)
    requires Plain(head, made) && PlainAll(args, made)
    ensures !EvalCall(m, head, args, env, h, fuel).outcome.Recur?
    decreases 1 + Size(head) + SizeAll(args), 0
  {
    hide Eval, CallNamed, CallValue, Plain;
    OneSize(head);
    if head.Sym? && IsFunction(m, head.name) {
      NamedNeverJumps(m, head.name, args, made, env, h, fuel);
    } else {
      NeverJumps(m, head, made, env, h, fuel);
      var f := Eval(m, head, env, h, fuel);
      if f.outcome.Done? {
        ValueNeverJumps(m, f.outcome.value, args, made, env, f.history, fuel);
      }
    }
  }

  lemma {:induction false} NamedNeverJumps(m: Machine, f: string, args: seq<Kl>, made: set<string>, env: Env, h: History, fuel: nat)
    requires IsFunction(m, f) && PlainAll(args, made)
    ensures !CallNamed(m, f, args, env, h, fuel).outcome.Recur?
    decreases 1 + SizeAll(args), 1
  {
    hide EvalArgs, CallEach, Enter, Plain;
    ArgsNeverJump(m, args, made, env, h, fuel);
    var a := EvalArgs(m, args, env, h, fuel);
    if |args| == Arity(m, f) {
      if a.outcome.Done? {
        EnterLands(m, f, a.outcome.value, a.history, fuel);
      }
    } else if Arity(m, f) == 0 {
      EnterLands(m, f, [], h, fuel);
      var first := Enter(m, f, [], h, fuel);
      if first.outcome.Done? {
        EachNeverJumps(m, first.outcome.value, args, made, env, first.history, fuel);
      }
    } else {
      EachNeverJumps(m, Partial(f, []), args, made, env, h, fuel);
    }
  }

  lemma {:induction false} ValueNeverJumps(m: Machine, f: Value, args: seq<Kl>, made: set<string>, env: Env, h: History, fuel: nat)
    requires PlainAll(args, made)
    ensures !CallValue(m, f, args, env, h, fuel).outcome.Recur?
    decreases 1 + SizeAll(args), 2
  {
    hide CallEach, CallNamed, Plain;
    if f.Symbol? && IsFunction(m, f.name) {
      NamedNeverJumps(m, f.name, args, made, env, h, fuel);
    } else if f.Closure? || f.Partial? {
      EachNeverJumps(m, f, args, made, env, h, fuel);
    }
  }

  lemma {:induction false} EachNeverJumps(m: Machine, f: Value, args: seq<Kl>, made: set<string>, env: Env, h: History, fuel: nat)
    requires PlainAll(args, made)
    ensures !CallEach(m, f, args, env, h, fuel).outcome.Recur?
    decreases 1 + SizeAll(args), 0
  {
    hide Eval, Handle, Plain;
    if |args| > 0 {
      SizeOfParts(args);
      OneSize(args[0]);
      NeverJumps(m, args[0], made, env, h, fuel);
      var v := Eval(m, args[0], env, h, fuel);
      if v.outcome.Done? {
        HandleLands(m, f, v.outcome.value, v.history, fuel);
      }
      var a := CallOne(m, f, args[0], env, h, fuel);
      if a.outcome.Done? {
        EachNeverJumps(m, a.outcome.value, args[1..], made, env, a.history, fuel);
      }
    }
  }

  lemma EnterLands(m: Machine, f: string, args: seq<Value>, h: History, fuel: nat)
    requires IsFunction(m, f) && |args| == Arity(m, f)
    ensures !Enter(m, f, args, h, fuel).outcome.Recur?
  {
    hide Eval;
  }

  lemma HandleLands(m: Machine, f: Value, error: Value, h: History, fuel: nat)
    ensures !Handle(m, f, error, h, fuel).outcome.Recur?
  {
    hide Eval, Enter;
    if f.Partial? && IsFunction(m, f.f) && |f.args| + 1 == Arity(m, f.f) {
      EnterLands(m, f.f, f.args + [error], h, fuel);
    } else if f.Symbol? && IsFunction(m, f.name) && Arity(m, f.name) == 1 {
      EnterLands(m, f.name, [error], h, fuel);
    }
  }

  // Plain expressions and unchanged functions ---------------------------------------------------

  /** e means the same in both environments: they are the same, or e cannot tell them apart. */
  ghost predicate View(e: Kl, env: Env, env': Env, made: set<string>) {
    env == env' || (Plain(e, made) && Same(env, env', made))
  }

  ghost predicate ViewAll(es: seq<Kl>, env: Env, env': Env, made: set<string>) {
    env == env' || (PlainAll(es, made) && Same(env, env', made))
  }

  ghost predicate ViewForm(form: Form, env: Env, env': Env, made: set<string>) {
    env == env' || (PlainForm(form, made) && Same(env, env', made))
  }

  lemma {:induction false} Agrees(m: Machine, m': Machine, e: Kl, made: set<string>, env: Env, env': Env, h: History, fuel: nat)
    requires Optimised(m, m') && View(e, env, env', made)
    ensures Eval(m', e, env', h, fuel) == Eval(m, e, env, h, fuel)
    decreases fuel, 1, Size(e), 0
  {
    hide KeywordOf, FormOf, EvalForm, Optimised;
    if e.List? && |e.items| > 0 {
      if env != env' {
        PlainParts(e.items, made);
      }
      PartsAreSmaller(e.items);
      FormAgrees(m, m', FormOf(e.items), made, env, env', h, fuel);
    }
  }

  lemma {:induction false} FormAgrees(m: Machine, m': Machine, form: Form, made: set<string>, env: Env, env': Env, h: History, fuel: nat)
    requires Optimised(m, m') && ViewForm(form, env, env', made)
    ensures EvalForm(m', form, env', h, fuel) == EvalForm(m, form, env, h, fuel)
    decreases fuel, 1, FormSize(form), 1
  {
    hide Eval, EvalArgs, EvalBoth, EvalCases, EvalTrap, EvalLoop, EvalCall, Plain, PlainAll, Same, Optimised;
    match form
    case LetForm(variable, bound, body) =>
      Agrees(m, m', bound, made, env, env', h, fuel);
      var a := Eval(m, bound, env, h, fuel);
      if a.outcome.Done? && variable.Sym? {
        var b := Binding(variable.name, a.outcome.value);
        if env != env' {
          SameWith(env, env', made, b);
        }
        Agrees(m, m', body, made, Frame([b], env), Frame([b], env'), a.history, fuel);
      }
    case IfForm(test, yes, no) =>
      Agrees(m, m', test, made, env, env', h, fuel);
      var t := Eval(m, test, env, h, fuel);
      Agrees(m, m', yes, made, env, env', t.history, fuel);
      Agrees(m, m', no, made, env, env', t.history, fuel);
    case AndForm(left, right) => BothAgree(m, m', left, right, true, made, env, env', h, fuel);
    case OrForm(left, right) => BothAgree(m, m', left, right, false, made, env, env', h, fuel);
    case CondForm(cases) => CasesAgree(m, m', cases, made, env, env', h, fuel);
    case TrapForm(body, handler) => TrapAgrees(m, m', body, handler, made, env, env', h, fuel);
    case TypeForm(expr) => Agrees(m, m', expr, made, env, env', h, fuel);
    case MconsForm(args) => ArgsAgree(m, m', args, made, env, env', h, fuel);
    case RecurForm(args) => ArgsAgree(m, m', args, made, env, env', h, fuel);
    case LoopForm(binds, body) => LoopAgrees(m, m', binds, body, env, h, fuel);
    case CallForm(head, args) => CallAgrees(m, m', head, args, made, env, env', h, fuel);
    case _ =>
  }

  lemma {:induction false} BothAgree(m: Machine, m': Machine, left: Kl, right: Kl, want: bool, made: set<string>, env: Env, env': Env, h: History, fuel: nat)
    requires Optimised(m, m') && View(left, env, env', made) && View(right, env, env', made)
    ensures EvalBoth(m', left, right, want, env', h, fuel) == EvalBoth(m, left, right, want, env, h, fuel)
    decreases fuel, 1, 1 + Size(left) + Size(right), 0
  {
    hide Eval, View, Optimised;
    Agrees(m, m', left, made, env, env', h, fuel);
    Agrees(m, m', right, made, env, env', Eval(m, left, env, h, fuel).history, fuel);
  }

  lemma {:induction false} TrapAgrees(m: Machine, m': Machine, body: Kl, handler: Kl, made: set<string>, env: Env, env': Env, h: History, fuel: nat)
    requires Optimised(m, m') && View(body, env, env', made) && View(handler, env, env', made)
    ensures EvalTrap(m', body, handler, env', h, fuel) == EvalTrap(m, body, handler, env, h, fuel)
    decreases fuel, 1, 1 + Size(body) + Size(handler), 0
  {
    hide Eval, View, Optimised, Handle;
    Agrees(m, m', body, made, env, env', h, fuel);
    var b := Eval(m, body, env, h, fuel);
    Agrees(m, m', handler, made, env, env', b.history, fuel);
    var f := Eval(m, handler, env, b.history, fuel);
    if b.outcome.Thrown? && f.outcome.Done? {
      HandleAgrees(m, m', f.outcome.value, b.outcome.error, f.history, fuel);
    }
  }

  lemma {:induction false} CasesAgree(m: Machine, m': Machine, cases: seq<Kl>, made: set<string>, env: Env, env': Env, h: History, fuel: nat)
    requires Optimised(m, m') && ViewAll(cases, env, env', made)
    ensures EvalCases(m', cases, env', h, fuel) == EvalCases(m, cases, env, h, fuel)
    decreases fuel, 1, 1 + SizeAll(cases), 0
  {
    hide Eval, KeywordOf, Optimised, Same;
    if |cases| > 0 && cases[0].List? && |cases[0].items| == 2 {
      SizeOfParts(cases);
      SizeOfParts(cases[0].items);
      assert env != env' ==> Plain(cases[0], made);
      Agrees(m, m', cases[0].items[0], made, env, env', h, fuel);
      var t := Eval(m, cases[0].items[0], env, h, fuel);
      Agrees(m, m', cases[0].items[1], made, env, env', t.history, fuel);
      CasesAgree(m, m', cases[1..], made, env, env', t.history, fuel);
    }
  }

  lemma {:induction false} ArgsAgree(m: Machine, m': Machine, args: seq<Kl>, made: set<string>, env: Env, env': Env, h: History, fuel: nat)
    requires Optimised(m, m') && ViewAll(args, env, env', made)
    ensures EvalArgs(m', args, env', h, fuel) == EvalArgs(m, args, env, h, fuel)
    decreases fuel, 1, SizeAll(args), 1
  {
    hide Eval, Plain, Optimised, Same;
    if |args| > 0 {
      SizeOfParts(args);
      OneSize(args[0]);
      Agrees(m, m', args[0], made, env, env', h, fuel);
      ArgsAgree(m, m', args[1..], made, env, env', Eval(m, args[0], env, h, fuel).history, fuel);
    }
  }

  lemma {:induction false} BindsAgree(m: Machine, m': Machine, items: seq<Kl>, env: Env, h: History, fuel: nat)
    requires Optimised(m, m') && |items| % 2 == 0
    ensures EvalBinds(m', items, env, h, fuel) == EvalBinds(m, items, env, h, fuel)
    decreases fuel, 1, SizeAll(items), 1
  {
    hide Eval, Optimised;
    if |items| > 0 && items[0].Sym? {
      SizeOfParts(items);
      OneSize(items[0]);
      Agrees(m, m', items[1], {}, env, env, h, fuel);
      BindsAgree(m, m', items[2..], env, Eval(m, items[1], env, h, fuel).history, fuel);
    }
  }

  lemma {:induction false} LoopAgrees(m: Machine, m': Machine, binds: Kl, body: Kl, env: Env, h: History, fuel: nat)
    requires Optimised(m, m')
    ensures EvalLoop(m', binds, body, env, h, fuel) == EvalLoop(m, binds, body, env, h, fuel)
    decreases fuel, 1, 1 + Size(binds) + Size(body), 0
  {
    hide Eval, EvalBinds, Rounds, Optimised;
    if binds.List? && |binds.items| % 2 == 0 {
      BindsAgree(m, m', binds.items, env, h, fuel);
      var bs := EvalBinds(m, binds.items, env, h, fuel);
      if bs.outcome.Done? {
        RoundsAgree(m, m', Names(bs.outcome.value), body, Extend(env, bs.outcome.value), bs.history, fuel);
      }
    }
  }

  /** A loop that the program itself contains. */
  lemma {:induction false} RoundsAgree(m: Machine, m': Machine, names: seq<string>, body: Kl, env: Env, h: History, fuel: nat)
    requires Optimised(m, m')
    ensures Rounds(m', names, body, env, h, fuel) == Rounds(m, names, body, env, h, fuel)
    decreases fuel, 1, Size(body), 1
  {
    hide Eval, UpdateAll, Optimised;
    Agrees(m, m', body, {}, env, env, h, fuel);
    var r := Eval(m, body, env, h, fuel);
    if r.outcome.Recur? && |r.outcome.args| == |names| && fuel > 0 && UpdateAll(env, names, r.outcome.args).Some? {
      RoundsAgree(m, m', names, body, UpdateAll(env, names, r.outcome.args).value, r.history, fuel - 1);
    }
  }

  lemma {:induction false} CallAgrees(m: Machine, m': Machine, head: Kl, args: seq<Kl>, made: set<string>, env: Env, env': Env, h: History, fuel: nat)
    requires Optimised(m, m') && View(head, env, env', made) && ViewAll(args, env, env', made)
    ensures EvalCall(m', head, args, env', h, fuel) == EvalCall(m, head, args, env, h, fuel)
    decreases fuel, 1, 1 + Size(head) + SizeAll(args), 0
  {
    hide Eval, CallNamed, CallValue, View, ViewAll, Optimised;
    OneSize(head);
    if head.Sym? {
      SameArity(m, m', head.name);
    }
    if head.Sym? && IsFunction(m, head.name) {
      NamedAgrees(m, m', head.name, args, made, env, env', h, fuel);
    } else {
      Agrees(m, m', head, made, env, env', h, fuel);
      var f := Eval(m, head, env, h, fuel);
      if f.outcome.Done? {
        ValueAgrees(m, m', f.outcome.value, args, made, env, env', f.history, fuel);
      }
    }
  }

  lemma {:induction false} NamedAgrees(m: Machine, m': Machine, f: string, args: seq<Kl>, made: set<string>, env: Env, env': Env, h: History, fuel: nat)
    requires Optimised(m, m') && IsFunction(m, f) && IsFunction(m', f) && ViewAll(args, env, env', made)
    ensures CallNamed(m', f, args, env', h, fuel) == CallNamed(m, f, args, env, h, fuel)
    decreases fuel, 1, 1 + SizeAll(args), 1
  {
    hide EvalArgs, CallEach, Enter, ViewAll, Optimised, IsFunction, Arity;
    SameArity(m, m', f);
    if |args| == Arity(m, f) {
      ArgsAgree(m, m', args, made, env, env', h, fuel);
      var a := EvalArgs(m, args, env, h, fuel);
      if a.outcome.Done? {
        EnterAgrees(m, m', f, a.outcome.value, a.history, fuel);
      }
    } else if Arity(m, f) == 0 {
      EnterAgrees(m, m', f, [], h, fuel);
      var first := Enter(m, f, [], h, fuel);
      if first.outcome.Done? {
        EachAgrees(m, m', first.outcome.value, args, made, env, env', first.history, fuel);
      }
    } else {
      EachAgrees(m, m', Partial(f, []), args, made, env, env', h, fuel);
    }
  }

  lemma {:induction false} ValueAgrees(m: Machine, m': Machine, f: Value, args: seq<Kl>, made: set<string>, env: Env, env': Env, h: History, fuel: nat)
    requires Optimised(m, m') && ViewAll(args, env, env', made)
    ensures CallValue(m', f, args, env', h, fuel) == CallValue(m, f, args, env, h, fuel)
    decreases fuel, 1, 1 + SizeAll(args), 2
  {
    hide CallEach, CallNamed, EnterClosure, ViewAll, Optimised, IsFunction, Arity;
    if f.Symbol? {
      SameArity(m, m', f.name);
      if IsFunction(m, f.name) && |args| == Arity(m, f.name) {
        NamedAgrees(m, m', f.name, args, made, env, env', h, fuel);
      }
    } else if f.Closure? || f.Partial? {
      if |args| == 0 && f.Closure? {
        ClosureAgrees(m, m', f, [], h, fuel);
      }
      EachAgrees(m, m', f, args, made, env, env', h, fuel);
    }
  }

  lemma {:induction false} EachAgrees(m: Machine, m': Machine, f: Value, args: seq<Kl>, made: set<string>, env: Env, env': Env, h: History, fuel: nat)
    requires Optimised(m, m') && ViewAll(args, env, env', made)
    ensures CallEach(m', f, args, env', h, fuel) == CallEach(m, f, args, env, h, fuel)
    decreases fuel, 1, 1 + SizeAll(args), 0
  {
    hide Eval, CallOne, Plain, Optimised, Same;
    if |args| > 0 {
      SizeOfParts(args);
      OneSize(args[0]);
      OneAgrees(m, m', f, args[0], made, env, env', h, fuel);
      var a := CallOne(m, f, args[0], env, h, fuel);
      if a.outcome.Done? {
        EachAgrees(m, m', a.outcome.value, args[1..], made, env, env', a.history, fuel);
      }
    }
  }

  lemma {:induction false} OneAgrees(m: Machine, m': Machine, f: Value, arg: Kl, made: set<string>, env: Env, env': Env, h: History, fuel: nat)
    requires Optimised(m, m') && View(arg, env, env', made)
    ensures CallOne(m', f, arg, env', h, fuel) == CallOne(m, f, arg, env, h, fuel)
    decreases fuel, 1, Size(arg), 1
  {
    hide Eval, Handle, View, Optimised, IsFunction, Arity;
    Agrees(m, m', arg, made, env, env', h, fuel);
    var v := Eval(m, arg, env, h, fuel);
    if f.Symbol? {
      SameArity(m, m', f.name);
    }
    if v.outcome.Done? {
      HandleAgrees(m, m', f, v.outcome.value, v.history, fuel);
    }
  }

  lemma {:induction false} HandleAgrees(m: Machine, m': Machine, f: Value, arg: Value, h: History, fuel: nat)
    requires Optimised(m, m')
    ensures Handle(m', f, arg, h, fuel) == Handle(m, f, arg, h, fuel)
    decreases fuel, 0, 1, 0
  {
    hide Eval, Enter, EnterClosure, EnterPartial, Optimised, IsFunction, Arity;
    match f
    case Closure(_, _, _) => ClosureAgrees(m, m', f, [arg], h, fuel);
    case Partial(_, _) => PartialAgrees(m, m', f, arg, h, fuel);
    case Symbol(g) =>
      SameArity(m, m', g);
      if IsFunction(m, g) && Arity(m, g) == 1 {
        EnterAgrees(m, m', g, [arg], h, fuel);
      }
    case _ =>
  }

  lemma {:induction false} ClosureAgrees(m: Machine, m': Machine, f: Value, args: seq<Value>, h: History, fuel: nat)
    requires Optimised(m, m') && f.Closure? && |args| <= 1
    ensures EnterClosure(m', f, args, h, fuel) == EnterClosure(m, f, args, h, fuel)
    decreases fuel, 0, 0, 0
  {
    hide Eval, Optimised;
    if |args| == (if f.param.Some? then 1 else 0) && fuel > 0 {
      var env := if f.param.Some? then Frame([Binding(f.param.value, args[0])], f.env) else f.env;
      Agrees(m, m', f.body, {}, env, env, h, fuel - 1);
    }
  }

  lemma {:induction false} PartialAgrees(m: Machine, m': Machine, f: Value, arg: Value, h: History, fuel: nat)
    requires Optimised(m, m') && f.Partial?
    ensures EnterPartial(m', f, arg, h, fuel) == EnterPartial(m, f, arg, h, fuel)
    decreases fuel, 0, 0, 1
  {
    hide Enter, Optimised, IsFunction, Arity;
    SameArity(m, m', f.f);
    if IsFunction(m, f.f) && |f.args| + 1 == Arity(m, f.f) {
      EnterAgrees(m, m', f.f, f.args + [arg], h, fuel);
    }
  }

  /** The stored function does what the written one does. */
  lemma {:induction false} EnterAgrees(m: Machine, m': Machine, f: string, args: seq<Value>, h: History, fuel: nat)
    requires Optimised(m, m') && IsFunction(m, f) && IsFunction(m', f) && |args| == Arity(m, f) == Arity(m', f)
    ensures Enter(m', f, args, h, fuel) == Enter(m, f, args, h, fuel)
    decreases fuel, 0, 0, 0
  {
    hide Eval, Builtin;
    if !IsBuiltin(f) && f in m.funs && fuel > 0 {
      if m'.funs[f] == m.funs[f] {
        var env := Extend(Root, Bindings(m.funs[f].params, args));
        Agrees(m, m', m.funs[f].body, {}, env, env, h, fuel - 1);
      } else {
        var made :| Stored(f, m.funs[f], m'.funs[f], made);
        StoredAgrees(m, m', f, made, args, h, fuel - 1);
      }
    }
  }

  // The loop ------------------------------------------------------------------------------------

  /** r' comes from the rewritten expression, r from the written one: a jump is the call that the
      c.recur replaced, about to be entered. */
  ghost predicate JumpsOrAgrees(m: Machine, f: string, r': Result<Value>, r: Result<Value>, fuel: nat)
    requires IsFunction(m, f)
  {
    if r'.outcome.Recur? then |r'.outcome.args| == Arity(m, f) && r == Enter(m, f, r'.outcome.args, r'.history, fuel)
    else r' == r
  }

  /** f is defined by the program; env' is a frame of its loop. */
  ghost predicate InLoop(m: Machine, m': Machine, f: string, made: set<string>, env: Env, env': Env) {
    Optimised(m, m') && f in m.funs && OrdinaryName(f) && Same(env, env', made)
  }

  /** e' is e with or without its first self call in tail position rewritten. */
  lemma {:induction false} TailAgrees(m: Machine, m': Machine, f: string, e: Kl, e': Kl, made: set<string>, env: Env, env': Env, h: History, fuel: nat)
    requires InLoop(m, m', f, made, env, env') && Plain(e, made) && TailFits(f, |m.funs[f].params|, e)
    requires e' == e || ToRecur(f, e) == Some(e')
    ensures JumpsOrAgrees(m, f, Eval(m', e', env', h, fuel), Eval(m, e, env, h, fuel), fuel)
    decreases fuel, 1, Size(e), 3
  {
    hide Eval, EvalForm, ToRecur, Optimised, Same, KeywordOf, Plain, TailFits, Enter;
    if e' == e {
      Agrees(m, m', e, made, env, env', h, fuel);
      NeverJumps(m, e, made, env, h, fuel);
    } else {
      RewrittenAgrees(m, m', f, e, made, env, env', h, fuel);
    }
  }

  lemma {:induction false} RewrittenAgrees(m: Machine, m': Machine, f: string, e: Kl, made: set<string>, env: Env, env': Env, h: History, fuel: nat)
    requires InLoop(m, m', f, made, env, env') && Plain(e, made) && TailFits(f, |m.funs[f].params|, e) && ToRecur(f, e).Some?
    ensures JumpsOrAgrees(m, f, Eval(m', ToRecur(f, e).value, env', h, fuel), Eval(m, e, env, h, fuel), fuel)
    decreases fuel, 1, Size(e), 2
  {
    hide Eval, EvalForm, Optimised, Same, KeywordOf, Enter;
    var items := e.items;
    if items[0].name == f {
      assert items == [Sym(f)] + items[1..] && items[0 := Sym("c.recur")] == [Sym("c.recur")] + items[1..];
      assert PlainAll(items[1..], made);
      SizeOfParts(items);
      SelfCallAgrees(m, m', f, items[1..], made, env, env', h, fuel);
    } else {
      match KeywordOf(items[0].name) {
        case KIf => IfAgrees(m, m', f, e, made, env, env', h, fuel);
        case KCond => CondAgrees(m, m', f, e, made, env, env', h, fuel);
        case KLet => LetAgrees(m, m', f, e, made, env, env', h, fuel);
        case _ =>
      }
    }
  }

  lemma {:induction false} SelfCallAgrees(m: Machine, m': Machine, f: string, args: seq<Kl>, made: set<string>, env: Env, env': Env, h: History, fuel: nat)
    requires InLoop(m, m', f, made, env, env') && PlainAll(args, made) && |args| == |m.funs[f].params|
    ensures JumpsOrAgrees(m, f, Eval(m', List([Sym("c.recur")] + args), env', h, fuel), Eval(m, List([Sym(f)] + args), env, h, fuel), fuel)
    decreases fuel, 1, 1 + SizeAll(args), 0
  {
    hide EvalArgs, Optimised, Same, Enter;
    ArgsAgree(m, m', args, made, env, env', h, fuel);
    ArgsNeverJump(m, args, made, env, h, fuel);
    var call, jump := [Sym(f)] + args, [Sym("c.recur")] + args;
    assert call[1..] == args == jump[1..];
    EvalUnfolds(m, List(call), env, h, fuel);
    EvalUnfolds(m', List(jump), env', h, fuel);
    assert FormOf(jump) == RecurForm(args) && FormOf(call) == CallForm(Sym(f), args);
    assert EvalCall(m, Sym(f), args, env, h, fuel) == CallNamed(m, f, args, env, h, fuel);
  }

  /** The rewritten form differs in its branches only. */
  lemma IfRewritten(f: string, n: nat, e: Kl) returns (test: Kl, yes: Kl, no: Kl, yes': Kl, no': Kl)
    requires TailFits(f, n, e) && ToRecur(f, e).Some? && e.items[0].name != f && KeywordOf(e.items[0].name).KIf?
    ensures e.List? && ToRecur(f, e).value.List? && |e.items| == |ToRecur(f, e).value.items| == 4
    ensures FormOf(e.items) == IfForm(test, yes, no) && FormOf(ToRecur(f, e).value.items) == IfForm(test, yes', no')
    ensures TailFits(f, n, yes) && TailFits(f, n, no)
    ensures yes' == yes || ToRecur(f, yes) == Some(yes')
    ensures no' == no || ToRecur(f, no) == Some(no')
  {
    hide KeywordOf;
    var items, items' := e.items, ToRecur(f, e).value.items;
    test, yes, no, yes', no' := items[1], items[2], items[3], items'[2], items'[3];
  }

  lemma LetRewritten(f: string, n: nat, e: Kl) returns (variable: Kl, bound: Kl, body: Kl, body': Kl)
    requires TailFits(f, n, e) && ToRecur(f, e).Some? && e.items[0].name != f && KeywordOf(e.items[0].name).KLet?
    ensures e.List? && ToRecur(f, e).value.List? && |e.items| == |ToRecur(f, e).value.items| == 4
    ensures FormOf(e.items) == LetForm(variable, bound, body) && FormOf(ToRecur(f, e).value.items) == LetForm(variable, bound, body')
    ensures TailFits(f, n, body) && variable.Sym? && ToRecur(f, body) == Some(body')
  {
    hide KeywordOf;
    var items, items' := e.items, ToRecur(f, e).value.items;
    variable, bound, body, body' := items[1], items[2], items[3], items'[3];
  }

  lemma CondRewritten(f: string, n: nat, e: Kl) returns (cases: seq<Kl>, cases': seq<Kl>)
    requires TailFits(f, n, e) && ToRecur(f, e).Some? && e.items[0].name != f && KeywordOf(e.items[0].name).KCond?
    ensures e.List? && ToRecur(f, e).value.List? && |e.items| > 0 && |ToRecur(f, e).value.items| > 0
    ensures FormOf(e.items) == CondForm(cases) && FormOf(ToRecur(f, e).value.items) == CondForm(cases')
    ensures CasesFit(f, n, cases) && CasesToRecur(f, cases) == Some(cases')
  {
    hide KeywordOf;
    cases := e.items[1..];
    cases' := CasesToRecur(f, cases).value;
    assert ([e.items[0]] + cases')[1..] == cases';
  }

  lemma {:induction false} IfAgrees(m: Machine, m': Machine, f: string, e: Kl, made: set<string>, env: Env, env': Env, h: History, fuel: nat)
    requires InLoop(m, m', f, made, env, env') && Plain(e, made) && TailFits(f, |m.funs[f].params|, e) && ToRecur(f, e).Some?
    requires e.items[0].name != f && KeywordOf(e.items[0].name).KIf?
    ensures JumpsOrAgrees(m, f, Eval(m', ToRecur(f, e).value, env', h, fuel), Eval(m, e, env, h, fuel), fuel)
    decreases fuel, 1, Size(e), 1
  {
    hide Eval, Optimised, Same, KeywordOf, Enter, TailFits, ToRecur, Plain, FormOf;
    var test, yes, no, yes', no' := IfRewritten(f, |m.funs[f].params|, e);
    PlainParts(e.items, made);
    PartsAreSmaller(e.items);
    EvalUnfolds(m, e, env, h, fuel);
    EvalUnfolds(m', ToRecur(f, e).value, env', h, fuel);
    Agrees(m, m', test, made, env, env', h, fuel);
    NeverJumps(m, test, made, env, h, fuel);
    var t := Eval(m, test, env, h, fuel);
    TailAgrees(m, m', f, yes, yes', made, env, env', t.history, fuel);
    TailAgrees(m, m', f, no, no', made, env, env', t.history, fuel);
  }

  lemma {:induction false} LetAgrees(m: Machine, m': Machine, f: string, e: Kl, made: set<string>, env: Env, env': Env, h: History, fuel: nat)
    requires InLoop(m, m', f, made, env, env') && Plain(e, made) && TailFits(f, |m.funs[f].params|, e) && ToRecur(f, e).Some?
    requires e.items[0].name != f && KeywordOf(e.items[0].name).KLet?
    ensures JumpsOrAgrees(m, f, Eval(m', ToRecur(f, e).value, env', h, fuel), Eval(m, e, env, h, fuel), fuel)
    decreases fuel, 1, Size(e), 1
  {
    hide Eval, Optimised, Same, KeywordOf, Enter, TailFits, ToRecur, Plain, FormOf;
    var variable, bound, body, body' := LetRewritten(f, |m.funs[f].params|, e);
    PlainParts(e.items, made);
    PartsAreSmaller(e.items);
    EvalUnfolds(m, e, env, h, fuel);
    EvalUnfolds(m', ToRecur(f, e).value, env', h, fuel);
    Agrees(m, m', bound, made, env, env', h, fuel);
    NeverJumps(m, bound, made, env, h, fuel);
    var a := Eval(m, bound, env, h, fuel);
    if a.outcome.Done? {
      var b := Binding(variable.name, a.outcome.value);
      SameWith(env, env', made, b);
      TailAgrees(m, m', f, body, body', made, Frame([b], env), Frame([b], env'), a.history, fuel);
    }
  }

  lemma {:induction false} CondAgrees(m: Machine, m': Machine, f: string, e: Kl, made: set<string>, env: Env, env': Env, h: History, fuel: nat)
    requires InLoop(m, m', f, made, env, env') && Plain(e, made) && TailFits(f, |m.funs[f].params|, e) && ToRecur(f, e).Some?
    requires e.items[0].name != f && KeywordOf(e.items[0].name).KCond?
    ensures JumpsOrAgrees(m, f, Eval(m', ToRecur(f, e).value, env', h, fuel), Eval(m, e, env, h, fuel), fuel)
    decreases fuel, 1, Size(e), 1
  {
    hide Eval, EvalCases, Optimised, Same, KeywordOf, Enter, TailFits, ToRecur, CasesToRecur, CasesFit, Plain, FormOf;
    var cases, cases' := CondRewritten(f, |m.funs[f].params|, e);
    PlainParts(e.items, made);
    PartsAreSmaller(e.items);
    EvalUnfolds(m, e, env, h, fuel);
    EvalUnfolds(m', ToRecur(f, e).value, env', h, fuel);
    TailCasesAgree(m, m', f, cases, cases', made, env, env', h, fuel);
  }

  lemma {:induction false} TailCasesAgree(m: Machine, m': Machine, f: string, cases: seq<Kl>, cases': seq<Kl>, made: set<string>, env: Env, env': Env, h: History, fuel: nat)
    requires InLoop(m, m', f, made, env, env') && PlainAll(cases, made) && CasesFit(f, |m.funs[f].params|, cases)
    requires CasesToRecur(f, cases) == Some(cases')
    ensures JumpsOrAgrees(m, f, EvalCases(m', cases', env', h, fuel), EvalCases(m, cases, env, h, fuel), fuel)
    decreases fuel, 1, 1 + SizeAll(cases), 0
  {
    hide Eval, Optimised, Same, KeywordOf, Enter, TailFits, ToRecur;
    SizeOfParts(cases);
    SizeOfParts(cases[0].items);
    OneSize(cases[0]);
    assert Plain(cases[0], made);
    var test, body := cases[0].items[0], cases[0].items[1];
    Agrees(m, m', test, made, env, env', h, fuel);
    NeverJumps(m, test, made, env, h, fuel);
    var t := Eval(m, test, env, h, fuel);
    var here := ToRecur(f, body);
    if here.Some? {
      TailAgrees(m, m', f, body, here.value, made, env, env', t.history, fuel);
      CasesAgree(m, m', cases[1..], made, env, env', t.history, fuel);
      CasesNeverJump(m, cases[1..], made, env, t.history, fuel);
      assert cases'[1..] == cases[1..];
    } else {
      TailAgrees(m, m', f, body, body, made, env, env', t.history, fuel);
      var rest := CasesToRecur(f, cases[1..]).value;
      TailCasesAgree(m, m', f, cases[1..], rest, made, env, env', t.history, fuel);
      assert cases'[1..] == rest;
    }
  }

  lemma EvalUnfolds(m: Machine, e: Kl, env: Env, h: History, fuel: nat)
    requires e.List? && |e.items| > 0
    ensures Eval(m, e, env, h, fuel) == EvalForm(m, FormOf(e.items), env, h, fuel)
  {
    hide EvalForm, FormOf;
  }

  /** Giving the variables of a loop new values is entering the function with them. */
  lemma {:induction false} UpdatedLookup(env: Env, names: seq<string>, values: seq<Value>, x: string)
    requires |names| == |values| && (|names| > 0 ==> env.Frame?)
    requires forall i :: 0 <= i < |names| ==> Position(env.binds, names[i]) < |env.binds|
    ensures var next := UpdateAll(env, names, values);
      && next.Some? && (|names| > 0 ==> next.value.Frame?)
      && (|names| > 0 ==> |next.value.binds| == |env.binds| && forall y :: Position(next.value.binds, y) == Position(env.binds, y))
      && Lookup(next.value, x) == (var i := Position(Bindings(names, values), x); if i < |names| then Some(values[i]) else Lookup(env, x))
    decreases |names|
  {
    hide Lookup, Update, Position;
    if |names| > 0 {
      UpdatedOnce(env, names[0], values[0]);
      var first := Update(env, names[0], values[0]).value;
      UpdatedLookup(first, names[1..], values[1..], x);
      assert Bindings(names, values) == [Binding(names[0], values[0])] + Bindings(names[1..], values[1..]);
      PositionAfter(Binding(names[0], values[0]), Bindings(names[1..], values[1..]), x);
      assert UpdateAll(env, names, values) == UpdateAll(first, names[1..], values[1..]);
    }
  }

  lemma UpdatedOnce(env: Env, name: string, v: Value)
    requires env.Frame? && Position(env.binds, name) < |env.binds|
    ensures Update(env, name, v).Some? && Update(env, name, v).value.Frame? && Update(env, name, v).value.parent == env.parent
    ensures forall x :: Position(Update(env, name, v).value.binds, x) == Position(env.binds, x)
    ensures forall x :: Lookup(Update(env, name, v).value, x) == if x == name then Some(v) else Lookup(env, x)
    ensures |Update(env, name, v).value.binds| == |env.binds|
  {
    var next := Update(env, name, v).value;
    forall x
      ensures Position(next.binds, x) == Position(env.binds, x)
    {
      SamePosition(env.binds, next.binds, x);
    }
  }

  lemma PositionAfter(b: Binding, binds: seq<Binding>, x: string)
    ensures Position([b] + binds, x) ==
      if Position(binds, x) < |binds| then Position(binds, x) + 1 else if b.name == x then 0 else |binds| + 1
  {
    var all, i := [b] + binds, Position(binds, x);
    assert all[0] == b && forall k :: 0 <= k < |binds| ==> all[k + 1] == binds[k];
    assert i < |binds| ==> all[i + 1].name == x;
  }

  /** The rounds of the loop of f in a frame env' that stands for the given arguments. */
  lemma {:induction false} RoundsRun(m: Machine, m': Machine, f: string, body': Kl, made: set<string>, args: seq<Value>, env': Env, h: History, fuel: nat)
    requires f in m.funs && |args| == |m.funs[f].params|
    requires var d := m.funs[f]; Plain(d.body, made) && TailFits(f, |d.params|, d.body) && (body' == d.body || ToRecur(f, d.body) == Some(body'))
    requires InLoop(m, m', f, made, Extend(Root, Bindings(m.funs[f].params, args)), env')
    requires Holds(env', m.funs[f].params)
    ensures Landed(Rounds(m', m.funs[f].params, body', env', h, fuel))
      == Landed(Eval(m, m.funs[f].body, Extend(Root, Bindings(m.funs[f].params, args)), h, fuel))
    decreases fuel, 2, 0, 0
  {
    hide Eval, Optimised, Plain, TailFits, ToRecur, Same, UpdateAll, Holds;
    var d := m.funs[f];
    var env := Extend(Root, Bindings(d.params, args));
    TailAgrees(m, m', f, d.body, body', made, env, env', h, fuel);
    var r := Eval(m', body', env', h, fuel);
    if r.outcome.Recur? && fuel > 0 {
      NextRound(d.params, made, args, r.outcome.args, env');
      var next := UpdateAll(env', d.params, r.outcome.args).value;
      RoundsRun(m, m', f, body', made, r.outcome.args, next, r.history, fuel - 1);
    }
  }

  /** update_environment finds every name of the loop in the innermost frame. */
  predicate Holds(env: Env, names: seq<string>) {
    |names| > 0 ==> env.Frame? && forall i :: 0 <= i < |names| ==> Position(env.binds, names[i]) < |env.binds|
  }

  lemma NextRound(names: seq<string>, made: set<string>, args: seq<Value>, args': seq<Value>, env': Env)
    requires |names| == |args| == |args'| && Holds(env', names)
    requires Same(Extend(Root, Bindings(names, args)), env', made)
    ensures UpdateAll(env', names, args').Some? && Holds(UpdateAll(env', names, args').value, names)
    ensures Same(Extend(Root, Bindings(names, args')), UpdateAll(env', names, args').value, made)
  {
    hide UpdateAll;
    UpdatedLookup(env', names, args', "");
    forall x | x !in made
      ensures Lookup(Extend(Root, Bindings(names, args')), x) == Lookup(UpdateAll(env', names, args').value, x)
    {
      UpdatedLookup(env', names, args', x);
      SamePosition(Bindings(names, args), Bindings(names, args'), x);
    }
  }

  lemma {:induction false} LoopRuns(m: Machine, m': Machine, f: string, body': Kl, made: seq<string>, args: seq<Value>, h: History, fuel: nat)
    requires Optimised(m, m') && f in m.funs && OrdinaryName(f) && |args| == |made| == |m.funs[f].params|
    requires forall i, j :: 0 <= i < j < |made| ==> made[i] != made[j]
    requires var d := m.funs[f]; Plain(d.body, Made(made)) && TailFits(f, |d.params|, d.body) && (body' == d.body || ToRecur(f, d.body) == Some(body'))
    ensures Landed(Eval(m', Wrap(m.funs[f].params, made, body').body, Extend(Root, Bindings(made, args)), h, fuel))
      == Landed(Eval(m, m.funs[f].body, Extend(Root, Bindings(m.funs[f].params, args)), h, fuel))
    decreases fuel, 2, 0, 1
  {
    hide Eval, Rounds, Optimised, Plain, ToRecur, TailFits, EvalBinds, Same, Holds, Made, Lookup, Wrap;
    var d, start := m.funs[f], Extend(Root, Bindings(made, args));
    FirstRound(d.params, made, args);
    StartOfLoop(m', d.params, made, args, start, h, fuel);
    RoundsRun(m, m', f, body', Made(made), args, Extend(start, Bindings(d.params, args)), h, fuel);
    LoopUnfolds(m', d.params, made, body', start, h, fuel);
  }

  lemma {:induction false} StoredAgrees(m: Machine, m': Machine, f: string, made: seq<string>, args: seq<Value>, h: History, fuel: nat)
    requires Optimised(m, m') && f in m.funs && Stored(f, m.funs[f], m'.funs[f], made) && |args| == |made|
    ensures Landed(Eval(m', m'.funs[f].body, Extend(Root, Bindings(m'.funs[f].params, args)), h, fuel))
      == Landed(Eval(m, m.funs[f].body, Extend(Root, Bindings(m.funs[f].params, args)), h, fuel))
    decreases fuel, 2, 0, 2
  {
    assert f in m'.funs;
    hide Eval, Optimised, Plain, ToRecur, TailFits, Analyze, Made, Bindings, Extend;
    var d := m.funs[f];
    if IsLoop(f, d) {
      AcceptedFits(f, |d.params|, d.body, Scan(PossiblyTail, 0));
      LoopRuns(m, m', f, if ToRecur(f, d.body).Some? then ToRecur(f, d.body).value else d.body, made, args, h, fuel);
    } else {
      var env := Extend(Root, Bindings(d.params, args));
      Agrees(m, m', d.body, {}, env, env, h, fuel);
    }
  }

  lemma LoopUnfolds(m: Machine, names: seq<string>, made: seq<string>, body: Kl, env: Env, h: History, fuel: nat)
    requires |names| == |made|
    ensures Eval(m, Wrap(names, made, body).body, env, h, fuel) == EvalLoop(m, List(Interleave(names, made)), body, env, h, fuel)
  {
    hide EvalLoop, Interleave;
    var items := Wrap(names, made, body).body.items;
    assert FormOf(items) == LoopForm(List(Interleave(names, made)), body);
  }

  /** The loop starts with the arguments of the function. */
  lemma {:induction false} StartOfLoop(m: Machine, names: seq<string>, made: seq<string>, args: seq<Value>, env: Env, h: History, fuel: nat)
    requires |names| == |made| == |args|
    requires forall i :: 0 <= i < |made| ==> Lookup(env, made[i]) == Some(args[i])
    ensures EvalBinds(m, Interleave(names, made), env, h, fuel) == Result(Done(Bindings(names, args)), h)
    decreases |names|
  {
    if |names| > 0 {
      var items := Interleave(names, made);
      assert items[2..] == Interleave(names[1..], made[1..]);
      StartOfLoop(m, names[1..], made[1..], args[1..], env, h, fuel);
      assert Bindings(names, args) == [Binding(names[0], args[0])] + Bindings(names[1..], args[1..]);
    } else {
      assert Bindings(names, args) == [];
    }
  }

  lemma FirstRound(names: seq<string>, made: seq<string>, args: seq<Value>)
    requires |names| == |made| == |args|
    requires forall i, j :: 0 <= i < j < |made| ==> made[i] != made[j]
    ensures var start := Extend(Root, Bindings(made, args));
      && (forall i :: 0 <= i < |made| ==> Lookup(start, made[i]) == Some(args[i]))
      && Same(Extend(Root, Bindings(names, args)), Extend(start, Bindings(names, args)), Made(made))
      && Holds(Extend(start, Bindings(names, args)), names)
      && Names(Bindings(names, args)) == names
  {
    var start, own := Extend(Root, Bindings(made, args)), Bindings(names, args);
    forall i | 0 <= i < |made|
      ensures Lookup(start, made[i]) == Some(args[i])
    {
      var k := Position(start.binds, made[i]);
      assert start.binds[i].name == made[i];
      assert k == i;
    }
    forall x | x !in Made(made)
      ensures Lookup(start, x) == None
    {
      assert x !in made;
    }
    forall i | 0 <= i < |names|
      ensures Position(own, names[i]) < |own|
    {
      assert own[i].name == names[i];
    }
  }

  /** Main result: every run of a program ends in the same way with the stored definitions. */
  lemma OptimisedRunsAlike(m: Machine, m': Machine, e: Kl, env: Env, h: History, fuel: nat)
    requires Optimised(m, m')
    ensures Eval(m', e, env, h, fuel) == Eval(m, e, env, h, fuel)
  {
    Agrees(m, m', e, {}, env, env, h, fuel);
  }
}
