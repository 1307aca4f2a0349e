/** collect_free finds every name a closure needs (src/c/emit.c:422-472), provided that no variable
    is called lambda or let and at most 64 names are in use; and what goes wrong otherwise. */
module CaptureCover {
  import opened Options
  import opened KlSyntax
  import opened NativeCode
  import opened Emission
  import opened Acceptance
  import opened NativeSteps
  import opened Compilable

  /** The symbols that collect_free looks at. */
  predicate Mentions(e: Kl, extra: seq<string>, x: string)
    decreases Size(e), 0
  {
    match e
    case Sym(name) => name == x && x !in extra
    case List(items) =>
      SizeOfParts(items);
      if |items| == 3 && items[0] == Sym("lambda") && items[1].Sym? then Mentions(items[2], [items[1].name], x)
      else if |items| == 4 && items[0] == Sym("let") && items[1].Sym? then
        Mentions(items[2], extra, x) || Mentions(items[3], [items[1].name], x)
      else MentionsAny(items, extra, x)
    case _ => false
  }

  predicate MentionsAny(es: seq<Kl>, extra: seq<string>, x: string)
    decreases SizeAll(es), 1
  {
    |es| > 0 && (Mentions(es[0], extra, x) || MentionsAny(es[1..], extra, x))
  }

  ghost predicate NoRepeats(names: seq<string>) {
    forall i, j :: 0 <= i < j < |names| ==> names[i] != names[j]
  }

  lemma {:induction false} CollectIsMentions(e: Kl, binds: seq<Bound>, extra: seq<string>, names: seq<string>, x: string)
    requires AllBound(binds, names)
    ensures x in Collect(e, binds, extra, names) <==> x in names || (Mentions(e, extra, x) && TempOf(binds, x).Some?)
    ensures NoRepeats(names) ==> NoRepeats(Collect(e, binds, extra, names))
    decreases Size(e), 0
  {
    if e.List? {
      var items := e.items;
      SizeOfParts(items);
      if |items| == 3 && items[0] == Sym("lambda") && items[1].Sym? {
        CollectIsMentions(items[2], binds, [items[1].name], names, x);
      } else if |items| == 4 && items[0] == Sym("let") && items[1].Sym? {
        CollectIsMentions(items[2], binds, extra, names, x);
        CollectIsMentions(items[3], binds, [items[1].name], Collect(items[2], binds, extra, names), x);
      } else {
        CollectAllIsMentions(items, binds, extra, names, x);
      }
    }
  }

  lemma {:induction false} CollectAllIsMentions(es: seq<Kl>, binds: seq<Bound>, extra: seq<string>, names: seq<string>, x: string)
    requires AllBound(binds, names)
    ensures x in CollectAll(es, binds, extra, names) <==> x in names || (MentionsAny(es, extra, x) && TempOf(binds, x).Some?)
    ensures NoRepeats(names) ==> NoRepeats(CollectAll(es, binds, extra, names))
    decreases SizeAll(es), 1
  {
    if |es| > 0 {
      CollectIsMentions(es[0], binds, extra, names, x);
      CollectAllIsMentions(es[1..], binds, extra, Collect(es[0], binds, extra, names), x);
    }
  }

  // Well-behaved definitions --------------------------------------------------------------------

  /** Binders come from u, and inside a closure there is no trap-error form. */
  predicate Tame(e: Kl, u: set<string>, inside: bool)
    decreases Size(e), 0
  {
    e.List? && |e.items| > 0 ==>
      && (e.items[0] == Sym("trap-error") ==> !inside)
      && ((e.items[0] == Sym("let") || e.items[0] == Sym("lambda")) && |e.items| > 1 && e.items[1].Sym? ==> e.items[1].name in u)
      && TameAll(e.items, u, inside || e.items[0] == Sym("lambda") || e.items[0] == Sym("freeze"))
  }

  predicate TameAll(es: seq<Kl>, u: set<string>, inside: bool)
    decreases SizeAll(es), 1
  {
    |es| > 0 ==> Tame(es[0], u, inside) && TameAll(es[1..], u, inside)
  }

  lemma TameParts(es: seq<Kl>, u: set<string>, inside: bool)
    requires TameAll(es, u, inside)
    ensures |es| >= 1 ==> Tame(es[0], u, inside) && TameAll(es[1..], u, inside)
    ensures |es| >= 2 ==> Tame(es[1], u, inside)
    ensures |es| >= 3 ==> Tame(es[2], u, inside)
    ensures |es| >= 4 ==> Tame(es[3], u, inside)
  {
    if |es| >= 2 {
      assert es[1..][1..] == es[2..] && es[1..][0] == es[1];
    }
    if |es| >= 3 {
      assert es[2..][1..] == es[3..] && es[2..][0] == es[2];
    }
    if |es| >= 4 {
      assert es[3..][0] == es[3];
    }
  }

  lemma {:induction false} TameOutside(e: Kl, u: set<string>)
    requires Tame(e, u, true)
    ensures Tame(e, u, false)
    decreases Size(e), 0
  {
    if e.List? && |e.items| > 0 {
      TameAllOutside(e.items, u);
    }
  }

  lemma {:induction false} TameAllOutside(es: seq<Kl>, u: set<string>)
    requires TameAll(es, u, true)
    ensures TameAll(es, u, false)
    decreases SizeAll(es), 1
  {
    if |es| > 0 {
      TameOutside(es[0], u);
      TameAllOutside(es[1..], u);
    }
  }

  /** Every mentioned name in scope is declared here. */
  ghost predicate Covered(e: Kl, extra: seq<string>, sc: seq<Scoped>) {
    forall x :: Mentions(e, extra, x) && InScopeOf(sc, x) ==> Here(sc, x)
  }

  ghost predicate CoveredAll(es: seq<Kl>, extra: seq<string>, sc: seq<Scoped>) {
    forall x :: MentionsAny(es, extra, x) && InScopeOf(sc, x) ==> Here(sc, x)
  }

  ghost predicate Fits(sc: seq<Scoped>, extra: seq<string>, u: set<string>, inside: bool) {
    && |u| <= MAX_CAPTURES && "lambda" !in u && "let" !in u
    && (forall x :: InScopeOf(sc, x) ==> x in u)
    && (forall i :: 0 <= i < |extra| ==> Here(sc, extra[i]))
    && (!inside ==> forall i :: 0 <= i < |sc| ==> sc[i].here)
  }

  lemma {:induction false} HereConcat(sc: seq<Scoped>, more: seq<Scoped>, x: string)
    ensures Here(sc + more, x) == if InScopeOf(more, x) then Here(more, x) else Here(sc, x)
    ensures InScopeOf(sc + more, x) <==> InScopeOf(sc, x) || InScopeOf(more, x)
    decreases |more|
  {
    assert ScopeNames(sc + more) == ScopeNames(sc) + ScopeNames(more);
    if |more| == 0 {
      assert sc + more == sc;
    } else {
      var front := more[..|more| - 1];
      assert (sc + more)[..|sc + more| - 1] == sc + front;
      assert ScopeNames(more) == ScopeNames(front) + [more[|more| - 1].name];
      HereConcat(sc, front, x);
    }
  }

  lemma {:induction false} LocalsAreHere(names: seq<string>, x: string)
    ensures Here(Locals(names), x) && (InScopeOf(Locals(names), x) <==> x in names)
    decreases |names|
  {
    assert ScopeNames(Locals(names)) == names;
    if |names| > 0 {
      assert Locals(names)[..|names| - 1] == Locals(names[..|names| - 1]);
      LocalsAreHere(names[..|names| - 1], x);
    }
  }

  lemma {:induction false} OutOfScopeIsHere(sc: seq<Scoped>, x: string)
    requires !InScopeOf(sc, x)
    ensures Here(sc, x)
  {
    if |sc| > 0 {
      assert ScopeNames(sc)[|sc| - 1] != x;
      assert ScopeNames(sc[..|sc| - 1]) == ScopeNames(sc)[..|sc| - 1];
      OutOfScopeIsHere(sc[..|sc| - 1], x);
    }
  }

  lemma {:induction false} MentionsMore(e: Kl, extra: seq<string>, x: string)
    ensures Mentions(e, [], x) ==> Mentions(e, extra, x) || x in extra
    decreases Size(e), 0
  {
    if e.List? {
      var items := e.items;
      SizeOfParts(items);
      if |items| == 3 && items[0] == Sym("lambda") && items[1].Sym? {
      } else if |items| == 4 && items[0] == Sym("let") && items[1].Sym? {
        MentionsMore(items[2], extra, x);
      } else {
        MentionsAnyMore(items, extra, x);
      }
    }
  }

  lemma {:induction false} MentionsAnyMore(es: seq<Kl>, extra: seq<string>, x: string)
    ensures MentionsAny(es, [], x) ==> MentionsAny(es, extra, x) || x in extra
    decreases SizeAll(es), 1
  {
    if |es| > 0 {
      MentionsMore(es[0], extra, x);
      MentionsAnyMore(es[1..], extra, x);
    }
  }

  /** With at most 64 names in use, the captures are the mentioned names of the scope. */
  lemma CapturesAreMentions(params: seq<string>, body: Kl, sc: seq<Scoped>, u: set<string>, x: string)
    requires Fits(sc, [], u, true)
    ensures x in ScopeCaptures(params, body, sc) <==> Mentions(body, params, x) && InScopeOf(sc, x)
  {
    hide Collect, Mentions, Here, TempOf;
    var binds := Bind(ScopeNames(sc), Range(0, |sc|));
    var all := Collect(body, binds, params, []);
    forall y
      ensures y in all <==> Mentions(body, params, y) && InScopeOf(sc, y)
      ensures NoRepeats(all)
    {
      CollectIsMentions(body, binds, params, [], y);
      TempOfNone(binds, y);
      assert forall i :: 0 <= i < |sc| ==> binds[i].name == ScopeNames(sc)[i];
    }
    AtMost(all, u);
  }

  lemma {:induction false} AtMost(names: seq<string>, u: set<string>)
    requires NoRepeats(names) && forall x :: x in names ==> x in u
    ensures |names| <= |u|
    decreases |names|
  {
    if |names| > 0 {
      var last := names[|names| - 1];
      AtMost(names[..|names| - 1], u - {last});
    }
  }

  lemma CoveredParts(es: seq<Kl>, extra: seq<string>, sc: seq<Scoped>)
    requires CoveredAll(es, extra, sc)
    ensures |es| >= 1 ==> Covered(es[0], extra, sc) && CoveredAll(es[1..], extra, sc)
    ensures |es| >= 2 ==> Covered(es[1], extra, sc)
    ensures |es| >= 3 ==> Covered(es[2], extra, sc)
    ensures |es| >= 4 ==> Covered(es[3], extra, sc)
  {
    hide Mentions, Here;
    forall x
      ensures |es| >= 1 && Mentions(es[0], extra, x) ==> MentionsAny(es, extra, x)
      ensures |es| >= 1 && MentionsAny(es[1..], extra, x) ==> MentionsAny(es, extra, x)
      ensures |es| >= 2 && Mentions(es[1], extra, x) ==> MentionsAny(es, extra, x)
      ensures |es| >= 3 && Mentions(es[2], extra, x) ==> MentionsAny(es, extra, x)
      ensures |es| >= 4 && Mentions(es[3], extra, x) ==> MentionsAny(es, extra, x)
    {
      if |es| >= 2 {
        assert es[1..][1..] == es[2..] && es[1..][0] == es[1];
        assert MentionsAny(es[1..], extra, x) <==> Mentions(es[1], extra, x) || MentionsAny(es[2..], extra, x);
      }
      if |es| >= 3 {
        assert es[2..][1..] == es[3..] && es[2..][0] == es[2];
        assert MentionsAny(es[2..], extra, x) <==> Mentions(es[2], extra, x) || MentionsAny(es[3..], extra, x);
      }
      if |es| >= 4 {
        assert es[3..][0] == es[3];
        assert Mentions(es[3], extra, x) ==> MentionsAny(es[3..], extra, x);
      }
    }
  }

  /** Well-behaved code compiles, closures included: collect_free misses nothing. */
  lemma {:induction false} Cover(e: Kl, extra: seq<string>, sc: seq<Scoped>, u: set<string>, inside: bool)
    requires Fits(sc, extra, u, inside) && Tame(e, u, inside) && Covered(e, extra, sc)
    ensures Usable(e, sc)
    decreases Size(e), 2
  {
    match e
    case Sym(name) =>
      OutOfScopeIsHereIf(sc, name);
      if InScopeOf(sc, name) && name !in extra {
        assert Mentions(e, extra, name);
      }
    case List(items) =>
      if |items| > 0 {
        hide Here, Mentions, Covered, Tame;
        SizeOfParts(items);
        PartsAreSmaller(items, HeadInScope(items, sc));
        CoverList(items, extra, sc, u, inside);
      }
    case _ =>
  }

  lemma OutOfScopeIsHereIf(sc: seq<Scoped>, x: string)
    ensures !InScopeOf(sc, x) ==> Here(sc, x)
  {
    if !InScopeOf(sc, x) {
      OutOfScopeIsHere(sc, x);
    }
  }

  lemma {:induction false} CoverList(items: seq<Kl>, extra: seq<string>, sc: seq<Scoped>, u: set<string>, inside: bool)
    requires |items| > 0 && Fits(sc, extra, u, inside) && Tame(List(items), u, inside) && Covered(List(items), extra, sc)
    ensures var form := FormOf(items, HeadInScope(items, sc)); CompilesForm(form, sc) && HasFormResult(form, sc)
    decreases SizeAll(items), 5
  {
    hide Here, Compiles, HasResult, CompilesClosure, CompilesArgs, CompilesCases, Mentions, Tame;
    var form := FormOf(items, HeadInScope(items, sc));
    SizeOfParts(items);
    ListIsTame(items, u, inside);
    TameParts(items, u, ListInside(items, inside));
    TameParts(items, u, inside);
    if form.LambdaForm? {
      LambdaIsCovered(items, extra, sc);
      CoverClosure([form.name], form.body, extra, sc, u, inside);
    } else if form.LetForm? {
      LetIsCovered(items, extra, sc);
      CoverLet(form.name, form.bound, form.body, extra, sc, u, inside);
    } else {
      OtherIsCovered(items, extra, sc, u, inside);
      CoverOther(items, extra, sc, u, inside);
    }
  }

  lemma {:induction false} CoverOther(items: seq<Kl>, extra: seq<string>, sc: seq<Scoped>, u: set<string>, inside: bool)
    requires |items| > 0 && Fits(sc, extra, u, inside) && Tame(List(items), u, inside) && CoveredAll(items, extra, sc)
    requires var form := FormOf(items, HeadInScope(items, sc)); !form.LambdaForm? && !form.LetForm?
    ensures var form := FormOf(items, HeadInScope(items, sc)); CompilesForm(form, sc) && HasFormResult(form, sc)
    decreases SizeAll(items), 4
  {
    hide Here, Compiles, HasResult, CompilesClosure, CompilesArgs, CompilesCases, Tame, Covered, CoveredAll, Fits, TameAll;
    SizeOfParts(items);
    ListIsTame(items, u, inside);
    TameParts(items, u, ListInside(items, inside));
    TameParts(items, u, inside);
    CoveredParts(items, extra, sc);
    FitsInside(sc, extra, u, inside);
    match FormOf(items, HeadInScope(items, sc)) {
      case FreezeForm(body) => CoverClosure([], body, extra, sc, u, inside);
      case CondForm(cases) => CoverCases(cases, extra, sc, u, inside);
      case TrapForm(body, handler) =>
        Cover(body, extra, sc, u, inside);
        Cover(handler, extra, sc, u, inside);
      case IfForm(_, _, _) | AndForm(_, _) | OrForm(_, _) | DoForm(_, _) | TypeForm(_) => CoverBranches(items, extra, sc, u, inside);
      case NamedCall(_, args) => CoverArgs(args, extra, sc, u, inside);
      case ValueCall(head, args) =>
        Cover(head, extra, sc, u, inside);
        CoverArgs(args, extra, sc, u, inside);
      case _ =>
    }
  }

  lemma {:induction false} CoverBranches(items: seq<Kl>, extra: seq<string>, sc: seq<Scoped>, u: set<string>, inside: bool)
    requires |items| > 0 && Fits(sc, extra, u, inside) && Tame(List(items), u, inside) && CoveredAll(items, extra, sc)
    requires var form := FormOf(items, HeadInScope(items, sc)); form.IfForm? || form.AndForm? || form.OrForm? || form.DoForm? || form.TypeForm?
    ensures var form := FormOf(items, HeadInScope(items, sc)); CompilesForm(form, sc) && HasFormResult(form, sc)
    decreases SizeAll(items), 3
  {
    hide Here, Compiles, HasResult, CompilesClosure, CompilesArgs, CompilesCases, Tame, Covered, CoveredAll, Fits, TameAll;
    SizeOfParts(items);
    ListIsTame(items, u, inside);
    TameParts(items, u, ListInside(items, inside));
    TameParts(items, u, inside);
    CoveredParts(items, extra, sc);
    FitsInside(sc, extra, u, inside);
    match FormOf(items, HeadInScope(items, sc)) {
      case IfForm(test, yes, no) =>
        Cover(test, extra, sc, u, inside);
        Cover(yes, extra, sc, u, inside);
        Cover(no, extra, sc, u, inside);
      case AndForm(left, right) =>
        Cover(left, extra, sc, u, inside);
        Cover(right, extra, sc, u, inside);
      case OrForm(left, right) =>
        Cover(left, extra, sc, u, inside);
        Cover(right, extra, sc, u, inside);
      case DoForm(first, second) =>
        Cover(first, extra, sc, u, inside);
        Cover(second, extra, sc, u, inside);
      case TypeForm(expr) => Cover(expr, extra, sc, u, inside);
    }
  }

  lemma FitsInside(sc: seq<Scoped>, extra: seq<string>, u: set<string>, inside: bool)
    requires Fits(sc, extra, u, inside)
    ensures !inside ==> forall i :: 0 <= i < |sc| ==> sc[i].here
  {
  }

  predicate ListInside(items: seq<Kl>, inside: bool)
    requires |items| > 0
  {
    inside || items[0] == Sym("lambda") || items[0] == Sym("freeze")
  }

  lemma ListIsTame(items: seq<Kl>, u: set<string>, inside: bool)
    requires |items| > 0 && Tame(List(items), u, inside)
    ensures TameAll(items, u, ListInside(items, inside)) && TameAll(items, u, inside) && (items[0] == Sym("trap-error") ==> !inside)
    ensures (items[0] == Sym("let") || items[0] == Sym("lambda")) && |items| > 1 && items[1].Sym? ==> items[1].name in u
  {
    if ListInside(items, inside) && !inside {
      TameAllOutside(items, u);
    }
  }

  lemma LambdaIsCovered(items: seq<Kl>, extra: seq<string>, sc: seq<Scoped>)
    requires |items| == 3 && items[0] == Sym("lambda") && items[1].Sym? && Covered(List(items), extra, sc)
    ensures Covered(items[2], [items[1].name], sc)
  {
    assert forall x :: Mentions(items[2], [items[1].name], x) ==> Mentions(List(items), extra, x);
  }

  lemma LetIsCovered(items: seq<Kl>, extra: seq<string>, sc: seq<Scoped>)
    requires |items| == 4 && items[0] == Sym("let") && items[1].Sym? && Covered(List(items), extra, sc)
    ensures Covered(items[2], extra, sc) && Covered(items[3], [items[1].name], sc)
  {
    assert forall x :: Mentions(items[2], extra, x) ==> Mentions(List(items), extra, x);
    assert forall x :: Mentions(items[3], [items[1].name], x) ==> Mentions(List(items), extra, x);
  }

  lemma OtherIsCovered(items: seq<Kl>, extra: seq<string>, sc: seq<Scoped>, u: set<string>, inside: bool)
    requires |items| > 0 && Fits(sc, extra, u, inside) && Covered(List(items), extra, sc)
    requires var form := FormOf(items, HeadInScope(items, sc)); !form.LambdaForm? && !form.LetForm?
    ensures CoveredAll(items, extra, sc)
  {
    hide Here;
    assert forall x :: MentionsAny(items, extra, x) ==> Mentions(List(items), extra, x);
  }

  lemma {:induction false} CoverArgs(es: seq<Kl>, extra: seq<string>, sc: seq<Scoped>, u: set<string>, inside: bool)
    requires Fits(sc, extra, u, inside) && TameAll(es, u, inside) && CoveredAll(es, extra, sc)
    ensures CompilesArgs(es, sc)
    decreases SizeAll(es), 4
  {
    hide Here, Compiles, HasResult, Mentions, Tame;
    if |es| > 0 {
      TameParts(es, u, inside);
      CoveredParts(es, extra, sc);
      Cover(es[0], extra, sc, u, inside);
      CoverArgs(es[1..], extra, sc, u, inside);
    }
  }

  lemma {:induction false} CoverCases(cases: seq<Kl>, extra: seq<string>, sc: seq<Scoped>, u: set<string>, inside: bool)
    requires Fits(sc, extra, u, inside) && AreCases(cases) && TameAll(cases, u, inside) && CoveredAll(cases, extra, sc)
    ensures CompilesCases(cases, sc)
    decreases SizeAll(cases), 4
  {
    hide Here, Compiles, HasResult;
    if |cases| > 0 {
      CasesAreSmaller(cases);
      TameParts(cases, u, inside);
      CoveredParts(cases, extra, sc);
      var parts := cases[0].items;
      CaseIsCovered(parts, extra, sc, u, inside);
      Cover(parts[0], extra, sc, u, inside);
      Cover(parts[1], extra, sc, u, inside);
      CoverCases(cases[1..], extra, sc, u, inside);
    }
  }

  lemma CaseIsCovered(parts: seq<Kl>, extra: seq<string>, sc: seq<Scoped>, u: set<string>, inside: bool)
    requires |parts| == 2 && Tame(List(parts), u, inside) && Covered(List(parts), extra, sc)
    ensures Tame(parts[0], u, inside) && Tame(parts[1], u, inside) && Covered(parts[0], extra, sc) && Covered(parts[1], extra, sc)
  {
    assert forall x :: MentionsAny(parts, extra, x) ==> Mentions(List(parts), extra, x);
    CoveredParts(parts, extra, sc);
    ListIsTame(parts, u, inside);
    TameParts(parts, u, inside);
  }

  lemma {:induction false} CoverLet(name: string, bound: Kl, body: Kl, extra: seq<string>, sc: seq<Scoped>, u: set<string>, inside: bool)
    requires Fits(sc, extra, u, inside) && Tame(bound, u, inside) && Tame(body, u, inside) && name in u
    requires Covered(bound, extra, sc) && Covered(body, [name], sc)
    ensures CompilesForm(LetForm(name, bound, body), sc) && HasFormResult(LetForm(name, bound, body), sc)
    decreases Size(bound) + Size(body), 4
  {
    hide Compiles, HasResult, Mentions, Tame;
    Cover(bound, extra, sc, u, inside);
    var sc' := sc + [Scoped(name, true)];
    forall x
      ensures InScopeOf(sc', x) <==> InScopeOf(sc, x) || x == name
      ensures Here(sc', x) == (x == name || Here(sc, x))
    {
      assert Locals([name]) == [Scoped(name, true)];
      HereConcat(sc, Locals([name]), x);
      LocalsAreHere([name], x);
    }
    Cover(body, [name], sc', u, inside);
  }

  /** A closure reads only captured names: collect_free has found them all. */
  lemma {:induction false} CoverClosure(params: seq<string>, body: Kl, extra: seq<string>, sc: seq<Scoped>, u: set<string>, inside: bool)
    requires Fits(sc, extra, u, inside) && Tame(body, u, true) && |params| <= 1 && forall i :: 0 <= i < |params| ==> params[i] in u
    requires if params == [] then Covered(body, extra, sc) else Covered(body, params, sc)
    ensures CompilesClosure(params, body, sc)
    decreases Size(body), 3
  {
    hide Compiles, HasResult, Mentions, Tame, Here, Captures;
    var names := ScopeCaptures(params, body, sc);
    var sc' := Foreign(sc) + Locals(names) + Locals(params);
    forall x
      ensures x in names <==> Mentions(body, params, x) && InScopeOf(sc, x)
      ensures x in names ==> Here(sc, x)
      ensures InScopeOf(sc', x) <==> InScopeOf(sc, x) || x in params
      ensures x in params || x in names ==> Here(sc', x)
    {
      CapturesAreMentions(params, body, sc, u, x);
      MentionsMore(body, extra, x);
      ClosureScope(sc, names, params, x);
    }
    forall i | 0 <= i < |names|
      ensures Here(sc, names[i])
    {
      assert names[i] in names;
    }
    Cover(body, params, sc', u, true);
  }

  lemma ClosureScope(sc: seq<Scoped>, names: seq<string>, params: seq<string>, x: string)
    ensures var sc' := Foreign(sc) + Locals(names) + Locals(params);
      && (InScopeOf(sc', x) <==> InScopeOf(sc, x) || x in names || x in params)
      && (x in params || x in names ==> Here(sc', x))
  {
    hide Here;
    HereConcat(Foreign(sc) + Locals(names), Locals(params), x);
    HereConcat(Foreign(sc), Locals(names), x);
    LocalsAreHere(names, x);
    LocalsAreHere(params, x);
    assert ScopeNames(Foreign(sc)) == ScopeNames(sc);
  }

  /** The promise for whole definitions. */
  lemma TameDefunCompiles(d: Defun, u: set<string>)
    requires |u| <= MAX_CAPTURES && "lambda" !in u && "let" !in u
    requires (forall i :: 0 <= i < |d.params| ==> d.params[i] in u) && Tame(d.body, u, false)
    ensures Usable(d.body, Locals(d.params))
  {
    hide Mentions, Tame, Compiles, HasResult;
    var sc := Locals(d.params);
    forall x
      ensures Here(sc, x) && (InScopeOf(sc, x) <==> x in d.params)
    {
      LocalsAreHere(d.params, x);
    }
    Cover(d.body, [], sc, u, false);
  }

  // Where it fails ------------------------------------------------------------------------------

  /** (defun f (X) (lambda Y (trap-error Y Y))): the closure copies the scope of f. */
  lemma TrapInClosureFails()
    ensures var body := List([Sym("lambda"), Sym("Y"), List([Sym("trap-error"), Sym("Y"), Sym("Y")])]);
      !Compiles(body, Locals(["X"]))
  {
    hide Captures;
    var trap := List([Sym("trap-error"), Sym("Y"), Sym("Y")]);
    var body := List([Sym("lambda"), Sym("Y"), trap]);
    var sc := Locals(["X"]);
    assert ScopeNames(sc) == ["X"];
    assert FormOf(body.items, HeadInScope(body.items, sc)) == LambdaForm("Y", trap);
    var names := ScopeCaptures(["Y"], trap, sc);
    var sc' := Foreign(sc) + Locals(names) + Locals(["Y"]);
    ClosureScope(sc, names, ["Y"], "trap-error");
    TrapNotCaptured();
    assert FormOf(trap.items, HeadInScope(trap.items, sc')) == TrapForm(Sym("Y"), Sym("Y"));
    assert !sc'[0].here && !Compiles(trap, sc');
    assert !CompilesClosure(["Y"], trap, sc) && !CompilesForm(LambdaForm("Y", trap), sc);
  }

  lemma TrapNotCaptured()
    ensures "trap-error" !in ScopeCaptures(["Y"], List([Sym("trap-error"), Sym("Y"), Sym("Y")]), Locals(["X"]))
  {
    var sc := Locals(["X"]);
    assert ScopeNames(sc) == ["X"];
    CapturesAreMentions(["Y"], List([Sym("trap-error"), Sym("Y"), Sym("Y")]), sc, {"X"}, "trap-error") by {
      assert Fits(sc, [], {"X"}, true);
    }
  }

  /** (defun f (lambda Z) (freeze (lambda Z Z))), where lambda is a variable: the call is taken for
      a lambda form, so neither name is captured. */
  lemma ShadowedLambdaFails()
    ensures var body := List([Sym("freeze"), List([Sym("lambda"), Sym("Z"), Sym("Z")])]);
      !Compiles(body, Locals(["lambda", "Z"]))
  {
    var call := List([Sym("lambda"), Sym("Z"), Sym("Z")]);
    var body := List([Sym("freeze"), call]);
    var sc := Locals(["lambda", "Z"]);
    assert ScopeNames(sc) == ["lambda", "Z"];
    assert FormOf(body.items, HeadInScope(body.items, sc)) == FreezeForm(call);
    assert Collect(Sym("Z"), Bind(ScopeNames(sc), Range(0, 2)), ["Z"], []) == [];
    assert ScopeCaptures([], call, sc) == [];
    var sc' := Foreign(sc) + Locals([]) + Locals([]);
    assert sc' == [Scoped("lambda", false), Scoped("Z", false)];
    assert ScopeNames(sc') == ["lambda", "Z"];
    assert ScopeNames(sc')[0] == "lambda";
    assert FormOf(call.items, HeadInScope(call.items, sc')) == ValueCall(Sym("lambda"), [Sym("Z"), Sym("Z")]);
    assert sc'[..1] == [Scoped("lambda", false)];
    assert !Here(sc'[..1], "lambda") && !Usable(Sym("lambda"), sc');
    assert !CompilesClosure([], call, sc) && !CompilesForm(FreezeForm(call), sc);
  }
}
