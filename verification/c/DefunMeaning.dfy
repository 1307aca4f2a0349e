/** eval_defun_expression stores the loop of a function with its calls fused (src/c/evaluator.c). */
module DefunMeaning {
  import opened Options
  import opened TreeWalk
  import opened TailLoop
  import opened CallFusion
  import opened FusionRelation
  import LoopMeaning
  import FusionMeaning

  /** What defining f as d stores, made being the generated parameters. */
  function DefinitionOf(f: string, d: Defun, made: seq<string>): Definition
    requires |made| == |d.params|
  {
    var loop := Optimise(f, d, made);
    if loop.Rejection? then loop else Definition(Defun(loop.defun.params, Walk(loop.defun.body)))
  }

  /** The loop on the way to what is stored. */
  ghost predicate Through(f: string, d: Defun, loop: Defun, stored: Defun, made: seq<string>) {
    LoopMeaning.Stored(f, d, loop, made) && Tidy(loop.body) && DefinitionOf(f, d, made) == Definition(stored)
  }

  /** m' runs what the definitions of m store. */
  ghost predicate Defined(m: Machine, m': Machine) {
    && m'.arity == m.arity && m'.prims == m.prims && Blind(m.prims) && m'.funs.Keys == m.funs.Keys
    && forall f :: f in m.funs ==> m'.funs[f] == m.funs[f] || exists loop, made :: Through(f, m.funs[f], loop, m'.funs[f], made)
  }

  ghost function Loops(m: Machine, m': Machine): map<string, Defun>
    requires Defined(m, m')
  {
    map f | f in m.funs ::
      if m'.funs[f] == m.funs[f] then m.funs[f] else var loop, made :| Through(f, m.funs[f], loop, m'.funs[f], made); loop
  }

  lemma ByWayOfLoops(m: Machine, m': Machine)
    requires Defined(m, m')
    ensures LoopMeaning.Optimised(m, m.(funs := Loops(m, m'))) && Fused(m.(funs := Loops(m, m')), m')
  {
    hide Blind, Tidy, LoopMeaning.Stored, Optimise, Walk, Fuse;
    var middle := m.(funs := Loops(m, m'));
    forall f | f in m.funs && m'.funs[f] != m.funs[f]
      ensures exists made :: LoopMeaning.Stored(f, m.funs[f], middle.funs[f], made)
      ensures m'.funs[f].params == middle.funs[f].params && Turned(middle.funs[f].body, m'.funs[f].body)
    {
      var made :| Through(f, m.funs[f], middle.funs[f], m'.funs[f], made);
      StoredIsFused(f, m.funs[f], middle.funs[f], m'.funs[f], made);
    }
  }

  lemma StoredIsFused(f: string, d: Defun, loop: Defun, stored: Defun, made: seq<string>)
    requires Through(f, d, loop, stored, made)
    ensures stored.params == loop.params && Turned(loop.body, stored.body)
  {
    hide Optimise, Tidy, Walk, Fuse;
    WalkFuses(loop.body);
    assert Optimise(f, d, made) == Definition(loop);
  }

  /** Main result: a program means what it says, with its stored definitions as with its own. */
  lemma DefinedRunsAlike(m: Machine, m': Machine, e: Kl, env: Env, h: History, fuel: nat)
    requires Defined(m, m')
    ensures var r, r' := Eval(m, e, env, h, fuel), Eval(m', e, env, h, fuel);
      && RelResult(r, r')
      && (r.outcome.Done? && NoClosures(r.outcome.value) ==> r'.outcome == r.outcome)
  {
    hide Eval, Defined;
    ByWayOfLoops(m, m');
    var middle := m.(funs := Loops(m, m'));
    LoopMeaning.OptimisedRunsAlike(m, middle, e, env, h, fuel);
    FusionMeaning.FusedRunsAlike(middle, m', e, env, h, fuel);
  }

  // The guard on the definition as written ------------------------------------------------------

  /** Turning a self tail call into c.recur makes nothing look like a run. */
  lemma {:induction false} RecurIsTidy(f: string, e: Kl)
    requires Tidy(e) && ToRecur(f, e).Some?
    ensures var e' := ToRecur(f, e).value; NonEmpty(e') && Tidy(e') && Run(e', "hd") == 0 && Run(e', "tl") == 0
    decreases Size(e), 0
  {
    hide Run, Core, Miscount, LooksLikeRun, BecomesEven, CasesToRecur;
    var e' := ToRecur(f, e).value;
    if e.items[0].name == f {
      ReplacedIsTidy(e, 0, Sym("c.recur"));
    } else {
      SizeOfParts(e.items);
      SizeOfParts(e.items[1..]);
      KeywordIsName(e.items[0].name);
      match KeywordOf(e.items[0].name) {
        case KIf =>
          var i := if ToRecur(f, e.items[2]).Some? then 2 else 3;
          RecurIsTidy(f, e.items[i]);
          ReplacedIsTidy(e, i, ToRecur(f, e.items[i]).value);
        case KCond =>
          CasesAreTidy(f, e.items[1..]);
          CondIsTidy(e, CasesToRecur(f, e.items[1..]).value);
        case KLet =>
          RecurIsTidy(f, e.items[3]);
          ReplacedIsTidy(e, 3, ToRecur(f, e.items[3]).value);
        case _ =>
      }
    }
  }

  lemma KeywordIsName(name: string)
    ensures KeywordOf(name).KIf? ==> name == "if"
    ensures KeywordOf(name).KCond? ==> name == "cond"
    ensures KeywordOf(name).KLet? ==> name == "let"
  {
  }

  /** One part of an if, a let or a call that becomes c.recur. */
  lemma ReplacedIsTidy(e: Kl, i: nat, part: Kl)
    requires NonEmpty(e) && Tidy(e) && i < |e.items| && Tidy(part)
    requires (i == 0 && part == Sym("c.recur")) || (i > 0 && (HeadedBy(e, "if") || HeadedBy(e, "let")))
    ensures var e' := List(e.items[i := part]); Tidy(e') && Run(e', "hd") == 0 && Run(e', "tl") == 0
  {
    hide LooksLikeRun, BecomesEven;
    var e' := List(e.items[i := part]);
    assert e'.items[0] in {Sym("c.recur"), Sym("if"), Sym("let")};
  }

  /** A case of a cond, or all of them, with one result in tail position replaced. */
  ghost predicate TidyCases(cases: seq<Kl>) {
    forall i :: 0 <= i < |cases| ==> Tidy(cases[i]) && !LooksLikeRun(cases[i])
  }

  lemma CondIsTidy(e: Kl, cases: seq<Kl>)
    requires HeadedBy(e, "cond") && TidyCases(cases)
    ensures var e' := List([e.items[0]] + cases); Tidy(e') && Run(e', "hd") == 0 && Run(e', "tl") == 0
  {
    hide LooksLikeRun, BecomesEven;
    var e' := List([e.items[0]] + cases);
    assert e'.items[0] == Sym("cond") && forall i :: 1 <= i < |e'.items| ==> e'.items[i] == cases[i - 1];
  }

  lemma {:induction false} CasesAreTidy(f: string, cases: seq<Kl>)
    requires TidyCases(cases) && CasesToRecur(f, cases).Some?
    ensures TidyCases(CasesToRecur(f, cases).value)
    decreases SizeAll(cases), 1
  {
    hide Tidy, LooksLikeRun, ToRecur;
    SizeOfParts(cases);
    SizeOfParts(cases[0].items);
    var here := ToRecur(f, cases[0].items[1]);
    if here.Some? {
      CaseParts(cases[0]);
      RecurIsTidy(f, cases[0].items[1]);
      CaseIsTidy(cases[0], here.value);
    } else {
      CasesAreTidy(f, cases[1..]);
    }
  }

  lemma CaseParts(c: Kl)
    requires c.List? && |c.items| == 2 && Tidy(c)
    ensures Tidy(c.items[0]) && Tidy(c.items[1])
  {
  }

  lemma CaseIsTidy(c: Kl, result: Kl)
    requires c.List? && |c.items| == 2 && Tidy(c.items[0])
    requires NonEmpty(result) && Tidy(result) && Run(result, "hd") == 0 && Run(result, "tl") == 0
    ensures var c' := List(c.items[1 := result]); Tidy(c') && !LooksLikeRun(c')
  {
    hide Parts, Miscount, Core, Cancels;
    var c' := List(c.items[1 := result]);
    assert c'.items == [c.items[0], result];
    assert Run(c', "hd") <= 1 && Run(c', "tl") <= 1;
    assert !LooksLikeRun(result);
  }

  /** The bindings of the loop that a definition is wrapped in are names, two by two: they are never
      taken for a call. */
  lemma WrapIsTidy(params: seq<string>, made: seq<string>, body: Kl)
    requires |made| == |params| && Tidy(body)
    ensures Tidy(Wrap(params, made, body).body)
  {
    hide Miscount, Core, Cancels, Parts;
    var binds := List(Interleave(params, made));
    InterleaveIsNames(params, made);
    assert |binds.items| != 3;
    assert !IsCons(binds);
    assert Run(binds, "hd") <= 1 && Run(binds, "tl") <= 1;
    assert Tidy(binds);
    var e := Wrap(params, made, body).body;
    assert e.items == [Sym("c.loop"), binds, body];
    assert Run(e, "hd") == 0 && Run(e, "tl") == 0;
  }

  lemma {:induction false} InterleaveIsNames(params: seq<string>, made: seq<string>)
    requires |made| == |params|
    ensures |Interleave(params, made)| % 2 == 0 && forall i :: 0 <= i < |Interleave(params, made)| ==> Interleave(params, made)[i].Sym?
    decreases |params|
  {
    if |params| > 0 {
      InterleaveIsNames(params[1..], made[1..]);
    }
  }

  /** So the guard can be checked on the definition as written: when it holds there, what is stored is
      reached by way of a tidy loop. */
  lemma TidyDefinitionStores(f: string, d: Defun, loop: Defun, stored: Defun, made: seq<string>)
    requires LoopMeaning.Stored(f, d, loop, made) && Tidy(d.body) && DefinitionOf(f, d, made) == Definition(stored)
    ensures Through(f, d, loop, stored, made)
  {
    hide Tidy, LoopMeaning.Plain, Wrap;
    if IsLoop(f, d) {
      if ToRecur(f, d.body).Some? {
        RecurIsTidy(f, d.body);
        WrapIsTidy(d.params, made, ToRecur(f, d.body).value);
      } else {
        WrapIsTidy(d.params, made, d.body);
      }
    }
  }

  // Where the pass changes the meaning ----------------------------------------------------------

  const NOTHING: Prims := (f, args, h) => Result(Done(Nil), h)
  const IDENTITY := Machine(map["id" := Defun(["x"], Sym("x"))], map[], NOTHING)
  const NESTED := Pair(Pair(Data(7), Nil), Nil)

  /** (hd (id) v): the head of a list of functions, applied to v. */
  const OVERAPPLIED := List([Sym("hd"), Obj(Pair(Symbol("id"), Nil)), Obj(NESTED)])

  lemma OverappliedValue()
    ensures Eval(IDENTITY, OVERAPPLIED, Root, [], 1) == Result(Done(NESTED), [])
  {
    hide Handle;
    var m, args, functions := IDENTITY, OVERAPPLIED.items[1..], Pair(Symbol("id"), Nil);
    assert args == [Obj(functions), Obj(NESTED)];
    assert FormOf(OVERAPPLIED.items) == CallForm(Sym("hd"), args);
    LoopMeaning.EvalUnfolds(m, OVERAPPLIED, Root, [], 1);
    assert EvalForm(m, CallForm(Sym("hd"), args), Root, [], 1) == EvalCall(m, Sym("hd"), args, Root, [], 1);
    assert EvalCall(m, Sym("hd"), args, Root, [], 1) == CallNamed(m, "hd", args, Root, [], 1);
    assert CallNamed(m, "hd", args, Root, [], 1) == CallEach(m, Partial("hd", []), args, Root, [], 1);
    assert CallOne(m, Partial("hd", []), args[0], Root, [], 1) == Handle(m, Partial("hd", []), functions, [], 1);
    HeadOfFunctions();
    assert CallOne(m, Symbol("id"), args[1], Root, [], 1) == Handle(m, Symbol("id"), NESTED, [], 1);
    IdentityValue();
    assert args[1..] == [Obj(NESTED)] && args[1..][1..] == [] && args[1..][0] == args[1];
    assert CallEach(m, Partial("hd", []), args, Root, [], 1) == CallEach(m, Symbol("id"), args[1..], Root, [], 1);
    assert CallEach(m, Symbol("id"), args[1..], Root, [], 1) == CallEach(m, NESTED, [], Root, [], 1);
  }

  lemma HeadOfFunctions()
    ensures Handle(IDENTITY, Partial("hd", []), Pair(Symbol("id"), Nil), [], 1) == Result(Done(Symbol("id")), [])
  {
    var functions := Pair(Symbol("id"), Nil);
    assert [] + [functions] == [functions];
    assert Enter(IDENTITY, "hd", [functions], [], 1) == Result(Done(Symbol("id")), []);
  }

  lemma IdentityValue()
    ensures Handle(IDENTITY, Symbol("id"), NESTED, [], 1) == Result(Done(NESTED), [])
  {
    var env := Extend(Root, Bindings(["x"], [NESTED]));
    assert env.binds == [Binding("x", NESTED)];
    assert Position(env.binds, "x") == 0;
    assert Handle(IDENTITY, Symbol("id"), NESTED, [], 1) == Enter(IDENTITY, "id", [NESTED], [], 1);
  }

  /** (hd (hd (hd (id) v))) reads beyond its list after the pass. */
  lemma MiscountChangesResult()
    ensures Eval(IDENTITY, Nest("hd", 2, OVERAPPLIED), Root, [], 1).outcome == Done(Data(7))
    ensures Eval(IDENTITY, Fuse(Nest("hd", 2, OVERAPPLIED)), Root, [], 1).outcome == Outside
  {
    hide Eval, Fuse;
    var e := Nest("hd", 2, OVERAPPLIED);
    OverappliedValue();
    FusionMeaning.NestValue(IDENTITY, "hd", 2, OVERAPPLIED, Root, [], 1);
    assert Sides(NESTED, true, 2) == Done(Data(7));
    RunOfNest("hd", 2, OVERAPPLIED);
    FusionMeaning.MiscountedRun(IDENTITY, e, "hd", Root, [], 1);
  }

  const VARIABLES := Frame([Binding("hd", Truth(true)), Binding("z", Pair(Data(7), Nil))], Root)

  /** (cond (hd (hd z))) where hd is a variable. */
  const CASES := List([Sym("cond"), Nest("hd", 2, Sym("z"))])

  /** The case of the cond becomes a list of three. */
  lemma CaseChangesResult()
    ensures Eval(IDENTITY, CASES, VARIABLES, [], 0).outcome == Done(Data(7))
    ensures Eval(IDENTITY, Fuse(CASES), VARIABLES, [], 0).outcome == Thrown(Error("Wrong number of arguments for a case"))
  {
    var run := Nest("hd", 2, Sym("z"));
    var test, body := Sym("hd"), Nest("hd", 1, Sym("z"));
    assert run == List([test, body]) && CASES.items[1..] == [run];
    FusionMeaning.NestValue(IDENTITY, "hd", 1, Sym("z"), VARIABLES, [], 0);
    VariableValues();
    assert FormOf(CASES.items) == CondForm([run]);
    assert Eval(IDENTITY, CASES, VARIABLES, [], 0) == EvalCases(IDENTITY, [run], VARIABLES, [], 0);
    RunOfNest("hd", 2, Sym("z"));
    FusedCases();
  }

  lemma VariableValues()
    ensures Eval(IDENTITY, Sym("hd"), VARIABLES, [], 0) == Result(Done(Truth(true)), [])
    ensures Eval(IDENTITY, Sym("z"), VARIABLES, [], 0) == Result(Done(Pair(Data(7), Nil)), [])
  {
    assert Position(VARIABLES.binds, "hd") == 0 && Position(VARIABLES.binds, "z") == 1;
  }

  lemma FusedCases()
    ensures Eval(IDENTITY, Fuse(CASES), VARIABLES, [], 0) == Throw("Wrong number of arguments for a case", [])
  {
    var run, items := Nest("hd", 2, Sym("z")), Fuse(CASES).items;
    RunOfNest("hd", 2, Sym("z"));
    SideIsRun(run, "hd");
    assert CASES.items[1..] == [run] && CASES.items[1..][1..] == [];
    assert Fuse(run).List? && |Fuse(run).items| == 3;
    assert Fuse(CASES) == List(FuseAll(CASES.items));
    assert items == [Sym("cond"), Fuse(run)];
    assert items[1..] == [Fuse(run)];
    assert FormOf(items) == CondForm([Fuse(run)]);
  }

  /** (c.loop (hd (hd z)) hd): the bindings become a list of three. */
  const BINDINGS := List([Sym("c.loop"), Nest("hd", 2, Sym("z")), Sym("hd")])

  lemma LoopChangesResult()
    ensures Eval(IDENTITY, BINDINGS, VARIABLES, [], 0).outcome == Done(Data(7))
    ensures Eval(IDENTITY, Fuse(BINDINGS), VARIABLES, [], 0).outcome == Thrown(Error(FusionMeaning.ODD_BINDINGS))
  {
    hide Fuse;
    var m, binds, items := IDENTITY, Nest("hd", 2, Sym("z")), BINDINGS.items[1].items;
    RunOfNest("hd", 2, Sym("z"));
    FusionMeaning.RunBindingsExactly(m, m, BINDINGS, VARIABLES, VARIABLES, [], [], 0);
    assert items == [Sym("hd"), Nest("hd", 1, Sym("z"))];
    FusionMeaning.NestValue(m, "hd", 1, Sym("z"), VARIABLES, [], 0);
    VariableValues();
    var v := Eval(m, items[1], VARIABLES, [], 0);
    assert v == Result(Done(Data(7)), []) by {
      assert Sides(Pair(Data(7), Nil), true, 1) == Sides(Data(7), true, 0);
    }
    assert items[2..] == [] && EvalBinds(m, [], VARIABLES, [], 0) == Result(Done([]), []);
    assert EvalBinds(m, items, VARIABLES, [], 0) == Result(Done([Binding("hd", Data(7))] + []), []);
    assert [Binding("hd", Data(7))] + [] == [Binding("hd", Data(7))];
    LoopBody();
    FusionMeaning.LoopValue(m, BINDINGS.items, VARIABLES, [], 0);
  }

  lemma LoopBody()
    ensures Rounds(IDENTITY, ["hd"], Sym("hd"), Extend(VARIABLES, [Binding("hd", Data(7))]), [], 0) == Result(Done(Data(7)), [])
    ensures Names([Binding("hd", Data(7))]) == ["hd"]
  {
    assert Position([Binding("hd", Data(7))], "hd") == 0;
    assert Lookup(Extend(VARIABLES, [Binding("hd", Data(7))]), "hd") == Some(Data(7));
  }
}
