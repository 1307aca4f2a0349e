/** A body with fewer cells than the tables have places never fills them, so it gets a plan once it is
    hot. */
module PlanSize {
  import opened Options
  import opened RcValue
  import opened Evaluator
  import opened EvalPlan
  import opened PlanTally
  import opened PlanRuntime
  import opened EvalLaws

  /** How many pairs and atoms a value is made of. */
  function Cells(v: Value): (n: nat)
    ensures n >= 1
  {
    match v
    case Pair(_, h, t) => 1 + Cells(h) + Cells(t)
    case _ => 1
  }

  function CellsOf(vs: seq<Value>, i: nat): nat
    requires i <= |vs|
    decreases |vs| - i
  {
    if i == |vs| then 0 else Cells(vs[i]) + CellsOf(vs, i + 1)
  }

  lemma {:induction false} CellsFrom(vs: seq<Value>, vs': seq<Value>, i: nat, d: nat)
    requires i <= |vs| && |vs'| == |vs| + d && forall j :: i <= j < |vs| ==> vs'[j + d] == vs[j]
    ensures CellsOf(vs', i + d) == CellsOf(vs, i)
    decreases |vs| - i
  {
    if i < |vs| {
      CellsFrom(vs, vs', i + 1, d);
    }
  }

  lemma CellsPrepend(v: Value, rest: seq<Value>)
    ensures CellsOf([v] + rest, 0) == Cells(v) + CellsOf(rest, 0)
  {
    var all := [v] + rest;
    CellsFrom(rest, all, 0, 1);
    assert CellsOf(all, 0) == Cells(all[0]) + CellsOf(all, 1);
  }

  lemma {:induction false} CellsOfList(list: Value, items: seq<Value>)
    requires Items(list) == Some(items)
    ensures Cells(list) == 1 + |items| + CellsOf(items, 0)
  {
    hide CellsOf;
    if list.Pair? {
      var rest := Items(list.tail).value;
      CellsOfList(list.tail, rest);
      CellsPrepend(list.head, rest);
    } else {
      NoCells();
    }
  }

  lemma NoCells()
    ensures CellsOf([], 0) == 0
  {
  }

  /** A pass uses no more nodes and literals than this. */
  predicate UsesAtMost(t: Tally, t': Tally, n: nat) {
    t'.nn <= t.nn + n && |t'.literals| <= |t.literals| + n
  }

  lemma {:induction false} PassIsSmall(params: seq<string>, e: Value, sc: Scope, depth: nat, recursion: nat, t: Tally)
    requires WellScoped(sc, depth)
    ensures UsesAtMost(t, Pass(params, e, sc, depth, recursion, t), Cells(e))
    decreases e, 3
  {
    hide PassForm, HasRoom;
    if !(t.failed || recursion >= PLAN_DEPTH || t.nn >= PLAN_LIMIT) && e.Pair? {
      var form := PlannedForm(params, e, sc, depth);
      if form.Some? && HasRoom(form.value, |Items(e.tail).value|, t.na) {
        FormIsSmall(params, e, form.value, Items(e.tail).value, sc, depth, recursion, t.(nn := t.nn + 1));
      }
    }
  }

  lemma {:induction false} FormIsSmall(params: seq<string>, e: Value, form: Form, args: seq<Value>, sc: Scope, depth: nat, recursion: nat, t: Tally)
    requires WellScoped(sc, depth) && e.Pair? && Items(e.tail) == Some(args) && PlannedForm(params, e, sc, depth) == Some(form)
    ensures UsesAtMost(t, PassForm(params, e, form, args, sc, depth, recursion, t), Cells(e) - 1)
    decreases e, 1
  {
    hide Pass, PlannedForm, PassForm, PassParts, PassCells, PassClauses, UsesAtMost;
    match form
    case FLet => LetIsSmall(params, e, args, sc, depth, recursion, t);
    case FCond => CondIsSmall(params, e, args, sc, depth, recursion, t);
    case FCall => CallIsSmall(params, e, args, sc, depth, recursion, t);
    case _ => PlainIsSmall(params, e, form, args, sc, depth, recursion, t);
  }

  lemma {:induction false} LetIsSmall(params: seq<string>, e: Value, args: seq<Value>, sc: Scope, depth: nat, recursion: nat, t: Tally)
    requires WellScoped(sc, depth) && e.Pair? && Items(e.tail) == Some(args) && PlannedForm(params, e, sc, depth) == Some(FLet)
    ensures UsesAtMost(t, PassForm(params, e, FLet, args, sc, depth, recursion, t), Cells(e) - 1)
    decreases e, 0
  {
    hide Pass, PlannedForm;
    CellsOfList(e.tail, args);
    FormIsShaped(params, e, FLet, args, sc, depth);
    ThreeCells(args);
    var named := WithLiteral(t, args[0]);
    PassIsSmall(params, args[1], sc, depth, recursion + 1, named);
    var bound := Pass(params, args[1], sc, depth, recursion + 1, named);
    PassIsSmall(params, args[2], Binding(args[0].name, depth + 1, sc), depth + 1, recursion + 1, bound);
  }

  lemma {:induction false} CondIsSmall(params: seq<string>, e: Value, args: seq<Value>, sc: Scope, depth: nat, recursion: nat, t: Tally)
    requires WellScoped(sc, depth) && e.Pair? && Items(e.tail) == Some(args) && PlannedForm(params, e, sc, depth) == Some(FCond)
    ensures UsesAtMost(t, PassForm(params, e, FCond, args, sc, depth, recursion, t), Cells(e) - 1)
    decreases e, 0
  {
    hide Pass, PlannedForm, PassClauses, CellStart, CellsOf, Items, Depth, WithLiteral;
    CellsOfList(e.tail, args);
    FormIsShaped(params, e, FCond, args, sc, depth);
    ClausesAreSmall(params, e, args, 0, CellStart(t.na), sc, depth, recursion, t.(na := t.na + 2 * |args|));
  }

  lemma {:induction false} CallIsSmall(params: seq<string>, e: Value, args: seq<Value>, sc: Scope, depth: nat, recursion: nat, t: Tally)
    requires WellScoped(sc, depth) && e.Pair? && Items(e.tail) == Some(args) && PlannedForm(params, e, sc, depth) == Some(FCall)
    ensures UsesAtMost(t, PassForm(params, e, FCall, args, sc, depth, recursion, t), Cells(e) - 1)
    decreases e, 0
  {
    hide Pass, PlannedForm, PassCells, CellStart, CellsOf, Items, Depth, WithLiteral;
    CellsOfList(e.tail, args);
    PassIsSmall(params, e.head, sc, depth, recursion + 1, t);
    var head := Pass(params, e.head, sc, depth, recursion + 1, t);
    CellsAreSmall(params, e, args, 0, CellStart(head.na), sc, depth, recursion, head.(na := head.na + |args|));
  }

  /** The forms that reserve no cells. */
  lemma {:induction false} PlainIsSmall(params: seq<string>, e: Value, form: Form, args: seq<Value>, sc: Scope, depth: nat, recursion: nat, t: Tally)
    requires !form.FLet? && !form.FCond? && !form.FCall?
    requires WellScoped(sc, depth) && e.Pair? && Items(e.tail) == Some(args) && PlannedForm(params, e, sc, depth) == Some(form)
    ensures UsesAtMost(t, PassForm(params, e, form, args, sc, depth, recursion, t), Cells(e) - 1)
    decreases e, 0
  {
    hide Pass, PlannedForm, PassParts;
    CellsOfList(e.tail, args);
    FormIsShaped(params, e, form, args, sc, depth);
    match form
    case FType =>
      PartsAreSmall(params, e, args[..1], 0, sc, depth, recursion, t);
      OneCell(args);
    case FIf | FAnd | FOr => PartsAreSmall(params, e, args, 0, sc, depth, recursion, t);
    case _ =>
  }

  lemma OneCell(args: seq<Value>)
    requires |args| == 2
    ensures CellsOf(args[..1], 0) <= CellsOf(args, 0)
  {
    assert CellsOf(args[..1], 0) == Cells(args[0]) + CellsOf(args[..1], 1);
    assert CellsOf(args, 0) == Cells(args[0]) + CellsOf(args, 1);
  }

  lemma ThreeCells(args: seq<Value>)
    requires |args| == 3
    ensures CellsOf(args, 0) == Cells(args[0]) + Cells(args[1]) + Cells(args[2])
  {
    assert CellsOf(args, 1) == Cells(args[1]) + CellsOf(args, 2);
    assert CellsOf(args, 2) == Cells(args[2]) + CellsOf(args, 3);
  }

  lemma {:induction false} PartsAreSmall(params: seq<string>, e: Value, parts: seq<Value>, i: nat, sc: Scope, depth: nat, recursion: nat, t: Tally)
    requires WellScoped(sc, depth) && Within(parts, e) && i <= |parts|
    ensures UsesAtMost(t, PassParts(params, e, parts, i, sc, depth, recursion, t), CellsOf(parts, i))
    decreases e, 0, |parts| - i
  {
    hide Pass;
    if i < |parts| {
      PassIsSmall(params, parts[i], sc, depth, recursion + 1, t);
      PartsAreSmall(params, e, parts, i + 1, sc, depth, recursion, Pass(params, parts[i], sc, depth, recursion + 1, t));
    }
  }

  lemma {:induction false} CellsAreSmall(params: seq<string>, e: Value, parts: seq<Value>, i: nat, start: nat, sc: Scope, depth: nat, recursion: nat, t: Tally)
    requires WellScoped(sc, depth) && Within(parts, e) && i <= |parts|
    ensures UsesAtMost(t, PassCells(params, e, parts, i, start, sc, depth, recursion, t), CellsOf(parts, i))
    decreases e, 0, |parts| - i
  {
    hide Pass;
    if i < |parts| {
      PassIsSmall(params, parts[i], sc, depth, recursion + 1, t);
      CellsAreSmall(params, e, parts, i + 1, start, sc, depth, recursion, Write(Pass(params, parts[i], sc, depth, recursion + 1, t), start + i));
    }
  }

  lemma {:induction false} ClausesAreSmall(params: seq<string>, e: Value, clauses: seq<Value>, i: nat, start: nat, sc: Scope, depth: nat, recursion: nat, t: Tally)
    requires WellScoped(sc, depth) && Within(clauses, e) && ClausesAreShaped(clauses) && i <= |clauses|
    ensures UsesAtMost(t, PassClauses(params, e, clauses, i, start, sc, depth, recursion, t), CellsOf(clauses, i))
    decreases e, 0, |clauses| - i
  {
    hide Pass;
    if i < |clauses| {
      var parts := Items(clauses[i]).value;
      CellsOfList(clauses[i], parts);
      assert CellsOf(parts, 0) == Cells(parts[0]) + CellsOf(parts, 1);
      assert CellsOf(parts, 1) == Cells(parts[1]) + CellsOf(parts, 2);
      assert parts[0] < clauses[i] && parts[1] < clauses[i];
      PassIsSmall(params, parts[0], sc, depth, recursion + 1, t);
      var test := Write(Pass(params, parts[0], sc, depth, recursion + 1, t), start + 2 * i);
      PassIsSmall(params, parts[1], sc, depth, recursion + 1, test);
      ClausesAreSmall(params, e, clauses, i + 1, start, sc, depth, recursion, Write(Pass(params, parts[1], sc, depth, recursion + 1, test), start + 2 * i + 1));
    }
  }

  lemma {:induction false} FewArguments(args: seq<Value>, i: nat)
    requires i <= |args|
    ensures |args| - i <= CellsOf(args, i)
    decreases |args| - i
  {
    if i < |args| {
      FewArguments(args, i + 1);
    }
  }

  ghost predicate IsClause(v: Value) {
    exists test, result :: IsList(v, [test, result])
  }

  ghost predicate AreClauses(clauses: seq<Value>) {
    forall i :: 0 <= i < |clauses| ==> IsClause(clauses[i])
  }

  /** Calls, and well-formed ifs, lets, conds, ands, ors, types and quotes whose name is no
      parameter. */
  ghost predicate HasPlannedShape(params: seq<string>, head: Value, args: seq<Value>) {
    |args| <= PLAN_LIMIT && (
      || !head.Sym? || head.name in params || !IsFormName(head.name)
      || (head.name == "if" && |args| == 3)
      || (head.name == "let" && |args| == 3 && args[0].Sym?)
      || (head.name == "cond" && AreClauses(args))
      || (head.name in {"and", "or", "type"} && |args| == 2)
      || (head.name in {"quote", "c-quote"} && |args| == 1))
  }

  lemma PlannedExactly(params: seq<string>, e: Value, args: seq<Value>)
    requires e.Pair? && IsList(e.tail, args)
    ensures PlannedForm(params, e, Top, 0).Some? <==> HasPlannedShape(params, e.head, args)
  {
    hide IsList, AreClauses, ClausesAreShaped, PlanLocal;
    ListItems(e.tail, args);
    ParameterIsFound(params, e.head);
    ClausesAreLists(args);
  }

  lemma ClausesAreLists(clauses: seq<Value>)
    ensures AreClauses(clauses) <==> ClausesAreShaped(clauses)
  {
    hide IsClause;
    forall i | 0 <= i < |clauses|
      ensures IsClause(clauses[i]) <==> Items(clauses[i]).Some? && |Items(clauses[i]).value| == 2
    {
      PairIsList(clauses[i]);
    }
  }

  lemma PairIsList(v: Value)
    ensures IsClause(v) <==> Items(v).Some? && |Items(v).value| == 2
  {
    hide IsList;
    if Items(v).Some? && |Items(v).value| == 2 {
      var items := Items(v).value;
      ListItems(v, items);
      assert items == [items[0], items[1]];
    }
    forall test, result | IsList(v, [test, result])
      ensures Items(v) == Some([test, result])
    {
      ListItems(v, [test, result]);
    }
  }

  lemma ParameterIsFound(params: seq<string>, head: Value)
    ensures LocalHead(params, head, Top, 0) <==> head.Sym? && head.name in params
  {
  }

  /** A body of a planned shape with fewer cells than a table has places, and no more than PLAN_DEPTH
      deep, gets a plan. */
  lemma SmallBodyIsPlanned(params: seq<string>, body: Value)
    requires body.Pair? && Cells(body) < PLAN_LIMIT && Depth(body) <= PLAN_DEPTH
    requires FormOf(body.head) !in {FLambda, FFreeze, FDefun, FTrap} && PlannedForm(params, body, Top, 0).Some?
    ensures Plannable(params, body)
  {
    hide Pass, PlannedForm;
    PassKeeps(params, body, Top, 0, 0, START);
    PassIsSmall(params, body, Top, 0, 0, START);
    PlannedIsList(params, body);
    CellsOfList(body.tail, Items(body.tail).value);
    FewArguments(Items(body.tail).value, 0);
  }

  lemma PlannedIsList(params: seq<string>, body: Value)
    requires body.Pair? && PlannedForm(params, body, Top, 0).Some?
    ensures Items(body.tail).Some?
  {
  }
}
