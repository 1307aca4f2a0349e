/** What plan_compile of src/rc/eval_plan.h uses up of its fixed tables, and which of its writes go
    beyond them. */
module PlanTally {
  import opened Options
  import opened RcValue
  import opened Evaluator
  import opened EvalPlan

  /** The counters of a build. lost: an auxiliary cell beyond the table has been written. */
  datatype Tally = Tally(nn: nat, na: nat, literals: seq<Value>, failed: bool, lost: bool)

  const START := Tally(0, 0, [], false, false)

  /** The tests before a cond or a call compare with what is left; past the limit the unsigned
      difference wraps around and the test never holds. */
  predicate HasRoom(form: Form, n: nat, na: nat) {
    na > PLAN_LIMIT || AuxNeed(form, n) + na <= PLAN_LIMIT
  }

  /** plan_literal */
  function WithLiteral(t: Tally, v: Value): Tally {
    if v in t.literals then t
    else if |t.literals| >= PLAN_LIMIT then t.(failed := true)
    else t.(literals := t.literals + [v])
  }

  /** The start of the reserved cells is kept in 16 bits. */
  function CellStart(na: nat): U16 {
    na % 0x1_0000
  }

  function Write(t: Tally, at: nat): Tally {
    t.(lost := t.lost || at >= PLAN_LIMIT)
  }

  function Pass(params: seq<string>, e: Value, sc: Scope, depth: nat, recursion: nat, t: Tally): Tally
    requires WellScoped(sc, depth)
    decreases e, 3
  {
    if t.failed || recursion >= PLAN_DEPTH || t.nn >= PLAN_LIMIT then t.(failed := true)
    else PassNode(params, e, sc, depth, recursion, t.(nn := t.nn + 1))
  }

  function PassNode(params: seq<string>, e: Value, sc: Scope, depth: nat, recursion: nat, t: Tally): Tally
    requires WellScoped(sc, depth)
    decreases e, 2
  {
    if e.Sym? && PlanLocal(params, e.name, sc, depth).Some? then t
    else if !e.Pair? then WithLiteral(t, e)
    else
      var form := PlannedForm(params, e, sc, depth);
      if form.None? || !HasRoom(form.value, |Items(e.tail).value|, t.na) then WithLiteral(t, e)
      else PassForm(params, e, form.value, Items(e.tail).value, sc, depth, recursion, t)
  }

  function PassForm(params: seq<string>, e: Value, form: Form, args: seq<Value>, sc: Scope, depth: nat, recursion: nat, t: Tally): Tally
    requires WellScoped(sc, depth) && e.Pair? && Items(e.tail) == Some(args) && PlannedForm(params, e, sc, depth) == Some(form)
    decreases e, 1
  {
    match form
    case FLet =>
      var bound := Pass(params, args[1], sc, depth, recursion + 1, WithLiteral(t, args[0]));
      Pass(params, args[2], Binding(args[0].name, depth + 1, sc), depth + 1, recursion + 1, bound)
    case FCond => PassClauses(params, e, args, 0, CellStart(t.na), sc, depth, recursion, t.(na := t.na + 2 * |args|))
    case FQuote => WithLiteral(t, args[0])
    case FType => PassParts(params, e, args[..1], 0, sc, depth, recursion, t)
    case FCall =>
      var head := Pass(params, e.head, sc, depth, recursion + 1, t);
      PassCells(params, e, args, 0, CellStart(head.na), sc, depth, recursion, head.(na := head.na + |args|))
    case FIf | FAnd | FOr => PassParts(params, e, args, 0, sc, depth, recursion, t)
    case _ => t
  }

  function PassParts(params: seq<string>, e: Value, parts: seq<Value>, i: nat, sc: Scope, depth: nat, recursion: nat, t: Tally): Tally
    requires WellScoped(sc, depth) && Within(parts, e) && i <= |parts|
    decreases e, 0, |parts| - i
  {
    if i == |parts| then t
    else PassParts(params, e, parts, i + 1, sc, depth, recursion, Pass(params, parts[i], sc, depth, recursion + 1, t))
  }

  /** One cell after the other, from start on; a failed build goes on writing. */
  function PassCells(params: seq<string>, e: Value, parts: seq<Value>, i: nat, start: nat, sc: Scope, depth: nat, recursion: nat, t: Tally): Tally
    requires WellScoped(sc, depth) && Within(parts, e) && i <= |parts|
    decreases e, 0, |parts| - i
  {
    if i == |parts| then t
    else
      var next := Write(Pass(params, parts[i], sc, depth, recursion + 1, t), start + i);
      PassCells(params, e, parts, i + 1, start, sc, depth, recursion, next)
  }

  function PassClauses(params: seq<string>, e: Value, clauses: seq<Value>, i: nat, start: nat, sc: Scope, depth: nat, recursion: nat, t: Tally): Tally
    requires WellScoped(sc, depth) && Within(clauses, e) && ClausesAreShaped(clauses) && i <= |clauses|
    decreases e, 0, |clauses| - i
  {
    if i == |clauses| then t
    else
      PassClauses(params, e, clauses, i + 1, start, sc, depth, recursion, PassClause(params, clauses[i], start + 2 * i, sc, depth, recursion, t))
  }

  function PassClause(params: seq<string>, clause: Value, cell: nat, sc: Scope, depth: nat, recursion: nat, t: Tally): Tally
    requires WellScoped(sc, depth) && Items(clause).Some? && |Items(clause).value| == 2
    decreases clause, 4
  {
    var parts := Items(clause).value;
    var test := Write(Pass(params, parts[0], sc, depth, recursion + 1, t), cell);
    Write(Pass(params, parts[1], sc, depth, recursion + 1, test), cell + 1)
  }

  // What every pass keeps -----------------------------------------------------------------------

  predicate InTables(t: Tally) {
    t.nn <= PLAN_LIMIT && |t.literals| <= PLAN_LIMIT
  }

  /** Counters never go back; unless the build fails, every reserved cell is paid for by a node. A
      write is lost only when more cells are reserved than there are, and then one is; and a build
      fails only when a table is full or the body is nested too deeply. */
  predicate Kept(t: Tally, t': Tally, spare: nat, deep: bool) {
    && t.nn <= t'.nn && t.na <= t'.na && t.literals <= t'.literals
    && (t.failed ==> t'.failed) && (t.lost ==> t'.lost) && (InTables(t) ==> InTables(t'))
    && (!t'.failed ==> t'.na + t.nn + spare <= t'.nn + t.na)
    && (t'.lost ==> t.lost || t'.na > PLAN_LIMIT)
    && (t.na <= PLAN_LIMIT < t'.na ==> t'.lost)
    && (t'.failed && !t.failed ==> deep || t'.nn >= PLAN_LIMIT || |t'.literals| >= PLAN_LIMIT)
  }

  lemma {:induction false} PassKeeps(params: seq<string>, e: Value, sc: Scope, depth: nat, recursion: nat, t: Tally)
    requires WellScoped(sc, depth)
    ensures Kept(t, Pass(params, e, sc, depth, recursion, t), 1, recursion + Depth(e) > PLAN_DEPTH)
    decreases e, 3
  {
    hide PassForm;
    if !(t.failed || recursion >= PLAN_DEPTH || t.nn >= PLAN_LIMIT) && e.Pair? {
      var form := PlannedForm(params, e, sc, depth);
      var t1 := t.(nn := t.nn + 1);
      if form.Some? && HasRoom(form.value, |Items(e.tail).value|, t.na) {
        FormKeeps(params, e, form.value, Items(e.tail).value, sc, depth, recursion, t1);
      }
    }
  }

  predicate Shaped(form: Form, args: seq<Value>) {
    && |args| <= PLAN_LIMIT
    && (form.FLet? ==> |args| == 3 && args[0].Sym?)
    && (form.FCond? ==> ClausesAreShaped(args))
    && (form.FQuote? ==> |args| == 1)
    && (form.FIf? ==> |args| == 3)
    && (form.FAnd? || form.FOr? || form.FType? ==> |args| == 2)
  }

  lemma FormIsShaped(params: seq<string>, e: Value, form: Form, args: seq<Value>, sc: Scope, depth: nat)
    requires WellScoped(sc, depth) && e.Pair? && Items(e.tail) == Some(args) && PlannedForm(params, e, sc, depth) == Some(form)
    ensures Shaped(form, args)
  {
  }

  lemma {:induction false} FormKeeps(params: seq<string>, e: Value, form: Form, args: seq<Value>, sc: Scope, depth: nat, recursion: nat, t: Tally)
    requires WellScoped(sc, depth) && e.Pair? && Items(e.tail) == Some(args) && PlannedForm(params, e, sc, depth) == Some(form)
    requires !t.failed && HasRoom(form, |args|, t.na)
    ensures Kept(t, PassForm(params, e, form, args, sc, depth, recursion, t), 0, recursion + Depth(e) > PLAN_DEPTH)
    decreases e, 1
  {
    hide Pass, PlannedForm, PassParts, PassCells, PassClauses, HasRoom, Kept, PassForm;
    match form
    case FLet => LetKeeps(params, e, args, sc, depth, recursion, t);
    case FCond => CondKeeps(params, e, args, sc, depth, recursion, t);
    case FCall => CallKeeps(params, e, args, sc, depth, recursion, t);
    case _ => PlainKeeps(params, e, form, args, sc, depth, recursion, t);
  }

  /** The forms that reserve no cells. */
  lemma {:induction false} PlainKeeps(params: seq<string>, e: Value, form: Form, args: seq<Value>, sc: Scope, depth: nat, recursion: nat, t: Tally)
    requires WellScoped(sc, depth) && e.Pair? && Items(e.tail) == Some(args) && PlannedForm(params, e, sc, depth) == Some(form)
    requires !t.failed && !form.FLet? && !form.FCond? && !form.FCall?
    ensures Kept(t, PassForm(params, e, form, args, sc, depth, recursion, t), 0, recursion + Depth(e) > PLAN_DEPTH)
    decreases e, 0
  {
    hide Pass, PlannedForm, PassParts, PassCells, PassClauses;
    PartsAreShallower(e, args);
    FormIsShaped(params, e, form, args, sc, depth);
    match form
    case FType => PartsKeep(params, e, args[..1], 0, sc, depth, recursion, t);
    case FIf | FAnd | FOr => PartsKeep(params, e, args, 0, sc, depth, recursion, t);
    case _ =>
  }

  lemma {:induction false} CondKeeps(params: seq<string>, e: Value, args: seq<Value>, sc: Scope, depth: nat, recursion: nat, t: Tally)
    requires WellScoped(sc, depth) && e.Pair? && Items(e.tail) == Some(args) && PlannedForm(params, e, sc, depth) == Some(FCond)
    requires !t.failed && HasRoom(FCond, |args|, t.na)
    ensures Kept(t, PassForm(params, e, FCond, args, sc, depth, recursion, t), 0, recursion + Depth(e) > PLAN_DEPTH)
    decreases e, 0
  {
    hide Pass, PlannedForm, PassClauses;
    PartsAreShallower(e, args);
    FormIsShaped(params, e, FCond, args, sc, depth);
    ClausesKeep(params, e, args, 0, CellStart(t.na), sc, depth, recursion, t.(na := t.na + 2 * |args|));
  }

  lemma {:induction false} CallKeeps(params: seq<string>, e: Value, args: seq<Value>, sc: Scope, depth: nat, recursion: nat, t: Tally)
    requires WellScoped(sc, depth) && e.Pair? && Items(e.tail) == Some(args) && PlannedForm(params, e, sc, depth) == Some(FCall) && !t.failed
    ensures Kept(t, PassForm(params, e, FCall, args, sc, depth, recursion, t), 0, recursion + Depth(e) > PLAN_DEPTH)
    decreases e, 0
  {
    hide Pass, PlannedForm, PassCells;
    PartsAreShallower(e, args);
    FormIsShaped(params, e, FCall, args, sc, depth);
    PassKeeps(params, e.head, sc, depth, recursion + 1, t);
    var head := Pass(params, e.head, sc, depth, recursion + 1, t);
    CellsKeep(params, e, args, 0, CellStart(head.na), sc, depth, recursion, head.(na := head.na + |args|));
  }

  lemma {:induction false} LetKeeps(params: seq<string>, e: Value, args: seq<Value>, sc: Scope, depth: nat, recursion: nat, t: Tally)
    requires WellScoped(sc, depth) && e.Pair? && Items(e.tail) == Some(args) && PlannedForm(params, e, sc, depth) == Some(FLet) && !t.failed
    ensures Kept(t, PassForm(params, e, FLet, args, sc, depth, recursion, t), 0, recursion + Depth(e) > PLAN_DEPTH)
    decreases e, 0
  {
    hide Pass, PlannedForm;
    PartsAreShallower(e, args);
    FormIsShaped(params, e, FLet, args, sc, depth);
    var named := WithLiteral(t, args[0]);
    PassKeeps(params, args[1], sc, depth, recursion + 1, named);
    var bound := Pass(params, args[1], sc, depth, recursion + 1, named);
    PassKeeps(params, args[2], Binding(args[0].name, depth + 1, sc), depth + 1, recursion + 1, bound);
  }

  lemma PartsAreShallower(e: Value, args: seq<Value>)
    requires e.Pair? && Items(e.tail) == Some(args)
    ensures Depth(e.head) < Depth(e) && forall i :: 0 <= i < |args| ==> args[i] < e && Depth(args[i]) < Depth(e)
  {
    forall i | 0 <= i < |args|
      ensures Depth(args[i]) < Depth(e)
    {
      ItemsAreDeeper(e.tail, args[i]);
    }
  }

  lemma {:induction false} PartsKeep(params: seq<string>, e: Value, parts: seq<Value>, i: nat, sc: Scope, depth: nat, recursion: nat, t: Tally)
    requires WellScoped(sc, depth) && Within(parts, e) && i <= |parts| && forall j :: 0 <= j < |parts| ==> Depth(parts[j]) < Depth(e)
    ensures Kept(t, PassParts(params, e, parts, i, sc, depth, recursion, t), 0, recursion + Depth(e) > PLAN_DEPTH)
    decreases e, 0, |parts| - i
  {
    hide Pass;
    if i < |parts| {
      PassKeeps(params, parts[i], sc, depth, recursion + 1, t);
      PartsKeep(params, e, parts, i + 1, sc, depth, recursion, Pass(params, parts[i], sc, depth, recursion + 1, t));
    }
  }

  /** Filling cells from start to end. */
  predicate KeptCells(t: Tally, t': Tally, cells: nat, end: nat, deep: bool) {
    && t.nn <= t'.nn && t.na <= t'.na && t.literals <= t'.literals
    && (t.failed ==> t'.failed) && (t.lost ==> t'.lost) && (InTables(t) ==> InTables(t'))
    && (!t'.failed ==> t'.na + t.nn + cells <= t'.nn + t.na)
    && (t'.lost ==> t.lost || t'.na > PLAN_LIMIT || end > PLAN_LIMIT)
    && (t.na <= PLAN_LIMIT < t'.na || (cells > 0 && end > PLAN_LIMIT) ==> t'.lost)
    && (t'.failed && !t.failed ==> deep || t'.nn >= PLAN_LIMIT || |t'.literals| >= PLAN_LIMIT)
  }

  lemma {:induction false} CellsKeep(params: seq<string>, e: Value, parts: seq<Value>, i: nat, start: nat, sc: Scope, depth: nat, recursion: nat, t: Tally)
    requires WellScoped(sc, depth) && Within(parts, e) && i <= |parts| && forall j :: 0 <= j < |parts| ==> Depth(parts[j]) < Depth(e)
    ensures KeptCells(t, PassCells(params, e, parts, i, start, sc, depth, recursion, t), |parts| - i, start + |parts|, recursion + Depth(e) > PLAN_DEPTH)
    decreases e, 0, |parts| - i
  {
    hide Pass;
    if i < |parts| {
      PassKeeps(params, parts[i], sc, depth, recursion + 1, t);
      CellsKeep(params, e, parts, i + 1, start, sc, depth, recursion, Write(Pass(params, parts[i], sc, depth, recursion + 1, t), start + i));
    }
  }

  lemma {:induction false} ClausesKeep(params: seq<string>, e: Value, clauses: seq<Value>, i: nat, start: nat, sc: Scope, depth: nat, recursion: nat, t: Tally)
    requires WellScoped(sc, depth) && Within(clauses, e) && ClausesAreShaped(clauses) && i <= |clauses|
    requires forall j :: 0 <= j < |clauses| ==> Depth(clauses[j]) < Depth(e)
    ensures KeptCells(t, PassClauses(params, e, clauses, i, start, sc, depth, recursion, t), 2 * (|clauses| - i), start + 2 * |clauses|, recursion + Depth(e) > PLAN_DEPTH)
    decreases e, 0, |clauses| - i
  {
    hide Pass;
    if i < |clauses| {
      var parts := Items(clauses[i]).value;
      ItemsAreDeeper(clauses[i], parts[0]);
      ItemsAreDeeper(clauses[i], parts[1]);
      assert parts[0] < clauses[i] && parts[1] < clauses[i];
      PassKeeps(params, parts[0], sc, depth, recursion + 1, t);
      var test := Write(Pass(params, parts[0], sc, depth, recursion + 1, t), start + 2 * i);
      PassKeeps(params, parts[1], sc, depth, recursion + 1, test);
      var body := Write(Pass(params, parts[1], sc, depth, recursion + 1, test), start + 2 * i + 1);
      ClausesKeep(params, e, clauses, i + 1, start, sc, depth, recursion, body);
    }
  }

  // Writes beyond the table ---------------------------------------------------------------------

  /** Some call finds, after its head, that its arguments do not fit into the auxiliary table. */
  predicate Crowded(params: seq<string>, e: Value, sc: Scope, depth: nat, recursion: nat, t: Tally)
    requires WellScoped(sc, depth)
    decreases e, 3
  {
    if t.failed || recursion >= PLAN_DEPTH || t.nn >= PLAN_LIMIT || !e.Pair? then false
    else
      var form := PlannedForm(params, e, sc, depth);
      form.Some? && HasRoom(form.value, |Items(e.tail).value|, t.na)
      && CrowdedForm(params, e, form.value, Items(e.tail).value, sc, depth, recursion, t.(nn := t.nn + 1))
  }

  predicate CrowdedForm(params: seq<string>, e: Value, form: Form, args: seq<Value>, sc: Scope, depth: nat, recursion: nat, t: Tally)
    requires WellScoped(sc, depth) && e.Pair? && Items(e.tail) == Some(args) && PlannedForm(params, e, sc, depth) == Some(form)
    decreases e, 2
  {
    match form
    case FLet =>
      var named := WithLiteral(t, args[0]);
      || Crowded(params, args[1], sc, depth, recursion + 1, named)
      || Crowded(params, args[2], Binding(args[0].name, depth + 1, sc), depth + 1, recursion + 1, Pass(params, args[1], sc, depth, recursion + 1, named))
    case FCond => CrowdedClauses(params, e, args, 0, CellStart(t.na), sc, depth, recursion, t.(na := t.na + 2 * |args|))
    case FQuote => false
    case FType => CrowdedParts(params, e, args[..1], 0, sc, depth, recursion, t)
    case FCall =>
      var head := Pass(params, e.head, sc, depth, recursion + 1, t);
      || Crowded(params, e.head, sc, depth, recursion + 1, t)
      || head.na + |args| > PLAN_LIMIT
      || CrowdedCells(params, e, args, 0, CellStart(head.na), sc, depth, recursion, head.(na := head.na + |args|))
    case FIf | FAnd | FOr => CrowdedParts(params, e, args, 0, sc, depth, recursion, t)
    case _ => false
  }

  predicate CrowdedParts(params: seq<string>, e: Value, parts: seq<Value>, i: nat, sc: Scope, depth: nat, recursion: nat, t: Tally)
    requires WellScoped(sc, depth) && Within(parts, e) && i <= |parts|
    decreases e, 0, |parts| - i
  {
    i < |parts| && (
      || Crowded(params, parts[i], sc, depth, recursion + 1, t)
      || CrowdedParts(params, e, parts, i + 1, sc, depth, recursion, Pass(params, parts[i], sc, depth, recursion + 1, t)))
  }

  predicate CrowdedCells(params: seq<string>, e: Value, parts: seq<Value>, i: nat, start: nat, sc: Scope, depth: nat, recursion: nat, t: Tally)
    requires WellScoped(sc, depth) && Within(parts, e) && i <= |parts|
    decreases e, 0, |parts| - i
  {
    i < |parts| && (
      var next := Write(Pass(params, parts[i], sc, depth, recursion + 1, t), start + i);
      || Crowded(params, parts[i], sc, depth, recursion + 1, t)
      || CrowdedCells(params, e, parts, i + 1, start, sc, depth, recursion, next))
  }

  predicate CrowdedClauses(params: seq<string>, e: Value, clauses: seq<Value>, i: nat, start: nat, sc: Scope, depth: nat, recursion: nat, t: Tally)
    requires WellScoped(sc, depth) && Within(clauses, e) && ClausesAreShaped(clauses) && i <= |clauses|
    decreases e, 0, |clauses| - i
  {
    i < |clauses| && (
      var parts := Items(clauses[i]).value;
      assert parts[0] < clauses[i] && parts[1] < clauses[i];
      var test := Write(Pass(params, parts[0], sc, depth, recursion + 1, t), start + 2 * i);
      var body := Write(Pass(params, parts[1], sc, depth, recursion + 1, test), start + 2 * i + 1);
      || Crowded(params, parts[0], sc, depth, recursion + 1, t)
      || Crowded(params, parts[1], sc, depth, recursion + 1, test)
      || CrowdedClauses(params, e, clauses, i + 1, start, sc, depth, recursion, body))
  }

  lemma {:induction false} CrowdedExactly(params: seq<string>, e: Value, sc: Scope, depth: nat, recursion: nat, t: Tally)
    requires WellScoped(sc, depth) && t.na <= PLAN_LIMIT
    ensures Crowded(params, e, sc, depth, recursion, t) <==> Pass(params, e, sc, depth, recursion, t).na > PLAN_LIMIT
    decreases e, 3
  {
    hide PassForm, CrowdedForm;
    if !(t.failed || recursion >= PLAN_DEPTH || t.nn >= PLAN_LIMIT) && e.Pair? {
      var form := PlannedForm(params, e, sc, depth);
      if form.Some? && HasRoom(form.value, |Items(e.tail).value|, t.na) {
        FormCrowdedExactly(params, e, form.value, Items(e.tail).value, sc, depth, recursion, t.(nn := t.nn + 1));
      }
    }
  }

  lemma {:induction false} FormCrowdedExactly(params: seq<string>, e: Value, form: Form, args: seq<Value>, sc: Scope, depth: nat, recursion: nat, t: Tally)
    requires WellScoped(sc, depth) && e.Pair? && Items(e.tail) == Some(args) && PlannedForm(params, e, sc, depth) == Some(form)
    requires !t.failed && HasRoom(form, |args|, t.na) && t.na <= PLAN_LIMIT
    ensures CrowdedForm(params, e, form, args, sc, depth, recursion, t) <==> PassForm(params, e, form, args, sc, depth, recursion, t).na > PLAN_LIMIT
    decreases e, 2
  {
    hide Pass, Crowded, PlannedForm, PassParts, PassCells, PassClauses, CrowdedParts, CrowdedCells, CrowdedClauses;
    PartsAreShallower(e, args);
    FormIsShaped(params, e, form, args, sc, depth);
    match form
    case FLet =>
      var named := WithLiteral(t, args[0]);
      CrowdedExactly(params, args[1], sc, depth, recursion + 1, named);
      var bound := Pass(params, args[1], sc, depth, recursion + 1, named);
      PassKeeps(params, args[2], Binding(args[0].name, depth + 1, sc), depth + 1, recursion + 1, bound);
      if bound.na <= PLAN_LIMIT {
        CrowdedExactly(params, args[2], Binding(args[0].name, depth + 1, sc), depth + 1, recursion + 1, bound);
      }
    case FCond => ClausesCrowdedExactly(params, e, args, 0, CellStart(t.na), sc, depth, recursion, t.(na := t.na + 2 * |args|));
    case FQuote =>
    case FType => PartsCrowdedExactly(params, e, args[..1], 0, sc, depth, recursion, t);
    case FCall =>
      CrowdedExactly(params, e.head, sc, depth, recursion + 1, t);
      var head := Pass(params, e.head, sc, depth, recursion + 1, t);
      var reserved := head.(na := head.na + |args|);
      CellsKeep(params, e, args, 0, CellStart(head.na), sc, depth, recursion, reserved);
      if reserved.na <= PLAN_LIMIT {
        CellsCrowdedExactly(params, e, args, 0, CellStart(head.na), sc, depth, recursion, reserved);
      }
    case FIf | FAnd | FOr => PartsCrowdedExactly(params, e, args, 0, sc, depth, recursion, t);
    case _ =>
  }

  lemma {:induction false} PartsCrowdedExactly(params: seq<string>, e: Value, parts: seq<Value>, i: nat, sc: Scope, depth: nat, recursion: nat, t: Tally)
    requires WellScoped(sc, depth) && Within(parts, e) && i <= |parts| && t.na <= PLAN_LIMIT && forall j :: 0 <= j < |parts| ==> Depth(parts[j]) < Depth(e)
    ensures CrowdedParts(params, e, parts, i, sc, depth, recursion, t) <==> PassParts(params, e, parts, i, sc, depth, recursion, t).na > PLAN_LIMIT
    decreases e, 0, |parts| - i
  {
    hide Pass, Crowded;
    if i < |parts| {
      CrowdedExactly(params, parts[i], sc, depth, recursion + 1, t);
      var next := Pass(params, parts[i], sc, depth, recursion + 1, t);
      PartsKeep(params, e, parts, i + 1, sc, depth, recursion, next);
      if next.na <= PLAN_LIMIT {
        PartsCrowdedExactly(params, e, parts, i + 1, sc, depth, recursion, next);
      }
    }
  }

  lemma {:induction false} CellsCrowdedExactly(params: seq<string>, e: Value, parts: seq<Value>, i: nat, start: nat, sc: Scope, depth: nat, recursion: nat, t: Tally)
    requires WellScoped(sc, depth) && Within(parts, e) && i <= |parts| && t.na <= PLAN_LIMIT && forall j :: 0 <= j < |parts| ==> Depth(parts[j]) < Depth(e)
    ensures CrowdedCells(params, e, parts, i, start, sc, depth, recursion, t) <==> PassCells(params, e, parts, i, start, sc, depth, recursion, t).na > PLAN_LIMIT
    decreases e, 0, |parts| - i
  {
    hide Pass, Crowded;
    if i < |parts| {
      CrowdedExactly(params, parts[i], sc, depth, recursion + 1, t);
      var next := Write(Pass(params, parts[i], sc, depth, recursion + 1, t), start + i);
      CellsKeep(params, e, parts, i + 1, start, sc, depth, recursion, next);
      if next.na <= PLAN_LIMIT {
        CellsCrowdedExactly(params, e, parts, i + 1, start, sc, depth, recursion, next);
      }
    }
  }

  lemma {:induction false} ClausesCrowdedExactly(params: seq<string>, e: Value, clauses: seq<Value>, i: nat, start: nat, sc: Scope, depth: nat, recursion: nat, t: Tally)
    requires WellScoped(sc, depth) && Within(clauses, e) && ClausesAreShaped(clauses) && i <= |clauses| && t.na <= PLAN_LIMIT
    requires forall j :: 0 <= j < |clauses| ==> Depth(clauses[j]) < Depth(e)
    ensures CrowdedClauses(params, e, clauses, i, start, sc, depth, recursion, t) <==> PassClauses(params, e, clauses, i, start, sc, depth, recursion, t).na > PLAN_LIMIT
    decreases e, 0, |clauses| - i
  {
    hide Pass, Crowded;
    if i < |clauses| {
      var parts := Items(clauses[i]).value;
      assert parts[0] < clauses[i] && parts[1] < clauses[i];
      CrowdedExactly(params, parts[0], sc, depth, recursion + 1, t);
      var test := Write(Pass(params, parts[0], sc, depth, recursion + 1, t), start + 2 * i);
      PassKeeps(params, parts[1], sc, depth, recursion + 1, test);
      if test.na <= PLAN_LIMIT {
        CrowdedExactly(params, parts[1], sc, depth, recursion + 1, test);
      }
      var body := Write(Pass(params, parts[1], sc, depth, recursion + 1, test), start + 2 * i + 1);
      ClausesKeep(params, e, clauses, i + 1, start, sc, depth, recursion, body);
      if body.na <= PLAN_LIMIT {
        ClausesCrowdedExactly(params, e, clauses, i + 1, start, sc, depth, recursion, body);
      }
    }
  }

  /** A build writes beyond its auxiliary table exactly when some call finds, after its head, that
      its arguments do not fit; and then it fails, so the plan is never used. */
  lemma LostExactly(params: seq<string>, body: Value)
    ensures var t := Pass(params, body, Top, 0, 0, START);
      && (t.lost <==> Crowded(params, body, Top, 0, 0, START))
      && (t.lost <==> t.na > PLAN_LIMIT)
      && (t.lost ==> t.failed)
  {
    hide Pass, Crowded;
    PassKeeps(params, body, Top, 0, 0, START);
    CrowdedExactly(params, body, Top, 0, 0, START);
  }

  /** A call whose head is a call, with more arguments in all than the table has cells: the outer
      test passes before the head takes its cells. */
  lemma CallOfCallIsLost(params: seq<string>, body: Value, xs: seq<Value>, ys: seq<Value>)
    requires body.Pair? && Items(body.tail) == Some(ys) && body.head.Pair? && Items(body.head.tail) == Some(xs)
    requires PlannedForm(params, body, Top, 0) == Some(FCall) && PlannedForm(params, body.head, Top, 0) == Some(FCall)
    requires |xs| + |ys| > PLAN_LIMIT
    ensures Pass(params, body, Top, 0, 0, START).lost
  {
    hide PlannedForm, PassCells;
    FormIsShaped(params, body, FCall, ys, Top, 0);
    FormIsShaped(params, body.head, FCall, xs, Top, 0);
    PartsAreShallower(body.head, xs);
    var outer := START.(nn := 1);
    var inner := Pass(params, body.head.head, Top, 0, 2, outer.(nn := 2));
    PassKeeps(params, body.head.head, Top, 0, 2, outer.(nn := 2));
    CellsKeep(params, body.head, xs, 0, CellStart(inner.na), Top, 0, 1, inner.(na := inner.na + |xs|));
    assert Pass(params, body.head, Top, 0, 1, outer) == PassForm(params, body.head, FCall, xs, Top, 0, 1, outer.(nn := 2));
    LostExactly(params, body);
  }

  function Copies(n: nat): Value {
    if n == 0 then Nil else Pair(n, Sym("x"), Copies(n - 1))
  }

  lemma CopiesAreItems(n: nat)
    ensures Items(Copies(n)).Some? && |Items(Copies(n)).value| == n
  {
  }

  /** ((g x ... x) x ... x) with 2100 arguments twice. */
  lemma TwiceTwoThousandIsLost()
    ensures var body := Pair(0, Pair(1, Sym("g"), Copies(2100)), Copies(2100)); Pass([], body, Top, 0, 0, START).lost
  {
    hide Copies, Pass;
    CopiesAreItems(2100);
    var body := Pair(0, Pair(1, Sym("g"), Copies(2100)), Copies(2100));
    CallOfCallIsLost([], body, Items(Copies(2100)).value, Items(Copies(2100)).value);
  }
}
