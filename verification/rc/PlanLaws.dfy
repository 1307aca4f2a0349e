/** The laws of EvalLaws hold of plans: what a node gives, told from what it stands for. */
module PlanLaws {
  import opened Options
  import opened RcValue
  import opened Evaluator
  import opened EvalLaws
  import opened EvalPlan
  import opened PlanCorrect

  /** Node id of a plan stands for e, in a run that has entered the lets l. */
  ghost predicate Stands(rt: Runtime, run: Run, notes: seq<Note>, id: nat, l: Locals, e: Value) {
    Runnable(rt, run) && AllFaithful(run.code, notes, 0, 0) && Fits(notes, id, l) && notes[id].e == e
  }

  lemma NodeIsEval(rt: Runtime, run: Run, notes: seq<Note>, id: nat, l: Locals, e: Value, h: History, tail: bool)
    requires Stands(rt, run, notes, id, l, e)
    ensures WellFormed(run.code, id, Height(l)) && Exec(rt, run, h, id, l, tail) == Eval(rt, h, e, Materialize(run, l), tail)
  {
    MeaningPreserved(rt, run, notes, id, l);
  }

  /** A tail call of a function that returns its second argument: an accepted first argument makes the
      second one the answer, without a call; any other makes it the call on both. */
  lemma PlanSecondLaw(rt: Runtime, run: Run, notes: seq<Note>, id: nat, l: Locals, e: Value, head: Value, a: Value, b: Value, h: History, f: Value, h1: History)
    requires Stands(rt, run, notes, id, l, e) && IsCall(e, head, [a, b], Materialize(run, l))
    requires Finds(rt, h, head, Materialize(run, l), f, h1) && rt.returnsSecond(h1, f)
    ensures WellFormed(run.code, id, Height(l))
    ensures var env := Materialize(run, l);
      var first, o := Eval(rt, h1, a, env, false), Exec(rt, run, h, id, l, true);
      && (first.Failed? ==> o == first)
      && (first.Done? && rt.accepts(first.history, f, first.value) ==> EndsSecond(rt, Eval(rt, first.history, b, env, true), o))
      && (first.Done? && !rt.accepts(first.history, f, first.value) ==>
            var second := Eval(rt, first.history, b, env, false);
            && (second.Failed? ==> o == second)
            && (second.Done? ==> IsCallOf(rt, second.history, f, [first.value, second.value], true, o)))
  {
    hide Eval, Exec, AllFaithful, Fits, IsCall, Finds, EndsSecond, IsCallOf;
    NodeIsEval(rt, run, notes, id, l, e, h, true);
    SecondLaw(rt, h, e, head, a, b, Materialize(run, l), f, h1);
  }

  /** The right operand of and and or is checked. */
  lemma PlanAndLaw(rt: Runtime, run: Run, notes: seq<Note>, id: nat, l: Locals, e: Value, left: Value, right: Value, h: History, tail: bool)
    requires Stands(rt, run, notes, id, l, e) && IsForm(e, "and", [left, right], Materialize(run, l))
    ensures WellFormed(run.code, id, Height(l))
    ensures var env := Materialize(run, l);
      var first, o := Eval(rt, h, left, env, false), Exec(rt, run, h, id, l, tail);
      && (first.Failed? || first.value == Sym("false") ==> o == first)
      && (first.Done? && first.value == Sym("true") ==> Checked(rt, Eval(rt, first.history, right, env, tail), o))
      && (first.Done? && first.value !in {Sym("true"), Sym("false")} ==> o == Failed(BooleanArguments, first.history))
  {
    hide Eval, Exec, AllFaithful, Fits, IsForm, Checked;
    NodeIsEval(rt, run, notes, id, l, e, h, tail);
    AndLaw(rt, h, e, left, right, Materialize(run, l), tail);
  }

  lemma PlanOrLaw(rt: Runtime, run: Run, notes: seq<Note>, id: nat, l: Locals, e: Value, left: Value, right: Value, h: History, tail: bool)
    requires Stands(rt, run, notes, id, l, e) && IsForm(e, "or", [left, right], Materialize(run, l))
    ensures WellFormed(run.code, id, Height(l))
    ensures var env := Materialize(run, l);
      var first, o := Eval(rt, h, left, env, false), Exec(rt, run, h, id, l, tail);
      && (first.Failed? || first.value == Sym("true") ==> o == first)
      && (first.Done? && first.value == Sym("false") ==> Checked(rt, Eval(rt, first.history, right, env, tail), o))
      && (first.Done? && first.value !in {Sym("true"), Sym("false")} ==> o == Failed(BooleanArguments, first.history))
  {
    hide Eval, Exec, AllFaithful, Fits, IsForm, Checked;
    NodeIsEval(rt, run, notes, id, l, e, h, tail);
    OrLaw(rt, h, e, left, right, Materialize(run, l), tail);
  }

  /** The test of an if decides. */
  lemma PlanIfLaw(rt: Runtime, run: Run, notes: seq<Note>, id: nat, l: Locals, e: Value, test: Value, yes: Value, no: Value, h: History, tail: bool)
    requires Stands(rt, run, notes, id, l, e) && IsForm(e, "if", [test, yes, no], Materialize(run, l))
    ensures WellFormed(run.code, id, Height(l))
    ensures var env := Materialize(run, l);
      var t, o := Eval(rt, h, test, env, false), Exec(rt, run, h, id, l, tail);
      && (t.Failed? ==> o == t)
      && (t.Done? && t.value == Sym("true") ==> o == Eval(rt, t.history, yes, env, tail))
      && (t.Done? && t.value == Sym("false") ==> o == Eval(rt, t.history, no, env, tail))
      && (t.Done? && t.value !in {Sym("true"), Sym("false")} ==> o == Failed(IfTest, t.history))
  {
    hide Eval, Exec, AllFaithful, Fits, IsForm;
    NodeIsEval(rt, run, notes, id, l, e, h, tail);
    IfLaw(rt, h, e, test, yes, no, Materialize(run, l), tail);
  }
}
