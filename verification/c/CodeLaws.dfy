/** How generated code runs, told statement by statement on lists of statements. */
module CodeLaws {
  import opened Options
  import opened KlSyntax
  import opened NativeCode

  /** A statement that goes on without a pending call is followed by the next one, any other is the
      end. */
  lemma SequenceLaw(c: Code, pr: Prims, s: Stmt, rest: seq<Stmt>, temps: Temps, w: World, fuel: nat)
    requires |rest| > 0
    ensures var f, r := Exec(c, pr, [s], temps, w, fuel), Exec(c, pr, [s] + rest, temps, w, fuel);
      && (f.Go? && f.pending.None? ==> r == Exec(c, pr, rest, f.temps, f.world, fuel))
      && (!f.Go? ==> r == f)
  {
    hide Step;
    assert ([s] + rest)[1..] == rest;
  }

  /** The branch that the test chooses runs, and leaves one temporary behind. */
  lemma IfLaw(c: Code, pr: Prims, t: Temp, test: Temp, error: Value, yes: seq<Stmt>, yesT: Temp, no: seq<Stmt>, noT: Temp, temps: Temps, w: World, fuel: nat)
    requires test in temps
    ensures var r := Exec(c, pr, [If(t, test, error, yes, yesT, no, noT)], temps, w, fuel);
      && (temps[test] == Truth(true) ==> Leaves(t, yesT, Exec(c, pr, yes, temps, w, fuel), temps, r))
      && (temps[test] == Truth(false) ==> Leaves(t, noT, Exec(c, pr, no, temps, w, fuel), temps, r))
      && (!temps[test].Truth? ==> r == End(Result(Thrown(error), w)))
  {
  }

  /** The end of a branch that leaves the value of from in t. */
  ghost predicate Leaves(t: Temp, from: Temp, branch: Flow, temps: Temps, r: Flow) {
    && (!branch.Go? ==> r == branch)
    && (branch.Go? && from in branch.temps ==> r == Go(temps[t := branch.temps[from]], branch.world, branch.pending))
  }

  lemma CheckLaw(c: Code, pr: Prims, test: Temp, error: Value, temps: Temps, w: World, fuel: nat)
    requires test in temps
    ensures Exec(c, pr, [Check(test, error)], temps, w, fuel)
      == if temps[test].Truth? then Go(temps, w, None) else End(Result(Thrown(error), w))
  {
  }

  lemma FailLaw(c: Code, pr: Prims, error: Value, temps: Temps, w: World, fuel: nat)
    ensures Exec(c, pr, [Fail(error)], temps, w, fuel) == End(Result(Thrown(error), w))
  {
  }

  lemma AssignmentIs(c: Code, pr: Prims, t: Temp, rhs: Rhs, temps: Temps, w: World, fuel: nat)
    requires AllDefined(temps, Operands(rhs))
    ensures Exec(c, pr, [Set(t, rhs)], temps, w, fuel) == Assign(c, pr, t, rhs, temps, w, fuel)
  {
    hide Assign;
  }

  /** Assignments of values. */
  lemma ValueLaw(c: Code, pr: Prims, t: Temp, v: Value, name: string, from: Temp, temps: Temps, w: World, fuel: nat)
    ensures Exec(c, pr, [Set(t, Literal(v))], temps, w, fuel) == Go(temps[t := v], w, None)
    ensures Exec(c, pr, [Set(t, Intern(name))], temps, w, fuel) == Go(temps[t := Symbol(name)], w, None)
    ensures from in temps ==> Exec(c, pr, [Set(t, Move(from))], temps, w, fuel) == Go(temps[t := temps[from]], w, None)
  {
    AssignmentIs(c, pr, t, Literal(v), temps, w, fuel);
    AssignmentIs(c, pr, t, Intern(name), temps, w, fuel);
    if from in temps {
      AssignmentIs(c, pr, t, Move(from), temps, w, fuel);
    }
  }

  /** The temporaries hold these values. */
  ghost predicate Hold(temps: Temps, ts: seq<Temp>, vs: seq<Value>) {
    |ts| == |vs| && forall i :: 0 <= i < |ts| ==> ts[i] in temps && temps[ts[i]] == vs[i]
  }

  /** t gets the value, or the run ends with the error. */
  ghost predicate Stores(t: Temp, result: Result, temps: Temps, r: Flow) {
    r == if result.outcome.Done? then Go(temps[t := result.outcome.value], result.world, None) else End(result)
  }

  lemma HeldValues(temps: Temps, ts: seq<Temp>, vs: seq<Value>)
    requires Hold(temps, ts, vs)
    ensures AllDefined(temps, ts) && Values(temps, ts) == vs
  {
  }

  /** Calls by name and through a value, and primitives called in place. */
  lemma CallLaw(c: Code, pr: Prims, t: Temp, name: string, head: Temp, args: seq<Temp>, vs: seq<Value>, temps: Temps, w: World, fuel: nat)
    requires Hold(temps, args, vs) && head in temps && fuel > 0
    ensures Stores(t, Apply(c, pr, Symbol(name), vs, w, fuel), temps, Exec(c, pr, [Set(t, Direct(name, args))], temps, w, fuel))
    ensures Stores(t, Apply(c, pr, temps[head], vs, w, fuel), temps, Exec(c, pr, [Set(t, Indirect(head, args))], temps, w, fuel))
    ensures Stores(t, pr(name, vs, w), temps, Exec(c, pr, [Set(t, Inline(name, args))], temps, w, fuel))
  {
    hide Apply;
    HeldValues(temps, args, vs);
    HeldValues(temps, [head] + args, [temps[head]] + vs);
    assert ([temps[head]] + vs)[1..] == vs;
    AssignmentIs(c, pr, t, Indirect(head, args), temps, w, fuel);
    AssignmentIs(c, pr, t, Direct(name, args), temps, w, fuel);
    AssignmentIs(c, pr, t, Inline(name, args), temps, w, fuel);
  }

  /** A generated function with a body that ends without a pending call gives the value of its result; a
      tail call at the end is made by the trampoline, and a jump starts the body again. */
  lemma BodyLaw(c: Code, pr: Prims, f: Function, temps: Temps, w: World, fuel: nat)
    ensures var flow, r := Exec(c, pr, f.body, temps, w, fuel), Loop(c, pr, f, temps, w, fuel);
      match flow
      case End(e) => r == e
      case Jump(temps', w') => fuel > 0 ==> r == Loop(c, pr, f, temps', w', fuel - 1)
      case Go(temps', w', pending) =>
        && (pending.Some? ==> r == Apply(c, pr, pending.value.f, pending.value.args, w', fuel))
        && (pending.None? && f.result in temps' ==> r == Result(Done(temps'[f.result]), w'))
  {
    hide Exec, Apply;
  }

  lemma TailCallLaw(c: Code, pr: Prims, t: Temp, name: string, head: Temp, args: seq<Temp>, vs: seq<Value>, temps: Temps, w: World, fuel: nat)
    requires Hold(temps, args, vs) && head in temps
    ensures Exec(c, pr, [Set(t, TailDirect(name, args))], temps, w, fuel) == Go(temps[t := Null], w, Some(Pending(Symbol(name), vs)))
    ensures Exec(c, pr, [Set(t, TailIndirect(head, args))], temps, w, fuel) == Go(temps[t := Null], w, Some(Pending(temps[head], vs)))
  {
    HeldValues(temps, args, vs);
    HeldValues(temps, [head] + args, [temps[head]] + vs);
    assert ([temps[head]] + vs)[1..] == vs;
    AssignmentIs(c, pr, t, TailDirect(name, args), temps, w, fuel);
    AssignmentIs(c, pr, t, TailIndirect(head, args), temps, w, fuel);
  }

  lemma GotoLaw(c: Code, pr: Prims, temps: Temps, w: World, fuel: nat)
    ensures Exec(c, pr, [Goto], temps, w, fuel) == Jump(temps, w)
  {
  }

  /** A closure keeps the values that it captures; called with its arguments it runs its function on
      both. */
  lemma ClosureLaw(c: Code, pr: Prims, t: Temp, id: nat, captures: seq<Temp>, kept: seq<Value>, vs: seq<Value>, temps: Temps, w: World, fuel: nat, w': World, fuel': nat)
    requires Hold(temps, captures, kept) && id in c.lambdas && fuel' > 0
    ensures var r := Exec(c, pr, [Set(t, MakeClosure(id, |vs|, captures))], temps, w, fuel);
      && r.Go? && r.world == w && r.pending.None? && t in r.temps
      && Apply(c, pr, r.temps[t], vs, w', fuel') == Call(c, pr, c.lambdas[id], kept, vs, w', fuel' - 1)
  {
    hide Call;
    HeldValues(temps, captures, kept);
    var closure := NativeClosure(id, |vs|, kept);
    AssignmentIs(c, pr, t, MakeClosure(id, |vs|, captures), temps, w, fuel);
    assert Exec(c, pr, [Set(t, MakeClosure(id, |vs|, captures))], temps, w, fuel) == Go(temps[t := closure], w, None);
    assert Apply(c, pr, closure, vs, w', fuel') == Enter(c, pr, closure, vs, w', fuel');
  }

  /** The body of a trap-error runs on the captures, and after an error the handler on the captures and
      the error. */
  lemma TrapLaw(c: Code, pr: Prims, t: Temp, id: nat, captures: seq<Temp>, kept: seq<Value>, temps: Temps, w: World, fuel: nat)
    requires Hold(temps, captures, kept) && id in c.bodies && id in c.handlers && fuel > 0
    ensures var b := Call(c, pr, c.bodies[id], kept, [], w, fuel - 1);
      var r := Exec(c, pr, [Set(t, Trap(id, captures))], temps, w, fuel);
      && (!b.outcome.Thrown? ==> Stores(t, b, temps, r))
      && (b.outcome.Thrown? ==> Stores(t, Call(c, pr, c.handlers[id], kept, [b.outcome.error], b.world, fuel - 1), temps, r))
  {
    hide Call;
    HeldValues(temps, captures, kept);
    AssignmentIs(c, pr, t, Trap(id, captures), temps, w, fuel);
    assert Assign(c, pr, t, Trap(id, captures), temps, w, fuel) == Give(t, TrapError(c, pr, id, kept, w, fuel), temps);
  }

  /** A call starts with the captures and the arguments in the temporaries of the function. */
  lemma {:induction false} EntryLaw(temps: Temps, ts: seq<Temp>, vs: seq<Value>)
    requires |ts| == |vs| && forall i, j :: 0 <= i < j < |ts| ==> ts[i] != ts[j]
    ensures Hold(Store(temps, ts, vs), ts, vs)
    ensures forall t :: t in temps && t !in ts ==> t in Store(temps, ts, vs) && Store(temps, ts, vs)[t] == temps[t]
    decreases |ts|
  {
    if |ts| > 0 {
      var temps1 := temps[ts[0] := vs[0]];
      EntryLaw(temps1, ts[1..], vs[1..]);
      assert forall i :: 0 < i < |ts| ==> ts[i] == ts[1..][i - 1];
      assert ts[0] in temps1 && ts[0] !in ts[1..];
    }
  }

  lemma CallEntersLaw(c: Code, pr: Prims, f: Function, kept: seq<Value>, vs: seq<Value>, w: World, fuel: nat)
    requires |kept| == |f.captures| && |vs| == |f.params|
    requires forall i, j :: 0 <= i < j < |f.captures + f.params| ==> (f.captures + f.params)[i] != (f.captures + f.params)[j]
    ensures exists temps ::
      Hold(temps, f.captures, kept) && Hold(temps, f.params, vs) && Call(c, pr, f, kept, vs, w, fuel) == Loop(c, pr, f, temps, w, fuel)
  {
    hide Loop;
    var all := f.captures + f.params;
    assert forall i :: 0 <= i < |f.captures| ==> f.captures[i] == all[i];
    assert forall i :: 0 <= i < |f.params| ==> f.params[i] == all[|f.captures| + i];
    var temps := Store(map[], f.captures, kept);
    EntryLaw(map[], f.captures, kept);
    EntryLaw(temps, f.params, vs);
    assert forall i :: 0 <= i < |f.captures| ==> f.captures[i] !in f.params;
    assert Hold(Store(temps, f.params, vs), f.captures, kept);
  }
}
