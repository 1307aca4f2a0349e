/** What an application gives, told action by action of the code that runs. The trampoline gives the
    same (Trampoline.Context.Apply). */
module ApplyLaws {
  import opened Options
  import opened DirectApply

  predicate Gives<T(==)>(r: Result<T>, outcome: Outcome<T>, w: World) {
    r.outcome == outcome && r.world == w
  }

  /** The code goes on in world w with one more result. */
  function GoesOn(m: Machine, g: Fun, args: seq<Value>, results: seq<Value>, v: Value, w: World, fuel: nat): Result<Final>
    requires fuel > 0
  {
    Run(m, g, args, results + [v], w, fuel - 1)
  }

  /** The code goes on with the value of r, or ends as r does. */
  ghost predicate Follows(m: Machine, g: Fun, args: seq<Value>, results: seq<Value>, r: Result<Value>, fuel: nat, end: Result<Final>)
    requires fuel > 0
  {
    match r.outcome
    case Done(v) => Gives(end, GoesOn(m, g, args, results, v, r.world, fuel).outcome, GoesOn(m, g, args, results, v, r.world, fuel).world)
    case Thrown(e) => Gives(end, Thrown(e), r.world)
    case Exhausted => Gives(end, Exhausted, r.world)
  }

  lemma ReturnLaw(m: Machine, g: Fun, args: seq<Value>, results: seq<Value>, v: Value, w: World, fuel: nat)
    requires fuel > 0 && m.code(g, args, results) == Return(v)
    ensures Gives(Run(m, g, args, results, w, fuel), Done(Finished(v)), w)
  {
  }

  lemma ThrowLaw(m: Machine, g: Fun, args: seq<Value>, results: seq<Value>, error: Value, w: World, fuel: nat)
    requires fuel > 0 && m.code(g, args, results) == Throw(error)
    ensures Gives(Run(m, g, args, results, w, fuel), Thrown(error), w)
  {
  }

  lemma EffectLaw(m: Machine, g: Fun, args: seq<Value>, results: seq<Value>, op: nat, w: World, fuel: nat)
    requires fuel > 0 && m.code(g, args, results) == Effect(op)
    ensures var (v, w') := m.effect(w, op);
      Follows(m, g, args, results, Result(Done(v), w', 0, 1), fuel, Run(m, g, args, results, w, fuel))
  {
  }

  /** A call has the value of an application of its own. */
  lemma CallLaw(m: Machine, g: Fun, args: seq<Value>, results: seq<Value>, f: Value, bs: seq<Value>, w: World, fuel: nat)
    requires fuel > 0 && m.code(g, args, results) == Call(f, bs)
    ensures Follows(m, g, args, results, Direct(m, f, bs, w, fuel - 1), fuel, Run(m, g, args, results, w, fuel))
  {
    hide Direct;
    var p := Perform(m, Call(f, bs), w, fuel);
    assert p == Deeper(Direct(m, f, bs, w, fuel - 1));
    assert Run(m, g, args, results, w, fuel) == Resume(m, g, args, results, p, fuel);
  }

  /** A trapped body that ends is the value; one that throws gives its error to the handler, in front of
      the data that the body had, and without a handler the error is the value. */
  lemma TrapLaw(m: Machine, g: Fun, args: seq<Value>, results: seq<Value>, body: nat, handler: Option<nat>, data: seq<Value>, w: World, fuel: nat)
    requires fuel > 0 && m.code(g, args, results) == Trap(body, handler, data)
    ensures var b, r := Run(m, Walked(body, |data|, []), data, [], w, fuel - 1), Run(m, g, args, results, w, fuel);
      && (b.outcome.Exhausted? ==> Gives(r, Exhausted, b.world))
      && (b.outcome.Done? ==> Follows(m, g, args, results, Result(Done(b.outcome.value.v), b.world, 0, 1), fuel, r))
      && (b.outcome.Thrown? && handler.None? ==> Follows(m, g, args, results, Result(Done(b.outcome.error), b.world, 0, 1), fuel, r))
      && (b.outcome.Thrown? && handler.Some? ==>
            var h := Run(m, Walked(handler.value, 1 + |data|, []), [b.outcome.error] + data, [], b.world, fuel - 1);
            Follows(m, g, args, results, Valued(h), fuel, r))
  {
    hide Run, Direct;
    var p := Perform(m, Trap(body, handler, data), w, fuel);
    TrapResumes(m, g, args, results, body, handler, data, w, fuel);
    assert p == Guarded(m, body, handler, data, w, fuel);
    GuardedGives(m, body, handler, data, w, fuel);
    ResumeFollows(m, g, args, results, p, fuel);
  }

  /** The code of a walked function ends with a value. */
  function Valued(r: Result<Final>): Result<Value>
    requires r.outcome.Done? ==> r.outcome.value.Finished?
  {
    match r.outcome
    case Done(v) => Result(Done(v.v), r.world, 0, 1)
    case Thrown(e) => Result(Thrown(e), r.world, 0, 1)
    case Exhausted => Result(Exhausted, r.world, 0, 1)
  }

  lemma TrapResumes(m: Machine, g: Fun, args: seq<Value>, results: seq<Value>, body: nat, handler: Option<nat>, data: seq<Value>, w: World, fuel: nat)
    requires fuel > 0 && m.code(g, args, results) == Trap(body, handler, data)
    ensures Run(m, g, args, results, w, fuel) == Resume(m, g, args, results, Perform(m, Trap(body, handler, data), w, fuel), fuel)
  {
    hide Resume, Perform;
  }

  lemma GuardedGives(m: Machine, body: nat, handler: Option<nat>, data: seq<Value>, w: World, fuel: nat)
    requires fuel > 0
    ensures var b, r := Run(m, Walked(body, |data|, []), data, [], w, fuel - 1), Guarded(m, body, handler, data, w, fuel);
      && (b.outcome.Exhausted? ==> Gives(r, Exhausted, b.world))
      && (b.outcome.Done? ==> Gives(r, Done(b.outcome.value.v), b.world))
      && (b.outcome.Thrown? && handler.None? ==> Gives(r, Done(b.outcome.error), b.world))
      && (b.outcome.Thrown? && handler.Some? ==>
            var h := Run(m, Walked(handler.value, 1 + |data|, []), [b.outcome.error] + data, [], b.world, fuel - 1);
            Gives(r, Valued(h).outcome, h.world))
  {
    hide Run;
  }

  lemma ResumeFollows(m: Machine, g: Fun, args: seq<Value>, results: seq<Value>, r: Result<Value>, fuel: nat)
    requires fuel > 0 && r.nesting >= 1
    ensures Follows(m, g, args, results, r, fuel, Resume(m, g, args, results, r, fuel))
  {
    hide Run;
  }

  // Applications --------------------------------------------------------------------------------

  /** A function applied to its number of arguments runs its code; if that ends in a tail call, the
      application is that call. */
  lemma NativeLaw(m: Machine, g: Fun, args: seq<Value>, w: World, fuel: nat)
    requires g.Native? && |args| == g.arity && fuel > 0
    ensures var b, r := Run(m, g, args, [], w, fuel), Direct(m, Function(g), args, w, fuel);
      && (b.outcome.Exhausted? ==> Gives(r, Exhausted, b.world))
      && (b.outcome.Thrown? ==> Gives(r, Thrown(b.outcome.error), b.world))
      && (b.outcome.Done? && b.outcome.value.Finished? ==> Gives(r, Done(b.outcome.value.v), b.world))
      && (b.outcome.Done? && b.outcome.value.Tail? ==>
            var t := Direct(m, b.outcome.value.f, b.outcome.value.args, b.world, b.left);
            Gives(r, t.outcome, t.world))
  {
    hide Run;
    assert Dispatch(m, Function(g), args, w, fuel) == Exact(m, g, args, w, fuel) == Run(m, g, args, [], w, fuel);
  }

  /** A tail call at the end of native code is left pending; walked code applies it and returns. */
  lemma TailLaw(m: Machine, g: Fun, args: seq<Value>, results: seq<Value>, f: Value, bs: seq<Value>, w: World, fuel: nat)
    requires fuel > 0 && m.code(g, args, results) == TailCall(f, bs)
    ensures g.Native? ==> Gives(Run(m, g, args, results, w, fuel), Done(Tail(f, bs)), w)
    ensures !g.Native? ==>
      var t, r := Direct(m, f, bs, w, fuel - 1), Run(m, g, args, results, w, fuel);
      Gives(r, match t.outcome case Done(v) => Done(Finished(v)) case Thrown(e) => Thrown(e) case Exhausted => Exhausted, t.world)
  {
    hide Direct;
  }

  /** A symbol stands for the function in the table. */
  lemma SymbolLaw(m: Machine, id: nat, args: seq<Value>, w: World, fuel: nat)
    requires fuel > 0
    ensures id in w.funs ==> Direct(m, Symbol(id), args, w, fuel) == Direct(m, Function(w.funs[id]), args, w, fuel)
    ensures id !in w.funs ==> Gives(Direct(m, Symbol(id), args, w, fuel), Thrown(NOT_APPLICABLE), w)
  {
    hide Exact, Surplus;
  }
}
