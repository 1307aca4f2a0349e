/** Facts about running generated statements, and about scopes, that hold whatever they compute. */
module NativeSteps {
  import opened Options
  import opened KlSyntax
  import opened KlMeaning
  import opened NativeCode
  import opened Emission
  import opened Acceptance
  import opened NativeRelation

  /** Statements one after the other; nothing may follow a pending tail call. */
  lemma {:induction false} ExecConcat(c: Code, pr: Prims, a: seq<Stmt>, b: seq<Stmt>, temps: Temps, w: World, fuel: nat)
    ensures var f := Exec(c, pr, a, temps, w, fuel);
      Exec(c, pr, a + b, temps, w, fuel) ==
        (if !f.Go? || |b| == 0 then f
         else if f.pending.Some? then Stops(f.world)
         else Exec(c, pr, b, f.temps, f.world, fuel))
    decreases |a|
  {
    hide Step;
    if |a| == 0 {
      assert a + b == b;
    } else {
      assert (a + b)[0] == a[0] && (a + b)[1..] == a[1..] + b;
      if |b| == 0 {
        assert a + b == a;
      }
      var f := Step(c, pr, a[0], temps, w, fuel);
      if f.Go? && f.pending.None? {
        ExecConcat(c, pr, a[1..], b, f.temps, f.world, fuel);
        if |a| == 1 {
          assert a[1..] + b == b;
        }
      }
    }
  }

  lemma ExecOne(c: Code, pr: Prims, s: Stmt, temps: Temps, w: World, fuel: nat)
    ensures Exec(c, pr, [s], temps, w, fuel) == Step(c, pr, s, temps, w, fuel)
  {
  }

  lemma StepKeys(c: Code, pr: Prims, s: Stmt, temps: Temps, w: World, fuel: nat)
    ensures var f := Step(c, pr, s, temps, w, fuel);
      f.Go? ==> AfterOne(s, temps.Keys) <= f.temps.Keys
  {
    hide NativeCode.Apply, TrapError, Exec;
    var f := Step(c, pr, s, temps, w, fuel);
    if f.Go? && s.Set? {
      assert f == Assign(c, pr, s.t, s.rhs, temps, w, fuel);
      assert f.temps == temps[s.t := f.temps[s.t]];
    } else if f.Go? && s.If? {
      assert f.temps.Keys == temps.Keys + {s.t};
    }
  }

  /** What is declared is defined. */
  lemma {:induction false} ExecKeys(c: Code, pr: Prims, stmts: seq<Stmt>, temps: Temps, w: World, fuel: nat)
    ensures var f := Exec(c, pr, stmts, temps, w, fuel);
      f.Go? ==> After(stmts, temps.Keys) <= f.temps.Keys
    decreases |stmts|
  {
    if |stmts| > 0 {
      var f := Step(c, pr, stmts[0], temps, w, fuel);
      if f.Go? {
        StepKeys(c, pr, stmts[0], temps, w, fuel);
        if |stmts| == 1 {
          assert stmts[1..] == [];
        } else if f.pending.None? {
          ExecKeys(c, pr, stmts[1..], f.temps, f.world, fuel);
          AcceptedForMore(stmts[1..], AfterOne(stmts[0], temps.Keys), f.temps.Keys);
        }
      }
    }
  }

  /** More temporaries in scope do no harm. */
  lemma {:induction false} AcceptedForMore(stmts: seq<Stmt>, d: set<Temp>, d': set<Temp>)
    requires d <= d'
    ensures After(stmts, d) <= After(stmts, d') && (Accepted(stmts, d) ==> Accepted(stmts, d'))
    decreases stmts
  {
    if |stmts| > 0 {
      AcceptedForMore(stmts[1..], AfterOne(stmts[0], d), AfterOne(stmts[0], d'));
      if AcceptedOne(stmts[0], d) {
        AcceptedOneForMore(stmts[0], d, d');
      }
    }
  }

  lemma {:induction false} AcceptedOneForMore(s: Stmt, d: set<Temp>, d': set<Temp>)
    requires d <= d' && AcceptedOne(s, d)
    ensures AcceptedOne(s, d')
    decreases s
  {
    if s.If? {
      AcceptedForMore(s.yes, d, d');
      AcceptedForMore(s.no, d, d');
    }
  }

  /** The second part of accepted statements is accepted where the first part ends. */
  lemma RunFirst(c: Code, pr: Prims, a: seq<Stmt>, b: seq<Stmt>, temps: Temps, w: World, fuel: nat)
    requires Accepted(a + b, temps.Keys)
    ensures Accepted(a, temps.Keys)
    ensures var f := Exec(c, pr, a, temps, w, fuel);
      && (f.Go? ==> Accepted(b, f.temps.Keys) && After(a, temps.Keys) <= f.temps.Keys)
      && Exec(c, pr, a + b, temps, w, fuel) ==
           (if !f.Go? || |b| == 0 then f
            else if f.pending.Some? then Stops(f.world)
            else Exec(c, pr, b, f.temps, f.world, fuel))
  {
    hide Exec, Accepted, After;
    AfterConcat(a, b, temps.Keys);
    ExecConcat(c, pr, a, b, temps, w, fuel);
    ExecKeys(c, pr, a, temps, w, fuel);
    var f := Exec(c, pr, a, temps, w, fuel);
    if f.Go? {
      AcceptedForMore(b, After(a, temps.Keys), f.temps.Keys);
    }
  }

  // Scopes --------------------------------------------------------------------------------------

  lemma {:induction false} TempOfIsBound(binds: seq<Bound>, name: string) returns (i: nat)
    requires TempOf(binds, name).Some?
    ensures i < |binds| && binds[i].name == name && TempOf(binds, name).value == binds[i].temp
    ensures forall j :: i < j < |binds| ==> binds[j].name != name
  {
    if binds[|binds| - 1].name == name {
      i := |binds| - 1;
    } else {
      i := TempOfIsBound(binds[..|binds| - 1], name);
    }
  }

  lemma {:induction false} TempOfLast(binds: seq<Bound>, i: nat, name: string)
    requires i < |binds| && binds[i].name == name && forall j :: i < j < |binds| ==> binds[j].name != name
    ensures TempOf(binds, name) == Some(binds[i].temp)
  {
    if i < |binds| - 1 {
      TempOfLast(binds[..|binds| - 1], i, name);
    }
  }

  lemma {:induction false} TempOfNone(binds: seq<Bound>, name: string)
    ensures TempOf(binds, name).None? <==> forall j :: 0 <= j < |binds| ==> binds[j].name != name
  {
    if |binds| > 0 {
      TempOfNone(binds[..|binds| - 1], name);
    }
  }

  lemma {:induction false} PositionIsLast(env: seq<Binding>, name: string)
    ensures var i := Position(env, name);
      (i < |env| ==> env[i].name == name && forall j :: i < j < |env| ==> env[j].name != name)
      && (i == |env| ==> forall j :: 0 <= j < |env| ==> env[j].name != name)
  {
    if |env| > 0 && env[|env| - 1].name != name {
      PositionIsLast(env[..|env| - 1], name);
    }
  }

  lemma MatchesLater(b: Build, env: seq<Binding>, binds: seq<Bound>, temps: Temps, temps': Temps, n: nat)
    requires Matches(b, env, binds, temps) && Below(binds, n) && Kept(temps, temps', n)
    ensures Matches(b, env, binds, temps')
  {
    forall name | TempOf(binds, name).Some? && TempOf(binds, name).value in temps'
      ensures Rel(b, ValueOf(env, name).value, temps'[TempOf(binds, name).value])
    {
      var i := TempOfIsBound(binds, name);
      assert binds[i].temp == T(binds[i].temp.n);
    }
  }

  /** A let: one more name, bound to the temporary of its value. */
  lemma MatchesLet(b: Build, env: seq<Binding>, binds: seq<Bound>, temps: Temps, name: string, v: Value, t: Temp)
    requires Matches(b, env, binds, temps) && (t in temps ==> Rel(b, v, temps[t]))
    ensures Matches(b, env + [Binding(name, v)], binds + [Bound(name, t)], temps)
  {
    hide Rel;
    var env', binds' := env + [Binding(name, v)], binds + [Bound(name, t)];
    assert binds'[..|binds|] == binds;
    forall other
      ensures ValueOf(env', other).Some? <==> TempOf(binds', other).Some?
      ensures TempOf(binds', other).Some? && TempOf(binds', other).value in temps
        ==> Rel(b, ValueOf(env', other).value, temps[TempOf(binds', other).value])
    {
      ValueOfLast(env, Binding(name, v), other);
    }
  }

  lemma KeptTwice(t0: Temps, t1: Temps, t2: Temps, n: nat, n1: nat)
    requires Kept(t0, t1, n) && Kept(t1, t2, n1) && n <= n1
    ensures Kept(t0, t2, n)
  {
  }

  lemma KeptSet(temps: Temps, temps': Temps, n: nat, m: nat, v: Value)
    requires Kept(temps, temps', n) && m >= n
    ensures Kept(temps, temps'[T(m) := v], n)
  {
  }

  // Storing arguments ---------------------------------------------------------------------------

  ghost predicate Distinct(ts: seq<Temp>) {
    forall i, j :: 0 <= i < j < |ts| ==> ts[i] != ts[j]
  }

  lemma {:induction false} Stored(temps: Temps, ts: seq<Temp>, values: seq<Value>)
    requires |ts| == |values| && Distinct(ts)
    ensures var r := Store(temps, ts, values);
      && (forall i :: 0 <= i < |ts| ==> ts[i] in r && r[ts[i]] == values[i])
      && (forall t :: t !in ts ==> (t in r <==> t in temps) && (t in r ==> r[t] == temps[t]))
    decreases |ts|
  {
    if |ts| > 0 {
      var next := temps[ts[0] := values[0]];
      Stored(next, ts[1..], values[1..]);
      var r := Store(temps, ts, values);
      forall i | 0 <= i < |ts|
        ensures ts[i] in r && r[ts[i]] == values[i]
      {
        if i > 0 {
          assert ts[i] == ts[1..][i - 1];
        } else {
          assert ts[0] !in ts[1..];
        }
      }
      forall t | t !in ts
        ensures (t in r <==> t in temps) && (t in r ==> r[t] == temps[t])
      {
        assert t !in ts[1..] && t != ts[0];
      }
    }
  }

  lemma RangeIsDistinct(first: nat, n: nat)
    ensures Distinct(Range(first, n))
  {
  }

  lemma {:induction false} RunMoves(c: Code, pr: Prims, to: seq<Temp>, from: seq<Temp>, temps: Temps, w: World, fuel: nat)
    requires |to| == |from| && AllDefined(temps, from) && forall i, j :: 0 <= i < |to| && 0 <= j < |from| ==> to[i] != from[j]
    ensures Exec(c, pr, Moves(to, from), temps, w, fuel) == Go(Store(temps, to, Values(temps, from)), w, None)
    decreases |to|
  {
    if |to| > 0 {
      var moves, next := Moves(to, from), temps[to[0] := temps[from[0]]];
      assert moves[1..] == Moves(to[1..], from[1..]);
      assert Step(c, pr, moves[0], temps, w, fuel) == Go(next, w, None) by {
        assert Operands(Move(from[0])) == [from[0]];
      }
      assert Values(next, from[1..]) == Values(temps, from)[1..];
      RunMoves(c, pr, to[1..], from[1..], next, w, fuel);
      if |to| == 1 {
        assert to[1..] == [] && from[1..] == [];
      }
    }
  }

  /** All new parameters are read before any is overwritten. */
  lemma SelfTailIsParallel(c: Code, pr: Prims, t: nat, args: seq<Temp>, params: seq<Temp>, temps: Temps, w: World, fuel: nat) returns (temps': Temps)
    requires |args| == |params| && AllDefined(temps, args) && Distinct(params)
    requires forall i :: 0 <= i < |args| ==> args[i].T? && params[i].T?
    ensures Exec(c, pr, SelfTail(t, args, params), temps, w, fuel) == Jump(temps', w)
    ensures forall i :: 0 <= i < |params| ==> params[i] in temps' && temps'[params[i]] == temps[args[i]]
  {
    hide Step;
    var copies := Copies(t, |args|);
    var out, back := Moves(copies, args), Moves(params, copies);
    var temps1 := Store(temps, copies, Values(temps, args));
    RunMoves(c, pr, copies, args, temps, w, fuel);
    Stored(temps, copies, Values(temps, args));
    temps' := Store(temps1, params, Values(temps1, copies));
    RunMoves(c, pr, params, copies, temps1, w, fuel);
    Stored(temps1, params, Values(temps1, copies));
    JumpsAtGoto(c, pr, Set(T(t), Literal(Null)), temps', w, fuel);
    ExecConcat(c, pr, out, back, temps, w, fuel);
    ExecConcat(c, pr, out + back, [Goto, Set(T(t), Literal(Null))], temps, w, fuel);
    if |args| == 0 {
      assert out == [] && back == [];
    }
  }

  lemma JumpsAtGoto(c: Code, pr: Prims, s: Stmt, temps: Temps, w: World, fuel: nat)
    ensures Exec(c, pr, [Goto, s], temps, w, fuel) == Jump(temps, w)
  {
    assert Step(c, pr, Goto, temps, w, fuel) == Jump(temps, w);
  }

  /** Scopes with the same names in the same order. */
  lemma SameNames(env: seq<Binding>, binds: seq<Bound>, name: string)
    requires |env| == |binds| && forall i :: 0 <= i < |env| ==> env[i].name == binds[i].name
    ensures ValueOf(env, name).Some? <==> TempOf(binds, name).Some?
    ensures TempOf(binds, name).Some? ==> Position(env, name) < |env| && TempOf(binds, name).value == binds[Position(env, name)].temp
  {
    var i := Position(env, name);
    PositionIsLast(env, name);
    if i < |env| {
      TempOfLast(binds, i, name);
    } else {
      TempOfNone(binds, name);
    }
  }

  /** Parameters at the start of an activation. */
  lemma MatchesParams(b: Build, names: seq<string>, values: seq<Value>, ts: seq<Temp>, temps: Temps)
    requires |names| == |values| == |ts|
    requires forall i :: 0 <= i < |ts| ==> ts[i] in temps && Rel(b, values[i], temps[ts[i]])
    ensures Matches(b, Bindings(names, values), Bind(names, ts), temps)
  {
    hide Rel;
    forall name
      ensures ValueOf(Bindings(names, values), name).Some? <==> TempOf(Bind(names, ts), name).Some?
      ensures TempOf(Bind(names, ts), name).Some? && TempOf(Bind(names, ts), name).value in temps
        ==> Rel(b, ValueOf(Bindings(names, values), name).value, temps[TempOf(Bind(names, ts), name).value])
    {
      SameNames(Bindings(names, values), Bind(names, ts), name);
    }
  }

  lemma PositionUnique(env: seq<Binding>, name: string, i: nat)
    requires i < |env| && env[i].name == name && forall j :: i < j < |env| ==> env[j].name != name
    ensures Position(env, name) == i
  {
    PositionIsLast(env, name);
  }

  /** Names in front count only if the names behind do not bind. */
  lemma ValueOfConcat(env: seq<Binding>, more: seq<Binding>, name: string)
    ensures ValueOf(env + more, name) == if ValueOf(more, name).Some? then ValueOf(more, name) else ValueOf(env, name)
  {
    PositionIsLast(env, name);
    PositionIsLast(more, name);
    PositionIsLast(env + more, name);
    var i, j := Position(env, name), Position(more, name);
    if j < |more| {
      PositionUnique(env + more, name, |env| + j);
    } else if i < |env| {
      PositionUnique(env + more, name, i);
    }
  }

  lemma TempOfConcat(binds: seq<Bound>, more: seq<Bound>, name: string)
    ensures TempOf(binds + more, name) == if TempOf(more, name).Some? then TempOf(more, name) else TempOf(binds, name)
  {
    TempOfNone(binds + more, name);
    TempOfNone(binds, name);
    TempOfNone(more, name);
    if TempOf(more, name).Some? {
      var i := TempOfIsBound(more, name);
      TempOfLast(binds + more, |binds| + i, name);
    } else if TempOf(binds, name).Some? {
      var i := TempOfIsBound(binds, name);
      TempOfLast(binds + more, i, name);
    }
  }

  predicate InRange(t: Temp, first: nat, n: nat) {
    t.T? && first <= t.n < first + n
  }

  /** Values stored in a range of temporaries. */
  lemma RangeStored(temps: Temps, first: nat, values: seq<Value>)
    ensures var r := Store(temps, Range(first, |values|), values);
      forall t: Temp :: if InRange(t, first, |values|) then t in r && r[t] == values[t.n - first]
                        else (t in r <==> t in temps) && (t in r ==> r[t] == temps[t])
  {
    hide Store;
    var ts := Range(first, |values|);
    RangeIsDistinct(first, |values|);
    Stored(temps, ts, values);
    var r := Store(temps, ts, values);
    forall t: Temp
      ensures if InRange(t, first, |values|) then t in r && r[t] == values[t.n - first]
              else (t in r <==> t in temps) && (t in r ==> r[t] == temps[t])
    {
      if InRange(t, first, |values|) {
        assert ts[t.n - first] == t;
      } else {
        assert t !in ts;
      }
    }
  }
}
