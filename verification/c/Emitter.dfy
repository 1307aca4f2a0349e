/** The emitter of src/c/emit.c as it runs: one record with a scope, counters, the statements being
    written and the generated functions, changed by every emit function. */
module Emitter {
  import opened Options
  import opened KlSyntax
  import opened NativeCode
  import opened Emission

  /** collect_free */
  method CollectFree(e: Kl, binds: seq<Bound>, extra: seq<string>, names: seq<string>) returns (r: seq<string>)
    requires AllBound(binds, names)
    ensures r == Collect(e, binds, extra, names)
    decreases Size(e), 0
  {
    r := names;
    if e.Sym? {
      if TempOf(binds, e.name).None? || e.name in extra {
        return;
      }
      for i := 0 to |r|
        invariant forall j :: 0 <= j < i ==> r[j] != e.name
      {
        if r[i] == e.name {
          return;
        }
      }
      r := r + [e.name];
    } else if e.List? {
      var items := e.items;
      SizeOfParts(items);
      if |items| == 3 && items[0] == Sym("lambda") && items[1].Sym? {
        r := CollectFree(items[2], binds, [items[1].name], r);
      } else if |items| == 4 && items[0] == Sym("let") && items[1].Sym? {
        r := CollectFree(items[2], binds, extra, r);
        r := CollectFree(items[3], binds, [items[1].name], r);
      } else {
        r := CollectFreeAll(items, binds, extra, r);
      }
    }
  }

  method CollectFreeAll(es: seq<Kl>, binds: seq<Bound>, extra: seq<string>, names: seq<string>) returns (r: seq<string>)
    requires AllBound(binds, names)
    ensures r == CollectAll(es, binds, extra, names)
    decreases SizeAll(es), 1
  {
    r := names;
    var i := 0;
    assert es[0..] == es;
    while i < |es|
      invariant i <= |es| && AllBound(binds, r) && CollectAll(es, binds, extra, names) == CollectAll(es[i..], binds, extra, r)
      invariant SizeAll(es[i..]) <= SizeAll(es)
    {
      assert es[i..][0] == es[i] && es[i..][1..] == es[i + 1..];
      r := CollectFree(es[i], binds, extra, r);
      i := i + 1;
    }
  }

  lemma Grouped<T>(h: seq<T>, a: seq<T>, b: seq<T>, c: seq<T>)
    ensures h + a + b + c == h + (a + b + c)
  {
  }

  lemma Joined<T>(a: seq<T>, b: seq<T>, c: seq<T>)
    ensures a + b + c == a + (b + c)
  {
  }

  lemma ClosureOut(params: seq<string>, body: Kl, binds: seq<Bound>, k: Counters)
    ensures var k1, names := k.(temp := k.temp + 1, lambdaId := k.lambdaId + 1), Captures(params, body, binds);
      var captures, locals := Range(k1.temp, |names|), Range(k1.temp + |names|, |params|);
      var inner := binds + Bind(names, captures) + Bind(params, locals);
      var b := if |binds| + |names| + |params| > MAX_BINDS then Failure else Emit(body, inner, None, true, Fresh(k1, |names| + |params|));
      && (EmitClosure(params, body, binds, k).Out? <==> b.Out?)
      && (b.Out? ==>
            EmitClosure(params, body, binds, k)
            == Out(T(k.temp), [Set(T(k.temp), MakeClosure(k.lambdaId, |params|, CaptureTemps(binds, names)))], b.k,
                   b.fns + [LambdaCode(k.lambdaId, Function(captures, locals, b.stmts, b.t), Note(params, body, binds, k1))]))
  {
    hide Emit, Captures;
  }

  lemma TrapOut(body: Kl, handler: Kl, binds: seq<Bound>, k: Counters)
    ensures var n, k1 := |binds|, k.(temp := k.temp + 1, trapId := k.trapId + 1);
      var b := Emit(body, Bind(Names(binds), Range(k1.temp, n)), None, false, Fresh(k1, n));
      var h := if b.Out? then Emit(handler, Bind(Names(binds), Range(b.k.temp, n)), None, false, Fresh(b.k, n)) else Failure;
      && (EmitTrap(body, handler, binds, k).Out? <==> h.Out?)
      && (h.Out? ==>
            var o, applied := EmitTrap(body, handler, binds, k), T(h.k.temp);
            var handlerFn := Function(Range(b.k.temp, n), [Exception], h.stmts + [Set(applied, Indirect(h.t, [Exception]))], applied);
            o == Out(T(k.temp), [Set(T(k.temp), Trap(k.trapId, TempsOf(binds)))], Fresh(h.k, 1),
                     b.fns + [BodyCode(k.trapId, Function(Range(k1.temp, n), [], b.stmts, b.t))] + h.fns + [HandlerCode(k.trapId, handlerFn)]))
  {
    hide Emit;
  }

  lemma IfOut(test: Kl, yes: Kl, no: Kl, binds: seq<Bound>, self: Option<Self>, tail: bool, k: Counters)
    ensures var a := Emit(test, binds, self, false, Fresh(k, 1));
      var b := if a.Out? then Emit(yes, binds, self, tail, a.k) else Failure;
      var c := if b.Out? then Emit(no, binds, self, tail, b.k) else Failure;
      && (EmitIf(test, yes, no, binds, self, tail, k).Out? <==> c.Out?)
      && (c.Out? ==>
            EmitIf(test, yes, no, binds, self, tail, k)
            == Out(T(k.temp), a.stmts + [If(T(k.temp), a.t, TEST_ERROR, b.stmts, b.t, c.stmts, c.t)], c.k, a.fns + b.fns + c.fns))
  {
    hide Emit;
  }

  class Record {
    var binds: seq<Bound>
    var k: Counters
    var stmts: seq<Stmt>
    var helpers: seq<Generated>
    var selfFn: Self
    var allowSelfGoto: bool

    constructor ()
      ensures binds == [] && k == Counters(0, 0, 0) && stmts == [] && helpers == [] && !allowSelfGoto
    {
      binds, k, stmts, helpers := [], Counters(0, 0, 0), [], [];
      selfFn, allowSelfGoto := Self("", []), false;
    }

    function CurrentSelf(): Option<Self>
      reads this
    {
      if allowSelfGoto then Some(selfFn) else None
    }

    /** What an emit function adds, or that it throws. */
    twostate predicate Adds(o: Out, ok: bool, t: Temp)
      reads this
    {
      && (ok <==> o.Out?)
      && (ok ==> t == o.t && stmts == old(stmts) + o.stmts && helpers == old(helpers) + o.fns && k == o.k)
      && (ok ==> binds == old(binds) && selfFn == old(selfFn) && allowSelfGoto == old(allowSelfGoto))
    }

    twostate predicate AddsArgs(o: OutArgs, ok: bool, ts: seq<Temp>)
      reads this
    {
      && (ok <==> o.OutArgs?)
      && (ok ==> ts == o.ts && stmts == old(stmts) + o.stmts && helpers == old(helpers) + o.fns && k == o.k)
      && (ok ==> binds == old(binds) && selfFn == old(selfFn) && allowSelfGoto == old(allowSelfGoto))
    }

    /** fresh */
    method NewTemp() returns (t: Temp)
      modifies this`k
      ensures t == T(old(k).temp) && k == Fresh(old(k), 1)
    {
      t := T(k.temp);
      k := k.(temp := k.temp + 1);
    }

    method Write(s: Stmt)
      modifies this`stmts
      ensures stmts == old(stmts) + [s]
    {
      stmts := stmts + [s];
    }

    /** emit_expr */
    method EmitExpr(e: Kl, tail: bool) returns (ok: bool, t: Temp)
      requires |binds| <= MAX_BINDS
      modifies this
      ensures Adds(Emit(e, old(binds), old(CurrentSelf()), tail, old(k)), ok, t)
      decreases Size(e), 0
    {
      hide EmitForm;
      ok := true;
      match e {
        case Sym(name) =>
          var bound := TempOf(binds, name);
          t := NewTemp();
          if bound.Some? {
            t := bound.value;
          } else {
            Write(Set(t, Intern(name)));
          }
        case Bool(_) =>
          t := NewTemp();
          Write(Set(t, Literal(Constant(e))));
        case Lit(_) =>
          t := NewTemp();
          Write(Set(t, Literal(Constant(e))));
        case List(items) =>
          if |items| == 0 {
            t := NewTemp();
            Write(Set(t, Literal(Nil)));
          } else {
            PartsAreSmaller(items, IsBoundHead(items, binds));
            ok, t := EmitList(FormOf(items, IsBoundHead(items, binds)), tail);
          }
      }
    }

    method EmitList(form: Form, tail: bool) returns (ok: bool, t: Temp)
      requires |binds| <= MAX_BINDS
      requires form.CondForm? ==> AreCases(form.cases)
      modifies this
      ensures Adds(EmitForm(form, old(binds), old(CurrentSelf()), tail, old(k)), ok, t)
      decreases FormSize(form), 2
    {
      hide Emit, EmitIf, EmitBoth, EmitCases, EmitLet, EmitDo, EmitClosure, EmitTrap, EmitNamed, EmitValueCall;
      t := T(k.temp);
      match form {
        case IfForm(test, yes, no) => ok, t := If_(test, yes, no, tail);
        case AndForm(left, right) => ok, t := AndOr(left, right, true);
        case OrForm(left, right) => ok, t := AndOr(left, right, false);
        case CondForm(cases) =>
          t := NewTemp();
          ok := Cond(t, cases, tail);
        case LetForm(name, bound, body) => ok, t := Let(name, bound, body, tail);
        case DoForm(first, second) => ok, t := Do(first, second, tail);
        case LambdaForm(name, body) => ok, t := LambdaOrFreeze([name], body);
        case FreezeForm(body) => ok, t := LambdaOrFreeze([], body);
        case TrapForm(body, handler) => ok, t := Trap_(body, handler);
        case TypeForm(expr) => ok, t := EmitExpr(expr, tail);
        case NamedCall(f, args) => ok, t := ApplyNamed(f, args, tail);
        case ValueCall(head, args) => ok, t := ApplyValue(head, args, tail);
        case Unsupported => ok := false;
      }
    }

    /** An expression written to a buffer of its own. */
    method EmitBlock(e: Kl, tail: bool) returns (ok: bool, t: Temp, block: seq<Stmt>)
      requires |binds| <= MAX_BINDS
      modifies this
      ensures var o := Emit(e, old(binds), old(CurrentSelf()), tail, old(k));
        && (ok <==> o.Out?)
        && (ok ==> t == o.t && block == o.stmts && stmts == old(stmts) && helpers == old(helpers) + o.fns && k == o.k)
        && (ok ==> binds == old(binds) && selfFn == old(selfFn) && allowSelfGoto == old(allowSelfGoto))
      decreases Size(e), 1
    {
      hide Emit;
      var saved := stmts;
      stmts := [];
      ok, t := EmitExpr(e, tail);
      block := stmts;
      stmts := saved;
      assert ok ==> block == [] + Emit(e, old(binds), old(CurrentSelf()), tail, old(k)).stmts;
    }

    /** emit_if: the statements of the branches go into blocks of their own. */
    method If_(test: Kl, yes: Kl, no: Kl, tail: bool) returns (ok: bool, t: Temp)
      requires |binds| <= MAX_BINDS
      modifies this
      ensures Adds(EmitIf(test, yes, no, old(binds), old(CurrentSelf()), tail, old(k)), ok, t)
      decreases 1 + Size(test) + Size(yes) + Size(no), 0
    {
      hide Emit, EmitIf;
      ghost var bs, self, k0 := binds, CurrentSelf(), k;
      IfOut(test, yes, no, bs, self, tail, k0);
      t := NewTemp();
      assert binds == bs && CurrentSelf() == self && k == Fresh(k0, 1);
      var s;
      ok, s := Branches(t, test, yes, no, tail);
      if ok {
        Joined(old(stmts), Emit(test, bs, self, false, Fresh(k0, 1)).stmts, [s]);
        Write(s);
      }
    }

    /** The test, and the choice that follows it. */
    method Branches(t: Temp, test: Kl, yes: Kl, no: Kl, tail: bool) returns (ok: bool, s: Stmt)
      requires |binds| <= MAX_BINDS
      modifies this
      ensures var a := Emit(test, old(binds), old(CurrentSelf()), false, old(k));
        var b := if a.Out? then Emit(yes, old(binds), old(CurrentSelf()), tail, a.k) else Failure;
        var c := if b.Out? then Emit(no, old(binds), old(CurrentSelf()), tail, b.k) else Failure;
        && (ok <==> c.Out?)
        && (ok ==> s == If(t, a.t, TEST_ERROR, b.stmts, b.t, c.stmts, c.t) && helpers == old(helpers) + (a.fns + b.fns + c.fns) && k == c.k)
        && (ok ==> stmts == old(stmts) + a.stmts && binds == old(binds) && selfFn == old(selfFn) && allowSelfGoto == old(allowSelfGoto))
      decreases 1 + Size(test) + Size(yes) + Size(no), 0, 0
    {
      hide Emit;
      s := Goto;
      var testT, yesT, noT, yesBlock, noBlock;
      ok, testT := EmitExpr(test, false);
      if !ok { return; }
      ok, yesT, yesBlock, noT, noBlock := TwoBlocks(yes, no, tail);
      if ok {
        s := If(t, testT, TEST_ERROR, yesBlock, yesT, noBlock, noT);
        ghost var a := Emit(test, old(binds), old(CurrentSelf()), false, old(k));
        ghost var b := Emit(yes, old(binds), old(CurrentSelf()), tail, a.k);
        Grouped(old(helpers), a.fns, b.fns, Emit(no, old(binds), old(CurrentSelf()), tail, b.k).fns);
      }
    }

    method TwoBlocks(yes: Kl, no: Kl, tail: bool) returns (ok: bool, yesT: Temp, yesBlock: seq<Stmt>, noT: Temp, noBlock: seq<Stmt>)
      requires |binds| <= MAX_BINDS
      modifies this
      ensures var b := Emit(yes, old(binds), old(CurrentSelf()), tail, old(k));
        var c := if b.Out? then Emit(no, old(binds), old(CurrentSelf()), tail, b.k) else Failure;
        && (ok <==> c.Out?)
        && (ok ==> yesT == b.t && yesBlock == b.stmts && noT == c.t && noBlock == c.stmts && helpers == old(helpers) + b.fns + c.fns && k == c.k)
        && (ok ==> stmts == old(stmts) && binds == old(binds) && selfFn == old(selfFn) && allowSelfGoto == old(allowSelfGoto))
      decreases Size(yes) + Size(no), 2
    {
      hide Emit;
      noT, noBlock := Exception, [];
      ok, yesT, yesBlock := EmitBlock(yes, tail);
      if !ok { return; }
      ok, noT, noBlock := EmitBlock(no, tail);
    }

    /** emit_and_or */
    method AndOr(left: Kl, right: Kl, want: bool) returns (ok: bool, t: Temp)
      requires |binds| <= MAX_BINDS
      modifies this
      ensures Adds(EmitBoth(left, right, want, old(binds), old(CurrentSelf()), old(k)), ok, t)
      decreases 1 + Size(left) + Size(right), 0
    {
      hide Emit;
      t := NewTemp();
      var leftT, rightT, block;
      ok, leftT := EmitExpr(left, false);
      if !ok { return; }
      ok, rightT, block := EmitBlock(right, false);
      if !ok { return; }
      block := block + [Check(rightT, ARGUMENT_ERROR)];
      Write(if want then If(t, leftT, ARGUMENT_ERROR, block, rightT, [], leftT) else If(t, leftT, ARGUMENT_ERROR, [], leftT, block, rightT));
    }

    /** emit_cond: every case is written into the else block of the one before. */
    method Cond(t: Temp, cases: seq<Kl>, tail: bool) returns (ok: bool)
      requires |binds| <= MAX_BINDS
      requires AreCases(cases)
      modifies this
      ensures Adds(EmitCases(t, cases, old(binds), old(CurrentSelf()), tail, old(k)), ok, t)
      decreases 1 + SizeAll(cases), 0
    {
      hide Emit;
      if |cases| == 0 {
        stmts := stmts + [Fail(NO_CASE_ERROR), Set(t, Literal(Nil))];
        assert helpers == old(helpers) + [];
        return true;
      }
      CasesAreSmaller(cases);
      var testT, thenT, thenBlock;
      ok, testT := EmitExpr(cases[0].items[0], false);
      if !ok { return; }
      ok, thenT, thenBlock := EmitBlock(cases[0].items[1], tail);
      if !ok { return; }
      var restBlock;
      ok, restBlock := CondBlock(t, cases[1..], tail);
      if !ok { return; }
      assert helpers == old(helpers) + EmitCases(t, cases, old(binds), old(CurrentSelf()), tail, old(k)).fns by {
        var a := Emit(cases[0].items[0], old(binds), old(CurrentSelf()), false, old(k));
        var b := Emit(cases[0].items[1], old(binds), old(CurrentSelf()), tail, a.k);
        Grouped(old(helpers), a.fns, b.fns, EmitCases(t, cases[1..], old(binds), old(CurrentSelf()), tail, b.k).fns);
      }
      Write(If(t, testT, CASE_ERROR, thenBlock, thenT, restBlock, t));
    }

    method CondBlock(t: Temp, cases: seq<Kl>, tail: bool) returns (ok: bool, block: seq<Stmt>)
      requires AreCases(cases) && |binds| <= MAX_BINDS
      modifies this
      ensures var o := EmitCases(t, cases, old(binds), old(CurrentSelf()), tail, old(k));
        && (ok <==> o.Out?)
        && (ok ==> t == o.t && block == o.stmts && stmts == old(stmts) && helpers == old(helpers) + o.fns && k == o.k)
        && (ok ==> binds == old(binds) && selfFn == old(selfFn) && allowSelfGoto == old(allowSelfGoto))
      decreases 1 + SizeAll(cases), 1
    {
      hide EmitCases;
      var saved := stmts;
      stmts := [];
      ok := Cond(t, cases, tail);
      block := stmts;
      stmts := saved;
      assert ok ==> block == [] + EmitCases(t, cases, old(binds), old(CurrentSelf()), tail, old(k)).stmts;
    }

    /** push_bind */
    method PushBind(name: string, t: Temp) returns (ok: bool)
      modifies this`binds
      ensures ok <==> |old(binds)| < MAX_BINDS
      ensures ok ==> binds == old(binds) + [Bound(name, t)]
    {
      ok := |binds| < MAX_BINDS;
      if ok {
        binds := binds + [Bound(name, t)];
      }
    }

    /** emit_let */
    method Let(name: string, bound: Kl, body: Kl, tail: bool) returns (ok: bool, t: Temp)
      requires |binds| <= MAX_BINDS
      modifies this
      ensures Adds(EmitLet(name, bound, body, old(binds), old(CurrentSelf()), tail, old(k)), ok, t)
      decreases 1 + Size(bound) + Size(body), 0
    {
      hide Emit;
      ok, t := EmitExpr(bound, false);
      if !ok { return; }
      var saved := binds;
      ok := PushBind(name, t);
      if !ok { return; }
      ok, t := EmitExpr(body, tail);
      binds := saved;
    }

    /** emit_do */
    method Do(first: Kl, second: Kl, tail: bool) returns (ok: bool, t: Temp)
      requires |binds| <= MAX_BINDS
      modifies this
      ensures Adds(EmitDo(first, second, old(binds), old(CurrentSelf()), tail, old(k)), ok, t)
      decreases 1 + Size(first) + Size(second), 0
    {
      hide Emit;
      ok, t := EmitExpr(first, false);
      if !ok { return; }
      ok, t := EmitExpr(second, tail);
    }

    /** emit_value for every argument. */
    method EmitArguments(args: seq<Kl>) returns (ok: bool, ts: seq<Temp>)
      requires |binds| <= MAX_BINDS
      modifies this
      ensures AddsArgs(EmitArgs(args, old(binds), old(CurrentSelf()), old(k)), ok, ts)
      decreases 1 + SizeAll(args), 0
    {
      hide Emit;
      ts := [];
      ok := true;
      if |args| > 0 {
        var t;
        ok, t := EmitExpr(args[0], false);
        if !ok { return; }
        ok, ts := EmitArguments(args[1..]);
        ts := [t] + ts;
      }
    }

    /** Binds names to new temporaries, one by one. */
    method BindFresh(names: seq<string>) returns (ok: bool, ts: seq<Temp>)
      requires |binds| <= MAX_BINDS
      modifies this`binds, this`k
      ensures ok <==> |old(binds)| + |names| <= MAX_BINDS
      ensures ok ==> ts == Range(old(k).temp, |names|) && k == Fresh(old(k), |names|) && binds == old(binds) + Bind(names, ts)
    {
      ok, ts := true, [];
      var i := 0;
      while i < |names|
        invariant i <= |names| && |ts| == i && ts == Range(old(k).temp, i) && k == Fresh(old(k), i)
        invariant binds == old(binds) + Bind(names[..i], ts) && |binds| <= MAX_BINDS
      {
        var t := NewTemp();
        ok := PushBind(names[i], t);
        if !ok { return; }
        ts := ts + [t];
        i := i + 1;
        assert Bind(names[..i], ts) == Bind(names[..i - 1], ts[..i - 1]) + [Bound(names[i - 1], t)];
      }
      assert names[..i] == names;
    }

    /** emit_lambda_or_freeze: the body is written to a buffer of its own. */
    method LambdaOrFreeze(params: seq<string>, body: Kl) returns (ok: bool, t: Temp)
      requires |binds| <= MAX_BINDS
      requires |params| <= 1
      modifies this
      ensures Adds(EmitClosure(params, body, old(binds), old(k)), ok, t)
      decreases 1 + Size(body), 0
    {
      hide Emit, EmitClosure, Captures, Collect, Range, CaptureTemps, Names;
      ClosureOut(params, body, binds, k);
      var id := k.lambdaId;
      k := k.(lambdaId := k.lambdaId + 1);
      t := NewTemp();
      var names := FindCaptures(params, body);
      var note := Note(params, body, binds, k);
      var saved, savedGoto := binds, allowSelfGoto;
      allowSelfGoto := false;
      var capTemps, paramTemps, result, block;
      ok, capTemps := BindFresh(names);
      if !ok { return; }
      ok, paramTemps := BindFresh(params);
      if !ok { return; }
      ok, result, block := EmitBlock(body, true);
      if !ok { return; }
      helpers := helpers + [LambdaCode(id, Function(capTemps, paramTemps, block, result), note)];
      binds, allowSelfGoto := saved, savedGoto;
      Write(Set(t, MakeClosure(id, |params|, CaptureTemps(binds, names))));
    }

    method FindCaptures(params: seq<string>, body: Kl) returns (names: seq<string>)
      ensures names == Captures(params, body, binds)
    {
      names := CollectFree(body, binds, params, []);
      if |names| > MAX_CAPTURES {
        names := names[..MAX_CAPTURES];
      }
    }

    /** Gives every name in scope a new temporary, slot by slot. */
    method Rename()
      modifies this`binds, this`k
      ensures binds == Bind(Names(old(binds)), Range(old(k).temp, |old(binds)|)) && k == Fresh(old(k), |old(binds)|)
    {
      var i := 0;
      while i < |binds|
        invariant i <= |binds| == |old(binds)| && k == Fresh(old(k), i)
        invariant forall j :: 0 <= j < i ==> binds[j] == Bound(old(binds)[j].name, T(old(k).temp + j))
        invariant forall j :: i <= j < |binds| ==> binds[j] == old(binds)[j]
      {
        var t := NewTemp();
        binds := binds[i := Bound(binds[i].name, t)];
        i := i + 1;
      }
    }

    /** The body or the handler of a trap-error form, in the renamed scope. */
    method TrapPart(e: Kl) returns (ok: bool, t: Temp, block: seq<Stmt>)
      requires |binds| <= MAX_BINDS && !allowSelfGoto
      modifies this
      ensures var o := Emit(e, Bind(Names(old(binds)), Range(old(k).temp, |old(binds)|)), None, false, Fresh(old(k), |old(binds)|));
        && (ok <==> o.Out?)
        && (ok ==> t == o.t && block == o.stmts && stmts == old(stmts) && helpers == old(helpers) + o.fns && k == o.k)
        && (ok ==> binds == old(binds) && selfFn == old(selfFn) && !allowSelfGoto)
      decreases Size(e), 2
    {
      hide Emit;
      var saved := binds;
      Rename();
      ok, t, block := EmitBlock(e, false);
      binds := saved;
    }

    /** emit_trap: two functions that get the whole scope. */
    method Trap_(body: Kl, handler: Kl) returns (ok: bool, t: Temp)
      requires |binds| <= MAX_BINDS
      modifies this
      ensures Adds(EmitTrap(body, handler, old(binds), old(k)), ok, t)
      decreases 1 + Size(body) + Size(handler), 0
    {
      hide Emit, EmitTrap, Bind, Names, Range, TempsOf;
      TrapOut(body, handler, binds, k);
      var id := k.trapId;
      k := k.(trapId := k.trapId + 1);
      t := NewTemp();
      var saved, savedGoto := binds, allowSelfGoto;
      allowSelfGoto := false;
      var result, block;
      var first := k.temp;
      ok, result, block := TrapPart(body);
      if !ok { return; }
      helpers := helpers + [BodyCode(id, Function(Range(first, |saved|), [], block, result))];
      first := k.temp;
      ok, result, block := TrapPart(handler);
      if !ok { return; }
      var applied := NewTemp();
      block := block + [Set(applied, Indirect(result, [Exception]))];
      helpers := helpers + [HandlerCode(id, Function(Range(first, |saved|), [Exception], block, applied))];
      allowSelfGoto := savedGoto;
      Write(Set(t, Trap(id, TempsOf(binds))));
    }

    /** The named calls of emit_prim_inline and emit_apply. */
    method ApplyNamed(f: string, args: seq<Kl>, tail: bool) returns (ok: bool, t: Temp)
      requires |binds| <= MAX_BINDS
      modifies this
      ensures Adds(EmitNamed(f, args, old(binds), old(CurrentSelf()), tail, old(k)), ok, t)
      decreases 1 + SizeAll(args), 1
    {
      hide EmitArgs, SelfTail;
      var ts;
      t := T(k.temp);
      if InlineArity(f) == |args| > 0 {
        ok, ts := EmitArguments(args);
        if !ok { return; }
        t := NewTemp();
        Write(Set(t, Inline(f, ts)));
      } else if |args| > MAX_BINDS {
        ok := false;
      } else if IsSelfTail(f, |args|, CurrentSelf(), tail) {
        ok, ts := EmitArguments(args);
        if !ok { return; }
        t := NewTemp();
        JumpToStart(t.n, ts);
      } else {
        t := NewTemp();
        ok, ts := EmitArguments(args);
        if !ok { return; }
        Write(Set(t, if tail then TailDirect(f, ts) else Direct(f, ts)));
      }
    }

    /** The self tail call: copies, assignments, goto. */
    method JumpToStart(t: nat, ts: seq<Temp>)
      requires |ts| == |selfFn.params|
      modifies this`stmts
      ensures stmts == old(stmts) + SelfTail(t, ts, selfFn.params)
    {
      var copies := Copies(t, |ts|);
      MoveAll(copies, ts);
      MoveAll(selfFn.params, copies);
      Write(Goto);
      Write(Set(T(t), Literal(Null)));
      assert [Goto] + [Set(T(t), Literal(Null))] == [Goto, Set(T(t), Literal(Null))];
    }

    method MoveAll(to: seq<Temp>, from: seq<Temp>)
      requires |to| == |from|
      modifies this`stmts
      ensures stmts == old(stmts) + Moves(to, from)
    {
      var i := 0;
      while i < |to|
        invariant i <= |to| && stmts == old(stmts) + Moves(to, from)[..i]
      {
        Write(Set(to[i], Move(from[i])));
        assert Moves(to, from)[..i + 1] == Moves(to, from)[..i] + [Set(to[i], Move(from[i]))];
        i := i + 1;
      }
      assert Moves(to, from)[..i] == Moves(to, from);
    }

    /** emit_apply for a head that is not a global name. */
    method ApplyValue(head: Kl, args: seq<Kl>, tail: bool) returns (ok: bool, t: Temp)
      requires |binds| <= MAX_BINDS
      modifies this
      ensures Adds(EmitValueCall(head, args, old(binds), old(CurrentSelf()), tail, old(k)), ok, t)
      decreases 1 + Size(head) + SizeAll(args), 1
    {
      hide Emit, EmitArgs;
      t := T(k.temp);
      if |args| > MAX_BINDS {
        return false, t;
      }
      t := NewTemp();
      var headT, ts;
      ok, headT, ts := HeadAndArguments(head, args);
      if !ok { return; }
      Write(Set(t, if tail then TailIndirect(headT, ts) else Indirect(headT, ts)));
    }

    method HeadAndArguments(head: Kl, args: seq<Kl>) returns (ok: bool, t: Temp, ts: seq<Temp>)
      requires |binds| <= MAX_BINDS
      modifies this
      ensures var h := Emit(head, old(binds), old(CurrentSelf()), false, old(k));
        var a := if h.Out? then EmitArgs(args, old(binds), old(CurrentSelf()), h.k) else FailedArgs;
        && (ok <==> a.OutArgs?)
        && (ok ==> t == h.t && ts == a.ts && stmts == old(stmts) + (h.stmts + a.stmts) && helpers == old(helpers) + (h.fns + a.fns) && k == a.k)
        && (ok ==> binds == old(binds) && selfFn == old(selfFn) && allowSelfGoto == old(allowSelfGoto))
      decreases 1 + Size(head) + SizeAll(args), 0
    {
      hide Emit, EmitArgs;
      ts := [];
      ok, t := EmitExpr(head, false);
      if !ok { return; }
      ok, ts := EmitArguments(args);
    }

    /** emit_defun_into: the statements go to a buffer of their own, and what the definition changes
        in the record is put back. */
    method DefunInto(name: string, d: Defun) returns (ok: bool, f: Function)
      requires Ordinary(name, d)
      modifies this
      ensures ok <==> EmitDefun(name, d, old(k)).Out?
      ensures ok ==> f == DefunFunction(d, old(k), EmitDefun(name, d, old(k)))
      ensures ok ==> helpers == old(helpers) + EmitDefun(name, d, old(k)).fns && k == EmitDefun(name, d, old(k)).k
      ensures ok ==> binds == old(binds) && stmts == old(stmts) && selfFn == old(selfFn) && allowSelfGoto == old(allowSelfGoto)
    {
      hide Emit;
      var saved, savedGoto, savedSelf := binds, allowSelfGoto, selfFn;
      f := Function([], [], [], Exception);
      binds := [];
      var params, result, block;
      ok, params := BindFresh(d.params);
      if !ok { return; }
      assert binds == Bind(d.params, params);
      selfFn, allowSelfGoto := Self(name, params), true;
      ok, result, block := EmitBlock(d.body, true);
      if !ok { return; }
      f := Function([], params, block, result);
      binds, allowSelfGoto, selfFn := saved, savedGoto, savedSelf;
    }
  }
}
