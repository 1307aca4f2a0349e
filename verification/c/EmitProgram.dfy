/** Emitting a whole program (emit_forms in src/c/emit.c): the numbers of generated functions never
    clash, so the emitted functions make up a build. */
module EmitProgram {
  import opened Options
  import opened KlSyntax
  import opened KlMeaning
  import opened NativeCode
  import opened Emission
  import opened Acceptance
  import opened NativeRelation
  import opened EmitCorrect
  import opened Compilable
  import opened AcceptedIff

  predicate SameKind(g: Generated, h: Generated) {
    (g.LambdaCode? <==> h.LambdaCode?) && (g.BodyCode? <==> h.BodyCode?)
  }

  predicate IdWithin(g: Generated, k: Counters, k': Counters) {
    if g.LambdaCode? then k.lambdaId <= g.id < k'.lambdaId else k.trapId <= g.id < k'.trapId
  }

  /** A closure's function is what its note describes, and comes with the functions inside it. */
  ghost predicate NoteHolds(g: Generated, fns: seq<Generated>) {
    g.LambdaCode? ==>
      var body := EmitClosureBody(g.note);
      && body.Out? && g.f == ClosureFunction(g.note, body)
      && Below(g.note.binds, g.note.k.temp) && |g.note.params| <= 1
      && forall j :: 0 <= j < |body.fns| ==> body.fns[j] in fns
  }

  ghost predicate Numbered(fns: seq<Generated>, k: Counters, k': Counters) {
    && k.temp <= k'.temp && k.lambdaId <= k'.lambdaId && k.trapId <= k'.trapId
    && (forall i :: 0 <= i < |fns| ==> IdWithin(fns[i], k, k') && NoteHolds(fns[i], fns))
    && (forall i, j :: 0 <= i < j < |fns| && SameKind(fns[i], fns[j]) ==> fns[i].id != fns[j].id)
  }

  lemma NumberedInOrder(f: seq<Generated>, g: seq<Generated>, k: Counters, k1: Counters, k2: Counters)
    requires Numbered(f, k, k1) && Numbered(g, k1, k2)
    ensures Numbered(f + g, k, k2)
  {
    hide EmitClosureBody;
    var all := f + g;
    forall i | 0 <= i < |all|
      ensures IdWithin(all[i], k, k2) && NoteHolds(all[i], all)
    {
      if i < |f| {
        assert NoteHolds(f[i], f);
      } else {
        assert all[i] == g[i - |f|] && NoteHolds(g[i - |f|], g);
      }
    }
    forall i, j | 0 <= i < j < |all| && SameKind(all[i], all[j])
      ensures all[i].id != all[j].id
    {
      if i < |f| <= j {
        assert IdWithin(f[i], k, k1) && IdWithin(g[j - |f|], k1, k2);
      } else if |f| <= i {
        assert all[i] == g[i - |f|] && all[j] == g[j - |f|];
      }
    }
  }

  lemma NothingNumbered(k: Counters, k': Counters)
    requires k.temp <= k'.temp && k.lambdaId <= k'.lambdaId && k.trapId <= k'.trapId
    ensures Numbered([], k, k')
  {
  }

  lemma NumberedFrom(fns: seq<Generated>, k: Counters, k1: Counters, k2: Counters)
    requires Numbered(fns, k1, k2) && k.temp <= k1.temp && k.lambdaId <= k1.lambdaId && k.trapId <= k1.trapId
    ensures Numbered(fns, k, k2)
  {
    hide EmitClosureBody;
  }

  lemma BelowMore(binds: seq<Bound>, n: nat, m: nat)
    requires Below(binds, n) && n <= m
    ensures Below(binds, m)
  {
  }

  lemma {:induction false} Number(e: Kl, binds: seq<Bound>, self: Option<Self>, tail: bool, k: Counters)
    requires Below(binds, k.temp) && Emit(e, binds, self, tail, k).Out?
    ensures var o := Emit(e, binds, self, tail, k); Numbered(o.fns, k, o.k)
    decreases Size(e), 2
  {
    hide EmitForm, Numbered;
    var o := Emit(e, binds, self, tail, k);
    if e.List? && |e.items| > 0 {
      PartsAreSmaller(e.items, IsBoundHead(e.items, binds));
      NumberForm(FormOf(e.items, IsBoundHead(e.items, binds)), binds, self, tail, k);
    } else {
      NothingNumbered(k, o.k);
    }
  }

  /** An expression emitted after others, in the same scope. */
  lemma {:induction false} NumberNext(e: Kl, binds: seq<Bound>, self: Option<Self>, tail: bool, n: nat, k: Counters)
    requires Below(binds, n) && n <= k.temp && Emit(e, binds, self, tail, k).Out?
    ensures var o := Emit(e, binds, self, tail, k); Numbered(o.fns, k, o.k) && k.temp <= o.k.temp
    decreases Size(e), 3
  {
    hide Emit, Numbered, Below;
    BelowMore(binds, n, k.temp);
    Number(e, binds, self, tail, k);
  }

  lemma {:induction false} NumberForm(form: Form, binds: seq<Bound>, self: Option<Self>, tail: bool, k: Counters)
    requires Below(binds, k.temp) && (form.CondForm? ==> AreCases(form.cases)) && EmitForm(form, binds, self, tail, k).Out?
    ensures var o := EmitForm(form, binds, self, tail, k); Numbered(o.fns, k, o.k)
    decreases FormSize(form), 1
  {
    hide Emit, EmitClosureBody, EmitArgs, EmitCases, Numbered;
    match form
    case IfForm(test, yes, no) =>
      var a := Emit(test, binds, self, false, Fresh(k, 1));
      var b := Emit(yes, binds, self, tail, a.k);
      var c := Emit(no, binds, self, tail, b.k);
      NumberNext(test, binds, self, false, k.temp, Fresh(k, 1));
      NumberNext(yes, binds, self, tail, k.temp, a.k);
      NumberNext(no, binds, self, tail, k.temp, b.k);
      NumberedFrom(a.fns, k, Fresh(k, 1), a.k);
      NumberedInOrder(a.fns, b.fns, k, a.k, b.k);
      NumberedInOrder(a.fns + b.fns, c.fns, k, b.k, c.k);
    case AndForm(left, right) => NumberTwo(left, right, binds, self, false, k, Fresh(k, 1));
    case OrForm(left, right) => NumberTwo(left, right, binds, self, false, k, Fresh(k, 1));
    case CondForm(cases) =>
      NumberCases(T(k.temp), cases, binds, self, tail, k.temp, Fresh(k, 1));
      NumberedFrom(EmitCases(T(k.temp), cases, binds, self, tail, Fresh(k, 1)).fns, k, Fresh(k, 1), EmitCases(T(k.temp), cases, binds, self, tail, Fresh(k, 1)).k);
    case LetForm(name, bound, body) =>
      var a := Emit(bound, binds, self, false, k);
      var b := Emit(body, binds + [Bound(name, a.t)], self, tail, a.k);
      NumberNext(bound, binds, self, false, k.temp, k);
      ResultBelow(bound, binds, self, false, k);
      NumberNext(body, binds + [Bound(name, a.t)], self, tail, a.k.temp, a.k);
      NumberedInOrder(a.fns, b.fns, k, a.k, b.k);
    case DoForm(first, second) => NumberTwo(first, second, binds, self, tail, k, k);
    case LambdaForm(name, body) => NumberClosure([name], body, binds, k);
    case FreezeForm(body) => NumberClosure([], body, binds, k);
    case TrapForm(body, handler) => NumberTrap(body, handler, binds, k);
    case TypeForm(expr) => Number(expr, binds, self, tail, k);
    case NamedCall(f, args) => NumberNamed(f, args, binds, self, tail, k);
    case ValueCall(head, args) =>
      var h := Emit(head, binds, self, false, Fresh(k, 1));
      var a := EmitArgs(args, binds, self, h.k);
      NumberNext(head, binds, self, false, k.temp, Fresh(k, 1));
      NumberArgs(args, binds, self, k.temp, h.k);
      NumberedFrom(h.fns, k, Fresh(k, 1), h.k);
      NumberedInOrder(h.fns, a.fns, k, h.k, a.k);
  }

  lemma {:induction false} NumberTwo(first: Kl, second: Kl, binds: seq<Bound>, self: Option<Self>, tail: bool, k: Counters, k1: Counters)
    requires Below(binds, k.temp) && (k1 == k || k1 == Fresh(k, 1)) && Emit(first, binds, self, false, k1).Out?
    requires Emit(second, binds, self, tail, Emit(first, binds, self, false, k1).k).Out?
    ensures var a := Emit(first, binds, self, false, k1);
      var b := Emit(second, binds, self, tail, a.k);
      Numbered(a.fns + b.fns, k, b.k)
    decreases Size(first) + Size(second), 4
  {
    hide Emit, Numbered;
    var a := Emit(first, binds, self, false, k1);
    var b := Emit(second, binds, self, tail, a.k);
    NumberNext(first, binds, self, false, k.temp, k1);
    NumberNext(second, binds, self, tail, k.temp, a.k);
    NumberedFrom(a.fns, k, k1, a.k);
    NumberedInOrder(a.fns, b.fns, k, a.k, b.k);
  }

  lemma {:induction false} NumberCases(t: Temp, cases: seq<Kl>, binds: seq<Bound>, self: Option<Self>, tail: bool, n: nat, k: Counters)
    requires Below(binds, n) && n <= k.temp && AreCases(cases) && EmitCases(t, cases, binds, self, tail, k).Out?
    ensures var o := EmitCases(t, cases, binds, self, tail, k); Numbered(o.fns, k, o.k)
    decreases SizeAll(cases), 1
  {
    hide Emit, Numbered, Below;
    if |cases| == 0 {
      NothingNumbered(k, k);
    } else {
      CasesAreSmaller(cases);
      var a := Emit(cases[0].items[0], binds, self, false, k);
      var b := Emit(cases[0].items[1], binds, self, tail, a.k);
      var c := EmitCases(t, cases[1..], binds, self, tail, b.k);
      NumberNext(cases[0].items[0], binds, self, false, n, k);
      NumberNext(cases[0].items[1], binds, self, tail, n, a.k);
      NumberCases(t, cases[1..], binds, self, tail, n, b.k);
      NumberedInOrder(a.fns, b.fns, k, a.k, b.k);
      NumberedInOrder(a.fns + b.fns, c.fns, k, b.k, c.k);
    }
  }

  lemma {:induction false} NumberArgs(args: seq<Kl>, binds: seq<Bound>, self: Option<Self>, n: nat, k: Counters)
    requires Below(binds, n) && n <= k.temp && EmitArgs(args, binds, self, k).OutArgs?
    ensures var a := EmitArgs(args, binds, self, k); Numbered(a.fns, k, a.k)
    decreases SizeAll(args), 4
  {
    hide Emit, Numbered, Below;
    if |args| == 0 {
      NothingNumbered(k, k);
    } else {
      var a := Emit(args[0], binds, self, false, k);
      var rest := EmitArgs(args[1..], binds, self, a.k);
      NumberNext(args[0], binds, self, false, n, k);
      NumberArgs(args[1..], binds, self, n, a.k);
      NumberedInOrder(a.fns, rest.fns, k, a.k, rest.k);
    }
  }

  lemma {:induction false} NumberNamed(f: string, args: seq<Kl>, binds: seq<Bound>, self: Option<Self>, tail: bool, k: Counters)
    requires Below(binds, k.temp) && EmitNamed(f, args, binds, self, tail, k).Out?
    ensures var o := EmitNamed(f, args, binds, self, tail, k); Numbered(o.fns, k, o.k)
    decreases 1 + SizeAll(args), 0
  {
    hide EmitArgs, Numbered, Below, SelfTail;
    var k1 := if (InlineArity(f) == |args| > 0) || IsSelfTail(f, |args|, self, tail) then k else Fresh(k, 1);
    var a := EmitArgs(args, binds, self, k1);
    NumberArgs(args, binds, self, k.temp, k1);
    NumberedFrom(a.fns, k, k1, a.k);
    NumberedTo(a.fns, k, a.k, Fresh(a.k, 1));
  }

  lemma NumberedTo(fns: seq<Generated>, k: Counters, k1: Counters, k2: Counters)
    requires Numbered(fns, k, k1) && k1.temp <= k2.temp && k1.lambdaId <= k2.lambdaId && k1.trapId <= k2.trapId
    ensures Numbered(fns, k, k2)
  {
    hide EmitClosureBody;
  }

  lemma {:induction false} NumberClosure(params: seq<string>, body: Kl, binds: seq<Bound>, k: Counters)
    requires Below(binds, k.temp) && |params| <= 1 && EmitClosure(params, body, binds, k).Out?
    ensures var o := EmitClosure(params, body, binds, k); Numbered(o.fns, k, o.k)
    decreases 1 + Size(body), 0
  {
    hide Emit, Captures;
    var k1 := k.(temp := k.temp + 1, lambdaId := k.lambdaId + 1);
    var note := Note(params, body, binds, k1);
    var b := EmitClosureBody(note);
    BelowMore(binds, k.temp, k1.temp);
    ClosureBindsBelow(note);
    Number(body, ClosureBinds(note), None, true, ClosureStart(note));
    NumberedFrom(b.fns, k1, ClosureStart(note), b.k);
    assert Numbered(b.fns + [LambdaCode(k.lambdaId, ClosureFunction(note, b), note)], k, b.k) by {
      hide EmitClosureBody;
      NumberedOneMore(b.fns, LambdaCode(k.lambdaId, ClosureFunction(note, b), note), k, k1, b.k);
    }
  }

  lemma ClosureBindsBelow(n: Note)
    requires Below(n.binds, n.k.temp)
    ensures Below(ClosureBinds(n), ClosureStart(n).temp)
  {
    hide Captures;
  }

  lemma NumberedOneMore(fns: seq<Generated>, g: Generated, k: Counters, k1: Counters, k2: Counters)
    requires Numbered(fns, k1, k2) && NoteHolds(g, fns + [g])
    requires k1.temp >= k.temp && k1.lambdaId == k.lambdaId + (if g.LambdaCode? then 1 else 0) && k1.trapId >= k.trapId
    requires g.LambdaCode? ==> g.id == k.lambdaId
    requires !g.LambdaCode? ==> k.trapId <= g.id < k1.trapId
    ensures Numbered(fns + [g], k, k2)
  {
    hide EmitClosureBody;
    var all := fns + [g];
    forall i | 0 <= i < |all|
      ensures IdWithin(all[i], k, k2) && NoteHolds(all[i], all)
    {
      if i < |fns| {
        assert NoteHolds(fns[i], fns) && IdWithin(fns[i], k1, k2);
      }
    }
    forall i, j | 0 <= i < j < |all| && SameKind(all[i], all[j])
      ensures all[i].id != all[j].id
    {
      if j == |fns| {
        assert IdWithin(fns[i], k1, k2);
      }
    }
  }

  lemma {:induction false} NumberTrap(body: Kl, handler: Kl, binds: seq<Bound>, k: Counters)
    requires EmitTrap(body, handler, binds, k).Out?
    ensures var o := EmitTrap(body, handler, binds, k); Numbered(o.fns, k, o.k)
    decreases 1 + Size(body) + Size(handler), 0
  {
    hide Emit, Numbered;
    var n := |binds|;
    var k1 := k.(temp := k.temp + 1, trapId := k.trapId + 1);
    var b := Emit(body, Bind(Names(binds), Range(k1.temp, n)), None, false, Fresh(k1, n));
    var h := Emit(handler, Bind(Names(binds), Range(b.k.temp, n)), None, false, Fresh(b.k, n));
    var applied := T(h.k.temp);
    var bodyFn := BodyCode(k.trapId, Function(Range(k1.temp, n), [], b.stmts, b.t));
    var handlerFn := HandlerCode(k.trapId, Function(Range(b.k.temp, n), [Exception], h.stmts + [Set(applied, Indirect(h.t, [Exception]))], applied));
    RangeIsBelow(Names(binds), k1.temp);
    RangeIsBelow(Names(binds), b.k.temp);
    Number(body, Bind(Names(binds), Range(k1.temp, n)), None, false, Fresh(k1, n));
    Number(handler, Bind(Names(binds), Range(b.k.temp, n)), None, false, Fresh(b.k, n));
    NumberedFrom(b.fns, k1, Fresh(k1, n), b.k);
    NumberedFrom(h.fns, b.k, Fresh(b.k, n), h.k);
    NumberedTrap(b.fns, bodyFn, h.fns, handlerFn, k, k1, b.k, h.k);
    NumberedTo(b.fns + [bodyFn] + h.fns + [handlerFn], k, h.k, Fresh(h.k, 1));
  }

  lemma NumberedTrap(f: seq<Generated>, body: Generated, g: seq<Generated>, handler: Generated, k: Counters, k1: Counters, k2: Counters, k3: Counters)
    requires Numbered(f, k1, k2) && Numbered(g, k2, k3) && body.BodyCode? && handler.HandlerCode? && body.id == handler.id == k.trapId
    requires k1.temp >= k.temp && k1.lambdaId == k.lambdaId && k1.trapId == k.trapId + 1
    ensures Numbered(f + [body] + g + [handler], k, k3)
  {
    hide EmitClosureBody;
    NumberedOneMore(f, body, k, k1, k2);
    NumberedInOrder(f + [body], g, k, k2, k3);
    var front := f + [body] + g;
    var all := front + [handler];
    forall i | 0 <= i < |front|
      ensures NoteHolds(front[i], all)
    {
      assert NoteHolds(front[i], front);
    }
    forall i | 0 <= i < |front| && SameKind(front[i], handler)
      ensures front[i].id != handler.id
    {
      if i < |f| {
        assert IdWithin(f[i], k1, k2);
      } else if i > |f| {
        assert front[i] == g[i - |f| - 1] && IdWithin(g[i - |f| - 1], k2, k3);
      }
    }
  }

  // The whole program ---------------------------------------------------------------------------

  datatype Named = Named(name: string, d: Defun)

  datatype ProgramOut = NoProgram | ProgramOut(fns: seq<Generated>, defuns: map<string, Function>, starts: map<string, Counters>, k: Counters)

  predicate AllOrdinary(defs: seq<Named>) {
    forall i :: 0 <= i < |defs| ==> Ordinary(defs[i].name, defs[i].d)
  }

  /** emit_forms over definitions: the counters run on from one to the next. */
  function EmitAll(defs: seq<Named>, k: Counters): ProgramOut
    requires AllOrdinary(defs)
  {
    if |defs| == 0 then ProgramOut([], map[], map[], k)
    else
      var last := defs[|defs| - 1];
      var front := EmitAll(defs[..|defs| - 1], k);
      if front.NoProgram? then NoProgram else
      var o := EmitDefun(last.name, last.d, front.k);
      if o.Failure? then NoProgram
      else ProgramOut(front.fns + o.fns, front.defuns[last.name := DefunFunction(last.d, front.k, o)], front.starts[last.name := front.k], o.k)
  }

  function ProgramOf(defs: seq<Named>): Program {
    if |defs| == 0 then map[] else ProgramOf(defs[..|defs| - 1])[defs[|defs| - 1].name := defs[|defs| - 1].d]
  }

  function Notes(fns: seq<Generated>): map<nat, Note> {
    if |fns| == 0 then map[]
    else
      var g := fns[|fns| - 1];
      var rest := Notes(fns[..|fns| - 1]);
      if g.LambdaCode? then rest[g.id := g.note] else rest
  }

  /** The functions of one kind: 0 for closures, 1 for bodies, 2 for handlers. */
  function OfKind(fns: seq<Generated>, kind: nat): map<nat, Function> {
    if |fns| == 0 then map[]
    else
      var g := fns[|fns| - 1];
      var rest := OfKind(fns[..|fns| - 1], kind);
      if KindOf(g) == kind then rest[g.id := g.f] else rest
  }

  function KindOf(g: Generated): nat {
    match g
    case LambdaCode(_, _, _) => 0
    case BodyCode(_, _) => 1
    case HandlerCode(_, _) => 2
  }

  function BuildOf(o: ProgramOut): Build
    requires o.ProgramOut?
  {
    Build(Code(OfKind(o.fns, 0), OfKind(o.fns, 1), OfKind(o.fns, 2), o.defuns), Notes(o.fns), o.starts)
  }

  lemma {:induction false} OfKindHolds(fns: seq<Generated>, kind: nat, i: nat)
    requires i < |fns| && KindOf(fns[i]) == kind
    requires forall i, j :: 0 <= i < j < |fns| && SameKind(fns[i], fns[j]) ==> fns[i].id != fns[j].id
    ensures fns[i].id in OfKind(fns, kind) && OfKind(fns, kind)[fns[i].id] == fns[i].f
    ensures kind == 0 ==> fns[i].id in Notes(fns) && Notes(fns)[fns[i].id] == fns[i].note
    decreases |fns|
  {
    if i < |fns| - 1 {
      var front, g := fns[..|fns| - 1], fns[|fns| - 1];
      OfKindHolds(front, kind, i);
      if KindOf(g) == kind {
        assert SameKind(fns[i], g) && fns[i].id != g.id;
      }
    }
  }

  lemma {:induction false} OfKindIsListed(fns: seq<Generated>, kind: nat, id: nat) returns (i: nat)
    requires id in OfKind(fns, kind)
    ensures i < |fns| && KindOf(fns[i]) == kind && fns[i].id == id && fns[i].f == OfKind(fns, kind)[id]
    decreases |fns|
  {
    i := |fns| - 1;
    if !(KindOf(fns[i]) == kind && fns[i].id == id) {
      i := OfKindIsListed(fns[..|fns| - 1], kind, id);
    }
  }

  lemma {:induction false} NoteIsListed(fns: seq<Generated>, id: nat) returns (i: nat)
    requires id in Notes(fns)
    ensures i < |fns| && fns[i].LambdaCode? && fns[i].id == id && fns[i].note == Notes(fns)[id]
    decreases |fns|
  {
    i := |fns| - 1;
    if !(fns[i].LambdaCode? && fns[i].id == id) {
      i := NoteIsListed(fns[..|fns| - 1], id);
    }
  }

  lemma AllHold(o: ProgramOut, k: Counters, fns: seq<Generated>)
    requires o.ProgramOut? && Numbered(o.fns, k, o.k) && forall j :: 0 <= j < |fns| ==> fns[j] in o.fns
    ensures Contains(BuildOf(o), fns)
  {
    hide EmitClosureBody, OfKind, Notes;
    forall j | 0 <= j < |fns|
      ensures Holds(BuildOf(o), fns[j])
    {
      var i: nat :| i < |o.fns| && o.fns[i] == fns[j];
      OfKindHolds(o.fns, KindOf(fns[j]), i);
    }
  }

  lemma {:induction false} NumberAll(defs: seq<Named>, k: Counters)
    requires AllOrdinary(defs) && EmitAll(defs, k).ProgramOut?
    ensures var o := EmitAll(defs, k); Numbered(o.fns, k, o.k)
    ensures var o := EmitAll(defs, k); o.defuns.Keys == o.starts.Keys == ProgramOf(defs).Keys
    decreases |defs|
  {
    hide Emit, Numbered;
    if |defs| == 0 {
      NothingNumbered(k, k);
    } else {
      var last, front := defs[|defs| - 1], EmitAll(defs[..|defs| - 1], k);
      NumberAll(defs[..|defs| - 1], k);
      var o := EmitDefun(last.name, last.d, front.k);
      RangeIsBelow(last.d.params, front.k.temp);
      Number(last.d.body, Bind(last.d.params, Range(front.k.temp, |last.d.params|)), Some(Self(last.name, Range(front.k.temp, |last.d.params|))), true, Fresh(front.k, |last.d.params|));
      NumberedFrom(o.fns, front.k, Fresh(front.k, |last.d.params|), o.k);
      NumberedInOrder(front.fns, o.fns, k, front.k, o.k);
    }
  }

  ghost predicate DistinctNames(defs: seq<Named>) {
    forall i, j :: 0 <= i < j < |defs| ==> defs[i].name != defs[j].name
  }

  /** Where a definition's code is found in the output. */
  lemma {:induction false} DefunIsListed(defs: seq<Named>, k: Counters, i: nat)
    requires AllOrdinary(defs) && EmitAll(defs, k).ProgramOut? && DistinctNames(defs) && i < |defs|
    ensures var o := EmitAll(defs, k); var name := defs[i].name;
      && name in o.starts && name in o.defuns && name in ProgramOf(defs) && ProgramOf(defs)[name] == defs[i].d
      && EmitDefun(name, defs[i].d, o.starts[name]).Out?
      && o.defuns[name] == DefunFunction(defs[i].d, o.starts[name], EmitDefun(name, defs[i].d, o.starts[name]))
      && forall j :: 0 <= j < |EmitDefun(name, defs[i].d, o.starts[name]).fns| ==> EmitDefun(name, defs[i].d, o.starts[name]).fns[j] in o.fns
    decreases |defs|
  {
    hide EmitDefun;
    if i < |defs| - 1 {
      DefunIsListed(defs[..|defs| - 1], k, i);
    }
  }

  lemma {:induction false} ProgramIsListed(defs: seq<Named>, name: string) returns (i: nat)
    requires name in ProgramOf(defs)
    ensures i < |defs| && defs[i].name == name
    decreases |defs|
  {
    i := |defs| - 1;
    if defs[i].name != name {
      i := ProgramIsListed(defs[..|defs| - 1], name);
    }
  }

  /** The output of the emitter is a build of the program, exactly when every definition compiles. */
  lemma ProgramIsBuilt(defs: seq<Named>, k: Counters)
    requires AllOrdinary(defs) && EmitAll(defs, k).ProgramOut? && DistinctNames(defs)
    ensures Built(ProgramOf(defs), BuildOf(EmitAll(defs, k)))
      <==> forall i :: 0 <= i < |defs| ==> Usable(defs[i].d.body, Locals(defs[i].d.params))
  {
    hide EmitAll, EmitDefun, Usable, AcceptedFunction, EmitClosureBody, OfKind, Notes, ProgramOf;
    var o := EmitAll(defs, k);
    NumberAll(defs, k);
    ClosuresOk(o, k);
    forall name | name in ProgramOf(defs)
      ensures name in o.starts && DefunOk(ProgramOf(defs), BuildOf(o), name)
    {
      var i := ProgramIsListed(defs, name);
      DefunIsListed(defs, k, i);
      AllHold(o, k, EmitDefun(name, defs[i].d, o.starts[name]).fns);
    }
    AcceptedProgram(defs, k);
  }

  lemma ClosuresOk(o: ProgramOut, k: Counters)
    requires o.ProgramOut? && Numbered(o.fns, k, o.k)
    ensures forall id :: id in BuildOf(o).notes ==> ClosureOk(BuildOf(o), id)
  {
    hide EmitClosureBody, OfKind, Notes;
    var b := BuildOf(o);
    forall id | id in b.notes
      ensures ClosureOk(b, id)
    {
      var i := NoteIsListed(o.fns, id);
      assert NoteHolds(o.fns[i], o.fns);
      OfKindHolds(o.fns, 0, i);
      AllHold(o, k, EmitClosureBody(b.notes[id]).fns);
    }
  }

  /** The C compiler accepts the whole output exactly when every definition compiles. */
  lemma AcceptedProgram(defs: seq<Named>, k: Counters)
    requires AllOrdinary(defs) && EmitAll(defs, k).ProgramOut? && DistinctNames(defs)
    ensures AcceptedCode(BuildOf(EmitAll(defs, k)).code) <==> forall i :: 0 <= i < |defs| ==> Usable(defs[i].d.body, Locals(defs[i].d.params))
  {
    hide EmitDefun, Usable, AcceptedFunction;
    var o := EmitAll(defs, k);
    NumberAll(defs, k);
    AcceptedList(defs, k);
    AcceptedMaps(o, k);
    assert AcceptedDefuns(o) <==> forall i :: 0 <= i < |defs| ==> AcceptedFunction(o.defuns[defs[i].name]) by {
      DefunsAreListed(defs, k);
    }
  }

  ghost predicate AcceptedDefuns(o: ProgramOut)
    requires o.ProgramOut?
  {
    forall name :: name in o.defuns ==> AcceptedFunction(o.defuns[name])
  }

  lemma DefunsAreListed(defs: seq<Named>, k: Counters)
    requires AllOrdinary(defs) && EmitAll(defs, k).ProgramOut? && DistinctNames(defs)
    ensures var o := EmitAll(defs, k);
      && (forall i :: 0 <= i < |defs| ==> defs[i].name in o.defuns)
      && (AcceptedDefuns(o) <==> forall i :: 0 <= i < |defs| ==> AcceptedFunction(o.defuns[defs[i].name]))
  {
    hide EmitDefun, AcceptedFunction, EmitAll, ProgramOf;
    var o := EmitAll(defs, k);
    NumberAll(defs, k);
    forall i | 0 <= i < |defs|
      ensures defs[i].name in o.defuns
    {
      DefunIsListed(defs, k, i);
    }
    if forall i :: 0 <= i < |defs| ==> AcceptedFunction(o.defuns[defs[i].name]) {
      forall name | name in o.defuns
        ensures AcceptedFunction(o.defuns[name])
      {
        var i := ProgramIsListed(defs, name);
      }
    }
  }

  lemma AcceptedMaps(o: ProgramOut, k: Counters)
    requires o.ProgramOut? && Numbered(o.fns, k, o.k)
    ensures AcceptedCode(BuildOf(o).code) <==> AllAccepted(o.fns) && AcceptedDefuns(o)
  {
    hide EmitClosureBody, OfKind, AcceptedFunction;
    var c := BuildOf(o).code;
    if AcceptedCode(c) {
      forall i | 0 <= i < |o.fns|
        ensures AcceptedFunction(o.fns[i].f)
      {
        OfKindHolds(o.fns, KindOf(o.fns[i]), i);
      }
    }
    if AllAccepted(o.fns) && AcceptedDefuns(o) {
      forall id, kind | id in OfKind(o.fns, kind)
        ensures AcceptedFunction(OfKind(o.fns, kind)[id])
      {
        var i := OfKindIsListed(o.fns, kind, id);
      }
    }
  }

  lemma {:induction false} AcceptedList(defs: seq<Named>, k: Counters)
    requires AllOrdinary(defs) && EmitAll(defs, k).ProgramOut? && DistinctNames(defs)
    ensures var o := EmitAll(defs, k);
      && (forall i :: 0 <= i < |defs| ==> defs[i].name in o.defuns)
      && ((AllAccepted(o.fns) && forall i :: 0 <= i < |defs| ==> AcceptedFunction(o.defuns[defs[i].name]))
            <==> forall i :: 0 <= i < |defs| ==> Usable(defs[i].d.body, Locals(defs[i].d.params)))
    decreases |defs|
  {
    hide EmitDefun, Usable, AcceptedFunction;
    if |defs| > 0 {
      var front, last := defs[..|defs| - 1], defs[|defs| - 1];
      var o', o := EmitAll(front, k), EmitAll(defs, k);
      AcceptedList(front, k);
      DefunAcceptedExactly(last.name, last.d, o'.k);
      AllAcceptedParts(o'.fns, EmitDefun(last.name, last.d, o'.k).fns);
      assert forall i :: 0 <= i < |front| ==> defs[i] == front[i] && o.defuns[defs[i].name] == o'.defuns[front[i].name];
      assert o.defuns[last.name] == DefunFunction(last.d, o'.k, EmitDefun(last.name, last.d, o'.k));
    }
  }
}
