/** What src/c/emit.c generates for an expression: statements, the temporary of the result, and the
    functions of the closures and trap-error forms inside it. */
module Emission {
  import opened Options
  import opened KlSyntax
  import opened NativeCode

  const MAX_BINDS: nat := 256
  const MAX_CAPTURES: nat := 64

  datatype Bound = Bound(name: string, temp: Temp)

  datatype Self = Self(name: string, params: seq<Temp>)

  /** The next temporary, lambda and trap-error numbers. */
  datatype Counters = Counters(temp: nat, lambdaId: nat, trapId: nat)

  /** Where a closure's function came from: its parameters and body, and the scope. */
  datatype Note = Note(params: seq<string>, body: Kl, binds: seq<Bound>, k: Counters)

  datatype Generated =
    | LambdaCode(id: nat, f: Function, note: Note)
    | BodyCode(id: nat, f: Function)
    | HandlerCode(id: nat, f: Function)

  datatype Out = Failure | Out(t: Temp, stmts: seq<Stmt>, k: Counters, fns: seq<Generated>)

  datatype OutArgs = FailedArgs | OutArgs(ts: seq<Temp>, stmts: seq<Stmt>, k: Counters, fns: seq<Generated>)

  /** lookup_bind */
  function TempOf(binds: seq<Bound>, name: string): Option<Temp> {
    if |binds| == 0 then None
    else if binds[|binds| - 1].name == name then Some(binds[|binds| - 1].temp)
    else TempOf(binds[..|binds| - 1], name)
  }

  function Fresh(k: Counters, n: nat): Counters {
    k.(temp := k.temp + n)
  }

  /** n temporaries from the next one on. */
  function Range(first: nat, n: nat): seq<Temp> {
    seq(n, i requires 0 <= i < n => T(first + i))
  }

  function Bind(names: seq<string>, ts: seq<Temp>): seq<Bound>
    requires |names| == |ts|
  {
    seq(|names|, i requires 0 <= i < |names| => Bound(names[i], ts[i]))
  }

  function Names(binds: seq<Bound>): seq<string> {
    seq(|binds|, i requires 0 <= i < |binds| => binds[i].name)
  }

  function TempsOf(binds: seq<Bound>): seq<Temp> {
    seq(|binds|, i requires 0 <= i < |binds| => binds[i].temp)
  }

  // Captures ------------------------------------------------------------------------------------

  ghost predicate AllBound(binds: seq<Bound>, names: seq<string>) {
    forall i :: 0 <= i < |names| ==> TempOf(binds, names[i]).Some?
  }

  /** collect_free: the bound names that a body mentions, except the innermost parameter. Forms
      shaped like lambda and let are taken for binders whatever the head means. */
  function Collect(e: Kl, binds: seq<Bound>, extra: seq<string>, names: seq<string>): (r: seq<string>)
    requires AllBound(binds, names)
    ensures AllBound(binds, r)
    decreases Size(e), 0
  {
    match e
    case Sym(name) => if TempOf(binds, name).None? || name in extra || name in names then names else names + [name]
    case List(items) =>
      SizeOfParts(items);
      if |items| == 3 && items[0] == Sym("lambda") && items[1].Sym? then
        Collect(items[2], binds, [items[1].name], names)
      else if |items| == 4 && items[0] == Sym("let") && items[1].Sym? then
        Collect(items[3], binds, [items[1].name], Collect(items[2], binds, extra, names))
      else CollectAll(items, binds, extra, names)
    case _ => names
  }

  function CollectAll(es: seq<Kl>, binds: seq<Bound>, extra: seq<string>, names: seq<string>): (r: seq<string>)
    requires AllBound(binds, names)
    ensures AllBound(binds, r)
    decreases SizeAll(es), 1
  {
    if |es| == 0 then names else CollectAll(es[1..], binds, extra, Collect(es[0], binds, extra, names))
  }

  /** Names beyond the sixty-fourth are dropped. */
  function Captures(params: seq<string>, body: Kl, binds: seq<Bound>): (r: seq<string>)
    ensures AllBound(binds, r) && |r| <= MAX_CAPTURES
  {
    var all := Collect(body, binds, params, []);
    if |all| <= MAX_CAPTURES then all else all[..MAX_CAPTURES]
  }

  function CaptureTemps(binds: seq<Bound>, names: seq<string>): seq<Temp>
    requires AllBound(binds, names)
  {
    seq(|names|, i requires 0 <= i < |names| => TempOf(binds, names[i]).value)
  }

  // Expressions ---------------------------------------------------------------------------------

  function IsBoundHead(items: seq<Kl>, binds: seq<Bound>): bool
    requires |items| > 0
  {
    items[0].Sym? && TempOf(binds, items[0].name).Some?
  }

  function Simple(rhs: Rhs, k: Counters): Out {
    Out(T(k.temp), [Set(T(k.temp), rhs)], Fresh(k, 1), [])
  }

  /** emit_expr */
  function Emit(e: Kl, binds: seq<Bound>, self: Option<Self>, tail: bool, k: Counters): (r: Out)
    ensures r.Out? ==> k.temp <= r.k.temp
    decreases Size(e), 0
  {
    match e
    case Sym(name) =>
      if TempOf(binds, name).Some? then Out(TempOf(binds, name).value, [], Fresh(k, 1), []) else Simple(Intern(name), k)
    case Bool(_) => Simple(Literal(Constant(e)), k)
    case Lit(_) => Simple(Literal(Constant(e)), k)
    case List(items) =>
      if |items| == 0 then Simple(Literal(Nil), k)
      else
        PartsAreSmaller(items, IsBoundHead(items, binds));
        EmitForm(FormOf(items, IsBoundHead(items, binds)), binds, self, tail, k)
  }

  function EmitForm(form: Form, binds: seq<Bound>, self: Option<Self>, tail: bool, k: Counters): (r: Out)
    requires form.CondForm? ==> AreCases(form.cases)
    ensures r.Out? ==> k.temp <= r.k.temp
    decreases FormSize(form), 2
  {
    match form
    case IfForm(test, yes, no) => EmitIf(test, yes, no, binds, self, tail, k)
    case AndForm(left, right) => EmitBoth(left, right, true, binds, self, k)
    case OrForm(left, right) => EmitBoth(left, right, false, binds, self, k)
    case CondForm(cases) => EmitCases(T(k.temp), cases, binds, self, tail, Fresh(k, 1))
    case LetForm(name, bound, body) => EmitLet(name, bound, body, binds, self, tail, k)
    case DoForm(first, second) => EmitDo(first, second, binds, self, tail, k)
    case LambdaForm(name, body) => EmitClosure([name], body, binds, k)
    case FreezeForm(body) => EmitClosure([], body, binds, k)
    case TrapForm(body, handler) => EmitTrap(body, handler, binds, k)
    case TypeForm(expr) => Emit(expr, binds, self, tail, k)
    case NamedCall(f, args) => EmitNamed(f, args, binds, self, tail, k)
    case ValueCall(head, args) => EmitValueCall(head, args, binds, self, tail, k)
    case Unsupported => Failure
  }

  function EmitIf(test: Kl, yes: Kl, no: Kl, binds: seq<Bound>, self: Option<Self>, tail: bool, k: Counters): (r: Out)
    ensures r.Out? ==> k.temp <= r.k.temp
    decreases 1 + Size(test) + Size(yes) + Size(no), 0
  {
    var a := Emit(test, binds, self, false, Fresh(k, 1));
    if a.Failure? then Failure else
    var b := Emit(yes, binds, self, tail, a.k);
    if b.Failure? then Failure else
    var c := Emit(no, binds, self, tail, b.k);
    if c.Failure? then Failure else
    Out(T(k.temp), a.stmts + [If(T(k.temp), a.t, TEST_ERROR, b.stmts, b.t, c.stmts, c.t)], c.k, a.fns + b.fns + c.fns)
  }

  /** The right argument is never in tail position: its value is checked. */
  function EmitBoth(left: Kl, right: Kl, want: bool, binds: seq<Bound>, self: Option<Self>, k: Counters): (r: Out)
    ensures r.Out? ==> k.temp <= r.k.temp
    decreases 1 + Size(left) + Size(right), 0
  {
    var a := Emit(left, binds, self, false, Fresh(k, 1));
    if a.Failure? then Failure else
    var b := Emit(right, binds, self, false, a.k);
    if b.Failure? then Failure else
    var checked := b.stmts + [Check(b.t, ARGUMENT_ERROR)];
    var choice := if want then If(T(k.temp), a.t, ARGUMENT_ERROR, checked, b.t, [], a.t)
                  else If(T(k.temp), a.t, ARGUMENT_ERROR, [], a.t, checked, b.t);
    Out(T(k.temp), a.stmts + [choice], b.k, a.fns + b.fns)
  }

  function EmitCases(t: Temp, cases: seq<Kl>, binds: seq<Bound>, self: Option<Self>, tail: bool, k: Counters): (r: Out)
    requires AreCases(cases)
    ensures r.Out? ==> k.temp <= r.k.temp
    decreases 1 + SizeAll(cases), 0
  {
    if |cases| == 0 then Out(t, [Fail(NO_CASE_ERROR), Set(t, Literal(Nil))], k, [])
    else
      CasesAreSmaller(cases);
      var a := Emit(cases[0].items[0], binds, self, false, k);
      if a.Failure? then Failure else
      var b := Emit(cases[0].items[1], binds, self, tail, a.k);
      if b.Failure? then Failure else
      var c := EmitCases(t, cases[1..], binds, self, tail, b.k);
      if c.Failure? then Failure else
      Out(t, a.stmts + [If(t, a.t, CASE_ERROR, b.stmts, b.t, c.stmts, t)], c.k, a.fns + b.fns + c.fns)
  }

  /** A let makes no temporary: its name becomes another name of the value's. */
  function EmitLet(name: string, bound: Kl, body: Kl, binds: seq<Bound>, self: Option<Self>, tail: bool, k: Counters): (r: Out)
    ensures r.Out? ==> k.temp <= r.k.temp
    decreases 1 + Size(bound) + Size(body), 0
  {
    var a := Emit(bound, binds, self, false, k);
    if a.Failure? || |binds| >= MAX_BINDS then Failure else
    var b := Emit(body, binds + [Bound(name, a.t)], self, tail, a.k);
    if b.Failure? then Failure else Out(b.t, a.stmts + b.stmts, b.k, a.fns + b.fns)
  }

  function EmitDo(first: Kl, second: Kl, binds: seq<Bound>, self: Option<Self>, tail: bool, k: Counters): (r: Out)
    ensures r.Out? ==> k.temp <= r.k.temp
    decreases 1 + Size(first) + Size(second), 0
  {
    var a := Emit(first, binds, self, false, k);
    if a.Failure? then Failure else
    var b := Emit(second, binds, self, tail, a.k);
    if b.Failure? then Failure else Out(b.t, a.stmts + b.stmts, b.k, a.fns + b.fns)
  }

  /** emit_lambda_or_freeze: the temporary and number of the closure are taken first. */
  function EmitClosure(params: seq<string>, body: Kl, binds: seq<Bound>, k: Counters): (r: Out)
    ensures r.Out? ==> k.temp <= r.k.temp
    decreases 1 + Size(body), 0
  {
    var note := Note(params, body, binds, k.(temp := k.temp + 1, lambdaId := k.lambdaId + 1));
    var b := EmitClosureBody(note);
    if b.Failure? then Failure
    else
      var names := Captures(params, body, binds);
      Out(T(k.temp), [Set(T(k.temp), MakeClosure(k.lambdaId, |params|, CaptureTemps(binds, names)))], b.k,
          b.fns + [LambdaCode(k.lambdaId, ClosureFunction(note, b), note)])
  }

  /** The scope inside a closure: the scope outside, the captures, the parameter. */
  function ClosureBinds(n: Note): seq<Bound> {
    var names := Captures(n.params, n.body, n.binds);
    n.binds + Bind(names, Range(n.k.temp, |names|)) + Bind(n.params, Range(n.k.temp + |names|, |n.params|))
  }

  function ClosureStart(n: Note): Counters {
    Fresh(n.k, |Captures(n.params, n.body, n.binds)| + |n.params|)
  }

  function EmitClosureBody(n: Note): (r: Out)
    ensures r.Out? ==> n.k.temp <= r.k.temp
    decreases Size(n.body), 1
  {
    if |ClosureBinds(n)| > MAX_BINDS then Failure else Emit(n.body, ClosureBinds(n), None, true, ClosureStart(n))
  }

  function ClosureFunction(n: Note, b: Out): Function
    requires b.Out?
  {
    var names := Captures(n.params, n.body, n.binds);
    Function(Range(n.k.temp, |names|), Range(n.k.temp + |names|, |n.params|), b.stmts, b.t)
  }

  /** emit_trap: body and handler get the whole scope, slot by slot. */
  function EmitTrap(body: Kl, handler: Kl, binds: seq<Bound>, k: Counters): (r: Out)
    ensures r.Out? ==> k.temp <= r.k.temp
    decreases 1 + Size(body) + Size(handler), 0
  {
    var n := |binds|;
    var k1 := k.(temp := k.temp + 1, trapId := k.trapId + 1);
    var b := Emit(body, Bind(Names(binds), Range(k1.temp, n)), None, false, Fresh(k1, n));
    if b.Failure? then Failure else
    var h := Emit(handler, Bind(Names(binds), Range(b.k.temp, n)), None, false, Fresh(b.k, n));
    if h.Failure? then Failure else
    var bodyFn := Function(Range(k1.temp, n), [], b.stmts, b.t);
    var applied := T(h.k.temp);
    var handlerFn := Function(Range(b.k.temp, n), [Exception], h.stmts + [Set(applied, Indirect(h.t, [Exception]))], applied);
    Out(T(k.temp), [Set(T(k.temp), Trap(k.trapId, TempsOf(binds)))], Fresh(h.k, 1),
        b.fns + [BodyCode(k.trapId, bodyFn)] + h.fns + [HandlerCode(k.trapId, handlerFn)])
  }

  function EmitArgs(args: seq<Kl>, binds: seq<Bound>, self: Option<Self>, k: Counters): (r: OutArgs)
    ensures r.OutArgs? ==> |r.ts| == |args| && k.temp <= r.k.temp
    decreases 1 + SizeAll(args), 0
  {
    if |args| == 0 then OutArgs([], [], k, [])
    else
      var a := Emit(args[0], binds, self, false, k);
      if a.Failure? then FailedArgs else
      var rest := EmitArgs(args[1..], binds, self, a.k);
      if rest.FailedArgs? then FailedArgs
      else OutArgs([a.t] + rest.ts, a.stmts + rest.stmts, rest.k, a.fns + rest.fns)
  }

  predicate IsSelfTail(f: string, n: nat, self: Option<Self>, tail: bool) {
    tail && self.Some? && f == self.value.name && n == |self.value.params|
  }

  function Moves(to: seq<Temp>, from: seq<Temp>): seq<Stmt>
    requires |to| == |from|
  {
    seq(|to|, i requires 0 <= i < |to| => Set(to[i], Move(from[i])))
  }

  function Copies(t: nat, n: nat): seq<Temp> {
    seq(n, i requires 0 <= i < n => Copy(t, i))
  }

  /** A self tail call copies every argument before it overwrites a parameter. */
  function SelfTail(t: nat, args: seq<Temp>, params: seq<Temp>): seq<Stmt>
    requires |args| == |params|
  {
    Moves(Copies(t, |args|), args) + Moves(params, Copies(t, |args|)) + [Goto, Set(T(t), Literal(Null))]
  }

  /** emit_prim_inline, the self tail call and the named call of emit_apply. */
  function EmitNamed(f: string, args: seq<Kl>, binds: seq<Bound>, self: Option<Self>, tail: bool, k: Counters): (r: Out)
    ensures r.Out? ==> k.temp <= r.k.temp
    decreases 1 + SizeAll(args), 1
  {
    if InlineArity(f) == |args| > 0 then
      var a := EmitArgs(args, binds, self, k);
      if a.FailedArgs? then Failure
      else Out(T(a.k.temp), a.stmts + [Set(T(a.k.temp), Inline(f, a.ts))], Fresh(a.k, 1), a.fns)
    else if |args| > MAX_BINDS then Failure
    else if IsSelfTail(f, |args|, self, tail) then
      var a := EmitArgs(args, binds, self, k);
      if a.FailedArgs? then Failure
      else
        var t := a.k.temp;
        Out(T(t), a.stmts + SelfTail(t, a.ts, self.value.params), Fresh(a.k, 1), a.fns)
    else
      var a := EmitArgs(args, binds, self, Fresh(k, 1));
      if a.FailedArgs? then Failure
      else Out(T(k.temp), a.stmts + [Set(T(k.temp), if tail then TailDirect(f, a.ts) else Direct(f, a.ts))], a.k, a.fns)
  }

  function EmitValueCall(head: Kl, args: seq<Kl>, binds: seq<Bound>, self: Option<Self>, tail: bool, k: Counters): (r: Out)
    ensures r.Out? ==> k.temp <= r.k.temp
    decreases 1 + Size(head) + SizeAll(args), 0
  {
    if |args| > MAX_BINDS then Failure else
    var h := Emit(head, binds, self, false, Fresh(k, 1));
    if h.Failure? then Failure else
    var a := EmitArgs(args, binds, self, h.k);
    if a.FailedArgs? then Failure
    else Out(T(k.temp), h.stmts + a.stmts + [Set(T(k.temp), if tail then TailIndirect(h.t, a.ts) else Indirect(h.t, a.ts))], a.k, h.fns + a.fns)
  }

  /** Definitions that are emitted in another way: the steps of a do chain without parameters become
      functions of their own, whose values are dropped, and shen.lambda-entry gets a test. */
  predicate Ordinary(name: string, d: Defun) {
    && !(|d.params| == 0 && d.body.List? && |d.body.items| == 3 && d.body.items[0] == Sym("do"))
    && !(|d.params| == 1 && name == "shen.lambda-entry")
  }

  /** emit_defun_into: the parameters are the only scope. */
  function EmitDefun(name: string, d: Defun, k: Counters): Out
    requires Ordinary(name, d)
  {
    var params := Range(k.temp, |d.params|);
    if |d.params| > MAX_BINDS then Failure
    else Emit(d.body, Bind(d.params, params), Some(Self(name, params)), true, Fresh(k, |d.params|))
  }

  function DefunFunction(d: Defun, k: Counters, b: Out): Function
    requires b.Out?
  {
    Function([], Range(k.temp, |d.params|), b.stmts, b.t)
  }
}
