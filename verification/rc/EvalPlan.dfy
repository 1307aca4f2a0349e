/** Prepared evaluation plans of src/rc/eval_plan.h: the node format, what a well-formed plan
    is, what running one means, and when a node represents an expression. */
module EvalPlan {
  import opened Options
  import opened RcValue
  import opened Evaluator

  const PLAN_LIMIT: nat := 4096
  const PLAN_DEPTH: nat := 128

  /** The fields of a node are 16 bits wide; every store below is proved to fit. */
  type U16 = x: nat | x < 0x1_0000

  datatype Op = PConst | PLocal | PNonlocal | PCall | PCallExpr | PIf | PLet | PCond
              | PAnd | POr | PType | PFallback

  datatype Node = Node(op: Op, a: U16, b: U16, c: U16, n: U16)

  datatype Code = Code(nodes: seq<Node>, aux: seq<U16>, literals: seq<Value>, params: seq<string>)

  // Compile-time scopes -----------------------------------------------------------------

  /** The let binders in scope, innermost first, each with its depth. */
  datatype Scope = Top | Binding(name: string, depth: nat, outer: Scope)

  predicate WellScoped(sc: Scope, depth: nat) {
    match sc
    case Top => depth == 0
    case Binding(_, d, outer) => d == depth && depth > 0 && WellScoped(outer, depth - 1)
  }

  /** How many frames up the innermost binder of the name is. */
  function FindBinder(sc: Scope, name: string, depth: nat): (r: Option<nat>)
    requires WellScoped(sc, depth)
    ensures r.Some? ==> r.value < depth
    decreases sc
  {
    match sc
    case Top => None
    case Binding(n, d, outer) =>
      if n == name then Some(0)
      else match FindBinder(outer, name, depth - 1) case None => None case Some(up) => Some(up + 1)
  }

  function FindParameter(params: seq<string>, name: string, i: nat): (r: Option<nat>)
    requires i <= |params|
    ensures r.Some? ==> i <= r.value < |params| && params[r.value] == name
    ensures r.None? ==> forall j :: i <= j < |params| ==> params[j] != name
    decreases |params| - i
  {
    if i == |params| then None
    else if params[i] == name then Some(i)
    else FindParameter(params, name, i + 1)
  }

  /** plan_local: the address (frames up, slot) of a name, if it is local. */
  function PlanLocal(params: seq<string>, name: string, sc: Scope, depth: nat): (r: Option<(nat, nat)>)
    requires WellScoped(sc, depth)
    ensures r.Some? ==> r.value.0 <= depth && (r.value.0 == depth ==> r.value.1 < |params|)
  {
    match FindBinder(sc, name, depth)
    case Some(up) => Some((up, 0))
    case None =>
      match FindParameter(params, name, 0)
      case Some(slot) => Some((depth, slot))
      case None => None
  }

  // Which expressions get a node of their own -----------------------------------------

  function LocalHead(params: seq<string>, head: Value, sc: Scope, depth: nat): bool
    requires WellScoped(sc, depth)
  {
    head.Sym? && PlanLocal(params, head.name, sc, depth).Some?
  }

  predicate ClausesAreShaped(clauses: seq<Value>) {
    forall i :: 0 <= i < |clauses| ==> Items(clauses[i]).Some? && |Items(clauses[i]).value| == 2
  }

  /** The form under which a list expression is compiled; None when its shape is left to the
      tree evaluator. A local head hides a special form. */
  function PlannedForm(params: seq<string>, e: Value, sc: Scope, depth: nat): Option<Form>
    requires e.Pair? && WellScoped(sc, depth)
  {
    match Items(e.tail)
    case None => None
    case Some(args) =>
      if |args| > PLAN_LIMIT then None
      else
        var form := if LocalHead(params, e.head, sc, depth) then FCall else FormOf(e.head);
        var shaped := match form
          case FIf => |args| == 3
          case FLet => |args| == 3 && args[0].Sym?
          case FCond => ClausesAreShaped(args)
          case FAnd | FOr | FType => |args| == 2
          case FQuote => |args| == 1
          case FCall => true
          case _ => false;
        if shaped then Some(form) else None
  }

  /** Cells of the auxiliary table that a form reserves for n operands. */
  function AuxNeed(form: Form, n: nat): nat {
    match form case FCond => 2 * n case FCall => n case _ => 0
  }

  // Well-formed plans -------------------------------------------------------------------

  predicate LiteralAt(c: Code, i: nat) {
    i < |c.literals|
  }

  predicate SymbolAt(c: Code, i: nat) {
    i < |c.literals| && c.literals[i].Sym?
  }

  /** Every index reachable from a node is in range, children come after their parent, and
      local addresses stay within depth enclosing lets. */
  ghost predicate WellFormed(c: Code, id: nat, depth: nat)
    decreases |c.nodes| - id
  {
    id < |c.nodes| &&
    var n := c.nodes[id];
    match n.op
    case PConst | PFallback => LiteralAt(c, n.a)
    case PNonlocal => SymbolAt(c, n.a)
    case PLocal => n.a <= depth && (n.a == depth ==> n.b < |c.params|)
    case PIf =>
      id < n.a && WellFormed(c, n.a, depth) && id < n.b && WellFormed(c, n.b, depth)
      && id < n.c && WellFormed(c, n.c, depth)
    case PLet => SymbolAt(c, n.a) && id < n.b && WellFormed(c, n.b, depth) && id < n.c && WellFormed(c, n.c, depth + 1)
    case PAnd | POr => id < n.a && WellFormed(c, n.a, depth) && id < n.b && WellFormed(c, n.b, depth)
    case PType => id < n.a && WellFormed(c, n.a, depth)
    case PCond =>
      n.a + 2 * n.n <= |c.aux|
      && forall i :: n.a <= i < n.a + 2 * n.n ==> id < c.aux[i] && WellFormed(c, c.aux[i], depth)
    case PCall =>
      id < n.a && WellFormed(c, n.a, depth) && c.nodes[n.a].op in {PLocal, PNonlocal} && n.b + n.n <= |c.aux|
      && forall i :: n.b <= i < n.b + n.n ==> id < c.aux[i] && WellFormed(c, c.aux[i], depth)
    case PCallExpr =>
      id < n.a && WellFormed(c, n.a, depth) && n.b + n.n <= |c.aux|
      && forall i :: n.b <= i < n.b + n.n ==> id < c.aux[i] && WellFormed(c, c.aux[i], depth)
  }

  // Running a plan ------------------------------------------------------------------------

  /** The values of the lets entered so far, innermost first. */
  datatype Locals = Outermost | Let(name: string, value: Value, outer: Locals)

  function Height(l: Locals): nat {
    match l case Outermost => 0 case Let(_, _, outer) => 1 + Height(outer)
  }

  function Climb(l: Locals, up: nat): (r: Locals)
    requires up <= Height(l)
    ensures Height(r) == Height(l) - up
  {
    if up == 0 then l else Climb(l.outer, up - 1)
  }

  datatype Run = Run(code: Code, parent: Env, arguments: seq<Value>)

  predicate Entered(run: Run) {
    |run.arguments| == |run.code.params|
  }

  /** The heap frames that stand for the locals, as plan_environment builds them on demand. */
  function Materialize(run: Run, l: Locals): Env
    requires Entered(run)
  {
    match l
    case Outermost => MakeFrame(run.parent, run.code.params, run.arguments)
    case Let(name, value, outer) => Extend(Materialize(run, outer), name, value)
  }

  predicate IsOperand(op: Op) {
    op in {PConst, PLocal, PNonlocal}
  }

  /** plan_value */
  function OperandValue(run: Run, id: nat, l: Locals): Value
    requires Entered(run) && WellFormed(run.code, id, Height(l)) && IsOperand(run.code.nodes[id].op)
  {
    var n := run.code.nodes[id];
    match n.op
    case PLocal =>
      (match Climb(l, n.a) case Outermost => run.arguments[n.b] case Let(_, v, _) => v)
    case PNonlocal =>
      (match Lookup(run.parent, run.code.literals[n.a].name)
       case Some(v) => v
       case None => run.code.literals[n.a])
    case PConst => run.code.literals[n.a]
  }

  function Exec(rt: Runtime, run: Run, h: History, id: nat, l: Locals, tail: bool): Outcome
    requires Entered(run) && WellFormed(run.code, id, Height(l))
    decreases |run.code.nodes| - id, 2
  {
    var n := run.code.nodes[id];
    match n.op
    case PConst | PLocal | PNonlocal => Done(OperandValue(run, id, l), h)
    case PCall | PCallExpr => ExecCall(rt, run, h, id, l, tail)
    case PIf =>
      (match Exec(rt, run, h, n.a, l, false)
       case Failed(m, h1) => Failed(m, h1)
       case Done(test, h1) =>
         if !IsBoolean(test) then Failed(IfTest, h1)
         else if IsTrue(test) then Exec(rt, run, h1, n.b, l, tail)
         else Exec(rt, run, h1, n.c, l, tail))
    case PLet =>
      (match Exec(rt, run, h, n.b, l, false)
       case Failed(m, h1) => Failed(m, h1)
       case Done(v, h1) => Exec(rt, run, h1, n.c, Let(run.code.literals[n.a].name, v, l), tail))
    case PCond => ExecCond(rt, run, h, id, 0, l, tail)
    case PAnd | POr =>
      (match Exec(rt, run, h, n.a, l, false)
       case Failed(m, h1) => Failed(m, h1)
       case Done(first, h1) =>
         if !IsBoolean(first) then Failed(BooleanArguments, h1)
         else if IsTrue(first) != n.op.PAnd? then Done(first, h1)
         else Require(rt, Exec(rt, run, h1, n.b, l, tail), BooleanGuard))
    case PType => Exec(rt, run, h, n.a, l, tail)
    case PFallback => Eval(rt, h, run.code.literals[n.a], Materialize(run, l), tail)
  }

  function ExecCond(rt: Runtime, run: Run, h: History, id: nat, i: nat, l: Locals, tail: bool): Outcome
    requires Entered(run) && WellFormed(run.code, id, Height(l))
    requires run.code.nodes[id].op.PCond? && i <= run.code.nodes[id].n
    decreases |run.code.nodes| - id, 0, run.code.nodes[id].n - i
  {
    var n := run.code.nodes[id];
    if i == n.n then Failed(NoTrueCase, h)
    else
      match Exec(rt, run, h, run.code.aux[n.a + 2 * i], l, false)
      case Failed(m, h1) => Failed(m, h1)
      case Done(test, h1) =>
        if !IsBoolean(test) then Failed(CondTest, h1)
        else if IsTrue(test) then
          Exec(rt, run, h1, run.code.aux[n.a + 2 * i + 1], l, tail)
        else ExecCond(rt, run, h1, id, i + 1, l, tail)
  }

  /** plan_application */
  function ExecCall(rt: Runtime, run: Run, h: History, id: nat, l: Locals, tail: bool): Outcome
    requires Entered(run) && WellFormed(run.code, id, Height(l))
    requires run.code.nodes[id].op in {PCall, PCallExpr}
    decreases |run.code.nodes| - id, 1
  {
    match ExecCallee(rt, run, h, id, l)
    case Failed(m, h1) => Failed(m, h1)
    case Done(f, h1) =>
      var n := run.code.nodes[id];
      if tail && n.n == 2 && rt.returnsSecond(h1, f) then
        (match Exec(rt, run, h1, run.code.aux[n.b], l, false)
         case Failed(m, h2) => Failed(m, h2)
         case Done(first, h2) =>
           var accepted := rt.accepts(h2, f, first);
           FinishSecond(rt, f, first, accepted, Exec(rt, run, h2, run.code.aux[n.b + 1], l, accepted)))
      else
        match ExecArguments(rt, run, h1, id, 0, l)
        case Stopped(m, h2) => Failed(m, h2)
        case Values(vs, h2) => Call(rt, h2, f, vs, tail)
  }

  function ExecCallee(rt: Runtime, run: Run, h: History, id: nat, l: Locals): Outcome
    requires Entered(run) && WellFormed(run.code, id, Height(l))
    requires run.code.nodes[id].op in {PCall, PCallExpr}
    decreases |run.code.nodes| - id, 0
  {
    var n := run.code.nodes[id];
    if n.op.PCall? then
      var v := OperandValue(run, n.a, l);
      if v.Sym? then FunctionGet(rt, h, v.name) else Done(v, h)
    else
      var f := Exec(rt, run, h, n.a, l, false);
      if f.Done? && f.value.Sym? then FunctionGet(rt, f.history, f.value.name) else f
  }

  function ExecArguments(rt: Runtime, run: Run, h: History, id: nat, i: nat, l: Locals): Arguments
    requires Entered(run) && WellFormed(run.code, id, Height(l))
    requires run.code.nodes[id].op in {PCall, PCallExpr} && i <= run.code.nodes[id].n
    decreases |run.code.nodes| - id, 0, run.code.nodes[id].n - i
  {
    var n := run.code.nodes[id];
    if i == n.n then Values([], h)
    else
      match Exec(rt, run, h, run.code.aux[n.b + i], l, false)
      case Failed(m, h1) => Stopped(m, h1)
      case Done(v, h1) =>
        match ExecArguments(rt, run, h1, id, i + 1, l)
        case Stopped(m, h2) => Stopped(m, h2)
        case Values(vs, h2) => Values([v] + vs, h2)
  }

  // Representation --------------------------------------------------------------------------

  /** What a node stands for: an expression, the let scope around it and the scope's depth. */
  datatype Note = Note(e: Value, sc: Scope, depth: nat)

  predicate LiteralIs(c: Code, i: nat, v: Value) {
    i < |c.literals| && c.literals[i] == v
  }

  /** A child comes after its parent and stands for the given part. */
  predicate StandsFor(notes: seq<Note>, id: nat, child: nat, e: Value, sc: Scope, depth: nat) {
    id < child < |notes| && notes[child] == Note(e, sc, depth)
  }

  predicate AtomMatches(c: Code, n: Node, note: Note)
    requires WellScoped(note.sc, note.depth)
  {
    if note.e.Sym? then
      match PlanLocal(c.params, note.e.name, note.sc, note.depth)
      case Some((up, slot)) => n.op.PLocal? && n.a == up && n.b == slot
      case None => n.op.PNonlocal? && LiteralIs(c, n.a, note.e)
    else n.op.PConst? && LiteralIs(c, n.a, note.e)
  }

  /** A fallback is allowed only for an unsupported shape or an exhausted auxiliary table. */
  predicate MayFallBack(c: Code, note: Note)
    requires note.e.Pair? && WellScoped(note.sc, note.depth)
  {
    match PlannedForm(c.params, note.e, note.sc, note.depth)
    case None => true
    case Some(form) => AuxNeed(form, |Items(note.e.tail).value|) + |c.aux| > PLAN_LIMIT
  }

  predicate FormMatches(c: Code, notes: seq<Note>, id: nat, form: Form, lo: nat)
    requires id < |c.nodes| && id < |notes| && notes[id].e.Pair? && WellScoped(notes[id].sc, notes[id].depth)
    requires PlannedForm(c.params, notes[id].e, notes[id].sc, notes[id].depth) == Some(form)
  {
    var n, Note(e, sc, d) := c.nodes[id], notes[id];
    var args := Items(e.tail).value;
    match form
    case FIf =>
      n.op.PIf? && StandsFor(notes, id, n.a, args[0], sc, d)
      && StandsFor(notes, id, n.b, args[1], sc, d) && StandsFor(notes, id, n.c, args[2], sc, d)
    case FLet =>
      n.op.PLet? && LiteralIs(c, n.a, args[0]) && StandsFor(notes, id, n.b, args[1], sc, d)
      && StandsFor(notes, id, n.c, args[2], Binding(args[0].name, d + 1, sc), d + 1)
    case FCond =>
      n.op.PCond? && n.n == |args| && lo <= n.a && n.a + 2 * n.n <= |c.aux|
      && forall i :: 0 <= i < |args| ==> ClauseMatches(c, notes, id, args[i], n.a + 2 * i)
    case FAnd | FOr =>
      n.op == (if form.FAnd? then PAnd else POr)
      && StandsFor(notes, id, n.a, args[0], sc, d) && StandsFor(notes, id, n.b, args[1], sc, d)
    case FType => n.op.PType? && StandsFor(notes, id, n.a, args[0], sc, d)
    case FQuote => n.op.PConst? && LiteralIs(c, n.a, args[0])
    case FCall =>
      n.op == (if e.head.Sym? then PCall else PCallExpr) && StandsFor(notes, id, n.a, e.head, sc, d)
      && n.n == |args| && lo <= n.b && n.b + n.n <= |c.aux|
      && forall i :: 0 <= i < |args| ==> StandsFor(notes, id, c.aux[n.b + i], args[i], sc, d)
    case _ => false
  }

  predicate ClauseMatches(c: Code, notes: seq<Note>, id: nat, clause: Value, cell: nat)
    requires id < |notes|
  {
    cell + 1 < |c.aux| && Items(clause).Some? && |Items(clause).value| == 2
    && StandsFor(notes, id, c.aux[cell], Items(clause).value[0], notes[id].sc, notes[id].depth)
    && StandsFor(notes, id, c.aux[cell + 1], Items(clause).value[1], notes[id].sc, notes[id].depth)
  }

  /** Node id is the code of what its note says, with auxiliary cells from lo on only. */
  predicate Faithful(c: Code, notes: seq<Note>, id: nat, lo: nat) {
    id < |c.nodes| && id < |notes| && WellScoped(notes[id].sc, notes[id].depth) &&
    var note := notes[id];
    if !note.e.Pair? then AtomMatches(c, c.nodes[id], note)
    else if c.nodes[id].op.PFallback? then LiteralIs(c, c.nodes[id].a, note.e) && MayFallBack(c, note)
    else
      var form := PlannedForm(c.params, note.e, note.sc, note.depth);
      form.Some? && FormMatches(c, notes, id, form.value, lo)
  }

  /** Every node from the given one on is faithful. */
  ghost predicate AllFaithful(c: Code, notes: seq<Note>, from: nat, lo: nat) {
    |notes| == |c.nodes| && forall id :: from <= id < |c.nodes| ==> Faithful(c, notes, id, lo)
  }
}
