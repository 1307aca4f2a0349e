/** The reference evaluator of src/rc/eval.c. Function calls, the function table and closure
    construction belong to the surrounding runtime. The runtime answers as a function of the
    whole history of earlier interactions, so two evaluations that end in the same history
    have performed the same interactions, with the same operands, in the same order. */
module Evaluator {
  import opened Options
  import opened RcValue

  datatype Event =
    | Called(function_: Value, arguments: seq<Value>, tail: bool)
    | MadeFunction(parameters: seq<string>, body: Value, env: Env)
    | SetFunction(name: string, function_: Value)
    | Handled(handler: Value, message: Message, tail: bool)
    | Guarded(request: Value, guard: Guard)
    | Safepoint

  type History = seq<Event>

  datatype Guard = BooleanGuard | ContextGuard

  datatype Message =
    | ImproperList
    | WrongCount(form: Form, expected: nat, received: nat)
    | BadLetBinder | BadLambdaBinder | BadDefunName | BadParameter
    | DuplicateParameter(name: string)
    | IfTest | CondTest | NoTrueCase | BooleanArguments | BooleanExpected
    | UndefinedFunction(name: string)
    | Raised(code: nat)

  datatype Reply = Return(value: Value) | Raise(message: Message)

  datatype Runtime = Runtime(
    functionOf: (History, string) -> Option<Value>,
    returnsSecond: (History, Value) -> bool,
    accepts: (History, Value, Value) -> bool,
    call: (History, Value, seq<Value>, bool) -> Reply,
    makeFunction: (History, seq<string>, Value, Env) -> Reply,
    setFunction: (History, string, Value) -> Option<Message>,
    handle: (History, Value, Message, bool) -> Reply,
    guard: (History, Value, Guard) -> Reply,
    pending: History -> Option<Message>)

  /** rc_function_set stores only closures, so a function slot never holds a symbol. */
  ghost predicate StoresClosures(rt: Runtime) {
    forall h, s :: rt.functionOf(h, s).Some? ==> !rt.functionOf(h, s).value.Sym?
  }

  datatype Outcome = Done(value: Value, history: History) | Failed(message: Message, history: History)

  datatype Arguments = Values(values: seq<Value>, history: History)
                     | Stopped(message: Message, history: History)

  function Perform(h: History, event: Event, reply: Reply): Outcome {
    match reply
    case Return(v) => Done(v, h + [event])
    case Raise(m) => Failed(m, h + [event])
  }

  // Special forms ---------------------------------------------------------------------

  datatype Form = FCall | FIf | FLet | FCond | FAnd | FOr | FLambda | FFreeze | FDefun
                | FTrap | FType | FQuote

  function FormOf(head: Value): (f: Form)
    ensures f != FCall ==> head.Sym? && KeyClassOf(head.name) == Lower
  {
    match head
    case Sym("if") => FIf
    case Sym("let") => FLet
    case Sym("lambda") => FLambda
    case Sym("cond") => FCond
    case Sym("c-quote") => FQuote
    case Sym("and") => FAnd
    case Sym("or") => FOr
    case Sym("freeze") => FFreeze
    case Sym("defun") => FDefun
    case Sym("trap-error") => FTrap
    case Sym("type") => FType
    case Sym("quote") => FQuote
    case _ => FCall
  }

  // Runtime interactions ---------------------------------------------------------------

  function FunctionGet(rt: Runtime, h: History, name: string): Outcome {
    match rt.functionOf(h, name)
    case Some(f) => Done(f, h)
    case None => Failed(UndefinedFunction(name), h)
  }

  function Call(rt: Runtime, h: History, f: Value, args: seq<Value>, tail: bool): Outcome {
    Perform(h, Called(f, args, tail), rt.call(h, f, args, tail))
  }

  /** require_guard: a deferred request takes the guard on, any other value is checked now. */
  function Require(rt: Runtime, o: Outcome, guard: Guard): Outcome {
    match o
    case Failed(_, _) => o
    case Done(v, h) =>
      if v.Request? then Perform(h, Guarded(v, guard), rt.guard(h, v, guard))
      else if guard == ContextGuard || IsBoolean(v) then o
      else Failed(BooleanExpected, h)
  }

  function ParametersFrom(items: seq<Value>, i: nat): Option<Message>
    requires i <= |items|
    decreases |items| - i
  {
    if i == |items| then None
    else if !items[i].Sym? then Some(BadParameter)
    else if items[i] in items[i + 1..] then Some(DuplicateParameter(items[i].name))
    else ParametersFrom(items, i + 1)
  }

  function Names(items: seq<Value>): seq<string>
    requires forall x :: x in items ==> x.Sym?
  {
    seq(|items|, i requires 0 <= i < |items| => assert items[i] in items; items[i].name)
  }

  predicate Distinct<T(==)>(s: seq<T>) {
    forall i, j :: 0 <= i < j < |s| ==> s[i] != s[j]
  }

  /** What the parameter check establishes: only symbols, and no symbol twice. */
  lemma {:induction false} ParametersAreDistinct(items: seq<Value>, i: nat)
    requires i <= |items| && ParametersFrom(items, i).None?
    ensures forall j :: i <= j < |items| ==> items[j].Sym?
    ensures forall j, k :: i <= j < k < |items| ==> items[j] != items[k]
    decreases |items| - i
  {
    if i < |items| {
      ParametersAreDistinct(items, i + 1);
      assert forall k :: i < k < |items| ==> items[k] == items[i + 1..][k - i - 1];
    }
  }

  function MakeFunction(rt: Runtime, h: History, parameters: Value, body: Value, env: Env): Outcome {
    match Items(parameters)
    case None => Failed(ImproperList, h)
    case Some(items) =>
      match ParametersFrom(items, 0)
      case Some(m) => Failed(m, h)
      case None =>
        ParametersAreDistinct(items, 0);
        var names := Names(items);
        Perform(h, MadeFunction(names, body, env), rt.makeFunction(h, names, body, env))
  }

  function DefineFunction(rt: Runtime, name: Value, made: Outcome): Outcome
    requires name.Sym?
  {
    match made
    case Failed(_, _) => made
    case Done(f, h) =>
      match rt.setFunction(h, name.name, f)
      case Some(m) => Failed(m, h + [SetFunction(name.name, f)])
      case None => Done(name, h + [SetFunction(name.name, f)])
  }

  /** The end of a call to a closure that returns its second argument: the call itself when
      the first argument is foreign, otherwise only a context check and a safepoint. */
  function FinishSecond(rt: Runtime, f: Value, first: Value, accepted: bool, second: Outcome): Outcome {
    match second
    case Failed(_, _) => second
    case Done(v, h) =>
      if !accepted then Call(rt, h, f, [first, v], true)
      else match rt.pending(h)
        case Some(m) => Failed(m, h)
        case None =>
          match Require(rt, second, ContextGuard)
          case Failed(m, h') => Failed(m, h')
          case Done(v', h') => Done(v', h' + [Safepoint])
  }

  // The evaluator ----------------------------------------------------------------------

  function Atomic(e: Value, env: Env): Value {
    if e.Sym? then
      match Lookup(env, e.name) case Some(v) => v case None => e
    else e
  }

  /** The binding that a symbol in head position has in the environment. */
  function LexicalHead(head: Value, env: Env): Option<Value> {
    if head.Sym? then Lookup(env, head.name) else None
  }

  function Eval(rt: Runtime, h: History, e: Value, env: Env, tail: bool): Outcome
    decreases e, 3
  {
    if !e.Pair? then Done(Atomic(e, env), h)
    else
      match Items(e.tail)
      case None => Failed(ImproperList, h)
      case Some(args) =>
        if LexicalHead(e.head, env).Some? then Application(rt, h, e, args, env, tail)
        else EvalForm(rt, h, e, FormOf(e.head), args, env, tail)
  }

  function EvalForm(rt: Runtime, h: History, e: Value, form: Form, args: seq<Value>, env: Env, tail: bool): Outcome
    requires e.Pair? && Within(args, e)
    decreases e, 2
  {
    match form
    case FIf =>
      if |args| != 3 then Failed(WrongCount(form, 3, |args|), h)
      else (
        match Eval(rt, h, args[0], env, false)
        case Failed(m, h1) => Failed(m, h1)
        case Done(test, h1) =>
          if !IsBoolean(test) then Failed(IfTest, h1)
          else Eval(rt, h1, if IsTrue(test) then args[1] else args[2], env, tail))
    case FLet =>
      if |args| != 3 then Failed(WrongCount(form, 3, |args|), h)
      else if !args[0].Sym? then Failed(BadLetBinder, h)
      else (
        match Eval(rt, h, args[1], env, false)
        case Failed(m, h1) => Failed(m, h1)
        case Done(v, h1) => Eval(rt, h1, args[2], Extend(env, args[0].name, v), tail))
    case FCond => EvalCond(rt, h, e, args, env, tail)
    case FAnd | FOr =>
      if |args| != 2 then Failed(WrongCount(form, 2, |args|), h)
      else (
        match Eval(rt, h, args[0], env, false)
        case Failed(m, h1) => Failed(m, h1)
        case Done(first, h1) =>
          if !IsBoolean(first) then Failed(BooleanArguments, h1)
          else if IsTrue(first) != form.FAnd? then Done(first, h1)
          else Require(rt, Eval(rt, h1, args[1], env, tail), BooleanGuard))
    case FLambda =>
      if |args| != 2 then Failed(WrongCount(form, 2, |args|), h)
      else if !args[0].Sym? then Failed(BadLambdaBinder, h)
      else MakeFunction(rt, h, Pair(0, args[0], Nil), args[1], env)
    case FFreeze =>
      if |args| != 1 then Failed(WrongCount(form, 1, |args|), h)
      else MakeFunction(rt, h, Nil, args[0], env)
    case FDefun =>
      if |args| != 3 then Failed(WrongCount(form, 3, |args|), h)
      else if !args[0].Sym? then Failed(BadDefunName, h)
      else DefineFunction(rt, args[0], MakeFunction(rt, h, args[1], args[2], Empty))
    case FTrap =>
      if |args| != 2 then Failed(WrongCount(form, 2, |args|), h)
      else (
        match Eval(rt, h, args[0], env, false)
        case Done(v, h1) => Done(v, h1)
        case Failed(m, h1) =>
          match Eval(rt, h1, args[1], env, false)
          case Failed(m2, h2) => Failed(m2, h2)
          case Done(handler, h2) => Perform(h2, Handled(handler, m, tail), rt.handle(h2, handler, m, tail)))
    case FType =>
      if |args| != 2 then Failed(WrongCount(form, 2, |args|), h) else Eval(rt, h, args[0], env, tail)
    case FQuote =>
      if |args| != 1 then Failed(WrongCount(form, 1, |args|), h) else Done(args[0], h)
    case FCall => Application(rt, h, e, args, env, tail)
  }

  function EvalCond(rt: Runtime, h: History, e: Value, clauses: seq<Value>, env: Env, tail: bool): Outcome
    requires Within(clauses, e)
    decreases e, 0, |clauses|
  {
    if |clauses| == 0 then Failed(NoTrueCase, h)
    else
      match Items(clauses[0])
      case None => Failed(ImproperList, h)
      case Some(clause) =>
        if |clause| != 2 then Failed(WrongCount(FCond, 2, |clause|), h)
        else (
          match Eval(rt, h, clause[0], env, false)
          case Failed(m, h1) => Failed(m, h1)
          case Done(test, h1) =>
            if !IsBoolean(test) then Failed(CondTest, h1)
            else if IsTrue(test) then Eval(rt, h1, clause[1], env, tail)
            else EvalCond(rt, h1, e, clauses[1..], env, tail))
  }

  /** The function that a call applies, resolved before any argument is evaluated. */
  function Callee(rt: Runtime, h: History, e: Value, env: Env): Outcome
    requires e.Pair?
    decreases e, 0
  {
    var lexical := LexicalHead(e.head, env);
    var function_ :=
      if lexical.Some? then Done(lexical.value, h)
      else if e.head.Sym? then FunctionGet(rt, h, e.head.name)
      else Eval(rt, h, e.head, env, false);
    if function_.Done? && function_.value.Sym? then FunctionGet(rt, function_.history, function_.value.name)
    else function_
  }

  function Application(rt: Runtime, h: History, e: Value, args: seq<Value>, env: Env, tail: bool): Outcome
    requires e.Pair? && Within(args, e)
    decreases e, 1
  {
    match Callee(rt, h, e, env)
    case Failed(m, h1) => Failed(m, h1)
    case Done(f, h1) =>
      if tail && |args| == 2 && rt.returnsSecond(h1, f) then (
        match Eval(rt, h1, args[0], env, false)
        case Failed(m, h2) => Failed(m, h2)
        case Done(first, h2) =>
          var accepted := rt.accepts(h2, f, first);
          FinishSecond(rt, f, first, accepted, Eval(rt, h2, args[1], env, accepted)))
      else
        match EvalArguments(rt, h1, e, args, env)
        case Stopped(m, h2) => Failed(m, h2)
        case Values(vs, h2) => Call(rt, h2, f, vs, tail)
  }

  function EvalArguments(rt: Runtime, h: History, e: Value, args: seq<Value>, env: Env): (r: Arguments)
    requires Within(args, e)
    ensures r.Values? ==> |r.values| == |args|
    decreases e, 0, |args|
  {
    if |args| == 0 then Values([], h)
    else
      match Eval(rt, h, args[0], env, false)
      case Failed(m, h1) => Stopped(m, h1)
      case Done(v, h1) =>
        match EvalArguments(rt, h1, e, args[1..], env)
        case Stopped(m, h2) => Stopped(m, h2)
        case Values(vs, h2) => Values([v] + vs, h2)
  }
}
