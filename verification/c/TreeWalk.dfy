/** The tree-walking evaluator of src/c/evaluator.c on lists, environments looked up by chain, with
    the forms that its optimisers produce: c.loop, c.recur, c.mcons, c.nth-hd and c.nth-tl. */
module TreeWalk {
  import opened Options

  datatype Kl = Sym(name: string) | Obj(value: Value) | List(items: seq<Kl>)

  datatype Value =
    | Symbol(name: string)
    | Truth(b: bool)
    | Data(n: nat)
    | Error(message: string)
    | Nil
    | Pair(head: Value, tail: Value)
    | Closure(param: Option<string>, body: Kl, env: Env)
    | Partial(f: string, args: seq<Value>)

  datatype Binding = Binding(name: string, value: Value)

  /** A chain of frames; Root is the global variable environment. */
  datatype Env = Root | Frame(binds: seq<Binding>, parent: Env)

  datatype Defun = Defun(params: seq<string>, body: Kl)

  type History = seq<(string, seq<Value>)>

  /** Recur: a c.recur on its way to the innermost c.loop. Outside: the run reached something that
      this module does not model. */
  datatype Outcome<+T> = Done(value: T) | Thrown(error: Value) | Recur(args: seq<Value>) | Exhausted | Outside

  /** history: the calls of primitives made so far, in order. */
  datatype Result<+T> = Result(outcome: Outcome<T>, history: History)

  /** A primitive is given the history with its own call recorded. */
  type Prims = (string, seq<Value>, History) -> Result<Value>

  datatype Machine = Machine(funs: map<string, Defun>, arity: map<string, nat>, prims: Prims)

  function Failed<S, T>(r: Result<S>): Result<T>
    requires !r.outcome.Done?
  {
    match r.outcome
    case Thrown(error) => Result(Thrown(error), r.history)
    case Recur(args) => Result(Recur(args), r.history)
    case Exhausted => Result(Exhausted, r.history)
    case Outside => Result(Outside, r.history)
  }

  function Throw(message: string, h: History): Result<Value> {
    Result(Thrown(Error(message)), h)
  }

  // Environments --------------------------------------------------------------------------------

  /** The last binding of a name in a frame; |binds| for none. */
  function Position(binds: seq<Binding>, name: string): (i: nat)
    ensures i <= |binds|
    ensures i < |binds| ==> binds[i].name == name && forall j :: i < j < |binds| ==> binds[j].name != name
    ensures i == |binds| ==> forall j :: 0 <= j < |binds| ==> binds[j].name != name
  {
    if |binds| == 0 then 0
    else if binds[|binds| - 1].name == name then |binds| - 1
    else
      var i := Position(binds[..|binds| - 1], name);
      if i == |binds| - 1 then |binds| else i
  }

  lemma SamePosition(binds: seq<Binding>, binds': seq<Binding>, x: string)
    requires |binds| == |binds'| && forall i :: 0 <= i < |binds| ==> binds[i].name == binds'[i].name
    ensures Position(binds', x) == Position(binds, x)
  {
    var i, j := Position(binds, x), Position(binds', x);
    assert i < |binds| ==> binds'[i].name == x;
  }

  function Lookup(env: Env, name: string): Option<Value> {
    match env
    case Root => None
    case Frame(binds, parent) =>
      if Position(binds, name) < |binds| then Some(binds[Position(binds, name)].value) else Lookup(parent, name)
  }

  function Bindings(names: seq<string>, values: seq<Value>): seq<Binding>
    requires |names| == |values|
  {
    seq(|names|, i requires 0 <= i < |names| => Binding(names[i], values[i]))
  }

  /** extend_environment_n: no bindings add no frame. */
  function Extend(env: Env, binds: seq<Binding>): Env {
    if |binds| == 0 then env else Frame(binds, env)
  }

  /** update_environment: the innermost binding of the name gets the value. */
  function Update(env: Env, name: string, v: Value): Option<Env> {
    match env
    case Root => None
    case Frame(binds, parent) =>
      if Position(binds, name) < |binds| then Some(Frame(binds[Position(binds, name) := Binding(name, v)], parent))
      else if Update(parent, name, v).None? then None
      else Some(Frame(binds, Update(parent, name, v).value))
  }

  function UpdateAll(env: Env, names: seq<string>, values: seq<Value>): Option<Env>
    requires |names| == |values|
    decreases |names|
  {
    if |names| == 0 then Some(env)
    else if Update(env, names[0], values[0]).None? then None
    else UpdateAll(Update(env, names[0], values[0]).value, names[1..], values[1..])
  }

  // Forms ---------------------------------------------------------------------------------------

  /** What a list is; the head symbol decides, whether or not it is bound lexically. */
  datatype Form =
    | LetForm(variable: Kl, bound: Kl, body: Kl)
    | IfForm(test: Kl, yes: Kl, no: Kl)
    | AndForm(left: Kl, right: Kl)
    | OrForm(left: Kl, right: Kl)
    | CondForm(cases: seq<Kl>)
    | TrapForm(body: Kl, handler: Kl)
    | LambdaForm(variable: Kl, body: Kl)
    | FreezeForm(body: Kl)
    | LoopForm(binds: Kl, body: Kl)
    | RecurForm(args: seq<Kl>)
    | TypeForm(expr: Kl)
    | MconsForm(args: seq<Kl>)
    | CallForm(head: Kl, args: seq<Kl>)
    | BadForm(message: string)
    | OutsideForm

  datatype Keyword =
    | KLet | KIf | KAnd | KOr | KCond | KTrap | KLambda | KFreeze | KLoop | KRecur | KType | KMcons | KOutside | KNone

  function KeywordOf(name: string): Keyword {
    if name == "let" then KLet
    else if name == "if" then KIf
    else if name == "and" then KAnd
    else if name == "or" then KOr
    else if name == "cond" then KCond
    else if name == "trap-error" then KTrap
    else if name == "lambda" then KLambda
    else if name == "freeze" then KFreeze
    else if name == "c.loop" then KLoop
    else if name == "c.recur" then KRecur
    else if name == "type" then KType
    else if name == "c.mcons" then KMcons
    else if name == "defun" || name == "eval-kl" || name == "c.quote" then KOutside
    else KNone
  }

  function FormOf(items: seq<Kl>): Form
    requires |items| > 0
  {
    if items[0].Sym? && !KeywordOf(items[0].name).KNone? then SpecialForm(KeywordOf(items[0].name), items[1..])
    else CallForm(items[0], items[1..])
  }

  function SpecialForm(keyword: Keyword, args: seq<Kl>): Form {
    match keyword
    case KLet => if |args| == 3 then LetForm(args[0], args[1], args[2]) else BadForm(CountMessage(keyword))
    case KIf => if |args| == 3 then IfForm(args[0], args[1], args[2]) else BadForm(CountMessage(keyword))
    case KAnd => if |args| == 2 then AndForm(args[0], args[1]) else BadForm(CountMessage(keyword))
    case KOr => if |args| == 2 then OrForm(args[0], args[1]) else BadForm(CountMessage(keyword))
    case KCond => if |args| > 0 then CondForm(args) else BadForm(CountMessage(keyword))
    case KTrap => if |args| == 2 then TrapForm(args[0], args[1]) else BadForm(CountMessage(keyword))
    case KLambda => if |args| == 2 then LambdaForm(args[0], args[1]) else BadForm(CountMessage(keyword))
    case KFreeze => if |args| == 1 then FreezeForm(args[0]) else BadForm(CountMessage(keyword))
    case KLoop => if |args| == 2 then LoopForm(args[0], args[1]) else BadForm(CountMessage(keyword))
    case KRecur => RecurForm(args)
    case KType => if |args| == 2 then TypeForm(args[0]) else BadForm(CountMessage(keyword))
    case KMcons => MconsForm(args)
    case _ => OutsideForm
  }

  /** The error of a form with a wrong number of arguments. */
  function CountMessage(keyword: Keyword): string {
    match keyword
    case KLet => "Wrong number of arguments for let expression"
    case KCond => "Wrong number of arguments passed to cond"
    case KTrap => "Wrong number of arguments for trap-error"
    case KLambda => "Wrong number of arguments for function definition"
    case KFreeze => "Wrong number of arguments for freeze"
    case KLoop => "Wrong number of arguments for loop expression"
    case _ => "Wrong number of arguments passed to function"
  }

  predicate NonEmpty(e: Kl) {
    e.List? && |e.items| > 0
  }

  predicate HeadedBy(e: Kl, name: string) {
    NonEmpty(e) && e.items[0] == Sym(name)
  }

  function Size(e: Kl): nat {
    if e.List? then 2 + SizeAll(e.items) else 1
  }

  function SizeAll(es: seq<Kl>): nat {
    if |es| == 0 then 0 else Size(es[0]) + SizeAll(es[1..])
  }

  /** One more than the sizes of the parts. */
  function FormSize(form: Form): nat {
    match form
    case LetForm(_, bound, body) => 1 + Size(bound) + Size(body)
    case IfForm(test, yes, no) => 1 + Size(test) + Size(yes) + Size(no)
    case AndForm(left, right) => 1 + Size(left) + Size(right)
    case OrForm(left, right) => 1 + Size(left) + Size(right)
    case CondForm(cases) => 1 + SizeAll(cases)
    case TrapForm(body, handler) => 1 + Size(body) + Size(handler)
    case LambdaForm(_, body) => 1 + Size(body)
    case FreezeForm(body) => 1 + Size(body)
    case LoopForm(binds, body) => 1 + Size(binds) + Size(body)
    case RecurForm(args) => 1 + SizeAll(args)
    case TypeForm(expr) => 1 + Size(expr)
    case MconsForm(args) => 1 + SizeAll(args)
    case CallForm(head, args) => 1 + Size(head) + SizeAll(args)
    case _ => 0
  }

  lemma OneSize(e: Kl)
    ensures Size(e) >= 1
  {
  }

  lemma SizeOfParts(es: seq<Kl>)
    ensures |es| >= 1 ==> SizeAll(es) == Size(es[0]) + SizeAll(es[1..])
    ensures |es| >= 2 ==> SizeAll(es) == Size(es[0]) + Size(es[1]) + SizeAll(es[2..])
    ensures |es| >= 3 ==> SizeAll(es) == Size(es[0]) + Size(es[1]) + Size(es[2]) + SizeAll(es[3..])
  {
    if |es| >= 2 {
      assert es[1..][1..] == es[2..];
    }
    if |es| >= 3 {
      assert es[2..][1..] == es[3..];
    }
  }

  lemma PartsAreSmaller(items: seq<Kl>)
    requires |items| > 0
    ensures FormSize(FormOf(items)) < Size(List(items))
  {
    hide KeywordOf, SpecialForm;
    if items[0].Sym? && !KeywordOf(items[0].name).KNone? {
      SpecialIsSmaller(KeywordOf(items[0].name), items[1..]);
    }
  }

  lemma SpecialIsSmaller(keyword: Keyword, args: seq<Kl>)
    ensures FormSize(SpecialForm(keyword, args)) <= 1 + SizeAll(args)
  {
    hide Size, SizeAll, CountMessage;
    SizeOfParts(args);
    match keyword {
      case KLet =>
      case KIf =>
      case KAnd =>
      case KOr =>
      case KTrap =>
      case KLambda =>
      case KLoop =>
      case _ =>
    }
  }

  // Functions -----------------------------------------------------------------------------------

  predicate IsBuiltin(f: string) {
    f in {"cons", "hd", "tl", "c.nth-hd", "c.nth-tl"}
  }

  predicate IsFunction(m: Machine, f: string) {
    IsBuiltin(f) || f in m.funs || f in m.arity
  }

  function Arity(m: Machine, f: string): nat
    requires IsFunction(m, f)
  {
    if IsBuiltin(f) then (if f == "hd" || f == "tl" then 1 else 2)
    else if f in m.funs then |m.funs[f].params|
    else m.arity[f]
  }

  /** get_head_kl_list and get_tail_kl_list: the empty list has itself as head and as tail; on
      anything else they read memory that is no list cell. */
  function Side(v: Value, head: bool): Outcome<Value> {
    if v.Pair? then Done(if head then v.head else v.tail)
    else if v.Nil? then Done(Nil)
    else Outside
  }

  /** The head of the head ... n times. */
  function Sides(v: Value, head: bool, n: nat): (r: Outcome<Value>)
    ensures r.Done? || r.Outside?
  {
    if n == 0 then Done(v)
    else if Side(v, head).Done? then Sides(Side(v, head).value, head, n - 1)
    else Side(v, head)
  }

  function Builtin(f: string, args: seq<Value>, h: History): Result<Value>
    requires IsBuiltin(f) && |args| == (if f == "hd" || f == "tl" then 1 else 2)
  {
    if f == "cons" then Result(Done(Pair(args[0], args[1])), h)
    else if f == "hd" || f == "tl" then Result(Side(args[0], f == "hd"), h)
    else if args[0].Data? then Result(Sides(args[1], f == "c.nth-hd", args[0].n), h)
    else Result(Outside, h)
  }

  /** A c.recur does not jump out of a function here. */
  function Landed(r: Result<Value>): Result<Value> {
    if r.outcome.Recur? then Result(Outside, r.history) else r
  }

  /** The improper list of the values, the last one being its tail. */
  function Chain(vs: seq<Value>): Value {
    if |vs| == 0 then Nil
    else if |vs| == 1 then vs[0]
    else Pair(vs[0], Chain(vs[1..]))
  }

  // Evaluation; fuel bounds the depth of calls and the rounds of loops --------------------------

  function Eval(m: Machine, e: Kl, env: Env, h: History, fuel: nat): Result<Value>
    decreases fuel, 1, Size(e), 0
  {
    match e
    case Sym(name) => Result(Done(if Lookup(env, name).Some? then Lookup(env, name).value else Symbol(name)), h)
    case Obj(v) => Result(Done(v), h)
    case List(items) =>
      if |items| == 0 then Result(Done(Nil), h)
      else
        PartsAreSmaller(items);
        EvalForm(m, FormOf(items), env, h, fuel)
  }

  function EvalForm(m: Machine, form: Form, env: Env, h: History, fuel: nat): Result<Value>
    decreases fuel, 1, FormSize(form), 1
  {
    match form
    case LetForm(variable, bound, body) => EvalLet(m, variable, bound, body, env, h, fuel)
    case IfForm(test, yes, no) => EvalIf(m, test, yes, no, env, h, fuel)
    case AndForm(left, right) => EvalBoth(m, left, right, true, env, h, fuel)
    case OrForm(left, right) => EvalBoth(m, left, right, false, env, h, fuel)
    case CondForm(cases) => EvalCases(m, cases, env, h, fuel)
    case TrapForm(body, handler) => EvalTrap(m, body, handler, env, h, fuel)
    case LambdaForm(variable, body) =>
      if variable.Sym? then Result(Done(Closure(Some(variable.name), body, env)), h)
      else Throw("Lambda parameter should be a symbol", h)
    case FreezeForm(body) => Result(Done(Closure(None, body, env)), h)
    case LoopForm(binds, body) => EvalLoop(m, binds, body, env, h, fuel)
    case RecurForm(args) =>
      var a := EvalArgs(m, args, env, h, fuel);
      if a.outcome.Done? then Result(Recur(a.outcome.value), a.history) else Failed(a)
    case TypeForm(expr) => Eval(m, expr, env, h, fuel)
    case MconsForm(args) =>
      var a := EvalArgs(m, args, env, h, fuel);
      if a.outcome.Done? then Result(Done(Chain(a.outcome.value)), a.history) else Failed(a)
    case CallForm(head, args) => EvalCall(m, head, args, env, h, fuel)
    case BadForm(message) => Throw(message, h)
    case OutsideForm => Result(Outside, h)
  }

  /** The variable is checked after its value is computed. */
  function EvalLet(m: Machine, variable: Kl, bound: Kl, body: Kl, env: Env, h: History, fuel: nat): Result<Value>
    decreases fuel, 1, 1 + Size(bound) + Size(body), 0
  {
    var a := Eval(m, bound, env, h, fuel);
    if !a.outcome.Done? then a
    else if !variable.Sym? then Throw("Let variable should be a symbol", a.history)
    else Eval(m, body, Frame([Binding(variable.name, a.outcome.value)], env), a.history, fuel)
  }

  function EvalIf(m: Machine, test: Kl, yes: Kl, no: Kl, env: Env, h: History, fuel: nat): Result<Value>
    decreases fuel, 1, 1 + Size(test) + Size(yes) + Size(no), 0
  {
    var t := Eval(m, test, env, h, fuel);
    if !t.outcome.Done? then t
    else if !t.outcome.value.Truth? then Throw("Test should be a boolean value", t.history)
    else if t.outcome.value.b then Eval(m, yes, env, t.history, fuel)
    else Eval(m, no, env, t.history, fuel)
  }

  /** and (want = true) and or (want = false): the right argument counts only if the left is want. */
  function EvalBoth(m: Machine, left: Kl, right: Kl, want: bool, env: Env, h: History, fuel: nat): Result<Value>
    decreases fuel, 1, 1 + Size(left) + Size(right), 0
  {
    var message := if want then "Arguments should be boolean values" else "Arguments should be boolean value";
    var l := Eval(m, left, env, h, fuel);
    if !l.outcome.Done? then l
    else if !l.outcome.value.Truth? then Throw(message, l.history)
    else if l.outcome.value.b != want then l
    else
      var r := Eval(m, right, env, l.history, fuel);
      if r.outcome.Done? && !r.outcome.value.Truth? then Throw(message, r.history) else r
  }

  /** Every case is checked only when it is reached. */
  function EvalCases(m: Machine, cases: seq<Kl>, env: Env, h: History, fuel: nat): Result<Value>
    decreases fuel, 1, 1 + SizeAll(cases), 0
  {
    if |cases| == 0 then Throw("No true case found for cond", h)
    else if !cases[0].List? then Throw("Cond case should be a list", h)
    else if |cases[0].items| != 2 then Throw("Wrong number of arguments for a case", h)
    else
      SizeOfParts(cases);
      SizeOfParts(cases[0].items);
      var t := Eval(m, cases[0].items[0], env, h, fuel);
      if !t.outcome.Done? then t
      else if !t.outcome.value.Truth? then Throw("Case test should be a boolean value", t.history)
      else if t.outcome.value.b then Eval(m, cases[0].items[1], env, t.history, fuel)
      else EvalCases(m, cases[1..], env, t.history, fuel)
  }

  /** The handler is evaluated where the trap-error is, and applied to the error. A c.recur does
      not jump out of the body here. */
  function EvalTrap(m: Machine, body: Kl, handler: Kl, env: Env, h: History, fuel: nat): Result<Value>
    decreases fuel, 1, 1 + Size(body) + Size(handler), 0
  {
    var b := Eval(m, body, env, h, fuel);
    if !b.outcome.Thrown? then Landed(b)
    else
      var f := Eval(m, handler, env, b.history, fuel);
      if !f.outcome.Done? then f else Handle(m, f.outcome.value, b.outcome.error, f.history, fuel)
  }

  function Handle(m: Machine, f: Value, error: Value, h: History, fuel: nat): Result<Value>
    decreases fuel, 0, 1, 0
  {
    match f
    case Closure(_, _, _) => EnterClosure(m, f, [error], h, fuel)
    case Partial(_, _) => EnterPartial(m, f, error, h, fuel)
    case Symbol(g) =>
      if !IsFunction(m, g) then Throw("Function is undefined", h)
      else if Arity(m, g) == 1 then Enter(m, g, [error], h, fuel)
      else Result(Outside, h)
    case _ => Throw("Should be a function object", h)
  }

  function EvalArgs(m: Machine, args: seq<Kl>, env: Env, h: History, fuel: nat): (r: Result<seq<Value>>)
    ensures r.outcome.Done? ==> |r.outcome.value| == |args|
    decreases fuel, 1, SizeAll(args), 1
  {
    if |args| == 0 then Result(Done([]), h)
    else
      var a := Eval(m, args[0], env, h, fuel);
      if !a.outcome.Done? then Failed(a)
      else
        var rest := EvalArgs(m, args[1..], env, a.history, fuel);
        if rest.outcome.Done? then Result(Done([a.outcome.value] + rest.outcome.value), rest.history) else rest
  }

  /** The bindings of c.loop are a flat list of names and expressions. */
  function EvalBinds(m: Machine, items: seq<Kl>, env: Env, h: History, fuel: nat): Result<seq<Binding>>
    requires |items| % 2 == 0
    decreases fuel, 1, SizeAll(items), 1
  {
    if |items| == 0 then Result(Done([]), h)
    else if !items[0].Sym? then Result(Thrown(Error("c.loop parameter should be a symbol")), h)
    else
      SizeOfParts(items);
      var a := Eval(m, items[1], env, h, fuel);
      if !a.outcome.Done? then Failed(a)
      else
        var rest := EvalBinds(m, items[2..], env, a.history, fuel);
        if rest.outcome.Done? then Result(Done([Binding(items[0].name, a.outcome.value)] + rest.outcome.value), rest.history) else rest
  }

  function EvalLoop(m: Machine, binds: Kl, body: Kl, env: Env, h: History, fuel: nat): Result<Value>
    decreases fuel, 1, 1 + Size(binds) + Size(body), 0
  {
    if !binds.List? then Throw("c.loop bindings should be a list", h)
    else if |binds.items| % 2 != 0 then Throw("Odd number of c.loop bindings", h)
    else
      var bs := EvalBinds(m, binds.items, env, h, fuel);
      if !bs.outcome.Done? then Failed(bs)
      else Rounds(m, Names(bs.outcome.value), body, Extend(env, bs.outcome.value), bs.history, fuel)
  }

  function Names(binds: seq<Binding>): seq<string> {
    seq(|binds|, i requires 0 <= i < |binds| => binds[i].name)
  }

  /** The rounds of a loop: a c.recur gives every variable its new value and starts over. */
  function Rounds(m: Machine, names: seq<string>, body: Kl, env: Env, h: History, fuel: nat): Result<Value>
    decreases fuel, 1, Size(body), 1
  {
    var r := Eval(m, body, env, h, fuel);
    if !r.outcome.Recur? then r
    else if |r.outcome.args| != |names| then Throw("Wrong number of arguments for c.recur", r.history)
    else if fuel == 0 then Result(Exhausted, r.history)
    else
      var next := UpdateAll(env, names, r.outcome.args);
      if next.None? then Throw("Failed to extend environment", r.history)
      else Rounds(m, names, body, next.value, r.history, fuel - 1)
  }

  /** A head symbol with a function is not looked up lexically. */
  function EvalCall(m: Machine, head: Kl, args: seq<Kl>, env: Env, h: History, fuel: nat): Result<Value>
    decreases fuel, 1, 1 + Size(head) + SizeAll(args), 0
  {
    if head.Sym? && IsFunction(m, head.name) then CallNamed(m, head.name, args, env, h, fuel)
    else
      var f := Eval(m, head, env, h, fuel);
      if !f.outcome.Done? then f else CallValue(m, f.outcome.value, args, env, f.history, fuel)
  }

  /** A call with another number of arguments goes through curried closures, one argument at a time. */
  function CallNamed(m: Machine, f: string, args: seq<Kl>, env: Env, h: History, fuel: nat): Result<Value>
    requires IsFunction(m, f)
    decreases fuel, 1, 1 + SizeAll(args), 1
  {
    if |args| == Arity(m, f) then
      var a := EvalArgs(m, args, env, h, fuel);
      if a.outcome.Done? then Enter(m, f, a.outcome.value, a.history, fuel) else Failed(a)
    else if Arity(m, f) == 0 then
      var first := Enter(m, f, [], h, fuel);
      if first.outcome.Done? then CallEach(m, first.outcome.value, args, env, first.history, fuel) else first
    else CallEach(m, Partial(f, []), args, env, h, fuel)
  }

  function CallEach(m: Machine, f: Value, args: seq<Kl>, env: Env, h: History, fuel: nat): Result<Value>
    decreases fuel, 1, 1 + SizeAll(args), 0
  {
    if |args| == 0 then Result(Done(f), h)
    else
      var a := CallOne(m, f, args[0], env, h, fuel);
      if a.outcome.Done? then CallEach(m, a.outcome.value, args[1..], env, a.history, fuel) else a
  }

  function CallOne(m: Machine, f: Value, arg: Kl, env: Env, h: History, fuel: nat): Result<Value>
    decreases fuel, 1, Size(arg), 1
  {
    if f.Symbol? && !IsFunction(m, f.name) then Throw("Function is undefined", h)
    else if f.Symbol? && Arity(m, f.name) != 1 then Result(Outside, h)
    else if !(f.Symbol? || f.Closure? || f.Partial?) then Throw("Should be a function object", h)
    else
      var a := Eval(m, arg, env, h, fuel);
      if a.outcome.Done? then Handle(m, f, a.outcome.value, a.history, fuel) else a
  }

  /** A symbol that stands for a function of another arity gives closures that evaluate the head
      again; they are not modelled. */
  function CallValue(m: Machine, f: Value, args: seq<Kl>, env: Env, h: History, fuel: nat): Result<Value>
    decreases fuel, 1, 1 + SizeAll(args), 2
  {
    if f.Symbol? && IsFunction(m, f.name) then
      if |args| == Arity(m, f.name) then CallNamed(m, f.name, args, env, h, fuel) else Result(Outside, h)
    else if f.Closure? && |args| == 0 then EnterClosure(m, f, [], h, fuel)
    else if f.Partial? && |args| == 0 then Throw("Wrong number of arguments for function application", h)
    else if f.Symbol? then Throw("Function is undefined", h)
    else if !f.Closure? && !f.Partial? then Throw("Should be a function object", h)
    else CallEach(m, f, args, env, h, fuel)
  }

  function Enter(m: Machine, f: string, args: seq<Value>, h: History, fuel: nat): Result<Value>
    requires IsFunction(m, f) && |args| == Arity(m, f)
    decreases fuel, 0, 0, 0
  {
    if IsBuiltin(f) then Builtin(f, args, h)
    else if f in m.funs then
      if fuel == 0 then Result(Exhausted, h)
      else Landed(Eval(m, m.funs[f].body, Extend(Root, Bindings(m.funs[f].params, args)), h, fuel - 1))
    else Landed(m.prims(f, args, h + [(f, args)]))
  }

  function EnterClosure(m: Machine, f: Value, args: seq<Value>, h: History, fuel: nat): Result<Value>
    requires f.Closure? && |args| <= 1
    decreases fuel, 0, 0, 0
  {
    if |args| != (if f.param.Some? then 1 else 0) then Throw("Wrong number of arguments for function application", h)
    else if fuel == 0 then Result(Exhausted, h)
    else
      var env := if f.param.Some? then Frame([Binding(f.param.value, args[0])], f.env) else f.env;
      Landed(Eval(m, f.body, env, h, fuel - 1))
  }

  function EnterPartial(m: Machine, f: Value, arg: Value, h: History, fuel: nat): Result<Value>
    requires f.Partial?
    decreases fuel, 0, 0, 1
  {
    var args := f.args + [arg];
    if !IsFunction(m, f.f) then Throw("Function is undefined", h)
    else if |args| < Arity(m, f.f) then Result(Done(Partial(f.f, args)), h)
    else if |args| == Arity(m, f.f) then Enter(m, f.f, args, h, fuel)
    else Result(Outside, h)
  }

  /** eval_c_loop_expression: every round starts with all the new values. */
  method RunLoop(m: Machine, names: seq<string>, body: Kl, env: Env, h: History, fuel: nat) returns (r: Result<Value>)
    ensures r == Rounds(m, names, body, env, h, fuel)
  {
    var scope, past, left := env, h, fuel;
    while true
      invariant Rounds(m, names, body, scope, past, left) == Rounds(m, names, body, env, h, fuel)
      decreases left
    {
      r := Eval(m, body, scope, past, left);
      if !r.outcome.Recur? {
        return;
      }
      var args := r.outcome.args;
      if |args| != |names| {
        return Throw("Wrong number of arguments for c.recur", r.history);
      }
      if left == 0 {
        return Result(Exhausted, r.history);
      }
      var next, i := scope, 0;
      while i < |args|
        invariant i <= |args| && UpdateAll(scope, names, args) == UpdateAll(next, names[i..], args[i..])
      {
        assert names[i..][1..] == names[i + 1..] && args[i..][1..] == args[i + 1..];
        var updated := Update(next, names[i], args[i]);
        if updated.None? {
          return Throw("Failed to extend environment", r.history);
        }
        next, i := updated.value, i + 1;
      }
      scope, past, left := next, r.history, left - 1;
    }
  }
}
