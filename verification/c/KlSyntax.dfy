/** KLambda forms as the native emitter (src/c/emit.c) reads them, and the values of compiled and
    uncompiled programs. */
module KlSyntax {
  import opened Options

  datatype Kl = Sym(name: string) | Bool(b: bool) | Lit(n: nat) | List(items: seq<Kl>)

  /** A source closure keeps its expression and environment; a native closure the number of its
      generated function and the captured values. */
  datatype Value =
    | Null
    | Nil
    | Truth(b: bool)
    | Data(n: nat)
    | Symbol(name: string)
    | Pair(head: Value, tail: Value)
    | Cell(fun: Fun)
    | Partial(f: Value, args: seq<Value>)
    | SourceClosure(params: seq<string>, body: Kl, env: seq<Binding>)
    | NativeClosure(id: nat, arity: nat, captures: seq<Value>)

  datatype Binding = Binding(name: string, value: Value)

  datatype Fun = Defined(name: string) | Primitive(name: string, arity: nat)

  datatype Defun = Defun(params: seq<string>, body: Kl)

  /** Function cells and global variables. */
  datatype World = World(funs: map<string, Fun>, vals: map<string, Value>)

  /** Stuck: the generated code read a temporary that its function does not define. */
  datatype Outcome = Done(value: Value) | Thrown(error: Value) | Exhausted | Stuck

  datatype Result = Result(outcome: Outcome, world: World)

  type Prims = (string, seq<Value>, World) -> Result

  const TEST_ERROR: Value := Data(1)
  const ARGUMENT_ERROR: Value := Data(2)
  const CASE_ERROR: Value := Data(3)
  const NO_CASE_ERROR: Value := Data(4)
  const APPLY_ERROR: Value := Data(5)

  /** The innermost binding of a name; none for |env|. */
  function Position(env: seq<Binding>, name: string): (i: nat)
    ensures i <= |env|
  {
    if |env| == 0 then 0
    else if env[|env| - 1].name == name then |env| - 1
    else
      var i := Position(env[..|env| - 1], name);
      if i == |env| - 1 then |env| else i
  }

  function ValueOf(env: seq<Binding>, name: string): Option<Value> {
    if Position(env, name) < |env| then Some(env[Position(env, name)].value) else None
  }

  lemma ValueOfLast(env: seq<Binding>, b: Binding, name: string)
    ensures ValueOf(env + [b], name) == if b.name == name then Some(b.value) else ValueOf(env, name)
  {
    assert (env + [b])[..|env|] == env;
  }

  function Bindings(names: seq<string>, values: seq<Value>): seq<Binding>
    requires |names| == |values|
  {
    seq(|names|, i requires 0 <= i < |names| => Binding(names[i], values[i]))
  }

  /** A symbol that is applied stands for what its function cell holds. */
  function Resolve(f: Value, w: World): Value {
    if f.Symbol? && f.name in w.funs then Cell(w.funs[f.name]) else f
  }

  function Constant(e: Kl): Value
    requires e.Bool? || e.Lit?
  {
    if e.Bool? then Truth(e.b) else Data(e.n)
  }

  /** What a non-empty list is, given whether its head is a lexically bound symbol. */
  datatype Form =
    | IfForm(test: Kl, yes: Kl, no: Kl)
    | AndForm(left: Kl, right: Kl)
    | OrForm(left: Kl, right: Kl)
    | CondForm(cases: seq<Kl>)
    | LetForm(name: string, bound: Kl, body: Kl)
    | DoForm(first: Kl, second: Kl)
    | LambdaForm(name: string, body: Kl)
    | FreezeForm(body: Kl)
    | TrapForm(body: Kl, handler: Kl)
    | TypeForm(expr: Kl)
    | NamedCall(f: string, args: seq<Kl>)
    | ValueCall(head: Kl, args: seq<Kl>)
    | Unsupported

  function Size(e: Kl): nat {
    if e.List? then 2 + SizeAll(e.items) else 1
  }

  function SizeAll(es: seq<Kl>): nat {
    if |es| == 0 then 0 else Size(es[0]) + SizeAll(es[1..])
  }

  /** One more than the sizes of the parts. */
  function FormSize(form: Form): nat {
    match form
    case IfForm(test, yes, no) => 1 + Size(test) + Size(yes) + Size(no)
    case AndForm(left, right) => 1 + Size(left) + Size(right)
    case OrForm(left, right) => 1 + Size(left) + Size(right)
    case CondForm(cases) => 1 + SizeAll(cases)
    case LetForm(_, bound, body) => 1 + Size(bound) + Size(body)
    case DoForm(first, second) => 1 + Size(first) + Size(second)
    case LambdaForm(_, body) => 1 + Size(body)
    case FreezeForm(body) => 1 + Size(body)
    case TrapForm(body, handler) => 1 + Size(body) + Size(handler)
    case TypeForm(expr) => 1 + Size(expr)
    case NamedCall(_, args) => 1 + SizeAll(args)
    case ValueCall(head, args) => 1 + Size(head) + SizeAll(args)
    case Unsupported => 0
  }

  lemma SizeOfParts(es: seq<Kl>)
    ensures |es| >= 1 ==> SizeAll(es) == Size(es[0]) + SizeAll(es[1..])
    ensures |es| >= 2 ==> SizeAll(es) == Size(es[0]) + Size(es[1]) + SizeAll(es[2..])
    ensures |es| >= 3 ==> SizeAll(es) == Size(es[0]) + Size(es[1]) + Size(es[2]) + SizeAll(es[3..])
    ensures |es| >= 4 ==> SizeAll(es) == Size(es[0]) + Size(es[1]) + Size(es[2]) + Size(es[3]) + SizeAll(es[4..])
  {
    if |es| >= 2 {
      assert es[1..][1..] == es[2..];
    }
    if |es| >= 3 {
      assert es[2..][1..] == es[3..];
    }
    if |es| >= 4 {
      assert es[3..][1..] == es[4..];
    }
  }

  lemma PartsAreSmaller(items: seq<Kl>, headBound: bool)
    requires |items| > 0
    ensures FormSize(FormOf(items, headBound)) < Size(List(items))
  {
    SizeOfParts(items);
  }

  lemma CasesAreSmaller(cases: seq<Kl>)
    requires |cases| > 0 && AreCases(cases)
    ensures Size(cases[0].items[0]) + Size(cases[0].items[1]) < SizeAll(cases)
    ensures Size(cases[0].items[0]) + Size(cases[0].items[1]) + SizeAll(cases[1..]) < SizeAll(cases)
  {
    SizeOfParts(cases[0].items);
  }

  predicate IsSpecial(name: string) {
    name in {"if", "and", "or", "cond", "let", "do", "lambda", "freeze", "trap-error", "type", "eval-kl", "defun"}
  }

  /** The chain of tests in emit_expr: a bound head is never a special form. */
  function FormOf(items: seq<Kl>, headBound: bool): Form
    requires |items| > 0
  {
    if !items[0].Sym? || headBound then ValueCall(items[0], items[1..])
    else if !IsSpecial(items[0].name) then NamedCall(items[0].name, items[1..])
    else SpecialForm(items)
  }

  function SpecialForm(items: seq<Kl>): Form
    requires |items| > 0 && items[0].Sym?
  {
    var name := items[0].name;
    if name == "if" && |items| == 4 then IfForm(items[1], items[2], items[3])
    else if name == "and" && |items| == 3 then AndForm(items[1], items[2])
    else if name == "or" && |items| == 3 then OrForm(items[1], items[2])
    else if name == "cond" && |items| > 1 && AreCases(items[1..]) then CondForm(items[1..])
    else if name == "let" && |items| == 4 && items[1].Sym? then LetForm(items[1].name, items[2], items[3])
    else if name == "do" && |items| == 3 then DoForm(items[1], items[2])
    else if name == "lambda" && |items| == 3 && items[1].Sym? then LambdaForm(items[1].name, items[2])
    else if name == "freeze" && |items| == 2 then FreezeForm(items[1])
    else if name == "trap-error" && |items| == 3 then TrapForm(items[1], items[2])
    else if name == "type" && |items| == 3 then TypeForm(items[1])
    else Unsupported
  }

  predicate AreCases(cases: seq<Kl>) {
    forall i :: 0 <= i < |cases| ==> cases[i].List? && |cases[i].items| == 2
  }

  /** Primitives that the emitter calls without reading their function cell. */
  function InlineArity(name: string): nat {
    if name in {"+", "-", "*", "/", "<", ">", "<=", ">=", "=", "cons"} then 2
    else if name in {"hd", "tl", "cons?", "number?", "string?", "symbol?", "absvector?"} then 1
    else 0
  }
}
