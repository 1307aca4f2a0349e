/** Values and lexical environments of the reference-counted runtime (src/rc/rc.c).
    Reference counts, the collector and allocation failure are not modelled. */
module RcValue {
  import opened Options

  /** A heap object carries its address, so equality of model values is the pointer
      equality that the C code uses. Symbols are interned: their name is their identity.
      The booleans are the symbols true and false. A Request is a deferred tail call. */
  datatype Value =
    | Sym(name: string)
    | Nil
    | Pair(addr: nat, head: Value, tail: Value)
    | Atom(addr: nat)
    | Closure(addr: nat)
    | Request(addr: nat)

  predicate IsTrue(v: Value) {
    v == Sym("true")
  }

  predicate IsBoolean(v: Value) {
    v == Sym("true") || v == Sym("false")
  }

  /** Every element is a proper part of the whole. */
  ghost predicate Within(parts: seq<Value>, whole: Value) {
    forall i :: 0 <= i < |parts| ==> parts[i] < whole
  }

  /** The elements of a proper list; None for an improper one (rc_list_length_cached). */
  function Items(list: Value): (r: Option<seq<Value>>)
    ensures r.Some? ==> Within(r.value, list)
  {
    match list
    case Nil => Some([])
    case Pair(_, h, t) =>
      var rest := Items(t);
      if rest.None? then None else Some([h] + rest.value)
    case _ => None
  }

  /** Nesting depth of an expression: an element of a list lies one level deeper. */
  function Depth(v: Value): (d: nat)
    ensures d >= 1
  {
    match v
    case Pair(_, h, t) => if 1 + Depth(h) > Depth(t) then 1 + Depth(h) else Depth(t)
    case _ => 1
  }

  lemma {:induction false} ItemsAreDeeper(list: Value, x: Value)
    requires Items(list).Some? && x in Items(list).value
    ensures 1 + Depth(x) <= Depth(list)
  {
    if x != list.head {
      assert x in Items(list.tail).value;
      ItemsAreDeeper(list.tail, x);
    }
  }

  // Environments ----------------------------------------------------------------------

  /** Lexical frames, innermost first; a frame holds at least one binding. */
  datatype Env = Empty | Frame(bindings: seq<(string, Value)>, parent: Env)

  function MakeFrame(parent: Env, names: seq<string>, values: seq<Value>): Env
    requires |names| == |values|
  {
    if |names| == 0 then parent
    else Frame(seq(|names|, i requires 0 <= i < |names| => (names[i], values[i])), parent)
  }

  function Extend(parent: Env, name: string, value: Value): Env {
    MakeFrame(parent, [name], [value])
  }

  /** The coarse class of a name, by its first character. */
  datatype KeyClass = Upper | Lower | Other

  function KeyClassOf(name: string): KeyClass {
    if |name| > 0 && 'A' <= name[0] <= 'Z' then Upper
    else if |name| > 0 && 'a' <= name[0] <= 'z' then Lower
    else Other
  }

  /** The classes of all names bound in an environment. Each C frame stores the union of its
      own classes and its parent's when it is built. */
  function KeyClasses(env: Env): set<KeyClass> {
    match env
    case Empty => {}
    case Frame(bs, parent) => KeyClasses(parent) + set i | 0 <= i < |bs| :: KeyClassOf(bs[i].0)
  }

  /** The last binding of the name among the first n of a frame. */
  function FindLast(bs: seq<(string, Value)>, name: string, n: nat): (r: Option<Value>)
    requires n <= |bs|
    ensures r.None? <==> forall i :: 0 <= i < n ==> bs[i].0 != name
  {
    if n == 0 then None
    else if bs[n - 1].0 == name then Some(bs[n - 1].1)
    else FindLast(bs, name, n - 1)
  }

  function Walk(env: Env, name: string): Option<Value> {
    match env
    case Empty => None
    case Frame(bs, parent) =>
      var here := FindLast(bs, name, |bs|);
      if here.Some? then here else Walk(parent, name)
  }

  /** rc_env_lookup: the class filter first, the frame walk after it. */
  function Lookup(env: Env, name: string): Option<Value> {
    if KeyClassOf(name) !in KeyClasses(env) then None else Walk(env, name)
  }

  lemma {:induction false} WalkFindsOnlyKnownClasses(env: Env, name: string)
    ensures Walk(env, name).Some? ==> KeyClassOf(name) in KeyClasses(env)
  {
    match env
    case Empty =>
    case Frame(bs, parent) =>
      if FindLast(bs, name, |bs|).None? {
        WalkFindsOnlyKnownClasses(parent, name);
      }
  }

  /** The class filter never changes an answer. */
  lemma LookupIsWalk(env: Env, name: string)
    ensures Lookup(env, name) == Walk(env, name)
  {
    WalkFindsOnlyKnownClasses(env, name);
  }

  /** rc_eval_plan_environment: no binding of the environment has a lower-case name. */
  predicate AdmitsPlans(env: Env) {
    env.Empty? || Lower !in KeyClasses(env)
  }

  /** That is, no name that is bound begins so. */
  lemma AdmitsPlansExactly(env: Env)
    ensures AdmitsPlans(env) <==> forall name :: KeyClassOf(name) == Lower ==> Lookup(env, name).None?
  {
    if !AdmitsPlans(env) {
      var name := LowerIsBound(env);
      assert Lookup(env, name).Some?;
    }
  }

  lemma {:induction false} LowerIsBound(env: Env) returns (name: string)
    requires Lower in KeyClasses(env)
    ensures KeyClassOf(name) == Lower && Walk(env, name).Some?
  {
    var bs := env.bindings;
    if i :| 0 <= i < |bs| && KeyClassOf(bs[i].0) == Lower {
      name := bs[i].0;
      assert FindLast(bs, name, |bs|).Some?;
    } else {
      name := LowerIsBound(env.parent);
    }
  }

  lemma AdmittedEnvHidesNoForm(env: Env, name: string)
    requires AdmitsPlans(env) && KeyClassOf(name) == Lower
    ensures Lookup(env, name).None?
  {
  }
}
