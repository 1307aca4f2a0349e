/** Expressions, values and environment chains of the tree-walking evaluator in src/c. */
module Lexical {
  import opened Options

  /** Expressions after dispatch on the head symbol; a symbol is its interned number. */
  datatype Expr =
    | Const(value: Value)
    | Var(id: nat)
    | Let(id: nat, bound: Expr, body: Expr)
    | If(test: Expr, yes: Expr, no: Expr)
    | Lambda(id: nat, body: Expr)
    | Freeze(body: Expr)
    | Trap(body: Expr, handler: Expr)
    | Apply(head: Expr, args: seq<Expr>)

  datatype Value =
    | Symbol(id: nat)
    | Boolean(b: bool)
    | Data(n: nat)
    | Closure(params: seq<nat>, body: Expr, env: Env)

  datatype Binding = Binding(id: nat, value: Value)

  /** A chain of frames; Root is the global variable environment. */
  datatype Env = Root | Frame(parent: Env, binds: seq<Binding>)

  /** extend_environment_n: an empty parameter list adds no frame. */
  function Extend(env: Env, ids: seq<nat>, values: seq<Value>): Env
    requires |ids| == |values|
  {
    if |ids| == 0 then env else Frame(env, seq(|ids|, i requires 0 <= i < |ids| => Binding(ids[i], values[i])))
  }

  /** The last binding of a symbol in a frame counts. */
  function InFrame(binds: seq<Binding>, id: nat): Option<Value> {
    if |binds| == 0 then None
    else if binds[|binds| - 1].id == id then Some(binds[|binds| - 1].value)
    else InFrame(binds[..|binds| - 1], id)
  }

  /** The meaning of a symbol: the innermost frame that binds it. */
  function Walk(env: Env, id: nat): Option<Value> {
    match env
    case Root => None
    case Frame(parent, binds) => if InFrame(binds, id).Some? then InFrame(binds, id) else Walk(parent, id)
  }

  /** Extending by one more parameter of the same frame. */
  lemma WalkOneMore(env: Env, ids: seq<nat>, values: seq<Value>, id: nat, v: Value, other: nat)
    requires |ids| == |values|
    ensures Walk(Extend(env, ids + [id], values + [v]), other)
      == (if other == id then Some(v) else Walk(Extend(env, ids, values), other))
  {
    var wide, binds := Extend(env, ids + [id], values + [v]), Extend(env, ids + [id], values + [v]).binds;
    assert wide == Frame(env, binds) && binds[|ids|] == Binding(id, v);
    if |ids| > 0 {
      assert binds[..|ids|] == Extend(env, ids, values).binds;
    } else {
      assert binds[..0] == [];
      assert InFrame([], other) == None;
    }
    assert InFrame(binds, other) == (if other == id then Some(v) else InFrame(binds[..|ids|], other));
  }

  /** lookup_environment_walk */
  method LookupWalk(id: nat, env: Env) returns (r: Option<Value>)
    ensures r == Walk(env, id)
  {
    var e := env;
    while e.Frame?
      invariant Walk(env, id) == Walk(e, id)
      decreases e
    {
      var i := |e.binds|;
      assert e.binds[..i] == e.binds;
      while i > 0
        invariant 0 <= i <= |e.binds| && InFrame(e.binds, id) == InFrame(e.binds[..i], id)
      {
        i := i - 1;
        assert e.binds[..i + 1][..i] == e.binds[..i];
        if e.binds[i].id == id {
          return Some(e.binds[i].value);
        }
      }
      e := e.parent;
    }
    r := None;
  }
}
