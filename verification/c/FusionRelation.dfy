/** How values, environments and results of fused code stand for those of the code as written: they
    differ in the bodies of closures only. */
module FusionRelation {
  import opened Options
  import opened TreeWalk
  import opened CallFusion

  /** The pass makes one call of the whole list. */
  predicate FusesWhole(e: Kl) {
    (IsCons(e) && IsCons(e.items[2])) || FusesRun(e, "hd") || FusesRun(e, "tl")
  }

  predicate FusesRun(e: Kl, name: string) {
    Run(e, name) > 1 && !Cancels(Core(e, name))
  }

  /** A list that is no call but is fused as if it were a run of hd or tl. */
  predicate LooksLikeRun(e: Kl) {
    FusesRun(e, "hd") || FusesRun(e, "tl")
  }

  /** Nested calls of cons where loop bindings should be: an odd number of items that the pass turns
      into an even one. */
  predicate BecomesEven(e: Kl) {
    IsCons(e) && IsCons(e.items[2]) && |Parts(e)| % 2 == 1
  }

  /** The guard under which the pass is right, to be checked on the code as written: no run ends in
      a call of the same hd or tl with another number of arguments, and no case of a cond and no
      list of loop bindings is taken for a call. */
  predicate Tidy(e: Kl) {
    NonEmpty(e) ==>
      && (forall i :: 0 <= i < |e.items| ==> Tidy(e.items[i]))
      && (Run(e, "hd") > 1 ==> Miscount(Core(e, "hd"), "hd") == 0)
      && (Run(e, "tl") > 1 ==> Miscount(Core(e, "tl"), "tl") == 0)
      && (HeadedBy(e, "cond") ==> forall i :: 1 <= i < |e.items| ==> !LooksLikeRun(e.items[i]))
      && (HeadedBy(e, "c.loop") && |e.items| == 3 ==> !LooksLikeRun(e.items[1]) && !BecomesEven(e.items[1]))
  }

  /** e' is e, or what the pass makes of it. */
  ghost predicate Turned(e: Kl, e': Kl) {
    e' == e || (Tidy(e) && e' == Fuse(e))
  }

  ghost predicate TurnedAll(es: seq<Kl>, es': seq<Kl>) {
    |es'| == |es| && forall i :: 0 <= i < |es| ==> Turned(es[i], es'[i])
  }

  ghost predicate Rel(v: Value, v': Value)
    decreases v
  {
    match v
    case Pair(head, tail) => v'.Pair? && Rel(head, v'.head) && Rel(tail, v'.tail)
    case Closure(param, body, env) => v'.Closure? && v'.param == param && Turned(body, v'.body) && RelEnv(env, v'.env)
    case Partial(f, args) => v'.Partial? && v'.f == f && |v'.args| == |args| && forall i :: 0 <= i < |args| ==> Rel(args[i], v'.args[i])
    case _ => v' == v
  }

  ghost predicate RelEnv(env: Env, env': Env)
    decreases env
  {
    match env
    case Root => env'.Root?
    case Frame(binds, parent) =>
      && env'.Frame? && |env'.binds| == |binds| && RelEnv(parent, env'.parent)
      && forall i :: 0 <= i < |binds| ==> env'.binds[i].name == binds[i].name && Rel(binds[i].value, env'.binds[i].value)
  }

  ghost predicate RelAll(vs: seq<Value>, vs': seq<Value>) {
    |vs'| == |vs| && forall i :: 0 <= i < |vs| ==> Rel(vs[i], vs'[i])
  }

  ghost predicate RelBinds(bs: seq<Binding>, bs': seq<Binding>) {
    |bs'| == |bs| && forall i :: 0 <= i < |bs| ==> bs'[i].name == bs[i].name && Rel(bs[i].value, bs'[i].value)
  }

  /** The same primitives, called in the same order with related arguments. */
  ghost predicate RelHistory(h: History, h': History) {
    |h'| == |h| && forall i :: 0 <= i < |h| ==> h'[i].0 == h[i].0 && RelAll(h[i].1, h'[i].1)
  }

  ghost predicate RelFailure<T>(o: Outcome<T>, o': Outcome<T>) {
    match o
    case Thrown(error) => o'.Thrown? && Rel(error, o'.error)
    case Recur(args) => o'.Recur? && RelAll(args, o'.args)
    case _ => o' == o
  }

  ghost predicate RelOutcome(o: Outcome<Value>, o': Outcome<Value>) {
    if o.Done? then o'.Done? && Rel(o.value, o'.value) else RelFailure(o, o')
  }

  ghost predicate RelResult(r: Result<Value>, r': Result<Value>) {
    RelHistory(r.history, r'.history) && RelOutcome(r.outcome, r'.outcome)
  }

  ghost predicate RelArgs(r: Result<seq<Value>>, r': Result<seq<Value>>) {
    && RelHistory(r.history, r'.history)
    && if r.outcome.Done? then r'.outcome.Done? && RelAll(r.outcome.value, r'.outcome.value) else RelFailure(r.outcome, r'.outcome)
  }

  ghost predicate RelStart(r: Result<seq<Binding>>, r': Result<seq<Binding>>) {
    && RelHistory(r.history, r'.history)
    && if r.outcome.Done? then r'.outcome.Done? && RelBinds(r.outcome.value, r'.outcome.value) else RelFailure(r.outcome, r'.outcome)
  }

  /** A primitive cannot look into a closure. */
  ghost predicate Blind(prims: Prims) {
    forall f, args, args', h, h' :: RelAll(args, args') && RelHistory(h, h') ==> RelResult(prims(f, args, h), prims(f, args', h'))
  }

  /** m' runs some of the functions of m fused. */
  ghost predicate Fused(m: Machine, m': Machine) {
    && m'.arity == m.arity && m'.prims == m.prims && Blind(m.prims) && m'.funs.Keys == m.funs.Keys
    && forall f :: f in m.funs ==> m'.funs[f].params == m.funs[f].params && Turned(m.funs[f].body, m'.funs[f].body)
  }

  // Everything stands for itself ----------------------------------------------------------------

  lemma {:induction false} RelItself(v: Value)
    ensures Rel(v, v)
    decreases v
  {
    match v
    case Pair(head, tail) =>
      RelItself(head);
      RelItself(tail);
    case Closure(_, _, env) => EnvItself(env);
    case Partial(_, args) =>
      forall i | 0 <= i < |args|
        ensures Rel(args[i], args[i])
      {
        RelItself(args[i]);
      }
    case _ =>
  }

  lemma {:induction false} EnvItself(env: Env)
    ensures RelEnv(env, env)
    decreases env
  {
    if env.Frame? {
      EnvItself(env.parent);
      forall i | 0 <= i < |env.binds|
        ensures Rel(env.binds[i].value, env.binds[i].value)
      {
        RelItself(env.binds[i].value);
      }
    }
  }

  /** Values without closures are related to themselves only. */
  predicate NoClosures(v: Value) {
    match v
    case Pair(head, tail) => NoClosures(head) && NoClosures(tail)
    case Closure(_, _, _) => false
    case Partial(_, args) => forall i :: 0 <= i < |args| ==> NoClosures(args[i])
    case _ => true
  }

  lemma {:induction false} SameWithoutClosures(v: Value, v': Value)
    requires Rel(v, v') && NoClosures(v)
    ensures v' == v
    decreases v
  {
    match v
    case Pair(head, tail) =>
      SameWithoutClosures(head, v'.head);
      SameWithoutClosures(tail, v'.tail);
    case Partial(_, args) =>
      forall i | 0 <= i < |args|
        ensures v'.args[i] == args[i]
      {
        SameWithoutClosures(args[i], v'.args[i]);
      }
      assert v'.args == args;
    case _ =>
  }

  // Environments --------------------------------------------------------------------------------

  lemma {:induction false} RelLookup(env: Env, env': Env, name: string)
    requires RelEnv(env, env')
    ensures Lookup(env, name).Some? == Lookup(env', name).Some?
    ensures Lookup(env, name).Some? ==> Rel(Lookup(env, name).value, Lookup(env', name).value)
    decreases env
  {
    if env.Frame? {
      SamePosition(env.binds, env'.binds, name);
      RelLookup(env.parent, env'.parent, name);
    }
  }

  lemma {:induction false} RelUpdate(env: Env, env': Env, name: string, v: Value, v': Value)
    requires RelEnv(env, env') && Rel(v, v')
    ensures Update(env, name, v).Some? == Update(env', name, v').Some?
    ensures Update(env, name, v).Some? ==> RelEnv(Update(env, name, v).value, Update(env', name, v').value)
    decreases env
  {
    if env.Frame? {
      SamePosition(env.binds, env'.binds, name);
      RelUpdate(env.parent, env'.parent, name, v, v');
    }
  }

  lemma {:induction false} RelUpdateAll(env: Env, env': Env, names: seq<string>, vs: seq<Value>, vs': seq<Value>)
    requires RelEnv(env, env') && RelAll(vs, vs') && |names| == |vs|
    ensures UpdateAll(env, names, vs).Some? == UpdateAll(env', names, vs').Some?
    ensures UpdateAll(env, names, vs).Some? ==> RelEnv(UpdateAll(env, names, vs).value, UpdateAll(env', names, vs').value)
    decreases |names|
  {
    hide Update, Rel, RelEnv;
    if |names| > 0 {
      RelUpdate(env, env', names[0], vs[0], vs'[0]);
      var next, next' := Update(env, names[0], vs[0]), Update(env', names[0], vs'[0]);
      if next.Some? {
        RelUpdateAll(next.value, next'.value, names[1..], vs[1..], vs'[1..]);
      }
    }
  }

  // Builtins ------------------------------------------------------------------------------------

  lemma {:induction false} RelSides(v: Value, v': Value, head: bool, n: nat)
    requires Rel(v, v')
    ensures RelOutcome(Sides(v, head, n), Sides(v', head, n))
    decreases n
  {
    if n > 0 && Side(v, head).Done? {
      RelSides(Side(v, head).value, Side(v', head).value, head, n - 1);
    }
  }

  lemma RelBuiltin(f: string, args: seq<Value>, args': seq<Value>, h: History, h': History)
    requires IsBuiltin(f) && |args| == (if f == "hd" || f == "tl" then 1 else 2) && RelAll(args, args') && RelHistory(h, h')
    ensures RelResult(Builtin(f, args, h), Builtin(f, args', h'))
  {
    hide Sides, RelHistory;
    if f == "hd" || f == "tl" {
    } else if f != "cons" && args[0].Data? {
      RelSides(args[1], args'[1], f == "c.nth-hd", args[0].n);
    }
  }

  lemma {:induction false} RelChain(vs: seq<Value>, vs': seq<Value>)
    requires RelAll(vs, vs')
    ensures Rel(Chain(vs), Chain(vs'))
    decreases |vs|
  {
    if |vs| > 1 {
      RelChain(vs[1..], vs'[1..]);
    }
  }

  // Lists that keep their form ------------------------------------------------------------------

  lemma {:induction false} CancelledStays(e: Kl, name: string)
    requires IsSide(e, name) && IsSideName(name) && !FusesRun(e, name)
    ensures Fuse(e) == List([Sym(name), Fuse(e.items[1])])
  {
    hide Fuse, Cancels;
    SideIsRun(e, name);
    var a, core := e.items[1], Core(e, name);
    assert Run(e, name) == 1 + Run(a, name) && core == Core(a, name);
    if IsSide(a, name) {
      SideIsRun(a, name);
      assert Fuse(a) == Nest(name, Run(a, name), Fuse(core));
    } else {
      assert Nest(name, 1, Fuse(core)) == List([Sym(name), Nest(name, 0, Fuse(core))]);
    }
  }

  lemma SideIsRun(e: Kl, name: string)
    requires IsSide(e, name) && IsSideName(name)
    ensures Fuse(e) == FuseRun(e, name)
  {
    hide FuseRun, Run, Core;
  }

  lemma {:induction false} FuseAllAt(es: seq<Kl>, i: nat)
    requires i < |es|
    ensures FuseAll(es)[i] == Fuse(es[i])
    decreases i
  {
    hide Fuse;
    if i > 0 {
      FuseAllAt(es[1..], i - 1);
    }
  }

  /** Where the whole list is not fused, its elements are, or nothing is. */
  lemma TurnedItems(e: Kl, e': Kl)
    requires Turned(e, e') && e.List? && !FusesWhole(e)
    ensures e'.List? && TurnedAll(e.items, e'.items)
  {
    hide FusesRun;
    if e' != e {
      if IsCons(e) {
        assert e.items == [Sym("cons"), e.items[1], e.items[2]];
      } else if IsSide(e, "hd") {
        CancelledStays(e, "hd");
      } else if IsSide(e, "tl") {
        CancelledStays(e, "tl");
      } else {
        forall i | 0 <= i < |e.items|
          ensures Turned(e.items[i], e'.items[i])
        {
          FuseAllAt(e.items, i);
        }
      }
    }
  }
}
