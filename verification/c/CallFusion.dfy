/** optimize_multiple_function_calls (src/c/evaluator.c): nested cons becomes one c.mcons, a run of
    hd or of tl becomes one c.nth-hd or c.nth-tl. */
module CallFusion {
  import opened Options
  import opened TreeWalk

  predicate IsCons(e: Kl) {
    HeadedBy(e, "cons") && |e.items| == 3
  }

  predicate IsSideName(name: string) {
    name == "hd" || name == "tl"
  }

  /** A call of hd or of tl with one argument. */
  predicate IsSide(e: Kl, name: string) {
    HeadedBy(e, name) && |e.items| == 2
  }

  function NthName(name: string): string {
    if name == "hd" then "c.nth-hd" else "c.nth-tl"
  }

  // The recursive pass --------------------------------------------------------------------------

  /** tree: the expression afterwards; list: what the pass returns, None for NULL; count: the
      caller's counter afterwards. */
  datatype Pass = Pass(tree: Kl, list: Option<seq<Kl>>, count: nat)

  /** optimize_multiple_function_calls_helper; target is "" for NULL. */
  function Helper(e: Kl, target: string, level: nat, count: nat): Pass
    requires NonEmpty(e)
    decreases Size(e), 2
  {
    if e.items[0] == Sym("cons") then HelperCons(e, target, level, count)
    else if e.items[0] == Sym("hd") then HelperSide(e, "hd", target, level, count)
    else if e.items[0] == Sym("tl") then HelperSide(e, "tl", target, level, count)
    else Pass(List(WalkAll(e.items)), None, if level > 0 then 0 else count)
  }

  function Walk(e: Kl): Kl
    decreases Size(e), 3
  {
    if NonEmpty(e) then Helper(e, "", 0, 0).tree else e
  }

  function WalkAll(es: seq<Kl>): (r: seq<Kl>)
    ensures |r| == |es|
    decreases SizeAll(es), 4
  {
    if |es| == 0 then []
    else
      SizeOfParts(es);
      OneSize(es[0]);
      var rest := WalkAll(es[1..]);
      [Walk(es[0])] + rest
  }

  function HelperCons(e: Kl, target: string, level: nat, count: nat): Pass
    requires HeadedBy(e, "cons")
    decreases Size(e), 1
  {
    if |e.items| != 3 then Pass(e, None, count)
    else
      SizeOfParts(e.items);
      var own := if target == "cons" then level + 1 else 1;
      var first, second := Walk(e.items[1]), e.items[2];
      if !NonEmpty(second) then Pass(List([Sym("cons"), first, second]), if own > 1 then Some([first, second]) else None, count)
      else
        var r := Helper(second, "cons", own, count);
        var plain := List([Sym("cons"), first, r.tree]);
        if r.list.None? then Pass(plain, if own > 1 then Some([first, r.tree]) else None, r.count)
        else if own > 1 then Pass(plain, Some([first] + r.list.value), r.count)
        else Pass(List([Sym("c.mcons"), first] + r.list.value), None, r.count)
  }

  /** The innermost pass of a run counts in the counter of the outermost one. */
  function HelperSide(e: Kl, name: string, target: string, level: nat, count: nat): Pass
    requires HeadedBy(e, name)
    decreases Size(e), 1
  {
    var own := if target == name then level + 1 else 1;
    var here := if target == name then count + 1 else 1;
    var outer := if target == name then count + 1 else count;
    if |e.items| != 2 then Pass(e, None, outer)
    else if !NonEmpty(e.items[1]) then Pass(e, if own > 1 then Some([e.items[1]]) else None, outer)
    else
      SizeOfParts(e.items);
      var r := Helper(e.items[1], name, own, if here == 1 then 1 else outer);
      var total := if here == 1 then r.count else here;
      var after := if here == 1 then outer else r.count;
      var plain := List([Sym(name), r.tree]);
      if r.list.None? then Pass(plain, if own > 1 then Some([r.tree]) else None, after)
      else if own > 1 then Pass(plain, r.list, after)
      else if total > 1 then Pass(List([Sym(NthName(name)), Obj(Data(total))] + r.list.value), None, after)
      else Pass(plain, None, after)
  }

  // What it amounts to --------------------------------------------------------------------------

  /** How many calls of hd or tl are nested, and what the innermost is applied to. */
  function Run(e: Kl, name: string): nat {
    if IsSide(e, name) then 1 + Run(e.items[1], name) else 0
  }

  function Core(e: Kl, name: string): Kl {
    if IsSide(e, name) then Core(e.items[1], name) else e
  }

  lemma CoreIsSmaller(e: Kl, name: string)
    ensures Size(Core(e, name)) <= Size(e)
    ensures IsSide(e, name) ==> Size(Core(e, name)) < Size(e)
    ensures !IsSide(Core(e, name), name)
  {
    if IsSide(e, name) {
      SizeOfParts(e.items);
      CoreIsSmaller(e.items[1], name);
    }
  }

  /** A run around such an expression is left as it is. */
  predicate Cancels(core: Kl) {
    NonEmpty(core) && !HeadedBy(core, "hd") && !HeadedBy(core, "tl")
    && (HeadedBy(core, "cons") ==> |core.items| == 3 && Cancels(core.items[2]))
  }

  /** A call of hd or tl with another number of arguments at the end of a run is counted in. */
  function Miscount(core: Kl, name: string): nat {
    if HeadedBy(core, name) then 1 else 0
  }

  function Nest(name: string, n: nat, core: Kl): Kl {
    if n == 0 then core else List([Sym(name), Nest(name, n - 1, core)])
  }

  lemma RunOfNest(name: string, n: nat, core: Kl)
    requires !IsSide(core, name)
    ensures Run(Nest(name, n, core), name) == n && Core(Nest(name, n, core), name) == core
  {
  }

  /** The pass, told without counters. */
  function Fuse(e: Kl): (r: Kl)
    ensures NonEmpty(r) <==> NonEmpty(e)
    decreases Size(e), 1
  {
    if !NonEmpty(e) then e
    else if IsCons(e) then
      SizeOfParts(e.items);
      if IsCons(e.items[2]) then List([Sym("c.mcons"), Fuse(e.items[1])] + Parts(e.items[2]))
      else List([Sym("cons"), Fuse(e.items[1]), Fuse(e.items[2])])
    else if IsSide(e, "hd") then FuseRun(e, "hd")
    else if IsSide(e, "tl") then FuseRun(e, "tl")
    else if HeadedBy(e, "cons") || HeadedBy(e, "hd") || HeadedBy(e, "tl") then e
    else List(FuseAll(e.items))
  }

  function FuseRun(e: Kl, name: string): (r: Kl)
    requires IsSide(e, name)
    ensures NonEmpty(r)
    decreases Size(e), 0
  {
    CoreIsSmaller(e, name);
    var run, core := Run(e, name), Core(e, name);
    if run > 1 && !Cancels(core) then List([Sym(NthName(name)), Obj(Data(run + Miscount(core, name)))] + [Fuse(core)])
    else Nest(name, run, Fuse(core))
  }

  /** The elements of nested calls of cons. */
  function Parts(e: Kl): seq<Kl>
    requires IsCons(e)
    decreases Size(e), 0
  {
    SizeOfParts(e.items);
    if IsCons(e.items[2]) then [Fuse(e.items[1])] + Parts(e.items[2]) else [Fuse(e.items[1]), Fuse(e.items[2])]
  }

  function FuseAll(es: seq<Kl>): (r: seq<Kl>)
    ensures |r| == |es|
    decreases SizeAll(es), 2
  {
    if |es| == 0 then []
    else
      SizeOfParts(es);
      OneSize(es[0]);
      var rest := FuseAll(es[1..]);
      [Fuse(es[0])] + rest
  }

  /** What one pass over e does, whatever calls it is nested in. */
  ghost predicate PassIs(e: Kl, target: string, count: nat, p: Pass) {
    if target == "cons" && IsCons(e) then
      p.list == Some(Parts(e)) && p.count == if Cancels(e) then 0 else count
    else if IsSideName(target) && IsSide(e, target) then
      var core := Core(e, target);
      && p.list == Some([Fuse(core)]) && p.tree == Nest(target, Run(e, target), Fuse(core))
      && p.count == if Cancels(core) then 0 else count + Run(e, target) + Miscount(core, target)
    else
      && p.list == None && p.tree == Fuse(e)
      && (target != "" ==> p.count == if Cancels(e) then 0 else count + (if IsSideName(target) then Miscount(e, target) else 0))
  }

  predicate IsTarget(target: string, level: nat, count: nat) {
    && (target == "" || ((target == "cons" || IsSideName(target)) && level > 0))
    && (IsSideName(target) ==> count > 0)
  }

  /** The counters and the target come to the simple form. */
  lemma {:induction false} HelperFuses(e: Kl, target: string, level: nat, count: nat)
    requires NonEmpty(e) && IsTarget(target, level, count)
    ensures PassIs(e, target, count, Helper(e, target, level, count))
    decreases Size(e), 2
  {
    hide HelperCons, HelperSide, Run, Core, FuseRun;
    if HeadedBy(e, "cons") {
      ConsFuses(e, target, level, count);
    } else if HeadedBy(e, "hd") {
      SideFuses(e, "hd", target, level, count);
    } else if HeadedBy(e, "tl") {
      SideFuses(e, "tl", target, level, count);
    } else {
      AllFused(e.items);
    }
  }

  lemma {:induction false} WalkFuses(e: Kl)
    ensures Walk(e) == Fuse(e)
    decreases Size(e), 3
  {
    hide Helper, Fuse;
    if NonEmpty(e) {
      HelperFuses(e, "", 0, 0);
    } else {
      AtomFuses(e);
    }
  }

  lemma AtomFuses(e: Kl)
    requires !NonEmpty(e)
    ensures Fuse(e) == e && !Cancels(e)
  {
  }

  lemma {:induction false} AllFused(es: seq<Kl>)
    ensures WalkAll(es) == FuseAll(es)
    decreases SizeAll(es), 4
  {
    hide Walk, Fuse;
    if |es| > 0 {
      SizeOfParts(es);
      OneSize(es[0]);
      WalkFuses(es[0]);
      AllFused(es[1..]);
    }
  }

  lemma {:induction false} ConsFuses(e: Kl, target: string, level: nat, count: nat)
    requires HeadedBy(e, "cons") && IsTarget(target, level, count)
    ensures PassIs(e, target, count, HelperCons(e, target, level, count))
    decreases Size(e), 1
  {
    hide Helper, Walk, Run, Core, FuseRun;
    if |e.items| == 3 {
      SizeOfParts(e.items);
      WalkFuses(e.items[1]);
      if NonEmpty(e.items[2]) {
        HelperFuses(e.items[2], "cons", if target == "cons" then level + 1 else 1, count);
      } else {
        AtomFuses(e.items[2]);
      }
      if target == "cons" {
        assert HelperCons(e, target, level, count).list == Some(Parts(e));
      } else {
        var p := HelperCons(e, target, level, count);
        assert !(IsSideName(target) && IsSide(e, target));
        assert p.list == None && p.tree == Fuse(e);
        assert target != "" ==> p.count == if Cancels(e) then 0 else count;
      }
    }
  }

  lemma {:induction false} SideFuses(e: Kl, name: string, target: string, level: nat, count: nat)
    requires HeadedBy(e, name) && IsSideName(name) && IsTarget(target, level, count)
    ensures PassIs(e, target, count, HelperSide(e, name, target, level, count))
    decreases Size(e), 1
  {
    hide HelperSide, Walk, Parts, FuseRun;
    if |e.items| != 2 {
      assert HelperSide(e, name, target, level, count) == Pass(e, None, if target == name then count + 1 else count) by {
        SideUnfolds(e, name, target, level, count);
      }
    } else if target == name {
      InnerSideFuses(e, name, level, count);
    } else {
      OuterSideFuses(e, name, target, level, count);
      assert Fuse(e) == FuseRun(e, name);
    }
  }

  lemma SideUnfolds(e: Kl, name: string, target: string, level: nat, count: nat)
    requires HeadedBy(e, name) && |e.items| != 2
    ensures HelperSide(e, name, target, level, count) == Pass(e, None, if target == name then count + 1 else count)
  {
  }

  lemma {:induction false} InnerSideFuses(e: Kl, name: string, level: nat, count: nat)
    requires IsSide(e, name) && IsSideName(name) && level > 0 && count > 0
    ensures var p, core := HelperSide(e, name, name, level, count), Core(e, name);
      && p.list == Some([Fuse(core)]) && p.tree == Nest(name, Run(e, name), Fuse(core))
      && p.count == if Cancels(core) then 0 else count + Run(e, name) + Miscount(core, name)
    decreases Size(e), 0
  {
    hide Helper, Fuse, Cancels;
    SizeOfParts(e.items);
    assert e.items == [Sym(name), e.items[1]];
    if NonEmpty(e.items[1]) {
      HelperFuses(e.items[1], name, level + 1, count + 1);
    } else {
      AtomFuses(e.items[1]);
    }
    NestOnce(name, Fuse(e.items[1]));
  }

  lemma NestOnce(name: string, core: Kl)
    ensures Nest(name, 1, core) == List([Sym(name), core])
  {
  }

  lemma {:induction false} OuterSideFuses(e: Kl, name: string, target: string, level: nat, count: nat)
    requires IsSide(e, name) && IsSideName(name) && IsTarget(target, level, count) && target != name
    ensures var p := HelperSide(e, name, target, level, count);
      p.list == None && p.tree == FuseRun(e, name) && p.count == count
    decreases Size(e), 0
  {
    hide Helper, Fuse, Cancels;
    SizeOfParts(e.items);
    assert e.items == [Sym(name), e.items[1]];
    NestOnce(name, Fuse(e.items[1]));
    if NonEmpty(e.items[1]) {
      HelperFuses(e.items[1], name, 1, 1);
    } else {
      AtomFuses(e.items[1]);
    }
  }
}
