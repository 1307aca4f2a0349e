/** What optimize_multiple_function_calls leaves: nothing that it could have fused. */
module FusionShape {
  import opened TreeWalk
  import opened CallFusion
  import opened FusionRelation

  /** Every call of cons has two arguments, and every call of hd and tl has one. */
  predicate WellCounted(e: Kl) {
    NonEmpty(e) ==>
      && (forall i :: 0 <= i < |e.items| ==> WellCounted(e.items[i]))
      && (HeadedBy(e, "cons") ==> |e.items| == 3)
      && (HeadedBy(e, "hd") || HeadedBy(e, "tl") ==> |e.items| == 2)
  }

  /** No cons is the second argument of a cons, and no run of hd or tl is one to be fused, at any
      depth. */
  predicate NothingLeft(e: Kl) {
    NonEmpty(e) ==>
      && (forall i :: 0 <= i < |e.items| ==> NothingLeft(e.items[i]))
      && !(IsCons(e) && IsCons(e.items[2])) && !FusesRun(e, "hd") && !FusesRun(e, "tl")
  }

  /** A list that is no call of cons, hd or tl. */
  predicate OtherList(e: Kl) {
    NonEmpty(e) && !HeadedBy(e, "cons") && !HeadedBy(e, "hd") && !HeadedBy(e, "tl")
  }

  lemma FusedOther(e: Kl)
    requires OtherList(e)
    ensures Fuse(e) == List(FuseAll(e.items)) && OtherList(Fuse(e))
  {
    hide FuseAll;
    FuseAllAt(e.items, 0);
  }

  lemma OtherIsLeft(e: Kl)
    requires OtherList(e) && forall i :: 0 <= i < |e.items| ==> NothingLeft(e.items[i])
    ensures NothingLeft(e)
  {
  }

  /** What is fused keeps its head, unless that was what was fused. */
  lemma HeadIsKept(e: Kl)
    requires WellCounted(e)
    ensures !IsCons(e) ==> !IsCons(Fuse(e))
    ensures !IsSide(e, "hd") ==> !IsSide(Fuse(e), "hd")
    ensures !IsSide(e, "tl") ==> !IsSide(Fuse(e), "tl")
  {
    hide FuseAll, Cancels, Core, Parts, WellCounted;
    if OtherList(e) {
      FusedOther(e);
    } else if IsSide(e, "hd") {
      SideIsRun(e, "hd");
    } else if IsSide(e, "tl") {
      SideIsRun(e, "tl");
    } else if NonEmpty(e) && !IsCons(e) {
      NotMalformed(e);
    }
  }

  lemma NotMalformed(e: Kl)
    requires WellCounted(e) && NonEmpty(e) && !IsCons(e) && !IsSide(e, "hd") && !IsSide(e, "tl")
    ensures OtherList(e)
  {
  }

  lemma {:induction false} CancelsStays(e: Kl)
    requires Cancels(e)
    ensures Cancels(Fuse(e))
    decreases e
  {
    hide FuseAll, Parts;
    if IsCons(e) {
      CancelsStays(e.items[2]);
    } else {
      FusedOther(e);
    }
  }

  /** A run that is kept. */
  lemma {:induction false} KeptRun(name: string, n: nat, core: Kl)
    requires IsSideName(name) && NothingLeft(core) && !IsSide(core, name) && (n > 1 ==> Cancels(core))
    ensures NothingLeft(Nest(name, n, core))
    decreases n
  {
    hide Cancels;
    if n > 0 {
      KeptRun(name, n - 1, core);
      RunOfNest(name, n, core);
      var e := Nest(name, n, core);
      assert e.items == [Sym(name), Nest(name, n - 1, core)];
      assert NothingLeft(Sym(name));
    }
  }

  /** After the pass nothing is left to fuse. */
  lemma {:induction false} FusedCompletely(e: Kl)
    requires WellCounted(e)
    ensures NothingLeft(Fuse(e))
    decreases Size(e), 1
  {
    hide Cancels, FuseAll, Parts, Core, Run;
    if IsCons(e) {
      ConsFusedCompletely(e);
    } else if IsSide(e, "hd") {
      RunFusedCompletely(e, "hd");
    } else if IsSide(e, "tl") {
      RunFusedCompletely(e, "tl");
    } else if NonEmpty(e) {
      NotMalformed(e);
      FusedOther(e);
      AllFusedCompletely(e.items);
      OtherIsLeft(Fuse(e));
    }
  }

  lemma {:induction false} RunFusedCompletely(e: Kl, name: string)
    requires IsSideName(name) && IsSide(e, name) && WellCounted(e)
    ensures NothingLeft(Fuse(e))
    decreases Size(e), 0
  {
    hide Fuse, Cancels, NothingLeft;
    SideIsRun(e, name);
    CoreIsSmaller(e, name);
    CoreIsCounted(e, name);
    var run, core := Run(e, name), Core(e, name);
    FusedCompletely(core);
    HeadIsKept(core);
    if run > 1 && !Cancels(core) {
      NthIsLeft(name, Obj(Data(run + Miscount(core, name))), Fuse(core));
    } else {
      if run > 1 {
        CancelsStays(core);
      }
      KeptRun(name, run, Fuse(core));
    }
  }

  lemma NthIsLeft(name: string, n: Kl, core: Kl)
    requires IsSideName(name) && n.Obj? && NothingLeft(core)
    ensures NothingLeft(List([Sym(NthName(name)), n] + [core]))
  {
    var e := List([Sym(NthName(name)), n] + [core]);
    assert e.items == [Sym(NthName(name)), n, core];
    assert NothingLeft(e.items[0]) && NothingLeft(e.items[1]);
    OtherIsLeft(e);
  }

  lemma {:induction false} CoreIsCounted(e: Kl, name: string)
    requires WellCounted(e)
    ensures WellCounted(Core(e, name))
  {
    if IsSide(e, name) {
      CoreIsCounted(e.items[1], name);
    }
  }

  lemma {:induction false} AllFusedCompletely(es: seq<Kl>)
    requires forall i :: 0 <= i < |es| ==> WellCounted(es[i])
    ensures forall i :: 0 <= i < |es| ==> NothingLeft(FuseAll(es)[i])
    decreases SizeAll(es), 2
  {
    hide Fuse, NothingLeft, WellCounted;
    if |es| > 0 {
      SizeOfParts(es);
      OneSize(es[0]);
      FusedCompletely(es[0]);
      AllFusedCompletely(es[1..]);
    }
  }

  lemma {:induction false} ConsFusedCompletely(e: Kl)
    requires IsCons(e) && WellCounted(e)
    ensures NothingLeft(Fuse(e))
    decreases Size(e), 0
  {
    hide Cancels, NothingLeft, FuseAll;
    SizeOfParts(e.items);
    FusedCompletely(e.items[1]);
    if IsCons(e.items[2]) {
      PartsFusedCompletely(e.items[2]);
      MconsIsLeft([Fuse(e.items[1])] + Parts(e.items[2]));
      assert [Sym("c.mcons"), Fuse(e.items[1])] + Parts(e.items[2]) == [Sym("c.mcons")] + ([Fuse(e.items[1])] + Parts(e.items[2]));
    } else {
      FusedCompletely(e.items[2]);
      HeadIsKept(e.items[2]);
      ConsIsLeft(Fuse(e.items[1]), Fuse(e.items[2]));
    }
  }

  lemma {:induction false} PartsFusedCompletely(e: Kl)
    requires IsCons(e) && WellCounted(e)
    ensures forall i :: 0 <= i < |Parts(e)| ==> NothingLeft(Parts(e)[i])
    decreases Size(e), 0
  {
    hide Fuse, NothingLeft;
    SizeOfParts(e.items);
    FusedCompletely(e.items[1]);
    if IsCons(e.items[2]) {
      PartsFusedCompletely(e.items[2]);
    } else {
      FusedCompletely(e.items[2]);
    }
  }

  lemma MconsIsLeft(parts: seq<Kl>)
    requires forall i :: 0 <= i < |parts| ==> NothingLeft(parts[i])
    ensures NothingLeft(List([Sym("c.mcons")] + parts))
  {
    var e := List([Sym("c.mcons")] + parts);
    assert NothingLeft(e.items[0]);
    OtherIsLeft(e);
  }

  lemma ConsIsLeft(a: Kl, b: Kl)
    requires NothingLeft(a) && NothingLeft(b) && !IsCons(b)
    ensures NothingLeft(List([Sym("cons"), a, b]))
  {
    var e := List([Sym("cons"), a, b]);
    assert NothingLeft(e.items[0]) && e.items[2] == b;
  }
}
