/** tail_call_to_c_recur_expression as it is written (src/c/evaluator.c): one cell of the body is
    overwritten. */
module TailSurgery {
  import opened Options
  import opened TreeWalk
  import opened TailLoop
  import opened ListCells

  /** The body in cell c after the call; nothing else has changed. */
  ghost predicate Rewritten(f: string, l: Layout, l': Layout, done: bool)
    requires IsTree(l)
    reads Cells(l')
  {
    && l'.Node? && Top(l') == Top(l) && IsTree(l') && Laid(l') && Cells(l') == Cells(l)
    && done == ToRecur(f, Expr(l)).Some? && (done ==> Expr(l') == ToRecur(f, Expr(l)).value) && (!done ==> l' == l)
  }

  /** The same for one element of a list. */
  ghost predicate ElementRewritten(f: string, i: nat, l: Layout, l': Layout, done: bool)
    requires IsTree(l) && i < |Items(l)|
    reads Cells(l')
  {
    && l'.Node? && Top(l') == Top(l) && IsTree(l') && Laid(l') && Cells(l') == Cells(l)
    && done == ToRecur(f, Items(l)[i]).Some? && (!done ==> l' == l)
    && (done ==> Items(l') == Items(l)[i := ToRecur(f, Items(l)[i]).value])
  }

  method ElementToRecur(f: string, n: nat, i: nat, o: Object, ghost l: Layout) returns (done: bool, ghost l': Layout)
    requires IsTree(l) && Laid(l) && i < |Items(l)| && o == Top(Rest(l, i).head) && TailFits(f, n, Items(l)[i])
    modifies Cells(l)
    ensures ElementRewritten(f, i, l, l', done)
    decreases Weight(l), 0
  {
    hide TailFits, ToRecur, KeywordOf;
    ElementAt(l, i);
    ghost var e := Rest(l, i).head;
    NodeExpr(e);
    if o.Ref? {
      ghost var s := Shot(Cells(l));
      LaidThen(l, Cells(l));
      ghost var x;
      done, x := ToRecurInPlace(f, n, o.cell, e);
      PutParts(l, i, x);
      Together(l, i, x, s);
      l' := if done then Put(l, i, x) else l;
      if !done {
        PutSame(l, i);
      } else {
        assert Cells(l) - Cells(e) + Cells(x) == Cells(l);
      }
    } else {
      AtomStays(f, Expr(e));
      done, l' := false, l;
    }
  }

  lemma AtomStays(f: string, e: Kl)
    requires !NonEmpty(e)
    ensures ToRecur(f, e).None?
  {
  }

  lemma {:induction false} PutSame(l: Layout, i: nat)
    requires i < |Items(l)|
    ensures Put(l, i, Rest(l, i).head) == l
    decreases i
  {
    if i > 0 {
      PutSame(l.tail, i - 1);
    }
  }

  /** What the first i cases leave to the others. */
  lemma {:induction false} CasesSkipped(f: string, n: nat, cases: seq<Kl>, i: nat)
    requires CasesFit(f, n, cases) && i < |cases|
    ensures cases[i].List? && |cases[i].items| == 2 && TailFits(f, n, cases[i].items[1])
    decreases i
  {
    if i > 0 {
      CasesSkipped(f, n, cases[1..], i - 1);
    }
  }

  lemma {:induction false} FirstCase(f: string, n: nat, cases: seq<Kl>, i: nat)
    requires CasesFit(f, n, cases) && i <= |cases|
    requires forall j :: 0 <= j < i ==> cases[j].List? && |cases[j].items| == 2 && ToRecur(f, cases[j].items[1]).None?
    ensures i == |cases| ==> CasesToRecur(f, cases).None?
    ensures i < |cases| && cases[i].List? && |cases[i].items| == 2 && ToRecur(f, cases[i].items[1]).Some?
      ==> CasesToRecur(f, cases) == Some(cases[i := List(cases[i].items[1 := ToRecur(f, cases[i].items[1]).value])])
    decreases i
  {
    hide ToRecur, TailFits;
    if i < |cases| && cases[i].List? && |cases[i].items| == 2 && ToRecur(f, cases[i].items[1]).Some? {
      var changed := List(cases[i].items[1 := ToRecur(f, cases[i].items[1]).value]);
      if i > 0 {
        FirstCase(f, n, cases[1..], i - 1);
        assert [cases[0]] + cases[1..][i - 1 := changed] == cases[i := changed];
      } else {
        assert [changed] + cases[1..] == cases[0 := changed];
      }
    } else if i > 0 {
      FirstCase(f, n, cases[1..], i - 1);
    }
  }

  /** No call in tail position in the first i cases. */
  ghost predicate NoneBefore(f: string, cases: seq<Kl>, i: nat)
    requires i <= |cases|
  {
    forall j :: 0 <= j < i ==> cases[j].List? && |cases[j].items| == 2 && ToRecur(f, cases[j].items[1]).None?
  }

  lemma OneMoreCase(f: string, cases: seq<Kl>, i: nat)
    requires i < |cases| && NoneBefore(f, cases, i)
    requires cases[i].List? && |cases[i].items| == 2 && ToRecur(f, cases[i].items[1]).None?
    ensures NoneBefore(f, cases, i + 1)
  {
  }

  lemma NoCaseYet(f: string, cases: seq<Kl>)
    ensures NoneBefore(f, cases, 0)
  {
  }

  lemma NoCaseAtAll(f: string, n: nat, cases: seq<Kl>)
    requires CasesFit(f, n, cases) && NoneBefore(f, cases, |cases|)
    ensures CasesToRecur(f, cases).None?
  {
    FirstCase(f, n, cases, |cases|);
  }

  lemma CaseFound(f: string, n: nat, items: seq<Kl>, i: nat, items': seq<Kl>)
    requires 0 < |items| && i < |items[1..]| && CasesFit(f, n, items[1..]) && NoneBefore(f, items[1..], i)
    requires var c := items[1..][i];
      && c.List? && |c.items| == 2 && ToRecur(f, c.items[1]).Some?
      && items' == items[i + 1 := List(c.items[1 := ToRecur(f, c.items[1]).value])]
    ensures CasesToRecur(f, items[1..]).Some? && items' == [items[0]] + CasesToRecur(f, items[1..]).value
  {
    hide ToRecur, TailFits, CasesToRecur, CasesFit;
    var cases := items[1..];
    FirstCase(f, n, cases, i);
    assert items' == [items[0]] + cases[i := items'[i + 1]];
  }

  /** One case, element i of the list. */
  method CaseToRecur(f: string, n: nat, i: nat, o: Object, ghost l: Layout) returns (done: bool, ghost l': Layout)
    requires IsTree(l) && Laid(l) && i < |Items(l)| && o == Top(Rest(l, i).head)
    requires Items(l)[i].List? && |Items(l)[i].items| == 2 && TailFits(f, n, Items(l)[i].items[1])
    modifies Cells(l)
    ensures l'.Node? && Top(l') == Top(l) && IsTree(l') && Laid(l') && Cells(l') == Cells(l)
    ensures done == ToRecur(f, Items(l)[i].items[1]).Some? && (!done ==> l' == l)
    ensures done ==> Items(l') == Items(l)[i := List(Items(l)[i].items[1 := ToRecur(f, Items(l)[i].items[1]).value])]
    decreases Weight(l), 0
  {
    hide TailFits, ToRecur;
    ElementAt(l, i);
    ghost var q := Rest(l, i).head;
    NodeExpr(q);
    ElementAt(q, 0);
    ElementAt(q, 1);
    ghost var s := Shot(Cells(l));
    LaidThen(l, Cells(l));
    ghost var q';
    done, q' := ElementToRecur(f, n, 1, Head(Tail(o)), q);
    NodeExpr(q');
    PutParts(l, i, q');
    Together(l, i, q', s);
    PutSame(l, i);
    l' := if done then Put(l, i, q') else l;
    assert Cells(l) - Cells(q) + Cells(q') == Cells(l);
  }

  /** The cases of a cond, l being the whole form. */
  method CasesToRecurInPlace(f: string, n: nat, c: Cons, ghost l: Layout) returns (done: bool, ghost l': Layout)
    requires l.Node? && l.cell == c && IsTree(l) && Laid(l) && CasesFit(f, n, Items(l)[1..])
    modifies Cells(l)
    ensures l'.Node? && Top(l') == Top(l) && IsTree(l') && Laid(l') && Cells(l') == Cells(l)
    ensures done == CasesToRecur(f, Items(l)[1..]).Some? && (!done ==> l' == l)
    ensures done ==> Items(l') == [Items(l)[0]] + CasesToRecur(f, Items(l)[1..]).value
    decreases Weight(l), 1
  {
    hide TailFits, ToRecur, KeywordOf, CasesToRecur, CasesFit, NoneBefore, Laid, IsTree, Cells, Expr;
    ghost var cases := Items(l)[1..];
    done, l' := false, l;
    var list, i := c.tail, 0;
    ElementAt(l, 0);
    NoCaseYet(f, cases);
    while list.Ref? && !done
      invariant i <= |cases| && (!done ==> l' == l && Laid(l) && list == Top(Rest(l, i + 1)))
      invariant !done ==> NoneBefore(f, cases, i)
      invariant done ==> CasesToRecur(f, cases).Some? && Items(l') == [Items(l)[0]] + CasesToRecur(f, cases).value
      invariant l'.Node? && Top(l') == Top(l) && IsTree(l') && Laid(l') && Cells(l') == Cells(l)
      decreases !done, |cases| - i
    {
      RestParts(l, i + 1);
      CasesSkipped(f, n, cases, i);
      ElementAt(l, i + 1);
      done, l' := CaseToRecur(f, n, i + 1, list.cell.head, l);
      if done {
        CaseFound(f, n, Items(l), i, Items(l'));
      } else {
        OneMoreCase(f, cases, i);
        ElementAt(l, i + 1);
        list, i := list.cell.tail, i + 1;
      }
    }
    RestParts(l, i + 1);
    if !done {
      NoCaseAtAll(f, n, cases);
    }
  }

  lemma FirstElements(l: Layout)
    requires l.Node? && IsTree(l) && Laid(l)
    ensures |Items(l)| == 4 ==> Head(Tail(Tail(Top(l)))) == Top(Rest(l, 2).head) && Head(Tail(Tail(Tail(Top(l))))) == Top(Rest(l, 3).head)
  {
    if |Items(l)| == 4 {
      ElementAt(l, 0);
      ElementAt(l, 1);
      ElementAt(l, 2);
      ElementAt(l, 3);
    }
  }

  lemma IfFits(f: string, n: nat, l: Layout)
    requires l.Node? && IsTree(l) && TailFits(f, n, Expr(l)) && l.head.Leaf? && l.head.object_.Name? && l.head.object_.name != f
    ensures KeywordOf(l.head.object_.name).KIf? ==> |Items(l)| == 4 && TailFits(f, n, Items(l)[2]) && TailFits(f, n, Items(l)[3])
    ensures KeywordOf(l.head.object_.name).KLet? ==> |Items(l)| == 4 && TailFits(f, n, Items(l)[3])
    ensures KeywordOf(l.head.object_.name).KCond? ==> |Items(l)| > 1 && CasesFit(f, n, Items(l)[1..])
  {
    hide KeywordOf;
  }

  /** The whole with its i-th element rewritten, where that changes. */
  function RecurAt(f: string, e: Kl, i: nat): Option<Kl>
    requires e.List? && i < |e.items|
  {
    if ToRecur(f, e.items[i]).Some? then Some(List(e.items[i := ToRecur(f, e.items[i]).value])) else None
  }

  lemma RecurOfForm(f: string, e: Kl)
    requires NonEmpty(e) && e.items[0].Sym? && e.items[0].name != f
    requires KeywordOf(e.items[0].name) in {KIf, KLet} ==> |e.items| == 4
    ensures match KeywordOf(e.items[0].name)
      case KIf => ToRecur(f, e) == if RecurAt(f, e, 2).Some? then RecurAt(f, e, 2) else RecurAt(f, e, 3)
      case KLet => ToRecur(f, e) == RecurAt(f, e, 3)
      case KCond =>
        && ToRecur(f, e).Some? == CasesToRecur(f, e.items[1..]).Some?
        && (ToRecur(f, e).Some? ==> ToRecur(f, e).value == List([e.items[0]] + CasesToRecur(f, e.items[1..]).value))
      case _ => ToRecur(f, e).None?
  {
    hide KeywordOf, CasesToRecur;
  }

  /** The head symbol of a call of the function itself is overwritten. */
  method CallToRecur(f: string, c: Cons, ghost l: Layout) returns (ghost l': Layout)
    requires l.Node? && l.cell == c && IsTree(l) && Laid(l) && c.head == Name(f)
    modifies Cells(l)
    ensures Rewritten(f, l, l', true)
  {
    NodeExpr(l);
    NodeExpr(l.head);
    c.head := Name("c.recur");
    l' := Node(c, Leaf(Name("c.recur")), l.tail);
    assert [Sym("c.recur")] + Items(l.tail) == Items(l)[0 := Sym("c.recur")];
  }

  method ToRecurInPlace(f: string, n: nat, c: Cons, ghost l: Layout) returns (done: bool, ghost l': Layout)
    requires l.Node? && l.cell == c && IsTree(l) && Laid(l) && TailFits(f, n, Expr(l))
    modifies Cells(l)
    ensures Rewritten(f, l, l', done)
    decreases Weight(l), 2
  {
    hide ToRecur, TailFits, KeywordOf, CasesToRecur, CasesFit;
    NodeExpr(l);
    NodeExpr(l.head);
    if !c.head.Name? {
      HeadIsNoName(f, Expr(l));
      done, l' := false, l;
    } else if c.head.name == f {
      done := true;
      l' := CallToRecur(f, c, l);
    } else {
      IfFits(f, n, l);
      FirstElements(l);
      RecurOfForm(f, Expr(l));
      match KeywordOf(c.head.name)
      case KIf =>
        done, l' := ElementToRecur(f, n, 2, Head(Tail(Tail(Ref(c)))), l);
        if !done {
          FirstElements(l);
          done, l' := ElementToRecur(f, n, 3, Head(Tail(Tail(Tail(Ref(c))))), l);
        }
      case KLet =>
        done, l' := ElementToRecur(f, n, 3, Head(Tail(Tail(Tail(Ref(c))))), l);
      case KCond =>
        done, l' := CasesToRecurInPlace(f, n, c, l);
      case _ =>
        done, l' := false, l;
    }
  }

  lemma HeadIsNoName(f: string, e: Kl)
    requires NonEmpty(e) && !e.items[0].Sym?
    ensures ToRecur(f, e).None?
  {
  }
}
