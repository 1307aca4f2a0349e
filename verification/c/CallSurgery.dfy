/** optimize_multiple_function_calls as it is written (src/c/evaluator.c): the body is changed in
    place, and the lists that the recursive pass returns share the cells of what they are made of. */
module CallSurgery {
  import opened Options
  import opened TreeWalk
  import opened CallFusion
  import opened ListCells

  /** The same list object after the pass, with cells of its own and new ones only. */
  twostate predicate Became(l: Layout, new l': Layout, e: Kl)
    reads Cells(l')
  {
    && l'.Node? && Top(l') == Top(l) && IsTree(l') && Laid(l') && Expr(l') == e
    && fresh(Cells(l') - Cells(l))
  }

  /** A returned list. */
  twostate predicate Returned(l: Layout, new o: Option<Object>, new r: Layout, list: Option<seq<Kl>>)
    reads Cells(r)
  {
    && o.Some? == list.Some?
    && (o.Some? ==>
      && o.value == Top(r) && r.Node? && IsTree(r) && Laid(r) && Items(r) == list.value
      && fresh(Cells(r) - Cells(l)))
  }

  method HelperInPlace(c: Cons, target: string, level: nat, count: nat, ghost l: Layout)
    returns (list: Option<Object>, after: nat, ghost l': Layout, ghost r: Layout)
    requires l.Node? && l.cell == c && IsTree(l) && Laid(l)
    modifies Cells(l)
    ensures var p := Helper(Expr(l), target, level, count);
      Became(l, l', p.tree) && Returned(l, list, r, p.list) && after == p.count
    decreases Weight(l), 2
  {
    hide HelperCons, HelperSide, WalkAll;
    NodeExpr(l);
    NodeExpr(l.head);
    if c.head == Name("cons") {
      list, after, l', r := ConsInPlace(c, target, level, count, l);
    } else if c.head == Name("hd") {
      list, after, l', r := SideInPlace(c, "hd", target, level, count, l);
    } else if c.head == Name("tl") {
      list, after, l', r := SideInPlace(c, "tl", target, level, count, l);
    } else {
      l' := ElementsInPlace(c, l);
      list, after, r := None, if level > 0 then 0 else count, l;
    }
  }

  /** One element that may be a list. */
  method WalkInPlace(o: Object, ghost l: Layout) returns (ghost l': Layout)
    requires o == Top(l) && IsTree(l) && Laid(l)
    modifies Cells(l)
    ensures Top(l') == Top(l) && IsTree(l') && Laid(l') && Expr(l') == Walk(Expr(l)) && fresh(Cells(l') - Cells(l))
    decreases Weight(l), 3
  {
    hide Helper;
    NodeExpr(l);
    l' := l;
    if o.Ref? {
      var _, _, l1, _ := HelperInPlace(o.cell, "", 0, 0, l);
      l' := l1;
    }
  }

  /** Every element that is a list, in order. */
  method ElementsInPlace(c: Cons, ghost l: Layout) returns (ghost l': Layout)
    requires l.Node? && l.cell == c && IsTree(l) && Laid(l)
    modifies Cells(l)
    ensures Became(l, l', List(WalkAll(Items(l))))
    decreases Weight(l), 1
  {
    hide Walk, Laid, IsTree, Expr, Cells, Weight, WalkAll, Items, Rest, Put;
    NodeExpr(l);
    ghost var items := Items(l);
    l' := l;
    var list: Object, i := Ref(c), 0;
    RestOfAll(l);
    while list.Ref?
      invariant i <= |items| == |Items(l')| && l'.Node? && l'.cell == c && IsTree(l') && Laid(l')
      invariant fresh(Cells(l') - Cells(l)) && Rest(l', i) == Rest(l, i) && list == Top(Rest(l', i))
      invariant forall j :: 0 <= j < i ==> Items(l')[j] == Walk(items[j])
      invariant forall j :: i <= j < |items| ==> Items(l')[j] == items[j]
      decreases |items| - i
    {
      RestParts(l', i);
      RestParts(l, i);
      ghost var before := l';
      label Before:
      list, l' := NextElement(list.cell, i, l', Weight(l));
      i := i + 1;
      forall x | x in Cells(l') && x !in Cells(l)
        ensures fresh(x)
      {
        if x !in Cells(before) {
          assert !old@Before(allocated(x));
        }
      }
    }
    RestParts(l', i);
    NodeExpr(l');
    AllWalked(items, Items(l'));
  }

  lemma RestOfAll(l: Layout)
    ensures Rest(l, 0) == l
  {
  }

  lemma {:induction false} AllWalked(items: seq<Kl>, done: seq<Kl>)
    requires |done| == |items| && forall j :: 0 <= j < |items| ==> done[j] == Walk(items[j])
    ensures WalkAll(items) == done
    decreases |items|
  {
    hide Walk;
    if |items| > 0 {
      AllWalked(items[1..], done[1..]);
    }
  }

  lemma {:induction false} RestOfPut(l: Layout, i: nat, x: Layout)
    requires i < |Items(l)| && IsTree(Put(l, i, x))
    ensures |Items(Put(l, i, x))| == |Items(l)|
    ensures Rest(Put(l, i, x), i + 1) == Rest(l, i + 1) && Rest(Put(l, i, x), i).cell == Rest(l, i).cell
    decreases i
  {
    if i > 0 {
      RestOfPut(l.tail, i - 1, x);
    }
  }

  /** The element in the i-th cell; what follows it stays. */
  method NextElement(cell: Cons, i: nat, ghost l: Layout, ghost w: nat) returns (next: Object, ghost l': Layout)
    requires l.Node? && IsTree(l) && Laid(l) && i < |Items(l)| && Rest(l, i).cell == cell && Weight(Rest(l, i)) <= w
    modifies Cells(l)
    ensures l'.Node? && l'.cell == l.cell && IsTree(l') && Laid(l') && fresh(Cells(l') - Cells(l))
    ensures Items(l') == Items(l)[i := Walk(Items(l)[i])] && Rest(l', i + 1) == Rest(l, i + 1) && next == Top(Rest(l', i + 1))
    decreases w, 0
  {
    hide Walk;
    ElementAt(l, i);
    RestParts(l, i);
    ghost var e := Rest(l, i).head;
    ghost var s := Shot(Cells(l));
    LaidThen(l, Cells(l));
    CellsExist(l);
    ghost var known := Cells(l);
    ghost var x := WalkInPlace(cell.head, e);
    assert Cells(x) !! known - Cells(e);
    PutParts(l, i, x);
    Together(l, i, x, s);
    l' := Put(l, i, x);
    RestOfPut(l, i, x);
    ElementAt(l', i);
    next := cell.tail;
  }

  method ConsInPlace(c: Cons, target: string, level: nat, count: nat, ghost l: Layout)
    returns (list: Option<Object>, after: nat, ghost l': Layout, ghost r: Layout)
    requires l.Node? && l.cell == c && IsTree(l) && Laid(l) && HeadedBy(Expr(l), "cons")
    modifies Cells(l)
    ensures var p := HelperCons(Expr(l), target, level, count);
      Became(l, l', p.tree) && Returned(l, list, r, p.list) && after == p.count
    decreases Weight(l), 1
  {
    hide Helper, Walk;
    NodeExpr(l);
    NodeExpr(l.head);
    Spine(l);
    list, after, l', r := None, count, l, l;
    var cdr := c.tail;
    if cdr.Ref? && Tail(cdr).Ref? && Tail(Tail(cdr)).Empty? {
      ThreeCells(l);
      list, after, l', r := ConsOfThree(c, cdr.cell, Tail(cdr).cell, target, level, count, l);
    } else {
      NotThree(l);
    }
  }

  lemma Spine(l: Layout)
    requires IsTree(l) && Laid(l) && l.Node?
    ensures l.cell.tail == Top(l.tail) && (l.tail.Leaf? ==> l.tail == Leaf(Empty))
    ensures l.tail.Node? ==> l.tail.cell.tail == Top(l.tail.tail) && (l.tail.tail.Leaf? ==> l.tail.tail == Leaf(Empty))
    ensures l.tail.Node? && l.tail.tail.Node? ==>
      l.tail.tail.cell.tail == Top(l.tail.tail.tail) && (l.tail.tail.tail.Leaf? ==> l.tail.tail.tail == Leaf(Empty))
  {
    if l.tail.Node? && l.tail.tail.Node? {
      assert IsTree(l.tail.tail) && Laid(l.tail.tail);
    }
  }

  lemma NotThree(l: Layout)
    requires IsTree(l) && l.Node? && (l.tail.Node? && l.tail.tail.Node? ==> l.tail.tail.tail.Node?)
    ensures |Items(l)| != 3
  {
    if l.tail.Node? && l.tail.tail.Node? {
      assert |Items(l.tail.tail.tail)| > 0;
      assert |Items(l.tail)| > 2;
    }
  }

  /** The parts of a list of three cells. */
  lemma ThreeCells(l: Layout)
    requires IsTree(l) && Laid(l) && l.Node? && l.tail.Node? && l.tail.tail.Node? && l.tail.tail.tail.Leaf?
    ensures var a, b := l.tail.head, l.tail.tail.head;
      && IsTree(a) && Laid(a) && IsTree(b) && Laid(b) && Weight(a) + Weight(b) < Weight(l)
      && Cells(a) !! Cells(b) && {l.cell, l.tail.cell, l.tail.tail.cell} !! Cells(a) + Cells(b)
      && l.cell != l.tail.cell && l.cell != l.tail.tail.cell && l.tail.cell != l.tail.tail.cell
      && l.tail.tail.tail == Leaf(Empty) && Expr(l) == List([Expr(l.head), Expr(a), Expr(b)])
      && l.cell.head == Top(l.head) && l.cell.tail == Ref(l.tail.cell) && l.tail.cell.head == Top(a)
      && l.tail.cell.tail == Ref(l.tail.tail.cell) && l.tail.tail.cell.head == Top(b) && l.tail.tail.cell.tail == Empty
      && Cells(l) == Cells(l.head) + {l.cell, l.tail.cell, l.tail.tail.cell} + Cells(a) + Cells(b)
  {
    var rest := l.tail.tail;
    assert IsTree(l.tail) && Laid(l.tail) && IsTree(rest) && Laid(rest) && Cells(rest) == {rest.cell} + Cells(rest.head);
    assert Items(rest) == [Expr(rest.head)] && Weight(rest) == 1 + Weight(rest.head) && Weight(l.tail) == 1 + Weight(l.tail.head) + Weight(rest);
    assert [Expr(l.tail.head)] + [Expr(rest.head)] == [Expr(l.tail.head), Expr(rest.head)];
    assert Items(l.tail) == [Expr(l.tail.head), Expr(rest.head)];
    assert [Expr(l.head)] + [Expr(l.tail.head), Expr(rest.head)] == [Expr(l.head), Expr(l.tail.head), Expr(rest.head)];
  }

  /** The outermost cell of nested calls of cons becomes the call of c.mcons. */
  method MconsInPlace(c: Cons, n: Cons, ghost r: Layout) returns (ghost l': Layout)
    requires r.Node? && r.cell == n && IsTree(r) && Laid(r) && c !in Cells(r)
    modifies c
    ensures l'.Node? && l'.cell == c && IsTree(l') && Laid(l') && Cells(l') == {c} + Cells(r)
    ensures Expr(l') == List([Sym("c.mcons")] + Items(r))
  {
    c.head, c.tail := Name("c.mcons"), Ref(n);
    l' := Node(c, Leaf(Name("c.mcons")), r);
  }

  /** The two arguments of a call of cons, one after the other. */
  method ConsParts(cadr: Object, caddr: Object, own: nat, count: nat, ghost a: Layout, ghost b: Layout)
    returns (list: Option<Object>, after: nat, ghost a': Layout, ghost b': Layout, ghost r: Layout)
    requires IsTree(a) && Laid(a) && cadr == Top(a) && IsTree(b) && Laid(b) && caddr == Top(b) && Cells(a) !! Cells(b)
    modifies Cells(a), Cells(b)
    ensures IsTree(a') && Laid(a') && Top(a') == cadr && Expr(a') == Walk(Expr(a)) && fresh(Cells(a') - Cells(a))
    ensures IsTree(b') && Laid(b') && Top(b') == caddr && fresh(Cells(b') - Cells(b)) && Cells(a') !! Cells(b')
    ensures caddr.Ref? == NonEmpty(Expr(b))
    ensures caddr.Ref? ==> var p := Helper(Expr(b), "cons", own, count);
      && Expr(b') == p.tree && after == p.count && list.Some? == p.list.Some?
      && (list.Some? ==> list.value == Top(r) && r.Node? && IsTree(r) && Laid(r) && Items(r) == p.list.value)
      && (list.Some? ==> fresh(Cells(r) - Cells(b)) && Cells(a') !! Cells(r))
    ensures !caddr.Ref? ==> list.None? && after == count && b' == b
    decreases Weight(a) + Weight(b), 4
  {
    hide Helper, Walk, Laid, IsTree, Expr, Items;
    CellsExist(b);
    ghost var s := Shot(Cells(b));
    LaidThen(b, Cells(b));
    a' := WalkInPlace(cadr, a);
    StillLaid(b, s);
    CellsExist(a');
    assert Cells(a') !! Cells(b);
    ghost var s' := Shot(Cells(a'));
    LaidThen(a', Cells(a'));
    NodeExpr(b);
    b', r, list, after := b, b, None, count;
    if caddr.Ref? {
      ghost var known := Cells(a');
      label Between:
      list, after, b', r := HelperInPlace(caddr.cell, "cons", own, count, b);
      assert known !! Cells(b') && (list.Some? ==> known !! Cells(r));
      assert fresh@Between(Cells(b') - Cells(b)) && (list.Some? ==> fresh@Between(Cells(r) - Cells(b)));
      forall x | (x in Cells(b') || (list.Some? && x in Cells(r))) && x !in Cells(b)
        ensures fresh(x)
      {
        assert !old@Between(allocated(x));
      }
    }
    StillLaid(a', s');
  }

  /** What a call of cons makes of the pass over its second argument. */
  function ConsPass(first: Kl, r: Pass, own: nat): Pass {
    var plain := List([Sym("cons"), first, r.tree]);
    if r.list.None? then Pass(plain, if own > 1 then Some([first, r.tree]) else None, r.count)
    else if own > 1 then Pass(plain, Some([first] + r.list.value), r.count)
    else Pass(List([Sym("c.mcons"), first] + r.list.value), None, r.count)
  }

  function SecondPass(second: Kl, own: nat, count: nat): Pass {
    if NonEmpty(second) then Helper(second, "cons", own, count) else Pass(second, None, count)
  }

  lemma ConsOfParts(e: Kl, target: string, level: nat, count: nat)
    requires HeadedBy(e, "cons") && |e.items| == 3
    ensures var own := if target == "cons" then level + 1 else 1;
      HelperCons(e, target, level, count) == ConsPass(Walk(e.items[1]), SecondPass(e.items[2], own, count), own)
  {
    hide Helper, Walk;
  }

  /** Both arguments are changed; the three cells stay. */
  method ConsArguments(c: Cons, c1: Cons, c2: Cons, own: nat, count: nat, ghost l: Layout)
    returns (list: Option<Object>, after: nat, ghost a: Layout, ghost b: Layout, ghost r: Layout)
    requires IsTree(l) && Laid(l) && l.Node? && l.tail.Node? && l.tail.tail.Node? && l.tail.tail.tail.Leaf?
    requires l.cell == c && l.tail.cell == c1 && l.tail.tail.cell == c2 && l.head == Leaf(Name("cons")) && HeadedBy(Expr(l), "cons")
    modifies Cells(l)
    ensures c in Cells(l) && |Items(l)| == 3 && c1.head == Top(a) && IsTree(a) && Laid(a) && fresh(Cells(a) - Cells(l))
    ensures var p := SecondPass(Items(l)[2], own, count);
      && Became(l, Node(c, Leaf(Name("cons")), Node(c1, a, Node(c2, b, Leaf(Empty)))), List([Sym("cons"), Walk(Items(l)[1]), p.tree]))
      && Expr(a) == Walk(Items(l)[1]) && Expr(b) == p.tree && Returned(l, list, r, p.list) && after == p.count
    ensures var rest := Node(c2, b, Leaf(Empty));
      IsTree(rest) && Laid(rest) && Items(rest) == [Expr(b)] && Cells(a) !! Cells(rest) && fresh(Cells(rest) - Cells(l))
    ensures list.Some? ==> Cells(a) !! Cells(r) && c !in Cells(r) && c !in Cells(a)
    decreases Weight(l), 0, 0
  {
    hide Helper, Walk, IsTree, Laid, Weight, Cells, Expr, Parts, Fuse;
    ThreeCells(l);
    NodeExpr(l);
    CellsExist(l);
    list, after, a, b, r := ConsParts(c1.head, c2.head, own, count, l.tail.head, l.tail.tail.head);
    ConsTree(c, c1, c2, a, b);
  }

  method ConsOfThree(c: Cons, c1: Cons, c2: Cons, target: string, level: nat, count: nat, ghost l: Layout)
    returns (list: Option<Object>, after: nat, ghost l': Layout, ghost r: Layout)
    requires IsTree(l) && Laid(l) && l.Node? && l.tail.Node? && l.tail.tail.Node? && l.tail.tail.tail.Leaf?
    requires l.cell == c && l.tail.cell == c1 && l.tail.tail.cell == c2 && l.head == Leaf(Name("cons")) && HeadedBy(Expr(l), "cons")
    modifies Cells(l)
    ensures var p := HelperCons(Expr(l), target, level, count);
      Became(l, l', p.tree) && Returned(l, list, r, p.list) && after == p.count
    decreases Weight(l), 0, 1
  {
    hide SecondPass, HelperCons, Walk, IsTree, Laid, Weight, Cells, Expr, Items, Parts, Fuse;
    var own := if target == "cons" then level + 1 else 1;
    NodeExpr(l);
    ghost var e := Expr(l);
    ghost var a, b;
    list, after, a, b, r := ConsArguments(c, c1, c2, own, count, l);
    ConsOfParts(e, target, level, count);
    ghost var rest := Node(c2, b, Leaf(Empty));
    l' := Node(c, Leaf(Name("cons")), Node(c1, a, rest));
    if list.None? {
      if own > 1 {
        list, r := Fronted(c1.head, Ref(c2), a, rest, l');
      }
    } else {
      ghost var items := Items(r);
      list, r := Fronted(c1.head, list.value, a, r, l');
      if own <= 1 {
        assert [Sym("c.mcons")] + ([Expr(a)] + items) == [Sym("c.mcons"), Expr(a)] + items;
        l' := MconsInPlace(c, list.value.cell, r);
        list := None;
      }
    }
  }

  /** CONS of an element and a list; kept is a list that stays as it is. */
  method Fronted(head: Object, tail: Object, ghost a: Layout, ghost rest: Layout, ghost kept: Layout)
    returns (list: Option<Object>, ghost r: Layout)
    requires IsTree(a) && Laid(a) && head == Top(a) && IsTree(rest) && Laid(rest) && tail == Top(rest) && (rest.Leaf? ==> rest.object_.Empty?)
    requires Cells(a) !! Cells(rest) && Laid(kept)
    ensures list == Some(Top(r)) && r.Node? && fresh(r.cell) && IsTree(r) && Laid(r) && Laid(kept)
    ensures Items(r) == [Expr(a)] + Items(rest) && Cells(r) == {r.cell} + Cells(a) + Cells(rest)
  {
    CellsExist(a);
    CellsExist(rest);
    CellsExist(kept);
    var n := new Cons(head, tail);
    list, r := Some(Ref(n)), Node(n, a, rest);
    InFront(n, a, rest);
  }

  lemma ConsTree(c: Cons, c1: Cons, c2: Cons, a: Layout, b: Layout)
    requires IsTree(a) && Laid(a) && IsTree(b) && Laid(b) && Cells(a) !! Cells(b)
    requires c != c1 && c != c2 && c1 != c2 && {c, c1, c2} !! Cells(a) + Cells(b)
    requires c.head == Name("cons") && c.tail == Ref(c1) && c1.head == Top(a) && c1.tail == Ref(c2) && c2.head == Top(b) && c2.tail == Empty
    ensures var rest := Node(c2, b, Leaf(Empty)); var l := Node(c, Leaf(Name("cons")), Node(c1, a, rest));
      && IsTree(l) && Laid(l) && Expr(l) == List([Sym("cons"), Expr(a), Expr(b)])
      && IsTree(rest) && Laid(rest) && Items(rest) == [Expr(b)] && Cells(rest) == {c2} + Cells(b)
      && Cells(l) == {c, c1, c2} + Cells(a) + Cells(b)
  {
    hide IsTree, Laid, Cells;
    var rest := Node(c2, b, Leaf(Empty));
    NoCells(Empty);
    NoCells(Name("cons"));
    InFront(c2, b, Leaf(Empty));
    InFront(c1, a, rest);
    InFront(c, Leaf(Name("cons")), Node(c1, a, rest));
    assert [Expr(b)] + [] == [Expr(b)] && [Expr(a)] + [Expr(b)] == [Expr(a), Expr(b)];
    assert [Sym("cons")] + [Expr(a), Expr(b)] == [Sym("cons"), Expr(a), Expr(b)];
  }

  lemma NoCells(o: Object)
    requires !o.Ref?
    ensures Cells(Leaf(o)) == {} && IsTree(Leaf(o)) && Laid(Leaf(o))
  {
  }

  method SideInPlace(c: Cons, name: string, target: string, level: nat, count: nat, ghost l: Layout)
    returns (list: Option<Object>, after: nat, ghost l': Layout, ghost r: Layout)
    requires l.Node? && l.cell == c && IsTree(l) && Laid(l) && HeadedBy(Expr(l), name)
    modifies Cells(l)
    ensures var p := HelperSide(Expr(l), name, target, level, count);
      Became(l, l', p.tree) && Returned(l, list, r, p.list) && after == p.count
    decreases Weight(l), 1
  {
    hide Helper;
    list, after, l', r := None, if target == name then count + 1 else count, l, l;
    NodeExpr(l);
    NodeExpr(l.head);
    NodeExpr(l.tail);
    var cdr := c.tail;
    if cdr.Ref? && Tail(cdr).Empty? {
      NodeExpr(l.tail.head);
      NodeExpr(l.tail.tail);
      assert l == Node(c, Leaf(Name(name)), Node(cdr.cell, l.tail.head, Leaf(Empty)));
      assert Expr(l) == List([Sym(name), Expr(l.tail.head)]);
      if Head(cdr).Ref? {
        list, after, l', r := SideOfList(c, cdr.cell, name, target, level, count, l);
      } else if target == name && level > 0 {
        var n := new Cons(Head(cdr), Empty);
        list, r := Some(Ref(n)), Node(n, l.tail.head, Leaf(Empty));
      }
    } else {
      TooLong(l);
    }
  }

  lemma TooLong(l: Layout)
    requires IsTree(l) && l.Node? && (l.tail.Node? ==> l.tail.tail.Node?)
    ensures |Items(l)| != 2
  {
    assert l.tail.Node? ==> |Items(l.tail.tail)| > 0;
  }

  /** A new cell in front of a list. */
  lemma InFront(n: Cons, x: Layout, rest: Layout)
    requires n !in Cells(x) && n !in Cells(rest) && Cells(x) !! Cells(rest) && IsTree(x) && IsTree(rest) && Laid(x) && Laid(rest)
    requires n.head == Top(x) && n.tail == Top(rest) && (rest.Leaf? ==> rest.object_.Empty?)
    ensures var l := Node(n, x, rest);
      IsTree(l) && Laid(l) && Items(l) == [Expr(x)] + Items(rest) && Expr(l) == List(Items(l)) && Cells(l) == {n} + Cells(x) + Cells(rest)
  {
  }

  lemma SecondCell(l: Layout)
    requires IsTree(l) && Laid(l) && l.Node? && l.tail.Node?
    ensures var a := l.tail.head;
      && Laid(a) && IsTree(a) && Cells(a) <= Cells(l) && l.cell !in Cells(a) && l.tail.cell !in Cells(a) && l.cell != l.tail.cell
      && l.cell.head == Top(l.head) && l.cell.tail == Ref(l.tail.cell) && l.tail.cell.head == Top(a) && l.tail.cell.tail == Top(l.tail.tail)
      && {l.cell, l.tail.cell} <= Cells(l)
  {
  }

  /** A list of two cells. */
  lemma TwoCells(c: Cons, name: string, c1: Cons, x: Layout)
    requires c != c1 && c !in Cells(x) && c1 !in Cells(x) && IsTree(x) && Laid(x)
    requires c.head == Name(name) && c.tail == Ref(c1) && c1.head == Top(x) && c1.tail == Empty
    ensures var l := Node(c, Leaf(Name(name)), Node(c1, x, Leaf(Empty)));
      IsTree(l) && Laid(l) && Expr(l) == List([Sym(name), Expr(x)]) && Cells(l) == {c, c1} + Cells(x)
  {
    var l := Node(c, Leaf(Name(name)), Node(c1, x, Leaf(Empty)));
    assert Items(l.tail) == [Expr(x)];
    assert [Sym(name)] + [Expr(x)] == [Sym(name), Expr(x)];
  }

  /** The outermost cell of a run becomes the call of c.nth-hd or c.nth-tl. */
  method NthInPlace(c: Cons, name: string, total: nat, x: Object, ghost r: Layout) returns (ghost l': Layout, ghost n: Cons)
    requires r.Node? && x == Top(r) && IsTree(r) && Laid(r) && c !in Cells(r)
    modifies c
    ensures l'.Node? && l'.cell == c && IsTree(l') && Laid(l') && fresh(n) && Cells(l') == {c, n} + Cells(r)
    ensures Expr(l') == List([Sym(NthName(name)), Obj(Data(total))] + Items(r))
  {
    CellsExist(r);
    var number := new Cons(Constant(Data(total)), x);
    n := number;
    c.head, c.tail := Name(NthName(name)), Ref(number);
    l' := Node(c, Leaf(Name(NthName(name))), Node(n, Leaf(Constant(Data(total))), r));
    assert Items(l'.tail) == [Obj(Data(total))] + Items(r);
    assert [Sym(NthName(name))] + ([Obj(Data(total))] + Items(r)) == [Sym(NthName(name)), Obj(Data(total))] + Items(r);
  }

  /** What a call of hd or tl makes of the pass over its argument. */
  function SidePass(name: string, r: Pass, own: nat, here: nat, outer: nat): Pass {
    var total := if here == 1 then r.count else here;
    var after := if here == 1 then outer else r.count;
    var plain := List([Sym(name), r.tree]);
    if r.list.None? then Pass(plain, if own > 1 then Some([r.tree]) else None, after)
    else if own > 1 then Pass(plain, r.list, after)
    else if total > 1 then Pass(List([Sym(NthName(name)), Obj(Data(total))] + r.list.value), None, after)
    else Pass(plain, None, after)
  }

  lemma SideOfPart(e: Kl, name: string, target: string, level: nat, count: nat)
    requires HeadedBy(e, name) && |e.items| == 2 && NonEmpty(e.items[1])
    ensures var (own, here, outer) := if target == name then (level + 1, count + 1, count + 1) else (1, 1, count);
      HelperSide(e, name, target, level, count)
      == SidePass(name, Helper(e.items[1], name, own, if here == 1 then 1 else outer), own, here, outer)
  {
    hide Helper;
  }

  /** The argument is a list; c1 is the cell that holds it. */
  method SideOfList(c: Cons, c1: Cons, name: string, target: string, level: nat, count: nat, ghost l: Layout)
    returns (list: Option<Object>, after: nat, ghost l': Layout, ghost r: Layout)
    requires IsTree(l) && Laid(l) && l.Node? && l.tail.Node? && l.tail.head.Node?
    requires l == Node(c, Leaf(Name(name)), Node(c1, l.tail.head, Leaf(Empty))) && Expr(l) == List([Sym(name), Expr(l.tail.head)])
    modifies Cells(l)
    ensures var p := HelperSide(Expr(l), name, target, level, count);
      Became(l, l', p.tree) && Returned(l, list, r, p.list) && after == p.count
    decreases Weight(l), 0
  {
    hide Helper, HelperSide, NthName, Laid, IsTree, Cells, Expr, Fuse, Parts;
    var own := if target == name then level + 1 else 1;
    var here := if target == name then count + 1 else 1;
    var outer := if target == name then count + 1 else count;
    ghost var a := l.tail.head;
    SecondCell(l);
    NodeExpr(a);
    assert Weight(l.tail) == 1 + Weight(a) && Weight(a) < Weight(l);
    SideOfPart(Expr(l), name, target, level, count);
    var cadr := c1.head;
    var inner;
    ghost var a', r0;
    list, inner, a', r0 := HelperInPlace(cadr.cell, name, own, if here == 1 then 1 else outer, a);
    assert c !in Cells(a') && c1 !in Cells(a');
    var total := if here == 1 then inner else here;
    after := if here == 1 then outer else inner;
    ghost var q := Helper(Expr(a), name, own, if here == 1 then 1 else outer);
    r := r0;
    l' := Node(c, Leaf(Name(name)), Node(c1, a', Leaf(Empty)));
    TwoCells(c, name, c1, a');
    assert Became(l, l', List([Sym(name), q.tree]));
    if list.None? {
      if own > 1 {
        NoCells(Empty);
        list, r := Fronted(cadr, Empty, a', Leaf(Empty), l');
      }
    } else if own <= 1 {
      if total > 1 {
        ghost var n;
        l', n := NthInPlace(c, name, total, list.value, r0);
      }
      list := None;
    }
  }

  /** optimize_multiple_function_calls: afterwards the object is the fused body. */
  method FuseInPlace(body: Object, ghost l: Layout) returns (ghost l': Layout)
    requires body == Top(l) && IsTree(l) && Laid(l)
    modifies Cells(l)
    ensures body == Top(l') && IsTree(l') && Laid(l') && Expr(l') == Fuse(Expr(l)) && fresh(Cells(l') - Cells(l))
  {
    hide Fuse, Walk;
    l' := WalkInPlace(body, l);
    WalkFuses(Expr(l));
  }
}
