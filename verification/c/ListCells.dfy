/** Expressions as the optimisers of src/c/evaluator.c find them: lists of mutable cells. */
module ListCells {
  import opened TreeWalk

  class Cons {
    var head: Object
    var tail: Object

    constructor (head: Object, tail: Object)
      ensures this.head == head && this.tail == tail
    {
      this.head, this.tail := head, tail;
    }
  }

  datatype Object = Name(name: string) | Constant(value: Value) | Empty | Ref(cell: Cons)

  /** The cells that an expression consists of, as the tree that they form. */
  datatype Layout = Leaf(object_: Object) | Node(cell: Cons, head: Layout, tail: Layout)

  ghost function Top(l: Layout): Object {
    match l
    case Leaf(o) => o
    case Node(cell, _, _) => Ref(cell)
  }

  ghost function Cells(l: Layout): set<Cons> {
    match l
    case Leaf(_) => {}
    case Node(cell, head, tail) => {cell} + Cells(head) + Cells(tail)
  }

  /** Proper lists without a shared cell. */
  ghost predicate IsTree(l: Layout) {
    match l
    case Leaf(o) => !o.Ref?
    case Node(cell, head, tail) =>
      && IsTree(head) && IsTree(tail) && (tail.Leaf? ==> tail.object_.Empty?)
      && cell !in Cells(head) && cell !in Cells(tail) && Cells(head) !! Cells(tail)
  }

  /** The cells hold what the layout says. */
  ghost predicate Laid(l: Layout)
    reads Cells(l)
  {
    match l
    case Leaf(_) => true
    case Node(cell, head, tail) => cell.head == Top(head) && cell.tail == Top(tail) && Laid(head) && Laid(tail)
  }

  ghost function Expr(l: Layout): Kl {
    match l
    case Leaf(Name(name)) => Sym(name)
    case Leaf(Constant(v)) => Obj(v)
    case Leaf(_) => List([])
    case Node(_, head, tail) => List([Expr(head)] + Items(tail))
  }

  ghost function Items(l: Layout): seq<Kl> {
    match l
    case Leaf(_) => []
    case Node(_, head, tail) => [Expr(head)] + Items(tail)
  }

  /** The layout from the i-th cell of a list on. */
  ghost function Rest(l: Layout, i: nat): (r: Layout)
    requires i <= |Items(l)|
    ensures i < |Items(l)| ==> r.Node?
  {
    if i == 0 then l else Rest(l.tail, i - 1)
  }

  /** The list with another i-th element. */
  ghost function Put(l: Layout, i: nat, x: Layout): Layout
    requires i < |Items(l)|
  {
    if i == 0 then Node(l.cell, x, l.tail) else Node(l.cell, l.head, Put(l.tail, i - 1, x))
  }

  ghost function Weight(l: Layout): nat {
    match l
    case Leaf(_) => 0
    case Node(_, head, tail) => 1 + Weight(head) + Weight(tail)
  }

  lemma {:induction false} RestParts(l: Layout, i: nat)
    requires IsTree(l) && i <= |Items(l)|
    ensures Weight(Rest(l, i)) <= Weight(l)
    ensures IsTree(Rest(l, i)) && Cells(Rest(l, i)) <= Cells(l) && Items(Rest(l, i)) == Items(l)[i..]
    ensures i < |Items(l)| ==> Rest(l, i).Node? && Expr(Rest(l, i).head) == Items(l)[i] && Rest(l, i).tail == Rest(l, i + 1)
    ensures i == |Items(l)| ==> Rest(l, i).Leaf?
    decreases i
  {
    if i > 0 {
      RestParts(l.tail, i - 1);
    }
  }

  lemma {:induction false} RestLaid(l: Layout, i: nat)
    requires Laid(l) && i <= |Items(l)|
    ensures Cells(Rest(l, i)) <= Cells(l) && Laid(Rest(l, i))
    decreases i
  {
    if i > 0 {
      RestLaid(l.tail, i - 1);
    }
  }

  /** What another element does to the whole. */
  lemma {:induction false} PutParts(l: Layout, i: nat, x: Layout)
    requires IsTree(l) && i < |Items(l)| && IsTree(x)
    requires Cells(x) !! Cells(l) - Cells(Rest(l, i).head)
    ensures IsTree(Put(l, i, x)) && Items(Put(l, i, x)) == Items(l)[i := Expr(x)]
    ensures Put(l, i, x).Node? && Put(l, i, x).cell == l.cell
    ensures Cells(Put(l, i, x)) == Cells(l) - Cells(Rest(l, i).head) + Cells(x)
    decreases i
  {
    hide Expr;
    if i > 0 {
      RestParts(l.tail, i - 1);
      CellsOfRest(l.tail, i - 1);
      PutParts(l.tail, i - 1, x);
      PutFurther(l, Rest(l, i).head, Put(l.tail, i - 1, x), x);
      assert [Expr(l.head)] + Items(l.tail)[i - 1 := Expr(x)] == Items(l)[i := Expr(x)];
    } else {
      PutFirst(l, x);
    }
  }

  lemma PutFirst(l: Layout, x: Layout)
    requires IsTree(l) && l.Node? && IsTree(x) && Cells(x) !! Cells(l) - Cells(l.head)
    ensures var l' := Node(l.cell, x, l.tail);
      IsTree(l') && Items(l') == Items(l)[0 := Expr(x)] && Cells(l') == Cells(l) - Cells(l.head) + Cells(x)
  {
    hide Expr;
    WithoutPart(l.cell, Cells(l.head), Cells(l.tail));
    assert Items(l) == [Expr(l.head)] + Items(l.tail);
  }

  lemma WithoutPart(c: Cons, part: set<Cons>, rest: set<Cons>)
    requires c !in part && part !! rest
    ensures {c} + part + rest - part == {c} + rest
  {
  }

  lemma {:induction false} CellsOfRest(l: Layout, i: nat)
    requires i < |Items(l)|
    ensures Cells(Rest(l, i).head) <= Cells(l)
    decreases i
  {
    if i > 0 {
      CellsOfRest(l.tail, i - 1);
    }
  }

  /** A list whose rest has x in place of e. */
  lemma PutFurther(l: Layout, e: Layout, rest: Layout, x: Layout)
    requires IsTree(l) && l.Node? && IsTree(rest) && rest.Node? && Cells(e) <= Cells(l.tail) && Cells(x) !! Cells(l) - Cells(e)
    requires Cells(rest) == Cells(l.tail) - Cells(e) + Cells(x)
    ensures var l' := Node(l.cell, l.head, rest);
      IsTree(l') && Cells(l') == Cells(l) - Cells(e) + Cells(x)
  {
    hide Expr, Items;
    assert Cells(l) == {l.cell} + Cells(l.head) + Cells(l.tail);
    assert l.cell !in Cells(e) && Cells(l.head) !! Cells(e);
    assert l.cell !in Cells(rest) && Cells(l.head) !! Cells(rest);
  }

  // Changes in place ----------------------------------------------------------------------------

  /** What cells held at some time. */
  type Snapshot = map<Cons, (Object, Object)>

  ghost function Shot(cells: set<Cons>): Snapshot
    reads cells
  {
    map c | c in cells :: (c.head, c.tail)
  }

  ghost predicate LaidIn(l: Layout, s: Snapshot) {
    match l
    case Leaf(_) => true
    case Node(cell, head, tail) => cell in s && s[cell] == (Top(head), Top(tail)) && LaidIn(head, s) && LaidIn(tail, s)
  }

  /** The cells still hold what they did. */
  ghost predicate Still(s: Snapshot, cells: set<Cons>)
    reads cells
  {
    forall c :: c in cells ==> c in s && s[c] == (c.head, c.tail)
  }

  lemma {:induction false} LaidThen(l: Layout, cells: set<Cons>)
    requires Laid(l) && Cells(l) <= cells
    ensures LaidIn(l, Shot(cells))
    decreases l
  {
    if l.Node? {
      LaidThen(l.head, cells);
      LaidThen(l.tail, cells);
    }
  }

  lemma {:induction false} StillLaid(l: Layout, s: Snapshot)
    requires LaidIn(l, s) && Still(s, Cells(l))
    ensures Laid(l)
    decreases l
  {
    if l.Node? {
      StillLaid(l.head, s);
      StillLaid(l.tail, s);
    }
  }

  /** The element may have been changed in place, nothing else of the list was. */
  lemma {:induction false} Together(l: Layout, i: nat, x: Layout, s: Snapshot)
    requires IsTree(l) && i < |Items(l)| && LaidIn(l, s) && Still(s, Cells(l) - Cells(Rest(l, i).head))
    requires Laid(x) && Top(x) == Top(Rest(l, i).head)
    ensures Laid(Put(l, i, x))
    decreases i
  {
    hide Expr, Still;
    if i > 0 {
      CellsOfRest(l.tail, i - 1);
      StillBeside(l, Rest(l, i).head, s);
      StillLaid(l.head, s);
      Together(l.tail, i - 1, x, s);
    } else {
      StillAfter(l, s);
      StillLaid(l.tail, s);
    }
  }

  /** What is not in e, a part of the tail. */
  lemma StillBeside(l: Layout, e: Layout, s: Snapshot)
    requires IsTree(l) && l.Node? && Cells(e) <= Cells(l.tail) && LaidIn(l, s) && Still(s, Cells(l) - Cells(e))
    ensures Still(s, Cells(l.head)) && Still(s, Cells(l.tail) - Cells(e)) && l.cell.head == Top(l.head) && l.cell.tail == Top(l.tail)
  {
    assert l.cell in Cells(l) - Cells(e) && Cells(l.head) <= Cells(l) - Cells(e);
  }

  /** What is not in the head. */
  lemma StillAfter(l: Layout, s: Snapshot)
    requires IsTree(l) && l.Node? && LaidIn(l, s) && Still(s, Cells(l) - Cells(l.head))
    ensures Still(s, Cells(l.tail)) && l.cell.head == Top(l.head) && l.cell.tail == Top(l.tail)
  {
    assert l.cell in Cells(l) - Cells(l.head) && Cells(l.tail) <= Cells(l) - Cells(l.head);
  }

  /** get_head_kl_list and get_tail_kl_list: the empty list is its own head and tail. */
  function Head(o: Object): Object
    reads if o.Ref? then {o.cell} else {}
  {
    if o.Ref? then o.cell.head else o
  }

  function Tail(o: Object): Object
    reads if o.Ref? then {o.cell} else {}
  {
    if o.Ref? then o.cell.tail else o
  }

  /** What the cells of a list show of its i-th element. */
  lemma ElementAt(l: Layout, i: nat)
    requires IsTree(l) && Laid(l) && i < |Items(l)|
    ensures var r := Rest(l, i);
      && r.cell in Cells(l) && r.cell.head == Top(r.head) && r.cell.tail == Top(Rest(l, i + 1))
      && IsTree(r.head) && Laid(r.head) && Cells(r.head) <= Cells(l) && Weight(r.head) < Weight(l)
      && Expr(r.head) == Items(l)[i] && (r.head.Node? <==> NonEmpty(Items(l)[i]))
  {
    RestParts(l, i);
    RestLaid(l, i);
  }

  lemma NodeExpr(l: Layout)
    requires IsTree(l)
    ensures l.Node? <==> NonEmpty(Expr(l))
    ensures l.Node? <==> Top(l).Ref?
    ensures l.Node? ==> Expr(l) == List(Items(l)) && |Items(l)| > 0
    ensures l.Leaf? && l.object_.Name? <==> Expr(l).Sym?
  {
  }

  lemma {:induction false} CellsExist(l: Layout)
    ensures forall c :: c in Cells(l) ==> allocated(c)
    decreases l
  {
    if l.Node? {
      CellsExist(l.head);
      CellsExist(l.tail);
    }
  }
}
