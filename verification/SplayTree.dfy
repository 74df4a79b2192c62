/**
  The top-down splay tree of src/splay-tree.h, whose keys are spans of addresses, as
  src/large-object-space.h instantiates it.

  The nodes are objects and the algorithms rewire them, dummy node included.  A `Shape` is
  what a piece of the tree looks like at one moment; `Rep` says that the pointers from a
  node form that shape.  What matters is the in-order sequence of the nodes: splaying
  leaves it alone, insertion and removal change it in one place.
*/
module SplayTree {

  class Node<V> {
    const start: nat
    const size: nat
    var value: V
    var left: Node?<V>
    var right: Node?<V>

    constructor (start: nat, size: nat, value: V)
      ensures this.start == start && this.size == size && this.value == value && left == null && right == null
    {
      this.start, this.size, this.value, left, right := start, size, value, null, null;
    }
  }

  /** large_object_compare */
  function Compare<V>(key: nat, n: Node<V>): int {
    if key < n.start then -1 else if key - n.start < n.size then 0 else 1
  }

  ghost predicate Covers<V>(n: Node<V>, key: nat) {
    n.start <= key < n.start + n.size
  }

  datatype Shape<!V> = Leaf | Branch(n: Node<V>, l: Shape<V>, r: Shape<V>)

  ghost function Nodes<V>(t: Shape<V>): set<Node<V>> {
    match t
    case Leaf => {}
    case Branch(n, l, r) => {n} + Nodes(l) + Nodes(r)
  }

  ghost function Inorder<V>(t: Shape<V>): seq<Node<V>> {
    match t
    case Leaf => []
    case Branch(n, l, r) => Inorder(l) + [n] + Inorder(r)
  }

  /** No node occurs twice. */
  ghost predicate Proper<V>(t: Shape<V>) {
    match t
    case Leaf => true
    case Branch(n, l, r) =>
      n !in Nodes(l) && n !in Nodes(r) && Nodes(l) !! Nodes(r) && Proper(l) && Proper(r)
  }

  ghost predicate Rep<V>(p: Node?<V>, t: Shape<V>)
    reads Nodes(t)`left, Nodes(t)`right
  {
    match t
    case Leaf => p == null
    case Branch(n, l, r) => p == n && Rep(n.left, l) && Rep(n.right, r)
  }

  // ---------- The two side trees of the algorithm ----------

  /** A node linked to a side tree, with the subtree that stays with it. */
  datatype Item<!V> = Item(n: Node<V>, t: Shape<V>)

  ghost function ItemNodes<V>(items: seq<Item<V>>): set<Node<V>> {
    if items == [] then {}
    else ItemNodes(items[..|items| - 1]) + {items[|items| - 1].n} + Nodes(items[|items| - 1].t)
  }

  ghost predicate ProperItems<V>(items: seq<Item<V>>) {
    items == [] ||
    var rest, x := items[..|items| - 1], items[|items| - 1];
    x.n !in Nodes(x.t) && Proper(x.t) && x.n !in ItemNodes(rest) && Nodes(x.t) !! ItemNodes(rest) && ProperItems(rest)
  }

  /** Where the next node will be linked: below the last one, or below the dummy. */
  ghost function Last<V>(d: Node<V>, items: seq<Item<V>>): Node<V> {
    if items == [] then d else items[|items| - 1].n
  }

  /** The L tree hangs from the dummy's right child: each node keeps its left subtree and has the next
      one, larger, as its right child. */
  ghost predicate LeftChain<V>(d: Node<V>, items: seq<Item<V>>)
    reads d`right, ItemNodes(items)
  {
    items == [] ||
    var rest, x := items[..|items| - 1], items[|items| - 1];
    LeftChain(d, rest) && Rep(x.n.left, x.t) && (if rest == [] then d.right == x.n else rest[|rest| - 1].n.right == x.n)
  }

  ghost predicate RightChain<V>(d: Node<V>, items: seq<Item<V>>)
    reads d`left, ItemNodes(items)
  {
    items == [] ||
    var rest, x := items[..|items| - 1], items[|items| - 1];
    RightChain(d, rest) && Rep(x.n.right, x.t) && (if rest == [] then d.left == x.n else rest[|rest| - 1].n.left == x.n)
  }

  /** The side trees once `t` has been put in the last open place. */
  ghost function BuildLeft<V>(items: seq<Item<V>>, t: Shape<V>): Shape<V> {
    if items == [] then t
    else BuildLeft(items[..|items| - 1], Branch(items[|items| - 1].n, items[|items| - 1].t, t))
  }

  ghost function BuildRight<V>(items: seq<Item<V>>, t: Shape<V>): Shape<V> {
    if items == [] then t
    else BuildRight(items[..|items| - 1], Branch(items[|items| - 1].n, t, items[|items| - 1].t))
  }

  ghost function FlatLeft<V>(items: seq<Item<V>>): seq<Node<V>> {
    if items == [] then []
    else FlatLeft(items[..|items| - 1]) + Inorder(items[|items| - 1].t) + [items[|items| - 1].n]
  }

  ghost function FlatRight<V>(items: seq<Item<V>>): seq<Node<V>> {
    if items == [] then []
    else [items[|items| - 1].n] + Inorder(items[|items| - 1].t) + FlatRight(items[..|items| - 1])
  }

  lemma {:induction false} BuildLeftRep<V>(d: Node<V>, items: seq<Item<V>>, t: Shape<V>)
    requires LeftChain(d, items) && Rep(Last(d, items).right, t)
    ensures Rep(d.right, BuildLeft(items, t))
  {
    if items != [] {
      var rest, x := items[..|items| - 1], items[|items| - 1];
      BuildLeftRep(d, rest, Branch(x.n, x.t, t));
    }
  }

  lemma {:induction false} BuildRightRep<V>(d: Node<V>, items: seq<Item<V>>, t: Shape<V>)
    requires RightChain(d, items) && Rep(Last(d, items).left, t)
    ensures Rep(d.left, BuildRight(items, t))
  {
    if items != [] {
      var rest, x := items[..|items| - 1], items[|items| - 1];
      BuildRightRep(d, rest, Branch(x.n, t, x.t));
    }
  }

  lemma {:induction false} BuildLeftIs<V>(items: seq<Item<V>>, t: Shape<V>)
    requires ProperItems(items) && Proper(t) && Nodes(t) !! ItemNodes(items)
    ensures Proper(BuildLeft(items, t)) && Nodes(BuildLeft(items, t)) == ItemNodes(items) + Nodes(t)
  {
    if items != [] {
      BuildLeftIs(items[..|items| - 1], Branch(items[|items| - 1].n, items[|items| - 1].t, t));
    }
  }

  lemma {:induction false} BuildRightIs<V>(items: seq<Item<V>>, t: Shape<V>)
    requires ProperItems(items) && Proper(t) && Nodes(t) !! ItemNodes(items)
    ensures Proper(BuildRight(items, t)) && Nodes(BuildRight(items, t)) == ItemNodes(items) + Nodes(t)
  {
    if items != [] {
      BuildRightIs(items[..|items| - 1], Branch(items[|items| - 1].n, t, items[|items| - 1].t));
    }
  }

  lemma {:induction false} BuildLeftInorder<V>(items: seq<Item<V>>, t: Shape<V>)
    ensures Inorder(BuildLeft(items, t)) == FlatLeft(items) + Inorder(t)
  {
    if items != [] {
      BuildLeftInorder(items[..|items| - 1], Branch(items[|items| - 1].n, items[|items| - 1].t, t));
    }
  }

  lemma {:induction false} BuildRightInorder<V>(items: seq<Item<V>>, t: Shape<V>)
    ensures Inorder(BuildRight(items, t)) == Inorder(t) + FlatRight(items)
  {
    if items != [] {
      BuildRightInorder(items[..|items| - 1], Branch(items[|items| - 1].n, t, items[|items| - 1].t));
    }
  }

  // ---------- Order ----------

  ghost predicate Before<V>(x: Node<V>, y: Node<V>) {
    x.start + x.size <= y.start
  }

  /** Spans are nonempty, disjoint and in order. */
  ghost predicate Ordered<V>(t: Shape<V>) {
    match t
    case Leaf => true
    case Branch(n, l, r) =>
      && n.size > 0 && Ordered(l) && Ordered(r)
      && (forall x :: x in Nodes(l) ==> Before(x, n))
      && (forall x :: x in Nodes(r) ==> Before(n, x))
  }

  ghost predicate Sorted<V>(s: seq<Node<V>>) {
    && (forall i :: 0 <= i < |s| ==> s[i].size > 0)
    && (forall i, j :: 0 <= i < j < |s| ==> Before(s[i], s[j]))
  }

  lemma {:induction false} InorderNodes<V>(t: Shape<V>, x: Node<V>)
    ensures x in Inorder(t) <==> x in Nodes(t)
  {
    match t
    case Leaf =>
    case Branch(n, l, r) => InorderNodes(l, x); InorderNodes(r, x);
  }

  /** A shape is ordered just when its in-order sequence is. */
  lemma {:induction false} OrderedIffSorted<V>(t: Shape<V>)
    ensures Ordered(t) <==> Sorted(Inorder(t))
  {
    hide Sorted, Before;
    if t == Leaf {
      assert Sorted(Inorder(t)) by { SortedEmpty<V>(); }
    } else {
      var a, n, b := Inorder(t.l), t.n, Inorder(t.r);
      OrderedIffSorted(t.l);
      OrderedIffSorted(t.r);
      if Ordered(t) {
        forall x | x in a ensures Before(x, n) { InorderNodes(t.l, x); }
        forall x | x in b ensures Before(n, x) { InorderNodes(t.r, x); }
        SortedJoin(a, n, b);
      } else if Sorted(Inorder(t)) {
        SortedParts(a, n, b);
        forall x | x in Nodes(t.l) ensures Before(x, n) { InorderNodes(t.l, x); }
        forall x | x in Nodes(t.r) ensures Before(n, x) { InorderNodes(t.r, x); }
      }
    }
  }

  lemma SortedEmpty<V>()
    ensures Sorted<V>([])
  {
  }

  lemma SortedParts<V>(a: seq<Node<V>>, n: Node<V>, b: seq<Node<V>>)
    requires Sorted(a + [n] + b)
    ensures n.size > 0 && Sorted(a) && Sorted(b) && (forall x :: x in a ==> Before(x, n)) && (forall x :: x in b ==> Before(n, x))
  {
    var s := a + [n] + b;
    assert s[|a|] == n;
    forall i | 0 <= i < |a| ensures s[i] == a[i] {}
    forall i | 0 <= i < |b| ensures s[|a| + 1 + i] == b[i] {}
    forall i, j | 0 <= i < j < |a| ensures Before(a[i], a[j]) { assert Before(s[i], s[j]); }
    forall i, j | 0 <= i < j < |b| ensures Before(b[i], b[j]) { assert Before(s[|a| + 1 + i], s[|a| + 1 + j]); }
    forall x | x in a ensures Before(x, n) {
      var i :| 0 <= i < |a| && a[i] == x;
      assert Before(s[i], s[|a|]);
    }
    forall x | x in b ensures Before(n, x) {
      var i :| 0 <= i < |b| && b[i] == x;
      assert Before(s[|a|], s[|a| + 1 + i]);
    }
  }

  lemma SortedJoin<V>(a: seq<Node<V>>, n: Node<V>, b: seq<Node<V>>)
    requires n.size > 0 && Sorted(a) && Sorted(b) && (forall x :: x in a ==> Before(x, n)) && (forall x :: x in b ==> Before(n, x))
    ensures Sorted(a + [n] + b)
  {
    var s := a + [n] + b;
    forall i, j | 0 <= i < j < |s| ensures Before(s[i], s[j]) {
      if i < |a| && j > |a| { assert s[i] == a[i] && s[j] == b[j - |a| - 1] && Before(a[i], n) && Before(n, b[j - |a| - 1]); }
    }
  }

  /** A shape splits at `key`: what is left of the root ends before it, what is right starts after it. */
  ghost predicate SplitAt<V>(t: Shape<V>, key: nat) {
    t.Branch? ==>
      && (forall x :: x in Nodes(t.l) ==> x.start + x.size <= key)
      && (forall x :: x in Nodes(t.r) ==> key < x.start)
  }

  // ---------- Splaying ----------

  /** The state of the loop.  `t` is the part still to be looked at, rooted at `current`. */
  ghost predicate Loop<V>(t0: Shape<V>, d: Node<V>, ls: seq<Item<V>>, rs: seq<Item<V>>, current: Node?<V>, t: Shape<V>)
    reads {d} + ItemNodes(ls) + ItemNodes(rs) + Nodes(t)
  {
    && t.Branch? && Rep(current, t) && LeftChain(d, ls) && RightChain(d, rs)
    && Apart(t0, d, ls, rs, t)
  }

  /** The pieces are disjoint, and together they are the tree. */
  ghost predicate Apart<V>(t0: Shape<V>, d: Node<V>, ls: seq<Item<V>>, rs: seq<Item<V>>, t: Shape<V>) {
    && Proper(t) && ProperItems(ls) && ProperItems(rs)
    && Nodes(t) !! ItemNodes(ls) && Nodes(t) !! ItemNodes(rs) && ItemNodes(ls) !! ItemNodes(rs)
    && d !in Nodes(t) && d !in ItemNodes(ls) && d !in ItemNodes(rs)
    && FlatLeft(ls) + Inorder(t) + FlatRight(rs) == Inorder(t0)
    && ItemNodes(ls) + Nodes(t) + ItemNodes(rs) == Nodes(t0)
  }

  /** In an ordered tree, what has been set aside lies on its side of `key`. */
  ghost predicate Aside<V>(key: nat, ls: seq<Item<V>>, rs: seq<Item<V>>, t: Shape<V>) {
    && Ordered(t)
    && (forall x :: x in ItemNodes(ls) ==> x.start + x.size <= key)
    && (forall x :: x in ItemNodes(rs) ==> key < x.start)
  }

  ghost function RotatedRight<V>(t: Shape<V>): Shape<V>
    requires t.Branch? && t.l.Branch?
  {
    Branch(t.l.n, t.l.l, Branch(t.n, t.l.r, t.r))
  }

  ghost function RotatedLeft<V>(t: Shape<V>): Shape<V>
    requires t.Branch? && t.r.Branch?
  {
    Branch(t.r.n, Branch(t.n, t.l, t.r.l), t.r.r)
  }

  lemma Reassociate<T>(a: seq<T>, x: T, b: seq<T>, y: T, c: seq<T>)
    ensures (a + [x] + b) + [y] + c == a + [x] + (b + [y] + c)
  {
  }

  lemma InorderIs<V>(n: Node<V>, l: Shape<V>, r: Shape<V>)
    ensures Inorder(Branch(n, l, r)) == Inorder(l) + [n] + Inorder(r)
  {
  }

  lemma RotatedInorder<V>(t: Shape<V>)
    requires t.Branch?
    ensures t.l.Branch? ==> Inorder(RotatedRight(t)) == Inorder(t)
    ensures t.r.Branch? ==> Inorder(RotatedLeft(t)) == Inorder(t)
  {
    hide Inorder;
    InorderIs(t.n, t.l, t.r);
    if t.l.Branch? {
      InorderIs(t.l.n, t.l.l, t.l.r);
      InorderIs(t.n, t.l.r, t.r);
      InorderIs(t.l.n, t.l.l, Branch(t.n, t.l.r, t.r));
      Reassociate(Inorder(t.l.l), t.l.n, Inorder(t.l.r), t.n, Inorder(t.r));
    }
    if t.r.Branch? {
      InorderIs(t.r.n, t.r.l, t.r.r);
      InorderIs(t.n, t.l, t.r.l);
      InorderIs(t.r.n, Branch(t.n, t.l, t.r.l), t.r.r);
      Reassociate(Inorder(t.l), t.n, Inorder(t.r.l), t.r.n, Inorder(t.r.r));
    }
  }

  lemma RotatedNodes<V>(t: Shape<V>)
    requires Proper(t) && t.Branch?
    ensures t.l.Branch? ==> Proper(RotatedRight(t)) && Nodes(RotatedRight(t)) == Nodes(t)
    ensures t.r.Branch? ==> Proper(RotatedLeft(t)) && Nodes(RotatedLeft(t)) == Nodes(t)
  {
  }

  lemma SameInorderOrdered<V>(t: Shape<V>, u: Shape<V>)
    requires Inorder(u) == Inorder(t) && Ordered(t)
    ensures Ordered(u)
  {
    hide Ordered, Sorted, Inorder;
    OrderedIffSorted(t);
    OrderedIffSorted(u);
  }

  lemma RotatedSame<V>(t: Shape<V>)
    requires Proper(t) && t.Branch?
    ensures t.l.Branch? ==> var u := RotatedRight(t);
      Proper(u) && Nodes(u) == Nodes(t) && Inorder(u) == Inorder(t) && (Ordered(t) ==> Ordered(u))
    ensures t.r.Branch? ==> var u := RotatedLeft(t);
      Proper(u) && Nodes(u) == Nodes(t) && Inorder(u) == Inorder(t) && (Ordered(t) ==> Ordered(u))
  {
    hide Ordered, Inorder, Nodes, Proper, RotatedRight, RotatedLeft;
    RotatedNodes(t);
    RotatedInorder(t);
    if t.l.Branch? && Ordered(t) { SameInorderOrdered(t, RotatedRight(t)); }
    if t.r.Branch? && Ordered(t) { SameInorderOrdered(t, RotatedLeft(t)); }
  }

  lemma ItemsGrow<V>(items: seq<Item<V>>, x: Item<V>)
    ensures (items + [x])[..|items|] == items
    ensures ItemNodes(items + [x]) == ItemNodes(items) + {x.n} + Nodes(x.t)
    ensures FlatLeft(items + [x]) == FlatLeft(items) + Inorder(x.t) + [x.n]
    ensures FlatRight(items + [x]) == [x.n] + Inorder(x.t) + FlatRight(items)
  {
    assert (items + [x])[..|items|] == items;
  }

  lemma ProperItemsGrow<V>(items: seq<Item<V>>, x: Item<V>)
    requires ProperItems(items) && x.n !in Nodes(x.t) && Proper(x.t) && x.n !in ItemNodes(items) && Nodes(x.t) !! ItemNodes(items)
    ensures ProperItems(items + [x])
  {
    assert (items + [x])[..|items|] == items;
  }

  /** Setting `t`'s root aside on the left, with its left subtree. */
  lemma LinkLeftApart<V>(t0: Shape<V>, d: Node<V>, ls: seq<Item<V>>, rs: seq<Item<V>>, t: Shape<V>)
    requires Apart(t0, d, ls, rs, t) && t.Branch?
    ensures Apart(t0, d, ls + [Item(t.n, t.l)], rs, t.r)
  {
    hide ItemNodes, FlatLeft, FlatRight, ProperItems;
    ItemsGrow(ls, Item(t.n, t.l));
    ProperItemsGrow(ls, Item(t.n, t.l));
  }

  lemma LinkRightApart<V>(t0: Shape<V>, d: Node<V>, ls: seq<Item<V>>, rs: seq<Item<V>>, t: Shape<V>)
    requires Apart(t0, d, ls, rs, t) && t.Branch?
    ensures Apart(t0, d, ls, rs + [Item(t.n, t.r)], t.l)
  {
    hide ItemNodes, FlatLeft, FlatRight, ProperItems;
    ItemsGrow(rs, Item(t.n, t.r));
    ProperItemsGrow(rs, Item(t.n, t.r));
  }

  lemma LinkAside<V>(key: nat, ls: seq<Item<V>>, rs: seq<Item<V>>, t: Shape<V>)
    requires t.Branch?
    ensures Aside(key, ls, rs, t) && t.n.start + t.n.size <= key ==> Aside(key, ls + [Item(t.n, t.l)], rs, t.r)
    ensures Aside(key, ls, rs, t) && key < t.n.start ==> Aside(key, ls, rs + [Item(t.n, t.r)], t.l)
  {
    ItemsGrow(ls, Item(t.n, t.l));
    ItemsGrow(rs, Item(t.n, t.r));
  }

  lemma RotateApart<V>(t0: Shape<V>, d: Node<V>, ls: seq<Item<V>>, rs: seq<Item<V>>, t: Shape<V>, u: Shape<V>)
    requires Apart(t0, d, ls, rs, t) && Proper(u) && Nodes(u) == Nodes(t) && Inorder(u) == Inorder(t)
    ensures Apart(t0, d, ls, rs, u)
  {
  }

  class Tree<V> {
    var root: Node?<V>
    ghost var shape: Shape<V>
    ghost var nodes: set<Node<V>>

    ghost predicate Valid()
      reads this, nodes
    {
      nodes == Nodes(shape) && Rep(root, shape) && Proper(shape)
    }

    constructor ()
      ensures Valid() && shape == Leaf
    {
      root, shape, nodes := null, Leaf, {};
    }

    static method RotateRight(current: Node<V>, ghost t: Shape<V>) returns (tmp: Node<V>)
      requires Rep(current, t) && Proper(t) && t.Branch? && t.l.Branch?
      modifies current`left, t.l.n`right
      ensures Rep(tmp, RotatedRight(t)) && tmp == t.l.n
    {
      tmp := current.left;
      current.left := tmp.right;
      tmp.right := current;
    }

    static method RotateLeft(current: Node<V>, ghost t: Shape<V>) returns (tmp: Node<V>)
      requires Rep(current, t) && Proper(t) && t.Branch? && t.r.Branch?
      modifies current`right, t.r.n`left
      ensures Rep(tmp, RotatedLeft(t)) && tmp == t.r.n
    {
      tmp := current.right;
      current.right := tmp.left;
      tmp.left := current;
    }

    /** Hang `current` below the last node of the R tree. */
    static method LinkRight(ghost t0: Shape<V>, d: Node<V>, ghost ls: seq<Item<V>>, ghost rs: seq<Item<V>>, right: Node<V>,
                            current: Node<V>, ghost t: Shape<V>)
      requires Loop(t0, d, ls, rs, current, t) && right == Last(d, rs) && t.l.Branch?
      modifies right`left
      ensures Loop(t0, d, ls, rs + [Item(t.n, t.r)], current.left, t.l)
      ensures current == Last(d, rs + [Item(t.n, t.r)])
    {
      hide FlatLeft, FlatRight, Inorder;
      LinkRightApart(t0, d, ls, rs, t);
      ItemsGrow(rs, Item(t.n, t.r));
      assert Rep(current.left, t.l) && Rep(current.right, t.r);
      right.left := current;
      assert Rep(current.left, t.l) && Rep(current.right, t.r);
      assert LeftChain(d, ls);
      assert RightChain(d, rs);
      assert RightChain(d, rs + [Item(t.n, t.r)]);
    }

    /** Hang `current` below the last node of the L tree. */
    static method LinkLeft(ghost t0: Shape<V>, d: Node<V>, ghost ls: seq<Item<V>>, ghost rs: seq<Item<V>>, left: Node<V>,
                           current: Node<V>, ghost t: Shape<V>)
      requires Loop(t0, d, ls, rs, current, t) && left == Last(d, ls) && t.r.Branch?
      modifies left`right
      ensures Loop(t0, d, ls + [Item(t.n, t.l)], rs, current.right, t.r)
      ensures current == Last(d, ls + [Item(t.n, t.l)])
    {
      hide FlatLeft, FlatRight, Inorder;
      LinkLeftApart(t0, d, ls, rs, t);
      ItemsGrow(ls, Item(t.n, t.l));
      assert Rep(current.left, t.l) && Rep(current.right, t.r);
      left.right := current;
      assert Rep(current.left, t.l) && Rep(current.right, t.r);
      assert LeftChain(d, ls);
      assert RightChain(d, rs);
      assert LeftChain(d, ls + [Item(t.n, t.l)]);
    }

    /** Put the subtrees of `current` in the open places of the side trees. */
    static method CloseSides(ghost t0: Shape<V>, d: Node<V>, ghost ls: seq<Item<V>>, ghost rs: seq<Item<V>>, left: Node<V>,
                             right: Node<V>, current: Node<V>, ghost t: Shape<V>)
      requires Loop(t0, d, ls, rs, current, t) && left == Last(d, ls) && right == Last(d, rs)
      modifies left`right, right`left
      ensures LeftChain(d, ls) && Rep(Last(d, ls).right, t.l) && RightChain(d, rs) && Rep(Last(d, rs).left, t.r)
    {
      hide FlatLeft, FlatRight, Inorder;
      left.right := current.left;
      right.left := current.right;
    }

    /** The end of the algorithm: the side trees become the subtrees of `current`. */
    static method Assemble(ghost t0: Shape<V>, d: Node<V>, ghost ls: seq<Item<V>>, ghost rs: seq<Item<V>>, left: Node<V>, right: Node<V>,
                           current: Node<V>, ghost t: Shape<V>)
      returns (ghost u: Shape<V>)
      requires Loop(t0, d, ls, rs, current, t) && left == Last(d, ls) && right == Last(d, rs)
      modifies left`right, right`left, current`left, current`right
      ensures u == Assembled(ls, rs, t) && Rep(current, u)
    {
      hide FlatLeft, FlatRight, Inorder, LeftChain, RightChain;
      CurrentApart(t0, d, ls, rs, current, t);
      CloseSides(t0, d, ls, rs, left, right, current, t);
      BuildLeftRep(d, ls, t.l);
      BuildRightRep(d, rs, t.r);
      hide Rep, Loop, Last;
      HangSides(d, current, t.n, BuildLeft(ls, t.l), BuildRight(rs, t.r));
      u := Assembled(ls, rs, t);
    }

    static method HangSides(d: Node<V>, current: Node<V>, ghost n: Node<V>, ghost l: Shape<V>, ghost r: Shape<V>)
      requires Rep(d.right, l) && Rep(d.left, r) && current == n && current !in Nodes(l) && current !in Nodes(r) && d != current
      modifies current`left, current`right
      ensures Rep(current, Branch(n, l, r))
    {
      current.left := d.right;
      current.right := d.left;
    }

    static method RotateRightInLoop(ghost all: set<Node<V>>, ghost t0: Shape<V>, ghost d: Node<V>, ghost ls: seq<Item<V>>,
                                    ghost rs: seq<Item<V>>, current: Node<V>, ghost t: Shape<V>)
      returns (tmp: Node<V>)
      requires Loop(t0, d, ls, rs, current, t) && t.l.Branch? && all == Nodes(t0)
      modifies current`left, t.l.n`right
      ensures Loop(t0, d, ls, rs, tmp, RotatedRight(t))
    {
      hide Apart, FlatLeft, FlatRight, Ordered, ProperItems, Inorder;
      SidesOutside(t0, d, ls, rs, t);
      RotatedSame(t);
      RotateApart(t0, d, ls, rs, t, RotatedRight(t));
      tmp := RotateRight(current, t);
    }

    static method RotateLeftInLoop(ghost all: set<Node<V>>, ghost t0: Shape<V>, ghost d: Node<V>, ghost ls: seq<Item<V>>,
                                   ghost rs: seq<Item<V>>, current: Node<V>, ghost t: Shape<V>)
      returns (tmp: Node<V>)
      requires Loop(t0, d, ls, rs, current, t) && t.r.Branch? && all == Nodes(t0)
      modifies current`right, t.r.n`left
      ensures Loop(t0, d, ls, rs, tmp, RotatedLeft(t))
    {
      hide Apart, FlatLeft, FlatRight, Ordered, ProperItems, Inorder;
      SidesOutside(t0, d, ls, rs, t);
      RotatedSame(t);
      RotateApart(t0, d, ls, rs, t, RotatedLeft(t));
      tmp := RotateLeft(current, t);
    }

    /** The turn of the loop that goes left; `stop` if the path ends here. */
    static method GoLeft(ghost all: set<Node<V>>, ghost t0: Shape<V>, d: Node<V>, ghost ls: seq<Item<V>>, ghost rs0: seq<Item<V>>, ghost left: Node<V>,
                         right0: Node<V>, current0: Node<V>, ghost t1: Shape<V>, key: nat)
      returns (current: Node<V>, right: Node<V>, ghost rs: seq<Item<V>>, ghost t: Shape<V>, stop: bool)
      requires Loop(t0, d, ls, rs0, current0, t1) && left == Last(d, ls) && right0 == Last(d, rs0)
      requires Compare(key, current0) < 0 && all == Nodes(t0)
      modifies right0`left, Nodes(t1)`left, Nodes(t1)`right
      ensures Loop(t0, d, ls, rs, current, t) && left == Last(d, ls) && right == Last(d, rs)
      ensures Aside(key, ls, rs0, t1) ==> Aside(key, ls, rs, t)
      ensures if stop then StopAt(t, key) else Size(t) < Size(t1)
    {
      hide Apart, FlatLeft, FlatRight, Aside, Ordered, ProperItems, Inorder, LeftChain, RightChain, Proper, ItemNodes;
      current, right, rs, t, stop := current0, right0, rs0, t1, true;
      RootOf(t0, d, ls, rs, current, t);
      SidesOutside(t0, d, ls, rs, t);
      if current.left == null {
        return;
      }
      if Compare(key, current.left) < 0 {
        RotatedSame(t);
        RotateAside(key, ls, rs, t, RotatedRight(t));
        current := RotateRightInLoop(all, t0, d, ls, rs, current, t);
        t := RotatedRight(t);
        RootOf(t0, d, ls, rs, current, t);
        if current.left == null {
          return;
        }
      }
      LinkAside(key, ls, rs, t);
      LinkRight(t0, d, ls, rs, right, current, t);
      right := current;
      current := current.left;
      rs, t, stop := rs + [Item(t.n, t.r)], t.l, false;
    }

    /** The turn of the loop that goes right; `stop` if the path ends here. */
    static method GoRight(ghost all: set<Node<V>>, ghost t0: Shape<V>, d: Node<V>, ghost ls0: seq<Item<V>>, ghost rs: seq<Item<V>>, left0: Node<V>,
                          ghost right: Node<V>, current0: Node<V>, ghost t1: Shape<V>, key: nat)
      returns (current: Node<V>, left: Node<V>, ghost ls: seq<Item<V>>, ghost t: Shape<V>, stop: bool)
      requires Loop(t0, d, ls0, rs, current0, t1) && left0 == Last(d, ls0) && right == Last(d, rs)
      requires Compare(key, current0) > 0 && all == Nodes(t0)
      modifies left0`right, Nodes(t1)`left, Nodes(t1)`right
      ensures Loop(t0, d, ls, rs, current, t) && left == Last(d, ls) && right == Last(d, rs)
      ensures Aside(key, ls0, rs, t1) ==> Aside(key, ls, rs, t)
      ensures if stop then StopAt(t, key) else Size(t) < Size(t1)
    {
      hide Apart, FlatLeft, FlatRight, Aside, Ordered, ProperItems, Inorder, LeftChain, RightChain, Proper, ItemNodes;
      current, left, ls, t, stop := current0, left0, ls0, t1, true;
      RootOf(t0, d, ls, rs, current, t);
      SidesOutside(t0, d, ls, rs, t);
      if current.right == null {
        return;
      }
      if Compare(key, current.right) > 0 {
        RotatedSame(t);
        RotateAside(key, ls, rs, t, RotatedLeft(t));
        current := RotateLeftInLoop(all, t0, d, ls, rs, current, t);
        t := RotatedLeft(t);
        RootOf(t0, d, ls, rs, current, t);
        if current.right == null {
          return;
        }
      }
      LinkAside(key, ls, rs, t);
      LinkLeft(t0, d, ls, rs, left, current, t);
      left := current;
      current := current.right;
      ls, t, stop := ls + [Item(t.n, t.l)], t.r, false;
    }

    /** The loop: from the root to where the path to `key` ends. */
    static method Descend(ghost all: set<Node<V>>, ghost t0: Shape<V>, d: Node<V>, root: Node<V>, key: nat)
      returns (left: Node<V>, right: Node<V>, current: Node<V>, ghost ls: seq<Item<V>>, ghost rs: seq<Item<V>>, ghost t: Shape<V>)
      requires Loop(t0, d, [], [], root, t0) && all == Nodes(t0) && d !in all
      modifies d, all`left, all`right
      ensures Loop(t0, d, ls, rs, current, t) && left == Last(d, ls) && right == Last(d, rs) && StopAt(t, key)
      ensures Aside(key, [], [], t0) ==> Aside(key, ls, rs, t)
    {
      hide Apart, FlatLeft, FlatRight, Aside, Ordered, ProperItems, Inorder, LeftChain, RightChain;
      left, right, current, ls, rs, t := d, d, root, [], [], t0;
      var looking := true;
      while looking
        invariant Loop(t0, d, ls, rs, current, t) && left == Last(d, ls) && right == Last(d, rs)
        invariant Aside(key, [], [], t0) ==> Aside(key, ls, rs, t)
        invariant looking || StopAt(t, key)
        decreases looking, Size(t)
      {
        PiecesInTree(t0, d, ls, rs, t);
        RootOf(t0, d, ls, rs, current, t);
        var c := Compare(key, current);
        var stop := true;
        if c < 0 {
          current, right, rs, t, stop := GoLeft(all, t0, d, ls, rs, left, right, current, t, key);
        } else if c > 0 {
          current, left, ls, t, stop := GoRight(all, t0, d, ls, rs, left, right, current, t, key);
        }
        looking := !stop;
      }
    }

    /** SPLAY_SPLAY.  The nodes and their order stay the same.  If the spans are disjoint and in order, the
        new root is the node whose span holds `key`, if there is one, and the others lie to its
        left or to its right as they are before or after `key`. */
    method Splay(key: nat) returns (p: Node?<V>)
      requires Valid()
      modifies this, nodes`left, nodes`right
      ensures Valid() && p == root && (p == null <==> old(shape).Leaf?) && (p == null ==> shape == old(shape))
      ensures nodes == old(nodes) && Inorder(shape) == old(Inorder(shape))
      ensures Ordered(old(shape)) ==> Ordered(shape) && SplitAt(shape, key)
    {
      hide Apart, FlatLeft, FlatRight, Aside, Ordered, ProperItems, Inorder, SplitAt, LeftChain, RightChain, Assembled, StopAt, Loop, Proper, Nodes, Rep;
      if root == null {
        assert shape.Leaf? by { NullIsLeaf(shape); }
        assert SplitAt(shape, key) by { SplitLeaf(shape, key); }
        return null;
      }
      RootIs(root, shape);
      ghost var t0, all := shape, nodes;
      var dummy := new Node<V>(0, 0, root.value);
      StartApart(t0, dummy, key);
      StartLoop(t0, dummy, root);
      var left, right, current;
      ghost var ls, rs, t;
      left, right, current, ls, rs, t := Descend(all, t0, dummy, root, key);
      LoopApart(t0, dummy, ls, rs, current, t);
      PiecesInTree(t0, dummy, ls, rs, t);
      RootOf(t0, dummy, ls, rs, current, t);
      AssembledIs(t0, dummy, ls, rs, t, key);
      this.shape := Assemble(t0, dummy, ls, rs, left, right, current, t);
      root := current;
      return current;
    }

    /** SPLAY_LOOKUP: the node whose span holds the key, or none if there is none. */
    method Lookup(key: nat) returns (n: Node?<V>)
      requires Valid() && Ordered(shape)
      modifies this, nodes`left, nodes`right
      ensures Valid() && Ordered(shape) && nodes == old(nodes) && Inorder(shape) == old(Inorder(shape))
      ensures n != null ==> n in nodes && Covers(n, key)
      ensures n == null ==> forall x :: x in nodes ==> !Covers(x, key)
    {
      n := Splay(key);
      SplitFinds(shape, key);
      if n != null && Compare(key, n) != 0 {
        n := null;
      }
    }

    /** A new root above `r`, which keeps its right subtree and gives up its left one. */
    static method PutBefore(n: Node<V>, r: Node<V>, ghost u: Shape<V>)
      requires Rep(r, u) && u.Branch? && Proper(u) && n !in Nodes(u)
      modifies n`left, n`right, r`left
      ensures Rep(n, Branch(n, u.l, Branch(u.n, Leaf, u.r)))
    {
      ProperParts(u);
      n.right := r;
      n.left := r.left;
      r.left := null;
      assert Rep(n.left, u.l) && Rep(r.right, u.r);
    }

    static method PutAfter(n: Node<V>, r: Node<V>, ghost u: Shape<V>)
      requires Rep(r, u) && u.Branch? && Proper(u) && n !in Nodes(u)
      modifies n`left, n`right, r`right
      ensures Rep(n, Branch(n, Branch(u.n, u.l, Leaf), u.r))
    {
      ProperParts(u);
      n.left := r;
      n.right := r.right;
      r.right := null;
      assert Rep(n.right, u.r) && Rep(r.left, u.l);
    }

    /** SPLAY_INSERT.  The new span is disjoint from those present, or is one of them. */
    method Insert(start: nat, size: nat, value: V) returns (n: Node<V>)
      requires Valid() && Ordered(shape) && size > 0
      requires (forall x :: x in nodes ==> Disjoint(x, start, size)) || exists x :: x in nodes && x.start == start && x.size == size
      modifies this, nodes
      ensures Valid() && Ordered(shape) && n in nodes && n.start == start && n.size == size && n.value == value
      ensures n in old(nodes) ==> nodes == old(nodes) && Inorder(shape) == old(Inorder(shape))
      ensures n !in old(nodes) ==> nodes == old(nodes) + {n} && fresh(n) && OneMore(old(Inorder(shape)), Inorder(shape), n)
      ensures forall x :: x in old(nodes) && x != n ==> x.value == old(x.value)
    {
      hide Inorder, Ordered, SplitAt, Disjoint, Rep, Proper, OneMore, Before;
      if root == null {
        n := new Node<V>(start, size, value);
        Singleton(n, root, shape);
        root, shape, nodes := n, Branch(n, Leaf, Leaf), {n};
        return;
      }
      RootIs(root, shape);
      var r := Splay(start);
      ghost var u := shape;
      RootIs(r, u);
      InsertPlace(u, start, size);
      var c := Compare(start, r);
      if c == 0 {
        n := r;
        n.value := value;
      } else {
        n := new Node<V>(start, size, value);
        PutAbove(n, r, u, c < 0);
      }
    }

    /** A new node becomes the root, on one side of the old one. */
    method PutAbove(n: Node<V>, r: Node<V>, ghost u: Shape<V>, before: bool)
      requires u.Branch? && Rep(r, u) && Proper(u) && Ordered(u) && nodes == Nodes(u) && n !in nodes && n.size > 0
      requires forall x :: x in Nodes(u) ==> Disjoint(x, n.start, n.size)
      requires SplitAt(u, n.start) && if before then n.start + n.size <= u.n.start else u.n.start + u.n.size <= n.start
      modifies this, n`left, n`right, r`left, r`right
      ensures Valid() && Ordered(shape) && nodes == old(nodes) + {n} && OneMore(Inorder(u), Inorder(shape), n)
    {
      hide Inorder, Ordered, SplitAt, Disjoint, Rep, Proper, OneMore;
      if before {
        InsertedLeft(u, n);
        PutBefore(n, r, u);
        shape := Branch(n, u.l, Branch(u.n, Leaf, u.r));
      } else {
        InsertedRight(u, n);
        PutAfter(n, r, u);
        shape := Branch(n, Branch(u.n, u.l, Leaf), u.r);
      }
      root, nodes := n, old(nodes) + {n};
    }

    static method JoinRight(top: Node<V>, right: Node?<V>, ghost v: Shape<V>, ghost r: Shape<V>)
      requires Rep(top, v) && Rep(right, r) && v.Branch? && Proper(v) && Nodes(v) !! Nodes(r)
      modifies top`right
      ensures Rep(top, Branch(v.n, v.l, r))
    {
      ProperParts(v);
      top.right := right;
      assert Rep(top.left, v.l) && Rep(right, r);
    }

    /** SPLAY_REMOVE: removes one node, the one whose span holds the key if there is such a node. */
    method Remove(key: nat) returns (removed: Node<V>, value: V)
      requires Valid() && Ordered(shape) && root != null
      modifies this, nodes`left, nodes`right
      ensures Valid() && Ordered(shape)
      ensures removed in old(nodes) && nodes == old(nodes) - {removed} && value == removed.value
      ensures OneMore(Inorder(shape), old(Inorder(shape)), removed)
      ensures (exists x :: x in old(nodes) && Covers(x, key)) ==> Covers(removed, key)
    {
      hide Inorder, Ordered, SplitAt, Covers, Proper, Rep, OneMore;
      RootIs(root, shape);
      removed := Splay(key);
      value := removed.value;
      ghost var u := shape;
      RootIs(removed, u);
      SplitFinds(u, key);
      ProperParts(u);
      OrderedParts(u);
      if removed.left == null {
        RemovedLeft(u);
        root, shape, nodes := removed.right, u.r, Nodes(u.r);
      } else {
        RemoveRoot(removed, u, key);
      }
    }

    /** The root `r` goes; splaying its left subtree for the same key leaves room for the right one. */
    method RemoveRoot(r: Node<V>, ghost u: Shape<V>, key: nat)
      requires Rep(r, u) && Proper(u) && Ordered(u) && SplitAt(u, key) && u.Branch? && u.n == r && u.l != Leaf
      requires r.left != null && Rep(r.left, u.l) && Rep(r.right, u.r) && nodes == Nodes(u)
      modifies this, nodes`left, nodes`right
      ensures Valid() && Ordered(shape) && nodes == old(nodes) - {r} && OneMore(Inorder(shape), Inorder(u), r)
    {
      hide Inorder, Ordered, SplitAt, Covers, Proper, Rep, OneMore;
      ProperParts(u);
      OrderedParts(u);
      var right := r.right;
      root, shape, nodes := r.left, u.l, Nodes(u.l);
      var top := Splay(key);
      ghost var v := shape;
      RootIs(top, v);
      EmptyRight(u, v, key);
      RejoinedOk(u, v);
      JoinRight(top, right, v, u.r);
      root, shape, nodes := top, Branch(v.n, v.l, u.r), old(nodes) - {u.n};
    }
  }

  /** `s'` is `s` with `n` put in somewhere. */
  ghost predicate OneMore<V>(s: seq<Node<V>>, s': seq<Node<V>>, n: Node<V>) {
    exists i :: 0 <= i <= |s| && s' == s[..i] + [n] + s[i..]
  }

  lemma OneMoreIs<V>(s: seq<Node<V>>, s': seq<Node<V>>, a: seq<Node<V>>, n: Node<V>, b: seq<Node<V>>)
    requires s == a + b && s' == a + [n] + b
    ensures OneMore(s, s', n)
  {
    assert s[..|a|] == a && s[|a|..] == b;
  }

  lemma Singleton<V>(n: Node<V>, root: Node?<V>, shape: Shape<V>)
    requires root == null && Rep(root, shape) && n.size > 0 && n.left == null && n.right == null
    ensures var w := Branch(n, Leaf, Leaf);
      Rep(n, w) && Proper(w) && Ordered(w) && Nodes(w) == {n} && Nodes(shape) == {} && OneMore(Inorder(shape), Inorder(w), n)
  {
    OneMoreIs(Inorder(shape), Inorder(Branch(n, Leaf, Leaf)), [], n, []);
  }

  lemma RootIs<V>(r: Node<V>, u: Shape<V>)
    requires Rep(r, u)
    ensures u.Branch? && u.n == r && Rep(r.left, u.l) && Rep(r.right, u.r)
    ensures (r.left == null <==> u.l == Leaf) && (r.right == null <==> u.r == Leaf)
  {
    assert Rep(r.left, u.l) && Rep(r.right, u.r);
  }

  ghost predicate Disjoint<V>(x: Node<V>, start: nat, size: nat) {
    x.start + x.size <= start || start + size <= x.start
  }

  /** After splaying, the root is the only node that can hold the key. */
  lemma SplitFinds<V>(t: Shape<V>, key: nat)
    requires Ordered(t) && SplitAt(t, key)
    ensures forall x :: x in Nodes(t) && Covers(x, key) ==> t.Branch? && x == t.n
    ensures t.Branch? ==> (Compare(key, t.n) == 0 <==> Covers(t.n, key))
  {
  }

  /** After splaying for its start, a new span goes between the root and one of its subtrees. */
  lemma InsertPlace<V>(t: Shape<V>, start: nat, size: nat)
    requires Ordered(t) && SplitAt(t, start) && t.Branch? && size > 0
    requires (forall x :: x in Nodes(t) ==> Disjoint(x, start, size)) || exists x :: x in Nodes(t) && x.start == start && x.size == size
    ensures Compare(start, t.n) == 0 ==> t.n.start == start && t.n.size == size
    ensures Compare(start, t.n) != 0 ==> forall x :: x in Nodes(t) ==> Disjoint(x, start, size)
    ensures Compare(start, t.n) < 0 ==> start + size <= t.n.start
    ensures Compare(start, t.n) > 0 ==> t.n.start + t.n.size <= start
  {
    SplitFinds(t, start);
    if exists x :: x in Nodes(t) && x.start == start && x.size == size {
      var x :| x in Nodes(t) && x.start == start && x.size == size;
      assert Covers(x, start);
    } else {
      assert Disjoint(t.n, start, size);
    }
  }

  /** The second splay of a removal brings up a root without a right child. */
  lemma EmptyRight<V>(u: Shape<V>, v: Shape<V>, key: nat)
    requires u.Branch? && v.Branch? && SplitAt(u, key) && Nodes(v) == Nodes(u.l) && SplitAt(v, key) && Ordered(v)
    ensures v.r == Leaf
  {
  }

  lemma RejoinedOk<V>(u: Shape<V>, v: Shape<V>)
    requires u.Branch? && v.Branch? && v.r == Leaf && Nodes(v) == Nodes(u.l) && Ordered(u) && Ordered(v) && Proper(u) && Proper(v)
    requires Inorder(v) == Inorder(u.l)
    ensures var w := Branch(v.n, v.l, u.r);
      Proper(w) && Ordered(w) && Nodes(w) == Nodes(u) - {u.n} && OneMore(Inorder(w), Inorder(u), u.n)
  {
    hide OneMore, Ordered, Proper, Nodes, Before;
    RejoinedShape(u, v);
    var w := Branch(v.n, v.l, u.r);
    assert Inorder(v) == Inorder(v.l) + [v.n];
    assert Inorder(w) == Inorder(v) + Inorder(u.r);
    OneMoreIs(Inorder(w), Inorder(u), Inorder(u.l), u.n, Inorder(u.r));
  }

  lemma RejoinedShape<V>(u: Shape<V>, v: Shape<V>)
    requires u.Branch? && v.Branch? && v.r == Leaf && Nodes(v) == Nodes(u.l) && Ordered(u) && Ordered(v) && Proper(u) && Proper(v)
    ensures var w := Branch(v.n, v.l, u.r); Proper(w) && Ordered(w) && Nodes(w) == Nodes(u) - {u.n}
  {
    SizesPositive(u);
    forall x | x in Nodes(u.r) ensures Before(v.n, x) {
      assert v.n in Nodes(u.l) && Before(v.n, u.n) && Before(u.n, x);
    }
  }

  lemma RemovedLeft<V>(u: Shape<V>)
    requires u.Branch? && u.l == Leaf
    ensures OneMore(Inorder(u.r), Inorder(u), u.n) && Nodes(u.l) == {}
  {
    assert Inorder(u.l) == [];
    OneMoreIs(Inorder(u.r), Inorder(u), [], u.n, Inorder(u.r));
  }

  lemma ProperParts<V>(u: Shape<V>)
    requires Proper(u) && u.Branch?
    ensures Proper(u.l) && Proper(u.r) && u.n !in Nodes(u.l) && u.n !in Nodes(u.r) && Nodes(u.l) !! Nodes(u.r)
    ensures Nodes(u) == {u.n} + Nodes(u.l) + Nodes(u.r)
  {
  }

  lemma OrderedParts<V>(u: Shape<V>)
    requires Ordered(u) && u.Branch?
    ensures Ordered(u.l) && Ordered(u.r)
  {
  }

  /** A node whose span ends before the root and starts after everything to its left. */
  lemma InsertedLeft<V>(u: Shape<V>, n: Node<V>)
    requires u.Branch? && Proper(u) && Ordered(u) && n !in Nodes(u) && n.size > 0
    requires n.start + n.size <= u.n.start && SplitAt(u, n.start)
    ensures var w := Branch(n, u.l, Branch(u.n, Leaf, u.r));
      Proper(w) && Ordered(w) && Nodes(w) == Nodes(u) + {n} && OneMore(Inorder(u), Inorder(w), n)
  {
    hide OneMore, Ordered, Proper, Nodes, Before, SplitAt;
    InsertedLeftShape(u, n);
    var b := Branch(u.n, Leaf, u.r);
    assert Inorder(b) == [u.n] + Inorder(u.r);
    assert Inorder(u) == Inorder(u.l) + Inorder(b);
    OneMoreIs(Inorder(u), Inorder(Branch(n, u.l, b)), Inorder(u.l), n, Inorder(b));
  }

  lemma InsertedLeftShape<V>(u: Shape<V>, n: Node<V>)
    requires u.Branch? && Proper(u) && Ordered(u) && n !in Nodes(u) && n.size > 0
    requires n.start + n.size <= u.n.start && SplitAt(u, n.start)
    ensures var w := Branch(n, u.l, Branch(u.n, Leaf, u.r)); Proper(w) && Ordered(w) && Nodes(w) == Nodes(u) + {n}
  {
    SizesPositive(u);
    var b := Branch(u.n, Leaf, u.r);
    assert Nodes(b) == {u.n} + Nodes(u.r);
    forall x | x in Nodes(b) ensures Before(n, x) { if x != u.n { assert Before(u.n, x); } }
    assert Ordered(b) && Proper(b);
  }

  lemma InsertedRight<V>(u: Shape<V>, n: Node<V>)
    requires u.Branch? && Proper(u) && Ordered(u) && n !in Nodes(u) && n.size > 0
    requires u.n.start + u.n.size <= n.start && SplitAt(u, n.start) && forall x :: x in Nodes(u) ==> Disjoint(x, n.start, n.size)
    ensures var w := Branch(n, Branch(u.n, u.l, Leaf), u.r);
      Proper(w) && Ordered(w) && Nodes(w) == Nodes(u) + {n} && OneMore(Inorder(u), Inorder(w), n)
  {
    hide OneMore, Ordered, Proper, Nodes, Before, SplitAt, Disjoint;
    InsertedRightShape(u, n);
    var a := Branch(u.n, u.l, Leaf);
    assert Inorder(a) == Inorder(u.l) + [u.n];
    assert Inorder(u) == Inorder(a) + Inorder(u.r);
    OneMoreIs(Inorder(u), Inorder(Branch(n, a, u.r)), Inorder(a), n, Inorder(u.r));
  }

  lemma InsertedRightShape<V>(u: Shape<V>, n: Node<V>)
    requires u.Branch? && Proper(u) && Ordered(u) && n !in Nodes(u) && n.size > 0
    requires u.n.start + u.n.size <= n.start && SplitAt(u, n.start) && forall x :: x in Nodes(u) ==> Disjoint(x, n.start, n.size)
    ensures var w := Branch(n, Branch(u.n, u.l, Leaf), u.r); Proper(w) && Ordered(w) && Nodes(w) == Nodes(u) + {n}
  {
    SizesPositive(u);
    var a := Branch(u.n, u.l, Leaf);
    assert Nodes(a) == Nodes(u.l) + {u.n};
    forall x | x in Nodes(a) ensures Before(x, n) { if x != u.n { assert Before(x, u.n); } }
    forall x | x in Nodes(u.r) ensures Before(n, x) { assert Disjoint(x, n.start, n.size); }
    assert Ordered(a) && Proper(a);
  }

  lemma SizesPositive<V>(u: Shape<V>)
    requires Ordered(u) && u.Branch?
    ensures u.n.size > 0
  {
  }

  lemma RootOf<V>(t0: Shape<V>, d: Node<V>, ls: seq<Item<V>>, rs: seq<Item<V>>, current: Node<V>, t: Shape<V>)
    requires Loop(t0, d, ls, rs, current, t)
    ensures t.n == current && (t.l.Branch? <==> current.left != null) && (t.r.Branch? <==> current.right != null)
    ensures t.l.Branch? ==> t.l.n == current.left
    ensures t.r.Branch? ==> t.r.n == current.right
  {
    assert Rep(current.left, t.l) && Rep(current.right, t.r);
  }

  lemma StartApart<V>(t0: Shape<V>, d: Node<V>, key: nat)
    requires Proper(t0) && d !in Nodes(t0)
    ensures Apart(t0, d, [], [], t0) && (Ordered(t0) ==> Aside(key, [], [], t0))
  {
  }

  lemma SplitLeaf<V>(t: Shape<V>, key: nat)
    requires t.Leaf?
    ensures SplitAt(t, key)
  {
  }

  lemma NullIsLeaf<V>(t: Shape<V>)
    requires Rep(null, t)
    ensures t.Leaf?
  {
  }

  lemma LoopApart<V>(t0: Shape<V>, d: Node<V>, ls: seq<Item<V>>, rs: seq<Item<V>>, current: Node<V>, t: Shape<V>)
    requires Loop(t0, d, ls, rs, current, t)
    ensures Apart(t0, d, ls, rs, t) && t.Branch?
  {
  }

  lemma StartLoop<V>(t0: Shape<V>, d: Node<V>, current: Node<V>)
    requires Apart(t0, d, [], [], t0) && Rep(current, t0)
    ensures Loop(t0, d, [], [], current, t0) && Last(d, []) == d
  {
  }

  /** Everything the loop touches is in the tree, the dummy node apart. */
  lemma PiecesInTree<V>(t0: Shape<V>, d: Node<V>, ls: seq<Item<V>>, rs: seq<Item<V>>, t: Shape<V>)
    requires Apart(t0, d, ls, rs, t) && t.Branch?
    ensures t.n in Nodes(t0) && (t.l.Branch? ==> t.l.n in Nodes(t0)) && (t.r.Branch? ==> t.r.n in Nodes(t0)) && d !in Nodes(t0)
    ensures Nodes(t) <= Nodes(t0)
    ensures (ls != [] ==> Last(d, ls) in Nodes(t0)) && (rs != [] ==> Last(d, rs) in Nodes(t0)) && Proper(t)
  {
  }

  lemma RotateAside<V>(key: nat, ls: seq<Item<V>>, rs: seq<Item<V>>, t: Shape<V>, u: Shape<V>)
    requires Ordered(t) ==> Ordered(u)
    ensures Aside(key, ls, rs, t) ==> Aside(key, ls, rs, u)
  {
  }

  ghost function Size<V>(t: Shape<V>): nat {
    match t
    case Leaf => 0
    case Branch(_, l, r) => Size(l) + 1 + Size(r)
  }

  /** The side trees and the rest have no node in common. */
  lemma SidesOutside<V>(t0: Shape<V>, d: Node<V>, ls: seq<Item<V>>, rs: seq<Item<V>>, t: Shape<V>)
    requires Apart(t0, d, ls, rs, t)
    ensures Nodes(t) !! ItemNodes(ls) && Nodes(t) !! ItemNodes(rs) && d !in Nodes(t) && Proper(t)
    ensures Nodes(t) <= Nodes(t0) && ItemNodes(ls) <= Nodes(t0) && ItemNodes(rs) <= Nodes(t0)
    ensures t.Branch? ==> t.n in Nodes(t) && t.n !in ItemNodes(ls) && t.n !in ItemNodes(rs) && t.n != d
    ensures t.Branch? && t.l.Branch? ==> t.l.n in Nodes(t) && t.l.n !in ItemNodes(ls) && t.l.n !in ItemNodes(rs) && t.l.n != d
    ensures t.Branch? && t.r.Branch? ==> t.r.n in Nodes(t) && t.r.n !in ItemNodes(ls) && t.r.n !in ItemNodes(rs) && t.r.n != d
  {
    if t.Branch? && t.l.Branch? { assert t.l.n in Nodes(t.l); }
    if t.Branch? && t.r.Branch? { assert t.r.n in Nodes(t.r); }
  }

  /** The loop stops at the key's node, or where the path to the key ends. */
  ghost predicate StopAt<V>(t: Shape<V>, key: nat) {
    t.Branch? && (Compare(key, t.n) < 0 ==> t.l == Leaf) && (Compare(key, t.n) > 0 ==> t.r == Leaf)
  }

  lemma AssembledNodes<V>(t0: Shape<V>, d: Node<V>, ls: seq<Item<V>>, rs: seq<Item<V>>, t: Shape<V>)
    requires Apart(t0, d, ls, rs, t) && t.Branch?
    ensures var u := Assembled(ls, rs, t); Proper(u) && Nodes(u) == Nodes(t0)
  {
    hide FlatLeft, FlatRight, Inorder, ItemNodes, ProperItems, BuildLeft, BuildRight;
    BuildLeftIs(ls, t.l);
    BuildRightIs(rs, t.r);
  }

  lemma AssembledInorder<V>(t0: Shape<V>, d: Node<V>, ls: seq<Item<V>>, rs: seq<Item<V>>, t: Shape<V>)
    requires FlatLeft(ls) + Inorder(t) + FlatRight(rs) == Inorder(t0) && t.Branch?
    ensures Inorder(Assembled(ls, rs, t)) == Inorder(t0)
  {
    hide FlatLeft, FlatRight, BuildLeft, BuildRight;
    BuildLeftInorder(ls, t.l);
    BuildRightInorder(rs, t.r);
  }

  lemma ApartInorder<V>(t0: Shape<V>, d: Node<V>, ls: seq<Item<V>>, rs: seq<Item<V>>, t: Shape<V>)
    requires Apart(t0, d, ls, rs, t)
    ensures FlatLeft(ls) + Inorder(t) + FlatRight(rs) == Inorder(t0)
  {
  }

  lemma AssembledSplit<V>(t0: Shape<V>, d: Node<V>, ls: seq<Item<V>>, rs: seq<Item<V>>, t: Shape<V>, key: nat)
    requires Apart(t0, d, ls, rs, t) && Aside(key, ls, rs, t) && StopAt(t, key)
    ensures SplitAt(Assembled(ls, rs, t), key)
  {
    hide FlatLeft, FlatRight, Inorder, ItemNodes, ProperItems, BuildLeft, BuildRight;
    BuildLeftIs(ls, t.l);
    BuildRightIs(rs, t.r);
  }

  lemma AssembledIs<V>(t0: Shape<V>, d: Node<V>, ls: seq<Item<V>>, rs: seq<Item<V>>, t: Shape<V>, key: nat)
    requires Apart(t0, d, ls, rs, t) && StopAt(t, key)
    ensures var u := Assembled(ls, rs, t);
      && Proper(u) && Nodes(u) == Nodes(t0) && Inorder(u) == Inorder(t0)
      && (Ordered(t0) ==> Ordered(u)) && (Aside(key, ls, rs, t) ==> SplitAt(u, key))
  {
    hide Apart, Aside, Ordered, Inorder, SplitAt, Proper;
    AssembledNodes(t0, d, ls, rs, t);
    assert FlatLeft(ls) + Inorder(t) + FlatRight(rs) == Inorder(t0) by { ApartInorder(t0, d, ls, rs, t); }
    AssembledInorder(t0, d, ls, rs, t);
    OrderedIffSorted(t0);
    OrderedIffSorted(Assembled(ls, rs, t));
    if Aside(key, ls, rs, t) { AssembledSplit(t0, d, ls, rs, t, key); }
  }

  lemma CurrentApart<V>(t0: Shape<V>, d: Node<V>, ls: seq<Item<V>>, rs: seq<Item<V>>, current: Node<V>, t: Shape<V>)
    requires Loop(t0, d, ls, rs, current, t)
    ensures current == t.n && d != current
    ensures current !in Nodes(BuildLeft(ls, t.l)) && current !in Nodes(BuildRight(rs, t.r))
  {
    BuildLeftIs(ls, t.l);
    BuildRightIs(rs, t.r);
  }

  ghost function Assembled<V>(ls: seq<Item<V>>, rs: seq<Item<V>>, t: Shape<V>): Shape<V>
    requires t.Branch?
  {
    Branch(t.n, BuildLeft(ls, t.l), BuildRight(rs, t.r))
  }
}
