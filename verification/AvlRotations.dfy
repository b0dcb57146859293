/**
  What the four rotations of lib/avl.bpf.h do to a subtree that is two levels too
  deep on one side.  The left and right versions are mirror images, so each lemma
  is stated for a side d: d is true when the deep child is the left one.
 */
module AvlRotations {
  import opened AvlShape
  import opened AvlHeap

  /** The node whose child on side d is a and whose other child is b. */
  function Mk(d: bool, a: Tree, id: nat, b: Tree): Tree {
    if d then Node(a, id, b) else Node(b, id, a)
  }

  function WithChild(n: AvlNode, d: bool, c: nat): AvlNode {
    if d then n.(left := c) else n.(right := c)
  }

  /** Subtree z hangs from x on side d and is two levels deeper than x's other
      subtree t1.  The balance stored in x is not looked at. */
  ghost predicate TooDeep(h: Heap, x: nat, z: Tree, t1: Tree, d: bool) {
    && 0 < x < |h| && z.Node?
    && h[x].left == (if d then Root(z) else Root(t1))
    && h[x].right == (if d then Root(t1) else Root(z))
    && Linked(h, z, x) && Linked(h, t1, x)
    && x !in Ids(z) && x !in Ids(t1) && Ids(z) !! Ids(t1)
    && Ht(z) == Ht(t1) + 2
  }

  function ChildId(n: AvlNode, d: bool): nat {
    if d then n.left else n.right
  }

  /** "if (node) node->parent_id = p" for the node named by id. */
  function Reparented(h: Heap, id: nat, p: nat): (h': Heap)
    ensures |h'| == |h|
  {
    if 0 < id < |h| then h[id := h[id].(parent := p)] else h
  }

  /** The array after __avl_rotate_right (d) or __avl_rotate_left (!d). */
  function SingleRotated(h: Heap, x: nat, z: nat, d: bool): (h': Heap)
    requires x < |h| && z < |h|
    ensures |h'| == |h|
  {
    var t23 := ChildId(h[z], !d);
    var level := h[z].balance == 0;
    var h1 := h[x := WithChild(h[x], d, t23)
      .(parent := z, balance := if !level then 0 else if d then -1 else 1)];
    var h2 := Reparented(h1, t23, x);
    h2[z := WithChild(h2[z], !d, x).(balance := if !level then 0 else if d then 1 else -1)]
  }

  lemma SingleEffect(h: Heap, x: nat, z: nat, d: bool)
    requires 0 < x < |h| && 0 < z < |h| && x != z
    requires var t23 := ChildId(h[z], !d); t23 < |h| && t23 != x && t23 != z
    ensures var t23 := ChildId(h[z], !d); var h' := SingleRotated(h, x, z, d);
      && h'[x] == WithChild(h[x], d, t23)
           .(parent := z, balance := if h[z].balance != 0 then 0 else if d then -1 else 1)
      && h'[z] == WithChild(h[z], !d, x)
           .(balance := if h[z].balance != 0 then 0 else if d then 1 else -1)
      && (t23 != 0 ==> h'[t23] == h[t23].(parent := x))
      && Rewired(h, h', {x, z, t23})
  {
  }

  /** A single rotation: z moves up over x, and z's inner subtree moves to x. */
  lemma {:induction false} SingleRotation(h: Heap, x: nat, z: nat, t1: Tree, t23: Tree, t4: Tree, d: bool)
    requires TooDeep(h, x, Mk(d, t4, z, t23), t1, d) && Ht(t23) <= Ht(t4)
    ensures z < |h| && Linked(SingleRotated(h, x, z, d), Mk(d, t4, z, Mk(d, t23, x, t1)), x)
    ensures Rewired(h, SingleRotated(h, x, z, d), {x, z, Root(t23)})
  {
    assert Linked(h, t23, z) && Linked(h, t4, z);
    SingleEffect(h, x, z, d);
    SingleJoined(h, SingleRotated(h, x, z, d), x, z, t1, t23, t4, d);
  }

  lemma {:induction false} SingleJoined(h: Heap, h': Heap, x: nat, z: nat, t1: Tree, t23: Tree, t4: Tree, d: bool)
    requires TooDeep(h, x, Mk(d, t4, z, t23), t1, d) && Ht(t23) <= Ht(t4)
    requires Rewired(h, h', {x, z, Root(t23)})
    requires t23.Node? && t23.id < |h| ==> h'[t23.id] == h[t23.id].(parent := x)
    requires z < |h| ==>
      && h'[x] == WithChild(h[x], d, Root(t23))
           .(parent := z, balance := if h[z].balance != 0 then 0 else if d then -1 else 1)
      && h'[z] == WithChild(h[z], !d, x)
           .(balance := if h[z].balance != 0 then 0 else if d then 1 else -1)
    ensures Linked(h', Mk(d, t4, z, Mk(d, t23, x, t1)), x)
  {
    assert Linked(h, t23, z) && Linked(h, t4, z);
    RewiredAgree(h, h', {x, z, Root(t23)}, Ids(t1));
    RewiredAgree(h, h', {x, z, Root(t23)}, Ids(t4));
    RewiredAgree(h, h', {x, z, Root(t23)}, Ids(t23) - {Root(t23)});
    LinkedFrame(h, h', t1, x);
    LinkedFrame(h, h', t4, z);
    LinkedReparent(h, h', t23, z, x);
    assert Linked(h', Mk(d, t23, x, t1), z);
  }

  /** The pieces a double rotation works on: all ids differ, all subtrees are
      linked, and the heights are those of the pictures in the source. */
  ghost predicate Pieces(h: Heap, x: nat, y: nat, z: nat, t1: Tree, tx: Tree, tz: Tree, t4: Tree, d: bool) {
    && 0 < x < |h| && 0 < y < |h| && 0 < z < |h| && x != y && y != z && x != z
    && {x, y, z} !! Ids(t1) && {x, y, z} !! Ids(tx) && {x, y, z} !! Ids(tz) && {x, y, z} !! Ids(t4)
    && Ids(t1) !! Ids(tx) && Ids(t1) !! Ids(tz) && Ids(t1) !! Ids(t4)
    && Ids(tx) !! Ids(tz) && Ids(tx) !! Ids(t4) && Ids(tz) !! Ids(t4)
    && Linked(h, t1, x) && Linked(h, tx, y) && Linked(h, tz, y) && Linked(h, t4, z)
    && Ht(t1) == Ht(t4)
    && Ht(tx) == Ht(t1) - (if d == (h[y].balance < 0) && h[y].balance != 0 then 1 else 0)
    && Ht(tz) == Ht(t1) - (if d == (h[y].balance > 0) && h[y].balance != 0 then 1 else 0)
  }

  lemma {:induction false} DoublePieces(h: Heap, x: nat, y: nat, z: nat,
      t1: Tree, tx: Tree, tz: Tree, t4: Tree, d: bool)
    requires TooDeep(h, x, Mk(d, t4, z, Mk(d, tz, y, tx)), t1, d) && Ht(t4) < Ht(Mk(d, tz, y, tx))
    ensures Pieces(h, x, y, z, t1, tx, tz, t4, d)
  {
    var ty := Mk(d, tz, y, tx);
    assert Linked(h, ty, z) && Linked(h, t4, z);
    assert Ids(ty) == Ids(tz) + {y} + Ids(tx);
    assert Ids(Mk(d, t4, z, ty)) == Ids(t4) + {z} + Ids(ty);
    DoubleHeights(h, x, y, z, t1, tx, tz, t4, d);
  }

  lemma {:induction false} DoubleHeights(h: Heap, x: nat, y: nat, z: nat,
      t1: Tree, tx: Tree, tz: Tree, t4: Tree, d: bool)
    requires TooDeep(h, x, Mk(d, t4, z, Mk(d, tz, y, tx)), t1, d) && Ht(t4) < Ht(Mk(d, tz, y, tx))
    ensures y < |h| && Ht(t1) == Ht(t4)
    ensures Ht(tx) == Ht(t1) - (if d == (h[y].balance < 0) && h[y].balance != 0 then 1 else 0)
    ensures Ht(tz) == Ht(t1) - (if d == (h[y].balance > 0) && h[y].balance != 0 then 1 else 0)
  {
    assert Linked(h, Mk(d, tz, y, tx), z);
  }

  /** The child ids of the three nodes that a double rotation moves. */
  lemma {:induction false} DoubleFields(h: Heap, x: nat, y: nat, z: nat,
      t1: Tree, tx: Tree, tz: Tree, t4: Tree, d: bool)
    requires TooDeep(h, x, Mk(d, t4, z, Mk(d, tz, y, tx)), t1, d)
    ensures x < |h| && y < |h| && z < |h|
    ensures h[x].left == (if d then z else Root(t1)) && h[x].right == (if d then Root(t1) else z)
    ensures h[z].left == (if d then Root(t4) else y) && h[z].right == (if d then y else Root(t4))
    ensures h[y].parent == z
    ensures h[y].left == (if d then Root(tz) else Root(tx)) && h[y].right == (if d then Root(tx) else Root(tz))
  {
    assert Linked(h, Mk(d, tz, y, tx), z);
  }

  lemma PiecesApart(h: Heap, x: nat, y: nat, z: nat, t1: Tree, tx: Tree, tz: Tree, t4: Tree, d: bool)
    requires Pieces(h, x, y, z, t1, tx, tz, t4, d)
    ensures var w := {x, y, z, Root(tx), Root(tz)} - {0};
      w <= {x, y, z} + Ids(tx) + Ids(tz) &&
      w !! Ids(t1) && w !! Ids(t4) && w !! Ids(tx) - {Root(tx)} && w !! Ids(tz) - {Root(tz)}
    ensures Root(tx) < |h| && Root(tz) < |h| && (Root(tx) != 0 ==> Root(tx) != Root(tz))
    ensures Root(tx) !in {x, y, z} && Root(tz) !in {x, y, z}
  {
    LinkedShape(h, t1, x);
    LinkedShape(h, t4, z);
    LinkedShape(h, tx, y);
    LinkedShape(h, tz, y);
    assert tx.Node? ==> Root(tx) in Ids(tx);
    assert tz.Node? ==> Root(tz) in Ids(tz);
  }

  /** The array after __avl_rotate_left_right (d) or __avl_rotate_right_left (!d). */
  function DoubleRotated(h: Heap, x: nat, y: nat, z: nat, d: bool): (h': Heap)
    requires x < |h| && y < |h| && z < |h|
    ensures |h'| == |h|
  {
    var tx, tz, b := ChildId(h[y], !d), ChildId(h[y], d), h[y].balance;
    var h1 := h[y := WithChild(WithChild(h[y], d, z), !d, x).(balance := 0)];
    var h2 := h1[x := WithChild(h1[x], d, tx).(parent := y, balance :=
      if d && b < 0 then 1 else if !d && b > 0 then -1 else 0)];
    var h3 := Reparented(h2, tx, x);
    var h4 := h3[z := WithChild(h3[z], !d, tz).(parent := y, balance :=
      if d && b > 0 then -1 else if !d && b < 0 then 1 else 0)];
    Reparented(h4, tz, z)
  }

  lemma DoubleEffect(h: Heap, x: nat, y: nat, z: nat, d: bool)
    requires 0 < x < |h| && 0 < y < |h| && 0 < z < |h| && x != y && y != z && x != z
    requires var tx, tz := ChildId(h[y], !d), ChildId(h[y], d);
      && tx < |h| && tz < |h| && (tx != 0 ==> tx != tz)
      && tx != x && tx != y && tx != z && tz != x && tz != y && tz != z
    ensures var tx, tz, b := ChildId(h[y], !d), ChildId(h[y], d), h[y].balance;
      var h' := DoubleRotated(h, x, y, z, d);
      && h'[x] == WithChild(h[x], d, tx).(parent := y, balance :=
           if d && b < 0 then 1 else if !d && b > 0 then -1 else 0)
      && h'[z] == WithChild(h[z], !d, tz).(parent := y, balance :=
           if d && b > 0 then -1 else if !d && b < 0 then 1 else 0)
      && h'[y] == WithChild(WithChild(h[y], d, z), !d, x).(balance := 0)
      && (tx != 0 ==> h'[tx] == h[tx].(parent := x))
      && (tz != 0 ==> h'[tz] == h[tz].(parent := z))
      && Rewired(h, h', {x, y, z, tx, tz} - {0})
  {
    DoubleRewired(h, x, y, z, d);
  }

  lemma PutRewired(h: Heap, h1: Heap, i: nat, n: AvlNode, w: set<nat>)
    requires Rewired(h, h1, w) && i < |h1| && i in w && SamePayload(h1[i], n)
    ensures Rewired(h, h1[i := n], w)
  {
  }

  lemma ReparentedRewired(h: Heap, h1: Heap, c: nat, p: nat, w: set<nat>)
    requires Rewired(h, h1, w) && c < |h1| && (c != 0 ==> c in w)
    ensures Rewired(h, Reparented(h1, c, p), w)
  {
  }

  lemma DoubleRewired(h: Heap, x: nat, y: nat, z: nat, d: bool)
    requires 0 < x < |h| && 0 < y < |h| && 0 < z < |h|
    requires ChildId(h[y], !d) < |h| && ChildId(h[y], d) < |h|
    ensures Rewired(h, DoubleRotated(h, x, y, z, d), {x, y, z, ChildId(h[y], !d), ChildId(h[y], d)} - {0})
  {
    var tx, tz, b := ChildId(h[y], !d), ChildId(h[y], d), h[y].balance;
    var w := {x, y, z, tx, tz} - {0};
    var ny := WithChild(WithChild(h[y], d, z), !d, x).(balance := 0);
    PutRewired(h, h, y, ny, w);
    var h1 := h[y := ny];
    var nx := WithChild(h1[x], d, tx).(parent := y, balance := if d && b < 0 then 1 else if !d && b > 0 then -1 else 0);
    PutRewired(h, h1, x, nx, w);
    ReparentedRewired(h, h1[x := nx], tx, x, w);
    var h3 := Reparented(h1[x := nx], tx, x);
    var nz := WithChild(h3[z], !d, tz).(parent := y, balance := if d && b > 0 then -1 else if !d && b < 0 then 1 else 0);
    PutRewired(h, h3, z, nz, w);
    ReparentedRewired(h, h3[z := nz], tz, z, w);
  }

  /** A double rotation: the inner grandchild y moves up over both z and x. */
  lemma {:induction false} DoubleRotation(h: Heap, x: nat, y: nat, z: nat,
      t1: Tree, tx: Tree, tz: Tree, t4: Tree, d: bool)
    requires TooDeep(h, x, Mk(d, t4, z, Mk(d, tz, y, tx)), t1, d) && Ht(t4) < Ht(Mk(d, tz, y, tx))
    ensures y < |h| && z < |h|
    ensures Linked(DoubleRotated(h, x, y, z, d), Mk(d, Mk(d, t4, z, tz), y, Mk(d, tx, x, t1)), z)
  {
    DoublePieces(h, x, y, z, t1, tx, tz, t4, d);
    DoubleFields(h, x, y, z, t1, tx, tz, t4, d);
    PiecesApart(h, x, y, z, t1, tx, tz, t4, d);
    DoubleEffect(h, x, y, z, d);
    var h', w := DoubleRotated(h, x, y, z, d), {x, y, z, Root(tx), Root(tz)} - {0};
    RewiredAgree(h, h', w, Ids(t1));
    RewiredAgree(h, h', w, Ids(t4));
    RewiredAgree(h, h', w, Ids(tx) - {Root(tx)});
    RewiredAgree(h, h', w, Ids(tz) - {Root(tz)});
    DoubleJoined(h, h', x, y, z, t1, tx, tz, t4, d);
  }

  lemma {:induction false} DoubleFrame(h: Heap, x: nat, y: nat, z: nat,
      t1: Tree, tx: Tree, tz: Tree, t4: Tree, d: bool)
    requires TooDeep(h, x, Mk(d, t4, z, Mk(d, tz, y, tx)), t1, d) && Ht(t4) < Ht(Mk(d, tz, y, tx))
    ensures y < |h| && z < |h| && DoubleRotated(h, x, y, z, d)[y].parent == z
    ensures y == ChildId(h[z], !d) && x != z && 0 < y && y != x && y != z
    ensures h[y].left < |h| && h[y].right < |h|
    ensures Rewired(h, DoubleRotated(h, x, y, z, d), {x, y, z} + Ids(tx) + Ids(tz))
  {
    DoublePieces(h, x, y, z, t1, tx, tz, t4, d);
    DoubleFields(h, x, y, z, t1, tx, tz, t4, d);
    PiecesApart(h, x, y, z, t1, tx, tz, t4, d);
    DoubleEffect(h, x, y, z, d);
    RewiredWiden(h, DoubleRotated(h, x, y, z, d), {x, y, z, Root(tx), Root(tz)} - {0}, {x, y, z} + Ids(tx) + Ids(tz));
  }

  lemma {:induction false} DoubleJoined(h: Heap, h': Heap, x: nat, y: nat, z: nat,
      t1: Tree, tx: Tree, tz: Tree, t4: Tree, d: bool)
    requires TooDeep(h, x, Mk(d, t4, z, Mk(d, tz, y, tx)), t1, d) && Ht(t4) < Ht(Mk(d, tz, y, tx))
    requires Agree(h, h', Ids(t1)) && Agree(h, h', Ids(t4))
    requires Agree(h, h', Ids(tx) - {Root(tx)}) && Agree(h, h', Ids(tz) - {Root(tz)})
    requires tx.Node? && tx.id < |h| ==> SameLinks(h'[tx.id], h[tx.id].(parent := x))
    requires tz.Node? && tz.id < |h| ==> SameLinks(h'[tz.id], h[tz.id].(parent := z))
    requires y < |h| && z < |h| ==>
      && SameLinks(h'[x], WithChild(h[x], d, Root(tx)).(parent := y, balance :=
           if d && h[y].balance < 0 then 1 else if !d && h[y].balance > 0 then -1 else 0))
      && SameLinks(h'[z], WithChild(h[z], !d, Root(tz)).(parent := y, balance :=
           if d && h[y].balance > 0 then -1 else if !d && h[y].balance < 0 then 1 else 0))
      && SameLinks(h'[y], WithChild(WithChild(h[y], d, z), !d, x).(balance := 0))
    ensures Linked(h', Mk(d, Mk(d, t4, z, tz), y, Mk(d, tx, x, t1)), z)
  {
    DoublePieces(h, x, y, z, t1, tx, tz, t4, d);
    DoubleFields(h, x, y, z, t1, tx, tz, t4, d);
    LinkedFrame(h, h', t1, x);
    LinkedFrame(h, h', t4, z);
    LinkedReparent(h, h', tx, y, x);
    LinkedReparent(h, h', tz, y, z);
    if d {
      Reassembled(h', z, y, x, t4, tz, tx, t1, z);
    } else {
      Reassembled(h', x, y, z, t1, tx, tz, t4, z);
    }
  }

  lemma {:induction false} Reassembled(h: Heap, l: nat, y: nat, r: nat,
      a: Tree, b: Tree, c: Tree, e: Tree, p: nat)
    requires 0 < l < |h| && 0 < y < |h| && 0 < r < |h| && l != y && y != r && l != r
    requires {l, y, r} !! Ids(a) && {l, y, r} !! Ids(b) && {l, y, r} !! Ids(c) && {l, y, r} !! Ids(e)
    requires Ids(a) !! Ids(b) && Ids(a) !! Ids(c) && Ids(a) !! Ids(e)
    requires Ids(b) !! Ids(c) && Ids(b) !! Ids(e) && Ids(c) !! Ids(e)
    requires Linked(h, a, l) && Linked(h, b, l) && Linked(h, c, r) && Linked(h, e, r)
    requires h[l].left == Root(a) && h[l].right == Root(b) && h[l].parent == y
    requires h[r].left == Root(c) && h[r].right == Root(e) && h[r].parent == y
    requires h[y].left == l && h[y].right == r && h[y].parent == p && h[y].balance == 0
    requires -1 <= h[l].balance == Ht(b) - Ht(a) <= 0 && 0 <= h[r].balance == Ht(e) - Ht(c) <= 1
    requires Ht(a) == Ht(e)
    ensures Linked(h, Node(Node(a, l, b), y, Node(c, r, e)), p)
  {
    NodeLinked(h, a, l, b, y);
    NodeLinked(h, c, r, e, y);
    NodesApart(Ids(a), l, Ids(b), y, Ids(c), r, Ids(e));
    assert Ids(Node(a, l, b)) == Ids(a) + {l} + Ids(b) && Ids(Node(c, r, e)) == Ids(c) + {r} + Ids(e);
    NodeLinked(h, Node(a, l, b), y, Node(c, r, e), p);
  }

  lemma NodesApart(a: set<nat>, l: nat, b: set<nat>, y: nat, c: set<nat>, r: nat, e: set<nat>)
    requires l != y && y != r && l != r
    requires {l, y, r} !! a && {l, y, r} !! b && {l, y, r} !! c && {l, y, r} !! e
    requires a !! c && a !! e && b !! c && b !! e
    ensures (a + {l} + b) !! (c + {r} + e) && y !in a + {l} + b && y !in c + {r} + e
  {
  }

  lemma {:induction false} NodeLinked(h: Heap, a: Tree, id: nat, b: Tree, p: nat)
    requires 0 < id < |h| && Linked(h, a, id) && Linked(h, b, id) && id !in Ids(a) && id !in Ids(b) && Ids(a) !! Ids(b)
    requires h[id].left == Root(a) && h[id].right == Root(b) && h[id].parent == p
    requires -1 <= h[id].balance == Ht(b) - Ht(a) <= 1
    ensures Linked(h, Node(a, id, b), p)
  {
  }

  // ---------------------------------------------------------------- choice of rotation

  /** One rotation is enough unless z is heavy on its inner side. */
  predicate Single(zBalance: int, d: bool) {
    if d then zBalance <= 0 else zBalance >= 0
  }

  /** The ids a rotation at x dereferences are in range. */
  predicate Rotatable(h: Heap, x: nat, z: nat, d: bool) {
    && x < |h| && z < |h| && x != z && ChildId(h[z], !d) < |h|
    && (!Single(h[z].balance, d) ==>
          var y := ChildId(h[z], !d);
          0 < y && y != x && y != z && h[y].left < |h| && h[y].right < |h|)
  }

  function Rotated(h: Heap, x: nat, z: nat, d: bool): (h': Heap)
    requires Rotatable(h, x, z, d)
    ensures |h'| == |h|
  {
    if Single(h[z].balance, d) then SingleRotated(h, x, z, d)
    else DoubleRotated(h, x, ChildId(h[z], !d), z, d)
  }

  /** The subtree that results from rotating x, whose child on side d is zt. */
  ghost function RotatedTree(x: nat, zt: Tree, t1: Tree, d: bool): Tree
    requires zt.Node?
  {
    var outer, inner := Child(zt, d), Child(zt, !d);
    if Ht(inner) <= Ht(outer) || inner.Leaf? then
      Mk(d, outer, zt.id, Mk(d, inner, x, t1))
    else
      Mk(d, Mk(d, outer, zt.id, Child(inner, d)), inner.id, Mk(d, Child(inner, !d), x, t1))
  }

  /** Rotations never change the horizontal order. */
  lemma {:induction false} RotatedOrder(x: nat, zt: Tree, t1: Tree, d: bool)
    requires zt.Node?
    ensures InOrder(RotatedTree(x, zt, t1, d)) == InOrder(Mk(d, zt, x, t1))
  {
    var outer, inner := Child(zt, d), Child(zt, !d);
    var o, m, t := InOrder(outer), InOrder(inner), InOrder(t1);
    if Ht(inner) <= Ht(outer) || inner.Leaf? {
      SingleShuffle(o, zt.id, m, x, t);
      SingleShuffle(t, x, m, zt.id, o);
    } else {
      DoubleShuffle(o, zt.id, InOrder(inner.left), inner.id, InOrder(inner.right), x, t);
      DoubleShuffle(t, x, InOrder(inner.left), inner.id, InOrder(inner.right), zt.id, o);
    }
  }

  lemma SingleShuffle(o: seq<nat>, z: nat, m: seq<nat>, x: nat, t: seq<nat>)
    ensures (o + [z] + m) + [x] + t == o + [z] + (m + [x] + t)
  {
  }

  lemma DoubleShuffle(o: seq<nat>, z: nat, a: seq<nat>, y: nat, b: seq<nat>, x: nat, t: seq<nat>)
    ensures (o + [z] + (a + [y] + b)) + [x] + t == (o + [z] + a) + [y] + (b + [x] + t)
    ensures o + [z] + ((a + [y] + b) + [x] + t) == (o + [z] + a) + [y] + (b + [x] + t)
  {
  }

  lemma {:induction false} RotatedIds(x: nat, zt: Tree, t1: Tree, d: bool)
    requires zt.Node?
    ensures Ids(RotatedTree(x, zt, t1, d)) == Ids(zt) + {x} + Ids(t1)
  {
    var outer, inner := Child(zt, d), Child(zt, !d);
    assert Ids(zt) == Ids(outer) + {zt.id} + Ids(inner);
    if inner.Node? {
      assert Ids(inner) == Ids(Child(inner, d)) + {inner.id} + Ids(Child(inner, !d));
    }
  }

  /** A rotation absorbs the extra level unless z was level. */
  lemma {:induction false} RotatedHeight(h: Heap, x: nat, zt: Tree, t1: Tree, d: bool)
    requires TooDeep(h, x, zt, t1, d)
    ensures Ht(RotatedTree(x, zt, t1, d)) == Ht(zt) + (if h[zt.id].balance == 0 then 1 else 0)
    ensures Single(h[zt.id].balance, d) <==> Ht(Child(zt, !d)) <= Ht(Child(zt, d))
  {
    var outer, inner := Child(zt, d), Child(zt, !d);
    assert Linked(h, inner, zt.id) && Linked(h, outer, zt.id);
  }

  ghost predicate RotationResult(h: Heap, x: nat, zt: Tree, t1: Tree, d: bool)
    requires zt.Node?
  {
    && Rotatable(h, x, zt.id, d)
    && var (h', t') := (Rotated(h, x, zt.id, d), RotatedTree(x, zt, t1, d));
      && Root(t') == (if Single(h[zt.id].balance, d) then zt.id else ChildId(h[zt.id], !d))
      && Root(t') < |h'| && Linked(h', t', h'[Root(t')].parent) && Rewired(h, h', Ids(zt) + {x})
  }

  /** Whichever rotation is chosen, the result is a linked, balanced subtree with
      the same nodes. */
  lemma {:induction false} Rotation(h: Heap, x: nat, zt: Tree, t1: Tree, d: bool)
    requires TooDeep(h, x, zt, t1, d)
    ensures RotationResult(h, x, zt, t1, d)
  {
    RotatedHeight(h, x, zt, t1, d);
    if Single(h[zt.id].balance, d) {
      RotationBySingle(h, x, zt, t1, d);
    } else {
      RotationByDouble(h, x, zt, t1, d);
    }
  }

  lemma {:induction false} RotationBySingle(h: Heap, x: nat, zt: Tree, t1: Tree, d: bool)
    requires TooDeep(h, x, zt, t1, d)
    requires Single(h[zt.id].balance, d) && Ht(Child(zt, !d)) <= Ht(Child(zt, d))
    ensures RotationResult(h, x, zt, t1, d)
  {
    assert Linked(h, Child(zt, !d), zt.id);
    SingleRotation(h, x, zt.id, t1, Child(zt, !d), Child(zt, d), d);
  }

  lemma {:induction false} RotationByDouble(h: Heap, x: nat, zt: Tree, t1: Tree, d: bool)
    requires TooDeep(h, x, zt, t1, d)
    requires !Single(h[zt.id].balance, d) && Ht(Child(zt, !d)) > Ht(Child(zt, d))
    ensures RotationResult(h, x, zt, t1, d)
  {
    var inner := Child(zt, !d);
    var tx, tz := Child(inner, !d), Child(inner, d);
    assert zt == Mk(d, Child(zt, d), zt.id, Mk(d, tz, inner.id, tx));
    DoubleRotation(h, x, inner.id, zt.id, t1, tx, tz, Child(zt, d), d);
    DoubleFrame(h, x, inner.id, zt.id, t1, tx, tz, Child(zt, d), d);
    assert Ids(zt) == Ids(Child(zt, d)) + {zt.id} + (Ids(tz) + {inner.id} + Ids(tx));
  }

  // ---------------------------------------------------------------- reconnecting

  /** The child slot of p that held `was` now holds `now`; nothing if there is no p. */
  function Hooked(h: Heap, p: nat, was: nat, now: nat): (h': Heap)
    ensures |h'| == |h|
  {
    if !(0 < p < |h|) then h
    else if h[p].left == was then h[p := h[p].(left := now)]
    else h[p := h[p].(right := now)]
  }

  /** Hooking another root id into the hole of a path refills the path. */
  lemma {:induction false} HookedPath(h: Heap, q: Path, c: nat, c': nat, k: nat)
    requires PathLinked(h, q, 0, c, k) && c != 0 && c !in PathIds(q)
    ensures PathLinked(Hooked(h, Bottom(q, 0), c, c'), q, 0, c', k)
    ensures Rewired(h, Hooked(h, Bottom(q, 0), c, c'), {Bottom(q, 0)} * PathIds(q))
  {
    var h' := Hooked(h, Bottom(q, 0), c, c');
    if q.Step? {
      assert q.sib.Node? ==> q.sib.id in Ids(q.sib);
      assert Root(q.sib) != c;
    }
    PathRefill(h, h', q, 0, c, c', k);
  }

  function RotatedAt(h: Heap, x: nat, z: nat, d: bool): (h': Heap)
    requires Rotatable(h, x, z, d)
    ensures |h'| == |h|
  {
    var str := if Single(h[z].balance, d) then z else ChildId(h[z], !d);
    var h1 := Rotated(h, x, z, d);
    Hooked(h1[str := h1[str].(parent := h[x].parent)], h[x].parent, x, str)
  }

  /** Rotating x at the end of path up: the path then ends in the rotated subtree. */
  lemma {:induction false} RotationAt(h: Heap, up: Path, k: nat, x: nat, zt: Tree, t1: Tree, d: bool)
    requires TooDeep(h, x, zt, t1, d) && h[x].parent == Bottom(up, 0)
    requires PathLinked(h, up, 0, x, k) && (Ids(zt) + {x} + Ids(t1)) !! PathIds(up)
    ensures RotationResult(h, x, zt, t1, d)
    ensures var (h', t') := (RotatedAt(h, x, zt.id, d), RotatedTree(x, zt, t1, d));
      && Linked(h', t', Bottom(up, 0)) && PathLinked(h', up, 0, Root(t'), k)
      && Rewired(h, h', Ids(zt) + {x} + PathIds(up))
  {
    Rotation(h, x, zt, t1, d);
    RotationHooked(h, up, k, x, zt, t1, d);
  }

  lemma {:induction false} RotationHooked(h: Heap, up: Path, k: nat, x: nat, zt: Tree, t1: Tree, d: bool)
    requires zt.Node? && RotationResult(h, x, zt, t1, d) && 0 < x < |h| && h[x].parent == Bottom(up, 0)
    requires PathLinked(h, up, 0, x, k) && (Ids(zt) + {x} + Ids(t1)) !! PathIds(up)
    ensures var (h', t') := (RotatedAt(h, x, zt.id, d), RotatedTree(x, zt, t1, d));
      && Linked(h', t', Bottom(up, 0)) && PathLinked(h', up, 0, Root(t'), k)
      && Rewired(h, h', Ids(zt) + {x} + PathIds(up))
  {
    RotatedIds(x, zt, t1, d);
    HookedUp(h, Rotated(h, x, zt.id, d), RotatedAt(h, x, zt.id, d), up, k, x, RotatedTree(x, zt, t1, d), Ids(zt) + {x});
  }

  /** A subtree t' rebuilt from w, hooked below the end of path up in the place of x. */
  lemma {:induction false} HookedUp(h: Heap, h1: Heap, h': Heap, up: Path, k: nat, x: nat, t': Tree, w: set<nat>)
    requires PathLinked(h, up, 0, x, k) && 0 < x && x in Ids(t') && Ids(t') !! PathIds(up) && w <= Ids(t')
    requires t'.Node? && t'.id < |h1| && Linked(h1, t', h1[t'.id].parent) && Rewired(h, h1, w) && t'.id in w
    requires h' == Hooked(h1[t'.id := h1[t'.id].(parent := Bottom(up, 0))], Bottom(up, 0), x, t'.id)
    ensures Linked(h', t', Bottom(up, 0)) && PathLinked(h', up, 0, t'.id, k) && Rewired(h, h', w + PathIds(up))
  {
    RewiredWiden(h, h1, w, Ids(t'));
    Reconnected(h, h1, up, k, x, t');
    RewiredTwice(h, h1, h', w, {t'.id} + PathIds(up), w + PathIds(up));
  }

  lemma {:induction false} Reconnected(h: Heap, h1: Heap, up: Path, k: nat, x: nat, t': Tree)
    requires PathLinked(h, up, 0, x, k) && 0 < x && x in Ids(t') && Ids(t') !! PathIds(up)
    requires t'.Node? && t'.id < |h1| && Linked(h1, t', h1[t'.id].parent) && Rewired(h, h1, Ids(t'))
    ensures var h2 := h1[t'.id := h1[t'.id].(parent := Bottom(up, 0))];
      var h3 := Hooked(h2, Bottom(up, 0), x, t'.id);
      && Linked(h3, t', Bottom(up, 0)) && PathLinked(h3, up, 0, t'.id, k)
      && Rewired(h1, h3, {t'.id} + PathIds(up))
  {
    var h2 := h1[t'.id := h1[t'.id].(parent := Bottom(up, 0))];
    var h3 := Hooked(h2, Bottom(up, 0), x, t'.id);
    LinkedReparent(h1, h2, t', h1[t'.id].parent, Bottom(up, 0));
    PathFrame(h, h2, up, 0, x, k);
    HookedPath(h2, up, x, t'.id, k);
    LinkedFrame(h2, h3, t', Bottom(up, 0));
  }
}
