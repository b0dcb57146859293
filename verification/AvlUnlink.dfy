/**
  The array rewrites with which lib/avl.bpf.h attaches a new leaf and unlinks a
  node, up to the point where a retrace takes over.
 */
module AvlUnlink {
  import opened AvlShape
  import opened AvlHeap
  import opened AvlRotations
  import opened AvlRetrace

  // ---------------------------------------------------------------- attach

  /** The array after a cleared node is hung into the hole at the end of q. */
  ghost function Attached(h: Heap, q: Path, node: nat): (h': Heap)
    requires node < |h|
    ensures |h'| == |h|
  {
    var h1 := h[node := h[node].(left := 0, right := 0, balance := 0, parent := Bottom(q, 0))];
    if q.Top? || q.id >= |h| then h1
    else if q.left then h1[q.id := h1[q.id].(left := node)]
    else h1[q.id := h1[q.id].(right := node)]
  }

  lemma {:induction false} AttachLeaf(h: Heap, q: Path, node: nat)
    requires PathLinked(h, q, 0, 0, 0) && 0 < node < |h| && node !in PathIds(q)
    ensures Grown(Attached(h, q, node), q, Node(Leaf, node, Leaf))
    ensures Rewired(h, Attached(h, q, node), {node} + PathIds(q))
  {
    var h1 := h[node := h[node].(left := 0, right := 0, balance := 0, parent := Bottom(q, 0))];
    var h' := Attached(h, q, node);
    PathFrame(h, h1, q, 0, 0, 0);
    PathRefill(h1, h', q, 0, 0, node, 0);
  }

  // ---------------------------------------------------------------- replace

  /** The array after __avl_replace_node. */
  function Replaced(h: Heap, x: nat, w: nat): (h': Heap)
    requires x < |h|
    ensures |h'| == |h|
  {
    Reparented(Hooked(h, h[x].parent, x, w), w, h[x].parent)
  }

  lemma {:induction false} ReplacedPath(h: Heap, q: Path, base: nat, x: nat, k: nat, s: Tree, p: nat)
    requires PathLinked(h, q, base, x, k) && 0 < x < |h| && x !in PathIds(q) && h[x].parent == Bottom(q, base)
    requires q.Top? ==> base == 0
    requires Linked(h, s, p) && Ids(s) !! PathIds(q)
    ensures var h' := Replaced(h, x, Root(s));
      && PathLinked(h', q, base, Root(s), k) && Linked(h', s, Bottom(q, base))
      && Rewired(h, h', PathIds(q) + Ids(s))
  {
    var h1 := Hooked(h, Bottom(q, base), x, Root(s));
    var h' := Reparented(h1, Root(s), Bottom(q, base));
    assert q.Step? ==> (q.sib.Node? ==> q.sib.id in Ids(q.sib)) && Root(q.sib) != x;
    PathRefill(h, h1, q, base, x, Root(s), k);
    LinkedFrame(h, h1, s, p);
    assert s.Node? ==> s.id in Ids(s);
    PathFrame(h1, h', q, base, Root(s), k);
    LinkedReparent(h1, h', s, p, Bottom(q, base));
  }

  /** A node with a free child slot: its other subtree is pulled up into its place. */
  lemma {:induction false} UnlinkOne(h: Heap, q: Path, t: Tree)
    requires At(h, q, 0, t) && t.Node? && (t.left.Leaf? || t.right.Leaf?)
    ensures var s := if t.left.Leaf? then t.right else t.left; var h' := Replaced(h, t.id, Root(s));
      && Shrunk(h', q, s) && Rewired(h, h', PathIds(q) + Ids(s))
      && Order(q, s) == (Before(q) + InOrder(t.left)) + (InOrder(t.right) + After(q))
  {
    var s := if t.left.Leaf? then t.right else t.left;
    assert Ht(t) == Ht(s) + 1;
    ReplacedPath(h, q, 0, t.id, Ht(t), s, t.id);
  }

  // ---------------------------------------------------------------- two children

  /** node has two children; next is its successor: r, node's right subtree, is qq
      ending in next, which has no left child and right subtree rr. */
  ghost predicate TwoChildren(h: Heap, q: Path, l: Tree, node: nat, r: Tree, qq: Path, next: nat, rr: Tree) {
    && At(h, q, 0, Node(l, node, r)) && l.Node?
    && At(h, qq, node, Node(Leaf, next, rr)) && r == Plug(qq, Node(Leaf, next, rr))
    && Ids(r) == PathIds(qq) + {next} + Ids(rr) && Root(r) == Apex(qq, next) && Ht(r) == HtUp(qq, Ht(rr) + 1)
  }

  /** next has left its place in r and taken over node's balance and right child. */
  ghost predicate Lifted(h: Heap, h': Heap, node: nat, r: Tree, qq: Path, next: nat, rr: Tree) {
    && 0 < node < |h| && 0 < next < |h| && Rewired(h, h', Ids(r))
    && PathLinked(h', qq, next, Root(rr), Ht(rr) + 1) && Linked(h', rr, Bottom(qq, next))
    && h'[next].right == Apex(qq, Root(rr)) && h'[next].balance == h[node].balance
  }

  lemma {:induction false} NextRecord(h: Heap, node: nat, qq: Path, next: nat, rr: Tree)
    requires At(h, qq, node, Node(Leaf, next, rr)) && node !in PathIds(qq)
    ensures 0 < next < |h| && h[next].right == Root(rr) && Root(rr) < |h| && Root(rr) != next
    ensures h[next].parent == Bottom(qq, node) && (h[next].parent == node <==> qq.Top?)
    ensures qq.Step? ==> 0 < qq.id < |h|
    ensures next !in PathIds(qq)
  {
    assert Linked(h, rr, next);
    assert next in Ids(Node(Leaf, next, rr));
  }

  /** The "immediate child next" case: next already is node's right child. */
  lemma {:induction false} LiftImmediate(h: Heap, q: Path, l: Tree, node: nat, r: Tree, next: nat, rr: Tree)
    requires TwoChildren(h, q, l, node, r, Top, next, rr)
    ensures Lifted(h, h[next := h[next].(balance := h[node].balance)], node, r, Top, next, rr)
  {
    LinkedFrame(h, h[next := h[next].(balance := h[node].balance)], rr, next);
  }

  /** The array after the "deep next" case has cut next out of its place. */
  function Cut(h: Heap, node: nat, next: nat): (h': Heap)
    requires node < |h| && next < |h|
    ensures |h'| == |h|
  {
    var h1 := h[next := h[next].(balance := h[node].balance)];
    var h2 := Replaced(h1, next, h1[next].right);
    var h3 := h2[next := h2[next].(right := h2[node].right)];
    Reparented(h3, h3[node].right, next)
  }

  lemma {:induction false} LiftDeep(h: Heap, node: nat, r: Tree, qq: Path, next: nat, rr: Tree)
    requires 0 < next < |h| && 0 < node < |h| && node != next && node !in PathIds(qq) && node !in Ids(rr)
    requires At(h, qq, node, Node(Leaf, next, rr)) && qq.Step?
    requires next !in PathIds(qq) && next !in Ids(rr) && Ids(rr) !! PathIds(qq)
    requires h[node].right == Apex(qq, next) && Ids(r) == PathIds(qq) + {next} + Ids(rr)
    ensures Lifted(h, Cut(h, node, next), node, r, qq, next, rr)
  {
    ApexSame(qq, next, Root(rr));
    LiftCut(h, node, qq, next, rr);
    assert {next} + PathIds(qq) + Ids(rr) == Ids(r);
  }

  lemma {:induction false} LiftCut(h: Heap, node: nat, qq: Path, next: nat, rr: Tree)
    requires 0 < next < |h| && 0 < node < |h| && node != next && node !in PathIds(qq) && node !in Ids(rr)
    requires At(h, qq, node, Node(Leaf, next, rr)) && qq.Step?
    requires next !in PathIds(qq) && next !in Ids(rr) && Ids(rr) !! PathIds(qq)
    requires h[node].right == Apex(qq, Root(rr))
    ensures var h' := Cut(h, node, next);
      && PathLinked(h', qq, next, Root(rr), Ht(rr) + 1) && Linked(h', rr, Bottom(qq, next))
      && h'[next].right == Apex(qq, Root(rr)) && h'[next].balance == h[node].balance
      && Rewired(h, h', {next} + PathIds(qq) + Ids(rr))
  {
    var h1 := h[next := h[next].(balance := h[node].balance)];
    NextRecord(h, node, qq, next, rr);
    CutOut(h, h1, node, qq, next, rr);
    var h2 := Replaced(h1, next, Root(rr));
    Rebased(h2, node, qq, next, rr);
    assert Cut(h, node, next) == Reparented(h2[next := h2[next].(right := h2[node].right)], h2[node].right, next);
    RewiredTwice(h, h2, Cut(h, node, next), {next} + (PathIds(qq) + Ids(rr)), {next} + PathIds(qq), {next} + PathIds(qq) + Ids(rr));
  }

  lemma {:induction false} CutOut(h: Heap, h1: Heap, node: nat, qq: Path, next: nat, rr: Tree)
    requires 0 < next < |h| && 0 < node < |h| && node != next && node !in PathIds(qq) && node !in Ids(rr)
    requires PathLinked(h, qq, node, next, Ht(rr) + 1) && Linked(h, rr, next) && qq.Step?
    requires h[next].right == Root(rr) && h[next].parent == Bottom(qq, node)
    requires next !in PathIds(qq) && next !in Ids(rr) && Ids(rr) !! PathIds(qq)
    requires h1 == h[next := h[next].(balance := h[node].balance)]
    ensures var h2 := Replaced(h1, next, Root(rr));
      && PathLinked(h2, qq, node, Root(rr), Ht(rr) + 1) && Linked(h2, rr, Bottom(qq, node))
      && Rewired(h, h2, {next} + (PathIds(qq) + Ids(rr))) && h2[node] == h[node] && h2[next] == h1[next]
  {
    PathFrame(h, h1, qq, node, next, Ht(rr) + 1);
    LinkedFrame(h, h1, rr, next);
    ReplacedPath(h1, qq, node, next, Ht(rr) + 1, rr, next);
    CutOutFrame(h, h1, Replaced(h1, next, Root(rr)), node, next, PathIds(qq) + Ids(rr));
  }

  lemma CutOutFrame(h: Heap, h1: Heap, h2: Heap, node: nat, next: nat, w: set<nat>)
    requires node < |h| && next < |h| && node !in w && next !in w && node != next
    requires h1 == h[next := h[next].(balance := h[node].balance)] && Rewired(h1, h2, w)
    ensures Rewired(h, h2, {next} + w) && h2[node] == h[node] && h2[next] == h1[next]
  {
  }

  lemma {:induction false} ApexSame(q: Path, c: nat, c': nat)
    requires q.Step?
    ensures Apex(q, c) == Apex(q, c')
  {
  }

  lemma {:induction false} Rebased(h: Heap, node: nat, qq: Path, next: nat, rr: Tree)
    requires qq.Step? && 0 < node < |h| && 0 < next < |h| && node !in PathIds(qq) && next !in PathIds(qq)
    requires PathLinked(h, qq, node, Root(rr), Ht(rr) + 1) && Linked(h, rr, Bottom(qq, node))
    requires Ids(rr) !! PathIds(qq) && next !in Ids(rr) && node != next
    requires h[node].right == Apex(qq, Root(rr))
    ensures var h' := Reparented(h[next := h[next].(right := h[node].right)], h[node].right, next);
      && PathLinked(h', qq, next, Root(rr), Ht(rr) + 1) && Linked(h', rr, Bottom(qq, next))
      && h'[next] == h[next].(right := h[node].right)
      && Rewired(h, h', {next} + PathIds(qq))
  {
    var a := Apex(qq, Root(rr));
    ApexInPath(qq, Root(rr));
    PathLinkedRange(h, qq, node, Root(rr), Ht(rr) + 1);
    RebasedWrites(h, a, next, PathIds(qq));
    var h' := Reparented(h[next := h[next].(right := a)], a, next);
    PathRebase(h, h', qq, node, next, Root(rr), Ht(rr) + 1);
    LinkedFrame(h, h', rr, qq.id);
  }

  lemma RebasedWrites(h: Heap, a: nat, next: nat, ids: set<nat>)
    requires 0 < a < |h| && 0 < next < |h| && a in ids && next !in ids
    ensures var h' := Reparented(h[next := h[next].(right := a)], a, next);
      && h'[next] == h[next].(right := a) && h'[a] == h[a].(parent := next) && Rewired(h, h', {next} + ids)
      && forall i :: 0 <= i < |h| && i != a && i != next ==> h'[i] == h[i]
  {
  }

  /** The array after next has taken node's place. */
  function Seated(h: Heap, node: nat, next: nat): (h': Heap)
    requires node < |h| && next < |h|
    ensures |h'| == |h|
  {
    var h5 := Replaced(h, node, next);
    var h6 := h5[next := h5[next].(left := h5[node].left)];
    Reparented(h6, h6[node].left, next)
  }

  lemma {:induction false} SeatedEffect(h: Heap, q: Path, k: nat, l: Tree, node: nat, next: nat)
    requires PathLinked(h, q, 0, node, k) && 0 < node < |h| && 0 < next < |h| && node != next
    requires node !in PathIds(q) && next !in PathIds(q) && node !in Ids(l) && next !in Ids(l)
    requires Ids(l) !! PathIds(q) && Linked(h, l, node)
    requires h[node].parent == Bottom(q, 0) && h[node].left == Root(l)
    ensures var h' := Seated(h, node, next);
      && PathLinked(h', q, 0, next, k) && Linked(h', l, next)
      && h'[next] == h[next].(left := Root(l), parent := Bottom(q, 0))
      && Rewired(h, h', PathIds(q) + {next} + Ids(l))
  {
    var h4 := Hooked(h, Bottom(q, 0), node, next);
    HookedPath(h, q, node, next, k);
    SeatedWrites(h, h4, q, l, node, next);
    PathFrame(h4, Seated(h, node, next), q, 0, next, k);
    LinkedReparent(h, Seated(h, node, next), l, node, next);
  }

  lemma {:induction false} SeatedWrites(h: Heap, h4: Heap, q: Path, l: Tree, node: nat, next: nat)
    requires 0 < node < |h| && 0 < next < |h| && node != next && next !in PathIds(q) && node !in Ids(l) && next !in Ids(l)
    requires Ids(l) !! PathIds(q) && Linked(h, l, node) && Bottom(q, 0) < |h| && Bottom(q, 0) != node && Bottom(q, 0) != next
    requires h[node].parent == Bottom(q, 0) && h[node].left == Root(l)
    requires h4 == Hooked(h, Bottom(q, 0), node, next)
    ensures var h' := Seated(h, node, next);
      && h'[next] == h[next].(left := Root(l), parent := Bottom(q, 0)) && (l.Node? ==> h'[l.id] == h[l.id].(parent := next))
      && Rewired(h4, h', {next, Root(l)} - {0})
  {
    LinkedShape(h, l, node);
    assert l.Node? ==> l.id in Ids(l);
    assert q.Step? ==> Bottom(q, 0) in PathIds(q);
  }

  /** The six groups of ids taking part are pairwise disjoint. */
  ghost predicate Apart(q: Path, l: Tree, node: nat, qq: Path, next: nat, rr: Tree) {
    && node != next && node !in PathIds(q) && node !in Ids(l) && node !in PathIds(qq) && node !in Ids(rr)
    && next !in PathIds(q) && next !in Ids(l) && next !in PathIds(qq) && next !in Ids(rr)
    && Ids(l) !! PathIds(q) && PathIds(qq) !! PathIds(q) && Ids(rr) !! PathIds(q)
    && Ids(l) !! PathIds(qq) && Ids(l) !! Ids(rr) && Ids(rr) !! PathIds(qq)
  }

  lemma {:induction false} TwoChildrenApart(h: Heap, q: Path, l: Tree, node: nat, r: Tree, qq: Path, next: nat, rr: Tree)
    requires TwoChildren(h, q, l, node, r, qq, next, rr)
    ensures Apart(q, l, node, qq, next, rr) && 0 < node < |h| && 0 < next < |h|
    ensures PathLinked(h, q, 0, node, 1 + Max(Ht(l), Ht(r))) && Linked(h, l, node)
    ensures h[node].parent == Bottom(q, 0) && h[node].left == Root(l) && h[node].right == Root(r)
    ensures h[node].balance == Ht(r) - Ht(l) && -1 <= h[node].balance <= 1
  {
    assert Ids(Node(l, node, r)) == Ids(l) + {node} + Ids(r);
    assert Ids(Node(Leaf, next, rr)) == {next} + Ids(rr);
  }

  /** What the writes of the "deep next" case rely on. */
  ghost predicate CutReady(h: Heap, node: nat, next: nat) {
    && 0 < node < |h| && 0 < next < |h| && node != next && 0 < h[node].right < |h|
    && 0 < h[next].parent < |h| && h[next].parent != node && h[next].parent != next
    && h[next].right < |h| && h[next].right != next && h[next].right != node
  }

  lemma {:induction false} LiftPlan(h: Heap, q: Path, l: Tree, node: nat, r: Tree, qq: Path, next: nat, rr: Tree)
    requires TwoChildren(h, q, l, node, r, qq, next, rr)
    ensures 0 < node < |h| && 0 < next < |h| && (h[next].parent == node <==> qq.Top?)
    ensures qq.Top? ==> Lifted(h, h[next := h[next].(balance := h[node].balance)], node, r, qq, next, rr)
    ensures qq.Step? ==> CutReady(h, node, next) && Lifted(h, Cut(h, node, next), node, r, qq, next, rr)
    ensures qq.Step? ==> h[next].parent == qq.id < |h| && (h[qq.id].left == next <==> qq.left)
  {
    TwoChildrenApart(h, q, l, node, r, qq, next, rr);
    NextRecord(h, node, qq, next, rr);
    if qq.Step? {
      LiftDeep(h, node, r, qq, next, rr);
      DeepReady(h, q, l, node, r, qq, next, rr);
    } else {
      LiftImmediate(h, q, l, node, r, next, rr);
    }
  }

  lemma {:induction false} DeepReady(h: Heap, q: Path, l: Tree, node: nat, r: Tree, qq: Path, next: nat, rr: Tree)
    requires TwoChildren(h, q, l, node, r, qq, next, rr) && qq.Step?
    ensures CutReady(h, node, next) && h[next].parent == qq.id < |h| && (h[qq.id].left == next <==> qq.left)
  {
    TwoChildrenApart(h, q, l, node, r, qq, next, rr);
    TwoChildrenRange(h, q, l, node, r, qq, next, rr);
    DeepNext(h, node, qq, next, rr);
  }

  lemma {:induction false} DeepNext(h: Heap, node: nat, qq: Path, next: nat, rr: Tree)
    requires At(h, qq, node, Node(Leaf, next, rr)) && qq.Step? && node !in PathIds(qq)
    ensures 0 < next < |h| && h[next].right == Root(rr) < |h| && Root(rr) != next && h[next].parent == qq.id < |h|
    ensures qq.id != node && (h[qq.id].left == next <==> qq.left)
  {
    NextRecord(h, node, qq, next, rr);
    SideTest(h, qq, node, next, Ht(rr) + 1);
  }

  lemma {:induction false} TwoChildrenRange(h: Heap, q: Path, l: Tree, node: nat, r: Tree, qq: Path, next: nat, rr: Tree)
    requires TwoChildren(h, q, l, node, r, qq, next, rr)
    ensures 0 < Root(l) < |h| && 0 < Root(r) < |h| && Root(rr) != node && Bottom(q, 0) < |h| && Bottom(q, 0) != node
    ensures 0 < h[next].parent < |h| && h[next].parent != next
  {
    TwoChildrenApart(h, q, l, node, r, qq, next, rr);
    LinkedShape(h, Node(l, node, r), Bottom(q, 0));
    LinkedShape(h, Node(Leaf, next, rr), Bottom(qq, node));
    PathLinkedRange(h, q, 0, node, 1 + Max(Ht(l), Ht(r)));
    assert Root(l) in Ids(l) && (r.Node? ==> Root(r) in Ids(r)) && (rr.Node? ==> Root(rr) in Ids(rr));
    assert next in Ids(r);
  }

  /** next in node's place: its record, and the links above, to the left and to the right. */
  ghost predicate InPlace(h: Heap, q: Path, l: Tree, qq: Path, next: nat, rr: Tree, k: nat) {
    && 0 < next < |h| && PathLinked(h, qq, next, Root(rr), Ht(rr) + 1) && Linked(h, rr, Bottom(qq, next))
    && PathLinked(h, q, 0, next, 1 + Max(Ht(l), k)) && Linked(h, l, next)
    && h[next].left == Root(l) && h[next].right == Apex(qq, Root(rr)) && h[next].parent == Bottom(q, 0)
    && h[next].balance == k - Ht(l) && -1 <= h[next].balance <= 1
  }

  lemma {:induction false} SeatedInPlace(h: Heap, h4: Heap, q: Path, l: Tree, node: nat, r: Tree, qq: Path, next: nat, rr: Tree)
    requires TwoChildren(h, q, l, node, r, qq, next, rr) && Lifted(h, h4, node, r, qq, next, rr)
    ensures InPlace(Seated(h4, node, next), q, l, qq, next, rr, Ht(r))
    ensures Rewired(h4, Seated(h4, node, next), PathIds(q) + {next} + Ids(l))
  {
    TwoChildrenApart(h, q, l, node, r, qq, next, rr);
    LiftedKeeps(h, h4, q, l, node, r, qq, next, rr);
    SeatedEffect(h4, q, 1 + Max(Ht(l), Ht(r)), l, node, next);
    SeatedFrame(h4, Seated(h4, node, next), q, l, node, qq, next, rr);
  }

  /** After both stages the array is an AVL tree except that rr, which took next's
      place, is one level too low. */
  lemma {:induction false} UnlinkTwo(h: Heap, h4: Heap, q: Path, l: Tree, node: nat, r: Tree, qq: Path, next: nat, rr: Tree, p: Path)
    requires TwoChildren(h, q, l, node, r, qq, next, rr) && Lifted(h, h4, node, r, qq, next, rr)
    requires p == Append(qq, Step(q, next, l, false))
    ensures Shrunk(Seated(h4, node, next), p, rr)
  {
    SeatedInPlace(h, h4, q, l, node, r, qq, next, rr);
    TwoChildrenApart(h, q, l, node, r, qq, next, rr);
    SeatedJoined(Seated(h4, node, next), q, l, node, qq, next, rr, Ht(r), p);
  }

  /** Both stages touch only the path above, the two subtrees and next. */
  lemma {:induction false} UnlinkTwoFrame(h: Heap, h4: Heap, q: Path, l: Tree, node: nat, r: Tree, qq: Path, next: nat, rr: Tree)
    requires TwoChildren(h, q, l, node, r, qq, next, rr) && Lifted(h, h4, node, r, qq, next, rr)
    ensures Rewired(h, Seated(h4, node, next), PathIds(q) + Ids(l) + Ids(r))
  {
    SeatedInPlace(h, h4, q, l, node, r, qq, next, rr);
    RewiredTwice(h, h4, Seated(h4, node, next), Ids(r), PathIds(q) + {next} + Ids(l), PathIds(q) + Ids(l) + Ids(r));
  }

  lemma {:induction false} LiftedKeeps(h: Heap, h4: Heap, q: Path, l: Tree, node: nat, r: Tree, qq: Path, next: nat, rr: Tree)
    requires TwoChildren(h, q, l, node, r, qq, next, rr) && Rewired(h, h4, Ids(r))
    ensures PathLinked(h4, q, 0, node, 1 + Max(Ht(l), Ht(r))) && Linked(h4, l, node)
    ensures 0 < node < |h| && h4[node] == h[node]
  {
    TwoChildrenApart(h, q, l, node, r, qq, next, rr);
    PathFrame(h, h4, q, 0, node, 1 + Max(Ht(l), Ht(r)));
    LinkedFrame(h, h4, l, node);
  }

  lemma {:induction false} SeatedFrame(h: Heap, h': Heap, q: Path, l: Tree, node: nat, qq: Path, next: nat, rr: Tree)
    requires Apart(q, l, node, qq, next, rr) && Rewired(h, h', PathIds(q) + {next} + Ids(l))
    requires PathLinked(h, qq, next, Root(rr), Ht(rr) + 1) && Linked(h, rr, Bottom(qq, next))
    ensures PathLinked(h', qq, next, Root(rr), Ht(rr) + 1) && Linked(h', rr, Bottom(qq, next))
  {
    PathFrame(h, h', qq, next, Root(rr), Ht(rr) + 1);
    LinkedFrame(h, h', rr, Bottom(qq, next));
  }

  lemma {:induction false} SeatedJoined(h: Heap, q: Path, l: Tree, node: nat, qq: Path, next: nat, rr: Tree, k: nat, p: Path)
    requires Apart(q, l, node, qq, next, rr) && k == HtUp(qq, Ht(rr) + 1) && InPlace(h, q, l, qq, next, rr, k)
    requires p == Append(qq, Step(q, next, l, false))
    ensures Shrunk(h, p, rr)
  {
    var top := Step(q, next, l, false);
    SeatedStep(h, q, l, next, Apex(qq, Root(rr)), k);
    AppendShrunk(h, qq, top, rr, p);
  }

  lemma {:induction false} SeatedStep(h: Heap, q: Path, l: Tree, next: nat, c: nat, k: nat)
    requires 0 < next < |h| && PathLinked(h, q, 0, next, 1 + Max(Ht(l), k)) && Linked(h, l, next)
    requires next !in PathIds(q) && next !in Ids(l) && Ids(l) !! PathIds(q)
    requires h[next].left == Root(l) && h[next].right == c && h[next].parent == Bottom(q, 0)
    requires h[next].balance == k - Ht(l) && -1 <= h[next].balance <= 1
    ensures PathLinked(h, Step(q, next, l, false), 0, c, k)
  {
  }

  lemma {:induction false} AppendShrunk(h: Heap, qq: Path, top: Path, rr: Tree, p: Path)
    requires top.Step? && PathLinked(h, qq, top.id, Root(rr), Ht(rr) + 1) && Linked(h, rr, Bottom(qq, top.id))
    requires PathLinked(h, top, 0, Apex(qq, Root(rr)), HtUp(qq, Ht(rr) + 1))
    requires PathIds(qq) !! PathIds(top) && Ids(rr) !! PathIds(top) && Ids(rr) !! PathIds(qq) && p == Append(qq, top)
    ensures Shrunk(h, p, rr)
  {
    AppendLinked(h, qq, top, 0, Root(rr), Ht(rr) + 1);
    AppendIds(qq, top, 0);
  }

  /** The path on which the retrace starts: qq, now below next in node's place. */
  function Relinked(q: Path, l: Tree, qq: Path, next: nat): Path {
    Append(qq, Step(q, next, l, false))
  }

  lemma SeqShuffle(a: seq<nat>, b: seq<nat>, n: nat, c: seq<nat>, e: seq<nat>, f: seq<nat>)
    ensures a + (b + [n]) + c + (e + f) == (a + b) + ([n] + (c + e) + f)
  {
  }

  lemma {:induction false} RelinkedOrder(q: Path, l: Tree, qq: Path, next: nat, rr: Tree, r: Tree)
    requires Before(qq) == [] && InOrder(r) == [next] + (InOrder(rr) + After(qq))
    ensures Order(Relinked(q, l, qq, next), rr) == (Before(q) + InOrder(l)) + (InOrder(r) + After(q))
  {
    var top := Step(q, next, l, false);
    AppendOrder(qq, top);
    assert Before(top) + [] == Before(top);
    assert Before(top) == Before(q) + (InOrder(l) + [next]) && After(top) == After(q);
    SeqShuffle(Before(q), InOrder(l), next, InOrder(rr), After(qq), After(q));
  }

  /** Height, root and ids seen from the new path. */
  lemma {:induction false} RelinkedShape(q: Path, l: Tree, node: nat, r: Tree, qq: Path, next: nat, rr: Tree)
    requires Ids(r) == PathIds(qq) + {next} + Ids(rr) && Ht(r) == HtUp(qq, Ht(rr) + 1)
    ensures Ids(rr) + PathIds(Relinked(q, l, qq, next)) <= Ids(Plug(q, Node(l, node, r)))
    ensures HtUp(Relinked(q, l, qq, next), Ht(rr) + 1) == Ht(Plug(q, Node(l, node, r)))
    ensures Apex(Relinked(q, l, qq, next), Root(rr)) == Apex(q, next)
    ensures Bottom(Relinked(q, l, qq, next), 0) == Bottom(qq, next)
  {
    var top := Step(q, next, l, false);
    AppendShape(qq, top, Leaf, Root(rr), Ht(rr) + 1);
    PlugShape(q, Node(l, node, r));
    RelinkedIds(q, l, node, r, qq, next, rr);
  }

  lemma {:induction false} RelinkedIds(q: Path, l: Tree, node: nat, r: Tree, qq: Path, next: nat, rr: Tree)
    requires Ids(r) == PathIds(qq) + {next} + Ids(rr)
    ensures Ids(rr) + PathIds(Relinked(q, l, qq, next)) <= Ids(Plug(q, Node(l, node, r)))
  {
    var top := Step(q, next, l, false);
    AppendIds(qq, top, 0);
    PlugShape(q, Node(l, node, r));
    assert PathIds(top) == PathIds(q) + {next} + Ids(l);
    assert Ids(Node(l, node, r)) == Ids(l) + {node} + Ids(r);
  }
}
