/**
  The array representation of lib/avl.bpf.h: node records that name each other by
  id, and the predicates that tie a record array to an AvlShape tree or path.
  All predicates and lemmas are about array contents as values, so that the
  methods of AvlTree can reason about nodes[..] before and after each write.
 */
module AvlHeap {
  import opened AvlShape

  /** struct avl_node.  Slot i of the array is the element with id i; slot 0 is
      unused because id 0 means "no node". */
  datatype AvlNode = AvlNode(
    key: nat, left: nat, right: nat, parent: nat, balance: int,
    isOrphan: bool, prevOrphan: nat, nextOrphan: nat)

  type Heap = seq<AvlNode>

  /** The four fields that make up the tree structure are the same. */
  ghost predicate SameLinks(a: AvlNode, b: AvlNode) {
    a.left == b.left && a.right == b.right && a.parent == b.parent && a.balance == b.balance
  }

  /** Everything but the tree structure is the same. */
  ghost predicate SamePayload(a: AvlNode, b: AvlNode) {
    a.key == b.key && a.isOrphan == b.isOrphan
    && a.prevOrphan == b.prevOrphan && a.nextOrphan == b.nextOrphan
  }

  ghost predicate Agree(h: Heap, h': Heap, s: set<nat>) {
    |h| == |h'| && forall i :: i in s && i < |h| ==> SameLinks(h[i], h'[i])
  }

  /** h' differs from h only in the tree structure of the ids in s. */
  ghost predicate Rewired(h: Heap, h': Heap, s: set<nat>) {
    && |h| == |h'|
    && (forall i :: 0 <= i < |h| ==> SamePayload(h[i], h'[i]))
    && (forall i :: 0 <= i < |h| && i !in s ==> h'[i] == h[i])
  }

  lemma RewiredAgree(h: Heap, h': Heap, s: set<nat>, u: set<nat>)
    requires Rewired(h, h', s) && s !! u
    ensures Agree(h, h', u)
  {
  }

  lemma RewiredWiden(h: Heap, h': Heap, s: set<nat>, u: set<nat>)
    requires Rewired(h, h', s) && s <= u
    ensures Rewired(h, h', u)
  {
  }

  lemma RewiredTwice(h: Heap, h1: Heap, h2: Heap, s1: set<nat>, s2: set<nat>, u: set<nat>)
    requires Rewired(h, h1, s1) && Rewired(h1, h2, s2) && s1 <= u && s2 <= u
    ensures Rewired(h, h2, u)
  {
  }

  /** The subtree hanging below parent id p is exactly t: child and parent ids
      agree in both directions, each stored balance is the true height difference
      and lies in -1..1, and no id occurs twice. */
  ghost predicate Linked(h: Heap, t: Tree, p: nat) {
    match t
    case Leaf => true
    case Node(l, id, r) =>
      && 0 < id < |h|
      && h[id].left == Root(l) && h[id].right == Root(r) && h[id].parent == p
      && h[id].balance == Ht(r) - Ht(l) && -1 <= h[id].balance <= 1
      && id !in Ids(l) && id !in Ids(r) && Ids(l) !! Ids(r)
      && Linked(h, l, id) && Linked(h, r, id)
  }

  /** The same for a path whose hole holds root id c; the stored balances are
      exact for a hole of height k (which what is in the hole need not have). */
  ghost predicate PathLinked(h: Heap, p: Path, base: nat, c: nat, k: nat) {
    match p
    case Top => true
    case Step(up, id, sib, left) =>
      && 0 < id < |h|
      && h[id].left == (if left then c else Root(sib))
      && h[id].right == (if left then Root(sib) else c)
      && h[id].parent == Bottom(up, base)
      && h[id].balance == (if left then Ht(sib) - k else k - Ht(sib))
      && -1 <= h[id].balance <= 1
      && id !in Ids(sib) && id !in PathIds(up) && Ids(sib) !! PathIds(up)
      && Linked(h, sib, id) && PathLinked(h, up, base, id, StepHt(p, k))
  }

  lemma {:induction false} LinkedShape(h: Heap, t: Tree, p: nat)
    requires Linked(h, t, p)
    ensures Distinct(t) && Balanced(t)
    ensures forall i :: i in Ids(t) ==> 0 < i < |h|
    decreases t
  {
    match t
    case Leaf =>
    case Node(l, id, r) =>
      LinkedShape(h, l, id);
      LinkedShape(h, r, id);
  }

  lemma {:induction false} PathLinkedRange(h: Heap, q: Path, base: nat, c: nat, k: nat)
    requires PathLinked(h, q, base, c, k)
    ensures forall i :: i in PathIds(q) ==> 0 < i < |h|
    decreases q
  {
    if q.Step? {
      PathLinkedRange(h, q.up, base, q.id, StepHt(q, k));
      LinkedShape(h, q.sib, q.id);
    }
  }

  // ---------------------------------------------------------------- framing

  lemma {:induction false} LinkedFrame(h: Heap, h': Heap, t: Tree, p: nat)
    requires Linked(h, t, p) && Agree(h, h', Ids(t))
    ensures Linked(h', t, p)
    decreases t
  {
    match t
    case Leaf =>
    case Node(l, id, r) =>
      LinkedFrame(h, h', l, id);
      LinkedFrame(h, h', r, id);
  }

  lemma {:induction false} PathFrame(h: Heap, h': Heap, q: Path, base: nat, c: nat, k: nat)
    requires PathLinked(h, q, base, c, k) && Agree(h, h', PathIds(q))
    ensures PathLinked(h', q, base, c, k)
    decreases q
  {
    if q.Step? {
      LinkedFrame(h, h', q.sib, q.id);
      PathFrame(h, h', q.up, base, q.id, StepHt(q, k));
    }
  }

  /** Hanging a subtree below another parent rewrites one parent id. */
  lemma {:induction false} LinkedReparent(h: Heap, h': Heap, t: Tree, p: nat, p': nat)
    requires Linked(h, t, p) && Agree(h, h', Ids(t) - {Root(t)})
    requires t.Node? && t.id < |h| ==> SameLinks(h'[t.id], h[t.id].(parent := p'))
    ensures Linked(h', t, p')
  {
    match t
    case Leaf =>
    case Node(l, id, r) =>
      LinkedFrame(h, h', l, id);
      LinkedFrame(h, h', r, id);
  }

  /** Filling the hole with another root id rewrites one child id. */
  lemma {:induction false} PathRefill(h: Heap, h': Heap, q: Path, base: nat, c: nat, c': nat, k: nat)
    requires PathLinked(h, q, base, c, k) && Agree(h, h', PathIds(q) - {Bottom(q, base)})
    requires q.Step? && q.id < |h| ==>
      SameLinks(h'[q.id], if q.left then h[q.id].(left := c') else h[q.id].(right := c'))
    ensures PathLinked(h', q, base, c', k)
  {
    if q.Step? {
      LinkedFrame(h, h', q.sib, q.id);
      PathFrame(h, h', q.up, base, q.id, StepHt(q, k));
    }
  }

  /** Moving a nonempty path below another base rewrites one parent id. */
  lemma {:induction false} PathRebase(h: Heap, h': Heap, q: Path, base: nat, base': nat, c: nat, k: nat)
    requires PathLinked(h, q, base, c, k) && q.Step?
    requires Agree(h, h', PathIds(q) - {Apex(q, c)})
    requires Apex(q, c) < |h| ==> SameLinks(h'[Apex(q, c)], h[Apex(q, c)].(parent := base'))
    ensures PathLinked(h', q, base', c, k)
    decreases q
  {
    if q.up.Top? {
      assert Apex(q.up, q.id) == q.id;
    } else {
      ApexInPath(q.up, q.id);
      PathRebase(h, h', q.up, base, base', q.id, StepHt(q, k));
    }
    LinkedFrame(h, h', q.sib, q.id);
  }

  lemma {:induction false} ApexInPath(q: Path, c: nat)
    requires q.Step?
    ensures Apex(q, c) in PathIds(q)
    decreases q
  {
    if q.up.Step? { ApexInPath(q.up, q.id); }
  }

  // ---------------------------------------------------------------- zipping

  /** Subtree t sits at the end of path q, and all of it is an AVL tree. */
  ghost predicate At(h: Heap, q: Path, base: nat, t: Tree) {
    && PathLinked(h, q, base, Root(t), Ht(t)) && Linked(h, t, Bottom(q, base))
    && Ids(t) !! PathIds(q)
  }

  /** One step down from a node to one of its subtrees. */
  function Down(q: Path, t: Tree, left: bool): Path
    requires t.Node?
  {
    Step(q, t.id, if left then t.right else t.left, left)
  }

  function Child(t: Tree, left: bool): Tree
    requires t.Node?
  {
    if left then t.left else t.right
  }

  lemma {:induction false} AtDown(h: Heap, q: Path, base: nat, t: Tree, left: bool)
    requires t.Node? && At(h, q, base, t)
    ensures At(h, Down(q, t, left), base, Child(t, left))
    ensures Plug(Down(q, t, left), Child(t, left)) == Plug(q, t)
  {
  }

  lemma {:induction false} AtUp(h: Heap, q: Path, base: nat, t: Tree)
    requires q.Step? && At(h, q, base, t)
    ensures At(h, q.up, base, Fill(q, t))
  {
    assert Linked(h, q.sib, q.id) && Linked(h, t, q.id);
    assert Ids(t) !! Ids(q.sib) && q.id !in Ids(t);
    assert Ht(Fill(q, t)) == StepHt(q, Ht(t));
  }

  /** A path whose balances are exact for what its hole holds is a whole tree. */
  lemma {:induction false} PlugLinked(h: Heap, q: Path, base: nat, t: Tree)
    requires At(h, q, base, t)
    ensures Linked(h, Plug(q, t), base)
    decreases q
  {
    if q.Step? {
      AtUp(h, q, base, t);
      PlugLinked(h, q.up, base, Fill(q, t));
    }
  }

  lemma {:induction false} AppendLinked(h: Heap, q: Path, r: Path, base: nat, c: nat, k: nat)
    requires PathLinked(h, q, Bottom(r, base), c, k)
    requires PathLinked(h, r, base, Apex(q, c), HtUp(q, k))
    requires PathIds(q) !! PathIds(r)
    ensures PathLinked(h, Append(q, r), base, c, k)
    decreases q
  {
    if q.Step? {
      AppendIds(q.up, r, base);
      AppendLinked(h, q.up, r, base, q.id, StepHt(q, k));
    }
  }

  /** The path from below `up` down to the node x of t. */
  ghost function Focus(t: Tree, x: nat, up: Path): (Path, Tree)
    requires x in Ids(t)
    decreases t
  {
    if x == t.id then (up, t)
    else if x in Ids(t.left) then Focus(t.left, x, Down(up, t, true))
    else Focus(t.right, x, Down(up, t, false))
  }

  lemma {:induction false} FocusAt(h: Heap, t: Tree, x: nat, up: Path, base: nat)
    requires x in Ids(t) && At(h, up, base, t)
    ensures var (q, s) := Focus(t, x, up);
      At(h, q, base, s) && s.Node? && s.id == x && Plug(q, s) == Plug(up, t)
    decreases t
  {
    if x != t.id {
      var left := x in Ids(t.left);
      AtDown(h, up, base, t, left);
      FocusAt(h, Child(t, left), x, Down(up, t, left), base);
    }
  }
}
