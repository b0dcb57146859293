/**
  What an insertion or a deletion does to the parts of the state other than the
  links: key order, cached ends, orphan flags.
 */
module AvlUpdate {
  import opened AvlShape
  import opened AvlHeap
  import opened AvlRetrace
  import opened AvlUnlink
  import opened AvlOrder
  import opened AvlSearch

  ghost predicate SameKeys(h: Heap, h': Heap) {
    |h| == |h'| && forall i :: 0 <= i < |h| ==> h'[i].key == h[i].key
  }

  lemma OrderedFrame(h: Heap, h': Heap, arrival: seq<nat>, s: seq<nat>)
    requires |h| == |arrival| && InRange(h, s) && Ordered(h, arrival, s) && SameKeys(h, h')
    ensures InRange(h', s) && Ordered(h', arrival, s)
  {
    forall i, j | 0 <= i < j < |s| ensures Precedes(h', arrival, s[i], s[j]) {
      assert Precedes(h, arrival, s[i], s[j]);
    }
  }

  lemma {:induction false} SlotFrame(h: Heap, h': Heap, s: seq<nat>, k: nat)
    requires InRange(h, s) && SameKeys(h, h')
    ensures InRange(h', s) && Slot(h', s, k) == Slot(h, s, k)
    decreases s
  {
    if s != [] && h[s[0]].key <= k { SlotFrame(h, h', s[1..], k); }
  }

  lemma {:induction false} SearchDepthFrame(h: Heap, h': Heap, t: Tree, k: nat)
    requires SameKeys(h, h')
    ensures SearchDepth(h', t, k) == SearchDepth(h, t, k)
    decreases t
  {
    if t.Node? && t.id < |h| { SearchDepthFrame(h, h', Child(t, k < h[t.id].key), k); }
  }

  // ---------------------------------------------------------------- insert

  /** The new element goes after its equals, and it is the newest of them. */
  lemma {:induction false} InsertArrived(h: Heap, a: seq<nat>, node: nat, b: seq<nat>, arrival: seq<nat>, clock: nat)
    requires 0 < node < |h| && node !in a + b && Arrived(h, a + b, arrival, clock)
    requires InRange(h, a) && InRange(h, b) && AllAtMost(h, a, h[node].key) && AllAbove(h, b, h[node].key)
    ensures a + [node] + b == Placed(h, a + b, node)
    ensures Arrived(h, a + [node] + b, arrival[node := clock], clock + 1)
  {
    var s, arrival' := a + b, arrival[node := clock];
    forall i | 0 <= i < |s| ensures s[i] != node && arrival'[s[i]] == arrival[s[i]] {
      assert s[i] in s;
    }
    assert Ordered(h, arrival', s) by {
      forall i, j | 0 <= i < j < |s| ensures Precedes(h, arrival', s[i], s[j]) {
        assert Precedes(h, arrival, s[i], s[j]);
      }
    }
    forall i | 0 <= i < |a| ensures arrival'[a[i]] < arrival'[node] { assert s[i] == a[i]; }
    PlacedOrdered(h, arrival', a, node, b);
    var s' := a + [node] + b;
    forall i | 0 <= i < |s'| ensures arrival'[s'[i]] < clock + 1 {
      if i < |a| { assert s'[i] == s[i]; } else if i > |a| { assert s'[i] == s[i - 1]; }
    }
  }

  /** The caches after an insertion: strict at the minimum, non-strict at the maximum. */
  function CacheWith(c: Cache, node: nat, k: nat): Cache {
    var lo, hi := c.minId == 0 || k < c.minKey, c.maxId == 0 || k >= c.maxKey;
    Cache(if lo then node else c.minId, if lo then k else c.minKey,
          if hi then node else c.maxId, if hi then k else c.maxKey)
  }

  lemma InsertCached(h: Heap, a: seq<nat>, node: nat, b: seq<nat>, c: Cache)
    requires InRange(h, a) && InRange(h, b) && InRange(h, a + b) && 0 < node < |h| && InRange(h, a + [node] + b)
    requires AllAtMost(h, a, h[node].key) && AllAbove(h, b, h[node].key) && Cached(h, a + b, c)
    ensures Cached(h, a + [node] + b, CacheWith(c, node, h[node].key))
  {
    var s, s' := a + b, a + [node] + b;
    if a != [] { assert s[0] == a[0] == s'[0]; } else if b != [] { assert s[0] == b[0]; }
    if b != [] {
      assert s[|s| - 1] == b[|b| - 1] == s'[|s'| - 1];
    } else if a != [] {
      assert s[|s| - 1] == a[|a| - 1];
    }
  }

  /** is_orphan flags and the orphan list are untouched by rewiring. */
  lemma InsertFlagged(h: Heap, h': Heap, w: set<nat>, a: seq<nat>, node: nat, b: seq<nat>, first: nat, o: seq<nat>)
    requires InRange(h, a + b) && 0 < node < |h| && !h[node].isOrphan && Rewired(h, h', w)
    requires Listed(h, first, o) && Flagged(h, a + b, o)
    ensures Listed(h', first, o) && InRange(h', a + [node] + b) && Flagged(h', a + [node] + b, o)
  {
    ListedFrame(h, h', first, o);
    var s, s' := a + b, a + [node] + b;
    forall i | 0 <= i < |s'| ensures 0 < s'[i] < |h| && !h'[s'[i]].isOrphan {
      if i < |a| { assert s'[i] == s[i]; } else if i > |a| { assert s'[i] == s[i - 1]; }
    }
  }

  lemma DeleteFlagged(h: Heap, h': Heap, w: set<nat>, a: seq<nat>, node: nat, b: seq<nat>, first: nat, o: seq<nat>)
    requires InRange(h, a + [node] + b) && Rewired(h, h', w)
    requires Listed(h, first, o) && Flagged(h, a + [node] + b, o)
    ensures Listed(h', first, o) && InRange(h', a + b) && Flagged(h', a + b, o)
  {
    ListedFrame(h, h', first, o);
    var s, u := a + [node] + b, a + b;
    forall i | 0 <= i < |u| ensures 0 < u[i] < |h| && !h'[u[i]].isOrphan {
      assert u[i] == s[if i < |a| then i else i + 1];
    }
  }

  // ---------------------------------------------------------------- delete

  /** The caches after a deletion, with the ends found by next and prev. */
  ghost function CacheWithout(h: Heap, c: Cache, s: seq<nat>, node: nat): Cache {
    var n, p := Succ(s, node), Pred(s, node);
    Cache(if node == c.minId then n else c.minId, if node == c.minId && 0 < n < |h| then h[n].key else c.minKey,
          if node == c.maxId then p else c.maxId, if node == c.maxId && 0 < p < |h| then h[p].key else c.maxKey)
  }

  lemma DeleteCached(h: Heap, a: seq<nat>, node: nat, b: seq<nat>, c: Cache)
    requires InRange(h, a + [node] + b) && node !in a && node !in b && Cached(h, a + [node] + b, c)
    ensures InRange(h, a + b) && Cached(h, a + b, CacheWithout(h, c, a + [node] + b, node))
  {
    SuccIs(a, node, b);
    PredIs(a, node, b);
    var s, u := a + [node] + b, a + b;
    forall i | 0 <= i < |u| ensures u[i] == s[if i < |a| then i else i + 1] {}
    assert s[|a|] == node && 0 < s[|a|] < |h|;
    if b != [] { assert s[|a| + 1] == b[0]; }
    if a != [] { assert s[|a| - 1] == a[|a| - 1]; }
    if a != [] { assert s[0] == a[0] == u[0] && a[0] in a; }
    if b != [] { assert s[|s| - 1] == b[|b| - 1] == u[|u| - 1] && b[|b| - 1] in b; }
    if a != [] && b == [] { assert u[|u| - 1] == a[|a| - 1]; }
    if a == [] && b != [] { assert u[0] == b[0]; }
  }

  lemma DeleteArrived(h: Heap, a: seq<nat>, x: nat, b: seq<nat>, arrival: seq<nat>, clock: nat)
    requires Arrived(h, a + [x] + b, arrival, clock)
    ensures Arrived(h, a + b, arrival, clock)
  {
    DroppedOrdered(h, arrival, a, x, b);
    var s, u := a + [x] + b, a + b;
    forall i | 0 <= i < |u| ensures arrival[u[i]] < clock { assert u[i] == s[if i < |a| then i else i + 1]; }
  }

  // ---------------------------------------------------------------- whole states

  /** Everything but the links survives an insertion that rewires links. */
  lemma {:induction false} InsertGood(h: Heap, h': Heap, w: set<nat>, a: seq<nat>, node: nat, b: seq<nat>,
      o: seq<nat>, arrival: seq<nat>, clock: nat, c: Cache, first: nat)
    requires Good(h, a + b, o, arrival, clock, c, first) && Rewired(h, h', w)
    requires 0 < node < |h| && node !in a + b && !h[node].isOrphan
    requires InRange(h, a) && InRange(h, b) && AllAtMost(h, a, h[node].key) && AllAbove(h, b, h[node].key)
    ensures a + [node] + b == Placed(h, a + b, node)
    ensures Good(h', a + [node] + b, o, arrival[node := clock], clock + 1, CacheWith(c, node, h[node].key), first)
  {
    InsertArrived(h, a, node, b, arrival, clock);
    InsertCached(h, a, node, b, c);
    InsertFlagged(h, h', w, a, node, b, first, o);
    ArrivedFrame(h, h', a + [node] + b, arrival[node := clock], clock + 1);
  }

  lemma {:induction false} DeleteGood(h: Heap, h': Heap, w: set<nat>, a: seq<nat>, node: nat, b: seq<nat>,
      o: seq<nat>, arrival: seq<nat>, clock: nat, c: Cache, first: nat)
    requires Good(h, a + [node] + b, o, arrival, clock, c, first) && Rewired(h, h', w) && node !in a && node !in b
    ensures a + b == Without(a + [node] + b, node)
    ensures Good(h', a + b, o, arrival, clock, CacheWithout(h, c, a + [node] + b, node), first)
  {
    WithoutIs(a, node, b);
    DeleteArrived(h, a, node, b, arrival, clock);
    DeleteCached(h, a, node, b, c);
    DeleteFlagged(h, h', w, a, node, b, first, o);
    ArrivedFrame(h, h', a + b, arrival, clock);
  }

  lemma TreeDeleteGood(h: Heap, h': Heap, tree: Tree, node: nat,
      o: seq<nat>, arrival: seq<nat>, clock: nat, c: Cache, first: nat)
    requires Good(h, InOrder(tree), o, arrival, clock, c, first) && Rewired(h, h', Ids(tree))
    requires Linked(h, tree, 0) && node in InOrder(tree)
    ensures Good(h', Without(InOrder(tree), node), o, arrival, clock, CacheWithout(h, c, InOrder(tree), node), first)
  {
    LinkedShape(h, tree, 0);
    DistinctNoDup(tree);
    var a, b := SplitAt(InOrder(tree), node);
    DeleteGood(h, h', Ids(tree), a, node, b, o, arrival, clock, c, first);
  }

  lemma ArrivedFrame(h: Heap, h': Heap, s: seq<nat>, arrival: seq<nat>, clock: nat)
    requires Arrived(h, s, arrival, clock) && SameKeys(h, h')
    ensures Arrived(h', s, arrival, clock)
  {
    OrderedFrame(h, h', arrival, s);
  }

  /** Rewriting the record of an element that is in neither place. */
  lemma {:induction false} OutsiderGood(h: Heap, x: nat, n: AvlNode,
      s: seq<nat>, o: seq<nat>, arrival: seq<nat>, clock: nat, c: Cache, first: nat)
    requires Good(h, s, o, arrival, clock, c, first) && 0 < x < |h| && x !in s && x !in o
    ensures Good(h[x := n], s, o, arrival, clock, c, first)
  {
    var h' := h[x := n];
    forall i | 0 <= i < |s| ensures h'[s[i]] == h[s[i]] { assert s[i] in s; }
    forall i | 0 <= i < |o| ensures h'[o[i]] == h[o[i]] { assert o[i] in o; }
    ListedFrame(h, h', first, o);
    forall i, j | 0 <= i < j < |s| ensures Precedes(h', arrival, s[i], s[j]) {
      assert Precedes(h, arrival, s[i], s[j]);
    }
  }

  lemma {:induction false} OutsiderLinked(h: Heap, x: nat, n: AvlNode, t: Tree)
    requires Linked(h, t, 0) && x < |h| && x !in InOrder(t)
    ensures Linked(h[x := n], t, 0)
  {
    InOrderIds(t);
    LinkedFrame(h, h[x := n], t, 0);
  }

  /** Pushing an outsider onto the orphan list. */
  lemma {:induction false} OrphanGood(h: Heap, node: nat,
      s: seq<nat>, o: seq<nat>, arrival: seq<nat>, clock: nat, c: Cache, first: nat)
    requires Good(h, s, o, arrival, clock, c, first) && 0 < node < |h| && node !in s && node !in o
    requires h[node].isOrphan
    ensures Good(OrphanPushed(h, first, node), s, [node] + o, arrival, clock, c, node)
  {
    var h' := OrphanPushed(h, first, node);
    PushListed(h, first, o, node);
    ArrivedFrame(h, h', s, arrival, clock);
    assert forall i :: 0 <= i < |h| ==> h'[i].isOrphan == h[i].isOrphan;
  }

  /** Taking an orphan off the list. */
  lemma {:induction false} AdoptGood(h: Heap, a: seq<nat>, node: nat, b: seq<nat>,
      s: seq<nat>, arrival: seq<nat>, clock: nat, c: Cache, first: nat)
    requires Good(h, s, a + [node] + b, arrival, clock, c, first)
    ensures 0 < node < |h| && h[node].prevOrphan < |h| && h[node].nextOrphan < |h|
    ensures Good(OrphanRemoved(h, node), s, a + b, arrival, clock, c, if first == node then h[node].nextOrphan else first)
  {
    var o := a + [node] + b;
    assert o[|a|] == node && Hung(h, o, |a|);
    var h' := OrphanRemoved(h, node);
    RemoveListed(h, first, a, node, b);
    ArrivedFrame(h, h', s, arrival, clock);
    assert forall i :: 0 <= i < |h| ==> h'[i].isOrphan == h[i].isOrphan;
    forall i | 0 <= i < |a + b| ensures h'[(a + b)[i]].isOrphan {
      assert (a + b)[i] == o[if i < |a| then i else i + 1];
    }
  }

  lemma {:induction false} AdoptGoodAt(h: Heap, o: seq<nat>, o': seq<nat>, a: seq<nat>, node: nat, b: seq<nat>,
      s: seq<nat>, arrival: seq<nat>, clock: nat, c: Cache, first: nat)
    requires o == a + [node] + b && o' == a + b && Good(h, s, o, arrival, clock, c, first)
    ensures 0 < node < |h| && h[node].prevOrphan < |h| && h[node].nextOrphan < |h|
    ensures Good(OrphanRemoved(h, node), s, o', arrival, clock, c, if first == node then h[node].nextOrphan else first)
  {
    AdoptGood(h, a, node, b, s, arrival, clock, c, first);
  }

  lemma {:induction false} FirstOrphanIs(h: Heap, o: seq<nat>, first: nat)
    requires Listed(h, first, o) && o != []
    ensures first == o[0] && 0 < first < |h| && h[first].prevOrphan == 0 && h[first].nextOrphan < |h| && first !in o[1..]
  {
    assert Hung(h, o, 0);
  }

  /** The same for the first orphan. */
  lemma {:induction false} AdoptFirst(h: Heap, s: seq<nat>, o: seq<nat>, arrival: seq<nat>, clock: nat, c: Cache, first: nat)
    requires Good(h, s, o, arrival, clock, c, first) && o != []
    ensures first == o[0] && 0 < first < |h| && h[first].prevOrphan == 0 && h[first].nextOrphan < |h|
    ensures first !in s && first !in o[1..]
    ensures Good(OrphanRemoved(h, first), s, o[1..], arrival, clock, c, h[first].nextOrphan)
  {
    FirstOrphanIs(h, o, first);
    NotBoth(h, s, o, first);
    AdoptGoodAt(h, o, o[1..], [], first, o[1..], s, arrival, clock, c, first);
  }

  /** The removal leaves alone the links, the keys, and where a key belongs. */
  lemma {:induction false} AdoptFrame(h: Heap, first: nat, t: Tree)
    requires Linked(h, t, 0) && 0 < first < |h| && h[first].prevOrphan < |h| && h[first].nextOrphan < |h| && InRange(h, InOrder(t))
    ensures var h' := OrphanRemoved(h, first);
      && Linked(h', t, 0) && SameKeys(h, h') && InRange(h', InOrder(t))
      && SearchDepth(h', t, h[first].key) == SearchDepth(h, t, h[first].key)
      && Slot(h', InOrder(t), h[first].key) == Slot(h, InOrder(t), h[first].key)
  {
    var h' := OrphanRemoved(h, first);
    OrphanLinked(h, h', t);
    SlotFrame(h, h', InOrder(t), h[first].key);
    SearchDepthFrame(h, h', t, h[first].key);
  }

  lemma SplitAt(o: seq<nat>, node: nat) returns (a: seq<nat>, b: seq<nat>)
    requires node in o && NoDup(o)
    ensures o == a + [node] + b && node !in a && node !in b && Without(o, node) == a + b
  {
    var k :| 0 <= k < |o| && o[k] == node;
    a, b := o[..k], o[k + 1..];
    WithoutIs(a, node, b);
  }

  lemma NotBoth(h: Heap, s: seq<nat>, o: seq<nat>, node: nat)
    requires InRange(h, s) && InRange(h, o) && Flagged(h, s, o) && node in o
    ensures node !in s
  {
  }

  /** The orphan list operations do not touch links. */
  lemma OrphanLinked(h: Heap, h': Heap, t: Tree)
    requires Linked(h, t, 0) && |h| == |h'| && forall i :: 0 <= i < |h| ==> SameLinks(h[i], h'[i])
    ensures Linked(h', t, 0)
  {
    LinkedFrame(h, h', t, 0);
  }

  lemma {:induction false} SuccInRange(h: Heap, s: seq<nat>, x: nat)
    requires InRange(h, s) && |h| > 0
    ensures Succ(s, x) < |h| && Pred(s, x) < |h|
    decreases s
  {
    if |s| >= 2 { SuccInRange(h, s[1..], x); }
  }

  lemma FocusWithout(h: Heap, tree: Tree, x: nat)
    requires x in Ids(tree) && Linked(h, tree, 0)
    ensures var focus := Focus(tree, x, Top); var q, t := focus.0, focus.1;
      t.Node? && (Before(q) + InOrder(t.left)) + (InOrder(t.right) + After(q)) == Without(InOrder(tree), x)
  {
    FocusOrder(h, tree, x);
    var (q, t) := Focus(tree, x, Top);
    WithoutIs(Before(q) + InOrder(t.left), x, InOrder(t.right) + After(q));
  }

  /** An empty slot at the end of q, seen from the whole tree. */
  lemma {:induction false} SlotShape(q: Path, tree: Tree)
    requires Plug(q, Leaf) == tree
    ensures InOrder(tree) == Before(q) + After(q) && HtUp(q, 0) == Ht(tree) && Apex(q, 0) == Root(tree)
    ensures forall i :: i in PathIds(q) <==> i in InOrder(tree)
  {
    PlugShape(q, Leaf);
    PlugOrder(q, Leaf);
    PathShape(q);
  }

  lemma TreeNoDup(h: Heap, tree: Tree)
    requires Linked(h, tree, 0)
    ensures NoDup(InOrder(tree))
  {
    LinkedShape(h, tree, 0);
    DistinctNoDup(tree);
  }

  lemma {:induction false} WithoutMembers(s: seq<nat>, x: nat)
    requires NoDup(s)
    ensures forall y :: y in Without(s, x) <==> y in s && y != x
    decreases s
  {
    if s != [] {
      assert NoDup(s[1..]);
      WithoutMembers(s[1..], x);
      assert forall y :: y in s <==> y == s[0] || y in s[1..];
    }
  }

  lemma PlacedMembers(h: Heap, s: seq<nat>, node: nat)
    requires InRange(h, s) && node < |h|
    ensures forall y :: y in Placed(h, s, node) <==> y in s || y == node
  {
    var p := Slot(h, s, h[node].key);
    assert s == s[..p] + s[p..];
  }

  // ---------------------------------------------------------------- successor

  /** The successor of a node with two children ends a path of left steps in its
      right subtree, and has no left child itself. */
  lemma {:induction false} TwoChildrenHold(h: Heap, q: Path, l: Tree, node: nat, r: Tree)
    requires At(h, q, 0, Node(l, node, r)) && l.Node? && r.Node?
    ensures InOrder(r) != [] && InOrder(r)[0] in Ids(r)
    ensures var next := InOrder(r)[0]; var (qq, s) := Focus(r, next, Top);
      s.Node? && TwoChildren(h, q, l, node, r, qq, next, s.right) && Before(qq) == []
        && InOrder(r) == [next] + (InOrder(s.right) + After(qq))
  {
    InOrderIds(r);
    var next := InOrder(r)[0];
    assert next in InOrder(r);
    assert At(h, Top, node, r);
    FocusAt(h, r, next, Top, node);
    var (qq, s) := Focus(r, next, Top);
    NodeOrder(qq, s);
    FirstIsLeftmost(h, qq, node, s, InOrder(r));
    SuccessorFound(h, q, l, node, r, qq, s);
  }

  lemma {:induction false} SuccessorFound(h: Heap, q: Path, l: Tree, node: nat, r: Tree, qq: Path, s: Tree)
    requires At(h, q, 0, Node(l, node, r)) && l.Node?
    requires At(h, qq, node, s) && s.Node? && s.left == Leaf && Plug(qq, s) == r
    ensures TwoChildren(h, q, l, node, r, qq, s.id, s.right)
  {
    PlugShape(qq, s);
    assert s == Node(Leaf, s.id, s.right);
    assert Ids(s) == {s.id} + Ids(s.right) && Ht(s) == Ht(s.right) + 1;
  }

  lemma HeadIs(u: seq<nat>, m: nat, v: seq<nat>)
    requires m !in u && (u + [m] + v)[0] == m
    ensures u == []
  {
  }

  lemma {:induction false} FirstIsLeftmost(h: Heap, qq: Path, base: nat, s: Tree, w: seq<nat>)
    requires At(h, qq, base, s) && s.Node?
    requires w == (Before(qq) + InOrder(s.left)) + [s.id] + (InOrder(s.right) + After(qq)) && w[0] == s.id
    ensures Before(qq) == [] && s.left == Leaf && w == [s.id] + (InOrder(s.right) + After(qq))
  {
    PathShape(qq);
    InOrderIds(s.left);
    var u := Before(qq) + InOrder(s.left);
    assert s.id in Ids(s);
    HeadIs(u, s.id, InOrder(s.right) + After(qq));
    assert Size(s.left) == 0;
  }

  /** All the two-children case needs to know before it starts writing. */
  ghost predicate TwoPlan(h: Heap, tree: Tree, q: Path, l: Tree, node: nat, r: Tree, qq: Path, next: nat, rr: Tree) {
    && TwoChildren(h, q, l, node, r, qq, next, rr)
    && Order(Relinked(q, l, qq, next), rr) == (Before(q) + InOrder(l)) + (InOrder(r) + After(q))
    && Ids(rr) + PathIds(Relinked(q, l, qq, next)) <= Ids(tree)
    && PathIds(q) + Ids(l) + Ids(r) <= Ids(tree)
    && HtUp(Relinked(q, l, qq, next), Ht(rr) + 1) == Ht(tree) && Root(tree) == Apex(q, node)
    && Apex(Relinked(q, l, qq, next), Root(rr)) == Apex(q, next)
    && Bottom(Relinked(q, l, qq, next), 0) == Bottom(qq, next)
  }

  lemma {:induction false} TwoPlanned(h: Heap, tree: Tree, q: Path, l: Tree, node: nat, r: Tree)
    requires At(h, q, 0, Node(l, node, r)) && Plug(q, Node(l, node, r)) == tree && l.Node? && r.Node?
    ensures InOrder(r) != [] && InOrder(r)[0] in Ids(r)
    ensures var next := InOrder(r)[0]; var focus := Focus(r, next, Top);
      focus.1.Node? && TwoPlan(h, tree, q, l, node, r, focus.0, next, focus.1.right)
  {
    TwoChildrenHold(h, q, l, node, r);
    var next := InOrder(r)[0];
    var (qq, s) := Focus(r, next, Top);
    RelinkedOrder(q, l, qq, next, s.right, r);
    RelinkedShape(q, l, node, r, qq, next, s.right);
    PlugShape(q, Node(l, node, r));
    assert Ids(Node(l, node, r)) == Ids(l) + {node} + Ids(r);
  }

  /** What a deletion from the tree leaves: the tree without the node, mid, and the first orphan in the
      place of its key there, or first in the list still if its search path is as long as the cap. */
  ghost predicate Dropped(h: Heap, s: seq<nat>, o: seq<nat>, node: nat, mid: Tree, cap: nat, s': seq<nat>, o': seq<nat>) {
    && Balanced(mid) && Ht(mid) <= cap && InOrder(mid) == Without(s, node)
    && if o == [] then s' == InOrder(mid) && o' == []
       else
         && 0 < o[0] < |h| && InRange(h, InOrder(mid))
         && if SearchDepth(h, mid, h[o[0]].key) >= cap then s' == InOrder(mid) && o' == o
            else s' == Placed(h, InOrder(mid), o[0]) && o' == o[1..]
  }

  /** What unlinking leaves behind: an AVL tree without the node except that the
      subtree at the end of q has lost a level, with x the place to retrace from. */
  ghost predicate Unlinked(h: Heap, h': Heap, tree: Tree, root: nat, s: seq<nat>, q: Path, t: Tree, x: nat, fromTheLeft: bool) {
    && Shrunk(h', q, t) && root == Apex(q, Root(t)) && Order(q, t) == s
    && x == Bottom(q, 0) && (q.Step? ==> fromTheLeft == q.left)
    && Ids(t) + PathIds(q) <= Ids(tree) && HtUp(q, Ht(t) + 1) == Ht(tree)
    && Rewired(h, h', Ids(tree))
  }

  /** What the second half of the two-children case relies on and leaves behind. */
  lemma {:induction false} MovePlan(h: Heap, h4: Heap, tree: Tree, q: Path, l: Tree, node: nat, r: Tree, qq: Path, next: nat, rr: Tree)
    requires TwoPlan(h, tree, q, l, node, r, qq, next, rr) && Lifted(h, h4, node, r, qq, next, rr)
    ensures 0 < node < |h4| && 0 < next < |h4| && node != next && h4[node].parent == Bottom(q, 0) < |h4|
    ensures h4[node].parent != node && 0 < h4[node].left < |h4|
    ensures Shrunk(Seated(h4, node, next), Relinked(q, l, qq, next), rr)
    ensures Rewired(h, Seated(h4, node, next), Ids(tree))
    ensures Bottom(q, 0) == 0 <==> q.Top?
  {
    UnlinkTwo(h, h4, q, l, node, r, qq, next, rr, Relinked(q, l, qq, next));
    UnlinkTwoFrame(h, h4, q, l, node, r, qq, next, rr);
    TwoChildrenApart(h, q, l, node, r, qq, next, rr);
    TwoChildrenRange(h, q, l, node, r, qq, next, rr);
    LiftedKeeps(h, h4, q, l, node, r, qq, next, rr);
    RewiredWiden(h, Seated(h4, node, next), PathIds(q) + Ids(l) + Ids(r), Ids(tree));
  }

  /** The order without its first or its last element. */
  lemma {:induction false} EndWithout(h: Heap, tree: Tree)
    requires Linked(h, tree, 0)
    ensures var s := InOrder(tree);
      s != [] ==> Without(s, s[0]) == s[1..] && Without(s, s[|s| - 1]) == s[..|s| - 1] && s[0] in s && s[|s| - 1] in s
  {
    var s := InOrder(tree);
    TreeNoDup(h, tree);
    if s != [] {
      var x := s[|s| - 1];
      assert s == s[..|s| - 1] + [x] + [];
      WithoutIs(s[..|s| - 1], x, []);
      assert s[..|s| - 1] + [] == s[..|s| - 1];
    }
  }

  lemma {:induction false} UnlistGood(h: Heap, t: Tree, o: seq<nat>, node: nat, arrival: seq<nat>, clock: nat, c: Cache, first: nat)
    requires Good(h, InOrder(t), o, arrival, clock, c, first) && node in o && Linked(h, t, 0)
    ensures 0 < node < |h| && h[node].prevOrphan < |h| && h[node].nextOrphan < |h|
    ensures node !in InOrder(t) && node !in Without(o, node)
    ensures Linked(OrphanRemoved(h, node), t, 0) && SameKeys(h, OrphanRemoved(h, node))
    ensures Good(OrphanRemoved(h, node), InOrder(t), Without(o, node), arrival, clock, c,
                 if first == node then h[node].nextOrphan else first)
  {
    var a, b := SplitAt(o, node);
    WithoutMembers(o, node);
    NotBoth(h, InOrder(t), o, node);
    AdoptGoodAt(h, o, Without(o, node), a, node, b, InOrder(t), arrival, clock, c, first);
    OrphanLinked(h, OrphanRemoved(h, node), t);
  }

  lemma {:induction false} DroppedMembers(h: Heap, s: seq<nat>, o: seq<nat>, node: nat, mid: Tree, cap: nat,
      s': seq<nat>, o': seq<nat>)
    requires NoDup(s) && node in s && node !in o && Dropped(h, s, o, node, mid, cap, s', o')
    ensures forall x :: x in s' || x in o' <==> (x in s || x in o) && x != node
  {
    WithoutMembers(s, node);
    if o != [] {
      PlacedMembers(h, InOrder(mid), o[0]);
      assert o == [o[0]] + o[1..];
    }
  }
}
