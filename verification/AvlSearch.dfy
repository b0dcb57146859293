/**
  Facts about in-order sequences that the search loops of lib/avl.bpf.h rely on.
 */
module AvlSearch {
  import opened AvlShape
  import opened AvlHeap
  import opened AvlOrder

  /** The number of nodes on the search path for a key. */
  ghost function SearchDepth(h: Heap, t: Tree, key: nat): nat {
    if t.Leaf? || t.id >= |h| then 0
    else 1 + SearchDepth(h, Child(t, key < h[t.id].key), key)
  }

  lemma {:induction false} SearchDepthBound(h: Heap, t: Tree, key: nat)
    ensures SearchDepth(h, t, key) <= Ht(t)
    decreases t
  {
    if t.Node? && t.id < |h| { SearchDepthBound(h, Child(t, key < h[t.id].key), key); }
  }

  /** An element in the middle of an ordered sequence splits it by key. */
  lemma SplitOrdered(h: Heap, arrival: seq<nat>, u: seq<nat>, m: nat, v: seq<nat>)
    requires |h| == |arrival| && InRange(h, u + [m] + v) && Ordered(h, arrival, u + [m] + v)
    ensures 0 < m < |h| && InRange(h, u) && InRange(h, v)
    ensures forall i :: 0 <= i < |u| ==> h[u[i]].key <= h[m].key
    ensures forall i :: 0 <= i < |v| ==> h[m].key <= h[v[i]].key
  {
    var s := u + [m] + v;
    assert s[|u|] == m;
    forall i | 0 <= i < |u| ensures 0 < u[i] < |h| && h[u[i]].key <= h[m].key {
      assert s[i] == u[i] && Precedes(h, arrival, s[i], s[|u|]);
    }
    forall i | 0 <= i < |v| ensures 0 < v[i] < |h| && h[m].key <= h[v[i]].key {
      assert s[|u| + 1 + i] == v[i] && Precedes(h, arrival, s[|u|], s[|u| + 1 + i]);
    }
  }

  /** The whole order seen from a node t at the end of path q. */
  lemma {:induction false} NodeOrder(q: Path, t: Tree)
    requires t.Node?
    ensures InOrder(Plug(q, t)) == (Before(q) + InOrder(t.left)) + [t.id] + (InOrder(t.right) + After(q))
  {
    PlugOrder(q, t);
    var a, b, c, e := Before(q), InOrder(t.left), InOrder(t.right), After(q);
    assert a + (b + [t.id] + c) + e == (a + b) + [t.id] + (c + e);
  }

  lemma {:induction false} DownOrder(q: Path, t: Tree, left: bool)
    requires t.Node?
    ensures var q' := Down(q, t, left);
      && Before(q') == (if left then Before(q) else Before(q) + InOrder(t.left) + [t.id])
      && After(q') == (if left then [t.id] + (InOrder(t.right) + After(q)) else After(q))
  {
    var a, b, c, e := Before(q), InOrder(t.left), InOrder(t.right), After(q);
    assert [t.id] + c + e == [t.id] + (c + e);
    assert a + (b + [t.id]) == a + b + [t.id];
  }

  /** Everything left of the hole has a key at most k, everything right of it more. */
  ghost predicate Splits(h: Heap, q: Path, k: nat) {
    && InRange(h, Before(q)) && InRange(h, After(q))
    && AllAtMost(h, Before(q), k) && AllAbove(h, After(q), k)
  }

  /** The insert search step keeps the hole where the new key belongs. */
  lemma {:induction false} SplitsDown(h: Heap, arrival: seq<nat>, q: Path, t: Tree, k: nat)
    requires t.Node? && |h| == |arrival|
    requires InRange(h, InOrder(Plug(q, t))) && Ordered(h, arrival, InOrder(Plug(q, t)))
    requires Splits(h, q, k)
    ensures t.id < |h| && Splits(h, Down(q, t, k < h[t.id].key), k)
  {
    NodeOrder(q, t);
    var u, v := Before(q) + InOrder(t.left), InOrder(t.right) + After(q);
    SplitSides(h, arrival, u, t.id, v, k);
    DownOrder(q, t, k < h[t.id].key);
  }

  /** The element m between u and v, and the ones beyond it, are on the right side of k. */
  lemma SplitSides(h: Heap, arrival: seq<nat>, u: seq<nat>, m: nat, v: seq<nat>, k: nat)
    requires |h| == |arrival| && InRange(h, u + [m] + v) && Ordered(h, arrival, u + [m] + v)
    ensures 0 < m < |h| && InRange(h, [m] + v) && InRange(h, u + [m])
    ensures if k < h[m].key then AllAbove(h, [m] + v, k) else AllAtMost(h, u + [m], k)
  {
    SplitOrdered(h, arrival, u, m, v);
  }

  /** The search path for a key leads through every hole where the key belongs. */
  lemma {:induction false} SearchDepthIs(h: Heap, q: Path, t: Tree, k: nat)
    requires Splits(h, q, k)
    ensures SearchDepth(h, Plug(q, t), k) == Len(q) + SearchDepth(h, t, k)
    decreases q
  {
    if q.Step? {
      var up := q.up;
      assert Before(q)[..|Before(up)|] == Before(up) && After(q)[|After(q)| - |After(up)|..] == After(up);
      if q.left {
        assert After(q)[0] == q.id;
      } else {
        assert Before(q)[|Before(q)| - 1] == q.id;
      }
      SearchDepthIs(h, up, Fill(q, t), k);
    }
  }

  /** An ordered tree has such a hole at the end of the search path. */
  lemma {:induction false} SearchHole(h: Heap, arrival: seq<nat>, q: Path, t: Tree, k: nat) returns (hole: Path)
    requires |h| == |arrival| && InRange(h, InOrder(Plug(q, t))) && Ordered(h, arrival, InOrder(Plug(q, t)))
    requires Splits(h, q, k)
    ensures Plug(hole, Leaf) == Plug(q, t) && Splits(h, hole, k) && SearchDepth(h, Plug(q, t), k) == Len(hole)
    decreases t
  {
    hole := q;
    if t.Node? {
      SplitsDown(h, arrival, q, t, k);
      hole := SearchHole(h, arrival, Down(q, t, k < h[t.id].key), Child(t, k < h[t.id].key), k);
    } else {
      SearchDepthIs(h, q, t, k);
    }
  }

  /** Nothing outside the hole has key k. */
  ghost predicate Excludes(h: Heap, q: Path, k: nat) {
    && (forall i :: i in Before(q) && i < |h| ==> h[i].key != k)
    && (forall i :: i in After(q) && i < |h| ==> h[i].key != k)
  }

  /** The lookup step discards only nodes with other keys. */
  lemma {:induction false} ExcludesDown(h: Heap, arrival: seq<nat>, q: Path, t: Tree, k: nat)
    requires t.Node? && |h| == |arrival|
    requires InRange(h, InOrder(Plug(q, t))) && Ordered(h, arrival, InOrder(Plug(q, t)))
    requires Excludes(h, q, k) && t.id < |h| && h[t.id].key != k
    ensures Excludes(h, Down(q, t, k < h[t.id].key), k)
  {
    NodeOrder(q, t);
    SplitOrdered(h, arrival, Before(q) + InOrder(t.left), t.id, InOrder(t.right) + After(q));
    DownOrder(q, t, k < h[t.id].key);
  }

  // ---------------------------------------------------------------- neighbours

  /** The element after x in s, or 0. */
  function Succ(s: seq<nat>, x: nat): nat {
    if |s| < 2 then 0 else if s[0] == x then s[1] else Succ(s[1..], x)
  }

  /** The element before x in s, or 0. */
  function Pred(s: seq<nat>, x: nat): nat {
    if |s| < 2 then 0 else if s[1] == x then s[0] else Pred(s[1..], x)
  }

  lemma {:induction false} SuccIs(a: seq<nat>, x: nat, b: seq<nat>)
    requires x !in a
    ensures Succ(a + [x] + b, x) == if b == [] then 0 else b[0]
    decreases a
  {
    var s := a + [x] + b;
    if a == [] {
      assert s == [x] + b;
    } else {
      assert s[0] == a[0] && s[1..] == a[1..] + [x] + b;
      SuccIs(a[1..], x, b);
    }
  }

  lemma {:induction false} PredIs(a: seq<nat>, x: nat, b: seq<nat>)
    requires x !in a && x !in b
    ensures Pred(a + [x] + b, x) == if a == [] then 0 else a[|a| - 1]
    decreases |a| + |b|
  {
    var s := a + [x] + b;
    if a == [] {
      if b != [] {
        assert s[1..] == b;
        PredAbsent(b, x);
      }
    } else if |a| == 1 {
      assert s[1] == x;
    } else {
      assert s[1] == a[1] && s[1..] == a[1..] + [x] + b;
      PredIs(a[1..], x, b);
    }
  }

  lemma {:induction false} PredAbsent(s: seq<nat>, x: nat)
    requires x !in s
    ensures Pred(s, x) == 0
  {
    if |s| >= 2 { PredAbsent(s[1..], x); }
  }

  /** x splits the in-order sequence of the tree it is focused in. */
  lemma {:induction false} FocusOrder(h: Heap, tree: Tree, x: nat)
    requires x in Ids(tree) && Linked(h, tree, 0)
    ensures var (q, t) := Focus(tree, x, Top);
      && At(h, q, 0, t) && t.Node? && t.id == x && Plug(q, t) == tree && Len(q) + Ht(t) <= Ht(tree)
      && var u, v := Before(q) + InOrder(t.left), InOrder(t.right) + After(q);
        InOrder(tree) == u + [x] + v && x !in u && x !in v
  {
    FocusAt(h, tree, x, Top, 0);
    var (q, t) := Focus(tree, x, Top);
    NodeOrder(q, t);
    PlugShape(q, t);
    HtUpBounds(q, Ht(t));
    AtApart(h, q, t);
  }

  lemma {:induction false} AtApart(h: Heap, q: Path, t: Tree)
    requires At(h, q, 0, t) && t.Node?
    ensures t.id !in Before(q) + InOrder(t.left) && t.id !in InOrder(t.right) + After(q)
  {
    PathShape(q);
    InOrderIds(t.left);
    InOrderIds(t.right);
    assert t.id in Ids(t);
  }

  /** Where the successor of x is, as __avl_next_node looks for it. */
  lemma {:induction false} NextIs(h: Heap, tree: Tree, x: nat)
    requires x in Ids(tree) && Linked(h, tree, 0)
    ensures var (q, t) := Focus(tree, x, Top);
      && At(h, q, 0, t) && t.Node? && t.id == x && Len(q) + Ht(t) <= Ht(tree)
      && x !in PathIds(q) && 0 < x < |h| && Linked(h, t.right, x)
      && h[x].right == Root(t.right) && (t.right.Node? <==> h[x].right != 0)
      && Succ(InOrder(tree), x) ==
           if t.right.Node? then InOrder(t.right)[0] else if After(q) == [] then 0 else After(q)[0]
  {
    FocusOrder(h, tree, x);
    var (q, t) := Focus(tree, x, Top);
    SuccIs(Before(q) + InOrder(t.left), x, InOrder(t.right) + After(q));
    assert t.right.Leaf? ==> InOrder(t.right) + After(q) == After(q);
    assert x in Ids(t) && Linked(h, t.right, x);
  }

  /** Where the predecessor of x is, as __avl_prev_node looks for it. */
  lemma {:induction false} PrevIs(h: Heap, tree: Tree, x: nat)
    requires x in Ids(tree) && Linked(h, tree, 0)
    ensures var (q, t) := Focus(tree, x, Top);
      && At(h, q, 0, t) && t.Node? && t.id == x && Len(q) + Ht(t) <= Ht(tree)
      && x !in PathIds(q) && 0 < x < |h| && Linked(h, t.left, x)
      && h[x].left == Root(t.left) && (t.left.Node? <==> h[x].left != 0)
      && Pred(InOrder(tree), x) ==
           if t.left.Node? then InOrder(t.left)[|InOrder(t.left)| - 1]
           else if Before(q) == [] then 0 else Before(q)[|Before(q)| - 1]
  {
    FocusOrder(h, tree, x);
    var (q, t) := Focus(tree, x, Top);
    PredIs(Before(q) + InOrder(t.left), x, InOrder(t.right) + After(q));
    assert t.left.Leaf? ==> Before(q) + InOrder(t.left) == Before(q);
    assert x in Ids(t) && Linked(h, t.left, x);
  }
}
