/**
  The shape of an AVL tree whose nodes are named by array ids, and the one-hole
  context ("path") that the search and retrace loops of lib/avl.bpf.h walk along.
  Nothing in this module mentions the array: it is the mathematics that the
  array representation is tied to in AvlHeap.
 */
module AvlShape {

  datatype Tree = Leaf | Node(left: Tree, id: nat, right: Tree)

  function Max(a: int, b: int): int { if a < b then b else a }

  function Ht(t: Tree): nat {
    match t
    case Leaf => 0
    case Node(l, _, r) => 1 + Max(Ht(l), Ht(r))
  }

  function Size(t: Tree): nat {
    match t
    case Leaf => 0
    case Node(l, _, r) => Size(l) + 1 + Size(r)
  }

  /** The id stored in a child slot: 0 means "no child". */
  function Root(t: Tree): nat {
    match t
    case Leaf => 0
    case Node(_, id, _) => id
  }

  /** The "horizontal order" of the nodes. */
  function InOrder(t: Tree): seq<nat> {
    match t
    case Leaf => []
    case Node(l, id, r) => InOrder(l) + [id] + InOrder(r)
  }

  function Ids(t: Tree): set<nat> {
    match t
    case Leaf => {}
    case Node(l, id, r) => Ids(l) + {id} + Ids(r)
  }

  ghost predicate Distinct(t: Tree) {
    match t
    case Leaf => true
    case Node(l, id, r) =>
      && id !in Ids(l) && id !in Ids(r) && Ids(l) !! Ids(r)
      && Distinct(l) && Distinct(r)
  }

  ghost predicate Balanced(t: Tree) {
    match t
    case Leaf => true
    case Node(l, _, r) => -1 <= Ht(r) - Ht(l) <= 1 && Balanced(l) && Balanced(r)
  }

  // ---------------------------------------------------------------- paths

  /** A tree with a hole.  In Step(up, x, sib, left) the hole is x's left child if
      left, else x's right child; sib is x's other subtree. */
  datatype Path = Top | Step(up: Path, id: nat, sib: Tree, left: bool)

  /** The subtree at the last step of the path once the hole is filled. */
  function Fill(p: Path, t: Tree): Tree
    requires p.Step?
  {
    if p.left then Node(t, p.id, p.sib) else Node(p.sib, p.id, t)
  }

  function Plug(p: Path, t: Tree): Tree {
    if p.Top? then t else Plug(p.up, Fill(p, t))
  }

  /** The ids left of the hole, in order. */
  function Before(p: Path): seq<nat> {
    if p.Top? then []
    else if p.left then Before(p.up)
    else Before(p.up) + (InOrder(p.sib) + [p.id])
  }

  /** The ids right of the hole, in order. */
  function After(p: Path): seq<nat> {
    if p.Top? then []
    else if p.left then ([p.id] + InOrder(p.sib)) + After(p.up)
    else After(p.up)
  }

  function PathIds(p: Path): set<nat> {
    if p.Top? then {} else PathIds(p.up) + {p.id} + Ids(p.sib)
  }

  function Len(p: Path): nat {
    if p.Top? then 0 else 1 + Len(p.up)
  }

  /** The height of the subtree at the last step when the hole has height k. */
  function StepHt(p: Path, k: nat): nat
    requires p.Step?
  {
    1 + Max(k, Ht(p.sib))
  }

  /** The height of the whole tree when the hole has height k. */
  function HtUp(p: Path, k: nat): nat {
    if p.Top? then k else HtUp(p.up, StepHt(p, k))
  }

  /** The parent id of whatever fills the hole; base is the parent above Top. */
  function Bottom(p: Path, base: nat): nat {
    if p.Top? then base else p.id
  }

  /** The root id of the whole tree when the hole holds root id c. */
  function Apex(p: Path, c: nat): nat {
    if p.Top? then c else Apex(p.up, p.id)
  }

  /** Path q continued by the path r above it. */
  function Append(q: Path, r: Path): Path {
    if q.Top? then r else q.(up := Append(q.up, r))
  }

  lemma {:induction false} PlugOrder(p: Path, t: Tree)
    ensures InOrder(Plug(p, t)) == Before(p) + InOrder(t) + After(p)
    decreases p
  {
    if p.Step? {
      PlugOrder(p.up, Fill(p, t));
      var a, b, m, s := Before(p.up), After(p.up), InOrder(t), InOrder(p.sib);
      if p.left {
        assert a + (m + [p.id] + s) + b == a + m + ([p.id] + s + b);
      } else {
        assert a + (s + [p.id] + m) + b == a + (s + [p.id]) + m + b;
      }
    }
  }

  lemma {:induction false} PlugShape(p: Path, t: Tree)
    ensures Ids(Plug(p, t)) == PathIds(p) + Ids(t)
    ensures Ht(Plug(p, t)) == HtUp(p, Ht(t))
    ensures Root(Plug(p, t)) == Apex(p, Root(t))
    decreases p
  {
    if p.Step? { PlugShape(p.up, Fill(p, t)); }
  }

  lemma {:induction false} PathShape(p: Path)
    ensures forall i :: i in PathIds(p) <==> i in Before(p) || i in After(p)
    decreases p
  {
    if p.Step? {
      PathShape(p.up);
      InOrderIds(p.sib);
    }
  }

  lemma {:induction false} HtUpBounds(p: Path, k: nat)
    ensures HtUp(p, k) >= k + Len(p)
    ensures HtUp(p, k) <= HtUp(p, k + 1) <= HtUp(p, k) + 1
    decreases p
  {
    if p.Step? { HtUpBounds(p.up, StepHt(p, k)); }
  }

  lemma {:induction false} AppendIds(q: Path, r: Path, base: nat)
    ensures PathIds(Append(q, r)) == PathIds(q) + PathIds(r)
    ensures Bottom(Append(q, r), base) == Bottom(q, Bottom(r, base))
    ensures Len(Append(q, r)) == Len(q) + Len(r)
    decreases q
  {
    if q.Step? { AppendIds(q.up, r, base); }
  }

  lemma {:induction false} AppendShape(q: Path, r: Path, t: Tree, c: nat, k: nat)
    ensures Plug(Append(q, r), t) == Plug(r, Plug(q, t))
    ensures Apex(Append(q, r), c) == Apex(r, Apex(q, c))
    ensures HtUp(Append(q, r), k) == HtUp(r, HtUp(q, k))
    decreases q
  {
    if q.Step? { AppendShape(q.up, r, Fill(q, t), q.id, StepHt(q, k)); }
  }

  lemma {:induction false} AppendOrder(q: Path, r: Path)
    ensures Before(Append(q, r)) == Before(r) + Before(q)
    ensures After(Append(q, r)) == After(q) + After(r)
    decreases q
  {
    if q.Step? { AppendOrder(q.up, r); }
  }

  // ---------------------------------------------------------------- ids

  lemma {:induction false} InOrderIds(t: Tree)
    ensures forall i :: i in Ids(t) <==> i in InOrder(t)
    ensures |InOrder(t)| == Size(t)
    decreases t
  {
    match t
    case Leaf =>
    case Node(l, id, r) =>
      InOrderIds(l);
      InOrderIds(r);
  }

  ghost predicate NoDup(s: seq<nat>) {
    forall i, j :: 0 <= i < j < |s| ==> s[i] != s[j]
  }

  lemma {:induction false} DistinctNoDup(t: Tree)
    requires Distinct(t)
    ensures NoDup(InOrder(t))
    decreases t
  {
    match t
    case Leaf =>
    case Node(l, id, r) =>
      DistinctNoDup(l);
      DistinctNoDup(r);
      InOrderIds(l);
      InOrderIds(r);
      var a, b := InOrder(l), InOrder(r);
      forall i, j | 0 <= i < j < |a + [id] + b| ensures (a + [id] + b)[i] != (a + [id] + b)[j] {
        if i < |a| { assert (a + [id] + b)[i] in a; }
        if j > |a| { assert (a + [id] + b)[j] == b[j - |a| - 1]; }
        if i > |a| { assert (a + [id] + b)[i] == b[i - |a| - 1]; }
      }
  }

  lemma {:induction false} SizeIsCard(t: Tree)
    requires Distinct(t)
    ensures |Ids(t)| == Size(t)
    decreases t
  {
    match t
    case Leaf =>
    case Node(l, id, r) =>
      SizeIsCard(l);
      SizeIsCard(r);
      assert Ids(t) == Ids(l) + {id} + Ids(r);
  }

  // ---------------------------------------------------------------- Fibonacci

  function Fib(n: nat): nat { if n < 2 then n else Fib(n - 1) + Fib(n - 2) }

  lemma {:induction false} FibMonotone(m: nat, n: nat)
    requires m <= n
    ensures Fib(m) <= Fib(n)
    decreases n - m
  {
    if m < n {
      FibMonotone(m + 1, n);
      assert m >= 1 ==> Fib(m + 1) == Fib(m) + Fib(m - 1);
    }
  }

  /** A balanced tree of height h has at least Fib(h + 2) - 1 nodes. */
  lemma {:induction false} AvlMinimumSize(t: Tree)
    requires Balanced(t)
    ensures Size(t) >= Fib(Ht(t) + 2) - 1
    decreases t
  {
    match t
    case Leaf =>
    case Node(l, id, r) =>
      AvlMinimumSize(l);
      AvlMinimumSize(r);
      var h := Ht(t);
      assert Fib(h + 2) == Fib(h + 1) + Fib(h);
      FibMonotone(h + 1, Max(Ht(l), Ht(r)) + 2);
      FibMonotone(h, Ht(l) + 2);
      FibMonotone(h, Ht(r) + 2);
  }

  lemma FibTwentyFive()
    ensures Fib(25) == 75025
  {
    assert Fib(5) == 5 && Fib(6) == 8;
    assert Fib(9) == 34 && Fib(10) == 55;
    assert Fib(13) == 233 && Fib(14) == 377;
    assert Fib(17) == 1597 && Fib(18) == 2584;
    assert Fib(21) == 10946 && Fib(22) == 17711;
  }

  lemma {:induction false} CardBound(s: set<nat>, n: nat)
    requires forall i :: i in s ==> 0 < i <= n
    ensures |s| <= n
  {
    if n == 0 {
      assert s == {};
    } else {
      CardBound(s - {n}, n - 1);
      assert s <= (s - {n}) + {n};
      assert n !in s ==> s == s - {n};
    }
  }

  /** The height of a balanced tree with fewer than 65536 nodes is at most 22. */
  lemma SmallMeansShallow(t: Tree)
    requires Balanced(t) && Size(t) < 65536
    ensures Ht(t) <= 22
  {
    AvlMinimumSize(t);
    FewMeansShallow(Ht(t), Size(t));
  }

  lemma FewMeansShallow(h: nat, size: nat)
    requires Fib(h + 2) - 1 <= size < 65536
    ensures h <= 22
  {
    FibTwentyFive();
    if h >= 23 { FibMonotone(25, h + 2); }
  }

  /** "64k threads fit in height 23": while some id of an array of at most 65536
      elements is outside the tree, the tree has a free level below the cap. */
  lemma SixtyFourKLeavesRoom(t: Tree, n: nat, absent: nat)
    requires Balanced(t) && Distinct(t) && n <= 65536
    requires forall i :: i in Ids(t) ==> 0 < i <= n
    requires 0 < absent <= n && absent !in Ids(t)
    ensures Ht(t) <= 22
  {
    SizeIsCard(t);
    CardBound(Ids(t) + {absent}, n);
    SmallMeansShallow(t);
  }
}
