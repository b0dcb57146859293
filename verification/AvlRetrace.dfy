/**
  One step of each retrace loop of lib/avl.bpf.h.  While a retrace is under way the
  array is an AVL tree except that the subtree at the end of the path is one level
  higher (insert) or lower (delete) than the balances above it account for.
 */
module AvlRetrace {
  import opened AvlShape
  import opened AvlHeap
  import opened AvlRotations

  ghost predicate Grown(h: Heap, q: Path, t: Tree) {
    && t.Node? && PathLinked(h, q, 0, t.id, Ht(t) - 1) && Linked(h, t, Bottom(q, 0))
    && Ids(t) !! PathIds(q) && (Ht(t) >= 2 ==> h[t.id].balance != 0)
  }

  ghost predicate Shrunk(h: Heap, q: Path, t: Tree) {
    && PathLinked(h, q, 0, Root(t), Ht(t) + 1) && Linked(h, t, Bottom(q, 0))
    && Ids(t) !! PathIds(q)
  }

  /** The in-order sequence of the whole tree, seen from the end of path q. */
  ghost function Order(q: Path, t: Tree): seq<nat> {
    Before(q) + InOrder(t) + After(q)
  }

  lemma FillOrder(q: Path, t: Tree)
    requires q.Step?
    ensures Order(q.up, Fill(q, t)) == Order(q, t)
  {
    var a, b, m, s := Before(q.up), After(q.up), InOrder(t), InOrder(q.sib);
    if q.left {
      assert a + (m + [q.id] + s) + b == a + m + ([q.id] + s + b);
    } else {
      assert a + (s + [q.id] + m) + b == a + (s + [q.id]) + m + b;
    }
  }

  /** The side test of the loops: is the subtree with root id c x's left child? */
  lemma {:induction false} SideTest(h: Heap, q: Path, base: nat, c: nat, k: nat)
    requires PathLinked(h, q, base, c, k) && q.Step? && c != 0 && c !in PathIds(q)
    ensures (h[q.id].left == c) <==> q.left
  {
    assert q.sib.Node? ==> q.sib.id in Ids(q.sib);
  }

  lemma FillShape(q: Path, t: Tree)
    requires q.Step?
    ensures Ht(Fill(q, t)) == StepHt(q, Ht(t)) && Root(Fill(q, t)) == q.id
    ensures Ids(Fill(q, t)) == Ids(t) + {q.id} + Ids(q.sib)
  {
  }

  /** Correcting the balance of x alone joins t to the last step of the path. */
  lemma {:induction false} Settled(h: Heap, h': Heap, q: Path, t: Tree, k: nat)
    requires q.Step? && PathLinked(h, q, 0, Root(t), k) && Linked(h, t, q.id)
    requires Ids(t) !! PathIds(q)
    requires h' == h[q.id := h[q.id].(balance := if q.left then Ht(q.sib) - Ht(t) else Ht(t) - Ht(q.sib))]
    requires -1 <= Ht(q.sib) - Ht(t) <= 1
    ensures Linked(h', Fill(q, t), Bottom(q.up, 0)) && PathLinked(h', q.up, 0, q.id, StepHt(q, k))
    ensures Ids(Fill(q, t)) !! PathIds(q.up)
    ensures SameNodes(h, h', q, t, Fill(q, t))
  {
    SettledLinked(h, h', q, t, k);
    SettledNodes(h, h', q, t);
  }

  lemma {:induction false} SettledLinked(h: Heap, h': Heap, q: Path, t: Tree, k: nat)
    requires q.Step? && PathLinked(h, q, 0, Root(t), k) && Linked(h, t, q.id)
    requires Ids(t) !! PathIds(q)
    requires h' == h[q.id := h[q.id].(balance := if q.left then Ht(q.sib) - Ht(t) else Ht(t) - Ht(q.sib))]
    requires -1 <= Ht(q.sib) - Ht(t) <= 1
    ensures Linked(h', Fill(q, t), Bottom(q.up, 0)) && PathLinked(h', q.up, 0, q.id, StepHt(q, k))
  {
    LinkedFrame(h, h', q.sib, q.id);
    LinkedFrame(h, h', t, q.id);
    PathFrame(h, h', q.up, 0, q.id, StepHt(q, k));
  }

  lemma {:induction false} SettledNodes(h: Heap, h': Heap, q: Path, t: Tree)
    requires q.Step? && q.id < |h| == |h'| && Ids(t) !! PathIds(q) && q.id !in PathIds(q.up) && Ids(q.sib) !! PathIds(q.up)
    requires h' == h[q.id := h[q.id].(balance := h'[q.id].balance)]
    ensures Ids(Fill(q, t)) !! PathIds(q.up) && SameNodes(h, h', q, t, Fill(q, t))
  {
    FillOrder(q, t);
    FillShape(q, t);
  }

  /** What every step keeps: the order, the nodes, and all else in the array. */
  ghost predicate SameNodes(h: Heap, h': Heap, q: Path, t: Tree, t': Tree)
    requires q.Step?
  {
    && Order(q.up, t') == Order(q, t) && Ids(t') == Ids(t) + {q.id} + Ids(q.sib)
    && Rewired(h, h', Ids(t) + PathIds(q))
  }

  lemma {:induction false} StepFrame(h0: Heap, h: Heap, h': Heap, q: Path, t: Tree, t': Tree, w: set<nat>)
    requires q.Step? && SameNodes(h, h', q, t, t') && Ids(t) + PathIds(q) == w && Rewired(h0, h, w)
    ensures Ids(t') + PathIds(q.up) == w && Rewired(h0, h', w)
  {
    RewiredTwice(h0, h, h', w, w, w);
  }

  lemma {:induction false} RotatedNodes(h: Heap, h': Heap, q: Path, t: Tree, d: bool)
    requires q.Step? && Ids(t) !! PathIds(q)
    requires if d == q.left then t.Node? else q.sib.Node?
    requires Rewired(h, h', Ids(if d == q.left then t else q.sib) + {q.id} + PathIds(q.up))
    ensures var (z, o) := if d == q.left then (t, q.sib) else (q.sib, t);
      && SameNodes(h, h', q, t, RotatedTree(q.id, z, o, d))
      && Ids(RotatedTree(q.id, z, o, d)) == Ids(z) + {q.id} + Ids(o)
  {
    var (z, o) := if d == q.left then (t, q.sib) else (q.sib, t);
    RotatedIds(q.id, z, o, d);
    RotatedOrder(q.id, z, o, d);
    FillOrder(q, t);
    RewiredWiden(h, h', Ids(z) + {q.id} + PathIds(q.up), Ids(t) + PathIds(q));
  }

  // ---------------------------------------------------------------- insert

  /** Either x's subtree has grown too, or the whole tree is an AVL tree again. */
  ghost predicate InsertStepped(h: Heap, h': Heap, q: Path, t: Tree, t': Tree, again: bool)
    requires q.Step? && t.Node?
  {
    && SameNodes(h, h', q, t, t')
    && (if again
        then Grown(h', q.up, t') && Root(t') == q.id && Ht(t') == Ht(t) + 1 == StepHt(q, Ht(t) - 1) + 1
        else At(h', q.up, 0, t') && Ht(t') == StepHt(q, Ht(t) - 1))
  }

  /** Case 3: x was level, so x's subtree has grown too. */
  lemma {:induction false} GrowUp(h: Heap, q: Path, t: Tree)
    requires Grown(h, q, t) && q.Step? && h[q.id].balance == 0
    ensures InsertStepped(h, h[q.id := h[q.id].(balance := if q.left then -1 else 1)], q, t, Fill(q, t), true)
  {
    FillShape(q, t);
    var h' := h[q.id := h[q.id].(balance := if q.left then -1 else 1)];
    LevelGrown(h, q, t);
    Settled(h, h', q, t, Ht(t) - 1);
    InsertGoesOn(h, h', q, t, Fill(q, t), StepHt(q, Ht(t) - 1));
  }

  lemma {:induction false} LevelGrown(h: Heap, q: Path, t: Tree)
    requires Grown(h, q, t) && q.Step? && h[q.id].balance == 0
    ensures Ht(q.sib) == Ht(t) - 1 && Ht(Fill(q, t)) == Ht(t) + 1 == StepHt(q, Ht(t) - 1) + 1
  {
  }

  lemma {:induction false} InsertGoesOn(h: Heap, h': Heap, q: Path, t: Tree, t': Tree, k: nat)
    requires q.Step? && t.Node? && SameNodes(h, h', q, t, t') && Ids(t') !! PathIds(q.up) && Linked(h', t', Bottom(q.up, 0))
    requires t'.Node? && t'.id == q.id && PathLinked(h', q.up, 0, q.id, k) && q.id < |h'| && h'[q.id].balance != 0
    requires Ht(t') == Ht(t) + 1 == StepHt(q, Ht(t) - 1) + 1 && k == Ht(t') - 1
    ensures InsertStepped(h, h', q, t, t', true)
  {
  }

  /** Case 1: x was heavy on the other side, and the growth is absorbed. */
  lemma {:induction false} GrowAbsorb(h: Heap, q: Path, t: Tree)
    requires Grown(h, q, t) && q.Step?
    requires if q.left then h[q.id].balance > 0 else h[q.id].balance < 0
    ensures InsertStepped(h, h[q.id := h[q.id].(balance := 0)], q, t, Fill(q, t), false)
  {
    LightGrown(h, q, t);
    var h' := h[q.id := h[q.id].(balance := 0)];
    Settled(h, h', q, t, Ht(t) - 1);
    InsertSteps(h, h', q, t, Fill(q, t), StepHt(q, Ht(t) - 1));
  }

  lemma {:induction false} LightGrown(h: Heap, q: Path, t: Tree)
    requires Grown(h, q, t) && q.Step?
    requires if q.left then h[q.id].balance > 0 else h[q.id].balance < 0
    ensures Ht(q.sib) == Ht(t) && Ht(Fill(q, t)) == StepHt(q, Ht(t) - 1)
  {
  }

  /** Case 2: x was heavy on the same side; a rotation absorbs the growth. */
  lemma {:induction false} GrowRotate(h: Heap, q: Path, t: Tree)
    requires Grown(h, q, t) && q.Step?
    requires if q.left then h[q.id].balance < 0 else h[q.id].balance > 0
    ensures RotationResult(h, q.id, t, q.sib, q.left)
    ensures InsertStepped(h, RotatedAt(h, q.id, t.id, q.left), q, t, RotatedTree(q.id, t, q.sib, q.left), false)
  {
    GrowTooDeep(h, q, t);
    GrowRotated(h, q, t);
    RotatedHeight(h, q.id, t, q.sib, q.left);
    InsertSteps(h, RotatedAt(h, q.id, t.id, q.left), q, t, RotatedTree(q.id, t, q.sib, q.left), StepHt(q, Ht(t) - 1));
  }

  lemma {:induction false} GrowRotated(h: Heap, q: Path, t: Tree)
    requires Grown(h, q, t) && q.Step? && TooDeep(h, q.id, t, q.sib, q.left)
    ensures RotationResult(h, q.id, t, q.sib, q.left)
    ensures var h', t' := RotatedAt(h, q.id, t.id, q.left), RotatedTree(q.id, t, q.sib, q.left);
      && SameNodes(h, h', q, t, t') && Ids(t') !! PathIds(q.up)
      && Linked(h', t', Bottom(q.up, 0)) && PathLinked(h', q.up, 0, Root(t'), StepHt(q, Ht(t) - 1))
  {
    RotationAt(h, q.up, StepHt(q, Ht(t) - 1), q.id, t, q.sib, q.left);
    RotatedNodes(h, RotatedAt(h, q.id, t.id, q.left), q, t, q.left);
  }

  lemma {:induction false} InsertSteps(h: Heap, h': Heap, q: Path, t: Tree, t': Tree, k: nat)
    requires q.Step? && t.Node? && SameNodes(h, h', q, t, t') && Ids(t') !! PathIds(q.up) && Linked(h', t', Bottom(q.up, 0))
    requires PathLinked(h', q.up, 0, Root(t'), k) && k == Ht(t') == StepHt(q, Ht(t) - 1)
    ensures InsertStepped(h, h', q, t, t', false)
  {
  }

  lemma {:induction false} GrowTooDeep(h: Heap, q: Path, t: Tree)
    requires Grown(h, q, t) && q.Step?
    requires if q.left then h[q.id].balance < 0 else h[q.id].balance > 0
    ensures TooDeep(h, q.id, t, q.sib, q.left) && h[t.id].balance != 0 && Ht(t) == StepHt(q, Ht(t) - 1)
  {
  }

  /** The insert retrace, begun with a new leaf `node` at the end of q0 in array h0,
      has reached (q, t) in array h. */
  ghost predicate Climb(h0: Heap, h: Heap, q0: Path, node: nat, q: Path, t: Tree, again: bool) {
    && Order(q, t) == Before(q0) + [node] + After(q0)
    && Ids(t) + PathIds(q) == {node} + PathIds(q0) && Rewired(h0, h, {node} + PathIds(q0))
    && (if again
        then Grown(h, q, t) && HtUp(q, Ht(t) - 1) == HtUp(q0, 0) && Ht(t) + Len(q) == Len(q0) + 1
        else At(h, q, 0, t) && HtUp(q, Ht(t)) == HtUp(q0, 0))
  }

  lemma ClimbStart(h: Heap, q: Path, node: nat)
    requires Grown(h, q, Node(Leaf, node, Leaf))
    ensures Climb(h, h, q, node, q, Node(Leaf, node, Leaf), true)
  {
    assert InOrder(Node(Leaf, node, Leaf)) == [node];
  }

  lemma {:induction false} ClimbStep(h0: Heap, h: Heap, h': Heap, q0: Path, node: nat, q: Path, t: Tree, t': Tree, again: bool)
    requires Climb(h0, h, q0, node, q, t, true) && q.Step? && InsertStepped(h, h', q, t, t', again)
    ensures Climb(h0, h', q0, node, q.up, t', again)
  {
    StepFrame(h0, h, h', q, t, t', {node} + PathIds(q0));
  }

  lemma {:induction false} ClimbDone(h0: Heap, h: Heap, q0: Path, node: nat, q: Path, t: Tree, again: bool)
    requires Climb(h0, h, q0, node, q, t, again) && (again ==> q.Top?)
    ensures Linked(h, Plug(q, t), 0) && Root(Plug(q, t)) == Apex(q, Root(t))
    ensures InOrder(Plug(q, t)) == Before(q0) + [node] + After(q0)
    ensures Ht(Plug(q, t)) <= Max(HtUp(q0, 0), Len(q0) + 1)
  {
    PlugOrder(q, t);
    PlugShape(q, t);
    PlugLinked(h, q, 0, t);
  }

  // ---------------------------------------------------------------- delete

  /** Either x's subtree has shrunk too, or the whole tree is an AVL tree again. */
  ghost predicate DeleteStepped(h: Heap, h': Heap, q: Path, t: Tree, t': Tree, again: bool)
    requires q.Step?
  {
    && SameNodes(h, h', q, t, t')
    && (if again
        then Shrunk(h', q.up, t') && Ht(t') + 1 == StepHt(q, Ht(t) + 1)
        else At(h', q.up, 0, t') && Ht(t') == StepHt(q, Ht(t) + 1))
  }

  /** Case 1: x was level, so its height does not change. */
  lemma {:induction false} ShrinkAbsorb(h: Heap, q: Path, t: Tree)
    requires Shrunk(h, q, t) && q.Step? && h[q.id].balance == 0
    ensures DeleteStepped(h, h[q.id := h[q.id].(balance := if q.left then 1 else -1)], q, t, Fill(q, t), false)
  {
    LevelSide(h, q, t);
    var h' := h[q.id := h[q.id].(balance := if q.left then 1 else -1)];
    Settled(h, h', q, t, Ht(t) + 1);
    DeleteSteps(h, h', q, t, Fill(q, t), false);
  }

  lemma {:induction false} LevelSide(h: Heap, q: Path, t: Tree)
    requires Shrunk(h, q, t) && q.Step? && h[q.id].balance == 0
    ensures Ht(q.sib) == Ht(t) + 1 && Ht(Fill(q, t)) == StepHt(q, Ht(t) + 1)
  {
  }

  /** x lost height on its heavy side: now level, but its subtree shrank too. */
  lemma {:induction false} ShrinkUp(h: Heap, q: Path, t: Tree)
    requires Shrunk(h, q, t) && q.Step?
    requires if q.left then h[q.id].balance < 0 else h[q.id].balance > 0
    ensures DeleteStepped(h, h[q.id := h[q.id].(balance := 0)], q, t, Fill(q, t), true)
  {
    HeavySide(h, q, t);
    var h' := h[q.id := h[q.id].(balance := 0)];
    Settled(h, h', q, t, Ht(t) + 1);
    DeleteSteps(h, h', q, t, Fill(q, t), true);
  }

  lemma {:induction false} HeavySide(h: Heap, q: Path, t: Tree)
    requires Shrunk(h, q, t) && q.Step?
    requires if q.left then h[q.id].balance < 0 else h[q.id].balance > 0
    ensures Ht(q.sib) == Ht(t) && Ht(Fill(q, t)) + 1 == StepHt(q, Ht(t) + 1)
  {
  }

  lemma {:induction false} ShrinkTooDeep(h: Heap, q: Path, t: Tree)
    requires Shrunk(h, q, t) && q.Step?
    requires if q.left then h[q.id].balance > 0 else h[q.id].balance < 0
    ensures TooDeep(h, q.id, q.sib, t, !q.left) && Ht(q.sib) + 1 == StepHt(q, Ht(t) + 1)
  {
  }

  /** x lost height on its light side: a rotation, which absorbs the loss exactly
      when the sibling was level. */
  lemma {:induction false} ShrinkRotate(h: Heap, q: Path, t: Tree)
    requires Shrunk(h, q, t) && q.Step?
    requires if q.left then h[q.id].balance > 0 else h[q.id].balance < 0
    ensures q.sib.Node? && 0 < q.sib.id < |h| && RotationResult(h, q.id, q.sib, t, !q.left)
    ensures DeleteStepped(h, RotatedAt(h, q.id, q.sib.id, !q.left), q, t,
              RotatedTree(q.id, q.sib, t, !q.left), h[q.sib.id].balance != 0)
  {
    ShrinkTooDeep(h, q, t);
    ShrinkRotated(h, q, t);
    RotatedHeight(h, q.id, q.sib, t, !q.left);
    DeleteSteps(h, RotatedAt(h, q.id, q.sib.id, !q.left), q, t,
      RotatedTree(q.id, q.sib, t, !q.left), h[q.sib.id].balance != 0);
  }

  lemma {:induction false} DeleteSteps(h: Heap, h': Heap, q: Path, t: Tree, t': Tree, again: bool)
    requires q.Step? && SameNodes(h, h', q, t, t') && Ids(t') !! PathIds(q.up) && Linked(h', t', Bottom(q.up, 0))
    requires PathLinked(h', q.up, 0, Root(t'), StepHt(q, Ht(t) + 1))
    requires StepHt(q, Ht(t) + 1) == Ht(t') + if again then 1 else 0
    ensures DeleteStepped(h, h', q, t, t', again)
  {
  }

  lemma {:induction false} ShrinkRotated(h: Heap, q: Path, t: Tree)
    requires Shrunk(h, q, t) && q.Step? && TooDeep(h, q.id, q.sib, t, !q.left)
    ensures q.sib.Node? && 0 < q.sib.id < |h| && RotationResult(h, q.id, q.sib, t, !q.left)
    ensures var h', t' := RotatedAt(h, q.id, q.sib.id, !q.left), RotatedTree(q.id, q.sib, t, !q.left);
      && SameNodes(h, h', q, t, t') && Ids(t') !! PathIds(q.up)
      && Linked(h', t', Bottom(q.up, 0)) && PathLinked(h', q.up, 0, Root(t'), StepHt(q, Ht(t) + 1))
  {
    RotationAt(h, q.up, StepHt(q, Ht(t) + 1), q.id, q.sib, t, !q.left);
    RotatedNodes(h, RotatedAt(h, q.id, q.sib.id, !q.left), q, t, !q.left);
  }

  /** The delete retrace, begun with t0 one level too low at the end of q0 in array
      h0, has reached (q, t) in array h. */
  ghost predicate Sink(h0: Heap, h: Heap, q0: Path, t0: Tree, q: Path, t: Tree, again: bool) {
    && Order(q, t) == Order(q0, t0)
    && Ids(t) + PathIds(q) == Ids(t0) + PathIds(q0) && Rewired(h0, h, Ids(t0) + PathIds(q0))
    && (if again
        then Shrunk(h, q, t) && HtUp(q, Ht(t) + 1) == HtUp(q0, Ht(t0) + 1)
        else At(h, q, 0, t) && HtUp(q, Ht(t)) == HtUp(q0, Ht(t0) + 1))
  }

  lemma {:induction false} SinkGoesOn(h0: Heap, h: Heap, h': Heap, q0: Path, t0: Tree, q: Path, t: Tree, t': Tree)
    requires q.Step? && Order(q, t) == Order(q0, t0) && Ids(t) + PathIds(q) == Ids(t0) + PathIds(q0)
    requires Rewired(h0, h, Ids(t0) + PathIds(q0)) && HtUp(q, Ht(t) + 1) == HtUp(q0, Ht(t0) + 1)
    requires DeleteStepped(h, h', q, t, t', true)
    ensures Sink(h0, h', q0, t0, q.up, t', true)
  {
    StepFrame(h0, h, h', q, t, t', Ids(t0) + PathIds(q0));
    SunkHeight(q, Ht(t) + 1, HtUp(q0, Ht(t0) + 1));
  }

  lemma {:induction false} SinkStops(h0: Heap, h: Heap, h': Heap, q0: Path, t0: Tree, q: Path, t: Tree, t': Tree)
    requires q.Step? && Order(q, t) == Order(q0, t0) && Ids(t) + PathIds(q) == Ids(t0) + PathIds(q0)
    requires Rewired(h0, h, Ids(t0) + PathIds(q0)) && HtUp(q, Ht(t) + 1) == HtUp(q0, Ht(t0) + 1)
    requires DeleteStepped(h, h', q, t, t', false)
    ensures Sink(h0, h', q0, t0, q.up, t', false)
  {
    StepFrame(h0, h, h', q, t, t', Ids(t0) + PathIds(q0));
    SunkHeight(q, Ht(t) + 1, HtUp(q0, Ht(t0) + 1));
  }

  lemma {:induction false} SinkStep(h0: Heap, h: Heap, h': Heap, q0: Path, t0: Tree, q: Path, t: Tree, t': Tree, again: bool)
    requires Sink(h0, h, q0, t0, q, t, true) && q.Step? && DeleteStepped(h, h', q, t, t', again)
    ensures Sink(h0, h', q0, t0, q.up, t', again)
  {
    if again {
      SinkGoesOn(h0, h, h', q0, t0, q, t, t');
    } else {
      SinkStops(h0, h, h', q0, t0, q, t, t');
    }
  }

  lemma {:induction false} SunkHeight(q: Path, k: nat, total: nat)
    requires q.Step? && HtUp(q, k) == total
    ensures HtUp(q.up, StepHt(q, k)) == total
  {
  }

  lemma {:induction false} SinkDone(h0: Heap, h: Heap, q0: Path, t0: Tree, q: Path, t: Tree, again: bool)
    requires Sink(h0, h, q0, t0, q, t, again) && (again ==> q.Top?)
    ensures Linked(h, Plug(q, t), 0) && Root(Plug(q, t)) == Apex(q, Root(t))
    ensures InOrder(Plug(q, t)) == Order(q0, t0)
    ensures Ht(Plug(q, t)) <= HtUp(q0, Ht(t0) + 1)
  {
    PlugOrder(q, t);
    PlugShape(q, t);
    PlugLinked(h, q, 0, t);
  }
}
