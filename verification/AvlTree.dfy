/**
  lib/avl.bpf.h as a class: an array of node records, rewritten in place, plus the
  fields of struct avl_tree.  The ghost fields say which tree and which orphan list
  the records represent.
 */
module AvlTrees {
  import opened AvlShape
  import opened AvlHeap
  import opened AvlRotations
  import opened AvlRetrace
  import opened AvlUnlink
  import opened AvlUpdate
  import opened AvlOrder
  import opened AvlSearch

  class AvlTree {
    const nodes: array<AvlNode>
    const maxHeight: nat
    var root: nat
    var minId: nat
    var minKey: nat
    var maxId: nat
    var maxKey: nat
    var firstOrphan: nat

    ghost var tree: Tree           // the tree the records represent
    ghost var orphans: seq<nat>    // the orphan list, first to last
    ghost var arrival: seq<nat>    // when each element last entered the tree
    ghost var clock: nat

    /** Links, parents and balances are exact, and no search can run out of
        iterations. */
    ghost predicate Shaped()
      reads this, nodes
    {
      && nodes.Length > 0 && maxHeight >= 1
      && Linked(nodes[..], tree, 0) && root == Root(tree) && Ht(tree) <= maxHeight
    }

    function Ends(): Cache
      reads this
    {
      Cache(minId, minKey, maxId, maxKey)
    }

    /** The tree is sorted by key and, among equal keys, by arrival; the cached ends
        are its ends; the orphan list is well linked; the flags agree with both. */
    ghost predicate Valid()
      reads this, nodes
    {
      Shaped() && Good(nodes[..], InOrder(tree), orphans, arrival, clock, Ends(), firstOrphan)
    }

    /** The elements that have been inserted and not deleted. */
    ghost predicate Has(x: nat)
      reads this
    {
      x in InOrder(tree) || x in orphans
    }

    /** avl_tree_init, on an array whose contents do not matter. */
    constructor (arr: array<AvlNode>, cap: nat)
      requires arr.Length > 0 && cap >= 1
      ensures Valid() && tree == Leaf && orphans == [] && nodes == arr && maxHeight == cap
    {
      nodes, maxHeight := arr, cap;
      root, minId, minKey, maxId, maxKey, firstOrphan := 0, 0, 0, 0, 0, 0;
      tree, orphans, arrival, clock := Leaf, [], seq(arr.Length, i => 0), 0;
    }

    // ---------------------------------------------------------------- writes

    method Put(id: nat, n: AvlNode)
      requires id < nodes.Length
      modifies nodes
      ensures nodes[..] == old(nodes[..])[id := n]
    {
      nodes[id] := n;
    }

    // ---------------------------------------------------------------- rotations

    /** __avl_rotate_left */
    method RotateLeft(x: nat, z: nat) returns (str: nat)
      requires x < nodes.Length && z < nodes.Length && nodes[z].left < nodes.Length && x != z
      modifies nodes
      ensures str == z && nodes[..] == SingleRotated(old(nodes[..]), x, z, false)
    {
      var t23, level := nodes[z].left, nodes[z].balance == 0;
      Put(x, nodes[x].(right := t23, parent := z, balance := if level then 1 else 0));
      if t23 != 0 {
        Put(t23, nodes[t23].(parent := x));
      }
      Put(z, nodes[z].(left := x, balance := if level then -1 else 0));
      return z;
    }

    /** __avl_rotate_right */
    method RotateRight(x: nat, z: nat) returns (str: nat)
      requires x < nodes.Length && z < nodes.Length && nodes[z].right < nodes.Length && x != z
      modifies nodes
      ensures str == z && nodes[..] == SingleRotated(old(nodes[..]), x, z, true)
    {
      var t23, level := nodes[z].right, nodes[z].balance == 0;
      Put(x, nodes[x].(left := t23, parent := z, balance := if level then -1 else 0));
      if t23 != 0 {
        Put(t23, nodes[t23].(parent := x));
      }
      Put(z, nodes[z].(right := x, balance := if level then 1 else 0));
      return z;
    }

    /** __avl_rotate_right_left.  The source returns x when y is missing; that
        cannot happen when z is left heavy, which the callers establish. */
    method RotateRightLeft(x: nat, z: nat) returns (str: nat)
      requires x < nodes.Length && z < nodes.Length && x != z
      requires 0 < nodes[z].left < nodes.Length && nodes[z].left != x && nodes[z].left != z
      requires nodes[nodes[z].left].left < nodes.Length && nodes[nodes[z].left].right < nodes.Length
      modifies nodes
      ensures str == old(nodes[z].left) && nodes[..] == DoubleRotated(old(nodes[..]), x, str, z, false)
    {
      var y := nodes[z].left;
      var t2, t3, b := nodes[y].left, nodes[y].right, nodes[y].balance;
      Put(y, nodes[y].(left := x, right := z, balance := 0));
      Put(x, nodes[x].(parent := y, right := t2, balance := if b > 0 then -1 else 0));
      if t2 != 0 {
        Put(t2, nodes[t2].(parent := x));
      }
      Put(z, nodes[z].(parent := y, left := t3, balance := if b < 0 then 1 else 0));
      if t3 != 0 {
        Put(t3, nodes[t3].(parent := z));
      }
      return y;
    }

    /** __avl_rotate_left_right */
    method RotateLeftRight(x: nat, z: nat) returns (str: nat)
      requires x < nodes.Length && z < nodes.Length && x != z
      requires 0 < nodes[z].right < nodes.Length && nodes[z].right != x && nodes[z].right != z
      requires nodes[nodes[z].right].left < nodes.Length && nodes[nodes[z].right].right < nodes.Length
      modifies nodes
      ensures str == old(nodes[z].right) && nodes[..] == DoubleRotated(old(nodes[..]), x, str, z, true)
    {
      var y := nodes[z].right;
      var t2, t3, b := nodes[y].left, nodes[y].right, nodes[y].balance;
      Put(y, nodes[y].(left := z, right := x, balance := 0));
      Put(x, nodes[x].(parent := y, left := t3, balance := if b < 0 then 1 else 0));
      if t3 != 0 {
        Put(t3, nodes[t3].(parent := x));
      }
      Put(z, nodes[z].(parent := y, right := t2, balance := if b > 0 then -1 else 0));
      if t2 != 0 {
        Put(t2, nodes[t2].(parent := z));
      }
      return y;
    }

    /** The choice between the four rotations, made alike in both retraces. */
    method Rotate(x: nat, z: nat, left: bool) returns (str: nat)
      requires Rotatable(nodes[..], x, z, left)
      modifies nodes
      ensures str == if Single(old(nodes[z].balance), left) then z else old(ChildId(nodes[z], !left))
      ensures nodes[..] == Rotated(old(nodes[..]), x, z, left)
    {
      if left {
        if nodes[z].balance <= 0 {
          str := RotateRight(x, z);
        } else {
          str := RotateLeftRight(x, z);
        }
      } else {
        if nodes[z].balance >= 0 {
          str := RotateLeft(x, z);
        } else {
          str := RotateRightLeft(x, z);
        }
      }
    }

    /** A rotation at x followed by reconnecting the subtree's new root to x's old
        parent, or to the tree's root field. */
    method RotateAt(x: nat, z: nat, left: bool) returns (str: nat)
      requires Rotatable(nodes[..], x, z, left) && nodes[x].parent < nodes.Length
      modifies this`root, nodes
      ensures str == if Single(old(nodes[z].balance), left) then z else old(ChildId(nodes[z], !left))
      ensures nodes[..] == RotatedAt(old(nodes[..]), x, z, left)
      ensures root == if old(nodes[x].parent) == 0 then str else old(root)
    {
      var xParent := nodes[x].parent;
      str := Rotate(x, z, left);
      Put(str, nodes[str].(parent := xParent));
      if xParent == 0 {
        root := str;
      } else if nodes[xParent].left == x {
        Put(xParent, nodes[xParent].(left := str));
      } else {
        Put(xParent, nodes[xParent].(right := str));
      }
    }

    // ---------------------------------------------------------------- retraces

    /** One iteration of the insert retrace, at x, the last step of path q. */
    method InsertStep(z: nat, x: nat, ghost q: Path, ghost t: Tree)
      returns (again: bool, ghost t': Tree)
      requires Grown(nodes[..], q, t) && q.Step? && z == t.id && x == q.id && root == Apex(q, z)
      modifies this`root, nodes
      ensures InsertStepped(old(nodes[..]), nodes[..], q, t, t', again)
      ensures root == Apex(q.up, Root(t'))
    {
      ghost var h := nodes[..];
      SideTest(h, q, 0, z, Ht(t) - 1);
      var left := nodes[x].left == z;
      if nodes[x].balance == 0 {
        GrowUp(h, q, t);
        Put(x, nodes[x].(balance := if left then -1 else 1));
        again, t' := true, Fill(q, t);
      } else if (left && nodes[x].balance > 0) || (!left && nodes[x].balance < 0) {
        GrowAbsorb(h, q, t);
        Put(x, nodes[x].(balance := 0));
        again, t' := false, Fill(q, t);
      } else {
        GrowRotate(h, q, t);
        assert Bottom(q.up, 0) < |h|;
        var str := RotateAt(x, z, left);
        again, t' := false, RotatedTree(x, t, q.sib, q.left);
      }
    }

    /** One iteration of the delete retrace, at x, the last step of path q. */
    method DeleteStep(x: nat, fromTheLeft: bool, ghost q: Path, ghost t: Tree)
      returns (again: bool, c: nat, ghost t': Tree)
      requires Shrunk(nodes[..], q, t) && q.Step? && x == q.id && fromTheLeft == q.left && root == Apex(q, Root(t))
      modifies this`root, nodes
      ensures DeleteStepped(old(nodes[..]), nodes[..], q, t, t', again)
      ensures c == Root(t') && root == Apex(q.up, c)
    {
      ghost var h := nodes[..];
      if nodes[x].balance == 0 {
        ShrinkAbsorb(h, q, t);
        Put(x, nodes[x].(balance := if fromTheLeft then 1 else -1));
        again, c, t' := false, x, Fill(q, t);
      } else if (fromTheLeft && nodes[x].balance < 0) || (!fromTheLeft && nodes[x].balance > 0) {
        ShrinkUp(h, q, t);
        Put(x, nodes[x].(balance := 0));
        again, c, t' := true, x, Fill(q, t);
      } else {
        ShrinkRotate(h, q, t);
        assert Bottom(q.up, 0) < |h|;
        var z := if fromTheLeft then nodes[x].right else nodes[x].left;
        again := nodes[z].balance != 0;
        c := RotateAt(x, z, !fromTheLeft);
        t' := RotatedTree(x, q.sib, t, !q.left);
      }
    }

    /** The insert retrace, from the new node at the end of path q0.  The loop bound
        is never what ends the loop. */
    method RetraceInsert(node: nat, ghost q0: Path) returns (ghost t': Tree)
      requires Grown(nodes[..], q0, Node(Leaf, node, Leaf)) && root == Apex(q0, node)
      requires Len(q0) < maxHeight
      modifies this`root, nodes
      ensures Linked(nodes[..], t', 0) && root == Root(t')
      ensures InOrder(t') == Before(q0) + [node] + After(q0)
      ensures Ht(t') <= Max(HtUp(q0, 0), Len(q0) + 1)
      ensures Rewired(old(nodes[..]), nodes[..], {node} + PathIds(q0))
    {
      ghost var h0, q, t := nodes[..], q0, Node(Leaf, node, Leaf);
      ClimbStart(h0, q0, node);
      var z, x, again := node, nodes[node].parent, true;
      for i := 0 to maxHeight
        invariant Len(q) <= maxHeight - i
        invariant again && x == Bottom(q, 0) && z == Root(t) && root == Apex(q, z)
        invariant Climb(h0, nodes[..], q0, node, q, t, again)
      {
        if x == 0 {
          break;
        }
        ghost var h, t1 := nodes[..], t;
        again, t := InsertStep(z, x, q, t);
        ClimbStep(h0, h, nodes[..], q0, node, q, t1, t, again);
        q := q.up;
        if !again {
          break;
        }
        z, x := x, nodes[x].parent;
      }
      assert again ==> q.Top?;
      ClimbDone(h0, nodes[..], q0, node, q, t, again);
      t' := Plug(q, t);
    }

    /** One iteration and the choice of the next x. */
    method SinkOnce(x: nat, fromTheLeft: bool, ghost h0: Heap, ghost q0: Path, ghost t0: Tree, ghost q: Path, ghost t: Tree)
      returns (x': nat, fromTheLeft': bool, again: bool, ghost t': Tree)
      requires Sink(h0, nodes[..], q0, t0, q, t, true) && root == Apex(q, Root(t))
      requires q.Step? && x == q.id && fromTheLeft == q.left
      modifies this`root, nodes
      ensures Sink(h0, nodes[..], q0, t0, q.up, t', again) && root == Apex(q.up, Root(t'))
      ensures x' == Bottom(q.up, 0) && (again && q.up.Step? ==> fromTheLeft' == q.up.left)
    {
      ghost var h := nodes[..];
      x', fromTheLeft' := nodes[x].parent, false;
      var c;
      again, c, t' := DeleteStep(x, fromTheLeft, q, t);
      SinkStep(h0, h, nodes[..], q0, t0, q, t, t', again);
      if again && x' != 0 {
        SideTest(nodes[..], q.up, 0, c, Ht(t') + 1);
        fromTheLeft' := nodes[x'].left == c;
      }
    }

    /** The delete retrace, from x, which lost a level on the given side. */
    method RetraceDelete(x0: nat, fromTheLeft0: bool, ghost q0: Path, ghost t0: Tree) returns (ghost t': Tree)
      requires Shrunk(nodes[..], q0, t0) && root == Apex(q0, Root(t0))
      requires x0 == Bottom(q0, 0) && (q0.Step? ==> fromTheLeft0 == q0.left) && Len(q0) <= maxHeight
      modifies this`root, nodes
      ensures Linked(nodes[..], t', 0) && root == Root(t')
      ensures InOrder(t') == Order(q0, t0)
      ensures Ht(t') <= HtUp(q0, Ht(t0) + 1)
      ensures Rewired(old(nodes[..]), nodes[..], Ids(t0) + PathIds(q0))
    {
      ghost var h0, q, t := nodes[..], q0, t0;
      var x, fromTheLeft, again := x0, fromTheLeft0, true;
      for i := 0 to maxHeight
        invariant Len(q) <= maxHeight - i && x == Bottom(q, 0) && root == Apex(q, Root(t))
        invariant again && (q.Step? ==> fromTheLeft == q.left)
        invariant Sink(h0, nodes[..], q0, t0, q, t, again)
      {
        if x == 0 {
          break;
        }
        x, fromTheLeft, again, t := SinkOnce(x, fromTheLeft, h0, q0, t0, q, t);
        q := q.up;
        if !again {
          break;
        }
      }
      assert again ==> q.Top?;
      SinkDone(h0, nodes[..], q0, t0, q, t, again);
      t' := Plug(q, t);
    }

    // ---------------------------------------------------------------- searches

    /** avl_tree_lookup */
    method Lookup(key: nat) returns (x: nat)
      requires Shaped() && Arrived(nodes[..], InOrder(tree), arrival, clock)
      ensures x != 0 ==> x in Ids(tree) && x < nodes.Length && nodes[x].key == key
      ensures x == 0 ==> forall i :: i in Ids(tree) && i < nodes.Length ==> nodes[i].key != key
    {
      ghost var h, q, t := nodes[..], Top, tree;
      x := root;
      for i := 0 to maxHeight
        invariant At(h, q, 0, t) && Plug(q, t) == tree && x == Root(t) && Ht(t) <= maxHeight - i
        invariant Excludes(h, q, key)
      {
        if x == 0 {
          break;
        }
        if nodes[x].key == key {
          PlugShape(q, t);
          return x;
        }
        ExcludesDown(h, arrival, q, t, key);
        AtDown(h, q, 0, t, key < h[x].key);
        q, t := Down(q, t, key < h[x].key), Child(t, key < h[x].key);
        x := if key < nodes[x].key then nodes[x].left else nodes[x].right;
      }
      PlugShape(q, t);
      PathShape(q);
      return 0;
    }

    /** avl_min_node */
    method MinNode(x0: nat, ghost t0: Tree, ghost p0: nat) returns (x: nat)
      requires Linked(nodes[..], t0, p0) && x0 == Root(t0) && Ht(t0) <= maxHeight
      ensures x == if InOrder(t0) == [] then 0 else InOrder(t0)[0]
    {
      ghost var t, p := t0, p0;
      x := x0;
      for i := 0 to maxHeight
        invariant Linked(nodes[..], t, p) && x == Root(t) && Ht(t) <= maxHeight - i
        invariant t0.Leaf? <==> t.Leaf?
        invariant t.Node? ==> InOrder(t0)[0] == InOrder(t)[0]
      {
        if x == 0 {
          return 0;
        }
        if nodes[x].left == 0 {
          return x;
        }
        t, p := t.left, t.id;
        x := nodes[x].left;
      }
      return 0;
    }

    /** avl_max_node */
    method MaxNode(x0: nat, ghost t0: Tree, ghost p0: nat) returns (x: nat)
      requires Linked(nodes[..], t0, p0) && x0 == Root(t0) && Ht(t0) <= maxHeight
      ensures x == if InOrder(t0) == [] then 0 else InOrder(t0)[|InOrder(t0)| - 1]
    {
      ghost var t, p := t0, p0;
      x := x0;
      for i := 0 to maxHeight
        invariant Linked(nodes[..], t, p) && x == Root(t) && Ht(t) <= maxHeight - i
        invariant t0.Leaf? <==> t.Leaf?
        invariant t.Node? ==> InOrder(t0)[|InOrder(t0)| - 1] == InOrder(t)[|InOrder(t)| - 1]
      {
        if x == 0 {
          return 0;
        }
        if nodes[x].right == 0 {
          return x;
        }
        t, p := t.right, t.id;
        x := nodes[x].right;
      }
      return 0;
    }

    /** __avl_next_node */
    method Next(x: nat) returns (n: nat)
      requires Shaped() && x in Ids(tree)
      ensures n == Succ(InOrder(tree), x)
    {
      NextIs(nodes[..], tree, x);
      ghost var focus := Focus(tree, x, Top);
      ghost var q, t := focus.0, focus.1;
      if nodes[x].right != 0 {
        n := MinNode(nodes[x].right, t.right, x);
        assert InOrder(t.right) != [];
      } else {
        n := NextAbove(x, q, Ht(t));
      }
    }

    method NextAbove(x0: nat, ghost q0: Path, ghost k0: nat) returns (n: nat)
      requires PathLinked(nodes[..], q0, 0, x0, k0) && 0 < x0 < nodes.Length && x0 !in PathIds(q0)
      requires nodes[x0].parent == Bottom(q0, 0) && Len(q0) < maxHeight
      ensures n == if After(q0) == [] then 0 else After(q0)[0]
    {
      ghost var q: Path, k := q0, k0;
      var x := x0;
      for i := 0 to maxHeight
        invariant PathLinked(nodes[..], q, 0, x, k) && 0 < x < nodes.Length && x !in PathIds(q)
        invariant nodes[x].parent == Bottom(q, 0) && After(q) == After(q0) && Len(q) <= maxHeight - i
      {
        var parent := nodes[x].parent;
        if parent == 0 {
          return 0;
        }
        SideTest(nodes[..], q, 0, x, k);
        if nodes[parent].left == x {
          return parent;
        }
        k, q := StepHt(q, k), q.up;
        x := parent;
      }
      return 0;
    }

    /** __avl_prev_node */
    method Prev(x: nat) returns (n: nat)
      requires Shaped() && x in Ids(tree)
      ensures n == Pred(InOrder(tree), x)
    {
      PrevIs(nodes[..], tree, x);
      ghost var focus := Focus(tree, x, Top);
      ghost var q, t := focus.0, focus.1;
      if nodes[x].left != 0 {
        n := MaxNode(nodes[x].left, t.left, x);
        assert InOrder(t.left) != [];
      } else {
        n := PrevAbove(x, q, Ht(t));
      }
    }

    method PrevAbove(x0: nat, ghost q0: Path, ghost k0: nat) returns (n: nat)
      requires PathLinked(nodes[..], q0, 0, x0, k0) && 0 < x0 < nodes.Length && x0 !in PathIds(q0)
      requires nodes[x0].parent == Bottom(q0, 0) && Len(q0) < maxHeight
      ensures n == if Before(q0) == [] then 0 else Before(q0)[|Before(q0)| - 1]
    {
      ghost var q: Path, k := q0, k0;
      var x := x0;
      for i := 0 to maxHeight
        invariant PathLinked(nodes[..], q, 0, x, k) && 0 < x < nodes.Length && x !in PathIds(q)
        invariant nodes[x].parent == Bottom(q, 0) && Before(q) == Before(q0) && Len(q) <= maxHeight - i
      {
        var parent := nodes[x].parent;
        if parent == 0 {
          return 0;
        }
        SideTest(nodes[..], q, 0, x, k);
        if nodes[parent].right == x {
          return parent;
        }
        k, q := StepHt(q, k), q.up;
        x := parent;
      }
      return 0;
    }

    /** The search loop of avl_tree_insert: the hole where the node's key belongs.  It
        gives up, with next nonzero, exactly when the search path is as long as the
        height cap. */
    method FindSlot(key: nat) returns (next: nat, x: nat, left: bool, ghost q: Path, ghost t: Tree)
      requires Shaped() && Arrived(nodes[..], InOrder(tree), arrival, clock)
      ensures At(nodes[..], q, 0, t) && Plug(q, t) == tree && next == Root(t) && Len(q) < maxHeight
      ensures x == Bottom(q, 0) && (q.Step? ==> left == q.left) && Splits(nodes[..], q, key)
      ensures next != 0 <==> SearchDepth(nodes[..], tree, key) >= maxHeight
    {
      ghost var h := nodes[..];
      q, t := Top, tree;
      next, x, left := root, 0, false;
      for i := 0 to maxHeight - 1
        invariant At(h, q, 0, t) && Plug(q, t) == tree && next == Root(t) && Len(q) == i
        invariant x == Bottom(q, 0) && (q.Step? ==> left == q.left) && Splits(h, q, key)
        invariant SearchDepth(h, tree, key) == Len(q) + SearchDepth(h, t, key)
      {
        if next == 0 {
          break;
        }
        SplitsDown(h, arrival, q, t, key);
        AtDown(h, q, 0, t, key < h[next].key);
        q, t := Down(q, t, key < h[next].key), Child(t, key < h[next].key);
        x := next;
        if key < nodes[x].key {
          next, left := nodes[x].left, true;
        } else {
          next, left := nodes[x].right, false;
        }
      }
    }

    // ---------------------------------------------------------------- orphans

    /** __insert_orphan */
    method InsertOrphan(node: nat)
      requires 0 < node < nodes.Length && firstOrphan < nodes.Length && firstOrphan != node
      modifies this`firstOrphan, nodes
      ensures nodes[..] == OrphanPushed(old(nodes[..]), old(firstOrphan), node) && firstOrphan == node
    {
      var next := firstOrphan;
      firstOrphan := node;
      if next != 0 {
        Put(next, nodes[next].(prevOrphan := node));
      }
      Put(node, nodes[node].(nextOrphan := next, prevOrphan := 0));
    }

    /** __remove_orphan */
    method RemoveOrphan(node: nat)
      requires 0 < node < nodes.Length
      requires nodes[node].prevOrphan < nodes.Length && nodes[node].nextOrphan < nodes.Length
      modifies this`firstOrphan, nodes
      ensures nodes[..] == OrphanRemoved(old(nodes[..]), node)
      ensures firstOrphan == if old(firstOrphan) == node then old(nodes[node].nextOrphan) else old(firstOrphan)
    {
      var prev, next := nodes[node].prevOrphan, nodes[node].nextOrphan;
      if firstOrphan == node {
        firstOrphan := next;
      }
      if prev != 0 {
        Put(prev, nodes[prev].(nextOrphan := next));
      }
      if next != 0 {
        Put(next, nodes[next].(prevOrphan := prev));
      }
      Put(node, nodes[node].(nextOrphan := 0, prevOrphan := 0));
    }

    /** __pop_first_orphan */
    method PopFirstOrphan() returns (first: nat)
      requires firstOrphan < nodes.Length && nodes.Length > 0
      requires firstOrphan != 0 ==> nodes[firstOrphan].nextOrphan < nodes.Length && nodes[firstOrphan].prevOrphan == 0
      modifies this`firstOrphan, nodes
      ensures first == old(firstOrphan)
      ensures first == 0 ==> nodes[..] == old(nodes[..]) && firstOrphan == 0
      ensures first != 0 ==> nodes[..] == OrphanRemoved(old(nodes[..]), first)
      ensures first != 0 ==> firstOrphan == old(nodes[firstOrphan].nextOrphan)
    {
      first := firstOrphan;
      if first == 0 {
        return;
      }
      var next := nodes[first].nextOrphan;
      firstOrphan := next;
      if next != 0 {
        Put(next, nodes[next].(prevOrphan := 0));
      }
      Put(first, nodes[first].(nextOrphan := 0, prevOrphan := 0));
    }

    // ---------------------------------------------------------------- insert

    /** Hanging the node below x, or making it the root of an empty tree. */
    method Attach(node: nat, x: nat, left: bool, ghost q: Path)
      requires PathLinked(nodes[..], q, 0, 0, 0) && 0 < node < nodes.Length && node !in PathIds(q)
      requires x == Bottom(q, 0) && (q.Step? ==> left == q.left) && root == Apex(q, 0)
      requires nodes[node].left == 0 && nodes[node].right == 0 && nodes[node].balance == 0
      modifies this`root, nodes
      ensures nodes[..] == Attached(old(nodes[..]), q, node) && root == Apex(q, node)
    {
      Put(node, nodes[node].(parent := x));
      if x == 0 {
        root := node;
      } else if left {
        Put(x, nodes[x].(left := node));
      } else {
        Put(x, nodes[x].(right := node));
      }
    }

    method CacheInserted(node: nat)
      requires node < nodes.Length
      modifies this`minId, this`minKey, this`maxId, this`maxKey
      ensures Ends() == CacheWith(old(Ends()), node, nodes[node].key)
    {
      if minId == 0 || nodes[node].key < minKey {
        minId, minKey := node, nodes[node].key;
      }
      if maxId == 0 || nodes[node].key >= maxKey {
        maxId, maxKey := node, nodes[node].key;
      }
    }

    /** Attaching the node and retracing. */
    method Grow(node: nat, x: nat, left: bool, ghost q: Path) returns (ghost t': Tree)
      requires At(nodes[..], q, 0, Leaf) && root == Apex(q, 0) && 0 < node < nodes.Length && node !in PathIds(q)
      requires x == Bottom(q, 0) && (q.Step? ==> left == q.left) && Len(q) < maxHeight && HtUp(q, 0) <= maxHeight
      requires nodes[node].left == 0 && nodes[node].right == 0 && nodes[node].balance == 0
      modifies this`root, nodes
      ensures Linked(nodes[..], t', 0) && root == Root(t') && Ht(t') <= maxHeight
      ensures InOrder(t') == Before(q) + [node] + After(q)
      ensures Rewired(old(nodes[..]), nodes[..], {node} + PathIds(q))
    {
      AttachLeaf(nodes[..], q, node);
      Attach(node, x, left, q);
      t' := RetraceInsert(node, q);
    }

    /** Growing keeps all that is true beyond the links, for the cache that is still to come. */
    method GrowGood(node: nat, x: nat, left: bool, ghost q: Path) returns (ghost t': Tree)
      requires Valid() && 0 < node < nodes.Length && !Has(node) && Plug(q, Leaf) == tree && At(nodes[..], q, 0, Leaf)
      requires x == Bottom(q, 0) && (q.Step? ==> left == q.left) && Splits(nodes[..], q, nodes[node].key)
      requires nodes[node].left == 0 && nodes[node].right == 0 && nodes[node].balance == 0 && !nodes[node].isOrphan
      requires Len(q) < maxHeight
      modifies this`root, nodes
      ensures Linked(nodes[..], t', 0) && root == Root(t') && Ht(t') <= maxHeight && node < |arrival|
      ensures InOrder(t') == old(Placed(nodes[..], InOrder(tree), node)) && SameKeys(old(nodes[..]), nodes[..])
      ensures Good(nodes[..], InOrder(t'), orphans, arrival[node := clock], clock + 1,
                   CacheWith(Ends(), node, nodes[node].key), firstOrphan)
    {
      ghost var h, a, b := nodes[..], Before(q), After(q);
      SlotShape(q, tree);
      t' := Grow(node, x, left, q);
      InsertGood(h, nodes[..], {node} + PathIds(q), a, node, b, orphans, arrival, clock, Ends(), firstOrphan);
    }

    /** The part of avl_tree_insert that follows a successful search. */
    method InsertAt(node: nat, x: nat, left: bool, ghost q: Path)
      requires Valid() && 0 < node < nodes.Length && !Has(node) && Plug(q, Leaf) == tree && At(nodes[..], q, 0, Leaf)
      requires x == Bottom(q, 0) && (q.Step? ==> left == q.left) && Splits(nodes[..], q, nodes[node].key)
      requires nodes[node].left == 0 && nodes[node].right == 0 && nodes[node].balance == 0 && !nodes[node].isOrphan
      requires Len(q) < maxHeight
      modifies this, nodes
      ensures Valid() && orphans == old(orphans) && clock == old(clock) + 1
      ensures InOrder(tree) == old(Placed(nodes[..], InOrder(tree), node))
      ensures arrival == old(arrival)[node := old(clock)] && SameKeys(old(nodes[..]), nodes[..])
    {
      ghost var t' := GrowGood(node, x, left, q);
      Accept(node, t');
    }

    /** The cached ends follow an insertion. */
    method Accept(node: nat, ghost t': Tree)
      requires node < nodes.Length && nodes.Length > 0 && maxHeight >= 1 && node < |arrival|
      requires Linked(nodes[..], t', 0) && root == Root(t') && Ht(t') <= maxHeight
      requires Good(nodes[..], InOrder(t'), orphans, arrival[node := clock], clock + 1,
                    CacheWith(Ends(), node, nodes[node].key), firstOrphan)
      modifies this
      ensures Valid() && tree == t' && orphans == old(orphans) && clock == old(clock) + 1
      ensures arrival == old(arrival)[node := old(clock)]
    {
      CacheInserted(node);
      tree, arrival, clock := t', arrival[node := clock], clock + 1;
    }

    /** avl_tree_insert.  The element is placed just after the last key that is not
        above its own, unless the search path is as long as the height cap allows,
        in which case it becomes the first orphan. */
    method Insert(node: nat)
      requires Valid() && 0 < node < nodes.Length && !Has(node)
      modifies this, nodes
      ensures Valid() && SameKeys(old(nodes[..]), nodes[..])
      ensures old(SearchDepth(nodes[..], tree, nodes[node].key)) >= maxHeight ==>
        tree == old(tree) && orphans == [node] + old(orphans) && arrival == old(arrival) && clock == old(clock)
      ensures old(SearchDepth(nodes[..], tree, nodes[node].key)) < maxHeight ==>
        && orphans == old(orphans) && InOrder(tree) == old(Placed(nodes[..], InOrder(tree), node))
        && arrival == old(arrival)[node := old(clock)] && clock == old(clock) + 1
      ensures tree != Leaf
      ensures forall y :: Has(y) <==> old(Has(y)) || y == node
    {
      ghost var h := nodes[..];
      OutsiderLinked(h, node, h[node].(left := 0, right := 0, balance := 0, isOrphan := false), tree);
      OutsiderGood(h, node, h[node].(left := 0, right := 0, balance := 0, isOrphan := false),
        InOrder(tree), orphans, arrival, clock, Ends(), firstOrphan);
      Put(node, nodes[node].(left := 0, right := 0, balance := 0, isOrphan := false));
      SearchDepthFrame(h, nodes[..], tree, nodes[node].key);
      SlotFrame(h, nodes[..], InOrder(tree), nodes[node].key);
      var next, x, left;
      ghost var q, t;
      next, x, left, q, t := FindSlot(nodes[node].key);
      PlacedMembers(nodes[..], InOrder(tree), node);
      if next != 0 {
        MakeOrphan(node);
      } else {
        InsertAt(node, x, left, q);
      }
    }

    method MakeOrphan(node: nat)
      requires Valid() && 0 < node < nodes.Length && !Has(node)
      modifies this, nodes
      ensures Valid() && SameKeys(old(nodes[..]), nodes[..])
      ensures tree == old(tree) && orphans == [node] + old(orphans) && arrival == old(arrival) && clock == old(clock)
    {
      ghost var h := nodes[..];
      OutsiderLinked(h, node, h[node].(isOrphan := true), tree);
      OutsiderGood(h, node, h[node].(isOrphan := true), InOrder(tree), orphans, arrival, clock, Ends(), firstOrphan);
      Put(node, nodes[node].(isOrphan := true));
      h := nodes[..];
      OrphanGood(h, node, InOrder(tree), orphans, arrival, clock, Ends(), firstOrphan);
      OrphanLinked(h, OrphanPushed(h, firstOrphan, node), tree);
      InsertOrphan(node);
      orphans := [node] + orphans;
    }

    /** The first part of avl_tree_delete, for an orphan. */
    method DeleteOrphan(node: nat)
      requires Valid() && node in orphans
      modifies this, nodes
      ensures Valid() && SameKeys(old(nodes[..]), nodes[..])
      ensures tree == old(tree) && orphans == Without(old(orphans), node) && arrival == old(arrival) && clock == old(clock)
    {
      Unlist(node);
      ClearFlag(node);
    }

    /** The orphan leaves the list; the element it stands for is now in neither place. */
    method Unlist(node: nat)
      requires Valid() && node in orphans
      modifies this, nodes
      ensures Valid() && SameKeys(old(nodes[..]), nodes[..]) && 0 < node < nodes.Length && !Has(node)
      ensures tree == old(tree) && orphans == Without(old(orphans), node) && arrival == old(arrival) && clock == old(clock)
    {
      UnlistGood(nodes[..], tree, orphans, node, arrival, clock, Ends(), firstOrphan);
      RemoveOrphan(node);
      orphans := Without(orphans, node);
    }

    method ClearFlag(node: nat)
      requires Valid() && 0 < node < nodes.Length && !Has(node)
      modifies nodes
      ensures Valid() && SameKeys(old(nodes[..]), nodes[..])
    {
      ghost var h := nodes[..];
      OutsiderLinked(h, node, h[node].(isOrphan := false), tree);
      OutsiderGood(h, node, h[node].(isOrphan := false), InOrder(tree), orphans, arrival, clock, Ends(), firstOrphan);
      Put(node, nodes[node].(isOrphan := false));
    }

    /** The caller's part of an insertion: choosing the key of an absent element. */
    method SetKey(node: nat, key: nat)
      requires Valid() && 0 < node < nodes.Length && !Has(node)
      modifies nodes
      ensures Valid() && nodes[..] == old(nodes[..])[node := old(nodes[node]).(key := key)]
    {
      ghost var h := nodes[..];
      OutsiderLinked(h, node, h[node].(key := key), tree);
      OutsiderGood(h, node, h[node].(key := key), InOrder(tree), orphans, arrival, clock, Ends(), firstOrphan);
      Put(node, nodes[node].(key := key));
    }

    // ---------------------------------------------------------------- delete

    /** avl_replace_node */
    method ReplaceNode(x: nat, with: nat)
      requires 0 < x < nodes.Length && with < nodes.Length && nodes[x].parent < nodes.Length && with != x
      modifies this`root, nodes
      ensures nodes[..] == Replaced(old(nodes[..]), x, with)
      ensures root == if old(nodes[x].parent) == 0 then with else old(root)
    {
      var xParent := nodes[x].parent;
      if xParent != 0 {
        if nodes[xParent].left == x {
          Put(xParent, nodes[xParent].(left := with));
        } else {
          Put(xParent, nodes[xParent].(right := with));
        }
      }
      if with != 0 {
        Put(with, nodes[with].(parent := xParent));
      }
      if xParent == 0 {
        root := with;
      }
    }

    /** A node with a free child slot. */
    method UnlinkWithFreeSlot(node: nat, ghost q0: Path, ghost n: Tree)
      returns (x: nat, fromTheLeft: bool, ghost q: Path, ghost t: Tree)
      requires At(nodes[..], q0, 0, n) && n.Node? && n.id == node && Plug(q0, n) == tree && root == Root(tree)
      requires n.left.Leaf? || n.right.Leaf?
      modifies this`root, nodes
      ensures Unlinked(old(nodes[..]), nodes[..], tree, root, (Before(q0) + InOrder(n.left)) + (InOrder(n.right) + After(q0)), q, t, x, fromTheLeft)
    {
      ghost var h := nodes[..];
      PlugShape(q0, n);
      UnlinkOne(h, q0, n);
      q, t := q0, if n.left.Leaf? then n.right else n.left;
      x := nodes[node].parent;
      if q0.Step? { SideTest(h, q0, 0, node, Ht(n)); }
      fromTheLeft := x != 0 && nodes[x].left == node;
      if nodes[node].left == 0 {
        ReplaceNode(node, nodes[node].right);
      } else {
        ReplaceNode(node, nodes[node].left);
      }
    }

    /** The writes of the "deep next" case. */
    method CutNext(node: nat, next: nat)
      requires 0 < node < nodes.Length && 0 < next < nodes.Length && node != next
      requires 0 < nodes[next].parent < nodes.Length && nodes[next].parent != node && nodes[next].parent != next
      requires nodes[next].right < nodes.Length && nodes[next].right != next && nodes[next].right != node
      requires 0 < nodes[node].right < nodes.Length
      modifies this`root, nodes
      ensures nodes[..] == Cut(old(nodes[..]), node, next) && root == old(root)
    {
      Put(next, nodes[next].(balance := nodes[node].balance));
      ReplaceNode(next, nodes[next].right);
      Put(next, nodes[next].(right := nodes[node].right));
      var nodeRight := nodes[node].right;
      Put(nodeRight, nodes[nodeRight].(parent := next));
    }

    /** The first half of the two-children case: next takes node's balance and, if it
        is deeper in the right subtree, is cut out of its place there. */
    method LiftNext(node: nat, next: nat, ghost q: Path, ghost l: Tree, ghost r: Tree, ghost qq: Path, ghost rr: Tree)
      returns (x: nat, fromTheLeft: bool)
      requires TwoChildren(nodes[..], q, l, node, r, qq, next, rr)
      modifies this`root, nodes
      ensures Lifted(old(nodes[..]), nodes[..], node, r, qq, next, rr) && root == old(root)
      ensures x == Bottom(qq, next) && fromTheLeft == (qq.Step? && qq.left)
    {
      LiftPlan(nodes[..], q, l, node, r, qq, next, rr);
      if nodes[next].parent != node {
        x := nodes[next].parent;
        fromTheLeft := nodes[x].left == next;
        CutNext(node, next);
      } else {
        Put(next, nodes[next].(balance := nodes[node].balance));
        x, fromTheLeft := next, false;
      }
    }

    /** The second half: next moves into node's place. */
    method SeatNext(node: nat, next: nat)
      requires 0 < node < nodes.Length && 0 < next < nodes.Length && node != next
      requires nodes[node].parent < nodes.Length && 0 < nodes[node].left < nodes.Length && nodes[node].parent != node
      modifies this`root, nodes
      ensures nodes[..] == Seated(old(nodes[..]), node, next)
      ensures root == if old(nodes[node].parent) == 0 then next else old(root)
    {
      ReplaceNode(node, next);
      Put(next, nodes[next].(left := nodes[node].left));
      var nodeLeft := nodes[node].left;
      Put(nodeLeft, nodes[nodeLeft].(parent := next));
    }

    /** A node with two children. */
    method UnlinkWithTwo(node: nat, ghost q0: Path, ghost l: Tree, ghost r: Tree)
      returns (x: nat, fromTheLeft: bool, ghost q: Path, ghost t: Tree)
      requires Shaped() && node in Ids(tree) && Focus(tree, node, Top) == (q0, Node(l, node, r)) && l.Node? && r.Node?
      modifies this`root, nodes
      ensures Unlinked(old(nodes[..]), nodes[..], tree, root, (Before(q0) + InOrder(l)) + (InOrder(r) + After(q0)), q, t, x, fromTheLeft)
    {
      ghost var h := nodes[..];
      NextIs(h, tree, node);
      FocusAt(h, tree, node, Top, 0);
      TwoPlanned(h, tree, q0, l, node, r);
      var next := Next(node);
      ghost var focus := Focus(r, next, Top);
      q, t := Relinked(q0, l, focus.0, next), focus.1.right;
      x, fromTheLeft := MoveNext(node, next, q0, l, r, focus.0, focus.1.right);
    }

    /** The writes of the two-children case. */
    method MoveNext(node: nat, next: nat, ghost q: Path, ghost l: Tree, ghost r: Tree, ghost qq: Path, ghost rr: Tree)
      returns (x: nat, fromTheLeft: bool)
      requires TwoPlan(nodes[..], tree, q, l, node, r, qq, next, rr) && root == Root(tree)
      modifies this`root, nodes
      ensures Unlinked(old(nodes[..]), nodes[..], tree, root, (Before(q) + InOrder(l)) + (InOrder(r) + After(q)),
                Relinked(q, l, qq, next), rr, x, fromTheLeft)
    {
      ghost var h := nodes[..];
      x, fromTheLeft := LiftNext(node, next, q, l, r, qq, rr);
      MovePlan(h, nodes[..], tree, q, l, node, r, qq, next, rr);
      SeatNext(node, next);
    }

    method CacheDeleted(node: nat)
      requires Shaped() && node in Ids(tree) && InRange(nodes[..], InOrder(tree))
      modifies this`minId, this`minKey, this`maxId, this`maxKey
      ensures Ends() == CacheWithout(nodes[..], old(Ends()), InOrder(tree), node)
    {
      SuccInRange(nodes[..], InOrder(tree), node);
      if node == minId {
        var next := Next(node);
        minId := next;
        if next != 0 {
          minKey := nodes[next].key;
        }
      }
      if node == maxId {
        var prev := Prev(node);
        maxId := prev;
        if prev != 0 {
          maxKey := nodes[prev].key;
        }
      }
    }

    method Unlink(node: nat) returns (x: nat, fromTheLeft: bool, ghost q: Path, ghost t: Tree)
      requires Shaped() && node in Ids(tree)
      modifies this`root, nodes
      ensures var focus := Focus(tree, node, Top); var q0, n := focus.0, focus.1;
        n.Node? && Unlinked(old(nodes[..]), nodes[..], tree, root,
                     (Before(q0) + InOrder(n.left)) + (InOrder(n.right) + After(q0)), q, t, x, fromTheLeft)
    {
      NextIs(nodes[..], tree, node);
      PrevIs(nodes[..], tree, node);
      FocusAt(nodes[..], tree, node, Top, 0);
      ghost var focus := Focus(tree, node, Top);
      ghost var n := focus.1;
      if nodes[node].left == 0 || nodes[node].right == 0 {
        x, fromTheLeft, q, t := UnlinkWithFreeSlot(node, focus.0, n);
      } else {
        assert n == Node(n.left, node, n.right);
        x, fromTheLeft, q, t := UnlinkWithTwo(node, focus.0, n.left, n.right);
      }
    }

    /** Unlinking the node and retracing. */
    method Shrink(node: nat) returns (ghost t': Tree)
      requires Shaped() && node in Ids(tree)
      modifies this`root, nodes
      ensures Linked(nodes[..], t', 0) && root == Root(t') && Ht(t') <= maxHeight
      ensures InOrder(t') == Without(InOrder(tree), node)
      ensures Rewired(old(nodes[..]), nodes[..], Ids(tree))
    {
      var x, fromTheLeft;
      ghost var q, t;
      ghost var h := nodes[..];
      FocusWithout(h, tree, node);
      x, fromTheLeft, q, t := Unlink(node);
      t' := Retrace(x, fromTheLeft, h, Without(InOrder(tree), node), q, t);
    }

    method Retrace(x: nat, fromTheLeft: bool, ghost h: Heap, ghost s: seq<nat>, ghost q: Path, ghost t: Tree)
      returns (ghost t': Tree)
      requires Unlinked(h, nodes[..], tree, root, s, q, t, x, fromTheLeft) && Ht(tree) <= maxHeight
      modifies this`root, nodes
      ensures Linked(nodes[..], t', 0) && root == Root(t') && Ht(t') <= maxHeight
      ensures InOrder(t') == s && Rewired(h, nodes[..], Ids(tree))
    {
      ghost var h1 := nodes[..];
      HtUpBounds(q, Ht(t) + 1);
      t' := RetraceDelete(x, fromTheLeft, q, t);
      RewiredTwice(h, h1, nodes[..], Ids(tree), Ids(t) + PathIds(q), Ids(tree));
    }

    /** avl_tree_delete up to the orphan retry, for an element of the tree. */
    method DeleteFromTree(node: nat)
      requires Valid() && node in InOrder(tree)
      modifies this, nodes
      ensures Valid() && SameKeys(old(nodes[..]), nodes[..])
      ensures InOrder(tree) == Without(old(InOrder(tree)), node)
      ensures orphans == old(orphans) && arrival == old(arrival) && clock == old(clock)
    {
      ghost var h := nodes[..];
      assert node in Ids(tree) by { InOrderIds(tree); }
      ghost var ends := Ends();
      CacheDeleted(node);
      ghost var t' := Shrink(node);
      TreeDeleteGood(h, nodes[..], tree, node, orphans, arrival, clock, ends, firstOrphan);
      tree := t';
    }

    /** The first orphan leaves the list; the element it stands for is now in neither place. */
    method TakeOrphan() returns (o: nat, ghost depth: nat, ghost placed: seq<nat>)
      requires Valid()
      modifies this, nodes
      ensures Valid() && SameKeys(old(nodes[..]), nodes[..])
      ensures tree == old(tree) && arrival == old(arrival) && clock == old(clock)
      ensures old(orphans) == [] ==> o == 0 && orphans == []
      ensures old(orphans) != [] ==> o == old(orphans)[0] && 0 < o < nodes.Length && !Has(o) && orphans == old(orphans)[1..]
      ensures old(orphans) != [] ==>
        && depth == SearchDepth(nodes[..], tree, nodes[o].key) == old(SearchDepth(nodes[..], tree, nodes[orphans[0]].key))
        && placed == Placed(nodes[..], InOrder(tree), o) == old(Placed(nodes[..], InOrder(tree), orphans[0]))
    {
      ghost var h := nodes[..];
      depth, placed := 0, [];
      if orphans != [] {
        AdoptFirst(h, InOrder(tree), orphans, arrival, clock, Ends(), firstOrphan);
        AdoptFrame(h, firstOrphan, tree);
      }
      o := PopFirstOrphan();
      if o != 0 {
        orphans := orphans[1..];
        depth, placed := SearchDepth(nodes[..], tree, nodes[o].key), Placed(nodes[..], InOrder(tree), o);
      }
    }

    /** One orphan is given another try: it stays first in the list if the depth of its search path has
        reached the cap, and otherwise enters the tree. */
    method RetryOrphan() returns (ghost depth: nat, ghost placed: seq<nat>)
      requires Valid()
      modifies this, nodes
      ensures Valid() && SameKeys(old(nodes[..]), nodes[..])
      ensures old(orphans) == [] ==>
        tree == old(tree) && orphans == [] && arrival == old(arrival) && clock == old(clock)
      ensures old(orphans) != [] ==>
        && depth == old(SearchDepth(nodes[..], tree, nodes[orphans[0]].key))
        && placed == old(Placed(nodes[..], InOrder(tree), orphans[0]))
      ensures old(orphans) != [] ==>
        && tree != Leaf
        && orphans == (if depth >= maxHeight then old(orphans) else old(orphans)[1..])
        && InOrder(tree) == if depth >= maxHeight then old(InOrder(tree)) else placed
    {
      ghost var was := orphans;
      var o;
      o, depth, placed := TakeOrphan();
      if o != 0 {
        Insert(o);
        assert [o] + was[1..] == was;
      }
    }

    /** avl_tree_delete: the element is gone, and the first orphan has had one try at
        entering the tree, which succeeds exactly when its search path in the tree without
        the element, `mid`, has room.  Nothing else is lost, moved or duplicated. */
    method Delete(node: nat) returns (ghost mid: Tree)
      requires Valid() && Has(node)
      modifies this, nodes
      ensures Valid() && SameKeys(old(nodes[..]), nodes[..])
      ensures forall x :: Has(x) <==> old(Has(x)) && x != node
      ensures old(node in orphans) ==> tree == old(tree) && orphans == Without(old(orphans), node)
      ensures old(node in InOrder(tree)) ==>
        && Dropped(old(nodes[..]), old(InOrder(tree)), old(orphans), node, mid, maxHeight, InOrder(tree), orphans)
        && (old(orphans) == [] ==> arrival == old(arrival) && clock == old(clock))
      ensures old(Unstranded()) ==> Unstranded()
    {
      ghost var h, s, o := nodes[..], InOrder(tree), orphans;
      mid := tree;
      if nodes[node].isOrphan {
        WithoutMembers(o, node);
        DeleteOrphan(node);
        return;
      }
      assert node in s;
      OrphansElsewhere();
      mid := DeleteThenRetry(node);
      TreeNoDup(h, old(tree));
      DroppedMembers(h, s, o, node, mid, maxHeight, InOrder(tree), orphans);
    }

    /** The same for an element of the tree. */
    method DeleteThenRetry(node: nat) returns (ghost mid: Tree)
      requires Valid() && node in InOrder(tree)
      modifies this, nodes
      ensures Valid() && SameKeys(old(nodes[..]), nodes[..])
      ensures Dropped(old(nodes[..]), old(InOrder(tree)), old(orphans), node, mid, maxHeight, InOrder(tree), orphans)
      ensures if old(orphans) == [] then arrival == old(arrival) && clock == old(clock) else tree != Leaf
    {
      ghost var h := nodes[..];
      DeleteFromTree(node);
      mid := tree;
      LinkedShape(nodes[..], mid, 0);
      if orphans != [] {
        SlotFrame(nodes[..], h, InOrder(tree), h[orphans[0]].key);
        SearchDepthFrame(nodes[..], h, tree, h[orphans[0]].key);
      }
      ghost var depth, placed := RetryOrphan();
    }

    /** Nothing waits as an orphan while the tree is empty. */
    ghost predicate Unstranded()
      reads this
    {
      orphans != [] ==> tree != Leaf
    }

    /** avl_tree_pop_min: null exactly when nothing is stored, else the first element
        in the tree's order. */
    method PopMin() returns (x: nat, ghost mid: Tree)
      requires Valid() && Unstranded()
      modifies this, nodes
      ensures Valid() && Unstranded() && SameKeys(old(nodes[..]), nodes[..])
      ensures x == 0 <==> forall y :: !old(Has(y))
      ensures x == 0 ==> tree == old(tree) && orphans == old(orphans)
      ensures x != 0 ==> old(InOrder(tree)) != [] && x == old(InOrder(tree))[0]
      ensures x != 0 ==>
        Dropped(old(nodes[..]), old(InOrder(tree)), old(orphans), x, mid, maxHeight, InOrder(tree), orphans)
      ensures forall y :: Has(y) <==> old(Has(y)) && y != x
      ensures old(orphans) == [] ==> orphans == [] && arrival == old(arrival) && clock == old(clock)
      ensures old(orphans) == [] && x != 0 ==> InOrder(tree) == old(InOrder(tree))[1..]
    {
      NothingStored();
      mid := tree;
      x := minId;
      if x != 0 {
        EndWithout(nodes[..], tree);
        OrphansElsewhere();
        mid := Delete(x);
      }
    }

    /** avl_tree_pop_max */
    method PopMax() returns (x: nat, ghost mid: Tree)
      requires Valid() && Unstranded()
      modifies this, nodes
      ensures Valid() && Unstranded() && SameKeys(old(nodes[..]), nodes[..])
      ensures x == 0 <==> forall y :: !old(Has(y))
      ensures x == 0 ==> tree == old(tree) && orphans == old(orphans)
      ensures x != 0 ==> old(InOrder(tree)) != [] && x == old(InOrder(tree))[|old(InOrder(tree))| - 1]
      ensures x != 0 ==>
        Dropped(old(nodes[..]), old(InOrder(tree)), old(orphans), x, mid, maxHeight, InOrder(tree), orphans)
      ensures forall y :: Has(y) <==> old(Has(y)) && y != x
      ensures old(orphans) == [] ==> orphans == [] && arrival == old(arrival) && clock == old(clock)
      ensures old(orphans) == [] && x != 0 ==> InOrder(tree) == old(InOrder(tree)[..|InOrder(tree)| - 1])
    {
      NothingStored();
      mid := tree;
      x := maxId;
      if x != 0 {
        EndWithout(nodes[..], tree);
        OrphansElsewhere();
        mid := Delete(x);
      }
    }

    lemma NothingStored()
      requires Valid() && Unstranded()
      ensures InOrder(tree) == [] <==> forall y :: !Has(y)
      ensures 0 !in InOrder(tree) && 0 !in orphans
    {
      if InOrder(tree) != [] { assert Has(InOrder(tree)[0]); }
      if tree != Leaf { assert Has(tree.id); }
    }

    lemma OrphansElsewhere()
      requires Valid()
      ensures forall x :: x in InOrder(tree) ==> x !in orphans
    {
      forall x | x in orphans ensures x !in InOrder(tree) { NotBoth(nodes[..], InOrder(tree), orphans, x); }
    }
  }
}
