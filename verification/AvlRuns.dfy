/**
  Whole runs of lib/avl.bpf.h.  The reference is a plain list of ids, kept sorted by
  stable insertion; with the default height cap of 23 and an array of at most 65536
  elements the tree is indistinguishable from it.
 */
module AvlRuns {
  import opened AvlShape
  import opened AvlHeap
  import opened AvlOrder
  import opened AvlSearch
  import opened AvlUpdate
  import opened AvlTrees

  const MAX_AVL_HEIGHT: nat := 23
  const MAX_ELEMENTS: nat := 65536

  datatype Op = Insert(id: nat, key: nat) | Delete(id: nat) | PopMin | PopMax

  /** The ids stored, in order, and the key of every array element. */
  datatype Listing = Listing(ids: seq<nat>, keys: seq<nat>)

  ghost predicate WellFormed(l: Listing) {
    forall i :: 0 <= i < |l.ids| ==> l.ids[i] < |l.keys|
  }

  function StableInsert(keys: seq<nat>, s: seq<nat>, x: nat): seq<nat>
    requires x < |keys| && forall i :: 0 <= i < |s| ==> s[i] < |keys|
  {
    if s == [] || keys[s[0]] > keys[x] then [x] + s else [s[0]] + StableInsert(keys, s[1..], x)
  }

  /** One operation on the list.  Inserting a present or deleting an absent element is
      not done (the tree's callers must not do it). */
  function Apply(l: Listing, op: Op): (Listing, seq<nat>)
    requires WellFormed(l)
  {
    match op
    case Insert(id, key) =>
      if 0 < id < |l.keys| && id !in l.ids
      then (Listing(StableInsert(l.keys[id := key], l.ids, id), l.keys[id := key]), [])
      else (l, [])
    case Delete(id) => (l.(ids := Without(l.ids, id)), [])
    case PopMin => if l.ids == [] then (l, [0]) else (l.(ids := l.ids[1..]), [l.ids[0]])
    case PopMax => if l.ids == [] then (l, [0]) else (l.(ids := l.ids[..|l.ids| - 1]), [l.ids[|l.ids| - 1]])
  }

  /** The list and the popped ids after a run. */
  ghost function Outcome(l: Listing, ops: seq<Op>): (Listing, seq<nat>)
    requires WellFormed(l)
    ensures WellFormed(Outcome(l, ops).0)
    decreases |ops|
  {
    if ops == [] then (l, [])
    else
      var (l1, out1) := Outcome(l, ops[..|ops| - 1]);
      var (l2, out2) := Apply(l1, ops[|ops| - 1]);
      ApplyWellFormed(l1, ops[|ops| - 1]);
      (l2, out1 + out2)
  }

  lemma ApplyWellFormed(l: Listing, op: Op)
    requires WellFormed(l)
    ensures WellFormed(Apply(l, op).0)
  {
    match op
    case Insert(id, key) =>
      if 0 < id < |l.keys| && id !in l.ids { StableInsertMembers(l.keys[id := key], l.ids, id); }
    case Delete(id) => WithoutSubset(l.ids, id);
    case PopMin =>
    case PopMax =>
  }

  lemma {:induction false} StableInsertMembers(keys: seq<nat>, s: seq<nat>, x: nat)
    requires x < |keys| && forall i :: 0 <= i < |s| ==> s[i] < |keys|
    ensures forall i :: 0 <= i < |StableInsert(keys, s, x)| ==> StableInsert(keys, s, x)[i] < |keys|
    decreases s
  {
    if s != [] && keys[s[0]] <= keys[x] { StableInsertMembers(keys, s[1..], x); }
  }

  lemma {:induction false} WithoutSubset(s: seq<nat>, x: nat)
    ensures forall i :: 0 <= i < |Without(s, x)| ==> Without(s, x)[i] in s
    decreases s
  {
    if s != [] && s[0] != x {
      WithoutSubset(s[1..], x);
      assert forall i :: 0 <= i < |Without(s[1..], x)| ==> Without(s[1..], x)[i] in s[1..];
    }
  }

  // ---------------------------------------------------------------- refinement

  function Keys(h: Heap): seq<nat> {
    seq(|h|, i requires 0 <= i < |h| => h[i].key)
  }

  lemma {:induction false} PlacedIsStable(h: Heap, s: seq<nat>, x: nat)
    requires InRange(h, s) && x < |h|
    ensures Placed(h, s, x) == StableInsert(Keys(h), s, x)
    decreases s
  {
    if s != [] && h[s[0]].key <= h[x].key {
      PlacedIsStable(h, s[1..], x);
      var p := Slot(h, s[1..], h[x].key);
      assert [s[0]] + (s[1..][..p] + [x] + s[1..][p..]) == s[..p + 1] + [x] + s[p + 1..];
    } else {
      assert s[..0] + [x] + s[0..] == [x] + s;
    }
  }

  /** With at most 65536 elements the search path of an absent element is below the cap. */
  lemma RoomForAll(h: Heap, tree: Tree, node: nat, key: nat)
    requires Linked(h, tree, 0) && 0 < node < |h| <= MAX_ELEMENTS + 1 && node !in InOrder(tree)
    ensures SearchDepth(h, tree, key) < MAX_AVL_HEIGHT
  {
    LinkedShape(h, tree, 0);
    InOrderIds(tree);
    SixtyFourKLeavesRoom(tree, |h| - 1, node);
    SearchDepthBound(h, tree, key);
  }

  ghost predicate Refines(t: AvlTree, l: Listing)
    reads t, t.nodes
  {
    && t.Valid() && t.orphans == [] && t.maxHeight == MAX_AVL_HEIGHT && t.nodes.Length <= MAX_ELEMENTS + 1
    && l == Listing(InOrder(t.tree), Keys(t.nodes[..]))
  }

  method InsertOp(t: AvlTree, id: nat, key: nat, ghost l: Listing)
    requires Refines(t, l) && 0 < id < t.nodes.Length && id !in l.ids
    modifies t, t.nodes
    ensures WellFormed(l) && Refines(t, Apply(l, Op.Insert(id, key)).0)
  {
    t.SetKey(id, key);
    ghost var h := t.nodes[..];
    RoomForAll(h, t.tree, id, key);
    PlacedIsStable(h, InOrder(t.tree), id);
    assert Keys(h) == l.keys[id := key];
    t.Insert(id);
    assert Keys(t.nodes[..]) == Keys(h);
  }

  method DeleteOp(t: AvlTree, id: nat, ghost l: Listing)
    requires Refines(t, l) && id in l.ids
    modifies t, t.nodes
    ensures WellFormed(l) && Refines(t, Apply(l, Op.Delete(id)).0)
  {
    t.OrphansElsewhere();
    ghost var mid := t.Delete(id);
    assert Keys(t.nodes[..]) == l.keys;
  }

  method PopMinOp(t: AvlTree, ghost l: Listing) returns (x: nat)
    requires Refines(t, l)
    modifies t, t.nodes
    ensures WellFormed(l) && Refines(t, Apply(l, Op.PopMin).0) && Apply(l, Op.PopMin).1 == [x]
  {
    t.NothingStored();
    ghost var mid;
    x, mid := t.PopMin();
    assert Keys(t.nodes[..]) == l.keys;
  }

  method PopMaxOp(t: AvlTree, ghost l: Listing) returns (x: nat)
    requires Refines(t, l)
    modifies t, t.nodes
    ensures WellFormed(l) && Refines(t, Apply(l, Op.PopMax).0) && Apply(l, Op.PopMax).1 == [x]
  {
    t.NothingStored();
    ghost var mid;
    x, mid := t.PopMax();
    assert Keys(t.nodes[..]) == l.keys;
  }

  /** The ids stored after an operation, as a set. */
  function Stored(stored: set<nat>, n: nat, op: Op, popped: seq<nat>): set<nat> {
    match op
    case Insert(id, _) => if 0 < id < n then stored + {id} else stored
    case Delete(id) => stored - {id}
    case PopMin => stored - (set x | x in popped)
    case PopMax => stored - (set x | x in popped)
  }

  lemma ApplyMembers(l: Listing, op: Op, stored: set<nat>)
    requires WellFormed(l) && NoDup(l.ids) && 0 !in l.ids && forall x :: x in stored <==> x in l.ids
    ensures var (l', popped) := Apply(l, op);
      forall x :: x in Stored(stored, |l.keys|, op, popped) <==> x in l'.ids
  {
    match op
    case Insert(id, key) =>
      if 0 < id < |l.keys| && id !in l.ids { InsertMembers(l.keys[id := key], l.ids, id); }
    case Delete(id) => WithoutMembers(l.ids, id);
    case PopMin => if l.ids != [] { assert l.ids == [l.ids[0]] + l.ids[1..]; }
    case PopMax =>
      if l.ids != [] { assert l.ids == l.ids[..|l.ids| - 1] + [l.ids[|l.ids| - 1]]; }
  }

  lemma {:induction false} InsertMembers(keys: seq<nat>, s: seq<nat>, x: nat)
    requires x < |keys| && forall i :: 0 <= i < |s| ==> s[i] < |keys|
    ensures forall y :: y in StableInsert(keys, s, x) <==> y in s || y == x
    decreases s
  {
    if s != [] && keys[s[0]] <= keys[x] {
      InsertMembers(keys, s[1..], x);
      assert s == [s[0]] + s[1..];
    }
  }

  lemma {:induction false} WithoutAbsent(s: seq<nat>, x: nat)
    requires x !in s
    ensures Without(s, x) == s
    decreases s
  {
    if s != [] { WithoutAbsent(s[1..], x); }
  }

  method Perform(t: AvlTree, op: Op, stored: set<nat>, ghost l: Listing) returns (popped: seq<nat>)
    requires Refines(t, l) && forall x :: x in stored <==> x in l.ids
    modifies t, t.nodes
    ensures WellFormed(l) && Refines(t, Apply(l, op).0) && popped == Apply(l, op).1
  {
    popped := [];
    match op {
      case Insert(id, key) =>
        if 0 < id < t.nodes.Length && id !in stored {
          InsertOp(t, id, key, l);
        }
      case Delete(id) =>
        if id in stored {
          DeleteOp(t, id, l);
        } else {
          WithoutAbsent(l.ids, id);
        }
      case PopMin =>
        var x := PopMinOp(t, l);
        popped := [x];
      case PopMax =>
        var x := PopMaxOp(t, l);
        popped := [x];
    }
  }

  lemma RefinesFacts(t: AvlTree, l: Listing)
    requires Refines(t, l)
    ensures WellFormed(l) && NoDup(l.ids) && 0 !in l.ids && |l.keys| == t.nodes.Length
  {
    TreeNoDup(t.nodes[..], t.tree);
    t.NothingStored();
  }

  lemma OutcomeSnoc(l: Listing, ops: seq<Op>, i: nat)
    requires WellFormed(l) && i < |ops|
    ensures var (l1, out1) := Outcome(l, ops[..i]); var (l2, out2) := Apply(l1, ops[i]);
      Outcome(l, ops[..i + 1]) == (l2, out1 + out2)
  {
    assert ops[..i + 1][..i] == ops[..i] && ops[..i + 1][i] == ops[i];
  }

  /** Any run on at most 65536 elements: no orphan is ever created, the tree's order is
      the stable sorted list, and the pops return what the list would. */
  method Run(arr: array<AvlNode>, ops: seq<Op>) returns (t: AvlTree, out: seq<nat>)
    requires 0 < arr.Length <= MAX_ELEMENTS + 1
    modifies arr
    ensures var (l, popped) := Outcome(Listing([], Keys(old(arr[..]))), ops);
      t.Valid() && t.orphans == [] && InOrder(t.tree) == l.ids && Keys(arr[..]) == l.keys && out == popped
  {
    t := new AvlTree(arr, MAX_AVL_HEIGHT);
    out := [];
    ghost var l0 := Listing([], Keys(arr[..]));
    ghost var l := l0;
    var stored: set<nat> := {};
    for i := 0 to |ops|
      invariant t.nodes == arr && fresh(t) && Refines(t, l) && WellFormed(l)
      invariant Outcome(l0, ops[..i]) == (l, out)
      invariant forall x :: x in stored <==> x in l.ids
    {
      RefinesFacts(t, l);
      ApplyMembers(l, ops[i], stored);
      OutcomeSnoc(l0, ops, i);
      var popped := Perform(t, ops[i], stored, l);
      out, stored := out + popped, Stored(stored, arr.Length, ops[i], popped);
      l := Apply(l, ops[i]).0;
      ApplyWellFormed(Outcome(l0, ops[..i]).0, ops[i]);
    }
    assert ops[..|ops|] == ops;
  }

  /** Repeated pop_min on an orphan-free tree: the keys come out in non-decreasing order,
      and equal keys in the order in which they arrived. */
  method Drain(t: AvlTree) returns (out: seq<nat>)
    requires t.Valid() && t.orphans == []
    modifies t, t.nodes
    ensures t.Valid() && InOrder(t.tree) == [] && out == old(InOrder(t.tree))
    ensures SameKeys(old(t.nodes[..]), t.nodes[..]) && t.arrival == old(t.arrival)
    ensures Arrived(t.nodes[..], out, t.arrival, old(t.clock))
  {
    ghost var h, s0 := t.nodes[..], InOrder(t.tree);
    out := PopAll(t);
    ArrivedFrame(h, t.nodes[..], s0, t.arrival, old(t.clock));
  }

  method PopAll(t: AvlTree) returns (out: seq<nat>)
    requires t.Valid() && t.orphans == []
    modifies t, t.nodes
    ensures t.Valid() && InOrder(t.tree) == [] && out == old(InOrder(t.tree))
    ensures SameKeys(old(t.nodes[..]), t.nodes[..]) && t.arrival == old(t.arrival)
  {
    ghost var h := t.nodes[..];
    out := [];
    var more := true;
    while more
      invariant t.Valid() && t.orphans == [] && t.arrival == old(t.arrival) && SameKeys(h, t.nodes[..])
      invariant old(InOrder(t.tree)) == out + InOrder(t.tree)
      invariant more || InOrder(t.tree) == []
      decreases |InOrder(t.tree)|, more
    {
      var x := PopOne(t);
      if x == 0 {
        more := false;
      } else {
        out := out + [x];
      }
    }
    assert out + [] == out;
  }

  method PopOne(t: AvlTree) returns (x: nat)
    requires t.Valid() && t.orphans == []
    modifies t, t.nodes
    ensures t.Valid() && t.orphans == [] && t.arrival == old(t.arrival) && SameKeys(old(t.nodes[..]), t.nodes[..])
    ensures x == 0 <==> old(InOrder(t.tree)) == []
    ensures old(InOrder(t.tree)) == (if x == 0 then [] else [x]) + InOrder(t.tree)
  {
    t.NothingStored();
    ghost var s, mid := InOrder(t.tree), Leaf;
    x, mid := t.PopMin();
    assert x != 0 ==> s == [x] + s[1..];
  }

  // ---------------------------------------------------------------- any height cap

  /** What is stored after i operations, by the operations and the popped ids alone. */
  ghost function StoredAfter(n: nat, ops: seq<Op>, out: seq<seq<nat>>, i: nat): set<nat>
    requires i <= |ops| && i <= |out|
  {
    if i == 0 then {} else Stored(StoredAfter(n, ops, out, i - 1), n, ops[i - 1], out[i - 1])
  }

  lemma {:induction false} StoredFrame(n: nat, ops: seq<Op>, out: seq<seq<nat>>, popped: seq<nat>, i: nat)
    requires i <= |ops| && i <= |out|
    ensures StoredAfter(n, ops, out + [popped], i) == StoredAfter(n, ops, out, i)
    decreases i
  {
    if i > 0 { StoredFrame(n, ops, out, popped, i - 1); }
  }

  /** The tree, the orphan list and the keys at one moment. */
  datatype Snapshot = Snapshot(keys: seq<nat>, tree: Tree, orphans: seq<nat>) {
    function Order(): seq<nat> { InOrder(tree) }
  }

  ghost function Snap(t: AvlTree): Snapshot
    reads t, t.nodes
  {
    Snapshot(Keys(t.nodes[..]), t.tree, t.orphans)
  }

  ghost predicate Within(s: seq<nat>, n: nat) {
    forall i :: 0 <= i < |s| ==> s[i] < n
  }

  /** The hole in a tree where a key belongs: after all keys that are not above it. */
  ghost predicate HoleFor(keys: seq<nat>, tree: Tree, key: nat, q: Path) {
    && Plug(q, Leaf) == tree
    && (forall i :: 0 <= i < |Before(q)| ==> Before(q)[i] < |keys| && keys[Before(q)[i]] <= key)
    && (forall i :: 0 <= i < |After(q)| ==> After(q)[i] < |keys| && keys[After(q)[i]] > key)
  }

  /** id comes to a tree and its orphans, and b is the outcome: id is in the place of its key if the
      path to the hole there is shorter than the cap, and else it is the first orphan. */
  ghost predicate Enters(tree: Tree, orphans: seq<nat>, id: nat, cap: nat, b: Snapshot)
    requires id < |b.keys|
  {
    Within(InOrder(tree), |b.keys|) && exists q :: HoleFor(b.keys, tree, b.keys[id], q) && EntersAt(tree, orphans, id, cap, b, q)
  }

  ghost predicate EntersAt(tree: Tree, orphans: seq<nat>, id: nat, cap: nat, b: Snapshot, q: Path)
    requires id < |b.keys| && Within(InOrder(tree), |b.keys|)
  {
    if Len(q) < cap then b.orphans == orphans && b.Order() == StableInsert(b.keys, InOrder(tree), id)
    else b.Order() == InOrder(tree) && b.orphans == [id] + orphans
  }

  /** id has gone; if it was in the tree, the first orphan has come to what is left of the tree. */
  ghost predicate Removes(a: Snapshot, id: nat, cap: nat, b: Snapshot) {
    b.keys == a.keys &&
    if id in a.orphans then b.tree == a.tree && b.orphans == Without(a.orphans, id)
    else exists mid :: Left(a, id, cap, b, mid)
  }

  ghost predicate Left(a: Snapshot, id: nat, cap: nat, b: Snapshot, mid: Tree) {
    && Balanced(mid) && Ht(mid) <= cap && InOrder(mid) == Without(a.Order(), id)
    && if a.orphans == [] then b.Order() == InOrder(mid) && b.orphans == []
       else a.orphans[0] < |b.keys| && Enters(mid, a.orphans[1..], a.orphans[0], cap, b)
  }

  /** One operation under a cap; a pop takes the first or the last element in order, or nothing if
      there is none. */
  ghost predicate CappedStep(a: Snapshot, op: Op, cap: nat, popped: seq<nat>, b: Snapshot) {
    match op
    case Insert(id, key) =>
      && popped == []
      && if 0 < id < |a.keys| && id !in a.Order() && id !in a.orphans
         then b.keys == a.keys[id := key] && Enters(a.tree, a.orphans, id, cap, b) else b == a
    case Delete(id) => popped == [] && if id in a.Order() || id in a.orphans then Removes(a, id, cap, b) else b == a
    case PopMin =>
      if a.Order() == [] then popped == [0] && b == a else popped == [a.Order()[0]] && Removes(a, a.Order()[0], cap, b)
    case PopMax =>
      if a.Order() == [] then popped == [0] && b == a
      else popped == [a.Order()[|a.Order()| - 1]] && Removes(a, a.Order()[|a.Order()| - 1], cap, b)
  }

  /** In order by key, nothing twice, and no orphan waits beside an empty tree. */
  ghost predicate Orderly(a: Snapshot) {
    && Within(a.Order(), |a.keys|) && NoDup(a.Order()) && NoDup(a.orphans) && (a.orphans != [] ==> a.Order() != [])
    && forall i, j :: 0 <= i < j < |a.Order()| ==> a.keys[a.Order()[i]] <= a.keys[a.Order()[j]]
  }

  ghost predicate Keeps(t: AvlTree, stored: set<nat>)
    reads t, t.nodes
  {
    t.Valid() && t.Unstranded() && forall x :: x in stored <==> t.Has(x)
  }

  lemma SnapOrderly(t: AvlTree)
    requires t.Valid() && t.Unstranded()
    ensures Orderly(Snap(t))
  {
    ghost var h, s := t.nodes[..], InOrder(t.tree);
    TreeNoDup(h, t.tree);
    forall i, j | 0 <= i < j < |s| ensures h[s[i]].key <= h[s[j]].key { assert Precedes(h, t.arrival, s[i], s[j]); }
  }

  /** The search path decides as the path to the hole does. */
  lemma EntersBySearch(h: Heap, arrival: seq<nat>, clock: nat, tree: Tree, orphans: seq<nat>, id: nat, cap: nat, b: Snapshot)
    requires Arrived(h, InOrder(tree), arrival, clock) && id < |h| && b.keys == Keys(h)
    requires if SearchDepth(h, tree, h[id].key) >= cap then b.Order() == InOrder(tree) && b.orphans == [id] + orphans
             else b.Order() == Placed(h, InOrder(tree), id) && b.orphans == orphans
    ensures Enters(tree, orphans, id, cap, b)
  {
    var q := SearchHole(h, arrival, Top, tree, h[id].key);
    PlacedIsStable(h, InOrder(tree), id);
    assert HoleFor(b.keys, tree, b.keys[id], q) && EntersAt(tree, orphans, id, cap, b, q);
  }

  lemma {:induction false} DroppedRemoves(h: Heap, arrival: seq<nat>, clock: nat, a: Snapshot, id: nat, mid: Tree, cap: nat, b: Snapshot)
    requires Arrived(h, a.Order(), arrival, clock) && NoDup(a.Order()) && a.keys == Keys(h) == b.keys
    requires Dropped(h, a.Order(), a.orphans, id, mid, cap, b.Order(), b.orphans) && id !in a.orphans && id in a.Order()
    ensures Removes(a, id, cap, b)
  {
    if a.orphans != [] {
      var u, v := SplitAt(a.Order(), id);
      DeleteArrived(h, u, id, v, arrival, clock);
      assert a.orphans == [a.orphans[0]] + a.orphans[1..];
      EntersBySearch(h, arrival, clock, mid, a.orphans[1..], a.orphans[0], cap, b);
    }
    assert Left(a, id, cap, b, mid);
  }

  method InsertCapped(t: AvlTree, id: nat, key: nat)
    requires t.Valid() && t.Unstranded() && 0 < id < t.nodes.Length && !t.Has(id)
    modifies t, t.nodes
    ensures t.Valid() && t.Unstranded() && forall x :: t.Has(x) <==> old(t.Has(x)) || x == id
    ensures CappedStep(old(Snap(t)), Op.Insert(id, key), t.maxHeight, [], Snap(t))
  {
    ghost var a := Snap(t);
    t.SetKey(id, key);
    ghost var h, arrival, clock := t.nodes[..], t.arrival, t.clock;
    assert Keys(h) == a.keys[id := key];
    t.Insert(id);
    assert Keys(t.nodes[..]) == Keys(h);
    EntersBySearch(h, arrival, clock, a.tree, a.orphans, id, t.maxHeight, Snap(t));
  }

  method DeleteCapped(t: AvlTree, id: nat)
    requires t.Valid() && t.Unstranded() && t.Has(id)
    modifies t, t.nodes
    ensures t.Valid() && t.Unstranded() && forall x :: t.Has(x) <==> old(t.Has(x)) && x != id
    ensures CappedStep(old(Snap(t)), Op.Delete(id), t.maxHeight, [], Snap(t))
  {
    t.OrphansElsewhere();
    SnapOrderly(t);
    ghost var h, arrival, clock, a := t.nodes[..], t.arrival, t.clock, Snap(t);
    ghost var mid := t.Delete(id);
    assert Keys(t.nodes[..]) == Keys(h);
    if id !in a.orphans { DroppedRemoves(h, arrival, clock, a, id, mid, t.maxHeight, Snap(t)); }
  }

  method PopCapped(t: AvlTree, min: bool) returns (x: nat)
    requires t.Valid() && t.Unstranded()
    modifies t, t.nodes
    ensures t.Valid() && t.Unstranded() && forall y :: t.Has(y) <==> old(t.Has(y)) && y != x
    ensures CappedStep(old(Snap(t)), if min then Op.PopMin else Op.PopMax, t.maxHeight, [x], Snap(t))
  {
    t.OrphansElsewhere();
    t.NothingStored();
    SnapOrderly(t);
    ghost var h, arrival, clock, a, mid := t.nodes[..], t.arrival, t.clock, Snap(t), Leaf;
    if min {
      x, mid := t.PopMin();
    } else {
      x, mid := t.PopMax();
    }
    assert Keys(t.nodes[..]) == Keys(h);
    if x != 0 {
      assert x in a.Order();
      DroppedRemoves(h, arrival, clock, a, x, mid, t.maxHeight, Snap(t));
    }
  }

  method PerformCapped(t: AvlTree, op: Op, stored: set<nat>) returns (popped: seq<nat>)
    requires Keeps(t, stored)
    modifies t, t.nodes
    ensures Keeps(t, Stored(stored, t.nodes.Length, op, popped)) && CappedStep(old(Snap(t)), op, t.maxHeight, popped, Snap(t))
  {
    popped := [];
    match op {
      case Insert(id, key) =>
        if 0 < id < t.nodes.Length && id !in stored {
          InsertCapped(t, id, key);
        }
      case Delete(id) =>
        if id in stored {
          DeleteCapped(t, id);
        }
      case PopMin =>
        var x := PopCapped(t, true);
        popped := [x];
      case PopMax =>
        var x := PopCapped(t, false);
        popped := [x];
    }
  }

  /** The moments of a run: each follows from the one before by the operation. */
  ghost predicate History(ops: seq<Op>, cap: nat, out: seq<seq<nat>>, snaps: seq<Snapshot>) {
    && |out| == |ops| && |snaps| == |ops| + 1 && (forall i :: 0 <= i < |snaps| ==> Orderly(snaps[i]))
    && forall i :: 0 <= i < |ops| ==> CappedStep(snaps[i], ops[i], cap, out[i], snaps[i + 1])
  }

  lemma HistoryGrows(ops: seq<Op>, cap: nat, out: seq<seq<nat>>, snaps: seq<Snapshot>, op: Op, popped: seq<nat>, b: Snapshot)
    requires History(ops, cap, out, snaps) && CappedStep(snaps[|ops|], op, cap, popped, b) && Orderly(b)
    ensures History(ops + [op], cap, out + [popped], snaps + [b])
  {
    var ops', out', snaps' := ops + [op], out + [popped], snaps + [b];
    forall i | 0 <= i < |ops'| ensures CappedStep(snaps'[i], ops'[i], cap, out'[i], snaps'[i + 1]) {
      if i < |ops| { assert CappedStep(snaps[i], ops[i], cap, out[i], snaps[i + 1]); }
    }
  }

  /** The run has come to operation i. */
  ghost predicate Reached(t: AvlTree, ops: seq<Op>, i: nat, out: seq<seq<nat>>, stored: set<nat>, snaps: seq<Snapshot>)
    requires i <= |ops|
    reads t, t.nodes
  {
    && Keeps(t, stored) && |out| == i && stored == StoredAfter(t.nodes.Length, ops, out, i)
    && History(ops[..i], t.maxHeight, out, snaps) && snaps[i] == Snap(t)
  }

  lemma {:induction false} ReachedStart(t: AvlTree, ops: seq<Op>)
    requires Keeps(t, {})
    ensures Reached(t, ops, 0, [], {}, [Snap(t)])
  {
    SnapOrderly(t);
  }

  lemma {:induction false} StoredNext(n: nat, ops: seq<Op>, out: seq<seq<nat>>, popped: seq<nat>, i: nat)
    requires i < |ops| && |out| == i
    ensures StoredAfter(n, ops, out + [popped], i + 1) == Stored(StoredAfter(n, ops, out, i), n, ops[i], popped)
  {
    StoredFrame(n, ops, out, popped, i);
    assert (out + [popped])[i] == popped;
  }

  lemma {:induction false} HistoryNext(ops: seq<Op>, cap: nat, i: nat, out: seq<seq<nat>>, snaps: seq<Snapshot>,
      popped: seq<nat>, b: Snapshot)
    requires i < |ops| && History(ops[..i], cap, out, snaps) && CappedStep(snaps[i], ops[i], cap, popped, b) && Orderly(b)
    ensures History(ops[..i + 1], cap, out + [popped], snaps + [b])
  {
    HistoryGrows(ops[..i], cap, out, snaps, ops[i], popped, b);
    assert ops[..i + 1] == ops[..i] + [ops[i]];
  }

  lemma {:induction false} ReachedNext(t: AvlTree, ops: seq<Op>, i: nat, out: seq<seq<nat>>, stored: set<nat>,
      snaps: seq<Snapshot>, popped: seq<nat>)
    requires i < |ops| && |out| == i && stored == StoredAfter(t.nodes.Length, ops, out, i) && History(ops[..i], t.maxHeight, out, snaps)
    requires Keeps(t, Stored(stored, t.nodes.Length, ops[i], popped)) && CappedStep(snaps[i], ops[i], t.maxHeight, popped, Snap(t))
    ensures Reached(t, ops, i + 1, out + [popped], Stored(stored, t.nodes.Length, ops[i], popped), snaps + [Snap(t)])
  {
    SnapOrderly(t);
    HistoryNext(ops, t.maxHeight, i, out, snaps, popped, Snap(t));
    StoredNext(t.nodes.Length, ops, out, popped, i);
  }

  method Performed(arr: array<AvlNode>, cap: nat, ops: seq<Op>)
    returns (t: AvlTree, out: seq<seq<nat>>, stored: set<nat>, ghost snaps: seq<Snapshot>)
    requires arr.Length > 0 && cap >= 1
    modifies arr
    ensures t.nodes == arr && t.maxHeight == cap && Reached(t, ops, |ops|, out, stored, snaps)
    ensures snaps[0] == Snapshot(Keys(old(arr[..])), Leaf, [])
  {
    t := new AvlTree(arr, cap);
    out, stored, snaps := [], {}, [Snap(t)];
    ReachedStart(t, ops);
    for i := 0 to |ops|
      invariant t.nodes == arr && t.maxHeight == cap && fresh(t) && Reached(t, ops, i, out, stored, snaps)
      invariant snaps[0] == Snapshot(Keys(old(arr[..])), Leaf, [])
    {
      var popped := PerformCapped(t, ops[i], stored);
      ReachedNext(t, ops, i, out, stored, snaps, popped);
      out, stored, snaps := out + [popped], Stored(stored, arr.Length, ops[i], popped), snaps + [Snap(t)];
    }
  }

  /** Any run under any height cap: each operation does to order, orphans and keys what it should, pops
      take the ends of the order, what has been inserted and not deleted or popped is in exactly
      one of tree and orphan list, the flag says which, nothing is there twice, and the tree
      stays within the cap. */
  method RunCapped(arr: array<AvlNode>, cap: nat, ops: seq<Op>)
    returns (t: AvlTree, out: seq<seq<nat>>, ghost snaps: seq<Snapshot>)
    requires arr.Length > 0 && cap >= 1
    modifies arr
    ensures t.Valid() && t.nodes == arr && Ht(t.tree) <= cap && |out| == |ops|
    ensures History(ops, cap, out, snaps) && snaps[|ops|] == Snap(t)
    ensures snaps[0] == Snapshot(Keys(old(arr[..])), Leaf, [])
    ensures Located(arr[..], InOrder(t.tree), t.orphans, StoredAfter(arr.Length, ops, out, |ops|))
  {
    var stored;
    t, out, stored, snaps := Performed(arr, cap, ops);
    assert ops[..|ops|] == ops;
    t.OrphansElsewhere();
    Whereabouts(arr[..], InOrder(t.tree), t.orphans);
  }

  /** What is stored is in exactly one of the two places, and the flag says which. */
  ghost predicate Located(h: Heap, s: seq<nat>, o: seq<nat>, stored: set<nat>) {
    && (forall x :: x in stored <==> x in s || x in o)
    && (forall x :: x in stored ==> 0 < x < |h|)
    && (forall x :: x in stored && h[x].isOrphan ==> x in o && x !in s)
    && (forall x :: x in stored && !h[x].isOrphan ==> x in s && x !in o)
  }

  lemma Whereabouts(h: Heap, s: seq<nat>, o: seq<nat>)
    requires InRange(h, s) && InRange(h, o) && Flagged(h, s, o)
    ensures forall x :: x in s ==> 0 < x < |h| && !h[x].isOrphan
    ensures forall x :: x in o ==> 0 < x < |h| && h[x].isOrphan
  {
  }
}
