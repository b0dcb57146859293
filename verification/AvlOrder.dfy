/**
  Key order, insertion order, and the orphan list of lib/avl.bpf.h.
 */
module AvlOrder {
  import opened AvlShape
  import opened AvlHeap

  // ---------------------------------------------------------------- keys

  ghost predicate InRange(h: Heap, s: seq<nat>) {
    forall i :: 0 <= i < |s| ==> 0 < s[i] < |h|
  }

  /** a comes before b: by key, and among equal keys by arrival in the tree. */
  ghost predicate Precedes(h: Heap, arrival: seq<nat>, a: nat, b: nat)
    requires a < |h| == |arrival| && b < |h|
  {
    h[a].key < h[b].key || (h[a].key == h[b].key && arrival[a] < arrival[b])
  }

  ghost predicate Ordered(h: Heap, arrival: seq<nat>, s: seq<nat>)
    requires |h| == |arrival| && InRange(h, s)
  {
    forall i, j :: 0 <= i < j < |s| ==> Precedes(h, arrival, s[i], s[j])
  }

  ghost predicate AllAtMost(h: Heap, s: seq<nat>, k: nat)
    requires InRange(h, s)
  {
    forall i :: 0 <= i < |s| ==> h[s[i]].key <= k
  }

  ghost predicate AllAbove(h: Heap, s: seq<nat>, k: nat)
    requires InRange(h, s)
  {
    forall i :: 0 <= i < |s| ==> h[s[i]].key > k
  }

  /** The number of leading ids of s whose keys are at most k. */
  function Slot(h: Heap, s: seq<nat>, k: nat): (p: nat)
    requires InRange(h, s)
    ensures p <= |s|
  {
    if s == [] || h[s[0]].key > k then 0 else 1 + Slot(h, s[1..], k)
  }

  /** s with node placed just after the last key that is at most its own. */
  function Placed(h: Heap, s: seq<nat>, node: nat): seq<nat>
    requires InRange(h, s) && node < |h|
  {
    var p := Slot(h, s, h[node].key);
    s[..p] + [node] + s[p..]
  }

  lemma {:induction false} SlotIs(h: Heap, a: seq<nat>, b: seq<nat>, k: nat)
    requires InRange(h, a + b) && InRange(h, a) && InRange(h, b)
    requires AllAtMost(h, a, k) && AllAbove(h, b, k)
    ensures Slot(h, a + b, k) == |a|
    decreases a
  {
    var s := a + b;
    if a == [] {
      assert s == b;
    } else {
      assert s[0] == a[0] && s[1..] == a[1..] + b;
      assert InRange(h, a[1..]);
      SlotIs(h, a[1..], b, k);
    }
  }

  /** Placing the newest arrival after its equals keeps the order. */
  lemma PlacedOrdered(h: Heap, arrival: seq<nat>, a: seq<nat>, node: nat, b: seq<nat>)
    requires |h| == |arrival| && InRange(h, a + b) && InRange(h, a) && InRange(h, b) && 0 < node < |h|
    requires Ordered(h, arrival, a + b)
    requires AllAtMost(h, a, h[node].key) && AllAbove(h, b, h[node].key)
    requires forall i :: 0 <= i < |a| ==> arrival[a[i]] < arrival[node]
    ensures InRange(h, a + [node] + b) && Ordered(h, arrival, a + [node] + b)
    ensures Placed(h, a + b, node) == a + [node] + b
  {
    SlotIs(h, a, b, h[node].key);
    var s, u := a + b, a + [node] + b;
    forall i, j | 0 <= i < j < |u| ensures Precedes(h, arrival, u[i], u[j]) {
      var i', j' := if i < |a| then i else i - 1, if j < |a| then j else j - 1;
      if i != |a| && j != |a| {
        assert u[i] == s[i'] && u[j] == s[j'];
      } else if i == |a| {
        assert u[j] == b[j - |a| - 1];
      } else {
        assert u[i] == a[i];
      }
    }
  }

  /** Dropping one element keeps the order. */
  lemma DroppedOrdered(h: Heap, arrival: seq<nat>, a: seq<nat>, x: nat, b: seq<nat>)
    requires |h| == |arrival| && InRange(h, a + [x] + b) && Ordered(h, arrival, a + [x] + b)
    ensures InRange(h, a + b) && Ordered(h, arrival, a + b)
  {
    var s, u := a + [x] + b, a + b;
    forall i | 0 <= i < |u| ensures u[i] == s[if i < |a| then i else i + 1] {}
    forall i, j | 0 <= i < j < |u| ensures Precedes(h, arrival, u[i], u[j]) {
      assert u[i] == s[if i < |a| then i else i + 1];
      assert u[j] == s[if j < |a| then j else j + 1];
    }
  }

  /** s without its first occurrence of x. */
  function Without(s: seq<nat>, x: nat): seq<nat> {
    if s == [] then [] else if s[0] == x then s[1..] else [s[0]] + Without(s[1..], x)
  }

  lemma {:induction false} WithoutIs(a: seq<nat>, x: nat, b: seq<nat>)
    requires x !in a
    ensures Without(a + [x] + b, x) == a + b
    decreases a
  {
    var s := a + [x] + b;
    if a == [] {
      assert s == [x] + b;
    } else {
      assert s[0] == a[0] && s[1..] == a[1..] + [x] + b;
      WithoutIs(a[1..], x, b);
      assert [a[0]] + (a[1..] + b) == a + b;
    }
  }

  // ---------------------------------------------------------------- orphans

  ghost predicate Hung(h: Heap, o: seq<nat>, j: nat)
    requires j < |o| && InRange(h, o)
  {
    && h[o[j]].prevOrphan == (if j == 0 then 0 else o[j - 1])
    && h[o[j]].nextOrphan == (if j + 1 < |o| then o[j + 1] else 0)
  }

  /** The orphan list: doubly linked, 0 at both ends, no repeats. */
  ghost predicate Listed(h: Heap, first: nat, o: seq<nat>) {
    && first == (if o == [] then 0 else o[0]) && InRange(h, o) && NoDup(o)
    && forall j :: 0 <= j < |o| ==> Hung(h, o, j)
  }

  ghost predicate SameOrphanLinks(h: Heap, h': Heap, o: seq<nat>)
    requires InRange(h, o)
  {
    |h| == |h'| && forall j :: 0 <= j < |o| ==>
      h'[o[j]].prevOrphan == h[o[j]].prevOrphan && h'[o[j]].nextOrphan == h[o[j]].nextOrphan
  }

  lemma ListedFrame(h: Heap, h': Heap, first: nat, o: seq<nat>)
    requires Listed(h, first, o) && SameOrphanLinks(h, h', o)
    ensures Listed(h', first, o)
  {
    forall j | 0 <= j < |o| ensures Hung(h', o, j) { assert Hung(h, o, j); }
  }

  /** The array after __insert_orphan. */
  function OrphanPushed(h: Heap, first: nat, node: nat): (h': Heap)
    requires node < |h|
    ensures |h'| == |h|
  {
    var h1 := if 0 < first < |h| then h[first := h[first].(prevOrphan := node)] else h;
    h1[node := h1[node].(nextOrphan := first, prevOrphan := 0)]
  }

  lemma PushListed(h: Heap, first: nat, o: seq<nat>, node: nat)
    requires Listed(h, first, o) && 0 < node < |h| && node !in o
    ensures Listed(OrphanPushed(h, first, node), node, [node] + o)
  {
    var h', p := OrphanPushed(h, first, node), [node] + o;
    forall j | 0 <= j < |p| ensures Hung(h', p, j) {
      if j > 0 { assert p[j] == o[j - 1] && Hung(h, o, j - 1); }
    }
  }

  /** The array after __remove_orphan. */
  function OrphanRemoved(h: Heap, node: nat): (h': Heap)
    requires node < |h|
    ensures |h'| == |h|
  {
    var prev, next := h[node].prevOrphan, h[node].nextOrphan;
    var h1 := if 0 < prev < |h| then h[prev := h[prev].(nextOrphan := next)] else h;
    var h2 := if 0 < next < |h| then h1[next := h1[next].(prevOrphan := prev)] else h1;
    h2[node := h2[node].(nextOrphan := 0, prevOrphan := 0)]
  }

  lemma RemoveListed(h: Heap, first: nat, a: seq<nat>, node: nat, b: seq<nat>)
    requires Listed(h, first, a + [node] + b)
    ensures 0 < node < |h|
    ensures Listed(OrphanRemoved(h, node), if first == node then h[node].nextOrphan else first, a + b)
  {
    var s, u, n := a + [node] + b, a + b, |a|;
    assert s[n] == node && Hung(h, s, n);
    var h' := OrphanRemoved(h, node);
    forall j | 0 <= j < |u| ensures u[j] == s[if j < n then j else j + 1] {}
    forall j | 0 <= j < |u| ensures Hung(h', u, j) {
      assert Hung(h, s, if j < n then j else j + 1);
      if j > 0 { assert u[j - 1] == s[if j - 1 < n then j - 1 else j]; }
      if j + 1 < |u| { assert u[j + 1] == s[if j + 1 < n then j + 1 else j + 2]; }
    }
    forall i, j | 0 <= i < j < |u| ensures u[i] != u[j] {
      assert u[i] == s[if i < n then i else i + 1];
      assert u[j] == s[if j < n then j else j + 1];
    }
  }

  // ---------------------------------------------------------------- whole states

  datatype Cache = Cache(minId: nat, minKey: nat, maxId: nat, maxKey: nat)

  /** The cached minimum and maximum are the two ends of the order. */
  ghost predicate Cached(h: Heap, s: seq<nat>, c: Cache)
    requires InRange(h, s)
  {
    && c.minId == (if s == [] then 0 else s[0]) && (s != [] ==> c.minKey == h[s[0]].key)
    && c.maxId == (if s == [] then 0 else s[|s| - 1]) && (s != [] ==> c.maxKey == h[s[|s| - 1]].key)
  }

  /** is_orphan tells which of the two places an element is in. */
  ghost predicate Flagged(h: Heap, s: seq<nat>, o: seq<nat>)
    requires InRange(h, s) && InRange(h, o)
  {
    && (forall i :: 0 <= i < |s| ==> !h[s[i]].isOrphan)
    && (forall i :: 0 <= i < |o| ==> h[o[i]].isOrphan)
  }

  /** In order by key, by arrival among equal keys, and all arrived before now. */
  ghost predicate Arrived(h: Heap, s: seq<nat>, arrival: seq<nat>, clock: nat) {
    && |h| == |arrival| && InRange(h, s) && Ordered(h, arrival, s)
    && forall i :: 0 <= i < |s| ==> arrival[s[i]] < clock
  }

  /** All that is true of a state beyond the links of the tree: s is the tree's
      in-order sequence and o the orphan list. */
  ghost predicate Good(h: Heap, s: seq<nat>, o: seq<nat>, arrival: seq<nat>, clock: nat, c: Cache, first: nat) {
    Arrived(h, s, arrival, clock) && Cached(h, s, c) && Listed(h, first, o) && Flagged(h, s, o)
  }
}
