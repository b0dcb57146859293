/**
  The run queue of schedulers/o1: priority buckets indexed by a bitmap, and the pair
  of an active and an expired array.
 */
module O1RunQueue {
  import opened Bits

  type Gtid = int

  const NUM_PRIO: nat := 40
  const BASE_PRIO: nat := 100

  /** The time slice, in nanoseconds. */
  const SLICE: int := 10000000

  type Buckets = seq<seq<Gtid>>

  datatype Option<T> = None | Some(value: T)

  // ---------------------------------------------------------------- specification

  /** All tasks of an array: by priority, then by position in the bucket. */
  function Flat(b: Buckets): seq<Gtid> {
    if b == [] then [] else b[0] + Flat(b[1..])
  }

  function Pushed(b: Buckets, p: nat, g: Gtid, front: bool): Buckets
    requires p < |b|
  {
    b[p := if front then [g] + b[p] else b[p] + [g]]
  }

  lemma {:induction false} FlatAppend(a: Buckets, b: Buckets)
    ensures Flat(a + b) == Flat(a) + Flat(b)
    decreases a
  {
    if a == [] {
      assert a + b == b;
    } else {
      assert (a + b)[1..] == a[1..] + b;
      FlatAppend(a[1..], b);
    }
  }

  lemma {:induction false} FlatEmpty(b: Buckets)
    requires forall i :: 0 <= i < |b| ==> b[i] == []
    ensures Flat(b) == []
    decreases b
  {
    if b != [] { FlatEmpty(b[1..]); }
  }

  /** The array seen from bucket p. */
  lemma {:induction false} FlatAt(b: Buckets, p: nat)
    requires p < |b|
    ensures Flat(b) == Flat(b[..p]) + b[p] + Flat(b[p + 1..])
  {
    assert b == b[..p] + ([b[p]] + b[p + 1..]);
    FlatAppend(b[..p], [b[p]] + b[p + 1..]);
    assert ([b[p]] + b[p + 1..])[1..] == b[p + 1..];
    assert Flat([b[p]] + b[p + 1..]) == b[p] + Flat(b[p + 1..]);
  }

  /** Changing one bucket changes that stretch of the order and no other. */
  lemma {:induction false} FlatUpdate(b: Buckets, p: nat, q: seq<Gtid>)
    requires p < |b|
    ensures Flat(b[p := q]) == Flat(b[..p]) + q + Flat(b[p + 1..])
  {
    FlatAt(b[p := q], p);
    assert b[p := q][..p] == b[..p] && b[p := q][p + 1..] == b[p + 1..];
  }

  /** The bucket of the first task in order. */
  function FirstBucket(b: Buckets): (p: nat)
    requires Flat(b) != []
    ensures p < |b| && b[p] != [] && forall i :: 0 <= i < p ==> b[i] == []
  {
    if b[0] != [] then 0 else 1 + FirstBucket(b[1..])
  }

  function Popped(b: Buckets): Buckets
    requires Flat(b) != []
  {
    var p := FirstBucket(b);
    b[p := b[p][1..]]
  }

  /** Popping takes the first task and leaves the order of the rest. */
  lemma {:induction false} FlatPopped(b: Buckets)
    requires Flat(b) != []
    ensures Flat(b)[0] == b[FirstBucket(b)][0] && Flat(Popped(b)) == Flat(b)[1..]
  {
    var p := FirstBucket(b);
    FlatAt(b, p);
    FlatUpdate(b, p, b[p][1..]);
    FlatEmpty(b[..p]);
    assert Flat(b[..p]) == [];
    FirstStretch(b[p], Flat(b[p + 1..]), Flat(b));
  }

  lemma FirstStretch(q: seq<Gtid>, rest: seq<Gtid>, s: seq<Gtid>)
    requires q != [] && s == [] + q + rest
    ensures s[0] == q[0] && [] + q[1..] + rest == s[1..]
  {
  }

  /** A push lands somewhere in the order and leaves the rest of it alone. */
  lemma {:induction false} FlatPushed(b: Buckets, p: nat, g: Gtid, front: bool) returns (x: seq<Gtid>, y: seq<Gtid>)
    requires p < |b|
    ensures Flat(b) == x + y && Flat(Pushed(b, p, g, front)) == x + [g] + y
  {
    var lo, hi := Flat(b[..p]), Flat(b[p + 1..]);
    FlatAt(b, p);
    FlatUpdate(b, p, if front then [g] + b[p] else b[p] + [g]);
    if front {
      x, y := lo, b[p] + hi;
      assert lo + ([g] + b[p]) + hi == x + [g] + y;
    } else {
      x, y := lo + b[p], hi;
      assert lo + (b[p] + [g]) + hi == x + [g] + y;
    }
  }

  lemma {:induction false} FlatHas(b: Buckets, g: Gtid)
    ensures g in Flat(b) <==> exists p :: 0 <= p < |b| && g in b[p]
    decreases b
  {
    if b != [] {
      FlatHas(b[1..], g);
      if p :| 0 <= p < |b[1..]| && g in b[1..][p] { assert g in b[p + 1]; }
      if p :| 0 < p < |b| && g in b[p] { assert b[1..][p - 1] == b[p]; }
    }
  }

  /** A task found in no other bucket occurs in the order as often as in its bucket. */
  lemma {:induction false} FlatCount(b: Buckets, p: nat, g: Gtid)
    requires p < |b| && forall r :: 0 <= r < |b| && r != p ==> g !in b[r]
    ensures multiset(Flat(b))[g] == multiset(b[p])[g]
  {
    FlatAt(b, p);
    FlatHas(b[..p], g);
    FlatHas(b[p + 1..], g);
    assert g !in multiset(Flat(b[..p])) && g !in multiset(Flat(b[p + 1..]));
  }

  /** q without the first occurrence of g. */
  function Less(q: seq<Gtid>, g: Gtid): seq<Gtid> {
    if q == [] then [] else if q[0] == g then q[1..] else [q[0]] + Less(q[1..], g)
  }

  lemma {:induction false} LessIs(q: seq<Gtid>, k: nat)
    requires k < |q| && q[k] !in q[..k]
    ensures Less(q, q[k]) == q[..k] + q[k + 1..]
    decreases k
  {
    if k > 0 {
      var r := q[1..];
      assert r[k - 1] == q[k] && r[..k - 1] == q[1..k] && q[0] in q[..k];
      assert forall x :: x in q[1..k] ==> x in q[..k];
      LessIs(r, k - 1);
      assert [q[0]] + (r[..k - 1] + r[k..]) == q[..k] + q[k + 1..];
    }
  }

  lemma {:induction false} LessAbsent(q: seq<Gtid>, g: Gtid)
    requires g !in q
    ensures Less(q, g) == q
    decreases q
  {
    if q != [] { LessAbsent(q[1..], g); }
  }

  lemma {:induction false} LessJoin(a: seq<Gtid>, b: seq<Gtid>, g: Gtid)
    ensures Less(a + b, g) == if g in a then Less(a, g) + b else a + Less(b, g)
    decreases a
  {
    if a == [] {
      assert a + b == b;
    } else {
      assert (a + b)[1..] == a[1..] + b;
      if a[0] != g { LessJoin(a[1..], b, g); }
    }
  }

  /** Erasing the only occurrence of g erases it from the order. */
  lemma {:induction false} FlatLess(b: Buckets, p: nat, g: Gtid)
    requires p < |b| && g in b[p] && multiset(Flat(b))[g] == 1
    ensures Flat(b[p := Less(b[p], g)]) == Less(Flat(b), g)
  {
    FlatAt(b, p);
    FlatUpdate(b, p, Less(b[p], g));
    LessMiddle(Flat(b[..p]), b[p], Flat(b[p + 1..]), g);
  }

  lemma {:induction false} LessMiddle(lo: seq<Gtid>, q: seq<Gtid>, hi: seq<Gtid>, g: Gtid)
    requires g in q && multiset(lo + q + hi)[g] == 1
    ensures Less(lo + q + hi, g) == lo + Less(q, g) + hi
  {
    assert multiset(lo + q + hi)[g] == multiset(lo)[g] + multiset(q)[g] + multiset(hi)[g];
    assert g in multiset(q) && g !in multiset(lo);
    assert lo + q + hi == lo + (q + hi);
    LessJoin(lo, q + hi, g);
    LessJoin(q, hi, g);
  }

  // ---------------------------------------------------------------- PrioArray

  class PrioArray {
    var bitmap: nat
    var queues: Buckets

    /** Bit i is set exactly when bucket i is not empty. */
    ghost predicate Valid()
      reads this
    {
      && |queues| == NUM_PRIO && IsWord(bitmap)
      && forall i :: i in Members(bitmap) <==> 0 <= i < NUM_PRIO && queues[i] != []
    }

    constructor ()
      ensures Valid() && queues == seq(NUM_PRIO, i => [])
    {
      bitmap, queues := 0, seq(NUM_PRIO, i => []);
      new;
      ZeroWord(0);
    }

    lemma BitmapZero()
      requires Valid()
      ensures bitmap == 0 <==> Flat(queues) == []
    {
      ZeroWord(bitmap);
      if bitmap == 0 {
        assert forall i :: 0 <= i < NUM_PRIO ==> queues[i] == [];
        FlatEmpty(queues);
      } else {
        FlatAt(queues, Ctz(bitmap));
      }
    }

    method Empty() returns (r: bool)
      requires Valid()
      ensures r <==> Flat(queues) == []
    {
      BitmapZero();
      return bitmap == 0;
    }

    method Size() returns (total: nat)
      requires Valid()
      ensures total == |Flat(queues)|
    {
      total := 0;
      for i := 0 to NUM_PRIO
        invariant total == |Flat(queues[..i])|
      {
        assert queues[..i + 1] == queues[..i] + [queues[i]];
        FlatAppend(queues[..i], [queues[i]]);
        assert Flat([queues[i]]) == queues[i] + Flat([]);
        total := total + |queues[i]|;
      }
      assert queues[..NUM_PRIO] == queues;
    }

    /** The two CHECKs on the index are the precondition. */
    method Push(g: Gtid, prio: int, front: bool)
      requires Valid() && 0 <= prio - BASE_PRIO < NUM_PRIO
      modifies this
      ensures Valid() && queues == Pushed(old(queues), prio - BASE_PRIO, g, front)
    {
      var idx := prio - BASE_PRIO;
      queues := queues[idx := if front then [g] + queues[idx] else queues[idx] + [g]];
      SetBit(bitmap, idx);
      Pow2Monotone(idx, WORD);
      OrWord(bitmap, Pow2(idx), WORD);
      bitmap := Or(bitmap, Pow2(idx));
    }

    /** Bit idx is cleared when its bucket has become empty. */
    method DropBit(idx: nat)
      requires |queues| == NUM_PRIO && idx < NUM_PRIO && IsWord(bitmap)
      requires forall i :: i in Members(bitmap) && i != idx <==> 0 <= i < NUM_PRIO && queues[i] != [] && i != idx
      requires idx in Members(bitmap)
      modifies this`bitmap
      ensures Valid()
    {
      if queues[idx] == [] {
        SetBit(bitmap, idx);
        AndNotLess(bitmap, Pow2(idx));
        bitmap := AndNot(bitmap, Pow2(idx));
      }
    }

    /** Count-trailing-zeros finds the bucket of the first task in order. */
    method Pop() returns (r: Option<Gtid>)
      requires Valid()
      modifies this
      ensures Valid()
      ensures Flat(old(queues)) == [] ==> r == None && queues == old(queues)
      ensures Flat(old(queues)) != [] ==> r == Some(Flat(old(queues))[0]) && queues == Popped(old(queues))
    {
      BitmapZero();
      if bitmap == 0 {
        return None;
      }
      var idx := Ctz(bitmap);
      forall i | 0 <= i < idx ensures queues[i] == [] { assert i !in Members(bitmap); }
      assert idx == FirstBucket(queues);
      FlatPopped(queues);
      r := Some(queues[idx][0]);
      queues := queues[idx := queues[idx][1..]];
      DropBit(idx);
    }

    /** The task leaves its bucket if it is there. */
    method Erase(g: Gtid, prio: int) returns (found: bool)
      requires Valid() && 0 <= prio - BASE_PRIO < NUM_PRIO
      modifies this
      ensures Valid() && found == (g in old(queues)[prio - BASE_PRIO])
      ensures !found ==> queues == old(queues)
      ensures found ==> queues == old(queues)[prio - BASE_PRIO := Less(old(queues)[prio - BASE_PRIO], g)]
    {
      var idx := prio - BASE_PRIO;
      var q := queues[idx];
      var k := 0;
      while k < |q| && q[k] != g
        invariant 0 <= k <= |q| && g !in q[..k]
      {
        k := k + 1;
      }
      if k == |q| {
        return false;
      }
      LessIs(q, k);
      queues := queues[idx := q[..k] + q[k + 1..]];
      DropBit(idx);
      return true;
    }
  }

  // ---------------------------------------------------------------- O1Rq

  /** What a run queue holds. */
  datatype Rq = Rq(active: Buckets, expired: Buckets) {
    ghost predicate Shaped() {
      |active| == NUM_PRIO && |expired| == NUM_PRIO
    }

    /** (array, priority, position) order. */
    function Order(): seq<Gtid> {
      Flat(active) + Flat(expired)
    }

    /** Enqueue: to the active array while some slice remains, else to the expired one. */
    function With(g: Gtid, prio: int, remaining: int, boost: bool): Rq
      requires Shaped() && 0 <= prio - BASE_PRIO < NUM_PRIO
    {
      if remaining > 0 then Rq(Pushed(active, prio - BASE_PRIO, g, boost), expired)
      else Rq(active, Pushed(expired, prio - BASE_PRIO, g, boost))
    }

    /** Dequeue, after a swap if nothing is active. */
    function Next(): Rq
      requires Order() != []
    {
      if Flat(active) != [] then Rq(Popped(active), expired) else Rq(Popped(expired), active)
    }

    /** Erase, from the active array if it is there, else from the expired one. */
    function Without(g: Gtid, prio: int): Rq
      requires Shaped() && 0 <= prio - BASE_PRIO < NUM_PRIO
    {
      var p := prio - BASE_PRIO;
      if g in active[p] then Rq(active[p := Less(active[p], g)], expired)
      else Rq(active, expired[p := Less(expired[p], g)])
    }
  }

  /** Dequeue takes exactly the first task and keeps the order of all others. */
  lemma NextOrder(q: Rq)
    requires q.Order() != []
    ensures q.Next().Order() == q.Order()[1..]
  {
    if Flat(q.active) != [] {
      FlatPopped(q.active);
      assert Flat(q.active)[1..] + Flat(q.expired) == (Flat(q.active) + Flat(q.expired))[1..];
    } else {
      FlatPopped(q.expired);
      assert [] + Flat(q.expired) == Flat(q.expired);
      assert Flat(q.expired)[1..] + [] == Flat(q.expired)[1..];
    }
  }

  /** Enqueue puts the task somewhere into the order and keeps the order of all others. */
  lemma {:induction false} WithOrder(q: Rq, g: Gtid, prio: int, remaining: int, boost: bool)
    requires q.Shaped() && 0 <= prio - BASE_PRIO < NUM_PRIO && g !in q.Order()
    ensures Less(q.With(g, prio, remaining, boost).Order(), g) == q.Order()
  {
    var a, e := Flat(q.active), Flat(q.expired);
    var x, y := FlatPushed(if remaining > 0 then q.active else q.expired, prio - BASE_PRIO, g, boost);
    if remaining > 0 {
      assert q.With(g, prio, remaining, boost).Order() == x + ([g] + (y + e)) && a + e == x + (y + e);
      LessInserted(x, y + e, g);
    } else {
      assert q.With(g, prio, remaining, boost).Order() == (a + x) + ([g] + y) && a + e == (a + x) + y;
      LessInserted(a + x, y, g);
    }
  }

  lemma {:induction false} LessInserted(x: seq<Gtid>, y: seq<Gtid>, g: Gtid)
    requires g !in x + y
    ensures Less(x + ([g] + y), g) == x + y
  {
    LessJoin(x, [g] + y, g);
    assert ([g] + y)[1..] == y;
  }

  /** Erase takes exactly the task and keeps the order of all others. */
  lemma {:induction false} WithoutOrder(q: Rq, g: Gtid, prio: int)
    requires q.Shaped() && 0 <= prio - BASE_PRIO < NUM_PRIO && multiset(q.Order())[g] == 1
    requires g in q.active[prio - BASE_PRIO] || g in q.expired[prio - BASE_PRIO]
    ensures q.Without(g, prio).Order() == Less(q.Order(), g)
  {
    var p := prio - BASE_PRIO;
    var a, e := Flat(q.active), Flat(q.expired);
    LessJoin(a, e, g);
    FlatHas(q.active, g);
    FlatHas(q.expired, g);
    assert multiset(a)[g] + multiset(e)[g] == 1;
    if g in q.active[p] {
      assert g in multiset(a);
      FlatLess(q.active, p, g);
    } else {
      assert g in multiset(e);
      FlatLess(q.expired, p, g);
    }
  }

  /** Putting the task just dequeued back at the front restores the order, even when the
      dequeue had to swap the arrays. */
  lemma {:induction false} PutBack(q: Rq, remaining: int)
    requires q.Shaped() && q.Order() != [] && remaining > 0
    ensures var b := if Flat(q.active) != [] then q.active else q.expired;
      && Flat(b) != [] && q.Order()[0] == b[FirstBucket(b)][0] && q.Next().Shaped()
      && q.Next().With(q.Order()[0], BASE_PRIO + FirstBucket(b), remaining, true).Order() == q.Order()
  {
    var b := if Flat(q.active) != [] then q.active else q.expired;
    assert Flat(q.active) == [] ==> q.Order() == Flat(q.expired);
    FlatPopped(b);
    var p := FirstBucket(b);
    assert [b[p][0]] + b[p][1..] == b[p];
    assert Pushed(Popped(b), p, b[p][0], true) == b;
  }

  class O1Rq {
    var active: PrioArray
    var expired: PrioArray

    ghost predicate Valid()
      reads this, active, expired
    {
      active != expired && active.Valid() && expired.Valid()
    }

    ghost function View(): Rq
      reads this, active, expired
    {
      Rq(active.queues, expired.queues)
    }

    constructor ()
      ensures Valid() && fresh(active) && fresh(expired)
      ensures View() == Rq(seq(NUM_PRIO, i => []), seq(NUM_PRIO, i => []))
    {
      active := new PrioArray();
      expired := new PrioArray();
    }

    method Swap()
      requires Valid()
      modifies this
      ensures Valid() && active == old(expired) && expired == old(active)
      ensures View() == Rq(old(View()).expired, old(View()).active)
    {
      active, expired := expired, active;
    }

    /** Enqueue's run-state update is the caller's; the new remaining time is returned. */
    method Enqueue(g: Gtid, prio: int, remaining: int, boost: bool) returns (remaining': int)
      requires Valid() && 0 <= prio - BASE_PRIO < NUM_PRIO
      modifies this, active, expired
      ensures Valid() && {active, expired} == old({active, expired})
      ensures View() == old(View()).With(g, prio, remaining, boost)
      ensures remaining' == if remaining > 0 then remaining else SLICE
    {
      if remaining > 0 {
        active.Push(g, prio, boost);
        remaining' := remaining;
      } else {
        remaining' := SLICE;
        expired.Push(g, prio, boost);
      }
    }

    method Dequeue() returns (r: Option<Gtid>)
      requires Valid()
      modifies this, active, expired
      ensures Valid() && {active, expired} == old({active, expired})
      ensures old(View()).Order() == [] ==> r == None && View() == old(View())
      ensures old(View()).Order() != [] ==> r == Some(old(View()).Order()[0]) && View() == old(View()).Next()
    {
      var noActive := active.Empty();
      if noActive {
        var noExpired := expired.Empty();
        if noExpired {
          return None;
        }
        Swap();
      }
      r := active.Pop();
      assert r.Some?;   // CHECK(task != nullptr)
    }

    /** The final CHECK(false) is the last precondition. */
    method Erase(g: Gtid, prio: int)
      requires Valid() && 0 <= prio - BASE_PRIO < NUM_PRIO
      requires g in active.queues[prio - BASE_PRIO] || g in expired.queues[prio - BASE_PRIO]
      modifies active, expired
      ensures Valid() && View() == old(View()).Without(g, prio)
    {
      var found := active.Erase(g, prio);
      if found {
        return;
      }
      found := expired.Erase(g, prio);
      assert found;   // CHECK(false) on the other branch
    }

    method Size() returns (n: nat)
      requires Valid()
      ensures n == |View().Order()|
    {
      var a := active.Size();
      var e := expired.Size();
      return a + e;
    }
  }
}
