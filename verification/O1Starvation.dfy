/**
  How long a queued task can wait.  A round dequeues the first task, charges it for
  its time on the CPU and enqueues it again; no tasks arrive, leave or change
  priority.  (A priority change is left out for a reason: it re-enqueues an expired
  task, with its fresh slice, into the active array.)
 */
module O1Starvation {
  import opened O1RunQueue
  import O1State
  import O1Events

  /** A run queue with each task's remaining time and priority. */
  datatype Bench = Bench(q: Rq, left: map<Gtid, int>, prio: map<Gtid, int>)

  /** How long the dequeued task ran, and whether it comes back with a boost. */
  datatype Turn = Turn(charge: int, boost: bool)

  ghost predicate Known(b: Bench, s: seq<Gtid>) {
    forall g :: g in s ==>
      && g in b.left && 0 < b.left[g] <= SLICE
      && g in b.prio && BASE_PRIO <= b.prio[g] < BASE_PRIO + NUM_PRIO
  }

  ghost predicate NoDup(s: seq<Gtid>) {
    forall g :: multiset(s)[g] <= 1
  }

  ghost predicate Well(b: Bench) {
    b.q.Shaped() && Known(b, b.q.Order()) && NoDup(b.q.Order())
  }

  /** The remaining time of the first task. */
  ghost function First(b: Bench): (left: int)
    requires Well(b) && b.q.Order() != []
    ensures left > 0
  {
    var g := b.q.Order()[0];
    assert g in b.q.Order();
    b.left[g]
  }

  /** Dequeue, charge, Enqueue. */
  ghost function Round(b: Bench, t: Turn): Bench
    requires Well(b) && b.q.Order() != []
  {
    var g := b.q.Order()[0];
    assert g in b.q.Order();
    var left := b.left[g] - t.charge;
    NextShaped(b.q);
    Bench(b.q.Next().With(g, b.prio[g], left, t.boost), b.left[g := if left > 0 then left else SLICE], b.prio)
  }

  lemma NextShaped(q: Rq)
    requires q.Shaped() && q.Order() != []
    ensures q.Next().Shaped()
  {
  }

  // ---------------------------------------------------------------- potential

  /** The number of rounds of at least d that a slice of the given length can last:
      left / d, rounded up. */
  function Units(left: int, d: int): (n: nat)
    requires d > 0
    ensures left > 0 ==> n >= 1
    decreases left
  {
    if left <= 0 then 0 else 1 + Units(left - d, d)
  }

  lemma {:induction false} UnitsIsCeiling(left: int, d: int)
    requires d > 0 && left > 0
    ensures (Units(left, d) - 1) * d < left <= Units(left, d) * d
    decreases left
  {
    var n := Units(left, d);
    if left > d {
      UnitsIsCeiling(left - d, d);
      assert (n - 2) * d == (n - 1) * d - d && (n - 1) * d == n * d - d;
    } else {
      assert Units(left - d, d) == 0;
    }
  }

  lemma {:induction false} UnitsMonotone(a: int, b: int, d: int)
    requires d > 0 && a <= b
    ensures Units(a, d) <= Units(b, d)
    decreases b
  {
    if a > 0 { UnitsMonotone(a - d, b - d, d); }
  }

  lemma UnitsCharge(left: int, charge: int, d: int)
    requires 0 < d <= charge && 0 < left
    ensures Units(left - charge, d) <= Units(left, d) - 1
  {
    UnitsMonotone(left - charge, left - d, d);
  }

  ghost predicate Timed(left: map<Gtid, int>, s: seq<Gtid>) {
    forall g :: g in s ==> g in left && 0 < left[g] <= SLICE
  }

  ghost function Potential(left: map<Gtid, int>, s: seq<Gtid>, d: int): int
    requires d > 0 && Timed(left, s)
  {
    if s == [] then 0 else TimedHead(left, s); Units(left[s[0]], d) + Potential(left, s[1..], d)
  }

  lemma TimedParts(left: map<Gtid, int>, x: seq<Gtid>, y: seq<Gtid>, s: seq<Gtid>)
    requires s == x + y
    ensures Timed(left, s) <==> Timed(left, x) && Timed(left, y)
  {
    assert forall g :: g in s <==> g in x || g in y;
  }

  lemma TimedHead(left: map<Gtid, int>, s: seq<Gtid>)
    requires s != [] && Timed(left, s)
    ensures s[0] in left && 0 < left[s[0]] <= SLICE && Timed(left, s[1..])
  {
    var g := s[0];
    assert g in s;
    TimedParts(left, [g], s[1..], s);
  }

  lemma {:induction false} PotentialSplit(left: map<Gtid, int>, x: seq<Gtid>, y: seq<Gtid>, d: int)
    requires d > 0 && Timed(left, x) && Timed(left, y)
    ensures Timed(left, x + y) && Potential(left, x + y, d) == Potential(left, x, d) + Potential(left, y, d)
    decreases x
  {
    TimedParts(left, x, y, x + y);
    if x == [] {
      assert x + y == y;
    } else {
      assert (x + y)[1..] == x[1..] + y;
      TimedHead(left, x);
      PotentialSplit(left, x[1..], y, d);
    }
  }

  lemma {:induction false} PotentialFrame(left: map<Gtid, int>, left': map<Gtid, int>, s: seq<Gtid>, d: int)
    requires d > 0 && Timed(left, s) && forall g :: g in s ==> g in left' && left'[g] == left[g]
    ensures Timed(left', s) && Potential(left', s, d) == Potential(left, s, d)
    decreases s
  {
    if s != [] {
      TimedHead(left, s);
      PotentialFrame(left, left', s[1..], d);
      var g := s[0];
      assert g in s;
    }
  }

  lemma {:induction false} PotentialBound(left: map<Gtid, int>, s: seq<Gtid>, d: int)
    requires d > 0 && Timed(left, s)
    ensures |s| <= Potential(left, s, d) <= |s| * Units(SLICE, d)
    decreases s
  {
    if s != [] {
      TimedHead(left, s);
      PotentialBound(left, s[1..], d);
      UnitsMonotone(left[s[0]], SLICE, d);
      assert |s| * Units(SLICE, d) == (|s| - 1) * Units(SLICE, d) + Units(SLICE, d);
    }
  }

  // ---------------------------------------------------------------- one round

  ghost function Slid(s: seq<Gtid>, k: nat, g: Gtid): seq<Gtid>
    requires k <= |s|
  {
    s[..k] + [g] + s[k..]
  }

  lemma SlidMembers(s: seq<Gtid>, k: nat, g: Gtid)
    requires k <= |s|
    ensures multiset(Slid(s, k, g)) == multiset(s) + multiset{g}
  {
    assert s == s[..k] + s[k..];
  }

  /** The array that a round serves, and the other one. */
  ghost function Serving(q: Rq): seq<Gtid> {
    if Flat(q.active) == [] then Flat(q.expired) else Flat(q.active)
  }

  ghost function Waiting(q: Rq): seq<Gtid> {
    if Flat(q.active) == [] then [] else Flat(q.expired)
  }

  lemma OrderSplit(q: Rq)
    ensures q.Order() == Serving(q) + Waiting(q)
  {
  }

  /** A round takes g from the front of the array being served, and puts it somewhere into
      what remains of that array if some of its slice remains, else into the other one. */
  lemma {:induction false} RoundPasses(b: Bench, t: Turn) returns (k: nat)
    requires Well(b) && b.q.Order() != []
    ensures var g := b.q.Order()[0]; var q := Round(b, t).q;
      && Serving(b.q) != [] && Serving(b.q)[0] == g && q.Shaped() && g in b.left
      && (if b.left[g] - t.charge > 0
          then k < |Serving(b.q)| && Flat(q.active) == Slid(Serving(b.q)[1..], k, g) && Flat(q.expired) == Waiting(b.q)
          else k <= |Waiting(b.q)| && Flat(q.active) == Serving(b.q)[1..] && Flat(q.expired) == Slid(Waiting(b.q), k, g))
  {
    OrderSplit(b.q);
    var g := Serving(b.q)[0];
    assert g in b.q.Order();
    FlatPopped(if Flat(b.q.active) == [] then b.q.expired else b.q.active);
    NextShaped(b.q);
    var q1 := b.q.Next();
    var back := b.left[g] - t.charge > 0;
    var x, y := FlatPushed(if back then q1.active else q1.expired, b.prio[g] - BASE_PRIO, g, t.boost);
    k := |x|;
    assert (x + y)[..k] == x && (x + y)[k..] == y;
  }

  lemma {:induction false} RoundMembers(b: Bench, t: Turn)
    requires Well(b) && b.q.Order() != []
    ensures multiset(Round(b, t).q.Order()) == multiset(b.q.Order())
  {
    var k := RoundPasses(b, t);
    OrderSplit(b.q);
    var s, w := Serving(b.q), Waiting(b.q);
    if b.left[s[0]] - t.charge > 0 {
      SlidBack(s, w, k);
    } else {
      SlidOver(s, w, k);
    }
  }

  lemma SlidBack(s: seq<Gtid>, w: seq<Gtid>, k: nat)
    requires k < |s|
    ensures multiset(Slid(s[1..], k, s[0]) + w) == multiset(s + w)
  {
    SlidMembers(s[1..], k, s[0]);
    assert s == [s[0]] + s[1..];
  }

  lemma SlidOver(s: seq<Gtid>, w: seq<Gtid>, k: nat)
    requires s != [] && k <= |w|
    ensures multiset(s[1..] + Slid(w, k, s[0])) == multiset(s + w)
  {
    SlidMembers(w, k, s[0]);
    assert s == [s[0]] + s[1..];
  }

  /** The round keeps the run queue in shape, and keeps its members. */
  lemma {:induction false} RoundWell(b: Bench, t: Turn)
    requires Well(b) && b.q.Order() != [] && t.charge > 0
    ensures var b' := Round(b, t);
      Well(b') && |b'.q.Order()| == |b.q.Order()| && forall g :: g in b'.q.Order() <==> g in b.q.Order()
  {
    var b' := Round(b, t);
    RoundMembers(b, t);
    SameMembers(b.q.Order(), b'.q.Order());
    var k := RoundPasses(b, t);
  }

  lemma SameMembers(s: seq<Gtid>, s': seq<Gtid>)
    requires multiset(s) == multiset(s')
    ensures |s| == |s'| && forall g :: g in s <==> g in s'
  {
    assert |multiset(s)| == |s| && |multiset(s')| == |s'|;
    assert forall g :: g in s <==> g in multiset(s);
    assert forall g :: g in s' <==> g in multiset(s');
  }

  /** The work left in the array being served goes down by at least one. */
  lemma {:induction false} ServedPotential(left: map<Gtid, int>, charge: int, d: int, s: seq<Gtid>, k: nat)
    requires 0 < d <= charge && s != [] && s[0] !in s[1..] && Timed(left, s) && s[0] in left && k < |s|
    ensures var rest := left[s[0]] - charge;
      var s' := if rest > 0 then Slid(s[1..], k, s[0]) else s[1..];
      var left' := left[s[0] := if rest > 0 then rest else SLICE];
      Timed(left', s') && Potential(left', s', d) <= Potential(left, s, d) - 1
  {
    var g := s[0];
    var rest := left[g] - charge;
    var left' := left[g := if rest > 0 then rest else SLICE];
    var tail := s[1..];
    TimedParts(left, [g], tail, s);
    PotentialFrame(left, left', tail, d);
    UnitsCharge(left[g], charge, d);
    if rest > 0 {
      var x, y := tail[..k], tail[k..];
      assert tail == x + y;
      TimedParts(left', x, y, tail);
      PotentialSplit(left', x, y, d);
      OnePotential(left', g, y, d);
      assert Slid(tail, k, g) == x + ([g] + y);
      PotentialSplit(left', x, [g] + y, d);
    }
  }

  lemma OnePotential(left: map<Gtid, int>, g: Gtid, y: seq<Gtid>, d: int)
    requires d > 0 && Timed(left, y) && g in left && 0 < left[g] <= SLICE
    ensures Timed(left, [g] + y) && Potential(left, [g] + y, d) == Units(left[g], d) + Potential(left, y, d)
  {
    assert ([g] + y)[1..] == y;
  }

  lemma FirstIsOnce(s: seq<Gtid>, w: seq<Gtid>)
    requires s != [] && NoDup(s + w)
    ensures s[0] !in s[1..]
  {
    var g := s[0];
    assert s + w == [g] + s[1..] + w;
    var tail := s[1..];
    assert multiset(s + w)[g] == 1 + multiset(tail)[g] + multiset(w)[g];
    assert multiset(tail)[g] == 0;
  }

  lemma WellTimed(b: Bench)
    requires Well(b)
    ensures Timed(b.left, Flat(b.q.active)) && Timed(b.left, Serving(b.q))
  {
    OrderSplit(b.q);
  }

  /** An upper bound on the rounds until g is dequeued: the work in the active array and,
      for an expired task, one full slice for every task. */
  ghost function Wait(b: Bench, g: Gtid, d: int): int
    requires Well(b) && d > 0
  {
    WellTimed(b);
    Potential(b.left, Flat(b.q.active), d)
      + if g in Flat(b.q.active) then 0 else |b.q.Order()| * Units(SLICE, d)
  }

  /** A task that waits in the array being served goes on waiting in the active array. */
  lemma {:induction false} StillServed(b: Bench, t: Turn, g: Gtid)
    requires Well(b) && g in Serving(b.q) && t.charge > 0 && b.q.Order()[0] != g
    ensures g in Flat(Round(b, t).q.active)
  {
    var k := RoundPasses(b, t);
    var s := Serving(b.q);
    assert s == [s[0]] + s[1..];
    assert g in s[1..];
    SlidMembers(s[1..], if k < |s| then k else 0, s[0]);
    assert g in multiset(s[1..]);
  }

  lemma {:induction false} RoundWork(b: Bench, t: Turn, d: int)
    requires Well(b) && b.q.Order() != [] && 0 < d <= t.charge
    ensures var b' := Round(b, t);
      && Timed(b'.left, Flat(b'.q.active)) && Timed(b.left, Serving(b.q))
      && Potential(b'.left, Flat(b'.q.active), d) <= Potential(b.left, Serving(b.q), d) - 1
  {
    var k := RoundPasses(b, t);
    WellTimed(b);
    OrderSplit(b.q);
    FirstIsOnce(Serving(b.q), Waiting(b.q));
    ServedPotential(b.left, t.charge, d, Serving(b.q), if k < |Serving(b.q)| then k else 0);
  }

  /** A round that does not dequeue g brings g at least one round closer. */
  lemma {:induction false} RoundCloser(b: Bench, t: Turn, g: Gtid, d: int)
    requires Well(b) && g in b.q.Order() && 0 < d <= t.charge && b.q.Order()[0] != g
    ensures var b' := Round(b, t); Well(b') && g in b'.q.Order() && Wait(b', g, d) <= Wait(b, g, d) - 1
  {
    var b' := Round(b, t);
    RoundWell(b, t);
    RoundWork(b, t, d);
    ServingWait(b, g, d);
    OrderSplit(b.q);
    if g in Serving(b.q) {
      StillServed(b, t, g);
    }
    OneTurn(|b.q.Order()|, |b'.q.Order()|, d);
  }

  lemma OneTurn(m: nat, n: nat, d: int)
    requires m == n && d > 0
    ensures m * Units(SLICE, d) == n * Units(SLICE, d) >= 0
  {
  }

  /** Whether a swap is due or not, Wait covers the work of the array to be served. */
  lemma ServingWait(b: Bench, g: Gtid, d: int)
    requires Well(b) && d > 0 && g in b.q.Order()
    ensures Timed(b.left, Serving(b.q))
    ensures Potential(b.left, Serving(b.q), d) + (if g in Serving(b.q) then 0 else |b.q.Order()| * Units(SLICE, d)) <= Wait(b, g, d)
  {
    WellTimed(b);
    OrderSplit(b.q);
    if Flat(b.q.active) == [] {
      WholeTurn(b, d);
    }
  }

  /** Just before a swap, the work of the array to be served is at most a slice per task. */
  lemma WholeTurn(b: Bench, d: int)
    requires Well(b) && d > 0 && Flat(b.q.active) == []
    ensures Timed(b.left, Serving(b.q)) && Potential(b.left, Serving(b.q), d) <= |b.q.Order()| * Units(SLICE, d)
  {
    WellTimed(b);
    assert b.q.Order() == Serving(b.q);
    PotentialBound(b.left, Serving(b.q), d);
  }

  // ---------------------------------------------------------------- runs of rounds

  ghost predicate AtLeast(turns: seq<Turn>, d: int) {
    forall i :: 0 <= i < |turns| ==> turns[i].charge >= d
  }

  /** The tasks dequeued by a run of rounds, while there is one to dequeue. */
  ghost function Served(b: Bench, turns: seq<Turn>): seq<Gtid>
    decreases |turns|
  {
    if turns == [] || !Well(b) || b.q.Order() == [] then []
    else [b.q.Order()[0]] + Served(Round(b, turns[0]), turns[1..])
  }

  /** No starvation: g is dequeued within the work of the active array plus one full
      slice for every task of the run queue. */
  lemma {:induction false} NoStarvation(b: Bench, turns: seq<Turn>, g: Gtid, d: int)
    requires Well(b) && g in b.q.Order() && d > 0 && AtLeast(turns, d) && |turns| >= Wait(b, g, d)
    ensures exists k :: 0 <= k < |Served(b, turns)| && k < Wait(b, g, d) && Served(b, turns)[k] == g
    decreases |turns|
  {
    PositiveWait(b, g, d);
    var s := Served(b, turns);
    if b.q.Order()[0] == g {
      assert s[0] == g;
    } else {
      RoundCloser(b, turns[0], g, d);
      var b' := Round(b, turns[0]);
      NoStarvation(b', turns[1..], g, d);
      var s' := Served(b', turns[1..]);
      var k :| 0 <= k < |s'| && k < Wait(b', g, d) && s'[k] == g;
      assert s == [b.q.Order()[0]] + s' && s[k + 1] == g;
    }
  }

  lemma PositiveWait(b: Bench, g: Gtid, d: int)
    requires Well(b) && g in b.q.Order() && d > 0
    ensures Wait(b, g, d) >= 1
  {
    WellTimed(b);
    PotentialBound(b.left, Flat(b.q.active), d);
    if g !in Flat(b.q.active) {
      PositiveProduct(|b.q.Order()|, Units(SLICE, d));
    }
  }

  lemma PositiveProduct(m: nat, n: nat)
    requires m >= 1 && n >= 1
    ensures m * n >= 1
  {
    assert m * n == (m - 1) * n + n;
  }

  /** Every round uses up the slice of the task it dequeues. */
  ghost predicate Exhausting(b: Bench, turns: seq<Turn>)
    decreases |turns|
  {
    turns != [] && Well(b) && b.q.Order() != [] ==>
      turns[0].charge >= First(b) && Exhausting(Round(b, turns[0]), turns[1..])
  }

  lemma {:induction false} ExhaustingRound(b: Bench, t: Turn)
    requires Well(b) && b.q.Order() != [] && t.charge >= First(b)
    ensures var b' := Round(b, t); var s := Serving(b.q);
      && s != [] && s[0] == b.q.Order()[0] && Well(b')
      && Flat(b'.q.active) == s[1..] && (s[1..] != [] ==> Serving(b'.q) == s[1..])
  {
    RoundWell(b, t);
    var k := RoundPasses(b, t);
  }

  /** From one swap (or from the start) to the next, tasks are served in the order of the
      array being served, and none of them twice. */
  lemma {:induction false} NoneTwiceBetweenSwaps(b: Bench, turns: seq<Turn>)
    requires Well(b) && Exhausting(b, turns) && |turns| <= |Serving(b.q)|
    ensures Served(b, turns) == Serving(b.q)[..|turns|] && NoDup(Served(b, turns))
  {
    ServedInOrder(b, turns);
    OrderSplit(b.q);
    PrefixNoDup(Serving(b.q), Waiting(b.q), |turns|);
  }

  lemma {:induction false} ServedInOrder(b: Bench, turns: seq<Turn>)
    requires Well(b) && Exhausting(b, turns) && |turns| <= |Serving(b.q)|
    ensures Served(b, turns) == Serving(b.q)[..|turns|]
    decreases |turns|
  {
    var s := Serving(b.q);
    if turns != [] {
      OrderSplit(b.q);
      ExhaustingRound(b, turns[0]);
      ServedInOrder(Round(b, turns[0]), turns[1..]);
      HeadFirst(s, |turns|);
      assert |turns| == 1 ==> Served(Round(b, turns[0]), turns[1..]) == s[1..][..|turns| - 1];
    }
  }

  lemma HeadFirst(s: seq<Gtid>, n: nat)
    requires 0 < n <= |s|
    ensures [s[0]] + s[1..][..n - 1] == s[..n]
  {
  }

  lemma PrefixNoDup(a: seq<Gtid>, e: seq<Gtid>, n: nat)
    requires NoDup(a + e) && n <= |a|
    ensures NoDup(a[..n])
  {
    assert a == a[..n] + a[n..];
    assert forall g :: multiset(a + e)[g] == multiset(a)[g] + multiset(e)[g];
    assert forall g :: multiset(a)[g] == multiset(a[..n])[g] + multiset(a[n..])[g];
  }

  // ---------------------------------------------------------------- in the scheduler

  /** The run queue of CPU c in a scheduler state. */
  ghost function BenchOf(s: O1State.Sched, c: nat): Bench
    requires c < |s.rqs|
  {
    Bench(s.rqs[c], map g | g in s.tasks :: s.tasks[g].remaining, map g | g in s.tasks :: s.tasks[g].prio)
  }

  /** Every state that satisfies the scheduler's invariant is a starting point for the bound. */
  lemma {:induction false} InvWell(s: O1State.Sched, c: nat)
    requires O1State.Inv(s, None) && c < |s.rqs|
    ensures Well(BenchOf(s, c))
  {
    var b := BenchOf(s, c);
    forall g ensures multiset(b.q.Order())[g] <= 1 { O1State.OrderOnce(s, None, c, g); }
    forall g | g in b.q.Order()
      ensures g in b.left && 0 < b.left[g] <= SLICE && g in b.prio && BASE_PRIO <= b.prio[g] < BASE_PRIO + NUM_PRIO
    {
      QueuedHasSlice(s, c, g);
    }
  }

  lemma {:induction false} QueuedHasSlice(s: O1State.Sched, c: nat, g: Gtid)
    requires O1State.Inv(s, None) && c < |s.rqs| && g in s.rqs[c].Order()
    ensures g in s.tasks && 0 < s.tasks[g].remaining <= SLICE
    ensures BASE_PRIO <= s.tasks[g].prio < BASE_PRIO + NUM_PRIO
  {
    O1State.OrderOnce(s, None, c, g);
    assert g in multiset(s.rqs[c].Order());
    O1State.FourPlaces(s, g);
    assert O1State.TaskOk(s, g, None);
  }

  /** From s, where g is first, the scheduler has come to s1, and event e at time t2 completes the round. */
  ghost predicate Completes(s: O1State.Sched, s1: O1State.Sched, c: nat, e: O1Events.Event, t2: int, preempted: bool)
    requires c < |s.rqs| && Well(BenchOf(s, c)) && s.rqs[c].Order() != [] && s1.clock <= t2
  {
    match s.rqs[c].Order()[0]
    case g =>
      && O1Events.Sound(s1) && O1Events.Legal(s1, e)
      && e == (if preempted then O1Events.Preempt(g, false) else O1Events.Yield(g, false))
      && var s2 := O1Events.Next(s1, e, t2);
        && O1Events.Sound(s2) && |s2.rqs| == |s.rqs| && s2.current[c] == None
        && BenchOf(s2, c) == Round(BenchOf(s, c), Turn(t2 - s1.clock, preempted))
  }

  /** A round is what the scheduler does: a pass that commits the first task at time t1, and a message at
      t2 that it was preempted (or has yielded). */
  lemma {:induction false} RoundIsScheduled(s: O1State.Sched, c: nat, t1: int, t2: int, preempted: bool)
    requires O1Events.Sound(s) && c < |s.rqs| && s.current[c] == None && s.rqs[c].Order() != [] && s.clock <= t1 <= t2
    ensures Well(BenchOf(s, c))
    ensures var g := s.rqs[c].Order()[0];
      var s1 := O1Events.Next(s, O1Events.Schedule(c, false, true), t1);
      && s1.clock == t1
      && Completes(s, s1, c, if preempted then O1Events.Preempt(g, false) else O1Events.Yield(g, false), t2, preempted)
  {
    InvWell(s, c);
    PickedIs(s, c, t1);
    RoundEnds(s, O1Events.Next(s, O1Events.Schedule(c, false, true), t1), c, t2, preempted);
  }

  /** The second half, from the state in which the first task has been picked. */
  lemma {:induction false} RoundEnds(s: O1State.Sched, s1: O1State.Sched, c: nat, t2: int, preempted: bool)
    requires c < |s.rqs| == |s1.rqs| && s.rqs[c].Order() != [] && Well(BenchOf(s, c)) && O1Events.Sound(s1) && s1.clock <= t2
    requires var g := s.rqs[c].Order()[0];
      && g in s.tasks && s.tasks[g].cpu == c && c < |s.current|
      && s1.rqs[c] == s.rqs[c].Next() && s1.current == s.current[c := Some(g)]
      && s1.tasks == s.tasks[g := s.tasks[g].(state := O1State.OnCpu, lastPick := s1.clock, preempted := false, boost := false)]
    ensures var g := s.rqs[c].Order()[0];
      Completes(s, s1, c, if preempted then O1Events.Preempt(g, false) else O1Events.Yield(g, false), t2, preempted)
  {
    var g := s.rqs[c].Order()[0];
    var e := if preempted then O1Events.Preempt(g, false) else O1Events.Yield(g, false);
    ReturnedIs(s1, g, c, t2, preempted);
    SameBench(s, s1, O1Events.Next(s1, e, t2), c, Turn(t2 - s1.clock, preempted));
  }

  lemma {:induction false} SameBench(s: O1State.Sched, s1: O1State.Sched, s2: O1State.Sched, c: nat, t: Turn)
    requires c < |s.rqs| == |s1.rqs| == |s2.rqs| && Well(BenchOf(s, c)) && s.rqs[c].Order() != []
    requires var g := s.rqs[c].Order()[0];
      && g in s.tasks && g in s1.tasks && g in s2.tasks
      && s1.tasks == s.tasks[g := s1.tasks[g]] && s2.tasks == s1.tasks[g := s2.tasks[g]]
      && s1.rqs[c] == s.rqs[c].Next() && s1.rqs[c].Shaped() && s1.tasks[g].remaining == s.tasks[g].remaining
      && s2.tasks[g].prio == s1.tasks[g].prio == s.tasks[g].prio && 0 <= s.tasks[g].prio - BASE_PRIO < NUM_PRIO
      && var left := s.tasks[g].remaining - t.charge;
        && s2.rqs[c] == s1.rqs[c].With(g, s.tasks[g].prio, left, t.boost)
        && s2.tasks[g].remaining == if left > 0 then left else SLICE
    ensures BenchOf(s2, c) == Round(BenchOf(s, c), t)
  {
    var b, b' := BenchOf(s2, c), Round(BenchOf(s, c), t);
    assert b.left == b'.left;
    assert b.prio == b'.prio;
  }

  lemma {:induction false} ReturnedIs(s: O1State.Sched, g: Gtid, c: nat, now: int, preempted: bool)
    requires O1Events.Sound(s) && c < |s.rqs| && s.current[c] == Some(g) && g in s.tasks && s.clock <= now
    requires s.tasks[g].state == O1State.OnCpu && s.tasks[g].cpu == c && !s.tasks[g].boost
    ensures var e := if preempted then O1Events.Preempt(g, false) else O1Events.Yield(g, false);
      var s2 := O1Events.Next(s, e, now); var t := s.tasks[g]; var left := t.remaining - (now - t.lastPick);
      && O1Events.Sound(s2) && |s2.rqs| == |s.rqs| && s2.current == s.current[c := None]
      && s.rqs[c].Shaped() && BASE_PRIO <= t.prio < BASE_PRIO + NUM_PRIO
      && s2.rqs[c] == s.rqs[c].With(g, t.prio, left, preempted)
      && g in s2.tasks && s2.tasks == s.tasks[g := s2.tasks[g]] && s2.tasks[g].prio == t.prio
      && s2.tasks[g].remaining == if left > 0 then left else SLICE
  {
    var e := if preempted then O1Events.Preempt(g, false) else O1Events.Yield(g, false);
    assert O1State.TaskOk(s, g, None);
    O1Events.NextKept(s, e, now);
  }

  lemma {:induction false} PickedIs(s: O1State.Sched, c: nat, now: int)
    requires O1Events.Sound(s) && c < |s.rqs| && s.current[c] == None && s.rqs[c].Order() != [] && s.clock <= now
    ensures var g := s.rqs[c].Order()[0]; var s1 := O1Events.Next(s, O1Events.Schedule(c, false, true), now);
      && g in s.tasks && s.tasks[g].cpu == c && |s1.rqs| == |s.rqs| && s1.clock == now
      && s1.rqs[c] == s.rqs[c].Next() && s1.current == s.current[c := Some(g)]
      && s1.tasks == s.tasks[g := s.tasks[g].(state := O1State.OnCpu, lastPick := now, preempted := false, boost := false)]
      && O1Events.Sound(s1)
  {
    O1Events.NextKept(s, O1Events.Schedule(c, false, true), now);
    PassPicks(s, c, now);
  }

  lemma {:induction false} PassPicks(s: O1State.Sched, c: nat, now: int)
    requires O1Events.Sound(s) && c < |s.rqs| && s.current[c] == None && s.rqs[c].Order() != [] && s.clock <= now
    ensures var g := s.rqs[c].Order()[0]; var s1 := O1Events.Next(s, O1Events.Schedule(c, false, true), now);
      && g in s.tasks && s.tasks[g].cpu == c && |s1.rqs| == |s.rqs| && s1.clock == now
      && s1.rqs[c] == s.rqs[c].Next() && s1.current == s.current[c := Some(g)]
      && s1.tasks == s.tasks[g := s.tasks[g].(state := O1State.OnCpu, lastPick := now, preempted := false, boost := false)]
  {
    var s0 := s.(clock := now);
    O1State.ClockInv(s, now);
    O1State.SettleInv(s0, c);
    O1State.DequeueInv(O1State.Settled(s0, c), c);
  }

  /** After any run of the scheduler, a task queued on a CPU whose agent then serves rounds of at least d
      is dequeued within the bound. */
  lemma NoStarvationAfterRun(events: seq<(O1Events.Event, int)>, states: seq<O1State.Sched>, i: nat, c: nat,
      turns: seq<Turn>, g: Gtid, d: int)
    requires O1Events.Trace(events, states) && i < |states| && c < |states[i].rqs| && g in states[i].rqs[c].Order()
    requires d > 0 && AtLeast(turns, d)
    ensures Well(BenchOf(states[i], c))
    ensures var b := BenchOf(states[i], c);
      |turns| >= Wait(b, g, d) ==>
        exists k :: 0 <= k < |Served(b, turns)| && k < Wait(b, g, d) && Served(b, turns)[k] == g
  {
    O1Events.SoundAt(events, states, i);
    InvWell(states[i], c);
    if |turns| >= Wait(BenchOf(states[i], c), g, d) { NoStarvation(BenchOf(states[i], c), turns, g, d); }
  }
}
