/**
  The state of the O(1) scheduler as a value, the invariant of every legal run, and
  what each elementary move does to it.  `hand` names the one task that a handler may
  be holding in the transitory kRunnable state, in no queue and on no CPU.
 */
module O1State {
  import opened O1RunQueue

  datatype RunState = Blocked | Runnable | Queued | OnCpu

  datatype Task = Task(
    prio: int, state: RunState, cpu: int, preempted: bool, boost: bool,
    lastPick: int, remaining: int)

  datatype Sched = Sched(
    tasks: map<Gtid, Task>,
    current: seq<Option<Gtid>>,
    preempt: seq<bool>,
    rqs: seq<Rq>,
    clock: int,
    ids: seq<nat>,                 // the enclave's CPUs
    next: nat)                     // AssignCpu's iterator into ids

  // ---------------------------------------------------------------- invariant

  ghost predicate Sized(s: Sched) {
    |s.current| == |s.preempt| == |s.rqs| && forall c :: 0 <= c < |s.rqs| ==> s.rqs[c].Shaped()
  }

  ghost predicate TaskOk(s: Sched, g: Gtid, hand: Option<Gtid>)
    requires g in s.tasks
  {
    var t := s.tasks[g];
    && BASE_PRIO <= t.prio < BASE_PRIO + NUM_PRIO && -1 <= t.cpu < |s.rqs|
    && t.remaining <= SLICE && t.lastPick <= s.clock
    && (t.state == Queued || t.state == OnCpu ==> t.cpu >= 0)
    && (t.state == Runnable <==> hand == Some(g))
  }

  /** The current task of a CPU is on that CPU; a pending preemption means that its
      slice is used up. */
  ghost predicate CurrentOk(s: Sched, c: nat)
    requires Sized(s) && c < |s.rqs|
  {
    s.current[c].Some? ==>
      var g := s.current[c].value;
      && g in s.tasks && s.tasks[g].state == OnCpu && s.tasks[g].cpu == c
      && (s.preempt[c] ==> s.tasks[g].remaining <= 0)
  }

  /** A task found in bucket p of CPU c belongs there and has slice left. */
  ghost predicate Belongs(s: Sched, c: nat, p: nat, g: Gtid) {
    && g in s.tasks && s.tasks[g].state == Queued && s.tasks[g].cpu == c
    && s.tasks[g].prio == BASE_PRIO + p && s.tasks[g].remaining > 0
  }

  ghost predicate QueueOk(s: Sched, c: nat)
    requires Sized(s) && c < |s.rqs|
  {
    && (forall p: nat, g :: p < NUM_PRIO && g in s.rqs[c].active[p] ==> Belongs(s, c, p, g))
    && (forall p: nat, g :: p < NUM_PRIO && g in s.rqs[c].expired[p] ==> Belongs(s, c, p, g))
  }

  /** How often g occurs in bucket p of a run queue, over both arrays. */
  function Count(q: Rq, p: nat, g: Gtid): nat
    requires q.Shaped() && p < NUM_PRIO
  {
    multiset(q.active[p])[g] + multiset(q.expired[p])[g]
  }

  /** A queued task is in the bucket of its priority on its own CPU exactly once. */
  ghost predicate CountOk(s: Sched, g: Gtid)
    requires Sized(s) && g in s.tasks
  {
    var t := s.tasks[g];
    t.state == Queued && 0 <= t.cpu < |s.rqs| && 0 <= t.prio - BASE_PRIO < NUM_PRIO ==>
      Count(s.rqs[t.cpu], t.prio - BASE_PRIO, g) == 1
  }

  /** On a CPU in name only: preempted for its slice, waiting for the kernel to say so. */
  ghost predicate Displaced(s: Sched, g: Gtid)
    requires Sized(s) && g in s.tasks
  {
    var t := s.tasks[g];
    t.state == OnCpu && (0 <= t.cpu < |s.rqs| ==> s.current[t.cpu] != Some(g))
  }

  ghost predicate Inv(s: Sched, hand: Option<Gtid>) {
    && Sized(s)
    && (hand.Some? ==> hand.value in s.tasks)
    && (forall g :: g in s.tasks ==> TaskOk(s, g, hand))
    && (forall c: nat :: c < |s.rqs| ==> CurrentOk(s, c))
    && (forall c: nat :: c < |s.rqs| ==> QueueOk(s, c))
    && (forall g :: g in s.tasks ==> CountOk(s, g))
    && (forall g :: g in s.tasks && Displaced(s, g) ==> s.tasks[g].remaining <= 0)
  }

  /** Every live task is in exactly one of four places (or in a handler's hand). */
  lemma FourPlaces(s: Sched, g: Gtid)
    requires Inv(s, None) && g in s.tasks
    ensures var t := s.tasks[g];
      var blocked := t.state == Blocked;
      var queued := 0 <= t.cpu < |s.rqs| && 0 <= t.prio - BASE_PRIO < NUM_PRIO
        && Count(s.rqs[t.cpu], t.prio - BASE_PRIO, g) == 1;
      var current := 0 <= t.cpu < |s.rqs| && s.current[t.cpu] == Some(g);
      var displaced := t.state == OnCpu && !current;
      && (blocked || queued || current || displaced)
      && !(blocked && queued) && !(blocked && current) && !(blocked && displaced)
      && !(queued && current) && !(queued && displaced) && !(current && displaced)
      && (queued <==> t.state == Queued) && (queued ==> 0 < t.remaining <= SLICE)
      && (current ==> t.state == OnCpu && (s.preempt[t.cpu] ==> t.remaining <= 0))
      && (displaced ==> t.remaining <= 0)
  {
    var t := s.tasks[g];
    assert TaskOk(s, g, None) && CountOk(s, g);
    if 0 <= t.cpu < |s.rqs| {
      assert QueueOk(s, t.cpu) && CurrentOk(s, t.cpu);
      if t.state != Queued {
        NotQueuedNotThere(s, None, t.cpu, t.prio - BASE_PRIO, g);
      } else {
        CountIn(s.rqs[t.cpu], t.prio - BASE_PRIO, g);
      }
    }
  }

  lemma NotQueuedNotThere(s: Sched, hand: Option<Gtid>, c: nat, p: nat, g: Gtid)
    requires Inv(s, hand) && c < |s.rqs| && p < NUM_PRIO && (g !in s.tasks || s.tasks[g].state != Queued)
    ensures g !in s.rqs[c].active[p] && g !in s.rqs[c].expired[p] && Count(s.rqs[c], p, g) == 0
  {
    assert QueueOk(s, c);
  }

  /** No queue and no current refers to anything but a live task. */
  lemma NothingStale(s: Sched, c: nat, p: nat, g: Gtid)
    requires Inv(s, None) && c < |s.rqs| && p < NUM_PRIO
    requires g in s.rqs[c].active[p] || g in s.rqs[c].expired[p] || s.current[c] == Some(g)
    ensures g in s.tasks && s.tasks[g].cpu == c
  {
    assert QueueOk(s, c) && CurrentOk(s, c);
  }

  /** A task occurs in the order of a run queue exactly once if it is queued there, else not at all. */
  lemma {:induction false} OrderOnce(s: Sched, hand: Option<Gtid>, c: nat, g: Gtid)
    requires Inv(s, hand) && c < |s.rqs|
    ensures multiset(s.rqs[c].Order())[g] == if g in s.tasks && s.tasks[g].state == Queued && s.tasks[g].cpu == c then 1 else 0
  {
    var q := s.rqs[c];
    assert QueueOk(s, c);
    if g in s.tasks && s.tasks[g].state == Queued && s.tasks[g].cpu == c {
      assert TaskOk(s, g, hand) && CountOk(s, g);
      var p := s.tasks[g].prio - BASE_PRIO;
      assert forall r: nat :: r < NUM_PRIO && r != p ==> !Belongs(s, c, r, g);
      FlatCount(q.active, p, g);
      FlatCount(q.expired, p, g);
    } else {
      assert forall r: nat :: r < NUM_PRIO ==> !Belongs(s, c, r, g);
      FlatHas(q.active, g);
      FlatHas(q.expired, g);
      assert g !in multiset(q.Order());
    }
  }

  function Put(s: Sched, g: Gtid, t: Task): Sched {
    s.(tasks := s.tasks[g := t])
  }

  // ---------------------------------------------------------------- queue moves

  /** O1Rq::Enqueue */
  function Enqueued(s: Sched, g: Gtid): Sched
    requires Sized(s) && g in s.tasks && 0 <= s.tasks[g].cpu < |s.rqs|
    requires 0 <= s.tasks[g].prio - BASE_PRIO < NUM_PRIO
  {
    var t := s.tasks[g];
    s.(tasks := s.tasks[g := t.(state := Queued, remaining := if t.remaining > 0 then t.remaining else SLICE)],
       rqs := s.rqs[t.cpu := s.rqs[t.cpu].With(g, t.prio, t.remaining, t.boost)])
  }

  lemma {:induction false} EnqueueInv(s: Sched, g: Gtid)
    requires Inv(s, Some(g)) && s.tasks[g].cpu >= 0
    ensures TaskOk(s, g, Some(g)) && Inv(Enqueued(s, g), None)
  {
    var t := s.tasks[g];
    assert TaskOk(s, g, Some(g));
    var c, p := t.cpu, t.prio - BASE_PRIO;
    NotQueuedNotThere(s, Some(g), c, p, g);
    MoveInv(s, Enqueued(s, g), c, p, g, Some(g), None);
  }

  /** A move of g between a handler's hand and bucket p of CPU c, seen from all the
      other tasks and CPUs. */
  ghost predicate Moved(s: Sched, s': Sched, c: nat, p: nat, g: Gtid) {
    && Sized(s) && Sized(s') && |s.rqs| == |s'.rqs| && c < |s.rqs| && p < NUM_PRIO
    && g in s.tasks && g in s'.tasks && s'.tasks == s.tasks[g := s'.tasks[g]]
    && s'.current == s.current && s'.preempt == s.preempt && s'.clock == s.clock
    && (forall d: nat :: d < |s.rqs| && d != c ==> s'.rqs[d] == s.rqs[d])
    && (forall h, r: nat :: r < NUM_PRIO && (h != g || r != p) ==> Count(s'.rqs[c], r, h) == Count(s.rqs[c], r, h))
  }

  lemma CountIn(q: Rq, p: nat, g: Gtid)
    requires q.Shaped() && p < NUM_PRIO
    ensures Count(q, p, g) > 0 <==> g in q.active[p] || g in q.expired[p]
  {
  }

  lemma {:induction false} MoveInv(s: Sched, s': Sched, c: nat, p: nat, g: Gtid, hand: Option<Gtid>, hand': Option<Gtid>)
    requires Inv(s, hand) && Moved(s, s', c, p, g)
    requires s.tasks[g].state in {Runnable, Queued} && s'.tasks[g].state in {Runnable, Queued}
    requires TaskOk(s', g, hand') && (hand == None || hand == Some(g)) && (hand' == None || hand' == Some(g))
    requires s.tasks[g].cpu == s'.tasks[g].cpu == c && s.tasks[g].prio == s'.tasks[g].prio == BASE_PRIO + p
    requires Count(s'.rqs[c], p, g) == if s'.tasks[g].state == Queued then 1 else 0
    requires s'.tasks[g].state == Queued ==> s'.tasks[g].remaining > 0
    ensures Inv(s', hand')
  {
    forall h | h in s'.tasks ensures TaskOk(s', h, hand') && CountOk(s', h) {
      assert TaskOk(s, h, hand) && CountOk(s, h);
    }
    forall d: nat | d < |s'.rqs| ensures CurrentOk(s', d) { assert CurrentOk(s, d); }
    forall d: nat | d < |s'.rqs| ensures QueueOk(s', d) {
      assert QueueOk(s, d);
      if d == c {
        forall r: nat | r < NUM_PRIO && r != p ensures Count(s.rqs[c], r, g) == 0 { CountIn(s.rqs[c], r, g); }
        MovedQueue(s, s', c, p, g);
      }
    }
    forall h | h in s'.tasks && Displaced(s', h) ensures s'.tasks[h].remaining <= 0 {
      assert h != g && Displaced(s, h);
    }
  }

  lemma {:induction false} MovedQueue(s: Sched, s': Sched, c: nat, p: nat, g: Gtid)
    requires Moved(s, s', c, p, g) && QueueOk(s, c)
    requires Count(s'.rqs[c], p, g) > 0 ==> Belongs(s', c, p, g)
    requires s'.tasks[g].state == Runnable || Belongs(s', c, p, g)
    requires forall r: nat :: r < NUM_PRIO && r != p ==> Count(s.rqs[c], r, g) == 0
    ensures QueueOk(s', c)
  {
    forall r: nat, h | r < NUM_PRIO && Count(s'.rqs[c], r, h) > 0 ensures Belongs(s', c, r, h) {
      CountIn(s.rqs[c], r, h);
      if h != g || r != p {
        assert Count(s.rqs[c], r, h) > 0;
        assert h != g;
      }
    }
    forall r: nat, h | r < NUM_PRIO && (h in s'.rqs[c].active[r] || h in s'.rqs[c].expired[r])
      ensures Belongs(s', c, r, h)
    {
      CountIn(s'.rqs[c], r, h);
    }
  }

  lemma {:induction false} LessCount(q: seq<Gtid>, g: Gtid)
    requires g in q
    ensures multiset(Less(q, g)) == multiset(q) - multiset{g}
    decreases q
  {
    assert q == [q[0]] + q[1..];
    if q[0] != g { LessCount(q[1..], g); }
  }

  lemma {:induction false} LessOnce(order: seq<Gtid>, g: Gtid)
    requires multiset(order)[g] == 1
    ensures Less(Less(order, g), g) == Less(order, g)
    ensures order[0] == g ==> Less(order, g) == order[1..]
  {
    assert g in multiset(order);
    LessCount(order, g);
    assert g !in multiset(Less(order, g));
    LessAbsent(Less(order, g), g);
  }

  /** O1Rq::Erase */
  function Erased(s: Sched, g: Gtid): Sched
    requires Sized(s) && g in s.tasks && 0 <= s.tasks[g].cpu < |s.rqs|
    requires 0 <= s.tasks[g].prio - BASE_PRIO < NUM_PRIO
  {
    var t := s.tasks[g];
    s.(tasks := s.tasks[g := t.(state := Runnable)],
       rqs := s.rqs[t.cpu := s.rqs[t.cpu].Without(g, t.prio)])
  }

  lemma {:induction false} EraseInv(s: Sched, g: Gtid)
    requires Inv(s, None) && g in s.tasks && s.tasks[g].state == Queued
    ensures TaskOk(s, g, None)
    ensures var t := s.tasks[g]; var p := t.prio - BASE_PRIO;
      g in s.rqs[t.cpu].active[p] || g in s.rqs[t.cpu].expired[p]
    ensures Inv(Erased(s, g), Some(g)) && s.tasks[g].remaining > 0
  {
    var t := s.tasks[g];
    assert TaskOk(s, g, None) && CountOk(s, g) && QueueOk(s, t.cpu);
    var c, p := t.cpu, t.prio - BASE_PRIO;
    CountIn(s.rqs[c], p, g);
    WithoutCounts(s.rqs[c], p, g);
    MoveInv(s, Erased(s, g), c, p, g, None, Some(g));
  }

  lemma {:induction false} WithoutCounts(q: Rq, p: nat, g: Gtid)
    requires q.Shaped() && p < NUM_PRIO && (g in q.active[p] || g in q.expired[p])
    ensures var q' := q.Without(g, BASE_PRIO + p);
      q'.Shaped() && forall h, r: nat :: r < NUM_PRIO ==> Count(q', r, h) == Count(q, r, h) - if r == p && h == g then 1 else 0
  {
    if g in q.active[p] {
      LessCount(q.active[p], g);
    } else {
      LessCount(q.expired[p], g);
    }
  }

  /** O1Rq::Dequeue on a nonempty run queue. */
  function Dequeued(s: Sched, c: nat): Sched
    requires Sized(s) && c < |s.rqs| && s.rqs[c].Order() != [] && s.rqs[c].Order()[0] in s.tasks
  {
    var g := s.rqs[c].Order()[0];
    s.(tasks := s.tasks[g := s.tasks[g].(state := Runnable)], rqs := s.rqs[c := s.rqs[c].Next()])
  }

  lemma {:induction false} DequeueInv(s: Sched, c: nat)
    requires Inv(s, None) && c < |s.rqs| && s.rqs[c].Order() != []
    ensures var g := s.rqs[c].Order()[0];
      && g in s.tasks && s.tasks[g].state == Queued && s.tasks[g].cpu == c && s.tasks[g].remaining > 0
      && Inv(Dequeued(s, c), Some(g))
  {
    var g := s.rqs[c].Order()[0];
    var p := FirstOf(s, c);
    assert TaskOk(s, g, None) && CountOk(s, g);
    NextCounts(s.rqs[c], p, g);
    MoveInv(s, Dequeued(s, c), c, p, g, None, Some(g));
  }

  /** The bucket that the first task of a run queue comes from is that of its priority. */
  lemma {:induction false} FirstOf(s: Sched, c: nat) returns (p: nat)
    requires Inv(s, None) && c < |s.rqs| && s.rqs[c].Order() != []
    ensures var q := s.rqs[c]; var b := if Flat(q.active) != [] then q.active else q.expired; var g := q.Order()[0];
      p < NUM_PRIO && Flat(b) != [] && p == FirstBucket(b) && b[p][0] == g && Belongs(s, c, p, g)
  {
    var q := s.rqs[c];
    assert QueueOk(s, c);
    var b := if Flat(q.active) != [] then q.active else q.expired;
    assert Flat(q.active) == [] ==> q.Order() == Flat(q.expired);
    FlatPopped(b);
    p := FirstBucket(b);
    var g := b[p][0];
    assert g in b[p];
  }

  lemma {:induction false} NextCounts(q: Rq, p: nat, g: Gtid)
    requires q.Shaped() && q.Order() != [] && p < NUM_PRIO
    requires var b := if Flat(q.active) != [] then q.active else q.expired;
      Flat(b) != [] && p == FirstBucket(b) && b[p][0] == g
    ensures q.Next().Shaped()
    ensures forall h, r: nat :: r < NUM_PRIO ==>
      Count(q.Next(), r, h) == Count(q, r, h) - if r == p && h == g then 1 else 0
  {
    var b := if Flat(q.active) != [] then q.active else q.expired;
    assert b[p] == [g] + b[p][1..];
    assert multiset(b[p]) == multiset{g} + multiset(b[p][1..]);
  }

  // ---------------------------------------------------------------- other moves

  /** A change of one unqueued task's record together with its CPU's current and
      preempt fields.  A different current task is never overwritten. */
  ghost predicate Changed(s: Sched, s': Sched, c: nat, g: Gtid) {
    && Sized(s) && Sized(s') && s'.rqs == s.rqs && c < |s.rqs| && s'.clock == s.clock
    && g in s.tasks && g in s'.tasks && s'.tasks == s.tasks[g := s'.tasks[g]]
    && s'.current == s.current[c := s'.current[c]] && s'.preempt == s.preempt[c := s'.preempt[c]]
    && (s.current[c] == s'.current[c] || (s.current[c] == Some(g) && s'.current[c] == None)
        || (s.current[c] == None && s'.current[c] == Some(g)))
  }

  lemma {:induction false} ChangeInv(s: Sched, s': Sched, c: nat, g: Gtid, hand: Option<Gtid>, hand': Option<Gtid>)
    requires Inv(s, hand) && Changed(s, s', c, g)
    requires s.tasks[g].state != Queued && s'.tasks[g].state != Queued
    requires TaskOk(s', g, hand') && (hand == None || hand == Some(g)) && (hand' == None || hand' == Some(g))
    requires s.tasks[g].state == OnCpu ==> s.tasks[g].cpu == c
    requires s'.tasks[g].state == OnCpu ==> s'.tasks[g].cpu == c
    requires CurrentOk(s', c) && (Displaced(s', g) ==> s'.tasks[g].remaining <= 0)
    ensures Inv(s', hand')
  {
    forall h | h in s'.tasks ensures TaskOk(s', h, hand') && CountOk(s', h) {
      assert TaskOk(s, h, hand) && CountOk(s, h);
    }
    forall d: nat | d < |s'.rqs| ensures CurrentOk(s', d) {
      assert CurrentOk(s, d);
    }
    forall d: nat | d < |s'.rqs| ensures QueueOk(s', d) { assert QueueOk(s, d); }
    forall h | h in s'.tasks && Displaced(s', h) ensures s'.tasks[h].remaining <= 0 {
      if h != g { assert TaskOk(s, h, hand) && Displaced(s, h); }
    }
  }

  lemma {:induction false} NewInv(s: Sched, g: Gtid, t: Task)
    requires Inv(s, None) && g !in s.tasks && t.state in {Blocked, Runnable}
    requires BASE_PRIO <= t.prio < BASE_PRIO + NUM_PRIO && t.cpu == -1 && t.remaining <= SLICE && t.lastPick <= s.clock
    ensures Inv(s.(tasks := s.tasks[g := t]), if t.state == Runnable then Some(g) else None)
  {
    var s', hand' := s.(tasks := s.tasks[g := t]), if t.state == Runnable then Some(g) else None;
    forall h | h in s'.tasks ensures TaskOk(s', h, hand') && CountOk(s', h) {
      if h != g { assert TaskOk(s, h, None) && CountOk(s, h); }
    }
    forall d: nat | d < |s'.rqs| ensures CurrentOk(s', d) { assert CurrentOk(s, d); }
    forall d: nat | d < |s'.rqs| ensures QueueOk(s', d) { assert QueueOk(s, d); }
    forall h | h in s'.tasks && Displaced(s', h) ensures s'.tasks[h].remaining <= 0 { assert Displaced(s, h); }
  }

  lemma {:induction false} FreeInv(s: Sched, g: Gtid, hand: Option<Gtid>)
    requires Inv(s, hand) && g in s.tasks && s.tasks[g].state in {Blocked, Runnable}
    requires hand == None || hand == Some(g)
    ensures Inv(s.(tasks := s.tasks - {g}), None)
  {
    var s' := s.(tasks := s.tasks - {g});
    forall h | h in s'.tasks ensures TaskOk(s', h, None) && CountOk(s', h) { assert TaskOk(s, h, hand) && CountOk(s, h); }
    forall d: nat | d < |s'.rqs| ensures CurrentOk(s', d) { assert CurrentOk(s, d); }
    forall d: nat | d < |s'.rqs| ensures QueueOk(s', d) { assert QueueOk(s, d); }
    forall h | h in s'.tasks && Displaced(s', h) ensures s'.tasks[h].remaining <= 0 { assert Displaced(s, h); }
  }

  lemma {:induction false} ClockInv(s: Sched, now: int)
    requires Inv(s, None) && now >= s.clock
    ensures Inv(s.(clock := now), None)
  {
    var s' := s.(clock := now);
    forall h | h in s'.tasks ensures TaskOk(s', h, None) && CountOk(s', h) { assert TaskOk(s, h, None) && CountOk(s, h); }
    forall d: nat | d < |s'.rqs| ensures CurrentOk(s', d) && QueueOk(s', d) { assert CurrentOk(s, d) && QueueOk(s, d); }
    forall h | h in s'.tasks && Displaced(s', h) ensures s'.tasks[h].remaining <= 0 { assert Displaced(s, h); }
  }

  // ---------------------------------------------------------------- on and off a CPU

  /** A task that the kernel may report as leaving a CPU. */
  ghost predicate MayLeave(s: Sched, g: Gtid, fromSwitchto: bool)
    requires g in s.tasks
  {
    s.tasks[g].state == OnCpu || (fromSwitchto && s.tasks[g].state == Blocked && s.tasks[g].cpu >= 0)
  }

  /** TaskOffCpu at time s.clock. */
  function Off(s: Sched, g: Gtid, blocked: bool): Sched
    requires g in s.tasks && 0 <= s.tasks[g].cpu < |s.current|
  {
    var t := s.tasks[g];
    var state := if blocked then Blocked else Runnable;
    if t.state == OnCpu then
      s.(tasks := s.tasks[g := t.(remaining := t.remaining - (s.clock - t.lastPick), state := state)],
         current := if s.current[t.cpu] == Some(g) then s.current[t.cpu := None] else s.current)
    else s.(tasks := s.tasks[g := t.(state := state)])
  }

  lemma OffInv(s: Sched, g: Gtid, fromSwitchto: bool, blocked: bool)
    requires Inv(s, None) && g in s.tasks && MayLeave(s, g, fromSwitchto)
    ensures 0 <= s.tasks[g].cpu < |s.current|
    ensures Inv(Off(s, g, blocked), if blocked then None else Some(g))
  {
    var t := s.tasks[g];
    assert TaskOk(s, g, None) && CurrentOk(s, t.cpu);
    ChangeInv(s, Off(s, g, blocked), t.cpu, g, None, if blocked then None else Some(g));
  }

  /** TaskOnCpu at time s.clock. */
  function On(s: Sched, g: Gtid, c: nat): Sched
    requires g in s.tasks && c < |s.current|
  {
    s.(tasks := s.tasks[g := s.tasks[g].(state := OnCpu, lastPick := s.clock, cpu := c, preempted := false, boost := false)],
       current := s.current[c := Some(g)])
  }

  /** current is only ever set from null, or to the task it already is. */
  lemma OnInv(s: Sched, g: Gtid, c: nat, hand: Option<Gtid>)
    requires Inv(s, hand) && g in s.tasks && c < |s.rqs| && !s.preempt[c] && s.tasks[g].cpu == c
    requires (hand == Some(g) && s.current[c] == None) || (hand == None && s.current[c] == Some(g))
    ensures Inv(On(s, g, c), None)
  {
    assert TaskOk(s, g, hand) && CurrentOk(s, c);
    ChangeInv(s, On(s, g, c), c, g, hand, None);
  }

  /** CheckPreemptTick at time s.clock. */
  function Ticked(s: Sched, c: nat): Sched
    requires c < |s.current| == |s.preempt|
  {
    if s.current[c] == None || s.current[c].value !in s.tasks then s
    else
      var g := s.current[c].value;
      var left := s.tasks[g].remaining - (s.clock - s.tasks[g].lastPick);
      s.(tasks := s.tasks[g := s.tasks[g].(remaining := left, lastPick := s.clock)],
         preempt := if left <= 0 then s.preempt[c := true] else s.preempt)
  }

  lemma TickInv(s: Sched, c: nat)
    requires Inv(s, None) && c < |s.rqs|
    ensures s.current[c].Some? ==> s.current[c].value in s.tasks
    ensures Inv(Ticked(s, c), None)
  {
    assert CurrentOk(s, c);
    if s.current[c].Some? {
      assert TaskOk(s, s.current[c].value, None);
      ChangeInv(s, Ticked(s, c), c, s.current[c].value, None, None);
    }
  }

  /** The start of O1Schedule: a pending preemption displaces the current task if others
      are waiting, and gives it a new slice if not. */
  function Settled(s: Sched, c: nat): Sched
    requires c < |s.current| == |s.preempt| == |s.rqs|
  {
    if !s.preempt[c] then s
    else if s.current[c] == None || s.current[c].value !in s.tasks then s.(preempt := s.preempt[c := false])
    else if s.rqs[c].Order() != [] then s.(preempt := s.preempt[c := false], current := s.current[c := None])
    else
      var g := s.current[c].value;
      s.(preempt := s.preempt[c := false], tasks := s.tasks[g := s.tasks[g].(remaining := SLICE)])
  }

  lemma SettleInv(s: Sched, c: nat)
    requires Inv(s, None) && c < |s.rqs|
    ensures s.current[c].Some? ==> s.current[c].value in s.tasks
    ensures Inv(Settled(s, c), None) && !Settled(s, c).preempt[c]
  {
    assert CurrentOk(s, c);
    if s.preempt[c] {
      if s.current[c].Some? {
        var g := s.current[c].value;
        assert TaskOk(s, g, None);
        assert s.tasks == s.tasks[g := s.tasks[g]];
        ChangeInv(s, Settled(s, c), c, g, None, None);
      } else {
        ClearPreemptInv(s, c);
      }
    }
  }

  lemma {:induction false} ClearPreemptInv(s: Sched, c: nat)
    requires Inv(s, None) && c < |s.rqs|
    ensures Inv(s.(preempt := s.preempt[c := false]), None)
  {
    var s' := s.(preempt := s.preempt[c := false]);
    forall h | h in s'.tasks ensures TaskOk(s', h, None) && CountOk(s', h) { assert TaskOk(s, h, None) && CountOk(s, h); }
    forall d: nat | d < |s'.rqs| ensures CurrentOk(s', d) && QueueOk(s', d) { assert CurrentOk(s, d) && QueueOk(s, d); }
    forall h | h in s'.tasks && Displaced(s', h) ensures s'.tasks[h].remaining <= 0 { assert Displaced(s, h); }
  }

  // ---------------------------------------------------------------- records

  /** A new record for a task that stays where it is, with no change to what its place
      depends on. */
  lemma RecordInv(s: Sched, g: Gtid, t: Task, hand: Option<Gtid>)
    requires Inv(s, hand) && g in s.tasks && s.tasks[g].state != Queued && (hand == None || hand == Some(g))
    requires t.state == s.tasks[g].state && t.remaining == s.tasks[g].remaining && t.lastPick == s.tasks[g].lastPick
    requires BASE_PRIO <= t.prio < BASE_PRIO + NUM_PRIO
    requires t.cpu == s.tasks[g].cpu || (t.state == Runnable && 0 <= t.cpu < |s.rqs|)
    ensures Inv(s.(tasks := s.tasks[g := t]), hand)
  {
    var s' := s.(tasks := s.tasks[g := t]);
    assert TaskOk(s, g, hand);
    if |s.rqs| > 0 {
      var c := if 0 <= t.cpu then t.cpu else 0;
      assert s.current[c := s.current[c]] == s.current && s.preempt[c := s.preempt[c]] == s.preempt;
      assert CurrentOk(s, c);
      ChangeInv(s, s', c, g, hand, hand);
    }
  }

  /** A blocked task picked up by a handler. */
  lemma WakeInv(s: Sched, g: Gtid, boost: bool)
    requires Inv(s, None) && g in s.tasks && s.tasks[g].state == Blocked && |s.rqs| > 0
    ensures Inv(s.(tasks := s.tasks[g := s.tasks[g].(state := Runnable, boost := boost)]), Some(g))
  {
    var s' := s.(tasks := s.tasks[g := s.tasks[g].(state := Runnable, boost := boost)]);
    assert TaskOk(s, g, None);
    var c := if 0 <= s.tasks[g].cpu then s.tasks[g].cpu else 0;
    assert s.current[c := s.current[c]] == s.current && s.preempt[c := s.preempt[c]] == s.preempt;
    assert CurrentOk(s, c);
    ChangeInv(s, s', c, g, None, Some(g));
  }

  // ---------------------------------------------------------------- slice discipline

  /** g has used up its slice and is neither queued nor any CPU's current task: it was
      displaced, or has blocked since. */
  ghost predicate Spent(s: Sched, g: Gtid) {
    && g in s.tasks && s.tasks[g].remaining <= 0 && s.tasks[g].state != Queued
    && !(0 <= s.tasks[g].cpu < |s.current| && s.current[s.tasks[g].cpu] == Some(g))
  }

  /** g is queued in the expired array with a full slice. */
  ghost predicate Refilled(s: Sched, g: Gtid) {
    && g in s.tasks && s.tasks[g].state == Queued && s.tasks[g].remaining == SLICE
    && 0 <= s.tasks[g].cpu < |s.rqs| && 0 <= s.tasks[g].prio - BASE_PRIO < NUM_PRIO
    && s.rqs[s.tasks[g].cpu].Shaped() && g in s.rqs[s.tasks[g].cpu].expired[s.tasks[g].prio - BASE_PRIO]
  }

  /** A spent task stays spent until it dies or is enqueued as expired. */
  ghost predicate SpentKept(s: Sched, s': Sched) {
    forall g :: Spent(s, g) ==> g !in s'.tasks || Spent(s', g) || Refilled(s', g)
  }

  /** A step that changes the record of at most one task, and makes no other current. */
  lemma OneTask(s: Sched, s': Sched, g: Gtid)
    requires forall h :: h in s.tasks && h != g ==> h in s'.tasks && s'.tasks[h] == s.tasks[h]
    requires |s.current| == |s'.current|
    requires forall c :: 0 <= c < |s.current| ==> s'.current[c] in {s.current[c], None, Some(g)}
    requires Spent(s, g) ==> g !in s'.tasks || Spent(s', g) || Refilled(s', g)
    ensures SpentKept(s, s')
  {
  }

  /** An enqueue of a task whose slice is used up lands in the expired array. */
  lemma EnqueueRefills(s: Sched, g: Gtid)
    requires Inv(s, Some(g)) && s.tasks[g].cpu >= 0
    ensures TaskOk(s, g, Some(g)) && (s.tasks[g].remaining <= 0 ==> Refilled(Enqueued(s, g), g))
  {
    assert TaskOk(s, g, Some(g));
  }

  /** Whatever takes a displaced task off its CPU, its next enqueue is an expired one. */
  lemma OffKeepsSpent(s: Sched, g: Gtid, blocked: bool)
    requires Inv(s, None) && g in s.tasks && 0 <= s.tasks[g].cpu < |s.rqs|
    ensures Spent(s, g) ==> Off(s, g, blocked).tasks[g].remaining <= 0
    ensures Displaced(s, g) ==> Spent(s, g)
  {
    assert TaskOk(s, g, None);
  }

  /** The record of a task being handled, with its boost and preempted marks. */
  function Stamped(s: Sched, g: Gtid, boost: bool, preempted: bool): Sched
    requires g in s.tasks
  {
    Put(s, g, s.tasks[g].(boost := boost, preempted := preempted))
  }

  function Woken(s: Sched, g: Gtid, boost: bool): Sched
    requires g in s.tasks
  {
    Put(s, g, s.tasks[g].(state := Runnable, boost := boost))
  }

  lemma OffSpent(s: Sched, g: Gtid)
    requires Inv(s, None) && g in s.tasks && 0 <= s.tasks[g].cpu < |s.rqs|
    ensures SpentKept(s, Off(s, g, true))
  {
    OffKeepsSpent(s, g, true);
    OneTask(s, Off(s, g, true), g);
  }

  lemma OffEnqueueSpent(s: Sched, g: Gtid, boost: bool, preempted: bool)
    requires Inv(s, None) && g in s.tasks && 0 <= s.tasks[g].cpu < |s.rqs|
    requires Inv(Stamped(Off(s, g, false), g, boost, preempted), Some(g))
    ensures TaskOk(Stamped(Off(s, g, false), g, boost, preempted), g, Some(g))
    ensures SpentKept(s, Enqueued(Stamped(Off(s, g, false), g, boost, preempted), g))
  {
    var s1 := Stamped(Off(s, g, false), g, boost, preempted);
    OffKeepsSpent(s, g, false);
    EnqueueRefills(s1, g);
    OneTask(s, Enqueued(s1, g), g);
  }

  lemma TickSpent(s: Sched, c: nat)
    requires Inv(s, None) && c < |s.rqs|
    ensures SpentKept(s, Ticked(s, c))
  {
    assert CurrentOk(s, c);
    if s.current[c].Some? { OneTask(s, Ticked(s, c), s.current[c].value); }
  }

  lemma SettleSpent(s: Sched, c: nat)
    requires Inv(s, None) && c < |s.rqs|
    ensures forall g :: Spent(s, g) ==> Spent(Settled(s, c), g)
  {
    assert CurrentOk(s, c);
  }

  lemma SpentTwice(s: Sched, s1: Sched, s2: Sched)
    requires (forall g :: Spent(s, g) ==> Spent(s1, g)) && SpentKept(s1, s2)
    ensures SpentKept(s, s2)
  {
  }

  function Boosted(s: Sched, g: Gtid): Sched
    requires g in s.tasks
  {
    s.(tasks := s.tasks[g := s.tasks[g].(boost := true)])
  }

  /** A task that is dequeued and enqueued again with a boost is first again. */
  lemma {:induction false} BackInFront(s: Sched, c: nat, g: Gtid)
    requires Inv(s, None) && c < |s.rqs| && s.rqs[c].Order() != [] && g == s.rqs[c].Order()[0]
    requires g in s.tasks && s.tasks[g].cpu == c
    ensures var s1 := Boosted(Dequeued(s, c), g);
      && Sized(s1) && 0 <= s1.tasks[g].prio - BASE_PRIO < NUM_PRIO
      && Enqueued(s1, g).rqs[c].Order() == s.rqs[c].Order()
  {
    var p := FirstOf(s, c);
    PutBack(s.rqs[c], s.tasks[g].remaining);
  }
}
