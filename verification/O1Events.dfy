/**
  The events of schedulers/o1 and what each of them does to the state, as values: the
  reference that the handlers of O1Scheduler are proved against, and the runs built
  from it.
 */
module O1Events {
  import opened O1RunQueue
  import opened O1State

  /** What can happen to the scheduler: a kernel message, a tick, or a scheduling pass on
      one CPU whose commit succeeds or fails. */
  datatype Event =
    | New(g: Gtid, nice: int, runnable: bool)
    | Wakeup(g: Gtid, deferrable: bool)
    | Departed(g: Gtid, fromSwitchto: bool)
    | Dead(g: Gtid)
    | Yield(g: Gtid, fromSwitchto: bool)
    | Block(g: Gtid, fromSwitchto: bool)
    | Preempt(g: Gtid, fromSwitchto: bool)
    | Switchto(g: Gtid)
    | PriorityChanged(g: Gtid, nice: int)
    | Tick(c: nat)
    | Schedule(c: nat, boosted: bool, commits: bool)

  /** The messages the kernel may send in state s.  Messages about unknown tasks are
      always possible: the dispatcher drops them. */
  ghost predicate Legal(s: Sched, e: Event) {
    match e
    case New(g, nice, _) => -20 <= nice <= 19
    case Wakeup(g, _) => g in s.tasks ==> s.tasks[g].state == Blocked
    case Departed(g, fs) => g in s.tasks ==> if fs then MayLeave(s, g, true) else true
    case Dead(g) => g in s.tasks ==> s.tasks[g].state == Blocked
    case Yield(g, fs) => g in s.tasks ==> MayLeave(s, g, fs)
    case Block(g, fs) => g in s.tasks ==> MayLeave(s, g, fs)
    case Preempt(g, fs) => g in s.tasks ==> MayLeave(s, g, fs)
    case Switchto(g) => g in s.tasks ==> s.tasks[g].state == OnCpu
    case PriorityChanged(g, nice) => -20 <= nice <= 19
    case Tick(c) => c < |s.rqs|
    case Schedule(c, _, _) => c < |s.rqs|
  }

  // ---------------------------------------------------------------- placement

  /** AssignCpu's iterator is over CPUs that exist. */
  ghost predicate Assignable(s: Sched) {
    s.ids != [] && s.next <= |s.ids| && forall i :: 0 <= i < |s.ids| ==> s.ids[i] < |s.rqs|
  }

  /** The CPU that AssignCpu gives out next, and the iterator after that. */
  ghost function Assigned(s: Sched): (c: nat)
    requires Assignable(s)
    ensures c < |s.rqs| && c in s.ids
  {
    s.ids[if s.next == |s.ids| then 0 else s.next]
  }

  ghost function Advanced(s: Sched): Sched {
    s.(next := 1 + if s.next == |s.ids| then 0 else s.next)
  }

  /** The task in hand, enqueued on CPU c. */
  ghost function Migrated(s: Sched, g: Gtid, c: nat): Sched
    requires Inv(s, Some(g)) && c < |s.rqs|
  {
    assert TaskOk(s, g, Some(g));
    Enqueued(Put(s, g, s.tasks[g].(cpu := c)), g)
  }

  lemma AdvancedInv(s: Sched, hand: Option<Gtid>)
    requires Inv(s, hand)
    ensures Inv(Advanced(s), hand)
  {
    var s' := Advanced(s);
    forall h | h in s'.tasks ensures TaskOk(s', h, hand) && CountOk(s', h) { assert TaskOk(s, h, hand) && CountOk(s, h); }
    forall d: nat | d < |s'.rqs| ensures CurrentOk(s', d) && QueueOk(s', d) { assert CurrentOk(s, d) && QueueOk(s, d); }
    forall h | h in s'.tasks && Displaced(s', h) ensures s'.tasks[h].remaining <= 0 { assert Displaced(s, h); }
  }

  // ---------------------------------------------------------------- messages

  function NewTask(nice: int, runnable: bool): Task {
    Task(120 + nice, if runnable then Runnable else Blocked, -1, false, false, 0, SLICE)
  }

  ghost function Created(s: Sched, g: Gtid, nice: int, runnable: bool): Sched
    requires Inv(s, None) && Assignable(s) && -20 <= nice <= 19 && s.clock >= 0
  {
    if g in s.tasks then s
    else
      var s1 := Put(s, g, NewTask(nice, runnable));
      NewInv(s, g, NewTask(nice, runnable));
      if runnable then AdvancedInv(s1, Some(g)); Migrated(Advanced(s1), g, Assigned(s)) else s1
  }

  ghost function Wakened(s: Sched, g: Gtid, boost: bool): Sched
    requires Inv(s, None) && Assignable(s) && (g in s.tasks ==> s.tasks[g].state == Blocked)
  {
    if g !in s.tasks then s
    else
      assert s.ids[0] < |s.rqs|;
      WakeInv(s, g, boost);
      var s1 := Woken(s, g, boost);
      assert TaskOk(s1, g, Some(g));
      if s.tasks[g].cpu < 0 then AdvancedInv(s1, Some(g)); Migrated(Advanced(s1), g, Assigned(s))
      else Enqueued(s1, g)
  }

  function Freed(s: Sched, g: Gtid): Sched {
    s.(tasks := s.tasks - {g})
  }

  ghost function Gone(s: Sched, g: Gtid, fromSwitchto: bool): Sched
    requires Inv(s, None) && (g in s.tasks && fromSwitchto ==> MayLeave(s, g, true))
  {
    if g !in s.tasks then s
    else
      assert TaskOk(s, g, None);
      if s.tasks[g].state == OnCpu || fromSwitchto then Freed(Off(s, g, false), g)
      else if s.tasks[g].state == Queued then Freed(Erased(s, g), g)
      else Freed(s, g)
  }

  /** Off the CPU, with the boost and preempted marks given, and queued again. */
  ghost function Requeued(s: Sched, g: Gtid, fromSwitchto: bool, boost: bool, preempted: bool): Sched
    requires Inv(s, None) && g in s.tasks && MayLeave(s, g, fromSwitchto)
  {
    assert TaskOk(s, g, None);
    Enqueued(Stamped(Off(s, g, false), g, boost, preempted), g)
  }

  ghost function Reprioritized(s: Sched, g: Gtid, prio: int): Sched
    requires Inv(s, None) && BASE_PRIO <= prio < BASE_PRIO + NUM_PRIO
  {
    if g !in s.tasks then s
    else
      assert TaskOk(s, g, None);
      if s.tasks[g].state == Queued then
        var s1 := Erased(s, g);
        Enqueued(Put(s1, g, s1.tasks[g].(prio := prio)), g)
      else Put(s, g, s.tasks[g].(prio := prio))
  }

  // ---------------------------------------------------------------- scheduling

  /** O1Schedule once the preemption is settled and it is not for a boosted task. */
  ghost function Dispatched(s: Sched, c: nat, commits: bool): Sched
    requires Inv(s, None) && c < |s.rqs|
  {
    assert CurrentOk(s, c);
    if s.current[c].Some? then
      var g := s.current[c].value;
      assert TaskOk(s, g, None);
      if commits then On(s, g, c) else Enqueued(Boosted(Off(s, g, false), g), g)
    else if s.rqs[c].Order() == [] then s
    else
      DequeueInv(s, c);
      var g := s.rqs[c].Order()[0];
      assert TaskOk(s, g, None);
      if commits then On(Dequeued(s, c), g, c) else Enqueued(Boosted(Dequeued(s, c), g), g)
  }

  ghost function Passed(s: Sched, c: nat, boosted: bool, commits: bool): Sched
    requires Inv(s, None) && c < |s.rqs|
  {
    SettleInv(s, c);
    if boosted then Settled(s, c) else Dispatched(Settled(s, c), c, commits)
  }

  // ---------------------------------------------------------------- any event

  /** What event e does to state s at the time that the clock shows. */
  ghost function Handled(s: Sched, e: Event): Sched
    requires Inv(s, None) && Assignable(s) && Legal(s, e) && s.clock >= 0
  {
    match e
    case New(g, nice, runnable) => Created(s, g, nice, runnable)
    case Wakeup(g, deferrable) => Wakened(s, g, !deferrable)
    case Departed(g, fs) => Gone(s, g, fs)
    case Dead(g) => Freed(s, g)
    case Yield(g, fs) => if g in s.tasks then Requeued(s, g, fs, s.tasks[g].boost, s.tasks[g].preempted) else s
    case Block(g, fs) => if g in s.tasks then OffInv(s, g, fs, true); Off(s, g, true) else s
    case Preempt(g, fs) => if g in s.tasks then Requeued(s, g, fs, true, true) else s
    case Switchto(g) => if g in s.tasks then OffInv(s, g, false, true); Off(s, g, true) else s
    case PriorityChanged(g, nice) => Reprioritized(s, g, 120 + nice)
    case Tick(c) => Ticked(s, c)
    case Schedule(c, boosted, commits) => Passed(s, c, boosted, commits)
  }

  /** The same at time `now`. */
  ghost function Next(s: Sched, e: Event, now: int): Sched
    requires Inv(s, None) && Assignable(s) && Legal(s, e) && 0 <= s.clock <= now
  {
    ClockInv(s, now);
    Handled(s.(clock := now), e)
  }

  /** What every state between events satisfies. */
  ghost predicate Sound(s: Sched) {
    Inv(s, None) && Assignable(s) && s.clock >= 0
  }

  // ---------------------------------------------------------------- all but one task

  /** An order without the task in question, if there is one. */
  ghost function Except(q: seq<Gtid>, x: Option<Gtid>): seq<Gtid> {
    match x
    case None => q
    case Some(g) => Less(q, g)
  }

  /** But for x, the tasks, their records and their order in every run queue are the same. */
  ghost predicate Alike(s: Sched, s': Sched, x: Option<Gtid>) {
    && (forall h :: x != Some(h) && h in s.tasks ==> h in s'.tasks && s'.tasks[h] == s.tasks[h])
    && (forall h :: x != Some(h) && h in s'.tasks ==> h in s.tasks)
    && |s'.rqs| == |s.rqs|
    && forall c: nat :: c < |s.rqs| ==> SameOrder(s, s', c, x)
  }

  ghost predicate SameOrder(s: Sched, s': Sched, c: nat, x: Option<Gtid>)
    requires c < |s.rqs| == |s'.rqs|
  {
    Except(s'.rqs[c].Order(), x) == Except(s.rqs[c].Order(), x)
  }

  lemma AlikeTwice(s: Sched, s1: Sched, s2: Sched, x: Option<Gtid>)
    requires Alike(s, s1, x) && Alike(s1, s2, x)
    ensures Alike(s, s2, x)
  {
    forall c: nat | c < |s.rqs| ensures SameOrder(s, s2, c, x) { assert SameOrder(s, s1, c, x) && SameOrder(s1, s2, c, x); }
  }

  lemma {:induction false} EnqueuedAlike(s: Sched, g: Gtid)
    requires Inv(s, Some(g)) && s.tasks[g].cpu >= 0
    ensures TaskOk(s, g, Some(g)) && Alike(s, Enqueued(s, g), Some(g))
  {
    assert TaskOk(s, g, Some(g));
    var t := s.tasks[g];
    OrderOnce(s, Some(g), t.cpu, g);
    assert g !in multiset(s.rqs[t.cpu].Order());
    LessAbsent(s.rqs[t.cpu].Order(), g);
    WithOrder(s.rqs[t.cpu], g, t.prio, t.remaining, t.boost);
    PutQueueAlike(s, Enqueued(s, g), t.cpu, g);
  }

  lemma {:induction false} ErasedAlike(s: Sched, g: Gtid)
    requires Inv(s, None) && g in s.tasks && s.tasks[g].state == Queued
    ensures TaskOk(s, g, None) && Alike(s, Erased(s, g), Some(g))
    ensures Erased(s, g).rqs[s.tasks[g].cpu].Order() == Less(s.rqs[s.tasks[g].cpu].Order(), g)
  {
    EraseInv(s, g);
    var t := s.tasks[g];
    var order := s.rqs[t.cpu].Order();
    OrderOnce(s, None, t.cpu, g);
    WithoutOrder(s.rqs[t.cpu], g, t.prio);
    LessOnce(order, g);
    PutQueueAlike(s, Erased(s, g), t.cpu, g);
  }

  /** A change of g's record and of one run queue. */
  lemma PutQueueAlike(s: Sched, s': Sched, c: nat, g: Gtid)
    requires c < |s.rqs| && |s'.rqs| == |s.rqs| && (forall d :: 0 <= d < |s.rqs| && d != c ==> s'.rqs[d] == s.rqs[d])
    requires Less(s'.rqs[c].Order(), g) == Less(s.rqs[c].Order(), g)
    requires g in s.tasks && g in s'.tasks && s'.tasks == s.tasks[g := s'.tasks[g]]
    ensures Alike(s, s', Some(g))
  {
  }

  lemma {:induction false} DequeuedAlike(s: Sched, c: nat)
    requires Inv(s, None) && c < |s.rqs| && s.rqs[c].Order() != [] && s.rqs[c].Order()[0] in s.tasks
    ensures Alike(s, Dequeued(s, c), Some(s.rqs[c].Order()[0]))
  {
    var order := s.rqs[c].Order();
    var g := order[0];
    OrderOnce(s, None, c, g);
    NextOrder(s.rqs[c]);
    DequeueInv(s, c);
    LessOnce(order, g);
    PutQueueAlike(s, Dequeued(s, c), c, g);
  }

  // ---------------------------------------------------------------- what every event keeps

  /** The invariant holds afterwards, displaced tasks are still accounted for, the clock and the set of
      CPUs are as before, and so is everything about the other tasks. */
  ghost predicate Kept(s: Sched, s': Sched, x: Option<Gtid>) {
    Inv(s', None) && SpentKept(s, s') && Framed(s, s') && Alike(s, s', x)
  }

  ghost predicate Framed(s: Sched, s': Sched) {
    && s'.clock == s.clock && s'.ids == s.ids && |s'.rqs| == |s.rqs|
    && (s.ids != [] && s.next <= |s.ids| ==> s'.next <= |s.ids|)
  }

  /** What becomes of the task in hand when it is enqueued. */
  lemma EnqueuedKept(s: Sched, g: Gtid)
    requires Inv(s, Some(g)) && s.tasks[g].cpu >= 0
    ensures TaskOk(s, g, Some(g)) && Inv(Enqueued(s, g), None) && Alike(s, Enqueued(s, g), Some(g))
    ensures s.tasks[g].remaining <= 0 ==> Refilled(Enqueued(s, g), g)
  {
    EnqueueInv(s, g);
    EnqueueRefills(s, g);
    EnqueuedAlike(s, g);
  }

  lemma MigratedKept(s: Sched, g: Gtid, c: nat)
    requires Inv(s, Some(g)) && c < |s.rqs|
    ensures Inv(Migrated(s, g, c), None) && Alike(s, Migrated(s, g, c), Some(g))
    ensures s.tasks[g].remaining <= 0 ==> Refilled(Migrated(s, g, c), g)
  {
    assert TaskOk(s, g, Some(g));
    var s1 := Put(s, g, s.tasks[g].(cpu := c));
    RecordInv(s, g, s.tasks[g].(cpu := c), Some(g));
    EnqueuedKept(s1, g);
    AlikeTwice(s, s1, Migrated(s, g, c), Some(g));
  }

  lemma CreatedKept(s: Sched, g: Gtid, nice: int, runnable: bool)
    requires Inv(s, None) && Assignable(s) && -20 <= nice <= 19 && s.clock >= 0
    ensures Kept(s, Created(s, g, nice, runnable), Some(g))
  {
    if g !in s.tasks {
      var s1 := Put(s, g, NewTask(nice, runnable));
      NewInv(s, g, NewTask(nice, runnable));
      if runnable {
        AdvancedInv(s1, Some(g));
        MigratedKept(Advanced(s1), g, Assigned(s));
        AlikeTwice(s, Advanced(s1), Created(s, g, nice, runnable), Some(g));
      }
      OneTask(s, Created(s, g, nice, runnable), g);
    }
  }

  lemma WakenedKept(s: Sched, g: Gtid, boost: bool)
    requires Inv(s, None) && Assignable(s) && (g in s.tasks ==> s.tasks[g].state == Blocked)
    ensures Kept(s, Wakened(s, g, boost), Some(g))
  {
    if g in s.tasks {
      if s.tasks[g].cpu < 0 {
        WakenedAway(s, g, boost);
      } else {
        WakenedHome(s, g, boost);
      }
    }
  }

  lemma WakenedAway(s: Sched, g: Gtid, boost: bool)
    requires Inv(s, None) && Assignable(s) && g in s.tasks && s.tasks[g].state == Blocked && s.tasks[g].cpu < 0
    ensures Kept(s, Wakened(s, g, boost), Some(g))
  {
    assert s.ids[0] < |s.rqs|;
    var s1 := Woken(s, g, boost);
    WakeInv(s, g, boost);
    AdvancedInv(s1, Some(g));
    MigratedKept(Advanced(s1), g, Assigned(s));
    AlikeTwice(s, Advanced(s1), Wakened(s, g, boost), Some(g));
    OneTask(s, Wakened(s, g, boost), g);
  }

  lemma WakenedHome(s: Sched, g: Gtid, boost: bool)
    requires Inv(s, None) && Assignable(s) && g in s.tasks && s.tasks[g].state == Blocked && s.tasks[g].cpu >= 0
    ensures Kept(s, Wakened(s, g, boost), Some(g))
  {
    assert s.ids[0] < |s.rqs|;
    var s1 := Woken(s, g, boost);
    WakeInv(s, g, boost);
    EnqueuedKept(s1, g);
    AlikeTwice(s, s1, Wakened(s, g, boost), Some(g));
    OneTask(s, Wakened(s, g, boost), g);
  }

  lemma GoneKept(s: Sched, g: Gtid, fromSwitchto: bool)
    requires Inv(s, None) && (g in s.tasks && fromSwitchto ==> MayLeave(s, g, true))
    ensures Kept(s, Gone(s, g, fromSwitchto), Some(g))
  {
    if g in s.tasks {
      assert TaskOk(s, g, None);
      if s.tasks[g].state == OnCpu || fromSwitchto {
        OffInv(s, g, fromSwitchto, false);
        FreeInv(Off(s, g, false), g, Some(g));
      } else if s.tasks[g].state == Queued {
        EraseInv(s, g);
        ErasedAlike(s, g);
        FreeInv(Erased(s, g), g, Some(g));
        AlikeTwice(s, Erased(s, g), Gone(s, g, fromSwitchto), Some(g));
      } else {
        FreeInv(s, g, None);
      }
      OneTask(s, Gone(s, g, fromSwitchto), g);
    }
  }

  lemma RequeuedKept(s: Sched, g: Gtid, fromSwitchto: bool, boost: bool, preempted: bool)
    requires Inv(s, None) && g in s.tasks && MayLeave(s, g, fromSwitchto)
    ensures Kept(s, Requeued(s, g, fromSwitchto, boost, preempted), Some(g))
  {
    OffInv(s, g, fromSwitchto, false);
    var s1 := Off(s, g, false);
    RecordInv(s1, g, s1.tasks[g].(boost := boost, preempted := preempted), Some(g));
    EnqueuedKept(Stamped(s1, g, boost, preempted), g);
    AlikeTwice(s, Stamped(s1, g, boost, preempted), Requeued(s, g, fromSwitchto, boost, preempted), Some(g));
    OffEnqueueSpent(s, g, boost, preempted);
  }

  lemma ReprioritizedKept(s: Sched, g: Gtid, prio: int)
    requires Inv(s, None) && BASE_PRIO <= prio < BASE_PRIO + NUM_PRIO
    ensures Kept(s, Reprioritized(s, g, prio), Some(g))
  {
    if g in s.tasks {
      assert TaskOk(s, g, None);
      if s.tasks[g].state == Queued {
        EraseInv(s, g);
        ErasedAlike(s, g);
        PrioritizedKept(s, Erased(s, g), g, prio);
      } else {
        RecordInv(s, g, s.tasks[g].(prio := prio), None);
      }
      OneTask(s, Reprioritized(s, g, prio), g);
    }
  }

  lemma PrioritizedKept(s: Sched, s1: Sched, g: Gtid, prio: int)
    requires Inv(s1, Some(g)) && s1.tasks[g].cpu >= 0 && BASE_PRIO <= prio < BASE_PRIO + NUM_PRIO && Alike(s, s1, Some(g))
    ensures var s2 := Put(s1, g, s1.tasks[g].(prio := prio));
      Inv(s2, Some(g)) && TaskOk(s2, g, Some(g)) && Inv(Enqueued(s2, g), None) && Alike(s, Enqueued(s2, g), Some(g))
  {
    var s2 := Put(s1, g, s1.tasks[g].(prio := prio));
    RecordInv(s1, g, s1.tasks[g].(prio := prio), Some(g));
    EnqueuedKept(s2, g);
    AlikeTwice(s1, s2, Enqueued(s2, g), Some(g));
    AlikeTwice(s, s1, Enqueued(s2, g), Some(g));
  }

  /** A task whose commit has failed goes back to the front. */
  lemma BoostedKept(s1: Sched, g: Gtid)
    requires Inv(s1, Some(g)) && s1.tasks[g].cpu >= 0
    ensures TaskOk(s1, g, Some(g)) && Inv(Enqueued(Boosted(s1, g), g), None)
    ensures Alike(s1, Enqueued(Boosted(s1, g), g), Some(g))
    ensures s1.tasks[g].remaining <= 0 ==> Refilled(Enqueued(Boosted(s1, g), g), g)
  {
    RecordInv(s1, g, s1.tasks[g].(boost := true), Some(g));
    EnqueuedKept(Boosted(s1, g), g);
    AlikeTwice(s1, Boosted(s1, g), Enqueued(Boosted(s1, g), g), Some(g));
  }

  lemma CurrentKept(s: Sched, c: nat, commits: bool)
    requires Inv(s, None) && c < |s.rqs| && !s.preempt[c] && s.current[c].Some?
    ensures Kept(s, Dispatched(s, c, commits), s.current[c])
  {
    assert CurrentOk(s, c);
    var g := s.current[c].value;
    if commits {
      OnInv(s, g, c, None);
    } else {
      OffInv(s, g, false, false);
      BoostedKept(Off(s, g, false), g);
      AlikeTwice(s, Off(s, g, false), Dispatched(s, c, commits), Some(g));
    }
    OneTask(s, Dispatched(s, c, commits), g);
  }

  lemma HeadKept(s: Sched, c: nat, commits: bool)
    requires Inv(s, None) && c < |s.rqs| && !s.preempt[c] && s.current[c] == None && s.rqs[c].Order() != []
    ensures Kept(s, Dispatched(s, c, commits), Some(s.rqs[c].Order()[0]))
    ensures !commits ==> Dispatched(s, c, commits).rqs[c].Order() == s.rqs[c].Order()
  {
    DequeueInv(s, c);
    DequeuedAlike(s, c);
    var g := s.rqs[c].Order()[0];
    if commits {
      OnInv(Dequeued(s, c), g, c, Some(g));
    } else {
      var s1 := Dequeued(s, c);
      RecordInv(s1, g, s1.tasks[g].(boost := true), Some(g));
      BoostedKept(s1, g);
      BackInFront(s, c, g);
    }
    AlikeTwice(s, Dequeued(s, c), Dispatched(s, c, commits), Some(g));
    OneTask(s, Dispatched(s, c, commits), g);
  }

  /** The task that a scheduling pass is about. */
  ghost function Candidate(s: Sched, c: nat): Option<Gtid>
    requires c < |s.rqs| == |s.current|
  {
    if s.current[c].Some? then s.current[c]
    else if s.rqs[c].Order() == [] then None else Some(s.rqs[c].Order()[0])
  }

  lemma DispatchedKept(s: Sched, c: nat, commits: bool)
    requires Inv(s, None) && c < |s.rqs| && !s.preempt[c]
    ensures Kept(s, Dispatched(s, c, commits), Candidate(s, c))
  {
    if s.current[c].Some? {
      CurrentKept(s, c, commits);
    } else if s.rqs[c].Order() != [] {
      HeadKept(s, c, commits);
    }
  }

  lemma SettledAlike(s: Sched, c: nat)
    requires Inv(s, None) && c < |s.rqs|
    ensures Alike(s, Settled(s, c), Settled(s, c).current[c])
    ensures Alike(s, Settled(s, c), Candidate(Settled(s, c), c))
  {
    assert CurrentOk(s, c);
  }

  lemma SettledKept(s: Sched, c: nat)
    requires Inv(s, None) && c < |s.rqs|
    ensures Kept(s, Settled(s, c), Settled(s, c).current[c])
  {
    SettleInv(s, c);
    SettleSpent(s, c);
    SettledAlike(s, c);
  }

  lemma PassedKept(s: Sched, c: nat, boosted: bool, commits: bool)
    requires Inv(s, None) && c < |s.rqs|
    ensures Kept(s, Passed(s, c, boosted, commits), Subject(s, Schedule(c, boosted, commits)))
  {
    SettledKept(s, c);
    if !boosted {
      var s1 := Settled(s, c);
      SettleInv(s, c);
      SettleSpent(s, c);
      SettledAlike(s, c);
      DispatchedKept(s1, c, commits);
      KeptAfter(s, s1, Dispatched(s1, c, commits), Candidate(s1, c));
    }
  }

  lemma KeptAfter(s: Sched, s1: Sched, s2: Sched, x: Option<Gtid>)
    requires (forall g :: Spent(s, g) ==> Spent(s1, g)) && Framed(s, s1) && Alike(s, s1, x) && Kept(s1, s2, x)
    ensures Kept(s, s2, x)
  {
    SpentTwice(s, s1, s2);
    AlikeTwice(s, s1, s2, x);
  }

  /** The one task that an event can change. */
  ghost function Subject(s: Sched, e: Event): Option<Gtid>
    requires Sized(s)
  {
    match e
    case Tick(c) => if c < |s.rqs| then s.current[c] else None
    case Schedule(c, boosted, _) =>
      if c >= |s.rqs| then None
      else if boosted then Settled(s, c).current[c] else Candidate(Settled(s, c), c)
    case _ => Some(e.g)
  }

  /** Every legal event keeps the invariant, drops no displaced task, and leaves the record and the
      place in the queues of every task but its subject as they were. */
  lemma HandledKept(s: Sched, e: Event)
    requires Inv(s, None) && Assignable(s) && Legal(s, e) && s.clock >= 0
    ensures Kept(s, Handled(s, e), Subject(s, e))
  {
    match e
    case New(g, nice, runnable) => CreatedKept(s, g, nice, runnable);
    case Wakeup(g, deferrable) => WakenedKept(s, g, !deferrable);
    case Departed(g, fs) => GoneKept(s, g, fs);
    case Dead(g) => DeadKept(s, g);
    case Yield(g, fs) => LeavingKept(s, e);
    case Block(g, fs) => LeavingKept(s, e);
    case Preempt(g, fs) => LeavingKept(s, e);
    case Switchto(g) => LeavingKept(s, e);
    case PriorityChanged(g, nice) => ReprioritizedKept(s, g, 120 + nice);
    case Tick(c) => TickedKept(s, c);
    case Schedule(c, boosted, commits) => PassedKept(s, c, boosted, commits);
  }

  lemma LeavingKept(s: Sched, e: Event)
    requires Inv(s, None) && Assignable(s) && Legal(s, e) && s.clock >= 0
    requires e.Yield? || e.Block? || e.Preempt? || e.Switchto?
    ensures Kept(s, Handled(s, e), Some(e.g))
  {
    match e
    case Yield(g, fs) => if g in s.tasks { RequeuedKept(s, g, fs, s.tasks[g].boost, s.tasks[g].preempted); }
    case Block(g, fs) => if g in s.tasks { BlockedKept(s, g, fs); }
    case Preempt(g, fs) => if g in s.tasks { RequeuedKept(s, g, fs, true, true); }
    case Switchto(g) => if g in s.tasks { BlockedKept(s, g, false); }
  }

  lemma TickedKept(s: Sched, c: nat)
    requires Inv(s, None) && c < |s.rqs|
    ensures Kept(s, Ticked(s, c), s.current[c])
  {
    TickInv(s, c);
    TickSpent(s, c);
  }

  lemma DeadKept(s: Sched, g: Gtid)
    requires Inv(s, None) && (g in s.tasks ==> s.tasks[g].state == Blocked)
    ensures Kept(s, Freed(s, g), Some(g))
  {
    if g in s.tasks {
      FreeInv(s, g, None);
    } else {
      assert s.tasks - {g} == s.tasks;
    }
  }

  lemma BlockedKept(s: Sched, g: Gtid, fromSwitchto: bool)
    requires Inv(s, None) && g in s.tasks && MayLeave(s, g, fromSwitchto)
    ensures 0 <= s.tasks[g].cpu < |s.current| && Kept(s, Off(s, g, true), Some(g))
  {
    OffInv(s, g, fromSwitchto, true);
    OffSpent(s, g);
  }

  lemma NextKept(s: Sched, e: Event, now: int)
    requires Sound(s) && Legal(s, e) && s.clock <= now
    ensures var s' := Next(s, e, now); Sound(s') && SpentKept(s, s') && s'.clock == now
    ensures Alike(s, Next(s, e, now), Subject(s.(clock := now), e))
  {
    ClockInv(s, now);
    var s1 := s.(clock := now);
    HandledKept(s1, e);
    SpentTwice(s, s1, Next(s, e, now));
    AlikeTwice(s, s1, Next(s, e, now), Subject(s1, e));
  }

  // ---------------------------------------------------------------- runs

  /** From one state of a run to the next: what the event does, or nothing if the kernel cannot send it
      in that state.  The clock does not go back. */
  ghost predicate Stepped(s: Sched, e: Event, now: int, s': Sched)
    requires Inv(s, None) && Assignable(s) && s.clock >= 0
  {
    s' == if Legal(s, e) then Next(s, e, if now < s.clock then s.clock else now) else s
  }

  /** The states between the events of a run, with the times of the events. */
  ghost predicate Trace(events: seq<(Event, int)>, states: seq<Sched>) {
    && |states| == |events| + 1 && Sound(states[|events|])
    && forall i: nat :: i < |events| ==> StepAt(events, states, i)
  }

  ghost predicate StepAt(events: seq<(Event, int)>, states: seq<Sched>, i: nat)
    requires i < |events| && |states| == |events| + 1
  {
    Sound(states[i]) && Stepped(states[i], events[i].0, events[i].1, states[i + 1])
  }

  lemma SoundAt(events: seq<(Event, int)>, states: seq<Sched>, i: nat)
    requires Trace(events, states) && i < |states|
    ensures Sound(states[i])
  {
    if i < |events| { assert StepAt(events, states, i); }
  }

  lemma SteppedKept(s: Sched, e: Event, now: int, s': Sched)
    requires Sound(s) && Stepped(s, e, now, s')
    ensures Sound(s') && SpentKept(s, s') && s.clock <= s'.clock
  {
    if Legal(s, e) { NextKept(s, e, if now < s.clock then s.clock else now); }
  }

  lemma TraceGrows(events: seq<(Event, int)>, states: seq<Sched>, e: Event, now: int, s': Sched)
    requires Trace(events, states) && Stepped(states[|events|], e, now, s') && Sound(s')
    ensures Trace(events + [(e, now)], states + [s'])
  {
    var es, ss := events + [(e, now)], states + [s'];
    forall i: nat | i < |es| ensures StepAt(es, ss, i) {
      if i < |events| { assert StepAt(events, states, i); }
    }
  }

  /** A task displaced for its used-up slice, whatever messages follow, is enqueued next with a
      full slice in the expired array: over any stretch of a run in which it stays alive it is
      either spent throughout, or spent up to that enqueue. */
  lemma {:induction false} DisplacedExpires(events: seq<(Event, int)>, states: seq<Sched>, i: nat, j: nat, g: Gtid)
    requires Trace(events, states) && i <= j < |states|
    requires Sized(states[i]) && g in states[i].tasks && Displaced(states[i], g)
    requires forall k :: i <= k <= j ==> g in states[k].tasks
    ensures || (forall k :: i <= k <= j ==> Spent(states[k], g))
            || (exists k :: i < k <= j && Refilled(states[k], g) && forall m :: i <= m < k ==> Spent(states[m], g))
    decreases j
  {
    SoundAt(events, states, i);
    if i < j {
      DisplacedExpires(events, states, i, j - 1, g);
      assert StepAt(events, states, j - 1);
      SteppedKept(states[j - 1], events[j - 1].0, events[j - 1].1, states[j]);
    }
  }
}
