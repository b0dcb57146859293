/**
  What each event of schedulers/o1 means for the tasks, run queues and CPUs, stated of
  the event itself and in plain terms: the new state, field by field.
 */
module O1Meanings {
  import opened O1RunQueue
  import opened O1State
  import opened O1Events

  /** A run queue after g has joined bucket p: the active one while it has slice left, else the expired
      one; at the front or at the end. */
  function Into(q: Rq, p: nat, g: Gtid, left: int, front: bool): Rq
    requires q.Shaped() && p < NUM_PRIO
  {
    if left > 0 then Rq(q.active[p := if front then [g] + q.active[p] else q.active[p] + [g]], q.expired)
    else Rq(q.active, q.expired[p := if front then [g] + q.expired[p] else q.expired[p] + [g]])
  }

  /** The slice that a task has once it is queued. */
  function Topped(left: int): int {
    if left > 0 then left else SLICE
  }

  /** A task of a sound state has a priority in range and, if it has a CPU, one that exists. */
  lemma KnownTask(s: Sched, g: Gtid)
    requires Sound(s) && g in s.tasks
    ensures 0 <= s.tasks[g].prio - BASE_PRIO < NUM_PRIO && -1 <= s.tasks[g].cpu < |s.rqs|
    ensures s.tasks[g].state == OnCpu || s.tasks[g].state == Queued ==> s.tasks[g].cpu >= 0
    ensures forall c :: 0 <= c < |s.rqs| ==> s.rqs[c].Shaped()
  {
    assert TaskOk(s, g, None);
  }

  // ---------------------------------------------------------------- tasks come and go

  /** A new task has priority 120 + nice and a full slice.  If it is runnable, it joins the end of its
      bucket in the active array of the CPU that the round robin has come to. */
  lemma NewMeans(s: Sched, g: Gtid, nice: int, runnable: bool, now: int)
    requires Sound(s) && s.clock <= now && -20 <= nice <= 19
    ensures var s' := Next(s, New(g, nice, runnable), now);
      var k := if s.next == |s.ids| then 0 else s.next; var c, p := s.ids[k], 20 + nice;
      && (g in s.tasks ==> s' == s.(clock := now))
      && (g !in s.tasks && !runnable ==>
            s' == s.(clock := now, tasks := s.tasks[g := Task(120 + nice, Blocked, -1, false, false, 0, SLICE)]))
      && (g !in s.tasks && runnable ==>
            && s.rqs[c].Shaped()
            && s' == s.(clock := now, next := k + 1,
                        tasks := s.tasks[g := Task(120 + nice, Queued, c, false, false, 0, SLICE)],
                        rqs := s.rqs[c := Rq(s.rqs[c].active[p := s.rqs[c].active[p] + [g]], s.rqs[c].expired)]))
  {
    ClockInv(s, now);
    if g !in s.tasks && runnable {
      var s1 := Next(s, New(g, nice, runnable), now);
      assert s1.tasks == s.tasks[g := Task(120 + nice, Queued, s1.tasks[g].cpu, false, false, 0, SLICE)];
    }
  }

  /** A woken task joins the run queue of its own CPU, or of the one that the round robin has come to if
      it has none: at the front of its bucket unless the wake-up is deferrable. */
  lemma WakeupMeans(s: Sched, g: Gtid, deferrable: bool, now: int)
    requires Sound(s) && s.clock <= now && Legal(s, Wakeup(g, deferrable))
    ensures g !in s.tasks ==> Next(s, Wakeup(g, deferrable), now) == s.(clock := now)
    ensures g in s.tasks ==>
      var s' := Next(s, Wakeup(g, deferrable), now); var t := s.tasks[g];
      var k := if s.next == |s.ids| then 0 else s.next;
      var c, p := if t.cpu < 0 then s.ids[k] else t.cpu, t.prio - BASE_PRIO;
      && c < |s.rqs| && 0 <= p < NUM_PRIO && s.rqs[c].Shaped()
      && s' == s.(clock := now, next := if t.cpu < 0 then k + 1 else s.next,
                  tasks := s.tasks[g := t.(state := Queued, boost := !deferrable, cpu := c, remaining := Topped(t.remaining))],
                  rqs := s.rqs[c := Into(s.rqs[c], p, g, t.remaining, !deferrable)])
  {
    ClockInv(s, now);
    if g in s.tasks {
      KnownTask(s, g);
      var s1 := Next(s, Wakeup(g, deferrable), now);
      assert s1.tasks == s.tasks[g := s1.tasks[g]];
    }
  }

  /** A departed task is gone from the map and from its CPU, and its run queue is the old one less the
      task. */
  lemma DepartedMeans(s: Sched, g: Gtid, fromSwitchto: bool, now: int)
    requires Sound(s) && s.clock <= now && Legal(s, Departed(g, fromSwitchto))
    ensures var s' := Next(s, Departed(g, fromSwitchto), now);
      && s'.tasks == s.tasks - {g} && s'.preempt == s.preempt && s'.next == s.next && |s'.rqs| == |s.rqs|
      && (g !in s.tasks ==> s' == s.(clock := now))
      && (g in s.tasks && s.tasks[g].state != Queued ==> s'.rqs == s.rqs)
      && (g in s.tasks && s.tasks[g].state == OnCpu ==>
            s'.current == if s.current[s.tasks[g].cpu] == Some(g) then s.current[s.tasks[g].cpu := None] else s.current)
      && (g in s.tasks && s.tasks[g].state != OnCpu ==> s'.current == s.current)
      && (g in s.tasks && s.tasks[g].state == Queued ==>
            var c := s.tasks[g].cpu;
            && s'.rqs == s.rqs[c := s'.rqs[c]] && s'.rqs[c].Order() == Less(s.rqs[c].Order(), g))
  {
    ClockInv(s, now);
    if g in s.tasks {
      KnownTask(s, g);
      if s.tasks[g].state == Queued { ErasedAlike(s.(clock := now), g); }
    } else {
      assert s.tasks - {g} == s.tasks;
    }
  }

  lemma DeadMeans(s: Sched, g: Gtid, now: int)
    requires Sound(s) && s.clock <= now && Legal(s, Dead(g))
    ensures Next(s, Dead(g), now) == s.(clock := now, tasks := s.tasks - {g})
  {
    ClockInv(s, now);
  }

  /** Only the priority changes; a queued task moves to the end (or, boosted, the front) of its new bucket
      in the active array, even from the expired one. */
  lemma PriorityMeans(s: Sched, g: Gtid, nice: int, now: int)
    requires Sound(s) && s.clock <= now && -20 <= nice <= 19
    ensures var s' := Next(s, PriorityChanged(g, nice), now);
      && (g !in s.tasks ==> s' == s.(clock := now))
      && (g in s.tasks && s.tasks[g].state != Queued ==>
            s' == s.(clock := now, tasks := s.tasks[g := s.tasks[g].(prio := 120 + nice)]))
      && (g in s.tasks && s.tasks[g].state == Queued ==>
            var t := s.tasks[g]; var c, p := t.cpu, t.prio - BASE_PRIO;
            && 0 <= c < |s.rqs| && 0 <= p < NUM_PRIO && s.rqs[c].Shaped()
            && var q := if g in s.rqs[c].active[p]
                 then Rq(s.rqs[c].active[p := Less(s.rqs[c].active[p], g)], s.rqs[c].expired)
                 else Rq(s.rqs[c].active, s.rqs[c].expired[p := Less(s.rqs[c].expired[p], g)]);
               s' == s.(clock := now, tasks := s.tasks[g := t.(prio := 120 + nice)],
                        rqs := s.rqs[c := Into(q, 20 + nice, g, 1, t.boost)]))
  {
    ClockInv(s, now);
    if g in s.tasks && s.tasks[g].state == Queued {
      KnownTask(s, g);
      EraseInv(s.(clock := now), g);
      var s1 := Next(s, PriorityChanged(g, nice), now);
      assert s1.tasks == s.tasks[g := s.tasks[g].(prio := 120 + nice)];
      assert s1.rqs == s.rqs[s.tasks[g].cpu := s1.rqs[s.tasks[g].cpu]];
    }
  }

  // ---------------------------------------------------------------- off the CPU

  /** What is left of a task's slice at time `now`. */
  function LeftAt(t: Task, now: int): int {
    if t.state == OnCpu then t.remaining - (now - t.lastPick) else t.remaining
  }

  /** Nobody's current task any more. */
  function Cleared(current: seq<Option<Gtid>>, c: int, g: Gtid): seq<Option<Gtid>> {
    if 0 <= c < |current| && current[c] == Some(g) then current[c := None] else current
  }

  /** Blocking and switching away: the task is charged for its time on the CPU, blocked, and no longer
      current.  One that was not on a CPU (a switch-to target) is not charged. */
  lemma BlockMeans(s: Sched, e: Event, g: Gtid, now: int)
    requires Sound(s) && s.clock <= now && Legal(s, e) && (e == Switchto(g) || (e.Block? && e.g == g))
    ensures g !in s.tasks ==> Next(s, e, now) == s.(clock := now)
    ensures g in s.tasks ==>
      var t := s.tasks[g];
      Next(s, e, now) == s.(clock := now, tasks := s.tasks[g := t.(state := Blocked, remaining := LeftAt(t, now))],
                            current := if t.state == OnCpu then Cleared(s.current, t.cpu, g) else s.current)
  {
    ClockInv(s, now);
    if g in s.tasks { KnownTask(s, g); }
  }

  /** Preemption and yielding: charged, no longer current, and queued on its own CPU; a preempted task at
      the front and marked so, one that yields as its boost says (which a task picked from a queue
      does not have). */
  lemma LeaveMeans(s: Sched, e: Event, g: Gtid, now: int)
    requires Sound(s) && s.clock <= now && Legal(s, e) && ((e.Preempt? && e.g == g) || (e.Yield? && e.g == g))
    ensures g !in s.tasks ==> Next(s, e, now) == s.(clock := now)
    ensures g in s.tasks ==>
      var t := s.tasks[g]; var c, p, left := t.cpu, t.prio - BASE_PRIO, LeftAt(t, now);
      var boost, preempted := if e.Preempt? then true else t.boost, if e.Preempt? then true else t.preempted;
      && 0 <= c < |s.rqs| && 0 <= p < NUM_PRIO && s.rqs[c].Shaped()
      && Next(s, e, now) == s.(clock := now,
           tasks := s.tasks[g := t.(state := Queued, remaining := Topped(left), boost := boost, preempted := preempted)],
           current := if t.state == OnCpu then Cleared(s.current, c, g) else s.current,
           rqs := s.rqs[c := Into(s.rqs[c], p, g, left, boost)])
  {
    ClockInv(s, now);
    if g in s.tasks {
      KnownTask(s, g);
      var s1 := Next(s, e, now);
      assert s1.tasks == s.tasks[g := s1.tasks[g]];
    }
  }

  // ---------------------------------------------------------------- ticks

  /** A tick charges the current task, restarts its clock, and asks for a preemption exactly when that has
      used up its slice. */
  lemma TickMeans(s: Sched, c: nat, now: int)
    requires Sound(s) && s.clock <= now && c < |s.rqs|
    ensures s.current[c] == None ==> Next(s, Tick(c), now) == s.(clock := now)
    ensures s.current[c].Some? ==>
      var g := s.current[c].value;
      && g in s.tasks && s.tasks[g].state == OnCpu
      && var left := LeftAt(s.tasks[g], now);
        Next(s, Tick(c), now) == s.(clock := now, tasks := s.tasks[g := s.tasks[g].(remaining := left, lastPick := now)],
                                    preempt := s.preempt[c := s.preempt[c] || left <= 0])
  {
    ClockInv(s, now);
    assert CurrentOk(s, c);
    assert s.preempt[c := s.preempt[c]] == s.preempt;
  }

  // ---------------------------------------------------------------- scheduling passes

  /** A task that has just been put on its CPU. */
  function Picked(t: Task, now: int): Task {
    t.(state := OnCpu, lastPick := now, preempted := false, boost := false)
  }

  lemma CurrentTask(s: Sched, c: nat)
    requires Sound(s) && c < |s.rqs| && s.current[c].Some?
    ensures var g := s.current[c].value;
      && g in s.tasks && s.tasks[g].state == OnCpu && s.tasks[g].cpu == c
      && 0 <= s.tasks[g].prio - BASE_PRIO < NUM_PRIO && s.rqs[c].Shaped()
  {
    assert CurrentOk(s, c);
    KnownTask(s, s.current[c].value);
  }

  lemma FirstTask(s: Sched, c: nat)
    requires Sound(s) && c < |s.rqs| && s.rqs[c].Order() != []
    ensures var h := s.rqs[c].Order()[0]; h in s.tasks && s.tasks[h].state == Queued && s.tasks[h].cpu == c
  {
    DequeueInv(s, c);
  }

  /** A pass with a preemption pending while others wait: the current task g is displaced, still on the
      CPU by its record and in no queue, and the first one waiting is picked instead. */
  lemma PassPreempts(s: Sched, c: nat, commits: bool, now: int)
    requires Sound(s) && s.clock <= now && c < |s.rqs| && s.preempt[c] && s.current[c].Some? && s.rqs[c].Order() != []
    ensures var s' := Next(s, Schedule(c, false, commits), now); var g, h := s.current[c].value, s.rqs[c].Order()[0];
      && g != h && g in s.tasks && h in s.tasks && s'.preempt == s.preempt[c := false] && |s'.rqs| == |s.rqs|
      && g in s'.tasks && s'.tasks[g] == s.tasks[g] && s'.tasks[g].state == OnCpu
      && (forall d :: 0 <= d < |s.rqs| ==> g !in s'.rqs[d].Order())
      && (forall d :: 0 <= d < |s.rqs| && d != c ==> s'.rqs[d] == s.rqs[d])
      && s'.current == s.current[c := if commits then Some(h) else None]
      && s'.rqs[c].Order() == (if commits then s.rqs[c].Order()[1..] else s.rqs[c].Order())
      && s'.tasks == s.tasks[h := if commits then Picked(s.tasks[h], now) else s.tasks[h].(boost := true)]
  {
    CurrentTask(s, c);
    FirstTask(s, c);
    PassNext(s, c, commits, now);
    NextKept(s, Schedule(c, false, commits), now);
    var s' := Next(s, Schedule(c, false, commits), now);
    var g := s.current[c].value;
    forall d | 0 <= d < |s.rqs| ensures g !in s'.rqs[d].Order() {
      OrderOnce(s', None, d, g);
      assert g !in multiset(s'.rqs[d].Order());
    }
  }

  /** A pass that finds no current task, or has just displaced it, takes the first one waiting.  If its
      commit fails, it is first again. */
  lemma PassNext(s: Sched, c: nat, commits: bool, now: int)
    requires Sound(s) && s.clock <= now && c < |s.rqs| && s.rqs[c].Order() != []
    requires s.current[c] == None || s.preempt[c]
    ensures var s' := Next(s, Schedule(c, false, commits), now); var h := s.rqs[c].Order()[0];
      && h in s.tasks && s.tasks[h].state == Queued && s'.preempt == s.preempt[c := false] && |s'.rqs| == |s.rqs|
      && (forall d :: 0 <= d < |s.rqs| && d != c ==> s'.rqs[d] == s.rqs[d])
      && s'.current == s.current[c := if commits then Some(h) else None]
      && s'.rqs[c].Order() == (if commits then s.rqs[c].Order()[1..] else s.rqs[c].Order())
      && s'.tasks == s.tasks[h := if commits then Picked(s.tasks[h], now) else s.tasks[h].(boost := true)]
  {
    PassDisplaces(s, c, commits, now);
    DispatchNext(s.(clock := now, preempt := s.preempt[c := false], current := s.current[c := None]), c, commits);
  }

  lemma PassDisplaces(s: Sched, c: nat, commits: bool, now: int)
    requires Sound(s) && s.clock <= now && c < |s.rqs| && s.rqs[c].Order() != []
    requires s.current[c] == None || s.preempt[c]
    ensures var s0 := s.(clock := now, preempt := s.preempt[c := false], current := s.current[c := None]);
      Inv(s0, None) && Next(s, Schedule(c, false, commits), now) == Dispatched(s0, c, commits)
  {
    ClockInv(s, now);
    if s.current[c].Some? { CurrentTask(s, c); }
    var s0 := s.(clock := now, preempt := s.preempt[c := false], current := s.current[c := None]);
    assert s.preempt[c := s.preempt[c]] == s.preempt && s.current[c := s.current[c]] == s.current;
    assert Settled(s.(clock := now), c) == s0;
    SettleInv(s.(clock := now), c);
  }

  lemma DispatchNext(s: Sched, c: nat, commits: bool)
    requires Inv(s, None) && c < |s.rqs| && s.rqs[c].Order() != [] && s.current[c] == None
    ensures var s' := Dispatched(s, c, commits); var h := s.rqs[c].Order()[0];
      && h in s.tasks && s.tasks[h].state == Queued && s'.preempt == s.preempt && |s'.rqs| == |s.rqs|
      && (forall d :: 0 <= d < |s.rqs| && d != c ==> s'.rqs[d] == s.rqs[d])
      && s'.current == s.current[c := if commits then Some(h) else None]
      && s'.rqs[c].Order() == (if commits then s.rqs[c].Order()[1..] else s.rqs[c].Order())
      && s'.tasks == s.tasks[h := if commits then Picked(s.tasks[h], s.clock) else s.tasks[h].(boost := true)]
  {
    DequeueInv(s, c);
    var h := s.rqs[c].Order()[0];
    NextOrder(s.rqs[c]);
    if !commits { BackInFront(s, c, h); }
    var s' := Dispatched(s, c, commits);
    assert s.current[c := s.current[c]] == s.current;
    assert s'.tasks == s.tasks[h := if commits then Picked(s.tasks[h], s.clock) else s.tasks[h].(boost := true)];
  }

  /** A pass with a preemption pending while nobody else waits gives the current task a new slice; one
      without leaves the slice alone. */
  function Renewed(s: Sched, c: nat, t: Task): Task
    requires c < |s.preempt|
  {
    if s.preempt[c] then t.(remaining := SLICE) else t
  }

  /** A pass that keeps the current task g.  A commit restarts its clock, without a charge; a failed one
      charges it and puts it at the front of its bucket. */
  lemma PassKeeps(s: Sched, c: nat, commits: bool, now: int)
    requires Sound(s) && s.clock <= now && c < |s.rqs| && s.current[c].Some? && (s.preempt[c] ==> s.rqs[c].Order() == [])
    ensures var s' := Next(s, Schedule(c, false, commits), now); var g := s.current[c].value;
      && g in s.tasks && s.tasks[g].state == OnCpu && s.tasks[g].cpu == c
      && var t := Renewed(s, c, s.tasks[g]); var p, left := t.prio - BASE_PRIO, LeftAt(t, now);
        && 0 <= p < NUM_PRIO && s.rqs[c].Shaped()
        && s' == if commits then s.(clock := now, preempt := s.preempt[c := false], tasks := s.tasks[g := Picked(t, now)])
                 else s.(clock := now, preempt := s.preempt[c := false], current := s.current[c := None],
                         tasks := s.tasks[g := t.(state := Queued, boost := true, remaining := Topped(left))],
                         rqs := s.rqs[c := Into(s.rqs[c], p, g, left, true)])
  {
    ClockInv(s, now);
    CurrentTask(s, c);
    var g := s.current[c].value;
    var s0 := s.(clock := now, preempt := s.preempt[c := false], tasks := s.tasks[g := Renewed(s, c, s.tasks[g])]);
    assert s.preempt[c := s.preempt[c]] == s.preempt && s.current[c := s.current[c]] == s.current;
    assert s.tasks[g := s.tasks[g]] == s.tasks;
    assert Settled(s.(clock := now), c) == s0;
    SettleInv(s.(clock := now), c);
    var s' := Next(s, Schedule(c, false, commits), now);
    assert s'.tasks == s.tasks[g := s'.tasks[g]];
  }

  /** A pass with nobody to run, and one for a boosted task, which leaves the choice to the kernel. */
  lemma PassIdles(s: Sched, c: nat, boosted: bool, commits: bool, now: int)
    requires Sound(s) && s.clock <= now && c < |s.rqs|
    requires boosted || (s.current[c] == None && s.rqs[c].Order() == [])
    ensures var s' := Next(s, Schedule(c, boosted, commits), now);
      && (s.current[c] == None || !s.preempt[c] ==> s' == s.(clock := now, preempt := s.preempt[c := false]))
      && (s.current[c].Some? && s.preempt[c] ==>
            var g := s.current[c].value;
            && g in s.tasks
            && s' == if s.rqs[c].Order() != [] then s.(clock := now, preempt := s.preempt[c := false], current := s.current[c := None])
                     else s.(clock := now, preempt := s.preempt[c := false], tasks := s.tasks[g := s.tasks[g].(remaining := SLICE)]))
  {
    ClockInv(s, now);
    if s.current[c].Some? { CurrentTask(s, c); }
    assert s.preempt[c := s.preempt[c]] == s.preempt;
  }
}
