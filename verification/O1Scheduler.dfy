/**
  The O(1) scheduler of schedulers/o1: message handlers, ticks and scheduling
  decisions over per-CPU run queues.  Each CHECK of the source on the modelled state is
  an assert or a precondition here, so a handler that verifies cannot fire one on any
  message that the kernel may send.  The clock is read once per event.
 */
module O1Schedulers {
  import opened O1RunQueue
  import opened O1State
  import opened O1Events

  /** Empty run queues that share nothing. */
  method NewQueues(n: nat) returns (queues: seq<O1Rq>, ghost owned: set<object>)
    ensures |queues| == n && fresh(owned)
    ensures forall j :: 0 <= j < n ==>
      && queues[j] in owned && queues[j].active in owned && queues[j].expired in owned && queues[j].Valid()
      && queues[j].View() == Rq(seq(NUM_PRIO, i => []), seq(NUM_PRIO, i => []))
    ensures forall j, k :: 0 <= j < k < n ==>
      queues[j] != queues[k] && {queues[j].active, queues[j].expired} !! {queues[k].active, queues[k].expired}
  {
    queues, owned := [], {};
    for i := 0 to n
      invariant |queues| == i && fresh(owned)
      invariant forall j :: 0 <= j < i ==>
        && queues[j] in owned && queues[j].active in owned && queues[j].expired in owned && queues[j].Valid()
        && queues[j].View() == Rq(seq(NUM_PRIO, i => []), seq(NUM_PRIO, i => []))
      invariant forall j, k :: 0 <= j < k < i ==>
        queues[j] != queues[k] && {queues[j].active, queues[j].expired} !! {queues[k].active, queues[k].expired}
    {
      var q := new O1Rq();
      queues := queues + [q];
      owned := owned + {q, q.active, q.expired};
    }
  }

  lemma EmptyInv(s: Sched)
    requires Sized(s) && s.tasks == map[] && forall c :: 0 <= c < |s.current| ==> s.current[c] == None
    requires forall c :: 0 <= c < |s.rqs| ==> s.rqs[c] == Rq(seq(NUM_PRIO, i => []), seq(NUM_PRIO, i => []))
    ensures Inv(s, None)
  {
  }

  class O1Scheduler {
    const rq: seq<O1Rq>
    const cpuIds: seq<nat>         // the enclave's CPUs
    ghost const repr: set<object>
    var tasks: map<Gtid, Task>
    var current: seq<Option<Gtid>>
    var preempt: seq<bool>
    var clock: int
    var next: nat                  // AssignCpu's iterator into cpuIds

    ghost predicate Ready()
      reads this, repr
    {
      && |rq| == |current| == |preempt| && this !in repr && clock >= 0
      && (forall i :: 0 <= i < |rq| ==>
            rq[i] in repr && rq[i].active in repr && rq[i].expired in repr && rq[i].Valid())
      && (forall i, j :: 0 <= i < j < |rq| ==>
            rq[i] != rq[j] && {rq[i].active, rq[i].expired} !! {rq[j].active, rq[j].expired})
      && cpuIds != [] && (forall i :: 0 <= i < |cpuIds| ==> cpuIds[i] < |rq|) && next <= |cpuIds|
    }

    ghost function View(): Sched
      requires Ready()
      reads this, repr
    {
      Sched(tasks, current, preempt, seq(|rq|, i requires 0 <= i < |rq| && Ready() reads this, repr => rq[i].View()),
            clock, cpuIds, next)
    }

    ghost predicate Valid()
      reads this, repr
    {
      Ready() && Inv(View(), None)
    }

    /** No tasks, idle CPUs, and AssignCpu's iterator at the end. */
    constructor (numCpus: nat, ids: seq<nat>)
      requires ids != [] && forall i :: 0 <= i < |ids| ==> ids[i] < numCpus
      ensures Valid() && fresh(repr) && tasks == map[] && |rq| == numCpus && cpuIds == ids && clock == 0
      ensures next == |ids| && forall c :: 0 <= c < numCpus ==> current[c] == None && !preempt[c]
    {
      var queues;
      ghost var owned;
      queues, owned := NewQueues(numCpus);
      rq, cpuIds, repr := queues, ids, owned;
      tasks, clock, next := map[], 0, |ids|;
      current, preempt := seq(numCpus, i => None), seq(numCpus, i => false);
      new;
      EmptyInv(View());
    }

    // ---------------------------------------------------------------- run queues

    /** One run queue changes and nothing else does. */
    method RqEnqueue(c: nat, g: Gtid, prio: int, left: int, boost: bool) returns (remaining: int)
      requires Ready() && c < |rq| && 0 <= prio - BASE_PRIO < NUM_PRIO
      modifies repr
      ensures Ready() && remaining == if left > 0 then left else SLICE
      ensures var s := old(View()); View() == s.(rqs := s.rqs[c := s.rqs[c].With(g, prio, left, boost)])
    {
      remaining := rq[c].Enqueue(g, prio, left, boost);
      assert View().rqs == old(View()).rqs[c := rq[c].View()];
    }

    method RqErase(c: nat, g: Gtid, prio: int)
      requires Ready() && c < |rq| && 0 <= prio - BASE_PRIO < NUM_PRIO
      requires var q := View().rqs[c]; g in q.active[prio - BASE_PRIO] || g in q.expired[prio - BASE_PRIO]
      modifies repr
      ensures Ready()
      ensures var s := old(View()); View() == s.(rqs := s.rqs[c := s.rqs[c].Without(g, prio)])
    {
      rq[c].Erase(g, prio);
      assert View().rqs == old(View()).rqs[c := rq[c].View()];
    }

    method RqDequeue(c: nat) returns (r: Option<Gtid>)
      requires Ready() && c < |rq|
      modifies repr
      ensures Ready()
      ensures var s := old(View());
        if s.rqs[c].Order() == [] then r == None && View() == s
        else r == Some(s.rqs[c].Order()[0]) && View() == s.(rqs := s.rqs[c := s.rqs[c].Next()])
    {
      r := rq[c].Dequeue();
      assert View().rqs == old(View()).rqs[c := rq[c].View()];
    }

    /** The CHECKs are the preconditions on the task's state and CPU. */
    method Enqueue(g: Gtid)
      requires Ready() && g in tasks && tasks[g].state == Runnable && 0 <= tasks[g].cpu < |rq|
      requires 0 <= tasks[g].prio - BASE_PRIO < NUM_PRIO
      modifies this`tasks, repr
      ensures Ready() && View() == Enqueued(old(View()), g)
    {
      var t := tasks[g];
      var remaining := RqEnqueue(t.cpu, g, t.prio, t.remaining, t.boost);
      SetTask(g, t.(state := Queued, remaining := remaining));
    }

    method SetTask(g: Gtid, t: Task)
      requires Ready()
      modifies this`tasks
      ensures Ready() && View() == Put(old(View()), g, t)
    {
      tasks := tasks[g := t];
      assert View().rqs == old(View()).rqs;
    }

    method SetCurrent(c: nat, g: Option<Gtid>)
      requires Ready() && c < |rq|
      modifies this`current
      ensures Ready() && View() == old(View()).(current := old(View()).current[c := g])
    {
      current := current[c := g];
      assert View().rqs == old(View()).rqs;
    }

    method SetPreempt(c: nat, b: bool)
      requires Ready() && c < |rq|
      modifies this`preempt
      ensures Ready() && View() == old(View()).(preempt := old(View()).preempt[c := b])
    {
      preempt := preempt[c := b];
      assert View().rqs == old(View()).rqs;
    }

    method Erase(g: Gtid)
      requires Valid() && g in tasks && tasks[g].state == Queued
      modifies this`tasks, repr
      ensures Ready() && 0 <= old(tasks)[g].cpu < |rq| && 0 <= old(tasks)[g].prio - BASE_PRIO < NUM_PRIO
      ensures View() == Erased(old(View()), g)
    {
      EraseInv(View(), g);
      var t := tasks[g];
      RqErase(t.cpu, g, t.prio);
      SetTask(g, t.(state := Runnable));
    }

    method Dequeue(c: nat) returns (r: Option<Gtid>)
      requires Valid() && c < |rq|
      modifies this`tasks, repr
      ensures Ready()
      ensures old(View()).rqs[c].Order() == [] ==> r == None && View() == old(View())
      ensures old(View()).rqs[c].Order() != [] ==>
        && r == Some(old(View()).rqs[c].Order()[0]) && r.value in old(tasks) && View() == Dequeued(old(View()), c)
    {
      if View().rqs[c].Order() != [] { DequeueInv(View(), c); }
      r := RqDequeue(c);
      if r.Some? {
        assert tasks[r.value].state == Queued;   // CHECK(task->queued())
        SetTask(r.value, tasks[r.value].(state := Runnable));
      }
    }

    method Empty(c: nat) returns (r: bool)
      requires Valid() && c < |rq|
      ensures r <==> View().rqs[c].Order() == []
    {
      var n := rq[c].Size();
      return n == 0;
    }

    // ---------------------------------------------------------------- helpers

    /** Round robin over the enclave's CPUs. */
    method AssignCpu() returns (c: nat)
      requires Ready()
      modifies this`next
      ensures Ready() && c == Assigned(old(View())) && c < |rq| && View() == Advanced(old(View()))
    {
      if next == |cpuIds| {
        next := 0;
      }
      c := cpuIds[next];
      next := next + 1;
      assert View().rqs == old(View()).rqs;
    }

    /** The CHECKs are the preconditions on the task's state and CPU. */
    method Migrate(g: Gtid, c: nat)
      requires Ready() && Inv(View(), Some(g)) && g in tasks && tasks[g].state == Runnable && tasks[g].cpu == -1 && c < |rq|
      modifies this`tasks, repr
      ensures Ready() && View() == Migrated(old(View()), g, c)
    {
      assert TaskOk(View(), g, Some(g));
      SetTask(g, tasks[g].(cpu := c));
      Enqueue(g);
    }

    method TaskOffCpu(g: Gtid, blocked: bool, fromSwitchto: bool)
      requires Ready() && g in tasks && MayLeave(View(), g, fromSwitchto) && 0 <= tasks[g].cpu < |rq|
      modifies this`tasks, this`current
      ensures Ready() && View() == Off(old(View()), g, blocked)
    {
      var t := tasks[g];
      if t.state == OnCpu {
        t := t.(remaining := t.remaining - (clock - t.lastPick));
        if current[t.cpu] == Some(g) {
          SetCurrent(t.cpu, None);
        }
      } else {
        assert fromSwitchto;             // CHECK(from_switchto)
        assert t.state == Blocked;       // CHECK_EQ(task->run_state, kBlocked)
      }
      SetTask(g, t.(state := if blocked then Blocked else Runnable));
    }

    method TaskOnCpu(g: Gtid, c: nat)
      requires Ready() && g in tasks && c < |rq| && (current[c] == None || current[c] == Some(g))
      modifies this`tasks, this`current
      ensures Ready() && View() == On(old(View()), g, c)
    {
      SetCurrent(c, Some(g));
      SetTask(g, tasks[g].(state := OnCpu, lastPick := clock, cpu := c, preempted := false, boost := false));
    }

    method Free(g: Gtid)
      requires Ready()
      modifies this`tasks
      ensures Ready() && View() == Freed(old(View()), g)
    {
      tasks := tasks - {g};
      assert View().rqs == old(View()).rqs;
    }

    // ---------------------------------------------------------------- messages

    method TaskNew(g: Gtid, nice: int, runnable: bool)
      requires Valid() && -20 <= nice <= 19
      modifies this, repr
      ensures Ready() && View() == Created(old(View()), g, nice, runnable)
    {
      if g in tasks {
        return;                          // the dispatcher already has the task
      }
      NewInv(View(), g, NewTask(nice, runnable));
      SetTask(g, NewTask(nice, runnable));
      if runnable {
        AdvancedInv(View(), Some(g));
        var c := AssignCpu();
        Migrate(g, c);
      }
    }

    /** The task is enqueued on its own CPU, or on the next one if it has none. */
    method TaskRunnable(g: Gtid, deferrable: bool)
      requires Valid() && Legal(View(), Wakeup(g, deferrable))
      modifies this, repr
      ensures Ready() && View() == Wakened(old(View()), g, !deferrable)
    {
      if g !in tasks {
        return;
      }
      assert tasks[g].state == Blocked;  // CHECK(task->blocked())
      assert cpuIds[0] < |rq|;
      WakeInv(View(), g, !deferrable);
      assert TaskOk(View(), g, None);
      SetTask(g, tasks[g].(state := Runnable, boost := !deferrable));
      if tasks[g].cpu < 0 {
        AdvancedInv(View(), Some(g));
        var c := AssignCpu();
        Migrate(g, c);
      } else {
        Enqueue(g);
      }
    }

    method TaskDeparted(g: Gtid, fromSwitchto: bool)
      requires Valid() && Legal(View(), Departed(g, fromSwitchto))
      modifies this, repr
      ensures Ready() && View() == Gone(old(View()), g, fromSwitchto)
    {
      if g !in tasks {
        return;
      }
      assert TaskOk(View(), g, None);
      if tasks[g].state == OnCpu || fromSwitchto {
        TaskOffCpu(g, false, fromSwitchto);
      } else if tasks[g].state == Queued {
        Erase(g);
      } else {
        assert tasks[g].state == Blocked;   // CHECK(task->blocked())
      }
      Free(g);
    }

    method TaskDead(g: Gtid)
      requires Valid() && Legal(View(), Dead(g))
      modifies this
      ensures Ready() && View() == Freed(old(View()), g)
    {
      if g !in tasks {
        assert tasks - {g} == tasks;
        return;
      }
      assert tasks[g].state == Blocked;  // CHECK(task->blocked())
      Free(g);
    }

    /** The common part of yield and preemption. */
    method Relinquish(g: Gtid, fromSwitchto: bool, boost: bool, preempted: bool)
      requires Valid() && g in tasks && MayLeave(View(), g, fromSwitchto)
      modifies this, repr
      ensures Ready() && View() == Requeued(old(View()), g, fromSwitchto, boost, preempted)
    {
      assert TaskOk(View(), g, None);
      TaskOffCpu(g, false, fromSwitchto);
      SetTask(g, tasks[g].(boost := boost, preempted := preempted));
      Enqueue(g);
    }

    method TaskYield(g: Gtid, fromSwitchto: bool)
      requires Valid() && Legal(View(), Yield(g, fromSwitchto))
      modifies this, repr
      ensures Ready() && View() == Handled(old(View()), Yield(g, fromSwitchto))
    {
      if g in tasks {
        Relinquish(g, fromSwitchto, tasks[g].boost, tasks[g].preempted);
      }
    }

    method TaskBlocked(g: Gtid, fromSwitchto: bool)
      requires Valid() && Legal(View(), Block(g, fromSwitchto))
      modifies this
      ensures Ready() && View() == Handled(old(View()), Block(g, fromSwitchto))
    {
      if g in tasks {
        assert TaskOk(View(), g, None);
        TaskOffCpu(g, true, fromSwitchto);
      }
    }

    method TaskPreempted(g: Gtid, fromSwitchto: bool)
      requires Valid() && Legal(View(), Preempt(g, fromSwitchto))
      modifies this, repr
      ensures Ready() && View() == Handled(old(View()), Preempt(g, fromSwitchto))
    {
      if g in tasks {
        Relinquish(g, fromSwitchto, true, true);
      }
    }

    method TaskSwitchto(g: Gtid)
      requires Valid() && Legal(View(), Switchto(g))
      modifies this
      ensures Ready() && View() == Handled(old(View()), Switchto(g))
    {
      if g in tasks {
        assert TaskOk(View(), g, None);
        TaskOffCpu(g, true, false);
      }
    }

    method TaskPriorityChanged(g: Gtid, nice: int)
      requires Valid() && -20 <= nice <= 19
      modifies this, repr
      ensures Ready() && View() == Reprioritized(old(View()), g, 120 + nice)
    {
      if g !in tasks {
        return;
      }
      assert TaskOk(View(), g, None);
      if tasks[g].state == Queued {
        Erase(g);
        SetTask(g, tasks[g].(prio := 120 + nice));
        Enqueue(g);
      } else {
        SetTask(g, tasks[g].(prio := 120 + nice));
      }
    }

    method CpuTick(c: nat)
      requires Valid() && c < |rq|
      modifies this
      ensures Ready() && View() == Ticked(old(View()), c)
    {
      assert CurrentOk(View(), c);
      if current[c].Some? {
        var g := current[c].value;
        var left := tasks[g].remaining - (clock - tasks[g].lastPick);
        SetTask(g, tasks[g].(remaining := left, lastPick := clock));
        if left <= 0 {
          SetPreempt(c, true);
        }
      }
    }

    // ---------------------------------------------------------------- scheduling

    /** The start of O1Schedule. */
    method SettlePreemption(c: nat)
      requires Valid() && c < |rq|
      modifies this
      ensures Ready() && View() == Settled(old(View()), c)
    {
      assert CurrentOk(View(), c);
      if preempt[c] {
        var idle := Empty(c);
        SetPreempt(c, false);
        var prev := current[c];
        if prev.Some? {
          if !idle {
            SetCurrent(c, None);
          } else {
            SetTask(prev.value, tasks[prev.value].(remaining := SLICE));
          }
        }
      }
    }

    /** O1Schedule, with the outcome of the commit given. */
    method Pass(c: nat, boosted: bool, commits: bool)
      requires Valid() && c < |rq|
      modifies this, repr
      ensures Ready() && View() == Passed(old(View()), c, boosted, commits)
    {
      SettleInv(View(), c);
      SettlePreemption(c);
      if boosted {
        return;                          // LocalYield
      }
      if current[c].Some? {
        RunCurrent(c, commits);
      } else {
        RunNext(c, commits);
      }
    }

    method RunCurrent(c: nat, commits: bool)
      requires Valid() && c < |rq| && current[c].Some?
      modifies this, repr
      ensures Ready() && View() == Dispatched(old(View()), c, commits)
    {
      assert CurrentOk(View(), c);
      var g := current[c].value;
      assert TaskOk(View(), g, None);
      if commits {
        TaskOnCpu(g, c);
      } else {
        TaskOffCpu(g, false, false);
        PushFront(g);
      }
    }

    method RunNext(c: nat, commits: bool)
      requires Valid() && c < |rq| && current[c] == None
      modifies this, repr
      ensures Ready() && View() == Dispatched(old(View()), c, commits)
    {
      ghost var s := View();
      if s.rqs[c].Order() != [] {
        DequeueInv(s, c);
        assert TaskOk(s, s.rqs[c].Order()[0], None);
      }
      var g := Dequeue(c);
      if g.Some? {
        if commits {
          TaskOnCpu(g.value, c);
        } else {
          PushFront(g.value);
        }
      }
    }

    /** A failed commit puts the task back at the front of its bucket. */
    method PushFront(g: Gtid)
      requires Ready() && g in tasks && tasks[g].state == Runnable && 0 <= tasks[g].cpu < |rq|
      requires 0 <= tasks[g].prio - BASE_PRIO < NUM_PRIO
      modifies this`tasks, repr
      ensures Ready() && View() == Enqueued(Boosted(old(View()), g), g)
    {
      SetTask(g, tasks[g].(boost := true));
      Enqueue(g);
    }

    // ---------------------------------------------------------------- runs

    method SetClock(now: int)
      requires Valid() && now >= clock
      modifies this`clock
      ensures Valid() && View() == old(View()).(clock := now)
    {
      ClockInv(View(), now);
      clock := now;
      assert View().rqs == old(View()).rqs;
    }

    /** Every event does what the reference says, and keeps what it is proved to keep. */
    method Handle(e: Event, now: int)
      requires Valid() && Legal(View(), e) && now >= clock
      modifies this, repr
      ensures Valid() && View() == Next(old(View()), e, now)
    {
      NextKept(View(), e, now);
      SetClock(now);
      Dispatch(e);
    }

    /** DispatchMessage. */
    method Dispatch(e: Event)
      requires Valid() && Legal(View(), e)
      modifies this, repr
      ensures Ready() && View() == Handled(old(View()), e)
    {
      match e
      case New(g, nice, runnable) => TaskNew(g, nice, runnable);
      case Wakeup(g, deferrable) => TaskRunnable(g, deferrable);
      case Departed(g, fs) => TaskDeparted(g, fs);
      case Dead(g) => TaskDead(g);
      case Yield(g, fs) => TaskYield(g, fs);
      case Block(g, fs) => TaskBlocked(g, fs);
      case Preempt(g, fs) => TaskPreempted(g, fs);
      case Switchto(g) => TaskSwitchto(g);
      case PriorityChanged(g, nice) => TaskPriorityChanged(g, nice);
      case Tick(c) => CpuTick(c);
      case Schedule(c, boosted, commits) => Pass(c, boosted, commits);
    }

    /** Whether the kernel may send the event now. */
    method MayHappen(e: Event) returns (ok: bool)
      requires Valid()
      ensures ok <==> Legal(View(), e)
    {
      match e
      case New(g, nice, _) => ok := -20 <= nice <= 19;
      case Wakeup(g, _) => ok := g in tasks ==> tasks[g].state == Blocked;
      case Departed(g, fs) => ok := g in tasks && fs ==>
        tasks[g].state == OnCpu || (tasks[g].state == Blocked && tasks[g].cpu >= 0);
      case Dead(g) => ok := g in tasks ==> tasks[g].state == Blocked;
      case Yield(g, fs) => ok := g in tasks ==>
        tasks[g].state == OnCpu || (fs && tasks[g].state == Blocked && tasks[g].cpu >= 0);
      case Block(g, fs) => ok := g in tasks ==>
        tasks[g].state == OnCpu || (fs && tasks[g].state == Blocked && tasks[g].cpu >= 0);
      case Preempt(g, fs) => ok := g in tasks ==>
        tasks[g].state == OnCpu || (fs && tasks[g].state == Blocked && tasks[g].cpu >= 0);
      case Switchto(g) => ok := g in tasks ==> tasks[g].state == OnCpu;
      case PriorityChanged(g, nice) => ok := -20 <= nice <= 19;
      case Tick(c) => ok := c < |rq|;
      case Schedule(c, _, _) => ok := c < |rq|;
    }

    /** An event that the kernel cannot send in the state reached is left out. */
    method HandleIfLegal(e: Event, now: int)
      requires Valid()
      modifies this, repr
      ensures Valid() && Sound(old(View())) && Stepped(old(View()), e, now, View())
    {
      var ok := MayHappen(e);
      if ok {
        Handle(e, if now < clock then clock else now);
      }
    }

    /** Every legal run: each event does what the reference says, and the invariant holds after it. */
    method Run(events: seq<(Event, int)>) returns (ghost states: seq<Sched>)
      requires Valid()
      modifies this, repr
      ensures Valid() && Trace(events, states) && states[0] == old(View()) && states[|events|] == View()
    {
      states := [View()];
      for i := 0 to |events|
        invariant Valid() && Trace(events[..i], states) && states[0] == old(View()) && states[i] == View()
      {
        HandleIfLegal(events[i].0, events[i].1);
        TraceGrows(events[..i], states, events[i].0, events[i].1, View());
        assert events[..i + 1] == events[..i] + [(events[i].0, events[i].1)];
        states := states + [View()];
      }
      assert events[..|events|] == events;
    }
  }
}
