/**
  Laws of whole runs of schedulers/o1: when a slice ends, what a task has left when it
  leaves its CPU, and which CPU each new task gets.
 */
module O1Laws {
  import opened O1RunQueue
  import opened O1State
  import opened O1Events
  import opened O1Meanings
  import opened FairShares

  /** When an event that was sent at time `now` is handled. */
  function TimeOf(s: Sched, now: int): int {
    if now < s.clock then s.clock else now
  }

  ghost predicate Running(s: Sched, g: Gtid) {
    g in s.tasks && s.tasks[g].state == OnCpu
  }

  // ---------------------------------------------------------------- the end of a slice

  /** The time at which a running task has used up its slice, as things stand. */
  function Deadline(s: Sched, g: Gtid): int
    requires g in s.tasks
  {
    s.tasks[g].lastPick + s.tasks[g].remaining
  }

  /** By how much an event puts g's deadline off.  Only a pass that keeps g as the current task does: by a
      new slice if the old one is used up, and, since a commit restarts g's clock without a charge, by the
      time since the last pick or tick. */
  ghost function Extension(s: Sched, e: Event, now: int, g: Gtid): int
    requires Sized(s) && g in s.tasks
  {
    match e
    case Schedule(c, boosted, commits) =>
      if c < |s.rqs| && s.current[c] == Some(g) && (s.preempt[c] ==> s.rqs[c].Order() == []) then
        (if s.preempt[c] then SLICE - s.tasks[g].remaining else 0)
        + (if !boosted && commits then now - s.tasks[g].lastPick else 0)
      else 0
    case _ => 0
  }

  /** One event, whatever it is: a running task that keeps running has the old deadline plus the extension;
      one that leaves its CPU has left what is missing to that. */
  ghost predicate Charged(s': Sched, g: Gtid, deadline: int) {
    g in s'.tasks ==>
      match s'.tasks[g].state
      case OnCpu => Deadline(s', g) == deadline
      case Blocked => s'.tasks[g].remaining == deadline - s'.clock
      case Queued => s'.tasks[g].remaining == Topped(deadline - s'.clock)
      case Runnable => false
  }

  lemma ChargedByMessage(s: Sched, e: Event, now: int, g: Gtid)
    requires Sound(s) && Legal(s, e) && s.clock <= now && Running(s, g) && !e.Schedule?
    ensures Charged(Next(s, e, now), g, Deadline(s, g))
  {
    match e
    case New(h, nice, runnable) => NewMeans(s, h, nice, runnable, now);
    case Wakeup(h, deferrable) => WakeupMeans(s, h, deferrable, now);
    case Departed(h, fs) => ChargedByDeparture(s, h, fs, now, g);
    case Dead(h) => DeadMeans(s, h, now);
    case Yield(h, fs) => ChargedByLeaving(s, e, now, g);
    case Block(h, fs) => ChargedByLeaving(s, e, now, g);
    case Preempt(h, fs) => ChargedByLeaving(s, e, now, g);
    case Switchto(h) => ChargedByLeaving(s, e, now, g);
    case PriorityChanged(h, nice) => PriorityMeans(s, h, nice, now);
    case Tick(c) => TickMeans(s, c, now);
  }

  lemma ChargedByDeparture(s: Sched, h: Gtid, fromSwitchto: bool, now: int, g: Gtid)
    requires Sound(s) && Legal(s, Departed(h, fromSwitchto)) && s.clock <= now && Running(s, g)
    ensures Charged(Next(s, Departed(h, fromSwitchto), now), g, Deadline(s, g))
  {
    DepartedMeans(s, h, fromSwitchto, now);
  }

  lemma ChargedByLeaving(s: Sched, e: Event, now: int, g: Gtid)
    requires Sound(s) && Legal(s, e) && s.clock <= now && Running(s, g)
    requires e.Yield? || e.Block? || e.Preempt? || e.Switchto?
    ensures Charged(Next(s, e, now), g, Deadline(s, g))
  {
    if e.Yield? || e.Preempt? {
      LeaveMeans(s, e, e.g, now);
    } else {
      BlockMeans(s, e, e.g, now);
    }
  }

  /** A pass that takes the first one waiting does not touch a running task. */
  lemma ChargedByNext(s: Sched, c: nat, commits: bool, now: int, g: Gtid)
    requires Sound(s) && c < |s.rqs| && s.clock <= now && Running(s, g)
    requires s.rqs[c].Order() != [] && (s.current[c] == None || s.preempt[c])
    ensures Charged(Next(s, Schedule(c, false, commits), now), g, Deadline(s, g))
  {
    PassNext(s, c, commits, now);
  }

  lemma ChargedByPass(s: Sched, c: nat, boosted: bool, commits: bool, now: int, g: Gtid)
    requires Sound(s) && c < |s.rqs| && s.clock <= now && Running(s, g)
    ensures var e := Schedule(c, boosted, commits);
      Charged(Next(s, e, now), g, Deadline(s, g) + Extension(s, e, now, g))
  {
    if boosted || (s.current[c] == None && s.rqs[c].Order() == []) {
      PassIdles(s, c, boosted, commits, now);
    } else if s.current[c].Some? && (s.preempt[c] ==> s.rqs[c].Order() == []) {
      PassKeeps(s, c, commits, now);
    } else {
      ChargedByNext(s, c, commits, now, g);
    }
  }

  lemma ChargedByEvent(s: Sched, e: Event, now: int, g: Gtid)
    requires Sound(s) && Legal(s, e) && s.clock <= now && Running(s, g)
    ensures Charged(Next(s, e, now), g, Deadline(s, g) + Extension(s, e, now, g))
  {
    if e.Schedule? {
      ChargedByPass(s, e.c, e.boosted, e.commits, now, g);
    } else {
      ChargedByMessage(s, e, now, g);
    }
  }

  /** The same for a step of a run, in which an event that cannot be sent does nothing. */
  ghost function StepExtension(s: Sched, e: Event, now: int, g: Gtid): int
    requires Sound(s) && g in s.tasks
  {
    if Legal(s, e) then Extension(s, e, TimeOf(s, now), g) else 0
  }

  lemma ChargedByStep(s: Sched, e: Event, now: int, s': Sched, g: Gtid)
    requires Sound(s) && Stepped(s, e, now, s') && Running(s, g)
    ensures Charged(s', g, Deadline(s, g) + StepExtension(s, e, now, g))
  {
    if Legal(s, e) { ChargedByEvent(s, e, TimeOf(s, now), g); }
  }

  /** By how much the deadline of g is put off between two states of a run. */
  ghost function Extensions(events: seq<(Event, int)>, states: seq<Sched>, i: nat, j: nat, g: Gtid): int
    requires Trace(events, states) && i <= j < |states| && forall k :: i <= k < j ==> g in states[k].tasks
    decreases j
  {
    if i == j then 0
    else
      assert StepAt(events, states, j - 1);
      Extensions(events, states, i, j - 1, g) + StepExtension(states[j - 1], events[j - 1].0, events[j - 1].1, g)
  }

  /** g stays on its CPU from the i-th state of a run to the j-th. */
  ghost predicate Stays(events: seq<(Event, int)>, states: seq<Sched>, i: nat, j: nat, g: Gtid) {
    Trace(events, states) && i <= j < |states| && forall k :: i <= k <= j ==> Running(states[k], g)
  }

  lemma {:induction false} DeadlineLaw(events: seq<(Event, int)>, states: seq<Sched>, i: nat, j: nat, g: Gtid)
    requires Stays(events, states, i, j, g)
    ensures Deadline(states[j], g) == Deadline(states[i], g) + Extensions(events, states, i, j, g)
    decreases j
  {
    if i < j {
      var k := j - 1;
      DeadlineLaw(events, states, i, k, g);
      assert Running(states[k], g) && Running(states[j], g) && StepAt(events, states, k);
      ChargedByStep(states[k], events[k].0, events[k].1, states[j], g);
    }
  }

  /** A pass that keeps g as the current task and puts its deadline off: with a preemption pending while nobody
      waits, or committed later than g was last charged. */
  ghost predicate Postpones(s: Sched, e: Event, now: int, g: Gtid) {
    && g in s.tasks && e.Schedule? && e.c < |s.rqs| == |s.current| == |s.preempt| && s.current[e.c] == Some(g)
    && if s.preempt[e.c] then s.rqs[e.c].Order() == []
       else !e.boosted && e.commits && s.tasks[g].lastPick < TimeOf(s, now)
  }

  lemma PostponesStep(s: Sched, e: Event, now: int, g: Gtid)
    requires Sound(s) && Running(s, g)
    ensures if Postpones(s, e, now, g) then StepExtension(s, e, now, g) > 0 else StepExtension(s, e, now, g) == 0
  {
    assert TaskOk(s, g, None);
    if e.Schedule? && e.c < |s.rqs| { assert CurrentOk(s, e.c); }
  }

  ghost predicate PostponesAt(events: seq<(Event, int)>, states: seq<Sched>, k: nat, g: Gtid)
    requires k < |events| && k < |states|
  {
    Postpones(states[k], events[k].0, events[k].1, g)
  }

  /** A deadline is only ever put off, and it stands exactly if no pass of that kind has come in between. */
  lemma {:induction false} PostponedExactly(events: seq<(Event, int)>, states: seq<Sched>, i: nat, j: nat, g: Gtid)
    requires Stays(events, states, i, j, g)
    ensures Extensions(events, states, i, j, g) >= 0
    ensures Extensions(events, states, i, j, g) == 0 <==> forall k: nat :: i <= k < j ==> !PostponesAt(events, states, k, g)
    decreases j
  {
    if i < j {
      PostponedExactly(events, states, i, j - 1, g);
      assert Running(states[j - 1], g) && StepAt(events, states, j - 1);
      PostponesStep(states[j - 1], events[j - 1].0, events[j - 1].1, g);
      assert PostponesAt(events, states, j - 1, g) <==> Postpones(states[j - 1], events[j - 1].0, events[j - 1].1, g);
    }
  }

  /** A task put on its CPU at time t0 with slice r, whatever happens in between: a tick asks for its
      preemption exactly if one is asked for already or the time is t0 + r, as extended, or later. */
  lemma TickLaw(events: seq<(Event, int)>, states: seq<Sched>, i: nat, j: nat, g: Gtid, c: nat)
    requires Stays(events, states, i, j, g) && j < |events| && events[j].0 == Tick(c)
    requires IsCurrent(states[j], g, c)
    ensures var t0, r := states[i].tasks[g].lastPick, states[i].tasks[g].remaining;
      && c < |states[j].preempt| == |states[j + 1].preempt|
      && (states[j + 1].preempt[c] <==>
            states[j].preempt[c] || TimeOf(states[j], events[j].1) >= t0 + r + Extensions(events, states, i, j, g))
  {
    DeadlineLaw(events, states, i, j, g);
    assert StepAt(events, states, j);
    TickMeans(states[j], c, TimeOf(states[j], events[j].1));
  }

  /** What a task has left when an event takes it off its CPU, alive: the slice r that it had when it was
      put there at time t0, less the time since, plus the extensions; a full slice if nothing is left and
      it is queued at once. */
  lemma LeaveLaw(events: seq<(Event, int)>, states: seq<Sched>, i: nat, j: nat, g: Gtid)
    requires Stays(events, states, i, j, g) && j < |events| && g in states[j + 1].tasks && !Running(states[j + 1], g)
    ensures var t0, r := states[i].tasks[g].lastPick, states[i].tasks[g].remaining;
      var left := r - (states[j + 1].clock - t0) + Extensions(events, states, i, j + 1, g);
      var t := states[j + 1].tasks[g];
      (t.state == Blocked && t.remaining == left) || (t.state == Queued && t.remaining == Topped(left))
  {
    DeadlineLaw(events, states, i, j, g);
    assert Running(states[j], g) && StepAt(events, states, j);
    ChargedByStep(states[j], events[j].0, events[j].1, states[j + 1], g);
  }

  // ---------------------------------------------------------------- between two passes

  /** No scheduling pass on CPU c in this part of a run. */
  ghost predicate NoPass(events: seq<(Event, int)>, i: nat, j: nat, c: nat) {
    j <= |events| && forall k :: i <= k < j ==> !(events[k].0.Schedule? && events[k].0.c == c)
  }

  /** Whether there has been a tick on CPU c at or after the given time. */
  ghost predicate TickedBy(events: seq<(Event, int)>, states: seq<Sched>, i: nat, j: nat, c: nat, time: int)
    requires j <= |events| && j <= |states|
  {
    exists k :: i <= k < j && events[k].0 == Tick(c) && TimeOf(states[k], events[k].1) >= time
  }

  ghost predicate StaysCurrent(events: seq<(Event, int)>, states: seq<Sched>, i: nat, j: nat, g: Gtid, c: nat) {
    && Trace(events, states) && i <= j < |states|
    && forall k :: i <= k <= j ==> IsCurrent(states[k], g, c)
  }

  ghost predicate IsCurrent(s: Sched, g: Gtid, c: nat) {
    c < |s.current| && s.current[c] == Some(g)
  }

  lemma CurrentRuns(s: Sched, g: Gtid, c: nat)
    requires Sound(s) && IsCurrent(s, g, c)
    ensures Running(s, g) && s.tasks[g].cpu == c && c < |s.rqs| == |s.preempt|
  {
    assert CurrentOk(s, c);
  }

  lemma CurrentStays(events: seq<(Event, int)>, states: seq<Sched>, i: nat, j: nat, g: Gtid, c: nat)
    requires StaysCurrent(events, states, i, j, g, c)
    ensures Stays(events, states, i, j, g)
  {
    forall k | i <= k <= j ensures Running(states[k], g) {
      SoundAt(events, states, k);
      assert IsCurrent(states[k], g, c);
      CurrentRuns(states[k], g, c);
    }
  }

  /** What a step that is no pass on c does to the preemption request of the current task there. */
  lemma RequestStep(s: Sched, e: Event, now: int, s': Sched, g: Gtid, c: nat)
    requires Sound(s) && Sound(s') && Stepped(s, e, now, s') && IsCurrent(s, g, c) && IsCurrent(s', g, c)
    requires !(e.Schedule? && e.c == c)
    ensures Running(s, g) && c < |s.preempt| == |s'.preempt| && StepExtension(s, e, now, g) == 0
    ensures s'.preempt[c] <==> s.preempt[c] || (e == Tick(c) && TimeOf(s, now) >= Deadline(s, g))
  {
    CurrentRuns(s, g, c);
    CurrentRuns(s', g, c);
    if Legal(s, e) {
      var time := TimeOf(s, now);
      match e
      case New(h, nice, runnable) => NewMeans(s, h, nice, runnable, time);
      case Wakeup(h, deferrable) => WakeupMeans(s, h, deferrable, time);
      case Departed(h, fs) => DepartedMeans(s, h, fs, time);
      case Dead(h) => DeadMeans(s, h, time);
      case Yield(h, fs) => LeaveMeans(s, e, h, time);
      case Block(h, fs) => BlockMeans(s, e, h, time);
      case Preempt(h, fs) => LeaveMeans(s, e, h, time);
      case Switchto(h) => BlockMeans(s, e, h, time);
      case PriorityChanged(h, nice) => PriorityMeans(s, h, nice, time);
      case Tick(d) => TickMeans(s, d, time);
      case Schedule(d, boosted, commits) => OtherPass(s, d, boosted, commits, time, c);
    }
  }

  lemma OtherPass(s: Sched, d: nat, boosted: bool, commits: bool, now: int, c: nat)
    requires Sound(s) && d < |s.rqs| && s.clock <= now && c < |s.rqs| && c != d
    ensures var s' := Next(s, Schedule(d, boosted, commits), now);
      |s'.preempt| == |s.preempt| == |s.rqs| && s'.preempt[c] == s.preempt[c]
    ensures s.current[d].Some? ==> s.current[d] != s.current[c]
  {
    assert CurrentOk(s, c) && CurrentOk(s, d);
    if boosted || (s.current[d] == None && s.rqs[d].Order() == []) {
      PassIdles(s, d, boosted, commits, now);
    } else if s.current[d].Some? && (s.preempt[d] ==> s.rqs[d].Order() == []) {
      PassKeeps(s, d, commits, now);
    } else {
      PassNext(s, d, commits, now);
    }
  }

  lemma TickedNext(events: seq<(Event, int)>, states: seq<Sched>, i: nat, k: nat, c: nat, time: int)
    requires i <= k < |events| && |states| == |events| + 1
    ensures TickedBy(events, states, i, k + 1, c, time) <==>
      TickedBy(events, states, i, k, c, time) || (events[k].0 == Tick(c) && TimeOf(states[k], events[k].1) >= time)
  {
  }

  /** One more step: the deadline stands and the request follows the ticks. */
  lemma RequestAt(events: seq<(Event, int)>, states: seq<Sched>, i: nat, k: nat, g: Gtid, c: nat)
    requires StaysCurrent(events, states, i, k + 1, g, c) && !(events[k].0.Schedule? && events[k].0.c == c) && i <= k
    ensures Stays(events, states, i, k + 1, g) && Stays(events, states, i, k, g)
    ensures Extensions(events, states, i, k + 1, g) == Extensions(events, states, i, k, g)
    ensures c < |states[k].preempt| == |states[k + 1].preempt|
    ensures states[k + 1].preempt[c] <==>
      states[k].preempt[c] || (events[k].0 == Tick(c) && TimeOf(states[k], events[k].1) >= Deadline(states[k], g))
  {
    CurrentStays(events, states, i, k + 1, g, c);
    assert IsCurrent(states[k], g, c) && IsCurrent(states[k + 1], g, c) && StepAt(events, states, k);
    SoundAt(events, states, k + 1);
    RequestStep(states[k], events[k].0, events[k].1, states[k + 1], g, c);
  }

  /** Without a pass, nothing puts the deadline off. */
  lemma {:induction false} NoExtensions(events: seq<(Event, int)>, states: seq<Sched>, i: nat, j: nat, g: Gtid, c: nat)
    requires StaysCurrent(events, states, i, j, g, c) && NoPass(events, i, j, c)
    ensures Stays(events, states, i, j, g) && Extensions(events, states, i, j, g) == 0
    decreases j
  {
    CurrentStays(events, states, i, j, g, c);
    if i < j {
      NoExtensions(events, states, i, j - 1, g, c);
      RequestAt(events, states, i, j - 1, g, c);
    }
  }

  /** From one pass to the next, the preemption of a current task that was put on its CPU at time t0 with
      slice r is asked for from the first tick at or after t0 + r on, and not before. */
  lemma {:induction false} SliceEnds(events: seq<(Event, int)>, states: seq<Sched>, i: nat, j: nat, g: Gtid, c: nat)
    requires StaysCurrent(events, states, i, j, g, c) && NoPass(events, i, j, c)
    requires c < |states[i].preempt| && !states[i].preempt[c] && g in states[i].tasks
    ensures var t0, r := states[i].tasks[g].lastPick, states[i].tasks[g].remaining;
      c < |states[j].preempt| && (states[j].preempt[c] <==> TickedBy(events, states, i, j, c, t0 + r))
    decreases j
  {
    if i < j {
      SliceEnds(events, states, i, j - 1, g, c);
      NoExtensions(events, states, i, j - 1, g, c);
      DeadlineLaw(events, states, i, j - 1, g);
      RequestAt(events, states, i, j - 1, g, c);
      TickedNext(events, states, i, j - 1, c, Deadline(states[i], g));
    }
  }

  // ---------------------------------------------------------------- time that is not charged

  /** g is current on c, has slice left, and has no preemption asked for. */
  ghost predicate HasSlice(s: Sched, g: Gtid, c: nat) {
    && Sound(s) && IsCurrent(s, g, c) && c < |s.rqs| == |s.preempt| && !s.preempt[c]
    && g in s.tasks && s.tasks[g].lastPick == s.clock && s.tasks[g].remaining > 0
  }

  lemma UnchargedPass(s: Sched, g: Gtid, c: nat, gap: nat) returns (s': Sched)
    requires HasSlice(s, g, c)
    ensures Stepped(s, Schedule(c, false, true), s.clock + gap, s') && HasSlice(s', g, c)
    ensures s'.clock == s.clock + gap && s'.tasks[g].remaining == s.tasks[g].remaining
  {
    PassKeeps(s, c, true, s.clock + gap);
    NextKept(s, Schedule(c, false, true), s.clock + gap);
    s' := Next(s, Schedule(c, false, true), s.clock + gap);
  }

  lemma ChargingTick(s: Sched, g: Gtid, c: nat, lag: nat) returns (s': Sched)
    requires HasSlice(s, g, c) && lag < s.tasks[g].remaining
    ensures Stepped(s, Tick(c), s.clock + lag, s') && HasSlice(s', g, c)
    ensures s'.clock == s.clock + lag && s'.tasks[g].remaining == s.tasks[g].remaining - lag
  {
    TickMeans(s, c, s.clock + lag);
    NextKept(s, Tick(c), s.clock + lag);
    s' := Next(s, Tick(c), s.clock + lag);
  }

  /** n passes, each `gap` after a tick and `lag` before the next one: the current task runs for
      n * (gap + lag) and is charged n * lag.  With lag == 0 its slice never ends. */
  lemma {:induction false} Uncharged(s: Sched, g: Gtid, c: nat, gap: nat, lag: nat, n: nat)
      returns (events: seq<(Event, int)>, states: seq<Sched>)
    requires HasSlice(s, g, c) && n * lag < s.tasks[g].remaining
    ensures Trace(events, states) && states[0] == s && |events| == 2 * n
    ensures forall k :: 0 <= k < |states| ==> HasNoRequest(states[k], g, c)
    ensures forall k :: 0 <= k < |events| ==> events[k].0 == if k % 2 == 0 then Schedule(c, false, true) else Tick(c)
    ensures var s' := states[2 * n];
      && HasSlice(s', g, c) && s'.clock == s.clock + n * (gap + lag)
      && s'.tasks[g].remaining == s.tasks[g].remaining - n * lag
    decreases n
  {
    if n == 0 {
      events, states := [], [s];
    } else {
      assert n * lag == (n - 1) * lag + lag && n * (gap + lag) == (n - 1) * (gap + lag) + (gap + lag);
      events, states := Uncharged(s, g, c, gap, lag, n - 1);
      events, states := UnchargedRound(events, states, g, c, gap, lag);
    }
  }

  ghost predicate HasNoRequest(s: Sched, g: Gtid, c: nat) {
    IsCurrent(s, g, c) && c < |s.preempt| && !s.preempt[c]
  }

  lemma UnchargedRound(events: seq<(Event, int)>, states: seq<Sched>, g: Gtid, c: nat, gap: nat, lag: nat)
      returns (events': seq<(Event, int)>, states': seq<Sched>)
    requires Trace(events, states) && HasSlice(states[|events|], g, c) && lag < states[|events|].tasks[g].remaining
    ensures |events'| == |events| + 2 && |states'| == |states| + 2 && Trace(events', states')
    ensures events'[..|events|] == events && states'[..|states|] == states
    ensures events'[|events|].0 == Schedule(c, false, true) && events'[|events| + 1].0 == Tick(c)
    ensures HasNoRequest(states'[|states|], g, c) && HasSlice(states'[|states| + 1], g, c)
    ensures var s, s' := states[|events|], states'[|states| + 1];
      s'.clock == s.clock + gap + lag && s'.tasks[g].remaining == s.tasks[g].remaining - lag
  {
    var s := states[|events|];
    var s1 := UnchargedPass(s, g, c, gap);
    var s2 := ChargingTick(s1, g, c, lag);
    TraceGrows(events, states, Schedule(c, false, true), s.clock + gap, s1);
    var es, ss := events + [(Schedule(c, false, true), s.clock + gap)], states + [s1];
    TraceGrows(es, ss, Tick(c), s1.clock + lag, s2);
    events', states' := es + [(Tick(c), s1.clock + lag)], ss + [s2];
  }

  // ---------------------------------------------------------------- placement

  /** The events that give a task a CPU: a new runnable task, and a wake-up of one that has none. */
  ghost predicate Places(s: Sched, e: Event) {
    || (e.New? && e.runnable && e.g !in s.tasks && Legal(s, e))
    || (e.Wakeup? && e.g in s.tasks && s.tasks[e.g].cpu < 0 && Legal(s, e))
  }

  /** The CPUs given out by the first j events of a run. */
  ghost function Placed(events: seq<(Event, int)>, states: seq<Sched>, j: nat): seq<int>
    requires Trace(events, states) && j <= |events|
  {
    if j == 0 then [] else Placed(events, states, j - 1) + PlacedBy(states[j - 1], events[j - 1].0, states[j])
  }

  ghost function PlacedBy(s: Sched, e: Event, s': Sched): seq<int> {
    if Places(s, e) then [if e.g in s'.tasks then s'.tasks[e.g].cpu else -1] else []
  }

  lemma PlaceStep(s: Sched, e: Event, now: int, s': Sched)
    requires Sound(s) && Stepped(s, e, now, s')
    ensures s'.ids == s.ids
    ensures var k := if s.next == |s.ids| then 0 else s.next;
      if Places(s, e) then k < |s.ids| && s'.next == k + 1 && e.g in s'.tasks && s'.tasks[e.g].cpu == s.ids[k]
      else s'.next == s.next
  {
    if Legal(s, e) {
      var time := TimeOf(s, now);
      ClockInv(s, time);
      HandledKept(s.(clock := time), e);
      match e
      case New(h, nice, runnable) => NewMeans(s, h, nice, runnable, time);
      case Wakeup(h, deferrable) => WakeupMeans(s, h, deferrable, time);
      case _ => KeepsNext(s, e, time);
    }
  }

  lemma KeepsNext(s: Sched, e: Event, now: int)
    requires Sound(s) && Legal(s, e) && s.clock <= now && !e.New? && !e.Wakeup?
    ensures Next(s, e, now).next == s.next
  {
    ClockInv(s, now);
    if e.Schedule? { PassKeepsNext(s, e.c, e.boosted, e.commits, now); }
  }

  lemma PassKeepsNext(s: Sched, c: nat, boosted: bool, commits: bool, now: int)
    requires Sound(s) && c < |s.rqs| && s.clock <= now
    ensures Next(s, Schedule(c, boosted, commits), now).next == s.next
  {
    ClockInv(s, now);
    SettleInv(s.(clock := now), c);
  }

  lemma PlacedNext(s: Sched, e: Event, now: int, s': Sched, placed: seq<int>)
    requires Sound(s) && Stepped(s, e, now, s')
    requires Circular(s.ids, placed) && Cursor(|s.ids|, |placed|, s.next)
    ensures var placed' := placed + PlacedBy(s, e, s');
      s'.ids == s.ids && Circular(s.ids, placed') && Cursor(|s.ids|, |placed'|, s'.next)
  {
    PlaceStep(s, e, now, s');
    NextChoice(s.ids, placed, s.next);
    assert placed + [] == placed;
  }

  /** The k-th task that is given a CPU gets the k-th one, counting round and round. */
  lemma {:induction false} PlacementLaw(events: seq<(Event, int)>, states: seq<Sched>, j: nat)
    requires Trace(events, states) && j <= |events| && states[0].next == |states[0].ids|
    ensures states[j].ids == states[0].ids && Circular(states[0].ids, Placed(events, states, j))
    ensures Cursor(|states[0].ids|, |Placed(events, states, j)|, states[j].next)
  {
    SoundAt(events, states, 0);
    if j > 0 {
      PlacementLaw(events, states, j - 1);
      assert StepAt(events, states, j - 1);
      PlacedNext(states[j - 1], events[j - 1].0, events[j - 1].1, states[j], Placed(events, states, j - 1));
    }
  }

  /** So after k placements over n CPUs each CPU has been given floor(k/n) or ceil(k/n) tasks. */
  lemma PlacementIsFair(events: seq<(Event, int)>, states: seq<Sched>, j: nat)
    requires Trace(events, states) && j <= |events|
    requires states[0].next == |states[0].ids| && Distinct(states[0].ids)
    ensures var ids, placed := states[0].ids, Placed(events, states, j);
      && ids != [] && (forall x :: x in placed ==> x in ids)
      && forall x :: x in ids ==> |placed| / |ids| <= Share(placed, x) <= (|placed| + |ids| - 1) / |ids|
  {
    PlacementLaw(events, states, j);
    FairChoices(states[0].ids, Placed(events, states, j));
  }
}
