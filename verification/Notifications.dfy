/**
  The futex-based Notification of lib/base.h and lib/base.cc, as interleaved atomic
  steps of one notifier and any number of waiters.  Every atomic access and every
  futex call is a step of its own; compare-and-swap may fail for no reason, and a
  sleeper may wake for no reason or be interrupted.
 */
module Notifications {

  datatype Flag = NoWaiter | Waiter | Notified

  /** Where a thread is inside WaitForNotification. */
  datatype WaitPc =
    | WaitLoad                // about to load the flag
    | WaitSwap                // loaded NoWaiter, about to compare-and-swap it to Waiter
    | FutexCall               // about to enter the futex
    | Asleep                  // inside the futex
    | Recheck                 // woken, about to load the flag again
    | Returned

  /** Where a thread is inside Notify. */
  datatype NotifyPc =
    | NotifyLoad
    | NotifyCheck(seen: Flag) // about to CHECK that the flag is not Notified
    | NotifySwap(seen: Flag)
    | NotifyWake              // swapped out a Waiter, about to wake the futex
    | Finished

  /** What the environment decides: how a compare-and-swap or a sleep ends. */
  datatype Luck = Normal | Spurious | Interrupted

  /** One step of WaitForNotification, on the flag and the thread's own position. */
  function WaitStep(flag: Flag, pc: WaitPc, luck: Luck): (Flag, WaitPc) {
    match pc
    case WaitLoad =>
      (flag, if flag.Notified? then Returned else if flag.NoWaiter? then WaitSwap else FutexCall)
    case WaitSwap =>
      if flag.NoWaiter? && luck.Normal? then (Waiter, WaitLoad) else (flag, WaitLoad)
    case FutexCall =>
      (flag, if flag.Waiter? then Asleep else Returned)   // EAGAIN on a mismatch
    case Asleep =>                                        // woken here only without a Wake
      (flag, if luck.Spurious? then Recheck else if luck.Interrupted? then FutexCall else Asleep)
    case Recheck =>
      (flag, if flag.Waiter? then FutexCall else Returned)
    case Returned => (flag, Returned)
  }

  /** One step of Notify, except for the wake-up itself. */
  function NotifyStep(flag: Flag, pc: NotifyPc, luck: Luck): (Flag, NotifyPc) {
    match pc
    case NotifyLoad => (flag, NotifyCheck(flag))
    case NotifyCheck(v) => (flag, NotifySwap(v))
    case NotifySwap(v) =>
      if flag == v && luck.Normal? then (Notified, if v.Waiter? then NotifyWake else Finished)
      else (flag, NotifyLoad)
    case NotifyWake => (flag, Finished)
    case Finished => (flag, Finished)
  }

  /** What a wake-up does to a thread. */
  function Woken(pc: WaitPc): WaitPc {
    if pc.Asleep? then Recheck else pc
  }

  /** The CHECK in Notify fails. */
  predicate CheckFails(flag: Flag, pc: NotifyPc) {
    pc.NotifyCheck? && flag.Notified?
  }

  // ---------------------------------------------------------------- the system

  type Tid = nat

  datatype State = State(flag: Flag, waiters: map<Tid, WaitPc>, notifier: NotifyPc)

  datatype Step =
    | Arrive(t: Tid)                // a thread calls WaitForNotification
    | Wait(t: Tid, luck: Luck)
    | Notify(luck: Luck)            // Notify is called by its first step

  const Init := State(NoWaiter, map[], NotifyLoad)

  /** A step that is not possible does nothing, so that every list of steps is a run. */
  ghost function Do(s: State, step: Step): State {
    match step
    case Arrive(t) =>
      if t in s.waiters then s else s.(waiters := s.waiters[t := WaitLoad])
    case Wait(t, luck) =>
      if t !in s.waiters then s
      else
        var r := WaitStep(s.flag, s.waiters[t], luck);
        s.(flag := r.0, waiters := s.waiters[t := r.1])
    case Notify(luck) =>
      var r := NotifyStep(s.flag, s.notifier, luck);
      State(r.0, if s.notifier.NotifyWake? then AllWoken(s.waiters) else s.waiters, r.1)
  }

  ghost function AllWoken(waiters: map<Tid, WaitPc>): map<Tid, WaitPc> {
    map t | t in waiters :: Woken(waiters[t])
  }

  ghost function Run(steps: seq<Step>): State {
    if steps == [] then Init else Do(Run(steps[..|steps| - 1]), steps[|steps| - 1])
  }

  // ---------------------------------------------------------------- safety

  ghost predicate Inv(s: State) {
    && (s.flag.Notified? <==> s.notifier.NotifyWake? || s.notifier.Finished?)
    && (s.notifier.NotifyCheck? || s.notifier.NotifySwap? ==> s.notifier.seen == s.flag || s.notifier.seen.NoWaiter?)
    && forall t :: t in s.waiters ==> WaiterInv(s.flag, s.notifier, s.waiters[t])
  }

  ghost predicate WaiterInv(flag: Flag, notifier: NotifyPc, pc: WaitPc) {
    && (pc.Returned? ==> flag.Notified?)
    && (pc.FutexCall? || pc.Asleep? || pc.Recheck? ==> !flag.NoWaiter?)
    && (pc.Asleep? && flag.Notified? ==> notifier.NotifyWake?)
  }

  lemma DoInv(s: State, step: Step)
    requires Inv(s)
    ensures Inv(Do(s, step))
  {
  }

  lemma {:induction false} RunInv(steps: seq<Step>)
    ensures Inv(Run(steps))
  {
    if steps != [] {
      RunInv(steps[..|steps| - 1]);
      DoInv(Run(steps[..|steps| - 1]), steps[|steps| - 1]);
    }
  }

  /** In every run: the CHECK never fails, no waiter returns before Notify has set the flag,
      and none is asleep once Notify has finished. */
  lemma {:induction false} NoLostWakeUp(steps: seq<Step>)
    ensures var s := Run(steps);
      && !CheckFails(s.flag, s.notifier)
      && (forall t :: t in s.waiters && s.waiters[t].Returned? ==> s.notifier.NotifyWake? || s.notifier.Finished?)
      && (s.notifier.Finished? ==> s.flag.Notified? && forall t :: t in s.waiters ==> !s.waiters[t].Asleep?)
  {
    RunInv(steps);
  }

  // ---------------------------------------------------------------- progress

  function Own(steps: seq<Step>, t: Tid): nat {
    if steps == [] then 0
    else Own(steps[..|steps| - 1], t) + if Last(steps).Wait? && Last(steps).t == t then 1 else 0
  }

  function Last(steps: seq<Step>): Step
    requires steps != []
  {
    steps[|steps| - 1]
  }

  /** The steps a waiter still needs once the flag is set. */
  function WaitRank(pc: WaitPc): nat {
    match pc
    case WaitSwap => 2
    case Returned => 0
    case _ => 1
  }

  /** Once Notify has finished, a waiter returns within two steps of its own, whatever the
      other threads do in between. */
  lemma {:induction false} WaitersReturn(before: seq<Step>, after: seq<Step>, t: Tid)
    requires Run(before).notifier.Finished? && t in Run(before).waiters
    ensures var s := Run(before + after);
      && s.notifier.Finished? && t in s.waiters && WaitRank(s.waiters[t]) <= 2
      && (Own(after, t) >= 2 ==> s.waiters[t].Returned?)
      && (Own(after, t) == 1 ==> WaitRank(s.waiters[t]) <= 1)
    decreases |after|
  {
    if after == [] {
      assert before + after == before;
    } else {
      var a := after[..|after| - 1];
      assert (before + after)[..|before + after| - 1] == before + a;
      WaitersReturn(before, a, t);
      RunInv(before + a);
    }
  }

  /** How far Notify has to go when no compare-and-swap fails spuriously.  The one real
      failure is a waiter's swap of NoWaiter to Waiter. */
  function NotifyRank(flag: Flag, pc: NotifyPc): nat {
    var slack := if flag.NoWaiter? then 3 else 0;
    match pc
    case NotifyLoad => 4 + slack
    case NotifyCheck(v) => if v == flag then 3 + slack else 6
    case NotifySwap(v) => if v == flag then 2 + slack else 5
    case NotifyWake => 1
    case Finished => 0
  }

  /** Seven steps of Notify, and seven more for every spurious failure. */
  function Budget(steps: seq<Step>): int {
    if steps == [] then 7
    else Budget(steps[..|steps| - 1])
         + if !Last(steps).Notify? then 0 else if Last(steps).luck.Normal? then -1 else 7
  }

  lemma NotifyStepRank(s: State, step: Step)
    requires Inv(s)
    ensures var s' := Do(s, step);
      && NotifyRank(s'.flag, s'.notifier) <= 7
      && (step.Notify? && step.luck.Normal? ==> s'.notifier.Finished? || NotifyRank(s'.flag, s'.notifier) < NotifyRank(s.flag, s.notifier))
      && (!step.Notify? ==> NotifyRank(s'.flag, s'.notifier) <= NotifyRank(s.flag, s.notifier))
      && (s.notifier.Finished? ==> s'.notifier.Finished?)
  {
  }

  /** Notify finishes, whatever the waiters do. */
  lemma {:induction false} NotifyFinishes(steps: seq<Step>)
    ensures var s := Run(steps); s.notifier.Finished? || 0 < NotifyRank(s.flag, s.notifier) <= Budget(steps)
    ensures Budget(steps) <= 0 ==> Run(steps).notifier.Finished?
  {
    if steps != [] {
      var before := steps[..|steps| - 1];
      NotifyFinishes(before);
      RunInv(before);
      NotifyStepRank(Run(before), Last(steps));
    }
  }
}
