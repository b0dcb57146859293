/**
  Runs of the O(1) scheduler from its start.
 */
module O1Runs {
  import opened O1State
  import opened O1Events
  import opened O1Laws
  import opened O1Schedulers
  import opened FairShares

  /** A run from the start, with the CPUs that it has given to tasks, in turn. */
  method StartAndRun(numCpus: nat, ids: seq<nat>, events: seq<(Event, int)>) returns (sched: O1Scheduler, ghost states: seq<Sched>)
    requires ids != [] && forall i :: 0 <= i < |ids| ==> ids[i] < numCpus
    ensures sched.Valid() && Trace(events, states) && states[|events|] == sched.View()
    ensures states[0].tasks == map[] && states[0].ids == ids
    ensures forall j :: 0 <= j <= |events| ==> Circular(ids, Placed(events, states, j))
  {
    sched := new O1Scheduler(numCpus, ids);
    states := sched.Run(events);
    forall j | 0 <= j <= |events| ensures Circular(ids, Placed(events, states, j)) {
      PlacementLaw(events, states, j);
    }
  }
}
