/**
  The update stream of the PrioTable (shared/prio_table.cc): any number of concurrent
  MarkUpdatedIndex calls and one consumer calling NextUpdatedIndex.  Each access to
  scrape_all or to a cell is one step; compare-and-swap may fail for no reason.
 */
module PrioStream {

  const Free: int := -1
  const NoEntries: int := -1
  const Overflow: int := -2
  const INT_LIMIT: int := 0x8000_0000

  /** A MarkUpdatedIndex call: its arguments and where it is. */
  datatype Mark = Mark(idx: int, retries: int, pc: MarkPc)

  datatype MarkPc =
    | MarkLoad               // about to load scrape_all
    | CellLoad(i: nat)       // about to load the i-th cell it tries
    | CellSwap(i: nat)       // about to compare-and-swap that cell
    | Adding                 // about to add one to scrape_all
    | MarkDone

  /** Where the consumer is inside NextUpdatedIndex. */
  datatype Consumer =
    | Resting
    | Loading                                   // about to load scrape_all
    | Exchanging                                // about to set it to 0
    | Scanning(i: nat, full: bool)              // about to look at cell i
    | Freeing(i: nat, idx: int, full: bool)     // about to free cell i
    | Leaving(r: int)

  /** What callers see: marks completed, calls made and results returned. */
  datatype Event = Marked(idx: int) | Called | Returned(r: int)

  /** `adds` counts the additions to scrape_all since it was last set to 0. */
  datatype Stream = Stream(scrape: int, entries: seq<int>, marks: map<nat, Mark>, consumer: Consumer,
                           adds: nat, log: seq<Event>)

  datatype Step =
    | Begin(id: nat, idx: int, retries: int)    // a thread calls MarkUpdatedIndex
    | MarkStep(id: nat, lucky: bool)
    | NextStep

  ghost function Init(cap: nat): Stream {
    Stream(0, seq(cap, i => Free), map[], Resting, 0, [])
  }

  /** fetch_add(1) on a 32-bit int. */
  function Increment(x: int): int {
    if x + 1 == INT_LIMIT then -INT_LIMIT else x + 1
  }

  /** The i-th cell that a mark of idx tries. */
  function Cell(idx: int, i: nat, cap: nat): (c: nat)
    requires idx >= 0 && cap > 0
    ensures c < cap
  {
    (idx + i) % cap
  }

  function Try(i: nat, retries: int): MarkPc {
    if i < retries + 1 then CellLoad(i) else Adding
  }

  ghost function Completed(s: Stream, id: nat): Stream
    requires id in s.marks
  {
    s.(marks := s.marks[id := s.marks[id].(pc := MarkDone)], log := s.log + [Marked(s.marks[id].idx)])
  }

  ghost function DoMark(s: Stream, id: nat, lucky: bool): Stream
    requires id in s.marks && s.entries != [] && s.marks[id].idx >= 0
  {
    var m := s.marks[id];
    match m.pc
    case MarkLoad =>
      s.(marks := s.marks[id := m.(pc := if s.scrape > 0 then Adding else Try(0, m.retries))])
    case CellLoad(i) =>
      s.(marks := s.marks[id := m.(pc := if s.entries[Cell(m.idx, i, |s.entries|)] == Free then CellSwap(i)
                                         else Try(i + 1, m.retries))])
    case CellSwap(i) =>
      var c := Cell(m.idx, i, |s.entries|);
      if s.entries[c] == Free && lucky then Completed(s.(entries := s.entries[c := m.idx]), id)
      else s.(marks := s.marks[id := m.(pc := Try(i + 1, m.retries))])
    case Adding => Completed(s.(scrape := Increment(s.scrape), adds := s.adds + 1), id)
    case MarkDone => s
  }

  ghost function DoNext(s: Stream): Stream {
    match s.consumer
    case Resting => s.(consumer := Loading, log := s.log + [Called])
    case Loading => s.(consumer := if s.scrape > 0 then Exchanging else Scanning(0, false))
    case Exchanging => s.(scrape := 0, adds := 0, consumer := Scanning(0, true))
    case Scanning(i, full) =>
      if i >= |s.entries| then s.(consumer := Leaving(if full then Overflow else NoEntries))
      else if s.entries[i] != Free then s.(consumer := Freeing(i, s.entries[i], full))
      else s.(consumer := Scanning(i + 1, full))
    case Freeing(i, idx, full) =>
      if i >= |s.entries| then s
      else s.(entries := s.entries[i := Free], consumer := if full then Scanning(i + 1, true) else Leaving(idx))
    case Leaving(r) => s.(consumer := Resting, log := s.log + [Returned(r)])
  }

  /** A step that is not possible does nothing, so that every list of steps is a run. */
  ghost function Do(s: Stream, step: Step): Stream {
    match step
    case Begin(id, idx, retries) =>
      if id in s.marks || idx < 0 then s else s.(marks := s.marks[id := Mark(idx, retries, MarkLoad)])
    case MarkStep(id, lucky) =>
      if id in s.marks && s.entries != [] && s.marks[id].idx >= 0 then DoMark(s, id, lucky) else s
    case NextStep => DoNext(s)
  }

  ghost function Run(cap: nat, steps: seq<Step>): Stream
    decreases |steps|
  {
    if steps == [] then Init(cap) else Do(Run(cap, steps[..|steps| - 1]), steps[|steps| - 1])
  }

  /** At no point of the run have there been more than b additions since the last scrape. */
  ghost predicate Within(cap: nat, steps: seq<Step>, b: nat)
    decreases |steps|
  {
    Run(cap, steps).adds <= b && (steps != [] ==> Within(cap, steps[..|steps| - 1], b))
  }

  /** Fewer than 2^31 additions between two scrapes. */
  ghost predicate Bounded(cap: nat, steps: seq<Step>) {
    Within(cap, steps, INT_LIMIT - 1)
  }

  // ---------------------------------------------------------------- coverage, on the log alone

  ghost predicate Covers(e: Event, x: int) {
    e == Returned(x) || e == Returned(Overflow)
  }

  /** The indices with a completed mark that no later return has covered. */
  ghost function Open(log: seq<Event>): set<int> {
    if log == [] then {} else Opened(Open(log[..|log| - 1]), log[|log| - 1])
  }

  ghost function Opened(open: set<int>, e: Event): set<int> {
    match e
    case Marked(x) => open + {x}
    case Called => open
    case Returned(r) => if r == Overflow then {} else open - {r}
  }

  lemma {:induction false} OpenMeans(log: seq<Event>, x: int)
    ensures x in Open(log) <==>
      exists j :: 0 <= j < |log| && log[j] == Marked(x) && forall l :: j < l < |log| ==> !Covers(log[l], x)
    decreases |log|
  {
    if log != [] {
      var before, n := log[..|log| - 1], |log| - 1;
      OpenMeans(before, x);
      if x in Open(before) && !Covers(log[n], x) {
        var j :| 0 <= j < |before| && before[j] == Marked(x) && forall l :: j < l < |before| ==> !Covers(before[l], x);
        assert log[j] == Marked(x) && forall l :: j < l < |log| ==> !Covers(log[l], x);
      }
      if j :| 0 <= j < n && log[j] == Marked(x) && forall l :: j < l < |log| ==> !Covers(log[l], x) {
        assert before[j] == Marked(x) && forall l :: j < l < |before| ==> !Covers(before[l], x);
      }
    }
  }

  /** Where the latest call begins. */
  ghost function LastCall(log: seq<Event>): (n: nat)
    ensures n <= |log|
  {
    if log == [] then 0 else if log[|log| - 1].Called? then |log| - 1 else LastCall(log[..|log| - 1])
  }

  /** The indices open when the latest call began. */
  ghost function Due(log: seq<Event>): set<int> {
    Open(log[..LastCall(log)])
  }

  ghost predicate NoneIn(open: set<int>) {
    forall x :: x !in open
  }

  /** No call that returned NoEntries left behind a mark completed before it began. */
  ghost predicate Honest(log: seq<Event>) {
    forall k :: 0 <= k < |log| && log[k] == Returned(NoEntries) ==> NoneIn(Due(log[..k]))
  }

  lemma {:induction false} LogGrows(log: seq<Event>, e: Event)
    ensures Open(log + [e]) == Opened(Open(log), e)
    ensures !e.Called? ==> Due(log + [e]) == Due(log)
    ensures e.Called? ==> Due(log + [e]) == Open(log)
    ensures Honest(log) && (e == Returned(NoEntries) ==> NoneIn(Due(log))) ==> Honest(log + [e])
  {
    var log' := log + [e];
    assert log'[..|log|] == log;
    assert log'[..LastCall(log)] == log[..LastCall(log)];
    if Honest(log) && (e == Returned(NoEntries) ==> NoneIn(Due(log))) {
      forall k | 0 <= k < |log'| && log'[k] == Returned(NoEntries) ensures NoneIn(Due(log'[..k])) {
        assert log'[..k] == log[..k];
      }
    }
  }

  // ---------------------------------------------------------------- what every step keeps

  /** The consumer is in the middle of a full scan. */
  ghost predicate FullScan(c: Consumer) {
    c.Exchanging? || (c.Scanning? && c.full) || (c.Freeing? && c.full) || c == Leaving(Overflow)
  }

  ghost predicate Has(entries: seq<int>, from: nat, x: int) {
    exists j :: from <= j < |entries| && entries[j] == x
  }

  /** Something in the stream will make the consumer return x or Overflow. */
  ghost predicate Evident(s: Stream, x: int) {
    s.scrape > 0 || FullScan(s.consumer) || Has(s.entries, 0, x) || s.consumer == Leaving(x)
  }

  /** What the current call still has in front of it. */
  ghost predicate Ahead(s: Stream, x: int) {
    match s.consumer
    case Resting => true
    case Loading => s.scrape > 0 || Has(s.entries, 0, x)
    case Exchanging => true
    case Scanning(i, full) => full || Has(s.entries, i, x)
    case Freeing(i, idx, full) => full || Has(s.entries, i, x)
    case Leaving(r) => r != NoEntries
  }

  ghost predicate Control(s: Stream) {
    && s.entries != [] && s.scrape == s.adds
    && (forall id :: id in s.marks ==> s.marks[id].idx >= 0)
    && (forall i :: 0 <= i < |s.entries| ==> s.entries[i] == Free || s.entries[i] >= 0)
    && (s.consumer.Scanning? ==> s.consumer.i <= |s.entries|)
    && (s.consumer.Freeing? ==> s.consumer.i < |s.entries| && s.entries[s.consumer.i] == s.consumer.idx >= 0)
  }

  ghost predicate Inv(s: Stream) {
    && Control(s) && Honest(s.log)
    && (forall x :: x in Open(s.log) ==> x >= 0 && Evident(s, x))
    && (forall x :: x in Due(s.log) ==> x >= 0 && Ahead(s, x))
  }

  lemma InitInv(cap: nat)
    requires cap > 0
    ensures Inv(Init(cap))
  {
  }

  lemma Filled(entries: seq<int>, c: nat, idx: int, from: nat, x: int)
    requires c < |entries| && entries[c] == Free && x >= 0
    ensures Has(entries, from, x) ==> Has(entries[c := idx], from, x)
    ensures Has(entries[c := idx], 0, idx)
  {
    var e := entries[c := idx];
    assert e[c] == idx;
    if j :| from <= j < |entries| && entries[j] == x {
      assert e[j] == x;
    }
  }

  lemma Freed(entries: seq<int>, i: nat, x: int)
    requires i < |entries| && x >= 0 && x != entries[i]
    ensures Has(entries, 0, x) ==> Has(entries[i := Free], 0, x)
  {
    var e := entries[i := Free];
    if j :| 0 <= j < |entries| && entries[j] == x {
      assert e[j] == x;
    }
  }

  /** Progress of the log and of the marks that leaves the shared memory alone. */
  lemma LoggedInv(s: Stream, s': Stream, idx: int)
    requires Inv(s) && idx >= 0 && s'.log == s.log + [Marked(idx)] && s'.consumer == s.consumer && Control(s')
    requires Evident(s', idx)
    requires forall x :: x in Open(s.log) ==> Evident(s', x)
    requires forall x :: x in Due(s.log) ==> Ahead(s', x)
    ensures Inv(s')
  {
    LogGrows(s.log, Marked(idx));
  }

  lemma SwapInv(s: Stream, id: nat, i: nat)
    requires Inv(s) && id in s.marks && s.marks[id].pc == CellSwap(i)
    ensures s.marks[id].idx >= 0 && Inv(DoMark(s, id, true))
  {
    var s', idx := DoMark(s, id, true), s.marks[id].idx;
    var c := Cell(idx, i, |s.entries|);
    if s.entries[c] == Free {
      forall x | x >= 0 && Evident(s, x) ensures Evident(s', x) { Filled(s.entries, c, idx, 0, x); }
      forall x | x >= 0 && Ahead(s, x) ensures Ahead(s', x) {
        Filled(s.entries, c, idx, 0, x);
        Filled(s.entries, c, idx, if s.consumer.Scanning? || s.consumer.Freeing? then s.consumer.i else 0, x);
      }
      Filled(s.entries, c, idx, 0, 0);
      LoggedInv(s, s', idx);
    }
  }

  lemma AddInv(s: Stream, id: nat)
    requires Inv(s) && id in s.marks && s.marks[id].pc == Adding && s.adds + 1 < INT_LIMIT
    ensures s.marks[id].idx >= 0 && Inv(DoMark(s, id, true))
  {
    LoggedInv(s, DoMark(s, id, true), s.marks[id].idx);
  }

  lemma MarkInv(s: Stream, id: nat, lucky: bool)
    requires Inv(s) && id in s.marks
    ensures s.marks[id].idx >= 0
    ensures var s' := DoMark(s, id, lucky); s'.adds < INT_LIMIT ==> Inv(s')
  {
    match s.marks[id].pc
    case CellSwap(i) => if lucky { SwapInv(s, id, i); }
    case Adding => if s.adds + 1 < INT_LIMIT { AddInv(s, id); }
    case _ =>
  }

  lemma FreeInv(s: Stream)
    requires Inv(s) && s.consumer.Freeing?
    ensures Inv(DoNext(s))
  {
    var s', i := DoNext(s), s.consumer.i;
    forall x | x in Open(s.log) ensures Evident(s', x) {
      if x != s.entries[i] { Freed(s.entries, i, x); }
    }
  }

  lemma CallInv(s: Stream)
    requires Inv(s) && s.consumer.Resting?
    ensures Inv(DoNext(s))
  {
    LogGrows(s.log, Called);
  }

  lemma LeaveInv(s: Stream)
    requires Inv(s) && s.consumer.Leaving?
    ensures Inv(DoNext(s))
  {
    var s', e := DoNext(s), Returned(s.consumer.r);
    if s.consumer.r == NoEntries { NoneAhead(s); }
    LogGrows(s.log, e);
    forall x | x in Opened(Open(s.log), e) ensures x >= 0 && Evident(s', x) { LeftEvident(s, x); }
    assert s'.log == s.log + [e];
  }

  lemma LeftEvident(s: Stream, x: int)
    requires Inv(s) && s.consumer.Leaving? && x in Opened(Open(s.log), Returned(s.consumer.r))
    ensures x >= 0 && Evident(DoNext(s), x)
  {
    assert x in Open(s.log) && s.consumer.r != Overflow && x != s.consumer.r;
  }

  lemma NoneAhead(s: Stream)
    requires Inv(s) && s.consumer == Leaving(NoEntries)
    ensures NoneIn(Due(s.log))
  {
    assert forall x :: !Ahead(s, x);
  }

  lemma ScanInv(s: Stream)
    requires Inv(s) && s.consumer.Scanning?
    ensures Inv(DoNext(s))
  {
  }

  lemma NextInv(s: Stream)
    requires Inv(s)
    ensures Inv(DoNext(s))
  {
    match s.consumer
    case Resting => CallInv(s);
    case Scanning(_, _) => ScanInv(s);
    case Freeing(_, _, _) => FreeInv(s);
    case Leaving(r) => LeaveInv(s);
    case _ =>
  }

  lemma {:induction false} RunInv(cap: nat, steps: seq<Step>)
    requires cap > 0 && Bounded(cap, steps)
    ensures Inv(Run(cap, steps))
    decreases |steps|
  {
    if steps == [] {
      InitInv(cap);
    } else {
      var before := steps[..|steps| - 1];
      RunInv(cap, before);
      match steps[|steps| - 1]
      case Begin(_, _, _) =>
      case MarkStep(id, lucky) => if id in Run(cap, before).marks { MarkInv(Run(cap, before), id, lucky); }
      case NextStep => NextInv(Run(cap, before));
    }
  }

  // ---------------------------------------------------------------- no update is lost

  /** The mark at j was completed before the call that returned NoEntries at k began. */
  ghost predicate Before(log: seq<Event>, j: int, k: int) {
    && 0 <= j < |log| && 0 <= k < |log| && log[j].Marked? && log[k] == Returned(NoEntries)
    && j < LastCall(log[..k])
  }

  /** The mark at j is covered by a return before m. */
  ghost predicate Covered(log: seq<Event>, j: nat, m: nat)
    requires j < |log| && log[j].Marked? && m <= |log|
  {
    exists l :: j < l < m && Covers(log[l], log[j].idx)
  }

  /** What honesty means for the callers: when a call returns NoEntries, every mark completed before
      that call began has been covered by a return in between. */
  lemma {:induction false} HonestMeans(log: seq<Event>)
    ensures Honest(log) <==> forall j, k :: Before(log, j, k) ==> Covered(log, j, LastCall(log[..k]))
  {
    forall j, k | Before(log, j, k) && NoneIn(Due(log[..k])) ensures Covered(log, j, LastCall(log[..k])) {
      NoneDueCovers(log, j, k);
    }
    forall k | 0 <= k < |log| && log[k] == Returned(NoEntries) && !NoneIn(Due(log[..k]))
      ensures exists j :: Before(log, j, k) && !Covered(log, j, LastCall(log[..k]))
    {
      var j := SomeDueUncovered(log, k);
      assert Before(log, j, k);
    }
  }

  lemma {:induction false} NoneDueCovers(log: seq<Event>, j: nat, k: nat)
    requires k < |log| && j < LastCall(log[..k]) && log[j].Marked? && NoneIn(Due(log[..k]))
    ensures Covered(log, j, LastCall(log[..k]))
  {
    var was := log[..k][..LastCall(log[..k])];
    OpenMeans(was, log[j].idx);
    assert was[j] == log[j];
    var l :| j < l < |was| && Covers(was[l], log[j].idx);
    assert log[l] == was[l];
  }

  lemma {:induction false} SomeDueUncovered(log: seq<Event>, k: nat) returns (j: nat)
    requires k < |log| && !NoneIn(Due(log[..k]))
    ensures j < LastCall(log[..k]) && log[j].Marked? && !Covered(log, j, LastCall(log[..k]))
  {
    var was := log[..k][..LastCall(log[..k])];
    var x :| x in Open(was);
    OpenMeans(was, x);
    j :| 0 <= j < |was| && was[j] == Marked(x) && forall l :: j < l < |was| ==> !Covers(was[l], x);
    assert forall l :: 0 <= l < |was| ==> log[l] == was[l];
  }

  /** In every run with fewer than 2^31 additions between scrapes: when a call returns NoEntries,
      every mark completed before that call began has been covered by a return in between. */
  lemma NoLostUpdate(cap: nat, steps: seq<Step>, j: nat, k: nat)
    requires cap > 0 && Bounded(cap, steps)
    requires Before(Run(cap, steps).log, j, k)
    ensures var log := Run(cap, steps).log; Covered(log, j, LastCall(log[..k]))
  {
    RunInv(cap, steps);
    NoneDueCovers(Run(cap, steps).log, j, k);
  }

  /** In every such run, an index with an uncovered mark is on its way to the consumer: nothing
      completed is ever dropped. */
  lemma NothingDropped(cap: nat, steps: seq<Step>, x: int)
    requires cap > 0 && Bounded(cap, steps) && x in Open(Run(cap, steps).log)
    ensures Evident(Run(cap, steps), x)
  {
    RunInv(cap, steps);
  }

  // ---------------------------------------------------------------- draining

  /** n steps of the consumer alone. */
  ghost function Alone(s: Stream, n: nat): Stream
    decreases n
  {
    if n == 0 then s else DoNext(Alone(s, n - 1))
  }

  lemma {:induction false} AloneAdds(s: Stream, m: nat, n: nat)
    ensures Alone(Alone(s, m), n) == Alone(s, m + n)
    decreases n
  {
    if n > 0 { AloneAdds(s, m, n - 1); }
  }

  lemma {:induction false} AloneInv(s: Stream, n: nat)
    requires Inv(s)
    ensures Inv(Alone(s, n))
    decreases n
  {
    if n > 0 {
      AloneInv(s, n - 1);
      NextInv(Alone(s, n - 1));
    }
  }

  /** How many entries are filled. */
  ghost function Count(entries: seq<int>): nat {
    if entries == [] then 0 else (if entries[0] != Free then 1 else 0) + Count(entries[1..])
  }

  lemma {:induction false} CountFreed(entries: seq<int>, i: nat)
    requires i < |entries| && entries[i] != Free
    ensures Count(entries[i := Free]) == Count(entries) - 1
    decreases i
  {
    if i > 0 {
      assert entries[i := Free][1..] == entries[1..][i - 1 := Free];
      CountFreed(entries[1..], i - 1);
    } else {
      assert entries[i := Free][1..] == entries[1..];
    }
  }

  /** The work in front of the consumer. */
  ghost function Load(s: Stream): nat {
    Count(s.entries) + if s.scrape > 0 then 1 else 0
  }

  /** A scan that runs alone ends in Overflow if it is full, and otherwise with the first entry
      it meets or with NoEntries. */
  ghost predicate Scanned(s: Stream, s': Stream, full: bool) {
    && s'.consumer.Leaving? && s'.log == s.log && s'.scrape == s.scrape
    && (full ==> s'.consumer.r == Overflow && Count(s'.entries) <= Count(s.entries))
    && (full || (s'.consumer.r == NoEntries && s'.entries == s.entries)
             || (s'.consumer.r >= 0 && Count(s'.entries) == Count(s.entries) - 1))
  }

  lemma ControlNext(s: Stream)
    requires Control(s)
    ensures Control(DoNext(s))
  {
  }

  lemma {:induction false} AloneFirst(s: Stream, n: nat)
    ensures Alone(s, 1 + n) == Alone(DoNext(s), n)
    decreases n
  {
    if n > 0 { AloneFirst(s, n - 1); }
  }

  lemma {:induction false} ScanAlone(s: Stream) returns (n: nat)
    requires Control(s) && s.consumer.Scanning?
    ensures Scanned(s, Alone(s, n), s.consumer.full)
    decreases |s.entries| - s.consumer.i, 1
  {
    if s.consumer.i == |s.entries| {
      n := 1;
      AloneFirst(s, 0);
    } else if s.entries[s.consumer.i] == Free {
      n := PassAlone(s);
    } else {
      n := FreeAlone(s);
    }
  }

  /** A scan that meets no entry at its position. */
  lemma {:induction false} PassAlone(s: Stream) returns (n: nat)
    requires Control(s) && s.consumer.Scanning? && s.consumer.i < |s.entries| && s.entries[s.consumer.i] == Free
    ensures Scanned(s, Alone(s, n), s.consumer.full)
    decreases |s.entries| - s.consumer.i, 0
  {
    var s1 := DoNext(s);
    PassStep(s);
    var m := ScanAlone(s1);
    AloneFirst(s, m);
    n := 1 + m;
    ScannedSame(s, s1, Alone(s1, m), s.consumer.full);
  }

  lemma PassStep(s: Stream)
    requires Control(s) && s.consumer.Scanning? && s.consumer.i < |s.entries| && s.entries[s.consumer.i] == Free
    ensures var s1 := DoNext(s);
      && Control(s1) && s1.consumer == Scanning(s.consumer.i + 1, s.consumer.full)
      && s1.log == s.log && s1.scrape == s.scrape && s1.entries == s.entries
  {
  }

  lemma ScannedSame(s: Stream, s1: Stream, s2: Stream, full: bool)
    requires Scanned(s1, s2, full) && s1.log == s.log && s1.scrape == s.scrape && s1.entries == s.entries
    ensures Scanned(s, s2, full)
  {
  }

  /** A scan that meets an entry and frees it. */
  lemma {:induction false} FreeAlone(s: Stream) returns (n: nat)
    requires Control(s) && s.consumer.Scanning? && s.consumer.i < |s.entries| && s.entries[s.consumer.i] != Free
    ensures Scanned(s, Alone(s, n), s.consumer.full)
    decreases |s.entries| - s.consumer.i, 0
  {
    var s2 := FreeStep(s);
    if s.consumer.full {
      var m := ScanAlone(s2);
      ScannedAfter(s, s2, Alone(s2, m));
      n := AloneTwo(s, m);
    } else {
      n := AloneTwo(s, 0);
    }
  }

  lemma {:induction false} AloneTwo(s: Stream, m: nat) returns (n: nat)
    ensures Alone(s, n) == Alone(DoNext(DoNext(s)), m)
  {
    AloneFirst(DoNext(s), m);
    AloneFirst(s, 1 + m);
    n := 2 + m;
  }

  lemma {:induction false} FreeStep(s: Stream) returns (s': Stream)
    requires Control(s) && s.consumer.Scanning? && s.consumer.i < |s.entries| && s.entries[s.consumer.i] != Free
    ensures s' == DoNext(DoNext(s)) && Control(s') && |s'.entries| == |s.entries| && Count(s'.entries) == Count(s.entries) - 1
    ensures s'.log == s.log && s'.scrape == s.scrape
    ensures s'.consumer == if s.consumer.full then Scanning(s.consumer.i + 1, true) else Leaving(s.entries[s.consumer.i])
    ensures s.entries[s.consumer.i] >= 0
  {
    ControlNext(s);
    ControlNext(DoNext(s));
    CountFreed(s.entries, s.consumer.i);
    s' := DoNext(DoNext(s));
  }

  lemma ScannedAfter(s: Stream, s1: Stream, s2: Stream)
    requires Scanned(s1, s2, true) && s1.log == s.log && s1.scrape == s.scrape && Count(s1.entries) <= Count(s.entries)
    ensures Scanned(s, s2, true)
  {
  }

  /** What a call that is under way comes to when it runs alone. */
  ghost predicate Came(s: Stream, s': Stream, r: int) {
    s'.consumer.Resting? && s'.log == s.log + [Returned(r)] && Load(s') <= Load(s)
  }

  lemma {:induction false} EndScan(s: Stream) returns (n: nat, r: int)
    requires Control(s) && s.consumer.Scanning?
    ensures Came(s, Alone(s, n), r) && (s.consumer.full || r == NoEntries || Load(Alone(s, n)) < Load(s))
  {
    var m := ScanAlone(s);
    n, r := m + 1, Alone(s, m).consumer.r;
  }

  lemma {:induction false} EndLoad(s: Stream) returns (n: nat, r: int)
    requires Control(s) && s.consumer.Loading?
    ensures Came(s, Alone(s, n), r) && (r == NoEntries || Load(Alone(s, n)) < Load(s))
  {
    ControlNext(s);
    var m;
    if s.scrape > 0 {
      m, r := EndExchange(DoNext(s));
    } else {
      m, r := EndScan(DoNext(s));
    }
    AloneFirst(s, m);
    n := 1 + m;
  }

  lemma {:induction false} EndExchange(s: Stream) returns (n: nat, r: int)
    requires Control(s) && s.consumer.Exchanging?
    ensures Came(s, Alone(s, n), r) && (s.scrape > 0 ==> Load(Alone(s, n)) < Load(s))
  {
    ControlNext(s);
    var m;
    m, r := EndScan(DoNext(s));
    AloneFirst(s, m);
    n := 1 + m;
  }

  lemma {:induction false} EndFree(s: Stream) returns (n: nat, r: int)
    requires Control(s) && s.consumer.Freeing?
    ensures Came(s, Alone(s, n), r)
  {
    ControlNext(s);
    CountFreed(s.entries, s.consumer.i);
    if s.consumer.full {
      var m;
      m, r := EndScan(DoNext(s));
      AloneFirst(s, m);
      n := 1 + m;
    } else {
      n, r := 2, s.consumer.idx;
      AloneFirst(s, 1);
      AloneFirst(DoNext(s), 0);
    }
  }

  /** The call in progress, if there is one, ends when it runs alone. */
  lemma {:induction false} EndCall(s: Stream) returns (n: nat, last: seq<Event>)
    requires Control(s)
    ensures var s' := Alone(s, n); s'.consumer.Resting? && s'.log == s.log + last && Load(s') <= Load(s)
    ensures if s.consumer.Resting? then last == [] else exists r :: last == [Returned(r)]
  {
    var r;
    match s.consumer {
      case Resting =>
        n, last := 0, [];
        assert s.log + [] == s.log;
        return;
      case Loading => n, r := EndLoad(s);
      case Exchanging => n, r := EndExchange(s);
      case Scanning(_, _) => n, r := EndScan(s);
      case Freeing(_, _, _) => n, r := EndFree(s);
      case Leaving(_) =>
        n, r := 1, s.consumer.r;
        AloneFirst(s, 0);
    }
    last := [Returned(r)];
  }

  /** A call that runs alone returns NoEntries or leaves less work. */
  lemma {:induction false} CallAlone(s: Stream) returns (n: nat, r: int)
    requires Control(s) && s.consumer.Resting?
    ensures var s' := Alone(s, n);
      && s'.consumer.Resting? && s'.log == s.log + [Called] + [Returned(r)]
      && (r == NoEntries || Load(s') < Load(s))
  {
    ControlNext(s);
    var m;
    m, r := EndLoad(DoNext(s));
    AloneFirst(s, m);
    n := 1 + m;
  }

  lemma CallCovers(log: seq<Event>, r: int)
    requires Honest(log + [Called] + [Returned(r)]) && r == NoEntries
    ensures NoneIn(Open(log + [Called] + [Returned(r)]))
  {
    var log' := log + [Called] + [Returned(r)];
    assert log'[|log| + 1] == Returned(NoEntries) && log'[..|log| + 1] == log + [Called];
    LogGrows(log, Called);
    LogGrows(log + [Called], Returned(r));
  }

  /** A consumer that keeps calling while no marks arrive comes to NoEntries, after at most
      Load(s) other results, and by then every mark has been covered. */
  lemma {:induction false} Drains(s: Stream) returns (n: nat, results: seq<int>)
    requires Inv(s) && s.consumer.Resting?
    ensures Drained(s, Alone(s, n), results)
    decreases Load(s)
  {
    var r;
    n, r := CallAlone(s);
    var s1 := Alone(s, n);
    AloneInv(s, n);
    if r == NoEntries {
      results := [r];
      DrainedAtOnce(s, s1);
    } else {
      var m, rest := Drains(s1);
      AloneAdds(s, n, m);
      DrainedLater(s, s1, Alone(s1, m), r, rest);
      n, results := n + m, [r] + rest;
    }
  }

  /** The calls from s to s' returned these results, the last one NoEntries, and all is covered. */
  ghost predicate Drained(s: Stream, s': Stream, results: seq<int>) {
    && s'.consumer.Resting? && NoneIn(Open(s'.log)) && results != [] && |results| <= Load(s) + 1
    && s'.log == s.log + Calls(results) && results[|results| - 1] == NoEntries
  }

  lemma {:induction false} DrainedAtOnce(s: Stream, s': Stream)
    requires s'.consumer.Resting? && s'.log == s.log + [Called] + [Returned(NoEntries)] && Honest(s'.log)
    ensures Drained(s, s', [NoEntries])
  {
    CallCovers(s.log, NoEntries);
    CallsStep(s.log, NoEntries, []);
  }

  lemma {:induction false} DrainedLater(s: Stream, s1: Stream, s2: Stream, r: int, rest: seq<int>)
    requires s1.log == s.log + [Called] + [Returned(r)] && Load(s1) < Load(s) && Drained(s1, s2, rest)
    ensures Drained(s, s2, [r] + rest)
  {
    CallsStep(s.log, r, rest);
  }

  ghost function Calls(results: seq<int>): seq<Event> {
    if results == [] then [] else [Called, Returned(results[0])] + Calls(results[1..])
  }

  lemma {:induction false} CallsStep(log: seq<Event>, r: int, rest: seq<int>)
    ensures log + Calls([r] + rest) == log + [Called] + [Returned(r)] + Calls(rest)
    ensures rest == [] ==> log + Calls([r]) == log + [Called] + [Returned(r)]
  {
    assert ([r] + rest)[1..] == rest;
    assert rest == [] ==> [r] + rest == [r];
  }

  /** n steps of the consumer. */
  ghost function Nexts(n: nat): (steps: seq<Step>)
    ensures |steps| == n
  {
    if n == 0 then [] else Nexts(n - 1) + [NextStep]
  }

  lemma {:induction false} RunSnoc(cap: nat, steps: seq<Step>, step: Step)
    ensures Run(cap, steps + [step]) == Do(Run(cap, steps), step)
  {
    assert (steps + [step])[..|steps|] == steps;
  }

  lemma {:induction false} AloneIsRun(cap: nat, steps: seq<Step>, n: nat)
    ensures Run(cap, steps + Nexts(n)) == Alone(Run(cap, steps), n)
    decreases n
  {
    if n == 0 {
      assert steps + Nexts(n) == steps;
    } else {
      AloneIsRun(cap, steps, n - 1);
      RunSnoc(cap, steps + Nexts(n - 1), NextStep);
      NextsSnoc(steps, n);
    }
  }

  lemma {:induction false} NextsSnoc(steps: seq<Step>, n: nat)
    requires n > 0
    ensures steps + Nexts(n) == steps + Nexts(n - 1) + [NextStep]
  {
  }

  /** Every run can be continued by the consumer alone: the call in progress, if there is one,
      ends, and further calls return NoEntries after at most Load other results; by then every
      mark that was completed has been covered. */
  lemma EveryMarkIsCovered(cap: nat, steps: seq<Step>) returns (n: nat, last: seq<Event>, results: seq<int>)
    requires cap > 0 && Bounded(cap, steps)
    ensures var s, log := Run(cap, steps), Run(cap, steps + Nexts(n)).log;
      && log == s.log + last + Calls(results) && NoneIn(Open(log))
      && (if s.consumer.Resting? then last == [] else exists r :: last == [Returned(r)])
      && 0 < |results| <= Load(s) + 1 && results[|results| - 1] == NoEntries
  {
    RunInv(cap, steps);
    n, last, results := EndThenDrain(Run(cap, steps));
    AloneIsRun(cap, steps, n);
  }

  lemma {:induction false} EndThenDrain(s: Stream) returns (n: nat, last: seq<Event>, results: seq<int>)
    requires Inv(s)
    ensures var log := Alone(s, n).log;
      && log == s.log + last + Calls(results) && NoneIn(Open(log))
      && (if s.consumer.Resting? then last == [] else exists r :: last == [Returned(r)])
      && 0 < |results| <= Load(s) + 1 && results[|results| - 1] == NoEntries
  {
    var k, m;
    k, last := EndCall(s);
    AloneInv(s, k);
    m, results := Drains(Alone(s, k));
    AloneAdds(s, k, m);
    n := k + m;
  }

  // ---------------------------------------------------------------- where a mark goes

  /** Steps of mark id alone, none of which fails for no reason. */
  ghost function Marking(s: Stream, id: nat, n: nat): Stream
    decreases n
  {
    if n == 0 then s else Marking(Do(s, MarkStep(id, true)), id, n - 1)
  }

  ghost predicate Vacant(entries: seq<int>, c: nat) {
    c < |entries| && entries[c] == Free
  }

  /** Mark id is over, and its index is in cell c. */
  ghost predicate PutIn(s: Stream, s': Stream, id: nat, m: Mark, c: nat) {
    && c < |s.entries|
    && s' == s.(entries := s.entries[c := m.idx], marks := s.marks[id := m.(pc := MarkDone)], log := s.log + [Marked(m.idx)])
  }

  /** Mark id is over, and scrape_all has been raised for it. */
  ghost predicate AddedFor(s: Stream, s': Stream, id: nat, m: Mark) {
    s' == s.(scrape := Increment(s.scrape), adds := s.adds + 1,
             marks := s.marks[id := m.(pc := MarkDone)], log := s.log + [Marked(m.idx)])
  }

  /** From its i-th cell on, mark m has gone from s to s': into the first vacant cell of those it may
      try, and into scrape_all if there is none. */
  ghost predicate Settles(s: Stream, s': Stream, id: nat, m: Mark, i: nat)
    requires s.entries != [] && m.idx >= 0
  {
    && (forall j: nat :: i <= j <= m.retries && FirstVacant(s.entries, m.idx, i, j) ==> PutIn(s, s', id, m, (m.idx + j) % |s.entries|))
    && ((forall j: nat :: i <= j <= m.retries ==> !VacantAt(s.entries, m.idx, j)) ==> AddedFor(s, s', id, m))
  }

  /** The j-th cell from idx on, going round, is vacant. */
  ghost predicate VacantAt(entries: seq<int>, idx: int, j: nat)
    requires entries != [] && idx >= 0
  {
    Vacant(entries, (idx + j) % |entries|)
  }

  /** And it is the first one that is, from the i-th on. */
  ghost predicate FirstVacant(entries: seq<int>, idx: int, i: nat, j: nat)
    requires entries != [] && idx >= 0
  {
    VacantAt(entries, idx, j) && forall k: nat :: i <= k < j ==> !VacantAt(entries, idx, k)
  }

  lemma {:induction false} SettlesAlone(s: Stream, id: nat, i: nat) returns (n: nat)
    requires s.entries != [] && id in s.marks && s.marks[id].idx >= 0 && s.marks[id].pc == Try(i, s.marks[id].retries)
    ensures Settles(s, Marking(s, id, n), id, s.marks[id], i)
    decreases s.marks[id].retries + 1 - i
  {
    var m, cap := s.marks[id], |s.entries|;
    var s1 := Do(s, MarkStep(id, true));
    if i >= m.retries + 1 {
      assert Marking(s, id, 1) == Marking(s1, id, 0);
      n := 1;
    } else if VacantAt(s.entries, m.idx, i) {
      var s2 := Do(s1, MarkStep(id, true));
      assert Marking(s, id, 2) == Marking(s1, id, 1) == Marking(s2, id, 0);
      assert PutIn(s, s2, id, m, (m.idx + i) % cap);
      n := 2;
    } else {
      n := SettlesAlone(s1, id, i + 1);
      SettlesOnward(s, s1, Marking(s1, id, n), id, m, i);
      n := n + 1;
    }
  }

  lemma SettlesOnward(s: Stream, s1: Stream, s': Stream, id: nat, m: Mark, i: nat)
    requires s.entries != [] && m.idx >= 0 && !VacantAt(s.entries, m.idx, i)
    requires id in s.marks && s1 == s.(marks := s.marks[id := m.(pc := Try(i + 1, m.retries))])
    requires Settles(s1, s', id, s1.marks[id], i + 1)
    ensures Settles(s, s', id, m, i)
  {
    assert s1.marks[id := m.(pc := MarkDone)] == s.marks[id := m.(pc := MarkDone)];
    forall j: nat | i <= j && FirstVacant(s.entries, m.idx, i, j) ensures j > i && FirstVacant(s.entries, m.idx, i + 1, j) {
    }
  }

  /** An undisturbed mark.  With scrape_all above zero it raises that by one.  If not, its index is put into
      the first vacant one of the retries + 1 cells that begin at idx and wrap around; if none is vacant,
      scrape_all is raised by one.  Nothing else changes. */
  lemma {:induction false} MarkAlone(s: Stream, id: nat, idx: nat, retries: int) returns (n: nat)
    requires s.entries != [] && id !in s.marks
    ensures var m := Mark(idx, retries, MarkLoad); var s' := Marking(Do(s, Begin(id, idx, retries)), id, n);
      if s.scrape > 0 then AddedFor(s, s', id, m) else Settles(s, s', id, m, 0)
  {
    var m := Mark(idx, retries, MarkLoad);
    var s1 := Do(s, Begin(id, idx, retries));
    var s2 := Do(s1, MarkStep(id, true));
    assert s2.marks[id := m.(pc := MarkDone)] == s.marks[id := m.(pc := MarkDone)];
    if s.scrape > 0 {
      var s3 := Do(s2, MarkStep(id, true));
      assert Marking(s1, id, 2) == Marking(s2, id, 1) == Marking(s3, id, 0);
      n := 2;
    } else {
      n := SettlesAlone(s2, id, 0);
      n := n + 1;
    }
  }

  // ---------------------------------------------------------------- among other steps

  /** The cells that mark id has tried in vain: found taken, or not won in the swap. */
  ghost function Tried(cap: nat, steps: seq<Step>, id: nat): seq<int>
    decreases |steps|
  {
    if steps == [] then []
    else
      Tried(cap, steps[..|steps| - 1], id) + FailedTry(Run(cap, steps[..|steps| - 1]), steps[|steps| - 1], id)
  }

  ghost function FailedTry(s: Stream, step: Step, id: nat): seq<int> {
    if step.MarkStep? && step.id == id && id in s.marks && s.entries != [] && s.marks[id].idx >= 0 then
      var m := s.marks[id];
      match m.pc
      case CellLoad(i) => if Vacant(s.entries, (m.idx + i) % |s.entries|) then [] else [(m.idx + i) % |s.entries|]
      case CellSwap(i) =>
        if Vacant(s.entries, (m.idx + i) % |s.entries|) && step.lucky then [] else [(m.idx + i) % |s.entries|]
      case _ => []
    else []
  }

  /** Whether mark id has found scrape_all above zero. */
  ghost predicate SawOverflow(cap: nat, steps: seq<Step>, id: nat)
    decreases |steps|
  {
    steps != [] &&
      var s, step := Run(cap, steps[..|steps| - 1]), steps[|steps| - 1];
      || SawOverflow(cap, steps[..|steps| - 1], id)
      || (step.MarkStep? && step.id == id && id in s.marks && s.marks[id].pc == MarkLoad && s.scrape > 0)
  }

  /** The first n cells from idx on, going round. */
  ghost predicate Cells(tried: seq<int>, idx: int, n: int, cap: nat)
    requires cap > 0
  {
    |tried| == (if n > 0 then n else 0) && forall j :: 0 <= j < |tried| ==> tried[j] == (idx + j) % cap
  }

  /** How far mark m has come, as its history tells. */
  ghost predicate Progress(m: Mark, tried: seq<int>, saw: bool, cap: nat)
    requires cap > 0
  {
    && m.idx >= 0
    && match m.pc
       case MarkLoad => tried == [] && !saw
       case CellLoad(i) => !saw && i <= m.retries && Cells(tried, m.idx, i, cap)
       case CellSwap(i) => !saw && i <= m.retries && Cells(tried, m.idx, i, cap)
       case Adding => if saw then tried == [] else Cells(tried, m.idx, m.retries + 1, cap)
       case MarkDone => true
  }

  lemma ProgressStep(s: Stream, step: Step, id: nat, tried: seq<int>, saw: bool)
    requires s.entries != [] && id in s.marks && Progress(s.marks[id], tried, saw, |s.entries|)
    ensures var s' := Do(s, step);
      && id in s'.marks && |s'.entries| == |s.entries|
      && Progress(s'.marks[id], tried + FailedTry(s, step, id),
                  saw || (step.MarkStep? && step.id == id && s.marks[id].pc == MarkLoad && s.scrape > 0), |s.entries|)
  {
    assert tried + [] == tried;
  }

  /** Every mark of every run, step by step. */
  lemma {:induction false} ProgressAlways(cap: nat, steps: seq<Step>, id: nat)
    requires cap > 0
    ensures var s := Run(cap, steps);
      && |s.entries| == cap
      && if id in s.marks then Progress(s.marks[id], Tried(cap, steps, id), SawOverflow(cap, steps, id), cap)
         else Tried(cap, steps, id) == [] && !SawOverflow(cap, steps, id)
    decreases |steps|
  {
    if steps != [] {
      var before, step := steps[..|steps| - 1], steps[|steps| - 1];
      ProgressAlways(cap, before, id);
      var s := Run(cap, before);
      if id in s.marks {
        ProgressStep(s, step, id, Tried(cap, before, id), SawOverflow(cap, before, id));
      }
    }
  }

  /** scrape_all is raised only by a mark that found it above zero, or that has tried all of its
      retries + 1 cells in vain, one after the other. */
  lemma AddsAfterTries(cap: nat, steps: seq<Step>, step: Step)
    requires cap > 0 && Do(Run(cap, steps), step).adds > Run(cap, steps).adds
    ensures step.MarkStep? && step.id in Run(cap, steps).marks
    ensures var m := Run(cap, steps).marks[step.id];
      SawOverflow(cap, steps, step.id) || Cells(Tried(cap, steps, step.id), m.idx, m.retries + 1, cap)
  {
    ProgressAlways(cap, steps, if step.MarkStep? then step.id else 0);
  }

  lemma FillStep(s: Stream, step: Step, c: nat)
    requires Vacant(s.entries, c) && !Vacant(Do(s, step).entries, c)
    ensures step.MarkStep? && step.id in s.marks && s.marks[step.id].idx >= 0 && s.marks[step.id].pc.CellSwap?
    ensures var m := s.marks[step.id];
      c == (m.idx + m.pc.i) % |s.entries| && Do(s, step).entries == s.entries[c := m.idx]
  {
  }

  /** Mark m has gone into cell c, the next one after those it has tried in vain. */
  ghost predicate FillsNext(s: Stream, s': Stream, m: Mark, tried: seq<int>, c: nat, cap: nat)
    requires cap > 0
  {
    && |tried| <= m.retries && Cells(tried, m.idx, |tried|, cap)
    && c == (m.idx + |tried|) % cap && c < |s.entries| && s'.entries == s.entries[c := m.idx]
  }

  lemma FillProgress(s: Stream, s': Stream, m: Mark, tried: seq<int>, saw: bool, c: nat, cap: nat)
    requires cap > 0 && m.pc.CellSwap? && Progress(m, tried, saw, cap)
    requires c == (m.idx + m.pc.i) % cap && c < |s.entries| && s'.entries == s.entries[c := m.idx]
    ensures !saw && FillsNext(s, s', m, tried, c, cap)
  {
    assert |tried| == m.pc.i;
  }

  lemma FillsAt(s: Stream, step: Step, s': Stream, c: nat, tried: seq<int>, saw: bool)
    requires s' == Do(s, step) && Vacant(s.entries, c) && !Vacant(s'.entries, c)
    requires step.MarkStep? && step.id in s.marks ==> Progress(s.marks[step.id], tried, saw, |s.entries|)
    ensures step.MarkStep? && step.id in s.marks && !saw && FillsNext(s, s', s.marks[step.id], tried, c, |s.entries|)
  {
    FillStep(s, step, c);
    FillProgress(s, s', s.marks[step.id], tried, saw, c, |s.entries|);
  }

  /** A cell is filled only by a mark that has found scrape_all at or below zero and has tried its
      earlier cells in vain, with its index, and it is the next one. */
  lemma FillsNextCell(cap: nat, steps: seq<Step>, step: Step, s: Stream, s': Stream, c: nat)
    requires cap > 0 && s == Run(cap, steps) && s' == Do(s, step) && Vacant(s.entries, c) && !Vacant(s'.entries, c)
    ensures step.MarkStep? && step.id in s.marks && !SawOverflow(cap, steps, step.id)
    ensures FillsNext(s, s', s.marks[step.id], Tried(cap, steps, step.id), c, cap)
  {
    var id := if step.MarkStep? then step.id else 0;
    ProgressAlways(cap, steps, id);
    FillsAt(s, step, s', c, Tried(cap, steps, id), SawOverflow(cap, steps, id));
  }

  // ---------------------------------------------------------------- nothing is made up

  ghost predicate Backed(s: Stream) {
    && (forall i :: 0 <= i < |s.entries| && s.entries[i] != Free ==> Marked(s.entries[i]) in s.log)
    && (s.consumer.Freeing? && s.consumer.idx != Free ==> Marked(s.consumer.idx) in s.log)
    && (s.consumer.Leaving? && s.consumer.r >= 0 ==> Marked(s.consumer.r) in s.log)
    && (forall k :: 0 <= k < |s.log| && s.log[k].Returned? && s.log[k].r >= 0 ==> Marked(s.log[k].r) in s.log[..k])
  }

  lemma {:induction false} BackedGrows(s: Stream, s': Stream, e: Event)
    requires Backed(s) && s'.log == s.log + [e]
    requires e.Returned? && e.r >= 0 ==> Marked(e.r) in s.log
    requires s'.consumer.Resting? || s'.consumer == s.consumer || s'.consumer.Loading?
    requires forall i :: 0 <= i < |s'.entries| && s'.entries[i] != Free ==> Marked(s'.entries[i]) in s'.log
    ensures Backed(s')
  {
    forall k | 0 <= k < |s'.log| && s'.log[k].Returned? && s'.log[k].r >= 0 ensures Marked(s'.log[k].r) in s'.log[..k] {
      assert s'.log[..k] == s.log[..k];
    }
  }

  lemma {:induction false} DoBacked(s: Stream, step: Step)
    requires Backed(s)
    ensures Backed(Do(s, step))
  {
    match step
    case Begin(_, _, _) =>
    case MarkStep(id, lucky) =>
      if id in s.marks && s.entries != [] && s.marks[id].idx >= 0 { MarkBacked(s, id, lucky); }
    case NextStep => NextBacked(s);
  }

  lemma {:induction false} MarkBacked(s: Stream, id: nat, lucky: bool)
    requires Backed(s) && id in s.marks && s.entries != [] && s.marks[id].idx >= 0
    ensures Backed(DoMark(s, id, lucky))
  {
    var s', e := DoMark(s, id, lucky), Marked(s.marks[id].idx);
    if s'.log != s.log {
      assert s'.log == s.log + [e];
      BackedGrows(s, s', e);
    }
  }

  lemma {:induction false} NextBacked(s: Stream)
    requires Backed(s)
    ensures Backed(DoNext(s))
  {
    var s' := DoNext(s);
    match s.consumer
    case Resting => BackedGrows(s, s', Called);
    case Leaving(r) => BackedGrows(s, s', Returned(r));
    case _ =>
  }

  /** Every index returned to the consumer was marked before. */
  lemma {:induction false} ReturnedWasMarked(cap: nat, steps: seq<Step>)
    ensures Backed(Run(cap, steps))
    ensures var log := Run(cap, steps).log;
      forall k :: 0 <= k < |log| && log[k].Returned? && log[k].r >= 0 ==> Marked(log[k].r) in log[..k]
    decreases |steps|
  {
    if steps != [] {
      ReturnedWasMarked(cap, steps[..|steps| - 1]);
      DoBacked(Run(cap, steps[..|steps| - 1]), steps[|steps| - 1]);
    }
  }

  // ---------------------------------------------------------------- the bound is needed

  /** Nobody is at work, the cells are free, and index 0 has an uncovered mark. */
  ghost predicate Flooded(s: Stream, n: nat) {
    && s.consumer.Resting? && |s.entries| > 0 && (forall i :: 0 <= i < |s.entries| ==> s.entries[i] == Free)
    && (forall id :: id in s.marks ==> id < n) && (n > 0 ==> 0 in Open(s.log)) && s.adds == n
    && s.scrape == if n < INT_LIMIT then n else -INT_LIMIT
  }

  lemma OverflowOnce(s: Stream, n: nat)
    requires Flooded(s, n) && n < INT_LIMIT
    ensures var s1 := Do(s, Begin(n, 0, -1)); var s2 := Do(s1, MarkStep(n, true));
      s1.adds == n && s2.adds == n && Flooded(Do(s2, MarkStep(n, true)), n + 1)
  {
    var s1 := Do(s, Begin(n, 0, -1));
    var s2 := Do(s1, MarkStep(n, true));
    assert s2.marks[n].pc == Adding;
    LogGrows(s.log, Marked(0));
    var s3 := Do(s2, MarkStep(n, true));
    assert s3.log == s.log + [Marked(0)];
  }

  lemma {:induction false} WithinSnoc(cap: nat, steps: seq<Step>, step: Step, b: nat)
    requires Within(cap, steps, b) && Do(Run(cap, steps), step).adds <= b
    ensures Run(cap, steps + [step]) == Do(Run(cap, steps), step) && Within(cap, steps + [step], b)
  {
    assert (steps + [step])[..|steps|] == steps;
  }

  lemma {:induction false} WithinMore(cap: nat, steps: seq<Step>, b: nat, b': nat)
    requires Within(cap, steps, b) && b <= b'
    ensures Within(cap, steps, b')
    decreases |steps|
  {
    if steps != [] { WithinMore(cap, steps[..|steps| - 1], b, b'); }
  }

  /** The consumer adds nothing. */
  lemma {:induction false} WithinAlone(cap: nat, steps: seq<Step>, n: nat, b: nat)
    requires Within(cap, steps, b)
    ensures Within(cap, steps + Nexts(n), b)
    decreases n
  {
    if n == 0 {
      assert steps + Nexts(n) == steps;
    } else {
      WithinAlone(cap, steps, n - 1, b);
      var before := steps + Nexts(n - 1);
      assert Run(cap, before).adds <= b;
      WithinSnoc(cap, before, NextStep, b);
      NextsSnoc(steps, n);
    }
  }

  /** A run of n marks of index 0 that overflow at once, one after the other. */
  ghost predicate Flood(cap: nat, steps: seq<Step>, n: nat) {
    Flooded(Run(cap, steps), n) && Within(cap, steps, n)
  }

  lemma {:induction false} FloodMore(cap: nat, steps: seq<Step>, n: nat)
    requires Flood(cap, steps, n) && n < INT_LIMIT
    ensures Flood(cap, steps + [Begin(n, 0, -1)] + [MarkStep(n, true)] + [MarkStep(n, true)], n + 1)
  {
    var steps1 := steps + [Begin(n, 0, -1)];
    var steps2 := steps1 + [MarkStep(n, true)];
    OverflowOnce(Run(cap, steps), n);
    WithinMore(cap, steps, n, n + 1);
    WithinSnoc(cap, steps, Begin(n, 0, -1), n + 1);
    WithinSnoc(cap, steps1, MarkStep(n, true), n + 1);
    WithinSnoc(cap, steps2, MarkStep(n, true), n + 1);
  }

  lemma {:induction false} Flooding(cap: nat, n: nat) returns (steps: seq<Step>)
    requires cap > 0 && n <= INT_LIMIT
    ensures Flood(cap, steps, n)
    decreases n
  {
    steps := [];
    if n > 0 {
      steps := Flooding(cap, n - 1);
      FloodMore(cap, steps, n - 1);
      steps := steps + [Begin(n - 1, 0, -1)] + [MarkStep(n - 1, true)] + [MarkStep(n - 1, true)];
    }
  }

  lemma {:induction false} EmptyScan(s: Stream, n: nat)
    requires s.consumer == Scanning(0, false) && n <= |s.entries|
    requires forall i :: 0 <= i < |s.entries| ==> s.entries[i] == Free
    ensures Alone(s, n) == s.(consumer := Scanning(n, false))
    decreases n
  {
    if n > 0 { EmptyScan(s, n - 1); }
  }

  /** A call that finds scrape_all negative and the cells free. */
  lemma {:induction false} DeafCall(s: Stream, n: nat)
    requires Flooded(s, n) && n >= INT_LIMIT
    ensures Alone(s, |s.entries| + 4).log == s.log + [Called] + [Returned(NoEntries)]
  {
    var s1 := DoNext(s);
    var s2 := DoNext(s1);
    assert Alone(s, 1) == DoNext(Alone(s, 0)) && Alone(s, 2) == DoNext(Alone(s, 1));
    EmptyScan(s2, |s.entries|);
    AloneAdds(s, 2, |s.entries|);
    var s3 := Alone(s, |s.entries| + 2);
    assert Alone(s, |s.entries| + 3) == DoNext(s3) == s3.(consumer := Leaving(NoEntries));
    assert Alone(s, |s.entries| + 4) == DoNext(DoNext(s3));
  }

  /** With 2^31 additions and no scrape, scrape_all has wrapped to a negative number and the next
      call returns NoEntries although a mark completed before it is uncovered. */
  lemma {:induction false} WrapLosesUpdate(cap: nat) returns (steps: seq<Step>)
    requires cap > 0
    ensures Within(cap, steps, INT_LIMIT) && !Honest(Run(cap, steps).log)
    ensures var log := Run(cap, steps).log;
      |log| > 0 && log[|log| - 1] == Returned(NoEntries) && 0 in Due(log[..|log| - 1])
  {
    var flood := Flooding(cap, INT_LIMIT);
    var s := Run(cap, flood);
    var n := |s.entries| + 4;
    DeafCall(s, INT_LIMIT);
    AloneIsRun(cap, flood, n);
    WithinAlone(cap, flood, n, INT_LIMIT);
    steps := flood + Nexts(n);
    LogGrows(s.log, Called);
    var log := Run(cap, steps).log;
    assert log[..|log| - 1] == s.log + [Called];
  }

  /** The stream is honest in every run with at most b additions between scrapes if and only if b is
      below 2^31. */
  lemma {:induction false} SafeBound(cap: nat, b: nat)
    requires cap > 0
    ensures (forall steps :: Within(cap, steps, b) ==> Honest(Run(cap, steps).log)) <==> b < INT_LIMIT
  {
    if b < INT_LIMIT {
      forall steps | Within(cap, steps, b) ensures Honest(Run(cap, steps).log) {
        WithinMore(cap, steps, b, INT_LIMIT - 1);
        RunInv(cap, steps);
      }
    } else {
      var steps := WrapLosesUpdate(cap);
      WithinMore(cap, steps, INT_LIMIT, b);
    }
  }

  // ---------------------------------------------------------------- marks that are passed over

  /** A mark of index 1 waits in cell 1; nobody is at work; k results have been returned. */
  ghost predicate Steady(s: Stream, k: nat) {
    && s.consumer.Resting? && |s.entries| >= 2 && s.entries[0] == Free && s.entries[1] == 1
    && s.scrape == 0 && s.adds == 0 && (forall id :: id in s.marks ==> id <= k)
    && 1 in Open(s.log) && Results(s.log) == seq(k, _ => 0)
  }

  /** The results in a log. */
  ghost function Results(log: seq<Event>): seq<int> {
    if log == [] then []
    else Results(log[..|log| - 1]) + if log[|log| - 1].Returned? then [log[|log| - 1].r] else []
  }

  lemma {:induction false} ResultsSnoc(log: seq<Event>, e: Event)
    ensures Results(log + [e]) == Results(log) + if e.Returned? then [e.r] else []
  {
    assert (log + [e])[..|log|] == log;
  }

  /** A mark of idx, from its call to its completion in its first cell. */
  lemma {:induction false} MarkAtOnce(s: Stream, id: nat, idx: nat)
    requires id !in s.marks && s.scrape == 0 && idx < |s.entries| && s.entries[idx] == Free
    ensures var s1 := Do(s, Begin(id, idx, 0)); var s2 := Do(s1, MarkStep(id, true)); var s3 := Do(s2, MarkStep(id, true));
      && s1.adds == s2.adds == s3.adds == s.adds
      && Do(s3, MarkStep(id, true)) == s.(entries := s.entries[idx := idx], log := s.log + [Marked(idx)],
                                          marks := s.marks[id := Mark(idx, 0, MarkDone)])
  {
    assert Cell(idx, 0, |s.entries|) == idx;
    var s1 := Do(s, Begin(id, idx, 0));
    var s2 := Do(s1, MarkStep(id, true));
    assert s2.marks[id].pc == CellLoad(0);
    var s3 := Do(s2, MarkStep(id, true));
    assert s3.marks[id].pc == CellSwap(0);
    var s4 := Do(s3, MarkStep(id, true));
    assert s4.marks == s.marks[id := Mark(idx, 0, MarkDone)];
  }

  lemma {:induction false} MarkRun(cap: nat, steps: seq<Step>, id: nat, idx: nat) returns (steps': seq<Step>)
    requires var s := Run(cap, steps); id !in s.marks && s.scrape == 0 && idx < |s.entries| && s.entries[idx] == Free
    requires Within(cap, steps, 0)
    ensures var s := Run(cap, steps);
      Run(cap, steps') == s.(entries := s.entries[idx := idx], log := s.log + [Marked(idx)],
                             marks := s.marks[id := Mark(idx, 0, MarkDone)])
    ensures Within(cap, steps', 0)
  {
    MarkAtOnce(Run(cap, steps), id, idx);
    var s1 := steps + [Begin(id, idx, 0)];
    WithinSnoc(cap, steps, Begin(id, idx, 0), 0);
    WithinSnoc(cap, s1, MarkStep(id, true), 0);
    WithinSnoc(cap, s1 + [MarkStep(id, true)], MarkStep(id, true), 0);
    WithinSnoc(cap, s1 + [MarkStep(id, true)] + [MarkStep(id, true)], MarkStep(id, true), 0);
    steps' := s1 + [MarkStep(id, true)] + [MarkStep(id, true)] + [MarkStep(id, true)];
  }

  /** A call that finds an entry in cell 0. */
  lemma {:induction false} CallTakesFirst(s: Stream)
    requires s.consumer.Resting? && s.scrape == 0 && s.entries != [] && s.entries[0] != Free
    ensures Alone(s, 5) == s.(entries := s.entries[0 := Free], log := s.log + [Called] + [Returned(s.entries[0])])
  {
    var s1 := DoNext(s);
    var s2 := DoNext(s1);
    var s3 := DoNext(s2);
    var s4 := DoNext(s3);
    assert Alone(s, 1) == DoNext(Alone(s, 0)) && Alone(s, 2) == DoNext(Alone(s, 1)) && Alone(s, 3) == DoNext(Alone(s, 2));
    assert Alone(s, 4) == DoNext(Alone(s, 3)) && Alone(s, 5) == DoNext(Alone(s, 4));
    assert s3.consumer == Freeing(0, s.entries[0], false);
  }

  lemma SteadyAgain(s: Stream, k: nat, s': Stream)
    requires Steady(s, k)
    requires s' == s.(entries := s.entries[0 := 0][0 := Free], marks := s.marks[k + 1 := Mark(0, 0, MarkDone)],
                      log := s.log + [Marked(0)] + [Called] + [Returned(0)])
    ensures Steady(s', k + 1)
  {
    var l1, l2 := s.log + [Marked(0)], s.log + [Marked(0)] + [Called];
    LogGrows(s.log, Marked(0));
    LogGrows(l1, Called);
    LogGrows(l2, Returned(0));
    ResultsSnoc(s.log, Marked(0));
    ResultsSnoc(l1, Called);
    ResultsSnoc(l2, Returned(0));
    assert seq(k, _ => 0) + [0] == seq(k + 1, _ => 0);
  }

  lemma SteadyStart(s: Stream, cap: nat)
    requires cap >= 2
    requires s == Init(cap).(entries := Init(cap).entries[1 := 1], log := [] + [Marked(1)], marks := map[][0 := Mark(1, 0, MarkDone)])
    ensures Steady(s, 0)
  {
    LogGrows([], Marked(1));
    ResultsSnoc([], Marked(1));
  }

  /** A scan always starts from cell 0, so a mark can be passed over: for every n there is a run, with
      no addition to scrape_all at all, in which n results come back and the first mark is still
      uncovered. */
  lemma {:induction false} PassedOver(cap: nat, n: nat) returns (steps: seq<Step>)
    requires cap >= 2
    ensures Within(cap, steps, 0) && Steady(Run(cap, steps), n)
    ensures |Results(Run(cap, steps).log)| == n && 1 in Open(Run(cap, steps).log)
    decreases n
  {
    if n == 0 {
      steps := MarkRun(cap, [], 0, 1);
      SteadyStart(Run(cap, steps), cap);
    } else {
      steps := PassedOver(cap, n - 1);
      var s := Run(cap, steps);
      steps := MarkRun(cap, steps, n, 0);
      CallTakesFirst(Run(cap, steps));
      AloneIsRun(cap, steps, 5);
      WithinAlone(cap, steps, 5, 0);
      steps := steps + Nexts(5);
      SteadyAgain(s, n - 1, Run(cap, steps));
    }
  }
}
