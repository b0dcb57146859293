/**
  The sequence lock of shared/prio_table.h, as interleaved atomic steps of any number
  of writers and readers over a payload of any number of words.  The 32-bit sequence
  number wraps; compare_exchange_weak may fail for no reason.
 */
module Seqcount {

  const TWO32: int := 0x1_0000_0000
  const TWO31: int := 0x8000_0000

  type Tid = nat
  type Copy = map<nat, int>

  datatype Writer =
    | BeginLoad                            // write_begin: about to load the number
    | BeginTest(seen: nat)                 // about to spin if it is odd, else to swap it
    | TryLoad                              // try_write_begin
    | TryTest(seen: nat)
    | Writing(begin: nat)                  // between the begin and write_end(begin)

  /** A reader copies the words in any order.  The two counters are those of the lock at
      read_begin, kept for the specification. */
  datatype Reader =
    | Reading(begin: nat, copy: Copy, begun: nat, ended: nat)
    | ReadDone(ok: bool, copy: Copy, from: nat, to: nat, writes: nat)

  /** begun and ended count the writes; payloads[i] is the payload after i writes. */
  datatype Lock = Lock(seqnum: nat, words: seq<int>, writers: map<Tid, Writer>, readers: map<Tid, Reader>,
                       begun: nat, ended: nat, payloads: seq<seq<int>>)

  datatype Step =
    | CallBegin(t: Tid) | CallTry(t: Tid)  // write_begin, try_write_begin
    | WriterStep(t: Tid, lucky: bool)
    | WriteWord(t: Tid, k: nat, v: int)
    | WriteEnd(t: Tid)
    | ReadBegin(t: Tid)
    | ReadWord(t: Tid, k: nat)
    | ReadEnd(t: Tid)

  ghost function Init(words: seq<int>): Lock {
    Lock(0, words, map[], map[], 0, 0, [words])
  }

  function Locked(n: nat): bool { n % 2 == 1 }

  function Plus1(n: nat): nat { if n + 1 == TWO32 then 0 else n + 1 }

  ghost function Taken(s: Lock, t: Tid, seen: nat): Lock {
    s.(seqnum := Plus1(seen), writers := s.writers[t := Writing(Plus1(seen))], begun := s.begun + 1)
  }

  ghost function DoWriter(s: Lock, t: Tid, lucky: bool): Lock
    requires t in s.writers
  {
    match s.writers[t]
    case BeginLoad => s.(writers := s.writers[t := BeginTest(s.seqnum)])
    case BeginTest(seen) =>
      if Locked(seen) then s.(writers := s.writers[t := BeginLoad])
      else if s.seqnum == seen && lucky then Taken(s, t, seen)
      else s.(writers := s.writers[t := BeginTest(s.seqnum)])
    case TryLoad => s.(writers := s.writers[t := TryTest(s.seqnum)])
    case TryTest(seen) =>
      if !Locked(seen) && s.seqnum == seen then Taken(s, t, seen) else s.(writers := s.writers - {t})
    case Writing(_) => s
  }

  /** What read_end returns. */
  ghost predicate Accepts(s: Lock, begin: nat) {
    !Locked(begin) && begin == s.seqnum
  }

  ghost predicate Full(copy: Copy, n: nat) {
    forall k :: 0 <= k < n ==> k in copy
  }

  ghost function DoReader(s: Lock, step: Step): Lock
    requires step.ReadWord? || step.ReadEnd?
    requires step.t in s.readers && s.readers[step.t].Reading?
  {
    var r := s.readers[step.t];
    match step
    case ReadWord(t, k) =>
      if k >= |s.words| then s else s.(readers := s.readers[t := Reading(r.begin, r.copy[k := s.words[k]], r.begun, r.ended)])
    case ReadEnd(t) =>
      if !Full(r.copy, |s.words|) then s
      else s.(readers := s.readers[t := ReadDone(Accepts(s, r.begin), r.copy, r.ended, s.ended, Minus(s.begun, r.begun))])
  }

  function Minus(a: nat, b: nat): nat { if a < b then 0 else a - b }

  ghost function Do(s: Lock, step: Step): Lock {
    match step
    case CallBegin(t) => if t in s.writers then s else s.(writers := s.writers[t := BeginLoad])
    case CallTry(t) => if t in s.writers then s else s.(writers := s.writers[t := TryLoad])
    case WriterStep(t, lucky) => if t in s.writers then DoWriter(s, t, lucky) else s
    case WriteWord(t, k, v) =>
      if t in s.writers && s.writers[t].Writing? && k < |s.words| then s.(words := s.words[k := v]) else s
    case WriteEnd(t) =>
      if t in s.writers && s.writers[t].Writing?
      then s.(seqnum := Plus1(s.writers[t].begin), writers := s.writers - {t}, ended := s.ended + 1,
              payloads := s.payloads + [s.words])
      else s
    case ReadBegin(t) => s.(readers := s.readers[t := Reading(s.seqnum, map[], s.begun, s.ended)])
    case _ => if step.t in s.readers && s.readers[step.t].Reading? then DoReader(s, step) else s
  }

  ghost function Run(words: seq<int>, steps: seq<Step>): Lock
    decreases |steps|
  {
    if steps == [] then Init(words) else Do(Run(words, steps[..|steps| - 1]), steps[|steps| - 1])
  }

  // ---------------------------------------------------------------- what every step keeps

  /** The number is the count of begins and ends, and it is odd exactly during a write. */
  ghost predicate Counted(s: Lock) {
    && s.seqnum == (s.begun + s.ended) % TWO32
    && s.ended <= s.begun <= s.ended + 1
    && |s.payloads| == s.ended + 1 && (forall i :: 0 <= i < |s.payloads| ==> |s.payloads[i]| == |s.words|)
    && (s.begun == s.ended ==> s.words == s.payloads[s.ended])
  }

  ghost predicate Alone(s: Lock) {
    && (forall t :: t in s.writers && s.writers[t].Writing? ==> s.writers[t].begin == s.seqnum && s.begun == s.ended + 1)
    && (forall t, u :: t in s.writers && s.writers[t].Writing? && u in s.writers && s.writers[u].Writing? ==> t == u)
  }

  ghost predicate Copied(copy: Copy, words: seq<int>) {
    forall k :: k in copy ==> k < |words| && copy[k] == words[k]
  }

  ghost predicate ReaderInv(s: Lock, r: Reader) {
    match r
    case Reading(begin, copy, begun, ended) =>
      && begin == (begun + ended) % TWO32 && ended <= begun <= ended + 1
      && begun <= s.begun && ended <= s.ended
      && (s.begun == begun && begun == ended ==> Copied(copy, s.words))
    case ReadDone(ok, copy, from, to, writes) =>
      && from <= to <= s.ended && to < |s.payloads|
      && (ok ==> writes % TWO31 == 0)
      && (ok && writes == 0 ==> from == to && Full(copy, |s.words|) && Copied(copy, s.payloads[to]))
  }

  ghost predicate Readers(s: Lock) {
    forall t :: t in s.readers ==> ReaderInv(s, s.readers[t])
  }

  ghost predicate Inv(s: Lock) {
    Counted(s) && Alone(s) && Readers(s)
  }

  lemma Parity(n: nat)
    ensures Locked(n % TWO32) <==> n % 2 == 1
    ensures Plus1(n % TWO32) == (n + 1) % TWO32
  {
  }

  /** read_end returns true exactly when no write was under way at read_begin, none is now, and the
      number of writes in between is a multiple of 2^31. */
  lemma AcceptsExactly(s: Lock, r: Reader)
    requires Counted(s) && r.Reading? && ReaderInv(s, r)
    ensures Accepts(s, r.begin) <==> r.begun == r.ended && s.begun == s.ended && (s.begun - r.begun) % TWO31 == 0
  {
    Parity(r.begun + r.ended);
    Parity(s.begun + s.ended);
    SameNumber(r.begun, s.begun);
    if r.begun == r.ended && s.begun == s.ended {
      assert r.begun + r.ended == 2 * r.begun && s.begun + s.ended == 2 * s.begun;
    }
  }

  lemma SameNumber(a: nat, b: nat)
    requires a <= b
    ensures (2 * a) % TWO32 == (2 * b) % TWO32 <==> (b - a) % TWO31 == 0
  {
  }

  lemma TakenInv(s: Lock, t: Tid, seen: nat)
    requires Inv(s) && !Locked(seen) && s.seqnum == seen
    ensures Inv(Taken(s, t, seen))
  {
    Parity(s.begun + s.ended);
  }

  lemma WriteEndInv(s: Lock, t: Tid)
    requires Inv(s) && t in s.writers && s.writers[t].Writing?
    ensures Inv(Do(s, WriteEnd(t)))
  {
    Parity(s.begun + s.ended);
  }

  lemma ReadInv(s: Lock, step: Step)
    requires Inv(s) && (step.ReadWord? || step.ReadEnd?)
    ensures Inv(Do(s, step))
  {
    if step.t in s.readers && s.readers[step.t].Reading? {
      AcceptsExactly(s, s.readers[step.t]);
    }
  }

  lemma DoInv(s: Lock, step: Step)
    requires Inv(s)
    ensures Inv(Do(s, step))
  {
    match step
    case WriterStep(t, lucky) =>
      if t in s.writers && (s.writers[t].BeginTest? || s.writers[t].TryTest?) {
        var seen := s.writers[t].seen;
        if !Locked(seen) && s.seqnum == seen { TakenInv(s, t, seen); }
      }
    case WriteEnd(t) => if t in s.writers && s.writers[t].Writing? { WriteEndInv(s, t); }
    case ReadWord(_, _) => ReadInv(s, step);
    case ReadEnd(_) => ReadInv(s, step);
    case _ =>
  }

  lemma {:induction false} RunInv(words: seq<int>, steps: seq<Step>)
    ensures Inv(Run(words, steps)) && |Run(words, steps).words| == |words|
    decreases |steps|
  {
    if steps != [] {
      RunInv(words, steps[..|steps| - 1]);
      DoInv(Run(words, steps[..|steps| - 1]), steps[|steps| - 1]);
    }
  }

  // ---------------------------------------------------------------- what the lock promises

  /** In every run at most one writer is in its section, and the DCHECK in write_end holds of it. */
  lemma OneWriter(words: seq<int>, steps: seq<Step>, t: Tid, u: Tid)
    requires var s := Run(words, steps); t in s.writers && s.writers[t].Writing? && u in s.writers && s.writers[u].Writing?
    ensures t == u && Run(words, steps).writers[t].begin == Run(words, steps).seqnum
  {
    RunInv(words, steps);
  }

  /** In every run, a read that read_end accepts with fewer than 2^31 writes begun during it has
      copied, word for word, the payload of the last write completed before it began, and no
      write was completed before it ended. */
  lemma ReadsAreSnapshots(words: seq<int>, steps: seq<Step>, t: Tid)
    requires var s := Run(words, steps); t in s.readers && s.readers[t].ReadDone?
    requires Run(words, steps).readers[t].ok && Run(words, steps).readers[t].writes < TWO31
    ensures var s := Run(words, steps); var r := s.readers[t];
      && r.from == r.to < |s.payloads| && |s.payloads[r.to]| == |words|
      && forall k :: 0 <= k < |words| ==> k in r.copy && r.copy[k] == s.payloads[r.to][k]
  {
    RunInv(words, steps);
  }

  // ---------------------------------------------------------------- taking the lock

  lemma {:induction false} RunSnoc(words: seq<int>, steps: seq<Step>, step: Step)
    ensures Run(words, steps + [step]) == Do(Run(words, steps), step)
  {
    assert (steps + [step])[..|steps|] == steps;
  }

  lemma OtherStep(s: Lock, step: Step, t: Tid)
    requires !(step.WriterStep? && step.t == t) && t in s.writers && !s.writers[t].Writing?
    ensures var s' := Do(s, step);
      t in s'.writers && s'.writers[t] == s.writers[t] && s'.begun >= s.begun && s'.ended >= s.ended
  {
  }

  /** While others step, a writer's place does not change and the counts do not go down. */
  lemma {:induction false} OthersStep(words: seq<int>, steps: seq<Step>, more: seq<Step>, t: Tid)
    requires forall i :: 0 <= i < |more| ==> !(more[i].WriterStep? && more[i].t == t)
    requires t in Run(words, steps).writers && !Run(words, steps).writers[t].Writing?
    ensures var s, s' := Run(words, steps), Run(words, steps + more);
      t in s'.writers && s'.writers[t] == s.writers[t] && s'.begun >= s.begun && s'.ended >= s.ended
    decreases |more|
  {
    if more == [] {
      assert steps + more == steps;
    } else {
      var n := |more| - 1;
      OthersStep(words, steps, more[..n], t);
      assert steps + more == (steps + more[..n]) + [more[n]];
      RunSnoc(words, steps + more[..n], more[n]);
      OtherStep(Run(words, steps + more[..n]), more[n], t);
    }
  }

  /** The lock is free in both states, with a multiple of 2^31 writes begun in between. */
  ghost predicate FreeAndAlike(s: Lock, s': Lock) {
    s.begun == s.ended && s'.begun == s'.ended && (s'.begun - s.begun) % TWO31 == 0
  }

  lemma SameLoad(s: Lock, s': Lock)
    requires Counted(s) && Counted(s') && s.begun <= s'.begun && s.ended <= s'.ended
    ensures !Locked(s.seqnum) && s'.seqnum == s.seqnum <==> FreeAndAlike(s, s')
  {
    Parity(s.begun + s.ended);
    Parity(s'.begun + s'.ended);
    SameNumber(s.begun, s'.begun);
    assert s.begun == s.ended ==> s.begun + s.ended == 2 * s.begun;
    assert s'.begun == s'.ended ==> s'.begun + s'.ended == 2 * s'.begun;
  }

  /** try_write_begin in any run, loading the number in one state and reaching the swap in a later one:
      it succeeds exactly when the lock was free at the load and is free at the swap, with a multiple of
      2^31 writes in between.  Then the number goes up by one and is what the caller gets; if not, nothing
      changes. */
  lemma {:induction false} TryTakesExactly(words: seq<int>, steps: seq<Step>, more: seq<Step>, t: Tid, lucky: bool,
      s: Lock, s1: Lock)
    requires s == Run(words, steps) && s1 == Run(words, steps + [WriterStep(t, lucky)] + more)
    requires t in s.writers && s.writers[t] == TryLoad
    requires forall i :: 0 <= i < |more| ==> !(more[i].WriterStep? && more[i].t == t)
    ensures var n := (s1.begun + s1.ended + 1) % TWO32;
      Do(s1, WriterStep(t, lucky)) ==
        if FreeAndAlike(s, s1) then s1.(seqnum := n, writers := s1.writers[t := Writing(n)], begun := s1.begun + 1)
        else s1.(writers := s1.writers - {t})
  {
    LoadThenTest(words, steps, more, t, lucky, s, s1);
    Parity(s1.begun + s1.ended);
  }

  lemma BeginTested(s: Lock, s1: Lock, t: Tid, lucky: bool)
    requires Counted(s) && Counted(s1) && t in s1.writers && s1.writers[t] == BeginTest(s.seqnum)
    requires !Locked(s.seqnum) && s1.seqnum == s.seqnum <==> FreeAndAlike(s, s1)
    ensures var n := (s1.begun + s1.ended + 1) % TWO32;
      Do(s1, WriterStep(t, lucky)) ==
        if lucky && FreeAndAlike(s, s1) then s1.(seqnum := n, writers := s1.writers[t := Writing(n)], begun := s1.begun + 1)
        else s1.(writers := s1.writers[t := if s.begun == s.ended then BeginTest(s1.seqnum) else BeginLoad])
  {
    Parity(s.begun + s.ended);
    Parity(s1.begun + s1.ended);
  }

  /** write_begin: the same, but the swap may fail for no reason, and a failure leads to another round
      with the number found then, or a new load if the one loaded was odd. */
  lemma {:induction false} BeginTakesExactly(words: seq<int>, steps: seq<Step>, more: seq<Step>, t: Tid, lucky: bool,
      s: Lock, s1: Lock)
    requires s == Run(words, steps) && s1 == Run(words, steps + [WriterStep(t, lucky)] + more)
    requires t in s.writers && s.writers[t] == BeginLoad
    requires forall i :: 0 <= i < |more| ==> !(more[i].WriterStep? && more[i].t == t)
    ensures var n := (s1.begun + s1.ended + 1) % TWO32;
      Do(s1, WriterStep(t, lucky)) ==
        if lucky && FreeAndAlike(s, s1) then s1.(seqnum := n, writers := s1.writers[t := Writing(n)], begun := s1.begun + 1)
        else s1.(writers := s1.writers[t := if s.begun == s.ended then BeginTest(s1.seqnum) else BeginLoad])
  {
    LoadThenTest(words, steps, more, t, lucky, s, s1);
    BeginTested(s, s1, t, lucky);
  }

  lemma {:induction false} LoadThenTest(words: seq<int>, steps: seq<Step>, more: seq<Step>, t: Tid, lucky: bool,
      s: Lock, s1: Lock)
    requires s == Run(words, steps) && s1 == Run(words, steps + [WriterStep(t, lucky)] + more)
    requires t in s.writers && (s.writers[t] == TryLoad || s.writers[t] == BeginLoad)
    requires forall i :: 0 <= i < |more| ==> !(more[i].WriterStep? && more[i].t == t)
    ensures
      && Counted(s) && Counted(s1) && t in s1.writers
      && s1.writers[t] == (if s.writers[t] == TryLoad then TryTest(s.seqnum) else BeginTest(s.seqnum))
      && (!Locked(s.seqnum) && s1.seqnum == s.seqnum <==> FreeAndAlike(s, s1))
  {
    RunSnoc(words, steps, WriterStep(t, lucky));
    OthersStep(words, steps + [WriterStep(t, lucky)], more, t);
    RunInv(words, steps);
    RunInv(words, steps + [WriterStep(t, lucky)] + more);
    SameLoad(s, s1);
  }

  // ---------------------------------------------------------------- the bound is needed

  /** A reader has copied the first of two words, and n writes have passed. */
  ghost predicate Halfway(s: Lock, n: nat) {
    && Counted(s) && s.begun == s.ended == n && s.writers == map[]
    && s.readers == map[0 := Reading(0, map[0 := 0], 0, 0)]
    && |s.words| == 2 && (n > 0 ==> s.words == [1, 1])
    && forall i :: 0 <= i < |s.payloads| ==> s.payloads[i] == [0, 0] || s.payloads[i] == [1, 1]
  }

  /** The beginning of a write of both words, and its end. */
  lemma {:induction false} WriteStarts(s: Lock, n: nat) returns (s': Lock)
    requires Halfway(s, n)
    ensures s' == Do(Do(Do(s, CallBegin(0)), WriterStep(0, true)), WriterStep(0, true))
    ensures s' == s.(seqnum := s'.seqnum, begun := n + 1, writers := map[0 := Writing(s'.seqnum)])
    ensures s'.seqnum == (n + n + 1) % TWO32
  {
    Parity(n + n);
    var s1 := Do(s, CallBegin(0));
    var s2 := Do(s1, WriterStep(0, true));
    s' := Do(s2, WriterStep(0, true));
    assert s2.writers[0] == BeginTest(s.seqnum) && !Locked(s.seqnum);
    assert s'.writers == map[0 := Writing(s'.seqnum)];
  }

  lemma {:induction false} WriteFinishes(s: Lock, n: nat, s': Lock)
    requires Halfway(s, n) && s'.seqnum == (n + n + 1) % TWO32
    requires s' == s.(seqnum := s'.seqnum, begun := n + 1, writers := map[0 := Writing(s'.seqnum)])
    ensures Halfway(Do(Do(Do(s', WriteWord(0, 0, 1)), WriteWord(0, 1, 1)), WriteEnd(0)), n + 1)
  {
    Parity(n + n + 1);
    var s1 := Do(Do(s', WriteWord(0, 0, 1)), WriteWord(0, 1, 1));
    assert s1.words == [1, 1];
    var s2 := Do(s1, WriteEnd(0));
    assert s2.writers == map[];
  }

  lemma {:induction false} WriteMany(steps: seq<Step>, n: nat) returns (steps': seq<Step>)
    requires Halfway(Run([0, 0], steps), 0)
    ensures Halfway(Run([0, 0], steps'), n)
    decreases n
  {
    steps' := steps;
    if n > 0 {
      steps' := WriteMany(steps, n - 1);
      var s := Run([0, 0], steps');
      var s1 := WriteStarts(s, n - 1);
      WriteFinishes(s, n - 1, s1);
      steps' := Then(steps', CallBegin(0));
      steps' := Then(steps', WriterStep(0, true));
      steps' := Then(steps', WriterStep(0, true));
      steps' := Then(steps', WriteWord(0, 0, 1));
      steps' := Then(steps', WriteWord(0, 1, 1));
      steps' := Then(steps', WriteEnd(0));
    }
  }

  lemma {:induction false} Then(steps: seq<Step>, step: Step) returns (steps': seq<Step>)
    ensures Run([0, 0], steps') == Do(Run([0, 0], steps), step)
  {
    RunSnoc([0, 0], steps, step);
    steps' := steps + [step];
  }

  lemma {:induction false} HalfwayStart() returns (steps: seq<Step>)
    ensures Halfway(Run([0, 0], steps), 0)
  {
    steps := Then([], ReadBegin(0));
    var s := Do(Init([0, 0]), ReadBegin(0));
    assert Run([0, 0], steps) == s && s.readers == map[0 := Reading(0, map[], 0, 0)];
    steps := Then(steps, ReadWord(0, 0));
  }

  /** With any positive multiple of 2^31 writes during a read, read_end may accept a copy that mixes
      two payloads and is equal to none that was ever written. */
  lemma {:induction false} WrapTearsRead(n: nat) returns (steps: seq<Step>)
    requires n > 0 && n % TWO31 == 0
    ensures Torn(Run([0, 0], steps), 0, n)
  {
    steps := HalfwayStart();
    steps := WriteMany(steps, n);
    TornRead(Run([0, 0], steps), n);
    steps := Then(steps, ReadWord(0, 1));
    steps := Then(steps, ReadEnd(0));
  }

  /** Reader t has had a copy accepted, with n writes begun during its read, that differs from every
      payload. */
  ghost predicate Torn(s: Lock, t: Tid, n: nat) {
    && t in s.readers && s.readers[t].ReadDone? && s.readers[t].ok && s.readers[t].writes == n
    && forall i :: 0 <= i < |s.payloads| ==> !Copied(s.readers[t].copy, s.payloads[i])
  }

  lemma TornRead(s: Lock, n: nat)
    requires Halfway(s, n) && n > 0 && n % TWO31 == 0
    ensures Torn(Do(Do(s, ReadWord(0, 1)), ReadEnd(0)), 0, n)
  {
    var s1 := Do(s, ReadWord(0, 1));
    var s2 := Do(s1, ReadEnd(0));
    var copy := s2.readers[0].copy;
    assert 0 in copy && copy[0] == 0 && 1 in copy && copy[1] == 1;
    SameNumber(0, n);
    assert n + n == 2 * n;
    assert s.seqnum == 0;
  }

  ghost predicate CanTear(n: nat) {
    exists words: seq<int>, steps: seq<Step>, t: Tid :: Torn(Run(words, steps), t, n)
  }

  /** Some run has an accepted torn read with n writes begun during it if and only if n is a positive
      multiple of 2^31. */
  lemma {:induction false} TearsExactly(n: nat)
    ensures CanTear(n) <==> n > 0 && n % TWO31 == 0
  {
    if words: seq<int>, steps: seq<Step>, t: Tid :| Torn(Run(words, steps), t, n) {
      RunInv(words, steps);
      assert ReaderInv(Run(words, steps), Run(words, steps).readers[t]);
    }
    if n > 0 && n % TWO31 == 0 {
      var steps := WrapTearsRead(n);
      assert Torn(Run([0, 0], steps), 0, n);
    }
  }
}
