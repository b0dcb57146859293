/**
  CPU bitmaps (lib/topology.h, lib/topology.cc): word-level iteration and n-th bit
  selection against the plain set of CPU ids, and the round-robin assignment that
  schedulers/o1 builds on the iterator.
 */
module CpuMaps {
  import opened Bits
  import opened FairShares

  const MAX_CPUS: nat := 512
  const CAPACITY: nat := 8

  datatype Cpu = NoCpu | Cpu(id: nat)

  // ---------------------------------------------------------------- specification

  predicate Holds(words: seq<nat>, id: nat) {
    id / WORD < |words| && Bit(words[id / WORD], id % WORD)
  }

  ghost predicate Words(words: seq<nat>) {
    forall i :: 0 <= i < |words| ==> IsWord(words[i])
  }

  ghost predicate Ascending(s: seq<nat>) {
    forall i, j :: 0 <= i < j < |s| ==> s[i] < s[j]
  }

  /** The ids of a word's set bits from bit b up, when the word starts at id `base`. */
  function WordIds(w: nat, b: nat, base: nat): seq<nat>
    decreases WORD - b, w, base
  {
    if b >= WORD then [] else (if Bit(w, b) then [base + b] else []) + WordIds(w, b + 1, base)
  }

  /** The ids of the words from the i-th on. */
  function Ids(words: seq<nat>, i: nat): seq<nat>
    decreases |words| - i
  {
    if i >= |words| then [] else WordIds(words[i], 0, WORD * i) + Ids(words, i + 1)
  }

  /** The ids from `id` up. */
  function IdsFrom(words: seq<nat>, id: nat): seq<nat> {
    var i := id / WORD;
    if i >= |words| then [] else WordIds(words[i], id % WORD, WORD * i) + Ids(words, i + 1)
  }

  ghost predicate InWord(w: nat, b: nat, base: nat, x: nat) {
    base + b <= x < base + WORD && Bit(w, x - base)
  }

  lemma {:induction false} WordIdsAre(w: nat, b: nat, base: nat)
    ensures Ascending(WordIds(w, b, base)) && forall x :: x in WordIds(w, b, base) <==> InWord(w, b, base, x)
    decreases WORD - b
  {
    if b < WORD {
      var rest := WordIds(w, b + 1, base);
      WordIdsAre(w, b + 1, base);
      AscendingJoin([base + b], rest, base + b + 1);
      forall x ensures x in WordIds(w, b, base) <==> InWord(w, b, base, x) { InWordStep(w, b, base, x); }
    }
  }

  lemma InWordStep(w: nat, b: nat, base: nat, x: nat)
    requires b < WORD
    ensures InWord(w, b, base, x) <==> InWord(w, b + 1, base, x) || (x == base + b && Bit(w, b))
    ensures InWord(w, b + 1, base, x) ==> base + b < x
  {
  }

  lemma HoldsInWord(words: seq<nat>, i: nat, x: nat)
    requires i < |words|
    ensures InWord(words[i], 0, WORD * i, x) <==> WORD * i <= x < WORD * (i + 1) && Holds(words, x)
  {
    if WORD * i <= x < WORD * (i + 1) {
      assert x / WORD == i && x % WORD == x - WORD * i;
    }
  }

  lemma HoldsBelow(words: seq<nat>, x: nat)
    requires Holds(words, x)
    ensures x < WORD * |words|
  {
  }

  ghost predicate Upper(words: seq<nat>, i: nat, x: nat) {
    WORD * i <= x && Holds(words, x)
  }

  /** Ids lists exactly the ids that are set, in ascending order. */
  lemma {:induction false} IdsAre(words: seq<nat>, i: nat)
    ensures Ascending(Ids(words, i)) && forall x :: x in Ids(words, i) <==> Upper(words, i, x)
    decreases |words| - i
  {
    if i < |words| {
      WordIdsAre(words[i], 0, WORD * i);
      IdsAre(words, i + 1);
      AscendingJoin(WordIds(words[i], 0, WORD * i), Ids(words, i + 1), WORD * (i + 1));
      forall x ensures x in Ids(words, i) <==> Upper(words, i, x) { HoldsInWord(words, i, x); }
    } else {
      forall x ensures !Upper(words, i, x) {
        if Upper(words, i, x) { HoldsBelow(words, x); }
      }
    }
  }

  lemma AscendingJoin(a: seq<nat>, b: seq<nat>, bound: nat)
    requires Ascending(a) && Ascending(b) && (forall x :: x in a ==> x < bound) && forall x :: x in b ==> bound <= x
    ensures Ascending(a + b)
  {
    var s := a + b;
    forall i, j | 0 <= i < j < |s| ensures s[i] < s[j] {
      if i < |a| <= j {
        assert a[i] in a && b[j - |a|] in b;
      }
    }
  }

  lemma HasFirst(s: seq<nat>)
    ensures s != [] ==> exists x :: x in s && x == s[0]
  {
    if s != [] {
      var x := s[0];
      assert x in s;
    }
  }

  /** Only one ascending sequence lists a given set. */
  lemma {:induction false} AscendingUnique(s: seq<nat>, t: seq<nat>)
    requires Ascending(s) && Ascending(t) && forall x :: x in s <==> x in t
    ensures s == t
    decreases |s|
  {
    HasFirst(s);
    HasFirst(t);
    if s != [] {
      assert s[0] in s && s[0] in t;
      assert t[0] in t && t[0] in s;
      assert s[0] == t[0];
      forall x ensures x in s[1..] <==> x in t[1..] {
        assert x in s[1..] ==> x in s && x != s[0];
        assert x in t[1..] ==> x in t && x != t[0];
        assert s == [s[0]] + s[1..] && t == [t[0]] + t[1..];
      }
      AscendingUnique(s[1..], t[1..]);
    }
  }

  lemma {:induction false} WordIdsCount(w: nat, b: nat, base: nat)
    ensures |WordIds(w, b, base)| == |set i | i in Members(w) && i >= b|
    decreases WORD - b
  {
    var now := set i | i in Members(w) && i >= b;
    if b < WORD {
      WordIdsCount(w, b + 1, base);
      var later := set i | i in Members(w) && i >= b + 1;
      assert now == if Bit(w, b) then later + {b} else later;
    } else {
      assert now == {};
    }
  }

  lemma PopCountIs(w: nat, base: nat)
    ensures PopCount(w) == |WordIds(w, 0, base)|
  {
    WordIdsCount(w, 0, base);
    assert Members(w) == set i | i in Members(w) && i >= 0;
  }

  lemma InWordMembers(w: nat, base: nat, x: nat)
    ensures InWord(w, 0, base, x) <==> base <= x && x - base in Members(w)
  {
  }

  lemma LowestGone(w: nat, base: nat, x: nat)
    requires IsWord(w) && w != 0
    ensures InWord(And(w, w - 1), 0, base, x) <==> InWord(w, 0, base, x) && x != base + Ctz(w)
    ensures InWord(w, 0, base, x) ==> base + Ctz(w) <= x
    ensures InWord(w, 0, base, base + Ctz(w))
  {
    ClearLowest(w);
    InWordMembers(w, base, base + Ctz(w));
    InWordMembers(w, base, x);
    InWordMembers(And(w, w - 1), base, x);
  }

  /** The lowest bit of a word comes first, and clearing it leaves the others. */
  lemma LowestFirst(w: nat, base: nat)
    requires IsWord(w) && w != 0
    ensures var s := WordIds(w, 0, base); s != [] && s[0] == base + Ctz(w) && WordIds(And(w, w - 1), 0, base) == s[1..]
  {
    forall x: nat { LowestGone(w, base, x); }
    LowestGone(w, base, base);
    LeastFirst(w, And(w, w - 1), base, base + Ctz(w));
  }

  lemma LeastFirst(w: nat, v: nat, base: nat, m: nat)
    requires InWord(w, 0, base, m) && forall x :: InWord(w, 0, base, x) ==> m <= x
    requires forall x :: InWord(v, 0, base, x) <==> InWord(w, 0, base, x) && x != m
    ensures var s := WordIds(w, 0, base); s != [] && s[0] == m && WordIds(v, 0, base) == s[1..]
  {
    WordIdsAre(w, 0, base);
    WordIdsAre(v, 0, base);
    DropFirst(WordIds(w, 0, base), WordIds(v, 0, base), m);
  }

  lemma DropFirst(s: seq<nat>, t: seq<nat>, m: nat)
    requires Ascending(s) && Ascending(t) && m in s && (forall x :: x in s ==> m <= x)
    requires forall x :: x in t <==> x in s && x != m
    ensures s != [] && s[0] == m && t == s[1..]
  {
    var first := s[0];
    assert first in s;
    var tail := s[1..];
    assert s == [first] + tail;
    AscendingUnique(t, tail);
  }

  lemma {:induction false} ZeroWordIds(b: nat, base: nat)
    ensures WordIds(0, b, base) == []
    decreases WORD - b
  {
    if b < WORD {
      BitZero(b);
      ZeroWordIds(b + 1, base);
    }
  }

  /** Masking off the low bits gives the ids from there up. */
  lemma AboveIds(w: nat, k: nat, base: nat)
    ensures WordIds(Above(w, k), 0, base) == WordIds(w, k, base)
  {
    WordIdsAre(Above(w, k), 0, base);
    WordIdsAre(w, k, base);
    forall i: nat { BitAbove(w, k, i); }
    AscendingUnique(WordIds(Above(w, k), 0, base), WordIds(w, k, base));
  }

  // ---------------------------------------------------------------- stepping through the ids

  /** s lists the ids that are set from `id` up. */
  ghost predicate Lists(s: seq<nat>, words: seq<nat>, id: nat) {
    Ascending(s) && forall x: nat :: x in s <==> id <= x && Holds(words, x)
  }

  lemma IdsFromAre(words: seq<nat>, id: nat)
    ensures Lists(IdsFrom(words, id), words, id)
  {
    var i, b := id / WORD, id % WORD;
    if i < |words| {
      SlotLists(words, id, i, b);
    } else {
      forall x: nat ensures !(id <= x && Holds(words, x)) {
        if Holds(words, x) { HoldsBelow(words, x); }
      }
    }
  }

  lemma SlotHas(words: seq<nat>, id: nat, i: nat, b: nat, x: nat)
    requires i < |words| && b < WORD && id == WORD * i + b
    ensures InWord(words[i], b, WORD * i, x) || Upper(words, i + 1, x) <==> id <= x && Holds(words, x)
  {
    HoldsInWord(words, i, x);
  }

  lemma SlotLists(words: seq<nat>, id: nat, i: nat, b: nat)
    requires i < |words| && b < WORD && id == WORD * i + b
    ensures Lists(WordIds(words[i], b, WORD * i) + Ids(words, i + 1), words, id)
  {
    var s, t := WordIds(words[i], b, WORD * i), Ids(words, i + 1);
    WordIdsAre(words[i], b, WORD * i);
    IdsAre(words, i + 1);
    AscendingJoin(s, t, WORD * (i + 1));
    forall x: nat ensures x in s + t <==> id <= x && Holds(words, x) { SlotHas(words, id, i, b, x); }
  }

  lemma IdsList(words: seq<nat>)
    ensures Lists(Ids(words, 0), words, 0)
  {
    IdsAre(words, 0);
    forall x: nat ensures x in Ids(words, 0) <==> Holds(words, x) { assert Upper(words, 0, x) <==> Holds(words, x); }
  }

  lemma OneList(words: seq<nat>, id: nat, s: seq<nat>, t: seq<nat>)
    requires Lists(s, words, id) && Lists(t, words, id)
    ensures s == t
  {
    AscendingUnique(s, t);
  }

  /** After the k-th id come the ids from its successor up. */
  lemma ListsAfter(words: seq<nat>, s: seq<nat>, k: nat)
    requires Lists(s, words, 0) && k < |s|
    ensures Lists(s[k + 1..], words, s[k] + 1)
  {
    forall x: nat ensures x in s[k + 1..] <==> s[k] + 1 <= x && Holds(words, x) {
      if x in s[k + 1..] {
        var j :| 0 <= j < |s[k + 1..]| && s[k + 1..][j] == x;
        assert s[k + 1 + j] == x && x in s;
      }
      if s[k] + 1 <= x && Holds(words, x) {
        var j :| 0 <= j < |s| && s[j] == x;
        assert s[k + 1..][j - k - 1] == x;
      }
    }
  }

  lemma AfterPos(words: seq<nat>, k: nat)
    requires k < |Ids(words, 0)|
    ensures IdsFrom(words, Ids(words, 0)[k] + 1) == Ids(words, 0)[k + 1..]
  {
    var s := Ids(words, 0);
    IdsList(words);
    ListsAfter(words, s, k);
    IdsFromAre(words, s[k] + 1);
    OneList(words, s[k] + 1, IdsFrom(words, s[k] + 1), s[k + 1..]);
  }

  lemma FromStart(words: seq<nat>)
    ensures IdsFrom(words, 0) == Ids(words, 0)
  {
    IdsList(words);
    IdsFromAre(words, 0);
    OneList(words, 0, IdsFrom(words, 0), Ids(words, 0));
  }

  /** The k-th id of the map, or the end. */
  ghost function Pos(words: seq<nat>, k: nat, numCpus: nat): nat {
    if k < |Ids(words, 0)| then Ids(words, 0)[k] else numCpus
  }

  ghost function CpuOf(s: seq<nat>, k: nat): Cpu {
    if k < |s| then Cpu(s[k]) else NoCpu
  }

  lemma SameSlot(x: nat, y: nat)
    ensures x == y <==> x / WORD == y / WORD && x % WORD == y % WORD
  {
  }

  lemma SetHolds(words: seq<nat>, id: nat)
    requires Words(words) && id / WORD < |words|
    ensures var i := id / WORD; var words' := words[i := Or(words[i], Pow2(id % WORD))];
      Words(words') && forall x: nat :: Holds(words', x) <==> Holds(words, x) || x == id
  {
    var i, b := id / WORD, id % WORD;
    Pow2Monotone(b, WORD);
    OrWord(words[i], Pow2(b), WORD);
    forall x: nat ensures Holds(words[i := Or(words[i], Pow2(b))], x) <==> Holds(words, x) || x == id {
      SameSlot(x, id);
      BitOr(words[i], Pow2(b), x % WORD);
      BitPow2(b, x % WORD);
    }
  }

  lemma ClearHolds(words: seq<nat>, id: nat)
    requires Words(words) && id / WORD < |words|
    ensures var i := id / WORD; var words' := words[i := AndNot(words[i], Pow2(id % WORD))];
      Words(words') && forall x: nat :: Holds(words', x) <==> Holds(words, x) && x != id
  {
    var i, b := id / WORD, id % WORD;
    AndNotLess(words[i], Pow2(b));
    forall x: nat ensures Holds(words[i := AndNot(words[i], Pow2(b))], x) <==> Holds(words, x) && x != id {
      SameSlot(x, id);
      BitAndNot(words[i], Pow2(b), x % WORD);
      BitPow2(b, x % WORD);
    }
  }

  lemma OrHolds(a: seq<nat>, b: seq<nat>, c: seq<nat>)
    requires |a| == |b| == |c| && forall k :: 0 <= k < |a| ==> c[k] == Or(a[k], b[k])
    ensures forall x: nat :: Holds(c, x) <==> Holds(a, x) || Holds(b, x)
  {
    forall x: nat ensures Holds(c, x) <==> Holds(a, x) || Holds(b, x) {
      if x / WORD < |a| { BitOr(a[x / WORD], b[x / WORD], x % WORD); }
    }
  }

  lemma AndHolds(a: seq<nat>, b: seq<nat>, c: seq<nat>)
    requires |a| == |b| == |c| && forall k :: 0 <= k < |a| ==> c[k] == And(a[k], b[k])
    ensures forall x: nat :: Holds(c, x) <==> Holds(a, x) && Holds(b, x)
  {
    forall x: nat ensures Holds(c, x) <==> Holds(a, x) && Holds(b, x) {
      if x / WORD < |a| { BitAnd(a[x / WORD], b[x / WORD], x % WORD); }
    }
  }

  lemma AndNotHolds(a: seq<nat>, b: seq<nat>, c: seq<nat>)
    requires |a| == |b| == |c| && forall k :: 0 <= k < |a| ==> c[k] == AndNot(a[k], b[k])
    ensures forall x: nat :: Holds(c, x) <==> Holds(a, x) && !Holds(b, x)
  {
    forall x: nat ensures Holds(c, x) <==> Holds(a, x) && !Holds(b, x) {
      if x / WORD < |a| { BitAndNot(a[x / WORD], b[x / WORD], x % WORD); }
    }
  }

  // ---------------------------------------------------------------- CpuList

  class CpuList {
    const numCpus: nat
    const bitmap: array<nat>

    function MapSize(): nat {
      (numCpus + WORD - 1) / WORD
    }

    /** The constructor's CHECK bounds the map size. */
    ghost predicate Valid()
      reads this, bitmap
    {
      bitmap.Length == CAPACITY && MapSize() <= CAPACITY && Words(bitmap[..])
    }

    ghost function Map(): seq<nat>
      requires Valid()
      reads this, bitmap
    {
      bitmap[..MapSize()]
    }

    /** Only CPUs of the topology are set. */
    ghost predicate InTopology()
      requires Valid()
      reads this, bitmap
    {
      forall x: nat :: Holds(Map(), x) ==> x < numCpus
    }

    constructor (n: nat)
      requires (n + WORD - 1) / WORD <= CAPACITY
      ensures Valid() && InTopology() && numCpus == n && fresh(bitmap) && forall x :: !Holds(bitmap[..], x)
    {
      numCpus := n;
      bitmap := new nat[CAPACITY](i => 0);
      new;
      ZeroWord(0);
      forall b: nat { BitZero(b); }
      assert forall i :: 0 <= i < CAPACITY ==> bitmap[i] == 0;
    }

    method Set(id: nat)
      requires Valid() && id < MAX_CPUS
      modifies bitmap
      ensures Valid() && forall x: nat :: Holds(bitmap[..], x) <==> Holds(old(bitmap[..]), x) || x == id
    {
      var i, b := id / WORD, id % WORD;
      SetHolds(bitmap[..], id);
      bitmap[i] := Or(bitmap[i], Pow2(b));
      assert bitmap[..] == old(bitmap[..])[i := bitmap[i]];
    }

    method Clear(id: nat)
      requires Valid() && id < MAX_CPUS
      modifies bitmap
      ensures Valid() && forall x: nat :: Holds(bitmap[..], x) <==> Holds(old(bitmap[..]), x) && x != id
    {
      var i, b := id / WORD, id % WORD;
      ClearHolds(bitmap[..], id);
      bitmap[i] := AndNot(bitmap[i], Pow2(b));
      assert bitmap[..] == old(bitmap[..])[i := bitmap[i]];
    }

    method IsSet(id: nat) returns (r: bool)
      requires Valid() && id < MAX_CPUS
      ensures r <==> Holds(bitmap[..], id)
    {
      var w, b := bitmap[id / WORD], id % WORD;
      AndBit(w, b);
      return And(w, Pow2(b)) != 0;
    }

    method CountSetCpus() returns (n: nat)
      requires Valid()
      ensures n == |Ids(Map(), 0)|
    {
      n := 0;
      var i := 0;
      while i < MapSize()
        invariant 0 <= i <= MapSize() && n + |Ids(Map(), i)| == |Ids(Map(), 0)|
      {
        PopCountIs(Map()[i], WORD * i);
        n := n + PopCount(bitmap[i]);
        i := i + 1;
      }
    }

    method Empty() returns (r: bool)
      requires Valid()
      ensures r <==> Ids(Map(), 0) == []
    {
      ghost var words := Map();
      for i := 0 to MapSize()
        invariant Ids(words, i) == Ids(words, 0)
      {
        if bitmap[i] != 0 {
          LowestFirst(bitmap[i], WORD * i);
          return false;
        }
        ZeroWordIds(0, WORD * i);
      }
      return true;
    }

    /** The n-th CPU in ascending order, or none. */
    method GetNthCpu(n: nat) returns (cpu: Cpu)
      requires Valid()
      ensures cpu == if n < |Ids(Map(), 0)| then Cpu(Ids(Map(), 0)[n]) else NoCpu
    {
      var left: nat := n;
      var i := 0;
      ghost var words := Map();
      ghost var all := Ids(words, 0);
      while i < MapSize()
        invariant 0 <= i <= |words| && left <= n && n - left <= |all| && all[n - left..] == Ids(words, i)
      {
        var word := bitmap[i];
        var count := PopCount(word);
        PopCountIs(word, WORD * i);
        IdsOfWord(words, i, all, n - left);
        if count > left {
          word := DropLowest(word, left, WORD * i);
          LowestFirst(word, WORD * i);
          return Cpu(i * WORD + Ctz(word));
        }
        left := left - count;
        i := i + 1;
      }
      return NoCpu;
    }

    /** All CPUs, one GetNthCpu at a time. */
    method ToVector() returns (cpus: seq<nat>)
      requires Valid()
      ensures cpus == Ids(Map(), 0)
    {
      cpus := [];
      var size := CountSetCpus();
      for i := 0 to size
        invariant cpus == Ids(Map(), 0)[..i]
      {
        var cpu := GetNthCpu(i);
        cpus := cpus + [cpu.id];
      }
    }

    method Union(src: CpuList)
      requires Valid() && src.Valid()
      modifies bitmap
      ensures Valid() && forall x: nat :: Holds(Map(), x) <==> old(Holds(Map(), x)) || Holds(old(src.bitmap[..])[..MapSize()], x)
    {
      ghost var was, other := bitmap[..], src.bitmap[..];
      for i := 0 to MapSize()
        invariant Words(bitmap[..])
        invariant forall k :: 0 <= k < i ==> bitmap[k] == Or(was[k], other[k])
        invariant forall k :: i <= k < CAPACITY ==> bitmap[k] == was[k] && src.bitmap[k] == other[k]
      {
        OrWord(bitmap[i], src.bitmap[i], WORD);
        bitmap[i] := Or(bitmap[i], src.bitmap[i]);
      }
      OrHolds(was[..MapSize()], other[..MapSize()], Map());
    }

    method Intersection(src: CpuList)
      requires Valid() && src.Valid()
      modifies bitmap
      ensures Valid() && forall x: nat :: Holds(Map(), x) <==> old(Holds(Map(), x)) && Holds(old(src.bitmap[..])[..MapSize()], x)
    {
      ghost var was, other := bitmap[..], src.bitmap[..];
      for i := 0 to MapSize()
        invariant Words(bitmap[..])
        invariant forall k :: 0 <= k < i ==> bitmap[k] == And(was[k], other[k])
        invariant forall k :: i <= k < CAPACITY ==> bitmap[k] == was[k] && src.bitmap[k] == other[k]
      {
        AndLess(bitmap[i], src.bitmap[i]);
        bitmap[i] := And(bitmap[i], src.bitmap[i]);
      }
      AndHolds(was[..MapSize()], other[..MapSize()], Map());
    }

    method Subtract(src: CpuList)
      requires Valid() && src.Valid()
      modifies bitmap
      ensures Valid() && forall x: nat :: Holds(Map(), x) <==> old(Holds(Map(), x)) && !Holds(old(src.bitmap[..])[..MapSize()], x)
    {
      ghost var was, other := bitmap[..], src.bitmap[..];
      for i := 0 to MapSize()
        invariant Words(bitmap[..])
        invariant forall k :: 0 <= k < i ==> bitmap[k] == AndNot(was[k], other[k])
        invariant forall k :: i <= k < CAPACITY ==> bitmap[k] == was[k] && src.bitmap[k] == other[k]
      {
        AndNotLess(bitmap[i], src.bitmap[i]);
        bitmap[i] := AndNot(bitmap[i], src.bitmap[i]);
      }
      AndNotHolds(was[..MapSize()], other[..MapSize()], Map());
    }
  }

  lemma AndBit(w: nat, b: nat)
    requires IsWord(w) && b < WORD
    ensures And(w, Pow2(b)) != 0 <==> Bit(w, b)
  {
    AndLess(w, Pow2(b));
    ZeroWord(And(w, Pow2(b)));
    SetOps(w, Pow2(b));
    forall j: nat { BitPow2(b, j); }
    assert Members(Pow2(b)) == {b};
    assert b in Members(w) <==> Bit(w, b);
    assert Members(w) * {b} == if b in Members(w) then {b} else {};
  }

  lemma {:induction false} IdsOfWord(words: seq<nat>, i: nat, all: seq<nat>, k: nat)
    requires i < |words| && k <= |all| && all[k..] == Ids(words, i)
    ensures var w := WordIds(words[i], 0, WORD * i);
      k + |w| <= |all| && all[k + |w|..] == Ids(words, i + 1) && forall j :: 0 <= j < |w| ==> all[k + j] == w[j]
  {
    Prefix(all, k, WordIds(words[i], 0, WORD * i), Ids(words, i + 1));
  }

  lemma Prefix(all: seq<nat>, k: nat, a: seq<nat>, b: seq<nat>)
    requires k <= |all| && all[k..] == a + b
    ensures k + |a| <= |all| && all[k + |a|..] == b && forall j :: 0 <= j < |a| ==> all[k + j] == a[j]
  {
    assert all[k..][|a|..] == all[k + |a|..];
    assert forall j :: 0 <= j < |a| ==> all[k + j] == all[k..][j];
  }

  /** Clears the n lowest set bits. */
  method DropLowest(w: nat, n: nat, ghost base: nat) returns (word: nat)
    requires IsWord(w) && n < |WordIds(w, 0, base)|
    ensures IsWord(word) && word != 0 && WordIds(word, 0, base) == WordIds(w, 0, base)[n..]
  {
    word := w;
    ghost var s := WordIds(w, 0, base);
    for j := 0 to n
      invariant IsWord(word) && WordIds(word, 0, base) == s[j..]
    {
      ZeroWordIds(0, base);
      LowestFirst(word, base);
      ClearLowest(word);
      word := And(word, word - 1);
    }
    ZeroWordIds(0, base);
  }

  // ---------------------------------------------------------------- the iterator

  class Iter {
    const list: CpuList
    var id: nat
    var cpu: Cpu

    /** The iterator is at the k-th id of the map. */
    ghost predicate At(k: nat)
      reads this, list, list.bitmap
    {
      && list.Valid() && k <= |Ids(list.Map(), 0)|
      && id == Pos(list.Map(), k, list.numCpus) && cpu == CpuOf(Ids(list.Map(), 0), k)
    }

    constructor (m: CpuList, start: nat)
      requires m.Valid() && m.InTopology()
      ensures list == m
      ensures start == 0 ==> At(0)
      ensures start == m.numCpus ==> At(|Ids(m.Map(), 0)|)
    {
      list, id := m, start;
      new;
      FindNextSetBit();
      FromStart(m.Map());
      if start == m.numCpus { NothingAbove(m.Map(), start); }
    }

    /** Stops at the first id that is set from `id` up, or at the end. */
    method FindNextSetBit()
      requires list.Valid()
      modifies this
      ensures var s := IdsFrom(list.Map(), old(id));
        id == (if s == [] then list.numCpus else s[0]) && cpu == CpuOf(s, 0)
    {
      var i, offset := id / WORD, id % WORD;
      ghost var words := list.Map();
      if i < list.MapSize() {
        var word := Above(list.bitmap[i], offset);
        AboveIds(list.bitmap[i], offset, WORD * i);
        AboveLess(list.bitmap[i], offset);
        while i < list.MapSize()
          invariant 0 <= i <= |words| && IsWord(word) && id == old(id)
          invariant i < |words| ==> WordIds(word, 0, WORD * i) + Ids(words, i + 1) == IdsFrom(words, id)
          invariant i == |words| ==> IdsFrom(words, id) == []
        {
          if word != 0 {
            LowestFirst(word, WORD * i);
            id := i * WORD + Ctz(word);
            cpu := Cpu(id);
            return;
          }
          ZeroWordIds(0, WORD * i);
          i := i + 1;
          if i < list.MapSize() {
            word := list.bitmap[i];
          }
        }
      }
      id, cpu := list.numCpus, NoCpu;
    }

    /** operator++(int) */
    method Next(ghost k: nat) returns (was: Cpu)
      requires At(k) && k < |Ids(list.Map(), 0)|
      modifies this
      ensures At(k + 1) && was == Cpu(Ids(list.Map(), 0)[k])
    {
      ghost var words := list.Map();
      AfterPos(words, k);
      was := cpu;
      id := id + 1;
      FindNextSetBit();
    }
  }

  lemma NothingAbove(words: seq<nat>, n: nat)
    requires forall x: nat :: Holds(words, x) ==> x < n
    ensures IdsFrom(words, n) == []
  {
    IdsFromAre(words, n);
    HasFirst(IdsFrom(words, n));
  }

  lemma BelowEnd(words: seq<nat>, n: nat)
    requires forall x: nat :: Holds(words, x) ==> x < n
    ensures forall k :: 0 <= k < |Ids(words, 0)| ==> Ids(words, 0)[k] < n
  {
    IdsAre(words, 0);
    forall k | 0 <= k < |Ids(words, 0)| ensures Ids(words, 0)[k] < n {
      var x := Ids(words, 0)[k];
      assert x in Ids(words, 0);
      assert Upper(words, 0, x);
    }
  }

  /** for (const Cpu& cpu : map): exactly the ids that are set, in ascending order, and the same
      as GetNthCpu(0), GetNthCpu(1) and so on. */
  method Visit(m: CpuList) returns (visited: seq<nat>)
    requires m.Valid() && m.InTopology()
    ensures visited == Ids(m.Map(), 0)
    ensures Ascending(visited) && forall x: nat :: x in visited <==> Holds(m.Map(), x)
  {
    visited := [];
    var it := new Iter(m, 0);
    var end := new Iter(m, m.numCpus);
    ghost var words := m.Map();
    BelowEnd(words, m.numCpus);
    IdsList(words);
    while it.id != end.id
      invariant it.list == m && it.At(|visited|) && end.At(|Ids(words, 0)|) && m.Map() == words
      invariant visited == Ids(words, 0)[..|visited|]
      decreases |Ids(words, 0)| - |visited|
    {
      var cpu := it.Next(|visited|);
      visited := visited + [cpu.id];
    }
  }

  // ---------------------------------------------------------------- round robin

  /** The static iterators of AssignCpu. */
  class RoundRobin {
    const list: CpuList
    const begin: Iter
    const end: Iter
    const next: Iter

    /** The next call gives out the k-th CPU, or the first one when k is the end. */
    ghost predicate At(k: nat)
      reads this, list, list.bitmap, begin, end, next
    {
      && list.Valid() && list.InTopology() && next != begin && next != end
      && begin.list == list && end.list == list && next.list == list
      && begin.At(0) && end.At(|Ids(list.Map(), 0)|) && next.At(k)
    }

    constructor (m: CpuList)
      requires m.Valid() && m.InTopology()
      ensures list == m && At(|Ids(m.Map(), 0)|) && fresh(next)
    {
      var b := new Iter(m, 0);
      var e := new Iter(m, m.numCpus);
      var n := new Iter(m, m.numCpus);
      list, begin, end, next := m, b, e, n;
    }

    method AssignCpu(ghost k: nat) returns (cpu: Cpu, ghost j: nat)
      requires At(k) && Ids(list.Map(), 0) != []
      modifies next
      ensures j == if k == |Ids(list.Map(), 0)| then 0 else k
      ensures j < |Ids(list.Map(), 0)| && cpu == Cpu(Ids(list.Map(), 0)[j]) && At(j + 1)
    {
      BelowEnd(list.Map(), list.numCpus);
      j := k;
      if next.id == end.id {
        next.id, next.cpu := begin.id, begin.cpu;
        j := 0;
      }
      cpu := next.Next(j);
    }
  }

  /** The k-th call chooses the k-th id, counting round and round; so after any k calls over n CPUs each
      has been chosen floor(k/n) or ceil(k/n) times, and nothing else has been chosen. */
  method AssignMany(m: CpuList, k: nat) returns (chosen: seq<nat>)
    requires m.Valid() && m.InTopology() && Ids(m.Map(), 0) != []
    ensures var ids := Ids(m.Map(), 0); var n := |ids|;
      && |chosen| == k && Circular(ids, chosen)
      && (forall x :: x in chosen ==> x in ids)
      && forall x :: x in ids ==> k / n <= Share(chosen, x) <= (k + n - 1) / n
  {
    var rr := new RoundRobin(m);
    ghost var ids := Ids(m.Map(), 0);
    ghost var at: nat := |ids|;
    chosen := [];
    for i := 0 to k
      invariant rr.list == m && m.Valid() && Ids(m.Map(), 0) == ids && rr.At(at) && fresh(rr.next)
      invariant |chosen| == i && Circular(ids, chosen) && Cursor(|ids|, i, at)
    {
      NextChoice(ids, chosen, at);
      var cpu;
      cpu, at := rr.AssignCpu(at);
      chosen := chosen + [cpu.id];
      at := at + 1;
    }
    IdsAre(m.Map(), 0);
    FairChoices(ids, chosen);
  }
}
