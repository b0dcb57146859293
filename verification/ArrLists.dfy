/**
  The doubly linked lists of lib/queue.bpf.h, whose links are indices into an array.
  An id is an index plus one, and 0 is no element; slot 0 of the array is not used.
  Several lists may share one array.
 */
module ArrLists {

  type Id = nat

  datatype Entry = Entry(next: Id, prev: Id)

  // ---------------------------------------------------------------- representation

  /** The i-th id of s; 0 before the first and after the last. */
  function At(s: seq<Id>, i: int): Id {
    if 0 <= i < |s| then s[i] else 0
  }

  ghost predicate Distinct(s: seq<Id>, size: nat) {
    && (forall i :: 0 <= i < |s| ==> 0 < s[i] < size)
    && (forall i, j :: 0 <= i < j < |s| ==> s[i] != s[j])
  }

  /** The links of the elements of s, in both directions. */
  ghost predicate Linked(e: seq<Entry>, s: seq<Id>) {
    Distinct(s, |e|) && forall i :: 0 <= i < |s| ==> LinkAt(e, s, i)
  }

  ghost predicate LinkAt(e: seq<Entry>, s: seq<Id>, i: nat) {
    At(s, i) < |e| && e[At(s, i)] == Entry(At(s, i + 1), At(s, i - 1))
  }

  /** A list head with these fields represents s. */
  ghost predicate Listed(e: seq<Entry>, first: Id, last: Id, s: seq<Id>) {
    Linked(e, s) && first == At(s, 0) && last == At(s, |s| - 1)
  }

  /** Nothing but the entries of s, and of id, has changed. */
  ghost predicate Framed(e: seq<Entry>, e': seq<Entry>, s: seq<Id>, id: Id) {
    |e'| == |e| && forall x :: 0 <= x < |e| && x !in s && x != id ==> e'[x] == e[x]
  }

  /** A list that shares the array but no element stays as it is. */
  lemma OtherList(e: seq<Entry>, e': seq<Entry>, s: seq<Id>, id: Id, t: seq<Id>)
    requires Framed(e, e', s, id) && Linked(e, t) && id !in t && forall x :: x in t ==> x !in s
    ensures Linked(e', t)
  {
    forall i | 0 <= i < |t| ensures LinkAt(e', t, i) {
      assert LinkAt(e, t, i);
      var x := t[i];
      assert x in t;
    }
  }

  // ---------------------------------------------------------------- insertion and removal

  function Inserted(s: seq<Id>, k: nat, id: Id): seq<Id>
    requires k <= |s|
  {
    s[..k] + [id] + s[k..]
  }

  function Removed(s: seq<Id>, k: nat): seq<Id>
    requires k < |s|
  {
    s[..k] + s[k + 1..]
  }

  function WithNext(e: seq<Entry>, p: Id, id: Id): (e': seq<Entry>)
    requires p < |e|
    ensures |e'| == |e|
  {
    if p == 0 then e else e[p := e[p].(next := id)]
  }

  function WithPrev(e: seq<Entry>, n: Id, id: Id): (e': seq<Entry>)
    requires n < |e|
    ensures |e'| == |e|
  {
    if n == 0 then e else e[n := e[n].(prev := id)]
  }

  /** id linked between p and n. */
  function Between(e: seq<Entry>, p: Id, id: Id, n: Id): seq<Entry>
    requires p < |e| && id < |e| && n < |e|
  {
    WithPrev(WithNext(e, p, id), n, id)[id := Entry(n, p)]
  }

  /** id unlinked from between p and n. */
  function Bypass(e: seq<Entry>, p: Id, id: Id, n: Id): seq<Entry>
    requires p < |e| && id < |e| && n < |e|
  {
    WithPrev(WithNext(e, p, n), n, p)[id := Entry(0, 0)]
  }

  lemma InsertedAt(s: seq<Id>, k: nat, id: Id, i: int)
    requires k <= |s|
    ensures At(Inserted(s, k, id), i) == if i < k then At(s, i) else if i == k then id else At(s, i - 1)
  {
  }

  lemma RemovedAt(s: seq<Id>, k: nat, i: int)
    requires k < |s|
    ensures At(Removed(s, k), i) == if i < k then At(s, i) else At(s, i + 1)
  {
  }

  lemma AtOnce(s: seq<Id>, size: nat, i: int, j: int)
    requires Distinct(s, size)
    ensures At(s, i) == At(s, j) != 0 ==> i == j
    ensures At(s, i) != 0 <==> 0 <= i < |s|
    ensures size > 0 ==> At(s, i) < size
  {
  }

  lemma InsertedDistinct(s: seq<Id>, size: nat, k: nat, id: Id)
    requires Distinct(s, size) && k <= |s| && 0 < id < size && id !in s
    ensures Distinct(Inserted(s, k, id), size)
  {
  }

  lemma InsertedEntry(e: seq<Entry>, s: seq<Id>, k: nat, id: Id, i: nat)
    requires Linked(e, s) && k <= |s| && 0 < id < |e| && id !in s && i <= |s|
    ensures At(s, k - 1) < |e| && At(s, k) < |e|
    ensures LinkAt(Between(e, At(s, k - 1), id, At(s, k)), Inserted(s, k, id), i)
  {
    InsertedAt(s, k, id, i);
    InsertedAt(s, k, id, i - 1);
    InsertedAt(s, k, id, i + 1);
    AtOnce(s, |e|, k, k - 1);
    AtOnce(s, |e|, k - 1, k);
    if i != k { BetweenEntry(e, s, k, id, if i < k then i else i - 1); }
  }

  /** What linking id in before the k-th element does to the j-th. */
  lemma BetweenEntry(e: seq<Entry>, s: seq<Id>, k: nat, id: Id, j: nat)
    requires Linked(e, s) && k <= |s| && 0 < id < |e| && id !in s && j < |s|
    ensures At(s, k - 1) < |e| && At(s, k) < |e| && 0 < At(s, j) < |e|
    ensures Between(e, At(s, k - 1), id, At(s, k))[At(s, j)]
         == Entry(if j + 1 == k then id else At(s, j + 1), if j == k then id else At(s, j - 1))
  {
    assert LinkAt(e, s, j);
    var x := s[j];
    assert x in s;
    AtOnce(s, |e|, j, k);
    AtOnce(s, |e|, j, k - 1);
    AtOnce(s, |e|, k, k - 1);
  }

  lemma InsertedLinked(e: seq<Entry>, s: seq<Id>, k: nat, id: Id)
    requires Linked(e, s) && k <= |s| && 0 < id < |e| && id !in s
    ensures At(s, k - 1) < |e| && At(s, k) < |e|
    ensures Linked(Between(e, At(s, k - 1), id, At(s, k)), Inserted(s, k, id))
  {
    InsertedDistinct(s, |e|, k, id);
    InsertedEntry(e, s, k, id, 0);
    var e', s' := Between(e, At(s, k - 1), id, At(s, k)), Inserted(s, k, id);
    forall i | 0 <= i < |s'| ensures LinkAt(e', s', i) { InsertedEntry(e, s, k, id, i); }
  }

  lemma RemovedEntry(e: seq<Entry>, s: seq<Id>, k: nat, i: nat)
    requires Linked(e, s) && k < |s| && i < |s| - 1
    ensures At(s, k - 1) < |e| && At(s, k + 1) < |e| && s[k] < |e|
    ensures LinkAt(Bypass(e, At(s, k - 1), s[k], At(s, k + 1)), Removed(s, k), i)
  {
    RemovedAt(s, k, i);
    RemovedAt(s, k, i - 1);
    RemovedAt(s, k, i + 1);
    BypassEntry(e, s, k, if i < k then i else i + 1);
  }

  /** What bypassing the k-th element does to the j-th. */
  lemma BypassEntry(e: seq<Entry>, s: seq<Id>, k: nat, j: nat)
    requires Linked(e, s) && k < |s| && j < |s| && j != k
    ensures At(s, k - 1) < |e| && At(s, k + 1) < |e| && 0 < s[k] < |e| && 0 < At(s, j) < |e|
    ensures Bypass(e, At(s, k - 1), s[k], At(s, k + 1))[At(s, j)]
         == Entry(At(s, if j + 1 == k then j + 2 else j + 1), At(s, if j - 1 == k then j - 2 else j - 1))
  {
    assert LinkAt(e, s, j);
    AtOnce(s, |e|, j, k);
    AtOnce(s, |e|, j, k - 1);
    AtOnce(s, |e|, j, k + 1);
    AtOnce(s, |e|, k - 1, k + 1);
  }

  lemma RemovedLinked(e: seq<Entry>, s: seq<Id>, k: nat)
    requires Linked(e, s) && k < |s|
    ensures At(s, k - 1) < |e| && At(s, k + 1) < |e| && s[k] < |e|
    ensures Linked(Bypass(e, At(s, k - 1), s[k], At(s, k + 1)), Removed(s, k))
  {
    AtOnce(s, |e|, k - 1, k);
    AtOnce(s, |e|, k, k);
    AtOnce(s, |e|, k + 1, k);
    var e', s' := Bypass(e, At(s, k - 1), s[k], At(s, k + 1)), Removed(s, k);
    forall i | 0 <= i < |s'| ensures LinkAt(e', s', i) { RemovedEntry(e, s, k, i); }
  }

  // ---------------------------------------------------------------- the lists

  class Head {
    var first: Id
    var last: Id

    constructor ()
      ensures first == 0 && last == 0
    {
      first, last := 0, 0;
    }
  }

  class Arena {
    const entries: array<Entry>

    ghost predicate Holds(h: Head, s: seq<Id>)
      reads this, entries, h
    {
      entries.Length > 0 && Listed(entries[..], h.first, h.last, s)
    }

    constructor (size: nat)
      ensures fresh(entries) && entries.Length == size + 1
    {
      entries := new Entry[size + 1](i => Entry(0, 0));
    }

    method InsertHead(h: Head, id: Id, ghost s: seq<Id>)
      requires Holds(h, s) && 0 < id < entries.Length && id !in s
      modifies entries, h
      ensures Holds(h, [id] + s) && Framed(old(entries[..]), entries[..], s, id)
    {
      InsertedLinked(entries[..], s, 0, id);
      entries[id] := Entry(h.first, 0);
      if h.first == 0 {
        h.last := id;
      } else {
        entries[h.first] := entries[h.first].(prev := id);
      }
      assert entries[..] == Between(old(entries[..]), 0, id, At(s, 0));
      h.first := id;
      assert Inserted(s, 0, id) == [id] + s;
    }

    method InsertTail(h: Head, id: Id, ghost s: seq<Id>)
      requires Holds(h, s) && 0 < id < entries.Length && id !in s
      modifies entries, h
      ensures Holds(h, s + [id]) && Framed(old(entries[..]), entries[..], s, id)
    {
      InsertedLinked(entries[..], s, |s|, id);
      entries[id] := Entry(0, h.last);
      if h.first == 0 {
        h.first := id;
      } else if h.last != 0 {
        entries[h.last] := entries[h.last].(next := id);
      }
      assert entries[..] == Between(old(entries[..]), At(s, |s| - 1), id, 0);
      h.last := id;
      assert Inserted(s, |s|, id) == s + [id];
    }

    method InsertBefore(h: Head, list: Id, id: Id, ghost s: seq<Id>, ghost k: nat)
      requires Holds(h, s) && 0 < id < entries.Length && id !in s && k < |s| && list == s[k]
      modifies entries, h
      ensures Holds(h, Inserted(s, k, id)) && Framed(old(entries[..]), entries[..], s, id)
    {
      InsertedLinked(entries[..], s, k, id);
      AtOnce(s, entries.Length, k - 1, k);
      AtOnce(s, entries.Length, 0, k);
      assert LinkAt(entries[..], s, k);
      var prev := entries[list].prev;
      if prev != 0 {
        entries[prev] := entries[prev].(next := id);
      }
      entries[id] := Entry(list, entries[list].prev);
      entries[list] := entries[list].(prev := id);
      assert entries[..] == Between(old(entries[..]), At(s, k - 1), id, list);
      if h.first == list {
        h.first := id;
      }
    }

    method InsertAfter(h: Head, list: Id, id: Id, ghost s: seq<Id>, ghost k: nat)
      requires Holds(h, s) && 0 < id < entries.Length && id !in s && k < |s| && list == s[k]
      modifies entries, h
      ensures Holds(h, Inserted(s, k + 1, id)) && Framed(old(entries[..]), entries[..], s, id)
    {
      InsertedLinked(entries[..], s, k + 1, id);
      AtOnce(s, entries.Length, k + 1, k);
      AtOnce(s, entries.Length, |s| - 1, k);
      assert LinkAt(entries[..], s, k);
      var next := entries[list].next;
      if next != 0 {
        entries[next] := entries[next].(prev := id);
      }
      entries[id] := Entry(entries[list].next, list);
      entries[list] := entries[list].(next := id);
      assert entries[..] == Between(old(entries[..]), list, id, At(s, k + 1));
      if h.last == list {
        h.last := id;
      }
    }

    method Remove(h: Head, id: Id, ghost s: seq<Id>, ghost k: nat)
      requires Holds(h, s) && k < |s| && id == s[k]
      modifies entries, h
      ensures Holds(h, Removed(s, k)) && Framed(old(entries[..]), entries[..], s, id)
      ensures entries[id] == Entry(0, 0)
    {
      RemovedLinked(entries[..], s, k);
      RemovedEnds(s, entries.Length, k);
      assert LinkAt(entries[..], s, k);
      var prev := entries[id].prev;
      if prev != 0 {
        entries[prev] := entries[prev].(next := entries[id].next);
      }
      var next := entries[id].next;
      if next != 0 {
        entries[next] := entries[next].(prev := entries[id].prev);
      }
      if h.first == id {
        h.first := entries[id].next;
      }
      if h.last == id {
        h.last := entries[id].prev;
      }
      entries[id] := Entry(0, 0);
      assert entries[..] == Bypass(old(entries[..]), prev, id, next);
    }

    /** The first element leaves; its prev field is 0 already. */
    method PopFirst(h: Head, ghost s: seq<Id>) returns (id: Id)
      requires Holds(h, s)
      modifies entries, h
      ensures id == At(s, 0)
      ensures s == [] ==> Holds(h, []) && entries[..] == old(entries[..])
      ensures s != [] ==> Holds(h, s[1..]) && Framed(old(entries[..]), entries[..], s, id) && entries[id] == Entry(0, 0)
    {
      id := h.first;
      if id != 0 {
        RemovedLinked(entries[..], s, 0);
        RemovedEnds(s, entries.Length, 0);
        assert LinkAt(entries[..], s, 0);
        var next := entries[id].next;
        if next != 0 {
          entries[next] := entries[next].(prev := 0);
        }
        h.first := entries[id].next;
        if h.last == id {
          h.last := 0;
        }
        entries[id] := entries[id].(next := 0);
        assert entries[..] == Bypass(old(entries[..]), 0, id, next);
        assert Removed(s, 0) == s[1..];
      }
    }

    /** Concatenation works exactly when the second list has elements or the first has none.
        Otherwise the first list has lost its tail. */
    method Concat(h1: Head, h2: Head, ghost s1: seq<Id>, ghost s2: seq<Id>)
      requires h1 != h2 && Holds(h1, s1) && Holds(h2, s2) && forall x :: x in s1 ==> x !in s2
      modifies entries, h1, h2
      ensures Holds(h2, [])
      ensures Holds(h1, s1 + s2) <==> s2 != [] || s1 == []
      ensures Framed(old(entries[..]), entries[..], s1 + s2, 0)
      ensures s1 != [] && s2 == [] ==> entries[..] == old(entries[..]) && h1.first == s1[0] && h1.last == 0
    {
      ghost var e, l, f := entries[..], At(s1, |s1| - 1), At(s2, 0);
      ConcatExactly(e, s1, s2);
      JoinedFramed(e, s1, s2);
      if h1.last != 0 {
        entries[h1.last] := entries[h1.last].(next := h2.first);
      }
      if h2.first != 0 {
        entries[h2.first] := entries[h2.first].(prev := h1.last);
      }
      assert entries[..] == Joined(e, l, f);
      if h1.first == 0 {
        h1.first := h2.first;
      }
      h1.last := h2.last;
      h2.first, h2.last := 0, 0;
    }
  }

  /** l and f linked to each other. */
  function Joined(e: seq<Entry>, l: Id, f: Id): seq<Entry>
    requires l < |e| && f < |e|
  {
    WithPrev(WithNext(e, l, f), f, l)
  }

  /** The head that concatenation leaves behind represents s1 + s2 exactly when s2 has elements or
      s1 has none. */
  lemma ConcatExactly(e: seq<Entry>, s1: seq<Id>, s2: seq<Id>)
    requires Linked(e, s1) && Linked(e, s2) && |e| > 0 && forall x :: x in s1 ==> x !in s2
    ensures var l, f := At(s1, |s1| - 1), At(s2, 0);
      && l < |e| && f < |e|
      && (Listed(Joined(e, l, f), if At(s1, 0) == 0 then f else At(s1, 0), At(s2, |s2| - 1), s1 + s2)
          <==> s2 != [] || s1 == [])
      && (s1 != [] && s2 == [] ==> Joined(e, l, f) == e)
  {
    AtOnce(s1, |e|, |s1| - 1, 0);
    AtOnce(s2, |e|, |s2| - 1, 0);
    JoinedLinked(e, s1, s2);
    if s1 != [] { assert LinkAt(e, s1, |s1| - 1); }
  }

  lemma RemovedEnds(s: seq<Id>, size: nat, k: nat)
    requires Distinct(s, size) && k < |s|
    ensures At(Removed(s, k), 0) == if At(s, 0) == s[k] then At(s, k + 1) else At(s, 0)
    ensures At(Removed(s, k), |s| - 2) == if At(s, |s| - 1) == s[k] then At(s, k - 1) else At(s, |s| - 1)
  {
    AtOnce(s, size, 0, k);
    AtOnce(s, size, |s| - 1, k);
    RemovedAt(s, k, 0);
    RemovedAt(s, k, |s| - 2);
  }

  lemma JoinedEntry(e: seq<Entry>, s1: seq<Id>, s2: seq<Id>, i: nat)
    requires Linked(e, s1) && Linked(e, s2) && (forall x :: x in s1 ==> x !in s2) && i < |s1| + |s2|
    ensures var l, f := At(s1, |s1| - 1), At(s2, 0);
      l < |e| && f < |e| && LinkAt(Joined(e, l, f), s1 + s2, i)
  {
    var l, f := At(s1, |s1| - 1), At(s2, 0);
    if i < |s1| {
      assert LinkAt(e, s1, i);
      AtOnce(s1, |e|, i, |s1| - 1);
      var x := s1[i];
      assert x in s1 && (f != 0 ==> f in s2);
    } else {
      assert LinkAt(e, s2, i - |s1|);
      AtOnce(s2, |e|, i - |s1|, 0);
      var x := s2[i - |s1|];
      assert x in s2 && (l != 0 ==> l in s1);
    }
  }

  lemma JoinedLinked(e: seq<Entry>, s1: seq<Id>, s2: seq<Id>)
    requires Linked(e, s1) && Linked(e, s2) && |e| > 0 && forall x :: x in s1 ==> x !in s2
    ensures var l, f := At(s1, |s1| - 1), At(s2, 0);
      l < |e| && f < |e| && Linked(Joined(e, l, f), s1 + s2)
  {
    var l, f := At(s1, |s1| - 1), At(s2, 0);
    var e', s' := Joined(e, l, f), s1 + s2;
    forall i, j | 0 <= i < j < |s'| ensures s'[i] != s'[j] {
      var x, y := s'[i], s'[j];
      if i < |s1| <= j { assert x in s1 && y in s2; }
    }
    forall i | 0 <= i < |s'| ensures LinkAt(e', s', i) { JoinedEntry(e, s1, s2, i); }
  }

  lemma JoinedFramed(e: seq<Entry>, s1: seq<Id>, s2: seq<Id>)
    requires At(s1, |s1| - 1) < |e| && At(s2, 0) < |e|
    ensures var l, f := At(s1, |s1| - 1), At(s2, 0); Framed(e, Joined(e, l, f), s1 + s2, 0)
  {
    var l, f := At(s1, |s1| - 1), At(s2, 0);
    assert (l != 0 ==> l in s1) && (f != 0 ==> f in s2);
  }
}
