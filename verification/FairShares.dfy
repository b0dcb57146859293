/**
  Turns taken in a circle, as AssignCpu takes them over the CPUs of an enclave.
 */
module FairShares {
  /** The k-th choice is the k-th id, counting round and round. */
  ghost predicate Circular(ids: seq<nat>, chosen: seq<int>) {
    ids != [] && forall k :: 0 <= k < |chosen| ==> chosen[k] == ids[k % |ids|]
  }

  ghost predicate Distinct(ids: seq<nat>) {
    forall i, j :: 0 <= i < j < |ids| ==> ids[i] != ids[j]
  }

  /** Where the iterator is after k choices: at the end is as good as at the beginning. */
  ghost predicate Cursor(n: nat, k: nat, at: nat) {
    n > 0 && (at == k % n || (at == n && k % n == 0))
  }

  lemma NextChoice(ids: seq<nat>, chosen: seq<int>, at: nat)
    requires Circular(ids, chosen) && Cursor(|ids|, |chosen|, at)
    ensures var j := if at == |ids| then 0 else at;
      j < |ids| && Circular(ids, chosen + [ids[j]]) && Cursor(|ids|, |chosen| + 1, j + 1)
  {
    NextRemainder(|chosen|, |ids|);
  }

  lemma NextRemainder(k: nat, n: nat)
    requires n > 0
    ensures (k + 1) % n == if k % n + 1 == n then 0 else k % n + 1
  {
    var q, r := k / n, k % n;
    assert k == q * n + r;
    if r + 1 == n {
      assert (q + 1) * n == q * n + n;
      Quotient(k + 1, q + 1, n, 0);
    } else {
      Quotient(k + 1, q, n, r + 1);
    }
  }

  ghost function Share(chosen: seq<int>, x: int): nat {
    multiset(chosen)[x]
  }

  /** After q rounds and r more choices, the first r ids have had q + 1 turns and the others q. */
  ghost predicate Turns(ids: seq<nat>, chosen: seq<int>, q: nat, r: nat) {
    && |chosen| == q * |ids| + r
    && forall p :: 0 <= p < |ids| ==> Share(chosen, ids[p]) == if p < r then q + 1 else q
  }

  lemma {:induction false} OneTurn(ids: seq<nat>, chosen: seq<int>, q: nat, r: nat)
    requires Distinct(ids) && r < |ids| && Turns(ids, chosen, q, r)
    ensures var q' := if r + 1 == |ids| then q + 1 else q;
      Turns(ids, chosen + [ids[r]], q', if r + 1 == |ids| then 0 else r + 1)
  {
    if r + 1 == |ids| { assert q * |ids| + |ids| == (q + 1) * |ids|; }
  }

  lemma {:induction false} AllTurns(ids: seq<nat>, chosen: seq<int>) returns (q: nat, r: nat)
    requires Circular(ids, chosen) && Distinct(ids)
    ensures r < |ids| && Turns(ids, chosen, q, r)
    decreases |chosen|
  {
    if chosen == [] {
      q, r := 0, 0;
    } else {
      var m := |chosen| - 1;
      q, r := AllTurns(ids, chosen[..m]);
      Quotient(m, q, |ids|, r);
      assert chosen == chosen[..m] + [ids[r]];
      OneTurn(ids, chosen[..m], q, r);
      q, r := if r + 1 == |ids| then q + 1 else q, if r + 1 == |ids| then 0 else r + 1;
    }
  }

  /** Of k choices over n distinct ids, each id gets floor(k/n) or ceil(k/n). */
  lemma FairChoices(ids: seq<nat>, chosen: seq<int>)
    requires Circular(ids, chosen) && Distinct(ids)
    ensures forall x :: x in ids ==> |chosen| / |ids| <= Share(chosen, x) <= (|chosen| + |ids| - 1) / |ids|
    ensures forall x :: x in chosen ==> x in ids
  {
    var q, r := AllTurns(ids, chosen);
    FairShare(|chosen|, q, |ids|, r);
    forall x | x in ids ensures q <= Share(chosen, x) <= if r == 0 then q else q + 1 {
      var p :| 0 <= p < |ids| && ids[p] == x;
    }
  }

  lemma FairShare(k: nat, q: nat, n: nat, r: nat)
    requires k == q * n + r && r < n
    ensures k / n == q && (k + n - 1) / n == if r == 0 then q else q + 1
  {
    Quotient(k, q, n, r);
    if r == 0 {
      Quotient(k + n - 1, q, n, n - 1);
    } else {
      assert (q + 1) * n == q * n + n;
      Quotient(k + n - 1, q + 1, n, r - 1);
    }
  }

  lemma Quotient(k: nat, q: nat, n: nat, r: nat)
    requires k == q * n + r && r < n
    ensures k / n == q && k % n == r
  {
    var d := k / n;
    assert k == d * n + k % n;
    Scaled(d + 1, q, n);
    Scaled(q + 1, d, n);
  }

  lemma Scaled(a: nat, b: nat, n: nat)
    ensures a <= b ==> a * n <= b * n
  {
    if a <= b { assert b * n == a * n + (b - a) * n; }
  }
}
