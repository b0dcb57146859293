/**
  Unsigned machine words as natural numbers, with the bitwise operators of C defined
  bit by bit, and the sets of bit positions they stand for.
 */
module Bits {

  const WORD: nat := 64

  /** (w >> i) & 1 */
  predicate Bit(w: nat, i: nat)
    decreases i
  {
    if i == 0 then w % 2 == 1 else Bit(w / 2, i - 1)
  }

  /** 1ULL << i */
  function Pow2(i: nat): (r: nat)
    ensures r >= 1
  {
    if i == 0 then 1 else 2 * Pow2(i - 1)
  }

  /** v | w */
  function Or(v: nat, w: nat): nat
    decreases v + w
  {
    if v == 0 then w else if w == 0 then v
    else 2 * Or(v / 2, w / 2) + (if v % 2 == 1 || w % 2 == 1 then 1 else 0)
  }

  /** v & w */
  function And(v: nat, w: nat): nat
    decreases v
  {
    if v == 0 || w == 0 then 0
    else 2 * And(v / 2, w / 2) + (if v % 2 == 1 && w % 2 == 1 then 1 else 0)
  }

  /** v & ~w */
  function AndNot(v: nat, w: nat): nat
    decreases v
  {
    if v == 0 then 0
    else 2 * AndNot(v / 2, w / 2) + (if v % 2 == 1 && w % 2 == 0 then 1 else 0)
  }

  /** w & (~0ULL << k) */
  function Above(w: nat, k: nat): nat
    decreases k
  {
    if k == 0 then w else 2 * Above(w / 2, k - 1)
  }

  /** The positions of the set bits of a 64-bit word. */
  function Members(w: nat): set<nat> {
    set i: nat | i < WORD && Bit(w, i)
  }

  predicate IsWord(w: nat) { w < Pow2(WORD) }

  // ---------------------------------------------------------------- bit by bit

  lemma {:induction false} BitZero(i: nat)
    ensures !Bit(0, i)
    decreases i
  {
    if i > 0 { BitZero(i - 1); }
  }

  lemma {:induction false} BitOr(v: nat, w: nat, i: nat)
    ensures Bit(Or(v, w), i) <==> Bit(v, i) || Bit(w, i)
    decreases i
  {
    BitZero(i);
    if i > 0 && v > 0 && w > 0 { BitOr(v / 2, w / 2, i - 1); }
  }

  lemma {:induction false} BitAnd(v: nat, w: nat, i: nat)
    ensures Bit(And(v, w), i) <==> Bit(v, i) && Bit(w, i)
    decreases i
  {
    BitZero(i);
    if i > 0 && v > 0 && w > 0 { BitAnd(v / 2, w / 2, i - 1); }
  }

  lemma {:induction false} BitAndNot(v: nat, w: nat, i: nat)
    ensures Bit(AndNot(v, w), i) <==> Bit(v, i) && !Bit(w, i)
    decreases i
  {
    BitZero(i);
    if i > 0 && v > 0 { BitAndNot(v / 2, w / 2, i - 1); }
  }

  lemma {:induction false} BitPow2(i: nat, j: nat)
    ensures Bit(Pow2(i), j) <==> i == j
    decreases i
  {
    if i == 0 {
      BitZero(j);
      if j > 0 { BitZero(j - 1); }
    } else if j > 0 {
      BitPow2(i - 1, j - 1);
    }
  }

  lemma {:induction false} BitAbove(w: nat, k: nat, i: nat)
    ensures Bit(Above(w, k), i) <==> i >= k && Bit(w, i)
    decreases k
  {
    if k > 0 && i > 0 { BitAbove(w / 2, k - 1, i - 1); }
  }

  // ---------------------------------------------------------------- as sets

  lemma SetOps(v: nat, w: nat)
    ensures Members(Or(v, w)) == Members(v) + Members(w)
    ensures Members(And(v, w)) == Members(v) * Members(w)
    ensures Members(AndNot(v, w)) == Members(v) - Members(w)
  {
    forall i: nat { BitOr(v, w, i); }
    forall i: nat { BitAnd(v, w, i); }
    forall i: nat { BitAndNot(v, w, i); }
  }

  /** w |= 1ULL << i and w &= ~(1ULL << i) */
  lemma SetBit(w: nat, i: nat)
    requires i < WORD
    ensures Members(Or(w, Pow2(i))) == Members(w) + {i}
    ensures Members(AndNot(w, Pow2(i))) == Members(w) - {i}
  {
    SetOps(w, Pow2(i));
    forall j: nat { BitPow2(i, j); }
    assert Members(Pow2(i)) == {i};
  }

  lemma {:induction false} AllClear(w: nat, n: nat)
    requires w < Pow2(n) && forall i: nat :: i < n ==> !Bit(w, i)
    ensures w == 0
    decreases n
  {
    if n > 0 {
      assert !Bit(w, 0);
      forall i: nat | i < n - 1 ensures !Bit(w / 2, i) { assert !Bit(w, i + 1); }
      AllClear(w / 2, n - 1);
    }
  }

  /** A word is zero exactly when no bit is set. */
  lemma ZeroWord(w: nat)
    requires IsWord(w)
    ensures w == 0 <==> Members(w) == {}
  {
    if w == 0 {
      forall i: nat { BitZero(i); }
    }
    if Members(w) == {} {
      forall i: nat | i < WORD ensures !Bit(w, i) { assert i !in Members(w); }
      AllClear(w, WORD);
    }
  }

  lemma {:induction false} OrWord(v: nat, w: nat, n: nat)
    requires v < Pow2(n) && w < Pow2(n)
    ensures Or(v, w) < Pow2(n)
    decreases n
  {
    if v > 0 && w > 0 { OrWord(v / 2, w / 2, n - 1); }
  }

  lemma {:induction false} AndNotLess(v: nat, w: nat)
    ensures AndNot(v, w) <= v
    decreases v
  {
    if v > 0 { AndNotLess(v / 2, w / 2); }
  }

  lemma {:induction false} AndLess(v: nat, w: nat)
    ensures And(v, w) <= v
    decreases v
  {
    if v > 0 && w > 0 { AndLess(v / 2, w / 2); }
  }

  lemma {:induction false} AboveLess(w: nat, k: nat)
    ensures Above(w, k) <= w
    decreases k
  {
    if k > 0 { AboveLess(w / 2, k - 1); }
  }

  lemma {:induction false} Pow2Monotone(i: nat, j: nat)
    requires i < j
    ensures Pow2(i) < Pow2(j)
    decreases j
  {
    if i < j - 1 { Pow2Monotone(i, j - 1); }
  }

  // ---------------------------------------------------------------- builtins

  function CtzFrom(w: nat, i: nat): (r: nat)
    requires exists j: nat :: i <= j < WORD && Bit(w, j)
    ensures i <= r < WORD && Bit(w, r) && forall j: nat :: i <= j < r ==> !Bit(w, j)
    decreases WORD - i
  {
    if Bit(w, i) then i else CtzFrom(w, i + 1)
  }

  /** __builtin_ctzll: the position of the lowest set bit. */
  function Ctz(w: nat): (r: nat)
    requires IsWord(w) && w != 0
    ensures r in Members(w) && forall j :: j in Members(w) ==> r <= j
  {
    ZeroWord(w);
    assert exists j: nat :: 0 <= j < WORD && Bit(w, j) by {
      var j :| j in Members(w);
    }
    CtzFrom(w, 0)
  }

  /** absl::popcount */
  function PopCount(w: nat): nat {
    |Members(w)|
  }

  /** w & (w - 1): only the lowest set bit r goes. */
  lemma {:induction false} ClearLowestBit(w: nat, r: nat, i: nat)
    requires w > 0 && Bit(w, r) && forall j: nat :: j < r ==> !Bit(w, j)
    ensures Bit(And(w, w - 1), i) <==> Bit(w, i) && i != r
    decreases r
  {
    if r == 0 {
      BitAnd(w, w - 1, i);
      if i > 0 { assert (w - 1) / 2 == w / 2; }
    } else {
      assert !Bit(w, 0);
      assert (w - 1) / 2 == w / 2 - 1 && w - 1 > 0;
      forall j: nat | j < r - 1 ensures !Bit(w / 2, j) { assert !Bit(w, j + 1); }
      assert And(w, w - 1) == 2 * And(w / 2, w / 2 - 1);
      if i > 0 { ClearLowestBit(w / 2, r - 1, i - 1); }
    }
  }

  lemma ClearLowest(w: nat)
    requires IsWord(w) && w != 0
    ensures Members(And(w, w - 1)) == Members(w) - {Ctz(w)} && IsWord(And(w, w - 1))
  {
    var r := Ctz(w);
    forall j: nat | j < r ensures !Bit(w, j) { assert j !in Members(w); }
    forall i: nat { ClearLowestBit(w, r, i); }
    AndLess(w, w - 1);
  }
}
