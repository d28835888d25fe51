/** Unsigned machine words as bit masks over queue slots. A word of width n is its
    n bits, most significant first, so slot i of the queue is element i: the bit the
    source writes 1ull << (63 - i) when n is 64. The arithmetic the source performs on
    words (clearing the lowest set bit with x & (x - 1)) is defined on the bits and tied
    to the number the word denotes. */
module Masks {

  type Mask = seq<bool>

  function Zeros(n: nat): Mask {
    seq(n, i => false)
  }

  function Flag(n: nat, i: nat): Mask
    requires i < n
  {
    Zeros(n)[i := true]
  }

  function Or(x: Mask, y: Mask): Mask
    requires |x| == |y|
  {
    seq(|x|, i requires 0 <= i < |x| => x[i] || y[i])
  }

  function And(x: Mask, y: Mask): Mask
    requires |x| == |y|
  {
    seq(|x|, i requires 0 <= i < |x| => x[i] && y[i])
  }

  function Not(x: Mask): Mask {
    seq(|x|, i requires 0 <= i < |x| => !x[i])
  }

  predicate NonZero(x: Mask) {
    exists i :: 0 <= i < |x| && x[i]
  }

  /** x - 1, wrapping at zero: the borrow runs through the low zero bits. */
  function Decrement(x: Mask): (y: Mask)
    ensures |y| == |x|
  {
    if x == [] then []
    else
      var n := |x| - 1;
      if x[n] then x[..n] + [false] else Decrement(x[..n]) + [true]
  }

  /** Number of leading zeros: |x| for the zero word, where the builtin is undefined
      and the source never uses its result. */
  function LeadingZeros(x: Mask): nat {
    if x == [] || x[0] then 0 else 1 + LeadingZeros(x[1..])
  }

  /** The slots whose bit is set. */
  ghost function Members(x: Mask): set<nat> {
    set i: nat | i < |x| && x[i]
  }

  // ------------------------------------------------------- words as numbers

  function Pow2(n: nat): (p: nat)
    ensures p > 0
  {
    if n == 0 then 1 else 2 * Pow2(n - 1)
  }

  function Value(x: Mask): nat {
    if x == [] then 0
    else 2 * Value(x[..|x| - 1]) + (if x[|x| - 1] then 1 else 0)
  }

  lemma {:induction false} ValueZero(x: Mask)
    ensures Value(x) == 0 <==> !NonZero(x)
  {
    if x != [] {
      var n := |x| - 1;
      ValueZero(x[..n]);
      if NonZero(x[..n]) {
        var i :| 0 <= i < n && x[..n][i];
        assert x[i];
      }
    }
  }

  /** Slot i of an n-bit word is the power 2^(n - 1 - i), as in 1ull << (63 - i). */
  lemma {:induction false} FlagValue(n: nat, i: nat)
    requires i < n
    ensures Value(Flag(n, i)) == Pow2(n - 1 - i)
    decreases n
  {
    var f := Flag(n, i);
    if i == n - 1 {
      assert !NonZero(f[..n - 1]);
      ValueZero(f[..n - 1]);
    } else {
      assert f[..n - 1] == Flag(n - 1, i);
      FlagValue(n - 1, i);
    }
  }

  /** The borrow chain is subtraction of one modulo 2^n. */
  lemma {:induction false} DecrementValue(x: Mask)
    ensures Value(Decrement(x)) == (if Value(x) > 0 then Value(x) else Pow2(|x|)) - 1
  {
    if x != [] {
      var n := |x| - 1;
      var y := Decrement(x);
      if x[n] {
        assert y[..n] == x[..n];
      } else {
        DecrementValue(x[..n]);
        assert y[..n] == Decrement(x[..n]);
      }
    }
  }

  // ------------------------------------------------------ words as slot sets

  lemma {:induction false} LeadingZerosLeast(x: Mask)
    ensures NonZero(x) ==> LeadingZeros(x) < |x| && x[LeadingZeros(x)]
    ensures LeadingZeros(x) <= |x|
    ensures forall j :: 0 <= j < LeadingZeros(x) ==> !x[j]
  {
    if x != [] && !x[0] {
      LeadingZerosLeast(x[1..]);
      forall j | 0 <= j < LeadingZeros(x)
        ensures !x[j]
      {
        if j > 0 { assert x[j] == x[1..][j - 1]; }
      }
      if NonZero(x) {
        var i :| 0 <= i < |x| && x[i];
        assert x[1..][i - 1];
      }
    }
  }

  /** x & (x - 1) removes the lowest set bit, the greatest slot, and nothing else. */
  lemma {:induction false} DropLowest(x: Mask) returns (i: nat)
    requires NonZero(x)
    ensures i < |x| && x[i] && And(x, Decrement(x)) == x[i := false]
    ensures forall j :: i < j < |x| ==> !x[j]
  {
    var n := |x| - 1;
    if x[n] {
      i := n;
    } else {
      var k :| 0 <= k < |x| && x[k];
      assert x[..n][k];
      i := DropLowest(x[..n]);
      forall k | 0 <= k < |x|
        ensures And(x, Decrement(x))[k] == x[i := false][k]
      {
        if k < n { assert And(x[..n], Decrement(x[..n]))[k] == x[..n][i := false][k]; }
      }
    }
  }

  lemma {:induction false} MembersOps(x: Mask, y: Mask)
    requires |x| == |y|
    ensures Members(Or(x, y)) == Members(x) + Members(y)
    ensures Members(And(x, y)) == Members(x) * Members(y)
    ensures forall i: nat | i < |x| :: i in Members(Not(x)) <==> i !in Members(x)
    ensures NonZero(x) <==> Members(x) != {}
  {
    if NonZero(x) {
      var i :| 0 <= i < |x| && x[i];
      assert i in Members(x);
    }
  }

  lemma {:induction false} SetAndClear(x: Mask, i: nat)
    requires i < |x|
    ensures Or(x, Flag(|x|, i)) == x[i := true]
    ensures And(x, Not(Flag(|x|, i))) == x[i := false]
    ensures Members(x[i := true]) == Members(x) + {i}
    ensures Members(x[i := false]) == Members(x) - {i}
  {
  }

  lemma {:induction false} SubsetSize(s: set<nat>, n: nat)
    requires forall i | i in s :: i < n
    ensures |s| <= n
    ensures |s| == n ==> forall i: nat | i < n :: i in s
    decreases n
  {
    if n > 0 {
      var t := s - {n - 1};
      SubsetSize(t, n - 1);
      assert s == if n - 1 in s then t + {n - 1} else t;
    } else {
      assert s == {};
    }
  }

  /** popcount_4: clear the lowest set bit until nothing is left. */
  method PopCount4(mask: Mask) returns (count: nat)
    ensures count == |Members(mask)|
  {
    var x := mask;
    count := 0;
    MembersOps(x, x);
    while NonZero(x)
      invariant |x| == |mask|
      invariant count + |Members(x)| == |Members(mask)|
      invariant NonZero(x) <==> Members(x) != {}
      decreases |Members(x)|
    {
      ghost var i := DropLowest(x);
      SetAndClear(x, i);
      x := And(x, Decrement(x));
      MembersOps(x, x);
      count := count + 1;
    }
  }
}
