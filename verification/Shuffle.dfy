/** The inside-out shuffle as arithmetic on positions: step i takes a choice r in [0, i],
    moves the element at r to the new end, and puts element i at r. */
module Shuffle {

  /** One choice per step, step k + 1 choosing among k + 2 positions. */
  predicate Choices(rs: seq<nat>) {
    forall k :: 0 <= k < |rs| ==> rs[k] <= k + 1
  }

  /** Position k of the shuffled list holds original element Order(rs)[k]. */
  function Order(rs: seq<nat>): (p: seq<nat>)
    requires Choices(rs)
    ensures |p| == |rs| + 1
  {
    if rs == [] then [0]
    else
      var i := |rs|;
      Insert(Order(rs[..i - 1]), rs[i - 1])
  }

  function Insert(p: seq<nat>, r: nat): (q: seq<nat>)
    requires r <= |p|
    ensures |q| == |p| + 1
  {
    if r == |p| then p + [|p|] else (p + [p[r]])[r := |p|]
  }

  /** p lists 0, ..., |p| - 1, each once. */
  ghost predicate Permutation(p: seq<nat>) {
    && (forall k :: 0 <= k < |p| ==> p[k] < |p|)
    && (forall j, k :: 0 <= j < k < |p| ==> p[j] != p[k])
  }

  lemma {:induction false} IndexSet(n: nat) returns (s: set<nat>)
    ensures |s| == n && forall k: nat :: k in s <==> k < n
  {
    if n == 0 {
      s := {};
    } else {
      var t := IndexSet(n - 1);
      s := t + {n - 1};
    }
  }

  lemma {:induction false} DistinctCount(p: seq<nat>, s: set<nat>)
    requires forall j, k :: 0 <= j < k < |p| ==> p[j] != p[k]
    requires forall k :: 0 <= k < |p| ==> p[k] in s
    requires |p| == |s|
    ensures forall x | x in s :: x in p
  {
    if p == [] {
      assert s == {};
    } else {
      var q := p[1..];
      assert forall k :: 0 <= k < |q| ==> q[k] == p[k + 1];
      DistinctCount(q, s - {p[0]});
      forall x | x in s
        ensures x in p
      {
        if x != p[0] { assert x in q; }
      }
    }
  }

  /** A permutation leaves no element out. */
  lemma {:induction false} PermutationCovers(p: seq<nat>, x: nat)
    requires Permutation(p) && x < |p|
    ensures x in p
  {
    var s := IndexSet(|p|);
    DistinctCount(p, s);
  }

  /** Every shuffle is a permutation. */
  lemma {:induction false} OrderIsPermutation(rs: seq<nat>)
    requires Choices(rs)
    ensures Permutation(Order(rs))
  {
    if rs != [] {
      OrderIsPermutation(rs[..|rs| - 1]);
    }
  }

  function Find(p: seq<nat>, x: nat): (r: nat)
    requires x in p
    ensures r < |p| && p[r] == x
  {
    if p[0] == x then 0 else 1 + Find(p[1..], x)
  }

  /** Undo the last step: the choice was the place of the last element. */
  function Remove(p: seq<nat>, r: nat): (q: seq<nat>)
    requires r < |p|
    ensures |q| == |p| - 1
  {
    p[r := p[|p| - 1]][..|p| - 1]
  }

  lemma {:induction false} RemoveInsert(p: seq<nat>)
    requires Permutation(p) && |p| > 1
    ensures |p| - 1 in p
    ensures var r := Find(p, |p| - 1); Permutation(Remove(p, r)) && Insert(Remove(p, r), r) == p
  {
    PermutationCovers(p, |p| - 1);
  }

  lemma {:induction false} InsertRemove(p: seq<nat>, r: nat)
    requires Permutation(p) && r <= |p|
    ensures |p| in Insert(p, r) && Find(Insert(p, r), |p|) == r
    ensures Remove(Insert(p, r), r) == p
  {
    assert Insert(p, r)[r] == |p|;
  }

  /** The choices that produce a given permutation. */
  ghost function ChoicesFor(p: seq<nat>): (rs: seq<nat>)
    requires Permutation(p) && p != []
    ensures |rs| == |p| - 1 && Choices(rs)
    decreases |p|
  {
    if |p| == 1 then []
    else
      RemoveInsert(p);
      var r := Find(p, |p| - 1);
      ChoicesFor(Remove(p, r)) + [r]
  }

  /** Every permutation is reached. */
  lemma {:induction false} EveryPermutationReached(p: seq<nat>)
    requires Permutation(p) && p != []
    ensures Order(ChoicesFor(p)) == p
    decreases |p|
  {
    if |p| == 1 {
      assert p == [0];
    } else {
      RemoveInsert(p);
      var r := Find(p, |p| - 1);
      var rs := ChoicesFor(p);
      EveryPermutationReached(Remove(p, r));
      assert rs[..|rs| - 1] == ChoicesFor(Remove(p, r));
    }
  }

  /** The choices can be read back off the result. */
  lemma {:induction false} ChoicesRecovered(rs: seq<nat>)
    requires Choices(rs)
    ensures Permutation(Order(rs)) && ChoicesFor(Order(rs)) == rs
  {
    OrderIsPermutation(rs);
    if rs != [] {
      var n := |rs|;
      var p := Order(rs[..n - 1]);
      ChoicesRecovered(rs[..n - 1]);
      InsertRemove(p, rs[n - 1]);
      assert rs == rs[..n - 1] + [rs[n - 1]];
    }
  }

  /** Different choices give different shuffles, so the equally likely choice sequences and
      the permutations correspond one to one. */
  lemma {:induction false} DifferentChoicesDiffer(rs: seq<nat>, rs': seq<nat>)
    requires Choices(rs) && Choices(rs')
    ensures Order(rs) == Order(rs') <==> rs == rs'
  {
    ChoicesRecovered(rs);
    ChoicesRecovered(rs');
  }
}
