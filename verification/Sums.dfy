/** Sums over a sequence of counts, and sizes of sets. */
module Sums {
  ghost function Sum(counts: seq<nat>): nat {
    if counts == [] then 0 else counts[0] + Sum(counts[1..])
  }

  lemma {:induction false} SumUpdate(counts: seq<nat>, i: nat, n: nat)
    requires i < |counts|
    ensures Sum(counts[i := n]) + counts[i] == Sum(counts) + n
  {
    if i == 0 {
      assert counts[i := n][1..] == counts[1..];
    } else {
      assert counts[i := n][1..] == counts[1..][i - 1 := n];
      SumUpdate(counts[1..], i - 1, n);
    }
  }

  lemma {:induction false} SumZero(counts: seq<nat>)
    requires forall i :: 0 <= i < |counts| ==> counts[i] == 0
    ensures Sum(counts) == 0
  {
    if counts != [] {
      SumZero(counts[1..]);
    }
  }

  lemma {:induction false} AllZero(counts: seq<nat>)
    requires Sum(counts) == 0
    ensures forall i :: 0 <= i < |counts| ==> counts[i] == 0
  {
    if counts != [] {
      AllZero(counts[1..]);
    }
  }

  lemma {:induction false} AllOnes(flags: seq<nat>)
    requires (forall i :: 0 <= i < |flags| ==> flags[i] <= 1) && Sum(flags) >= |flags|
    ensures Sum(flags) == |flags| && forall i :: 0 <= i < |flags| ==> flags[i] == 1
  {
    if flags != [] {
      SumAtMost(flags[1..]);
      AllOnes(flags[1..]);
    }
  }

  lemma {:induction false} SumAtMost(flags: seq<nat>)
    requires forall i :: 0 <= i < |flags| ==> flags[i] <= 1
    ensures Sum(flags) <= |flags|
  {
    if flags != [] {
      SumAtMost(flags[1..]);
    }
  }

  lemma SubsetSize<T>(a: set<T>, b: set<T>)
    requires a <= b
    ensures |a| <= |b|
  {
    assert |a + (b - a)| == |a| + |b - a|;
    assert a + (b - a) == b;
  }
}
