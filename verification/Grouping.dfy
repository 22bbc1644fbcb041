/** Splitting a batch into one group per worker, and counting what the groups hold. */
module Grouping {
  function Group<T(!new)>(xs: seq<T>, slot: T -> nat, i: nat): seq<T> {
    if xs == [] then []
    else (if slot(xs[0]) == i then [xs[0]] else []) + Group(xs[1..], slot, i)
  }

  /** The elements of xs grouped by worker, each group in order. */
  function Partition<T(!new)>(xs: seq<T>, slot: T -> nat, n: nat): (groups: seq<seq<T>>)
    ensures |groups| == n
  {
    seq(n, i requires 0 <= i < n => Group(xs, slot, i))
  }

  lemma {:induction false} GroupSnoc<T(!new)>(xs: seq<T>, slot: T -> nat, x: T, i: nat)
    ensures Group(xs + [x], slot, i) == Group(xs, slot, i) + if slot(x) == i then [x] else []
  {
    if xs == [] {
      assert xs + [x] == [x] && [x][1..] == [];
    } else {
      assert (xs + [x])[1..] == xs[1..] + [x] && (xs + [x])[0] == xs[0];
      GroupSnoc(xs[1..], slot, x, i);
      var head, last := if slot(xs[0]) == i then [xs[0]] else [], if slot(x) == i then [x] else [];
      assert head + (Group(xs[1..], slot, i) + last) == (head + Group(xs[1..], slot, i)) + last;
    }
  }

  /** A group holds only elements of its own slot. */
  lemma {:induction false} GroupSlot<T(!new)>(xs: seq<T>, slot: T -> nat, i: nat)
    ensures forall x :: x in Group(xs, slot, i) ==> slot(x) == i
  {
    if xs != [] {
      GroupSlot(xs[1..], slot, i);
    }
  }

  /** Appends each element to the group of its slot. */
  method PartitionBatch<T(!new)>(xs: seq<T>, slot: T -> nat, n: nat) returns (groups: seq<seq<T>>)
    requires forall x :: x in xs ==> slot(x) < n
    ensures groups == Partition(xs, slot, n)
  {
    groups := seq(n, _ => []);
    for i := 0 to |xs|
      invariant |groups| == n
      invariant forall g :: 0 <= g < n ==> groups[g] == Group(xs[..i], slot, g)
    {
      forall g | 0 <= g < n
        ensures Group(xs[..i + 1], slot, g) == Group(xs[..i], slot, g) + if slot(xs[i]) == g then [xs[i]] else []
      {
        assert xs[..i + 1] == xs[..i] + [xs[i]];
        GroupSnoc(xs[..i], slot, xs[i], g);
      }
      var s := slot(xs[i]);
      groups := groups[s := groups[s] + [xs[i]]];
    }
    assert xs[..|xs|] == xs;
  }

  // ---------------------------------------------------------------- counting

  ghost function Count<T>(xs: seq<T>, x: T): nat { multiset(xs)[x] }

  /** How often x occurs in the groups. */
  ghost function InGroups<T>(groups: seq<seq<T>>, x: T): nat {
    if groups == [] then 0 else Count(groups[0], x) + InGroups(groups[1..], x)
  }

  /** How many elements the groups hold. */
  ghost function Total<T>(groups: seq<seq<T>>): nat {
    if groups == [] then 0 else |groups[0]| + Total(groups[1..])
  }

  lemma {:induction false} GroupsSnoc<T>(groups: seq<seq<T>>, g: seq<T>, x: T)
    ensures InGroups(groups + [g], x) == InGroups(groups, x) + Count(g, x)
    ensures Total(groups + [g]) == Total(groups) + |g|
  {
    if groups == [] {
      assert groups + [g] == [g] && [g][1..] == [];
    } else {
      assert (groups + [g])[1..] == groups[1..] + [g];
      GroupsSnoc(groups[1..], g, x);
    }
  }

  lemma {:induction false} GroupsAdd<T>(groups: seq<seq<T>>, s: nat, y: T, x: T)
    requires s < |groups|
    ensures InGroups(groups[s := [y] + groups[s]], x) == InGroups(groups, x) + if x == y then 1 else 0
    ensures Total(groups[s := [y] + groups[s]]) == Total(groups) + 1
  {
    var groups' := groups[s := [y] + groups[s]];
    if s == 0 {
      assert groups'[1..] == groups[1..];
      assert multiset([y] + groups[0]) == multiset{y} + multiset(groups[0]);
    } else {
      assert groups'[1..] == groups[1..][s - 1 := [y] + groups[1..][s - 1]];
      GroupsAdd(groups[1..], s - 1, y, x);
    }
  }

  lemma {:induction false} NoGroups<T>(groups: seq<seq<T>>, x: T)
    requires forall i :: 0 <= i < |groups| ==> groups[i] == []
    ensures InGroups(groups, x) == 0 && Total(groups) == 0
  {
    if groups != [] {
      NoGroups(groups[1..], x);
    }
  }

  lemma CountHead<T>(xs: seq<T>, x: T)
    requires xs != []
    ensures Count(xs, x) == Count(xs[1..], x) + if x == xs[0] then 1 else 0
  {
    assert xs == [xs[0]] + xs[1..];
  }

  lemma PartitionStep<T(!new)>(xs: seq<T>, slot: T -> nat, n: nat)
    requires xs != [] && slot(xs[0]) < n
    ensures var s, rest := slot(xs[0]), Partition(xs[1..], slot, n);
            Partition(xs, slot, n) == rest[s := [xs[0]] + rest[s]]
  {
    var s, rest := slot(xs[0]), Partition(xs[1..], slot, n);
    forall i | 0 <= i < n
      ensures Partition(xs, slot, n)[i] == rest[s := [xs[0]] + rest[s]][i]
    {
      assert Group(xs, slot, i) == (if s == i then [xs[0]] else []) + Group(xs[1..], slot, i);
    }
  }

  /** Partitioning keeps every element exactly as often as it was there. */
  lemma {:induction false} PartitionKeeps<T(!new)>(xs: seq<T>, slot: T -> nat, n: nat, x: T)
    requires forall y :: y in xs ==> slot(y) < n
    ensures InGroups(Partition(xs, slot, n), x) == Count(xs, x)
    ensures Total(Partition(xs, slot, n)) == |xs|
  {
    if xs == [] {
      NoGroups(Partition(xs, slot, n), x);
    } else {
      PartitionKeeps(xs[1..], slot, n, x);
      PartitionStep(xs, slot, n);
      GroupsAdd(Partition(xs[1..], slot, n), slot(xs[0]), xs[0], x);
      CountHead(xs, x);
    }
  }
}
