/** Counting items, and the heaviest k of what was counted. */
module HotList {
  import opened Sums

  /** A cache key with the size of its value, the item that is counted. */
  datatype KeyInfo = KeyInfo(name: string, size: int) {
    function Weight(): int { size }
  }

  datatype Entry = Entry(item: KeyInfo, count: int, totalWeight: int)

  type Counts = map<KeyInfo, int>

  function CountOf(m: Counts, x: KeyInfo): int { if x in m then m[x] else 0 }

  function EntryOf(m: Counts, x: KeyInfo): Entry
    requires x in m
  {
    Entry(x, m[x], x.Weight() * m[x])
  }

  // ---------------------------------------------------------------- what a top list is

  ghost predicate SortedDesc<T(!new)>(xs: seq<T>, key: T -> int) {
    forall i, j :: 0 <= i < j < |xs| ==> key(xs[j]) <= key(xs[i])
  }

  function TotalWeight(e: Entry): int { e.totalWeight }

  ghost function Items(es: seq<Entry>): set<KeyInfo> {
    set e | e in es :: e.item
  }

  ghost predicate DistinctItems(es: seq<Entry>) {
    forall i, j :: 0 <= i < j < |es| ==> es[i].item != es[j].item
  }

  /** Entries of m, each item once, in descending order. */
  ghost predicate ListOf(es: seq<Entry>, m: Counts) {
    && DistinctItems(es) && SortedDesc(es, TotalWeight)
    && forall i :: 0 <= i < |es| ==> es[i].item in m && es[i] == EntryOf(m, es[i].item)
  }

  /** The k heaviest entries of m (all of them if there are fewer). */
  ghost predicate IsTop(es: seq<Entry>, m: Counts, k: nat) {
    && ListOf(es, m)
    && |es| == (if |m| < k then |m| else k)
    && forall x, i :: x in m && x !in Items(es) && 0 <= i < |es| ==> x.Weight() * m[x] <= es[i].totalWeight
  }

  lemma {:induction false} ItemsSize(es: seq<Entry>)
    requires DistinctItems(es)
    ensures |Items(es)| == |es|
  {
    if es != [] {
      var rest := es[1..];
      ItemsSize(rest);
      assert es == [es[0]] + rest;
      assert forall i :: 0 <= i < |rest| ==> rest[i] == es[i + 1];
      assert es[0].item !in Items(rest);
      assert Items(es) == Items(rest) + {es[0].item};
    }
  }

  /** More distinct items than another list has entries: one of them is not in that list. */
  lemma Pigeon(a: seq<Entry>, b: seq<Entry>) returns (i: nat)
    requires DistinctItems(a) && |b| < |a|
    ensures i < |a| && a[i].item !in Items(b)
  {
    ItemsSize(a);
    ItemsAtMost(b);
    if Items(a) <= Items(b) {
      SubsetSize(Items(a), Items(b));
      assert false;
    }
    var x :| x in Items(a) && x !in Items(b);
    var e :| e in a && e.item == x;
    i :| 0 <= i < |a| && a[i] == e;
  }

  lemma {:induction false} ItemsAtMost(es: seq<Entry>)
    ensures |Items(es)| <= |es|
  {
    if es != [] {
      ItemsAtMost(es[1..]);
      assert es == [es[0]] + es[1..];
      assert Items(es) == Items(es[1..]) + {es[0].item};
    }
  }

  lemma PrefixDistinct(es: seq<Entry>, n: nat)
    requires DistinctItems(es) && n <= |es|
    ensures DistinctItems(es[..n])
  {
  }

  /** In a descending list, an item heavier than entry i lies before it. */
  lemma HeavierLiesBefore(es: seq<Entry>, m: Counts, i: nat, x: KeyInfo)
    requires ListOf(es, m) && i < |es| && x in Items(es) && x in m && es[i].totalWeight < x.Weight() * m[x]
    ensures x in Items(es[..i])
  {
    var e :| e in es && e.item == x;
    var j :| 0 <= j < |es| && es[j] == e;
    assert j < i;
    assert es[..i][j] == e;
  }

  /** The weights of a top list are determined by what was counted, however ties are broken. */
  lemma TopWeightsUnique(a: seq<Entry>, b: seq<Entry>, m: Counts, k: nat, i: nat)
    requires IsTop(a, m, k) && IsTop(b, m, k) && i < |a|
    ensures |a| == |b| && a[i].totalWeight == b[i].totalWeight
  {
    NotHeavier(a, b, m, k, i);
    NotHeavier(b, a, m, k, i);
  }

  lemma NotHeavier(a: seq<Entry>, b: seq<Entry>, m: Counts, k: nat, i: nat)
    requires IsTop(a, m, k) && IsTop(b, m, k) && i < |a|
    ensures a[i].totalWeight <= b[i].totalWeight
  {
    if b[i].totalWeight < a[i].totalWeight {
      PrefixDistinct(a, i + 1);
      var j := Pigeon(a[..i + 1], b[..i]);
      var x := a[j].item;
      assert a[j] == EntryOf(m, x) && a[i].totalWeight <= a[j].totalWeight;
      if x in Items(b) {
        HeavierLiesBefore(b, m, i, x);
      }
    }
  }

  // ---------------------------------------------------------------- computing it

  function InsertDesc<T>(xs: seq<T>, key: T -> int, x: T): seq<T> {
    if xs == [] || key(xs[0]) <= key(x) then [x] + xs else [xs[0]] + InsertDesc(xs[1..], key, x)
  }

  lemma {:induction false} InsertDescMembers<T>(xs: seq<T>, key: T -> int, x: T)
    ensures multiset(InsertDesc(xs, key, x)) == multiset(xs) + multiset{x}
  {
    if xs != [] && key(x) < key(xs[0]) {
      InsertDescMembers(xs[1..], key, x);
      assert xs == [xs[0]] + xs[1..];
    }
  }

  lemma {:induction false} InsertDescSorted<T(!new)>(xs: seq<T>, key: T -> int, x: T)
    requires SortedDesc(xs, key)
    ensures SortedDesc(InsertDesc(xs, key, x), key)
  {
    if xs != [] && key(x) < key(xs[0]) {
      var rest, more := xs[1..], InsertDesc(xs[1..], key, x);
      InsertDescSorted(rest, key, x);
      InsertDescMembers(rest, key, x);
      forall i | 0 <= i < |more|
        ensures key(more[i]) <= key(xs[0])
      {
        assert more[i] in multiset(more);
        assert more[i] in rest || more[i] == x;
      }
      assert InsertDesc(xs, key, x) == [xs[0]] + more;
    }
  }

  /** Descending order by key; entries with equal keys may end up in any order. */
  method SortDesc<T(!new)>(xs: seq<T>, key: T -> int) returns (ys: seq<T>)
    ensures SortedDesc(ys, key) && multiset(ys) == multiset(xs)
  {
    ys := [];
    for i := 0 to |xs|
      invariant SortedDesc(ys, key) && multiset(ys) == multiset(xs[..i])
    {
      InsertDescSorted(ys, key, xs[i]);
      InsertDescMembers(ys, key, xs[i]);
      assert xs[..i + 1] == xs[..i] + [xs[i]];
      ys := InsertDesc(ys, key, xs[i]);
    }
    assert xs[..|xs|] == xs;
  }

  lemma {:induction false} OnceInDistinct(es: seq<Entry>, e: Entry)
    requires DistinctItems(es)
    ensures multiset(es)[e] <= 1
  {
    if es != [] {
      assert es == [es[0]] + es[1..];
      OnceInDistinct(es[1..], e);
      assert forall i :: 0 <= i < |es[1..]| ==> es[1..][i] == es[i + 1];
      assert es[0] !in es[1..];
    }
  }

  lemma TwiceCounted(es: seq<Entry>, i: nat, j: nat)
    requires i < j < |es| && es[i] == es[j]
    ensures multiset(es)[es[i]] >= 2
  {
    assert es == es[..i] + [es[i]] + es[i + 1..];
    assert es[i + 1..][j - i - 1] == es[j];
    assert es[j] in multiset(es[i + 1..]);
  }

  /** Reordering keeps items distinct. */
  lemma DistinctAfterSort(xs: seq<Entry>, ys: seq<Entry>)
    requires DistinctItems(xs) && multiset(xs) == multiset(ys)
    ensures DistinctItems(ys)
  {
    forall i, j | 0 <= i < j < |ys|
      ensures ys[i].item != ys[j].item
    {
      if ys[i].item == ys[j].item {
        SameItemSameEntry(xs, ys, i, j);
        TwiceCounted(ys, i, j);
        OnceInDistinct(xs, ys[i]);
      }
    }
  }

  lemma SameItemSameEntry(xs: seq<Entry>, ys: seq<Entry>, i: nat, j: nat)
    requires DistinctItems(xs) && multiset(xs) == multiset(ys) && i < |ys| && j < |ys| && ys[i].item == ys[j].item
    ensures ys[i] == ys[j]
  {
    assert ys[i] in multiset(ys) && ys[j] in multiset(ys);
    var a :| 0 <= a < |xs| && xs[a] == ys[i];
    var b :| 0 <= b < |xs| && xs[b] == ys[j];
  }

  /** The top list as the program computes it: collect in map order, sort, cut. */
  method OrderedTop(k: nat, unordered: Counts) returns (entries: seq<Entry>)
    ensures IsTop(entries, unordered, k)
  {
    var k := if |unordered| < k then |unordered| else k;
    var ordered: seq<Entry> := [];
    var left := unordered.Keys;
    while left != {}
      invariant left <= unordered.Keys && Items(ordered) == unordered.Keys - left
      invariant DistinctItems(ordered) && EntriesOf(ordered, unordered)
      decreases left
    {
      var item :| item in left;
      CollectOne(ordered, unordered, item);
      ordered := ordered + [Entry(item, unordered[item], item.Weight() * unordered[item])];
      left := left - {item};
    }
    var sorted := SortDesc(ordered, TotalWeight);
    SortedIsTop(ordered, sorted, unordered, k);
    entries := sorted[..k];
  }

  lemma SortedIsTop(ordered: seq<Entry>, sorted: seq<Entry>, m: Counts, k: nat)
    requires DistinctItems(ordered) && Items(ordered) == m.Keys && k <= |m|
    requires EntriesOf(ordered, m)
    requires SortedDesc(sorted, TotalWeight) && multiset(sorted) == multiset(ordered)
    ensures |sorted| == |m| && IsTop(sorted[..k], m, k)
  {
    ItemsSize(ordered);
    DistinctAfterSort(ordered, sorted);
    SameMembers(ordered, sorted);
    forall i | 0 <= i < |sorted|
      ensures sorted[i].item in m && sorted[i] == EntryOf(m, sorted[i].item)
    {
      assert sorted[i] in ordered;
    }
    CutIsTop(sorted, m, k);
  }

  ghost predicate EntriesOf(es: seq<Entry>, m: Counts) {
    forall i :: 0 <= i < |es| ==> es[i].item in m && es[i] == EntryOf(m, es[i].item)
  }

  lemma CollectOne(es: seq<Entry>, m: Counts, item: KeyInfo)
    requires DistinctItems(es) && EntriesOf(es, m) && item in m && item !in Items(es)
    ensures var es' := es + [Entry(item, m[item], item.Weight() * m[item])];
            DistinctItems(es') && EntriesOf(es', m) && Items(es') == Items(es) + {item}
  {
    assert forall i :: 0 <= i < |es| ==> es[i].item in Items(es);
  }

  lemma SameMembers(xs: seq<Entry>, ys: seq<Entry>)
    requires multiset(xs) == multiset(ys)
    ensures |xs| == |ys| && Items(xs) == Items(ys) && forall e :: e in xs <==> e in ys
  {
    assert |multiset(xs)| == |xs| && |multiset(ys)| == |ys|;
    assert forall e :: e in xs <==> e in multiset(xs);
    assert forall e :: e in ys <==> e in multiset(ys);
  }

  lemma CutIsTop(sorted: seq<Entry>, m: Counts, k: nat)
    requires ListOf(sorted, m) && Items(sorted) == m.Keys && |sorted| == |m| && k <= |m|
    ensures IsTop(sorted[..k], m, k)
  {
    forall x, i | x in m && x !in Items(sorted[..k]) && 0 <= i < k
      ensures x.Weight() * m[x] <= sorted[..k][i].totalWeight
    {
      var e :| e in sorted && e.item == x;
      var j :| 0 <= j < |sorted| && sorted[j] == e;
      if j < k {
        InPrefix(sorted, k, j);
      }
    }
  }

  lemma InPrefix(es: seq<Entry>, k: int, j: int)
    requires 0 <= j < k <= |es|
    ensures es[j].item in Items(es[..k])
  {
    assert es[..k][j] == es[j];
  }

  /** The hotlist that keeps everything it is given. */
  class PerfectHotlist {
    var counts: Counts

    constructor ()
      ensures counts == map[]
    {
      counts := map[];
    }

    method AddWeighted(x: KeyInfo)
      modifies this
      ensures counts == old(counts)[x := CountOf(old(counts), x) + 1]
    {
      AddNWeighted(x, 1);
    }

    method AddNWeighted(x: KeyInfo, n: int)
      modifies this
      ensures counts == old(counts)[x := CountOf(old(counts), x) + n]
    {
      counts := counts[x := CountOf(counts, x) + n];
    }

    /** Deletes the keys one by one. */
    method Reset()
      modifies this
      ensures counts == map[]
    {
      var keys := counts.Keys;
      while keys != {}
        invariant keys == counts.Keys
        decreases keys
      {
        var k :| k in keys;
        counts := counts - {k};
        keys := keys - {k};
      }
    }

    method Top(k: nat) returns (entries: seq<Entry>)
      ensures IsTop(entries, counts, k)
    {
      entries := OrderedTop(k, counts);
    }
  }
}
