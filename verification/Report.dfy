/** Merging the top lists of the analysis workers into one report. */
module Report {
  import opened HotList
  import opened Sums

  datatype KeyReport = KeyReport(name: string, size: int, requestsEstimate: int, trafficEstimate: int)

  function ToReport(e: Entry): KeyReport {
    KeyReport(e.item.name, e.item.size, e.count, e.count * e.item.size)
  }

  function TrafficEstimate(r: KeyReport): int { r.trafficEstimate }

  function AsEntry(r: KeyReport): Entry {
    Entry(KeyInfo(r.name, r.size), r.requestsEstimate, r.trafficEstimate)
  }

  ghost function AsEntries(rs: seq<KeyReport>): seq<Entry> {
    seq(|rs|, i requires 0 <= i < |rs| => AsEntry(rs[i]))
  }

  // ---------------------------------------------------------------- all workers together

  /** Everything counted by any worker. */
  ghost function Union(hotlists: seq<Counts>): Counts {
    if hotlists == [] then map[] else hotlists[0] + Union(hotlists[1..])
  }

  ghost predicate Disjoint(hotlists: seq<Counts>) {
    hotlists == [] || (hotlists[0].Keys !! Union(hotlists[1..]).Keys && Disjoint(hotlists[1..]))
  }

  /** Hotlists that only ever count keys of their own slot have nothing in common. */
  lemma {:induction false} SlotsDisjoint(hotlists: seq<Counts>, slot: string -> int, first: int)
    requires forall i, x: KeyInfo :: 0 <= i < |hotlists| && x in hotlists[i] ==> slot(x.name) == first + i
    ensures Disjoint(hotlists)
    ensures forall x :: x in Union(hotlists) ==> slot(x.name) >= first
  {
    if hotlists != [] {
      var rest := hotlists[1..];
      forall i, x: KeyInfo | 0 <= i < |rest| && x in rest[i]
        ensures slot(x.name) == first + 1 + i
      {
        assert rest[i] == hotlists[i + 1];
      }
      SlotsDisjoint(rest, slot, first + 1);
    }
  }

  ghost function Flatten(tops: seq<seq<Entry>>): seq<Entry> {
    if tops == [] then [] else tops[0] + Flatten(tops[1..])
  }

  lemma {:induction false} FlattenSnoc(tops: seq<seq<Entry>>, top: seq<Entry>)
    ensures Flatten(tops + [top]) == Flatten(tops) + top
  {
    if tops == [] {
      assert tops + [top] == [top] && [top][1..] == [];
    } else {
      assert (tops + [top])[1..] == tops[1..] + [top];
      FlattenSnoc(tops[1..], top);
    }
  }

  ghost predicate AllTops(tops: seq<seq<Entry>>, hotlists: seq<Counts>, k: nat) {
    |tops| == |hotlists| && forall i :: 0 <= i < |tops| ==> IsTop(tops[i], hotlists[i], k)
  }

  /** The entries of all workers together are entries of the union. */
  lemma {:induction false} FlattenEntries(tops: seq<seq<Entry>>, hotlists: seq<Counts>, k: nat)
    requires AllTops(tops, hotlists, k) && Disjoint(hotlists)
    ensures var es, u := Flatten(tops), Union(hotlists);
            DistinctItems(es) && forall i :: 0 <= i < |es| ==> es[i].item in u && es[i] == EntryOf(u, es[i].item)
  {
    if tops != [] {
      FlattenEntries(tops[1..], hotlists[1..], k);
      var a, b := tops[0], Flatten(tops[1..]);
      assert IsTop(a, hotlists[0], k);
      forall i, j | 0 <= i < |a| && 0 <= j < |b|
        ensures a[i].item != b[j].item
      {
        assert a[i].item in hotlists[0] && b[j].item in Union(hotlists[1..]);
      }
    }
  }

  /** A top list shorter than k has every item. */
  lemma ShortTopComplete(es: seq<Entry>, m: Counts, k: nat)
    requires IsTop(es, m, k) && |es| < k
    ensures Items(es) == m.Keys
  {
    ItemsSize(es);
    assert Items(es) <= m.Keys;
    assert |m.Keys| == |Items(es)|;
    assert m.Keys == Items(es) + (m.Keys - Items(es));
    assert |m.Keys - Items(es)| == 0;
  }

  /** An item that no worker listed is outweighed by the k entries of its own worker. */
  lemma {:induction false} Outweighed(tops: seq<seq<Entry>>, hotlists: seq<Counts>, k: nat, x: KeyInfo) returns (i: nat)
    requires AllTops(tops, hotlists, k) && Disjoint(hotlists)
    requires x in Union(hotlists) && x !in Items(Flatten(tops))
    ensures i < |tops| && |tops[i]| == k && DistinctItems(tops[i])
    ensures forall j :: 0 <= j < k ==> x.Weight() * Union(hotlists)[x] <= tops[i][j].totalWeight
    ensures forall j :: 0 <= j < k ==> tops[i][j] in Flatten(tops)
  {
    var a, rest := tops[0], Flatten(tops[1..]);
    assert Items(Flatten(tops)) == Items(a) + Items(rest);
    assert IsTop(a, hotlists[0], k);
    if x in hotlists[0] {
      if |a| < k {
        ShortTopComplete(a, hotlists[0], k);
      }
      i := 0;
    } else {
      var i' := Outweighed(tops[1..], hotlists[1..], k, x);
      i := i' + 1;
    }
  }

  lemma {:induction false} EnoughEntries(tops: seq<seq<Entry>>, hotlists: seq<Counts>, k: nat)
    requires AllTops(tops, hotlists, k)
    ensures |Flatten(tops)| >= k || Items(Flatten(tops)) == Union(hotlists).Keys
  {
    if tops == [] {
      assert Items([]) == {};
    } else {
      EnoughEntries(tops[1..], hotlists[1..], k);
      assert Items(Flatten(tops)) == Items(tops[0]) + Items(Flatten(tops[1..]));
      assert IsTop(tops[0], hotlists[0], k);
      if |tops[0]| < k {
        ShortTopComplete(tops[0], hotlists[0], k);
      }
    }
  }

  ghost function Min(a: nat, b: nat): nat { if a < b then a else b }

  /**
    The first k entries of the sorted merge of all workers' top-k lists are a top-k list of everything
    counted by all workers.
   */
  lemma MergedTop(tops: seq<seq<Entry>>, hotlists: seq<Counts>, sorted: seq<Entry>, k: nat)
    requires AllTops(tops, hotlists, k) && Disjoint(hotlists)
    requires multiset(sorted) == multiset(Flatten(tops)) && SortedDesc(sorted, TotalWeight)
    ensures ListOf(sorted, Union(hotlists))
    ensures IsTop(sorted[..Min(k, |sorted|)], Union(hotlists), k)
  {
    var u, n := Union(hotlists), Min(k, |sorted|);
    MergedList(tops, hotlists, sorted, k);
    assert n == (if |u| < k then |u| else k) by {
      EnoughEntries(tops, hotlists, k);
      ItemsSize(sorted);
      SubsetSize(Items(sorted), u.Keys);
    }
    PrefixDistinct(sorted, n);
    forall x, i | x in u && x !in Items(sorted[..n]) && 0 <= i < n
      ensures x.Weight() * u[x] <= sorted[..n][i].totalWeight
    {
      RestIsLighter(tops, hotlists, sorted, k, x, i);
    }
  }

  lemma MergedList(tops: seq<seq<Entry>>, hotlists: seq<Counts>, sorted: seq<Entry>, k: nat)
    requires AllTops(tops, hotlists, k) && Disjoint(hotlists)
    requires multiset(sorted) == multiset(Flatten(tops)) && SortedDesc(sorted, TotalWeight)
    ensures ListOf(sorted, Union(hotlists)) && Items(sorted) == Items(Flatten(tops))
  {
    var u, all := Union(hotlists), Flatten(tops);
    FlattenEntries(tops, hotlists, k);
    DistinctAfterSort(all, sorted);
    SameMembers(all, sorted);
    forall i | 0 <= i < |sorted|
      ensures sorted[i].item in u && sorted[i] == EntryOf(u, sorted[i].item)
    {
      assert sorted[i] in all;
    }
  }

  lemma RestIsLighter(tops: seq<seq<Entry>>, hotlists: seq<Counts>, sorted: seq<Entry>, k: nat, x: KeyInfo, i: nat)
    requires AllTops(tops, hotlists, k) && Disjoint(hotlists)
    requires multiset(sorted) == multiset(Flatten(tops)) && ListOf(sorted, Union(hotlists))
    requires x in Union(hotlists) && i < Min(k, |sorted|) && x !in Items(sorted[..Min(k, |sorted|)])
    ensures x.Weight() * Union(hotlists)[x] <= sorted[i].totalWeight
  {
    var u := Union(hotlists);
    SameMembers(Flatten(tops), sorted);
    PrefixItems(sorted, i, Min(k, |sorted|));
    if sorted[i].totalWeight < x.Weight() * u[x] {
      if x in Items(sorted) {
        HeavierLiesBefore(sorted, u, i, x);
      } else {
        var t := Outweighed(tops, hotlists, k, x);
        var j := Pigeon(tops[t], sorted[..i]);
        var e := tops[t][j];
        assert e in sorted;
        var p :| 0 <= p < |sorted| && sorted[p] == e;
        assert e == EntryOf(u, e.item);
        HeavierLiesBefore(sorted, u, i, e.item);
      }
    }
  }

  lemma PrefixItems(es: seq<Entry>, i: nat, n: nat)
    requires i <= n <= |es|
    ensures Items(es[..i]) <= Items(es[..n])
  {
    assert es[..n][..i] == es[..i];
  }

  // ---------------------------------------------------------------- the report itself

  lemma {:induction false} ReportEntries(es: seq<Entry>, u: Counts, rs: seq<KeyReport>)
    requires forall i :: 0 <= i < |es| ==> es[i].item in u && es[i] == EntryOf(u, es[i].item)
    requires |rs| == |es| && forall i :: 0 <= i < |rs| ==> rs[i] == ToReport(es[i])
    ensures AsEntries(rs) == es
  {
    forall i | 0 <= i < |es|
      ensures AsEntry(rs[i]) == es[i]
    {
      var x := es[i].item;
      assert x.Weight() * u[x] == u[x] * x.size;
    }
  }

  /** Removes from b what is first in a. */
  lemma Matched(a: seq<KeyReport>, b: seq<KeyReport>) returns (i: nat, rest: seq<KeyReport>)
    requires a != [] && multiset(a) == multiset(b)
    ensures i < |b| && b[i] == a[0] && rest == b[..i] + b[i + 1..]
    ensures multiset(a[1..]) == multiset(rest)
  {
    assert a[0] in multiset(b);
    i :| 0 <= i < |b| && b[i] == a[0];
    rest := b[..i] + b[i + 1..];
    WithoutFirst(a);
    WithoutOne(b, i, rest);
  }

  lemma WithoutFirst(a: seq<KeyReport>)
    requires a != []
    ensures multiset(a[1..]) == multiset(a) - multiset{a[0]}
  {
    assert a == [a[0]] + a[1..];
  }

  lemma WithoutOne(b: seq<KeyReport>, i: nat, rest: seq<KeyReport>)
    requires i < |b| && rest == b[..i] + b[i + 1..]
    ensures multiset(rest) == multiset(b) - multiset{b[i]}
  {
    assert b == b[..i] + ([b[i]] + b[i + 1..]);
    assert multiset(b) == multiset(b[..i]) + (multiset{b[i]} + multiset(b[i + 1..]));
  }

  lemma EntryRemoved(b: seq<KeyReport>, i: nat, rest: seq<KeyReport>)
    requires i < |b| && rest == b[..i] + b[i + 1..]
    ensures multiset(AsEntries(b)) == multiset{AsEntry(b[i])} + multiset(AsEntries(rest))
  {
    var before, after := AsEntries(b[..i]), AsEntries(b[i + 1..]);
    assert AsEntries(b) == before + ([AsEntry(b[i])] + after);
    assert AsEntries(rest) == before + after;
  }

  lemma FirstRemoved(a: seq<KeyReport>)
    requires a != []
    ensures multiset(AsEntries(a)) == multiset{AsEntry(a[0])} + multiset(AsEntries(a[1..]))
  {
    assert AsEntries(a) == [AsEntry(a[0])] + AsEntries(a[1..]);
  }

  /** Reordering reports reorders the entries they stand for. */
  lemma {:induction false} AsEntriesMultiset(a: seq<KeyReport>, b: seq<KeyReport>)
    requires multiset(a) == multiset(b)
    ensures multiset(AsEntries(a)) == multiset(AsEntries(b))
    decreases |a|
  {
    if a == [] {
      assert b == [] by { assert |multiset(b)| == |b|; }
    } else {
      var i, rest := Matched(a, b);
      AsEntriesMultiset(a[1..], rest);
      EntryRemoved(b, i, rest);
      FirstRemoved(a);
    }
  }

  /**
    The report over the hotlists as each worker had it when it answered: all entries of all workers' top
    lists. It is not cut to reportSize; its first reportSize entries are the heaviest of all that was
    counted.
   */
  method MakeReport(hotlists: seq<Counts>, reportSize: nat)
    returns (keys: seq<KeyReport>, ghost tops: seq<seq<Entry>>)
    requires Disjoint(hotlists)
    ensures AllTops(tops, hotlists, reportSize) && multiset(AsEntries(keys)) == multiset(Flatten(tops))
    ensures SortedDesc(keys, TrafficEstimate) && DistinctItems(AsEntries(keys))
    ensures IsTop(AsEntries(keys)[..Min(reportSize, |keys|)], Union(hotlists), reportSize)
  {
    var allEntries;
    allEntries, tops := CollectTops(hotlists, reportSize);
    var reports := ToReports(allEntries);
    keys := SortDesc(reports, TrafficEstimate);
    ReportIsTop(tops, hotlists, reports, keys, reportSize);
  }

  /** The entries of all workers' answers, one worker after the other. */
  method CollectTops(hotlists: seq<Counts>, reportSize: nat)
    returns (allEntries: seq<Entry>, ghost tops: seq<seq<Entry>>)
    ensures allEntries == Flatten(tops) && AllTops(tops, hotlists, reportSize)
  {
    allEntries, tops := [], [];
    for i := 0 to |hotlists|
      invariant allEntries == Flatten(tops) && AllTops(tops, hotlists[..i], reportSize)
    {
      var workerEntries := OrderedTop(reportSize, hotlists[i]);
      FlattenSnoc(tops, workerEntries);
      OneMoreTop(tops, hotlists, i, workerEntries, reportSize);
      tops := tops + [workerEntries];
      allEntries := allEntries + workerEntries;
    }
    assert hotlists[..|hotlists|] == hotlists;
  }

  lemma OneMoreTop(tops: seq<seq<Entry>>, hotlists: seq<Counts>, i: nat, top: seq<Entry>, k: nat)
    requires i < |hotlists| && AllTops(tops, hotlists[..i], k) && IsTop(top, hotlists[i], k)
    ensures AllTops(tops + [top], hotlists[..i + 1], k)
  {
  }

  method ToReports(es: seq<Entry>) returns (reports: seq<KeyReport>)
    ensures |reports| == |es| && forall j :: 0 <= j < |es| ==> reports[j] == ToReport(es[j])
  {
    reports := [];
    for i := 0 to |es|
      invariant |reports| == i && forall j :: 0 <= j < i ==> reports[j] == ToReport(es[j])
    {
      reports := reports + [ToReport(es[i])];
    }
  }

  lemma ReportIsTop(tops: seq<seq<Entry>>, hotlists: seq<Counts>, reports: seq<KeyReport>, keys: seq<KeyReport>, k: nat)
    requires AllTops(tops, hotlists, k) && Disjoint(hotlists)
    requires |reports| == |Flatten(tops)| && forall i :: 0 <= i < |reports| ==> reports[i] == ToReport(Flatten(tops)[i])
    requires multiset(keys) == multiset(reports) && SortedDesc(keys, TrafficEstimate)
    ensures DistinctItems(AsEntries(keys)) && IsTop(AsEntries(keys)[..Min(k, |keys|)], Union(hotlists), k)
    ensures multiset(AsEntries(keys)) == multiset(Flatten(tops))
  {
    FlattenEntries(tops, hotlists, k);
    ReportEntries(Flatten(tops), Union(hotlists), reports);
    AsEntriesMultiset(reports, keys);
    MergedTop(tops, hotlists, AsEntries(keys), k);
  }
}
