/** How an analysis worker turns a batch of events into the items it will count. */
module AnalysisWorker {
  import opened TextMachine
  import opened HotList

  const NO_KEY := KeyInfo("", 0)

  predicate IsHit(e: Event) { e.kind == EventGetHit }

  function InfoOf(e: Event): KeyInfo { KeyInfo(e.key, e.size) }

  /** What should be counted: the hits, in order. */
  function HitsOnly(evts: seq<Event>): seq<KeyInfo> {
    if evts == [] then []
    else (if IsHit(evts[0]) then [InfoOf(evts[0])] else []) + HitsOnly(evts[1..])
  }

  /** One past the last hit. */
  function HitSpan(evts: seq<Event>): (n: nat)
    ensures n <= |evts|
  {
    if evts == [] then 0
    else if IsHit(evts[|evts| - 1]) then |evts|
    else HitSpan(evts[..|evts| - 1])
  }

  function SlotOf(e: Event): KeyInfo {
    if e.kind == EventGetHit then KeyInfo(e.key, e.size) else KeyInfo("", 0)
  }

  /** What is counted: every position up to the last hit, blank where the event is not a hit. */
  function Slots(evts: seq<Event>): seq<KeyInfo> {
    seq(HitSpan(evts), i requires 0 <= i < HitSpan(evts) => SlotOf(evts[i]))
  }

  lemma SpanSnoc(evts: seq<Event>, i: nat)
    requires i < |evts|
    ensures HitSpan(evts[..i + 1]) == if IsHit(evts[i]) then i + 1 else HitSpan(evts[..i])
  {
    assert evts[..i + 1][..i] == evts[..i];
  }

  /** Fills a slice by event index, lengthening it to reach each hit. */
  method HandleEvents(evts: seq<Event>) returns (kis: seq<KeyInfo>)
    ensures kis == Slots(evts)
  {
    var backing := new KeyInfo[|evts|](_ => NO_KEY);
    var length := 0;
    for i := 0 to |evts|
      invariant length == HitSpan(evts[..i])
      invariant forall j :: 0 <= j < i ==> backing[j] == SlotOf(evts[j])
      invariant forall j :: i <= j < |evts| ==> backing[j] == NO_KEY
    {
      SpanSnoc(evts, i);
      if IsHit(evts[i]) {
        length := i + 1;
        backing[i] := InfoOf(evts[i]);
      }
    }
    assert evts[..|evts|] == evts;
    kis := backing[..length];
  }

  predicate AllHits(evts: seq<Event>) {
    forall e :: e in evts ==> IsHit(e)
  }

  /** No event other than a hit comes before a hit. */
  predicate HitsFirst(evts: seq<Event>) {
    AllHits(evts[..HitSpan(evts)])
  }

  lemma {:induction false} HitsOnlyConcat(a: seq<Event>, b: seq<Event>)
    ensures HitsOnly(a + b) == HitsOnly(a) + HitsOnly(b)
  {
    if a == [] {
      assert a + b == b;
    } else {
      assert (a + b)[1..] == a[1..] + b && (a + b)[0] == a[0];
      HitsOnlyConcat(a[1..], b);
      var head := if IsHit(a[0]) then [InfoOf(a[0])] else [];
      assert head + (HitsOnly(a[1..]) + HitsOnly(b)) == (head + HitsOnly(a[1..])) + HitsOnly(b);
    }
  }

  lemma {:induction false} NoHitsAfterSpan(evts: seq<Event>)
    ensures HitsOnly(evts[HitSpan(evts)..]) == []
  {
    if evts != [] && !IsHit(evts[|evts| - 1]) {
      var init := evts[..|evts| - 1];
      NoHitsAfterSpan(init);
      assert evts[HitSpan(evts)..] == init[HitSpan(init)..] + [evts[|evts| - 1]];
      HitsOnlyConcat(init[HitSpan(init)..], [evts[|evts| - 1]]);
      assert HitsOnly([evts[|evts| - 1]]) == [] by { assert [evts[|evts| - 1]][1..] == []; }
    }
  }

  lemma HitsWithinSpan(evts: seq<Event>)
    ensures HitsOnly(evts) == HitsOnly(evts[..HitSpan(evts)])
  {
    NoHitsAfterSpan(evts);
    assert evts == evts[..HitSpan(evts)] + evts[HitSpan(evts)..];
    HitsOnlyConcat(evts[..HitSpan(evts)], evts[HitSpan(evts)..]);
  }

  lemma {:induction false} HitsOfAllHits(evts: seq<Event>)
    ensures |HitsOnly(evts)| <= |evts|
    ensures |HitsOnly(evts)| == |evts| <==> AllHits(evts)
    ensures AllHits(evts) ==> forall i :: 0 <= i < |evts| ==> HitsOnly(evts)[i] == InfoOf(evts[i])
  {
    if evts != [] {
      HitsOfAllHits(evts[1..]);
      assert evts == [evts[0]] + evts[1..];
    }
  }

  /**
    The items counted are exactly the hits if and only if all hits of the batch come first. The text
    protocol only ever emits hits.
   */
  lemma ExactIffHitsFirst(evts: seq<Event>)
    ensures Slots(evts) == HitsOnly(evts) <==> HitsFirst(evts)
  {
    var span := evts[..HitSpan(evts)];
    HitsWithinSpan(evts);
    HitsOfAllHits(span);
    if HitsFirst(evts) {
      assert forall i :: 0 <= i < |span| ==> span[i] in span;
    }
  }

  /** A miss before a hit: one blank item is counted besides the hit. */
  lemma MissBeforeHit(miss: Event, hit: Event)
    requires miss.kind != EventGetHit && hit.kind == EventGetHit
    ensures Slots([miss, hit]) == [KeyInfo("", 0), KeyInfo(hit.key, hit.size)]
  {
  }
}
