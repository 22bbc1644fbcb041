/** From the wire to the counters: what a conversation adds to the analysis. */
module Counted {
  import opened TextMachine
  import opened Wire
  import opened ParserTheorems
  import opened HotList
  import opened AnalysisWorker

  /** The items that a conversation should count: each value returned, under its key and with its length. */
  function Returned(values: seq<Value>): seq<KeyInfo> {
    seq(|values|, i requires 0 <= i < |values| => KeyInfo(values[i].key, |values[i].body|))
  }

  function ReturnedBy(ps: seq<Played>): seq<KeyInfo> {
    if ps == [] then []
    else (if ps[0].ex.Storage? then [] else Returned(ps[0].ex.values)) + ReturnedBy(ps[1..])
  }

  function Joined(batches: seq<seq<Event>>): seq<Event> {
    if batches == [] then [] else batches[0] + Joined(batches[1..])
  }

  /** What the worker is sent for each batch in turn. */
  function CountedFor(batches: seq<seq<Event>>): seq<KeyInfo> {
    if batches == [] then [] else Slots(batches[0]) + CountedFor(batches[1..])
  }

  lemma SlotsOfHits(evts: seq<Event>)
    requires AnalysisWorker.AllHits(evts)
    ensures Slots(evts) == seq(|evts|, i requires 0 <= i < |evts| => KeyInfo(evts[i].key, evts[i].size))
  {
    assert forall i :: 0 <= i < |evts| ==> evts[i] in evts && IsHit(evts[i]);
    assert HitSpan(evts) == |evts|;
  }

  lemma {:induction false} BatchesCounted(batches: seq<seq<Event>>)
    requires AnalysisWorker.AllHits(Joined(batches))
    ensures var evts := Joined(batches);
            CountedFor(batches) == seq(|evts|, i requires 0 <= i < |evts| => KeyInfo(evts[i].key, evts[i].size))
  {
    if batches != [] {
      var first, rest := batches[0], Joined(batches[1..]);
      assert forall e :: e in first ==> e in first + rest;
      assert forall e :: e in rest ==> e in first + rest;
      SlotsOfHits(first);
      BatchesCounted(batches[1..]);
    }
  }

  lemma {:induction false} HitsReturned(ps: seq<Played>)
    ensures var evts := HitsOf(ps);
            && AnalysisWorker.AllHits(evts)
            && ReturnedBy(ps) == seq(|evts|, i requires 0 <= i < |evts| => KeyInfo(evts[i].key, evts[i].size))
  {
    if ps != [] {
      HitsReturned(ps[1..]);
    }
  }

  /**
    However the events of a conversation are handed over in batches, what is counted for it is exactly
    the values that the server returned, in order.
   */
  lemma ConversationCounted(ps: seq<Played>, batches: seq<seq<Event>>)
    requires AllWellPlayed(ps, "") && Joined(batches) == Play(NEW, ps).events
    ensures CountedFor(batches) == ReturnedBy(ps)
  {
    ConversationReported(NEW, ps, "");
    assert NEW.events + HitsOf(ps) == HitsOf(ps);
    HitsReturned(ps);
    BatchesCounted(batches);
  }
}
