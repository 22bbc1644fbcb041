/** When the analysis pool drops events: never with up to 1024 of them, and possibly with more. */
module AnalysisLimits {
  import opened HotList
  import opened Sums
  import opened Grouping
  import opened AnalysisPool
  import opened AnalysisTheorems

  // ---------------------------------------------------------------- a queue needs many events

  /** Queued batches are never empty, and never more than a queue can hold. */
  ghost predicate QueueOk(x: Worker) {
    |x.queue| <= 1024 && forall i :: 0 <= i < |x.queue| ==> x.queue[i] != []
  }

  ghost predicate QueuesOk(s: State) {
    forall w :: 0 <= w < |s.workers| ==> QueueOk(s.workers[w])
  }

  lemma {:induction false} NonEmptyTotal(queue: seq<seq<KeyInfo>>)
    requires forall i :: 0 <= i < |queue| ==> queue[i] != []
    ensures |queue| <= Total(queue)
  {
    if queue != [] {
      NonEmptyTotal(queue[1..]);
    }
  }

  /** Termwise larger counts have a larger sum, by at least any one of the differences. */
  lemma {:induction false} SumExceeds(a: seq<nat>, b: seq<nat>, i: nat)
    requires |a| == |b| && i < |a| && forall j :: 0 <= j < |a| ==> b[j] <= a[j]
    ensures Sum(b) + a[i] - b[i] <= Sum(a)
    decreases |a|
  {
    if |a| > 1 {
      SumExceeds(a[1..], b[1..], if i > 0 then i - 1 else 0);
    }
  }

  /** What lies in a worker's queue and in a caller's hands is part of what was passed in. */
  lemma LoadBelowPassed(s: State, w: nat, c: nat)
    requires Balanced(s) && w < |s.workers| && c < |s.callers|
    ensures Total(s.workers[w].queue) + Total(Todo(s.callers[c])) <= |s.passed|
  {
    SumExceeds(Unaccounteds(s), Earlies(s), c);
    SumExceeds(Loads(s), seq(|s.workers|, _ => 0), w);
  }

  // ---------------------------------------------------------------- runs with few events

  /** Nothing has been refused, not even by a queue whose answer is not accounted for yet. */
  ghost predicate Unrefused(s: State) {
    && s.dropped == 0 && s.refused == multiset{}
    && forall c :: 0 <= c < |s.callers| && s.callers[c].Accounting? ==> s.callers[c].accepted
  }

  lemma SendKeepsQueues(s: State, c: nat)
    requires QueuesOk(s) && Enabled(s, Send(c))
    ensures QueuesOk(ApplySend(s, c))
  {
  }

  lemma StepKeepsQueues(hash: string -> nat, s: State, step: Step)
    requires QueuesOk(s) && Enabled(s, step)
    ensures QueuesOk(Apply(hash, s, step))
  {
    if step.Send? {
      SendKeepsQueues(s, step.c);
    }
  }

  lemma SendKeepsUnrefused(s: State, c: nat)
    requires Balanced(s) && QueuesOk(s) && Unrefused(s) && |s.passed| <= 1024 && Enabled(s, Send(c))
    ensures Unrefused(ApplySend(s, c))
  {
    var todo := s.callers[c].todo;
    var w := |s.workers| - |todo|;
    assert QueueOk(s.workers[w]);
    NonEmptyTotal(s.workers[w].queue);
    LoadBelowPassed(s, w, c);
    assert Total(todo) >= |todo[0]|;
  }

  lemma StepKeepsUnrefused(hash: string -> nat, s: State, step: Step)
    requires Balanced(s) && QueuesOk(s) && Unrefused(s) && |s.passed| <= 1024 && Enabled(s, step)
    ensures Unrefused(Apply(hash, s, step))
  {
    if step.Send? {
      SendKeepsUnrefused(s, step.c);
    }
  }

  lemma {:induction false} RunKeepsQueues(hash: string -> nat, s: State, steps: seq<Step>)
    requires QueuesOk(s) && CanRun(hash, s, steps)
    ensures QueuesOk(Exec(hash, s, steps))
    decreases steps
  {
    if steps != [] {
      StepKeepsQueues(hash, s, steps[0]);
      RunKeepsQueues(hash, Apply(hash, s, steps[0]), steps[1..]);
    }
  }

  lemma {:induction false} RunKeepsUnrefused(hash: string -> nat, s: State, steps: seq<Step>)
    requires Good(hash, s) && QueuesOk(s) && Unrefused(s) && CanRun(hash, s, steps)
    requires |s.passed + Given(steps)| <= 1024
    ensures Unrefused(Exec(hash, s, steps))
    decreases steps
  {
    if steps != [] {
      var s1 := Apply(hash, s, steps[0]);
      StepKeepsGood(hash, s, steps[0]);
      StepKeepsQueues(hash, s, steps[0]);
      StepKeepsUnrefused(hash, s, steps[0]);
      StepGives(hash, s, steps[0]);
      assert s1.passed + Given(steps[1..]) == s.passed + Given(steps);
      RunKeepsUnrefused(hash, s1, steps[1..]);
    }
  }

  /** In no run does a worker's queue hold more than 1024 batches, or an empty one. */
  lemma QueueBounded(hash: string -> nat, n: nat, m: nat, steps: seq<Step>, w: nat)
    requires CanRun(hash, Init(n, m), steps) && w < |Exec(hash, Init(n, m), steps).workers|
    ensures var queue := Exec(hash, Init(n, m), steps).workers[w].queue;
            |queue| <= 1024 && forall i :: 0 <= i < |queue| ==> queue[i] != []
  {
    RunKeepsQueues(hash, Init(n, m), steps);
    assert QueueOk(Exec(hash, Init(n, m), steps).workers[w]);
  }

  /** As long as no more than 1024 events have been passed in, none is refused or dropped. */
  lemma NothingDropped(hash: string -> nat, n: nat, m: nat, steps: seq<Step>)
    requires CanRun(hash, Init(n, m), steps) && |Given(steps)| <= 1024
    ensures Exec(hash, Init(n, m), steps).dropped == 0 && Exec(hash, Init(n, m), steps).refused == multiset{}
  {
    InitGood(hash, n, m);
    assert Init(n, m).passed + Given(steps) == Given(steps);
    RunKeepsUnrefused(hash, Init(n, m), steps);
  }

  // ---------------------------------------------------------------- runs with more events

  /** Groups without events are passed over. */
  lemma {:induction false} PassEmpty(hash: string -> nat, s: State, c: nat, count: nat) returns (steps: seq<Step>)
    requires c < |s.callers| && s.callers[c].Sending? && count <= |s.callers[c].todo| <= |s.workers|
    requires forall i :: 0 <= i < count ==> s.callers[c].todo[i] == []
    ensures CanRun(hash, s, steps)
    ensures Exec(hash, s, steps) == SetCaller(s, c, Sending(s.callers[c].todo[count..]))
  {
    if count == 0 {
      steps := [];
      assert SetCaller(s, c, Sending(s.callers[c].todo[0..])) == s;
    } else {
      steps := PassEmpty(hash, s, c, count - 1);
      Extend(hash, s, steps, Send(c));
      steps := steps + [Send(c)];
      assert s.callers[c].todo[count - 1..][1..] == s.callers[c].todo[count..];
    }
  }

  const ITEM := KeyInfo("", 0)

  /** After j calls with one event each, all for one worker that has not started. */
  ghost predicate Fed(s: State, n: nat, own: nat, j: nat) {
    && |s.workers| == n && own < n && s.callers != [] && s.callers[0] == Idle
    && |s.workers[own].queue| == (if j <= 1024 then j else 1024)
    && |s.passed| == j && s.dropped == (if j <= 1024 then 0 else j - 1024)
  }

  lemma OneGroup(hash: string -> nat, n: nat, own: nat)
    requires n > 0 && own == KeySlot(hash, n)(ITEM)
    ensures var groups := Partition([ITEM], KeySlot(hash, n), n);
            own < n && forall i :: 0 <= i < n ==> groups[i] == if i == own then [ITEM] else []
  {
    var slot := KeySlot(hash, n);
    forall i | 0 <= i < n
      ensures Partition([ITEM], slot, n)[i] == if i == own then [ITEM] else []
    {
      assert [ITEM][1..] == [] && Group([], slot, i) == [];
    }
  }

  /** The call is made, and comes to the group with the event. */
  lemma FeedCalled(hash: string -> nat, s: State, n: nat, own: nat, j: nat) returns (steps: seq<Step>)
    requires Fed(s, n, own, j) && own == KeySlot(hash, n)(ITEM)
    ensures CanRun(hash, s, steps)
    ensures var groups := Partition([ITEM], KeySlot(hash, n), n);
            Exec(hash, s, steps) == SetCaller(s, 0, Sending(groups[own..])).(passed := s.passed + multiset{ITEM})
  {
    OneGroup(hash, n, own);
    OneStep(hash, s, Handle(0, [ITEM]));
    var s1 := Apply(hash, s, Handle(0, [ITEM]));
    assert multiset([ITEM]) == multiset{ITEM};
    var rest := PassEmpty(hash, s1, 0, own);
    RunOn(hash, s, [Handle(0, [ITEM])], rest);
    steps := [Handle(0, [ITEM])] + rest;
  }

  /** The event is queued or refused, and the call returns. */
  lemma FeedSent(hash: string -> nat, s: State, own: nat, groups: seq<seq<KeyInfo>>) returns (steps: seq<Step>)
    requires own < |s.workers| == |groups| && s.callers != [] && s.callers[0] == Sending(groups[own..])
    requires forall i :: 0 <= i < |groups| ==> groups[i] == if i == own then [ITEM] else []
    ensures CanRun(hash, s, steps)
    ensures var s', full := Exec(hash, s, steps), |s.workers[own].queue| >= QUEUE_SIZE;
            && |s'.workers| == |s.workers| && s'.callers != [] && s'.callers[0] == Idle && s'.passed == s.passed
            && |s'.workers[own].queue| == |s.workers[own].queue| + (if full then 0 else 1)
            && s'.dropped == s.dropped + (if full then 1 else 0)
  {
    assert groups[own..][0] == [ITEM] && groups[own..][1..] == groups[own + 1..];
    OneStep(hash, s, Send(0));
    Extend(hash, s, [Send(0)], Account(0));
    var s2 := Exec(hash, s, [Send(0)] + [Account(0)]);
    var rest := PassEmpty(hash, s2, 0, |groups| - own - 1);
    RunOn(hash, s, [Send(0)] + [Account(0)], rest);
    Extend(hash, s, [Send(0)] + [Account(0)] + rest, Finish(0));
    steps := [Send(0)] + [Account(0)] + rest + [Finish(0)];
  }

  lemma FeedOne(hash: string -> nat, s: State, n: nat, own: nat, j: nat) returns (steps: seq<Step>)
    requires Fed(s, n, own, j) && own == KeySlot(hash, n)(ITEM)
    ensures CanRun(hash, s, steps) && Fed(Exec(hash, s, steps), n, own, j + 1)
  {
    OneGroup(hash, n, own);
    var first := FeedCalled(hash, s, n, own, j);
    var rest := FeedSent(hash, Exec(hash, s, first), own, Partition([ITEM], KeySlot(hash, n), n));
    RunOn(hash, s, first, rest);
    steps := first + rest;
  }

  lemma {:induction false} FeedMany(hash: string -> nat, n: nat, m: nat, j: nat) returns (steps: seq<Step>)
    requires n > 0 && m > 0
    ensures CanRun(hash, Init(n, m), steps) && Fed(Exec(hash, Init(n, m), steps), n, KeySlot(hash, n)(ITEM), j)
  {
    if j == 0 {
      steps := [];
    } else {
      var before := FeedMany(hash, n, m, j - 1);
      var last := FeedOne(hash, Exec(hash, Init(n, m), before), n, KeySlot(hash, n)(ITEM), j - 1);
      RunOn(hash, Init(n, m), before, last);
      steps := before + last;
    }
  }

  /** The bound is exact, for any number of workers: with one event more, an event can be dropped. */
  lemma DropsExactly(hash: string -> nat, n: nat, m: nat, limit: nat)
    requires n > 0 && m > 0
    ensures (forall steps :: CanRun(hash, Init(n, m), steps) && |Given(steps)| <= limit ==>
               Exec(hash, Init(n, m), steps).dropped == 0)
            <==> limit <= 1024
  {
    if limit <= 1024 {
      forall steps | CanRun(hash, Init(n, m), steps) && |Given(steps)| <= limit
        ensures Exec(hash, Init(n, m), steps).dropped == 0
      {
        NothingDropped(hash, n, m, steps);
      }
    } else {
      var steps := FeedMany(hash, n, m, limit);
      RunGives(hash, Init(n, m), steps);
      assert multiset{} + Given(steps) == Given(steps);
      assert CanRun(hash, Init(n, m), steps) && |Given(steps)| <= limit;
    }
  }
}
