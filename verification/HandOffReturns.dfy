/** When the decode pool's Run returns: after the end of the input every schedule ends, and where it ends. */
module HandOffReturns {
  import opened HandOff
  import opened HandOffTheorems
  import opened Sums
  import opened Grouping

  // ---------------------------------------------------------------- what is left to do

  /** A bound on the steps a decode worker can still take or cause, if it is given no more work. */
  ghost function WorkerLeft(x: Worker, k: nat): nat {
    match x.phase
    case Exited => 0
    case Parked => (if x.closes > 0 then 1 else 2) + (if x.token then 4 * k + 5 else 0)
    case Publishing => 3
    case Awaiting(left) => 4 + left
    case Dispatching(todo, sent) => 5 + 4 * |todo| + sent
  }

  ghost function AssemblyLeft(x: Assembly): nat {
    |x.busy| + 2 * |x.queue|
  }

  ghost function WorkersLeft(s: State): seq<nat> {
    seq(|s.workers|, w requires 0 <= w < |s.workers| => WorkerLeft(s.workers[w], |s.asm|))
  }

  ghost function AssembliesLeft(s: State): seq<nat> {
    seq(|s.asm|, a requires 0 <= a < |s.asm| => AssemblyLeft(s.asm[a]))
  }

  ghost function StepsLeft(s: State): nat {
    Sum(WorkersLeft(s)) + Sum(AssembliesLeft(s)) + (if s.capture.Draining? then 1 else 0)
  }

  /** The input has ended. */
  ghost predicate Ending(s: State) {
    s.capture.Draining? || s.capture.Returned?
  }

  lemma WorkerChange(s: State, s': State, w: nat)
    requires w < |s.workers| == |s'.workers| && s'.workers == s.workers[w := s'.workers[w]] && |s'.asm| == |s.asm|
    ensures Sum(WorkersLeft(s')) + WorkerLeft(s.workers[w], |s.asm|)
            == Sum(WorkersLeft(s)) + WorkerLeft(s'.workers[w], |s.asm|)
  {
    var x := WorkerLeft(s'.workers[w], |s.asm|);
    assert WorkersLeft(s') == WorkersLeft(s)[w := x];
    SumUpdate(WorkersLeft(s), w, x);
  }

  lemma AssemblyChange(s: State, s': State, a: nat)
    requires a < |s.asm| == |s'.asm| && s'.asm == s.asm[a := s'.asm[a]]
    ensures Sum(AssembliesLeft(s')) + AssemblyLeft(s.asm[a]) == Sum(AssembliesLeft(s)) + AssemblyLeft(s'.asm[a])
  {
    assert AssembliesLeft(s') == AssembliesLeft(s)[a := AssemblyLeft(s'.asm[a])];
    SumUpdate(AssembliesLeft(s), a, AssemblyLeft(s'.asm[a]));
  }

  /** After the end of the input every step leaves fewer to take, and abandons nobody. */
  lemma StepLowers(s: State, step: Step)
    requires Safe(s) && Ending(s) && Enabled(s, step)
    ensures var s' := Apply(s, step);
            Ending(s') && StepsLeft(s') < StepsLeft(s) && SameAbandoned(s, s')
  {
    match step
    case Dispatch(w) => DispatchLowers(s, w);
    case Pick(a) => AssemblyStepLowers(s, step);
    case Complete(a) => CompleteLowers(s, a);
    case Drain => DrainLowers(s);
    case Finish => FinishLowers(s);
    case _ => WorkerStepLowers(s, step);
  }

  ghost predicate SameAbandoned(s: State, s': State) {
    |s'.workers| == |s.workers|
    && forall w :: 0 <= w < |s.workers| ==> s'.workers[w].abandoned == s.workers[w].abandoned
  }

  lemma WorkerStepLowers(s: State, step: Step)
    requires Safe(s) && Ending(s) && Enabled(s, step)
    requires step.Publish? || step.Start? || step.Exit? || step.AllSent? || step.Receive? || step.Return?
    ensures var s' := Apply(s, step);
            Ending(s') && StepsLeft(s') < StepsLeft(s) && SameAbandoned(s, s')
  {
    var s', w := Apply(s, step), step.w;
    assert WorkerOk(s, w);
    WorkerChange(s, s', w);
    assert AssembliesLeft(s') == AssembliesLeft(s);
  }

  lemma DispatchLowers(s: State, w: nat)
    requires Safe(s) && Ending(s) && Enabled(s, Dispatch(w))
    ensures var s' := Apply(s, Dispatch(w));
            Ending(s') && StepsLeft(s') < StepsLeft(s) && SameAbandoned(s, s')
  {
    var s', todo := Apply(s, Dispatch(w)), s.workers[w].phase.todo;
    var a := |s.asm| - |todo|;
    WorkerChange(s, s', w);
    if todo[0] != [] && |s.asm[a].queue| < QUEUE_SIZE {
      AssemblyChange(s, s', a);
    } else {
      assert AssembliesLeft(s') == AssembliesLeft(s);
    }
  }

  lemma AssemblyStepLowers(s: State, step: Step)
    requires Safe(s) && Ending(s) && Enabled(s, step) && step.Pick?
    ensures var s' := Apply(s, step);
            Ending(s') && StepsLeft(s') < StepsLeft(s) && SameAbandoned(s, s')
  {
    var s' := Apply(s, step);
    AssemblyChange(s, s', step.a);
    assert WorkersLeft(s') == WorkersLeft(s);
  }

  lemma CompleteLowers(s: State, a: nat)
    requires Safe(s) && Ending(s) && Enabled(s, Complete(a))
    ensures var s' := Apply(s, Complete(a));
            Ending(s') && StepsLeft(s') < StepsLeft(s) && SameAbandoned(s, s')
  {
    var s' := Apply(s, Complete(a));
    AssemblyChange(s, s', a);
    assert WorkersLeft(s') == WorkersLeft(s);
  }

  lemma DrainLowers(s: State)
    requires Safe(s) && Ending(s) && Enabled(s, Drain)
    ensures var s' := Apply(s, Drain);
            Ending(s') && StepsLeft(s') < StepsLeft(s) && SameAbandoned(s, s')
  {
    var s', w := Apply(s, Drain), s.ready[0];
    assert w in s.ready && WorkerOk(s, w);
    WorkerChange(s, s', w);
    assert AssembliesLeft(s') == AssembliesLeft(s);
  }

  lemma FinishLowers(s: State)
    requires Safe(s) && Ending(s) && Enabled(s, Finish)
    ensures var s' := Apply(s, Finish);
            Ending(s') && StepsLeft(s') < StepsLeft(s) && SameAbandoned(s, s')
  {
    var s' := Apply(s, Finish);
    assert WorkersLeft(s') == WorkersLeft(s) && AssembliesLeft(s') == AssembliesLeft(s);
  }

  // ---------------------------------------------------------------- whole schedules

  /** Every schedule from here on is finite. */
  lemma {:induction false} SchedulesEnd(s: State, more: seq<Step>)
    requires Safe(s) && Ending(s) && CanRun(s, more)
    ensures |more| + StepsLeft(Exec(s, more)) <= StepsLeft(s)
    ensures Ending(Exec(s, more)) && SameAbandoned(s, Exec(s, more))
    decreases more
  {
    if more != [] {
      StepLowers(s, more[0]);
      StepKeepsSafe(s, more[0]);
      SchedulesEnd(Apply(s, more[0]), more[1..]);
    }
  }

  lemma NobodyStuckIff(s: State)
    requires Safe(s)
    ensures NobodyStuck(s) <==> NobodyAbandoned(s) && s.refusals == 0
  {
    if s.refusals == 0 {
      AllZero(Losses(s));
      assert forall w :: 0 <= w < |s.workers| ==> Losses(s)[w] == s.workers[w].lost;
    }
    if NobodyStuck(s) {
      SumZero(Losses(s));
    }
  }

  ghost predicate NobodyAbandoned(s: State) {
    forall w :: 0 <= w < |s.workers| ==> !s.workers[w].abandoned
  }

  /** A state in which nothing can happen any more is one in which Run has returned, unless a worker is stuck. */
  lemma StandstillIffStuck(s: State)
    requires Safe(s) && Ending(s) && |s.workers| > 0 && forall step :: !Enabled(s, step)
    ensures s.capture == Returned <==> NobodyStuck(s)
  {
    if NobodyStuck(s) && s.capture != Returned {
      var step := SomeStep(s);
    }
    forall w | 0 <= w < |s.workers| && StuckWorker(s.workers[w])
      ensures s.capture != Returned
    {
      StuckNotReturned(s, w);
    }
  }

  /**
    After the end of the input, in whatever order things happen: every schedule is finite, and a schedule
    that cannot be continued has made Run return if and only if no worker had been left out and no batch
    refused.
   */
  lemma ReturnsExactly(n: nat, k: nat, steps: seq<Step>, more: seq<Step>)
    requires n > 0 && k > 0 && CanRun(Init(n, k), steps)
    requires Ending(Exec(Init(n, k), steps)) && CanRun(Exec(Init(n, k), steps), more)
    ensures var s := Exec(Init(n, k), steps);
            var end := Exec(s, more);
            && |more| <= StepsLeft(s)
            && ((forall step :: !Enabled(end, step)) ==>
                  (end.capture == Returned <==> NobodyAbandoned(s) && end.refusals == 0))
  {
    InitSafe(n, k);
    RunKeepsSafe(Init(n, k), steps);
    RunKeepsSize(Init(n, k), steps);
    var s := Exec(Init(n, k), steps);
    SchedulesEnd(s, more);
    RunKeepsSafe(s, more);
    var end := Exec(s, more);
    assert NobodyAbandoned(s) <==> NobodyAbandoned(end);
    NobodyStuckIff(end);
    if forall step :: !Enabled(end, step) {
      StandstillIffStuck(end);
    }
  }

  /** If no worker is stuck, some schedule does return, so Run can always still return. */
  lemma {:induction false} CanReturn(s: State) returns (more: seq<Step>)
    requires Safe(s) && Ending(s) && |s.workers| > 0 && NobodyStuck(s)
    ensures CanRun(s, more) && Exec(s, more).capture == Returned
    decreases StepsLeft(s)
  {
    if s.capture == Returned {
      more := [];
    } else {
      var step := SomeStep(s);
      var s' := Apply(s, step);
      StepLowers(s, step);
      StepKeepsSafe(s, step);
      assert NobodyAbandoned(s) && SameAbandoned(s, s');
      assert NobodyStuck(s') by {
        NobodyStuckIff(s);
        NobodyStuckIff(s');
      }
      var rest := CanReturn(s');
      more := [step] + rest;
      assert more[1..] == rest;
    }
  }

  /** Once a batch has been refused Run never returns: its sender waits for a signal that never comes. */
  lemma RefusalHangs(n: nat, k: nat, steps: seq<Step>, more: seq<Step>)
    requires k > 0 && CanRun(Init(n, k), steps) && CanRun(Exec(Init(n, k), steps), more)
    requires Exec(Init(n, k), steps).refusals > 0
    ensures Exec(Exec(Init(n, k), steps), more).capture != Returned
  {
    InitSafe(n, k);
    RunKeepsSafe(Init(n, k), steps);
    var s := Exec(Init(n, k), steps);
    if forall w :: 0 <= w < |s.workers| ==> s.workers[w].lost == 0 {
      SumZero(Losses(s));
    }
    var w :| 0 <= w < |s.workers| && s.workers[w].lost > 0;
    StuckNeverReturns(n, k, steps, w, more);
  }

  // ---------------------------------------------------------------- a run that leaves a worker out

  /** A source error at the first batch and the end of the input at the second. */
  function LeavingOut(): seq<Step> {
    [Publish(0), TakeReady, CollectError([]), Publish(1), TakeReady, CollectEof]
  }

  /** A worker publishes itself and is taken at once. */
  lemma NextTaken(s: State, w: nat) returns (s1: State, s2: State)
    requires w < |s.workers| && s.ready == [] && s.capture == Polling && s.workers[w].phase == Publishing
    ensures ReadyOk(s) && Enabled(s, Publish(w)) && s1 == Apply(s, Publish(w))
    ensures ReadyOk(s1) && Enabled(s1, TakeReady) && s2 == Apply(s1, TakeReady)
    ensures s2.capture == Filling(w) && s2.ready == [] && |s2.workers| == |s.workers|
    ensures forall u :: 0 <= u < |s.workers| && u != w ==> s2.workers[u] == s.workers[u]
    ensures s2.workers[w] == s.workers[w].(phase := Parked)
  {
    s1 := Apply(s, Publish(w));
    assert s1.ready == [w];
    s2 := Apply(s1, TakeReady);
  }

  lemma FirstFails(s0: State) returns (s1: State, s2: State, s3: State)
    requires |s0.workers| > 1 && s0.ready == [] && s0.capture == Polling
    requires forall w :: 0 <= w < 2 ==> s0.workers[w].phase == Publishing
    ensures ReadyOk(s0) && Enabled(s0, Publish(0)) && s1 == Apply(s0, Publish(0))
    ensures ReadyOk(s1) && Enabled(s1, TakeReady) && s2 == Apply(s1, TakeReady)
    ensures ReadyOk(s2) && Enabled(s2, CollectError([])) && s3 == Apply(s2, CollectError([]))
    ensures |s3.workers| > 1 && s3.ready == [] && s3.capture == Polling
    ensures s3.workers[0].abandoned && s3.workers[1] == s0.workers[1]
  {
    s1, s2 := NextTaken(s0, 0);
    s3 := Apply(s2, CollectError([]));
  }

  lemma SecondEnds(s3: State) returns (s4: State, s5: State, s6: State)
    requires |s3.workers| > 1 && s3.ready == [] && s3.capture == Polling
    requires s3.workers[0].abandoned && s3.workers[1].phase == Publishing
    ensures ReadyOk(s3) && Enabled(s3, Publish(1)) && s4 == Apply(s3, Publish(1))
    ensures ReadyOk(s4) && Enabled(s4, TakeReady) && s5 == Apply(s4, TakeReady)
    ensures ReadyOk(s5) && Enabled(s5, CollectEof) && s6 == Apply(s5, CollectEof)
    ensures Ending(s6) && |s6.workers| == |s3.workers| && s6.workers[0].abandoned
  {
    s4, s5 := NextTaken(s3, 1);
    s6 := Apply(s5, CollectEof);
  }

  /** With two workers the input can end after one has been left out, and then Run never returns. */
  lemma LeftOutReachable(n: nat, k: nat)
    requires n > 1
    ensures CanRun(Init(n, k), LeavingOut())
    ensures var s := Exec(Init(n, k), LeavingOut());
            Ending(s) && s.workers != [] && s.workers[0].abandoned
  {
    var s0, steps := Init(n, k), LeavingOut();
    var s1, s2, s3 := FirstFails(s0);
    var s4, s5, s6 := SecondEnds(s3);
    assert steps[0] == Publish(0) && steps[1] == TakeReady && steps[2] == CollectError([]);
    assert steps[3] == Publish(1) && steps[4] == TakeReady && steps[5] == CollectEof;
    Unfold6(s0, s1, s2, s3, s4, s5, s6, steps);
  }
}
