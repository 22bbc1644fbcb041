/** Whole runs of the hand-off protocol: no refused batch, buffer ownership, conservation and shutdown. */
module HandOffTheorems {
  import opened HandOff
  import opened Sums
  import opened Grouping

  // ---------------------------------------------------------------- partitioning a batch

  method PartitionPackets(dps: seq<Packet>, k: nat) returns (perWorker: seq<seq<Packet>>)
    requires k > 0
    ensures perWorker == Partition(dps, FlowSlot(k), k)
    ensures forall p :: InGroups(perWorker, p) == Count(dps, p)
    ensures |perWorker| == k && forall i, p :: 0 <= i < k && p in perWorker[i] ==> p.flowHash % k == i
  {
    perWorker := PartitionBatch(dps, FlowSlot(k), k);
    forall i | 0 <= i < k
      ensures forall p :: p in perWorker[i] ==> p.flowHash % k == i
    {
      GroupSlot(dps, FlowSlot(k), i);
    }
    forall p
      ensures InGroups(perWorker, p) == Count(dps, p)
    {
      PartitionKeeps(dps, FlowSlot(k), k, p);
    }
  }

  // ---------------------------------------------------------------- counting one packet

  /** How often p occurs in items queued or in progress. */
  ghost function InItems(items: seq<Item>, p: Packet): nat {
    if items == [] then 0 else Count(items[0].packets, p) + InItems(items[1..], p)
  }

  lemma {:induction false} InItemsSnoc(items: seq<Item>, item: Item, p: Packet)
    ensures InItems(items + [item], p) == InItems(items, p) + Count(item.packets, p)
  {
    if items == [] {
      assert items + [item] == [item] && [item][1..] == [];
    } else {
      assert (items + [item])[1..] == items[1..] + [item];
      InItemsSnoc(items[1..], item, p);
    }
  }

  // ---------------------------------------------------------------- conservation of packets

  /** The occurrences of p that a decode worker still has to dispatch. */
  ghost function PendingOf(x: Worker, handing: bool, p: Packet): nat {
    (if handing || x.token then Count(x.buffer, p) else 0)
    + (if x.phase.Dispatching? then InGroups(x.phase.todo, p) else 0)
  }

  ghost function Pending(s: State, p: Packet): seq<nat> {
    seq(|s.workers|, w requires 0 <= w < |s.workers| => PendingOf(s.workers[w], s.capture == Handing(w), p))
  }

  ghost function Carried(s: State, p: Packet): seq<nat> {
    seq(|s.asm|, a requires 0 <= a < |s.asm| => InItems(s.asm[a].Items(), p))
  }

  ghost predicate Conserved(s: State, p: Packet) {
    s.captured[p] == s.handled[p] + s.failed[p] + s.refused[p] + Sum(Pending(s, p)) + Sum(Carried(s, p))
  }

  /** A step that changes what one worker has pending. */
  lemma PendingStep(s: State, s': State, w: nat, p: Packet)
    requires w < |s.workers| && |s'.workers| == |s.workers|
    requires forall u :: 0 <= u < |s.workers| && u != w ==> Pending(s', p)[u] == Pending(s, p)[u]
    ensures Sum(Pending(s', p)) + Pending(s, p)[w] == Sum(Pending(s, p)) + Pending(s', p)[w]
  {
    assert Pending(s', p) == Pending(s, p)[w := Pending(s', p)[w]];
    SumUpdate(Pending(s, p), w, Pending(s', p)[w]);
  }

  lemma CaptureStepConserves(s: State, step: Step, p: Packet)
    requires Inv(s) && Conserved(s, p) && Enabled(s, step)
    requires step in {TakeReady, Timeout, CollectEof, HandOver, Drain, Finish} || step.Collect? || step.CollectError?
    ensures Conserved(Apply(s, step), p)
  {
    var s' := Apply(s, step);
    assert Carried(s', p) == Carried(s, p);
    if step == Finish {
      assert Pending(s', p) == Pending(s, p);
    } else if step == TakeReady || step == Drain {
      var w := s.ready[0];
      assert w in s.ready && WorkerOk(s, w);
      PendingStep(s, s', w, p);
    } else {
      HeldStepConserves(s, step, p);
    }
  }

  lemma HeldStepConserves(s: State, step: Step, p: Packet)
    requires Inv(s) && Conserved(s, p) && Enabled(s, step)
    requires step in {Timeout, CollectEof, HandOver} || step.Collect? || step.CollectError?
    ensures Conserved(Apply(s, step), p)
  {
    var s', w := Apply(s, step), s.capture.w;
    assert Carried(s', p) == Carried(s, p);
    assert Held(s.capture, w) && WorkerOk(s, w);
    PendingStep(s, s', w, p);
  }

  lemma WorkerStepConserves(s: State, step: Step, p: Packet)
    requires Inv(s) && Conserved(s, p) && Enabled(s, step) && |s.asm| > 0
    requires step.Publish? || step.Start? || step.Exit? || step.AllSent? || step.Receive? || step.Return?
    ensures Conserved(Apply(s, step), p)
  {
    var s', w := Apply(s, step), step.w;
    assert Carried(s', p) == Carried(s, p);
    assert WorkerOk(s, w);
    if step.Start? {
      PartitionKeeps(s.workers[w].buffer, FlowSlot(|s.asm|), |s.asm|, p);
    }
    PendingStep(s, s', w, p);
  }

  lemma CarriedStep(s: State, s': State, a: nat, p: Packet)
    requires a < |s.asm| && |s'.asm| == |s.asm| && s'.asm == s.asm[a := s'.asm[a]]
    ensures Sum(Carried(s', p)) + InItems(s.asm[a].Items(), p) == Sum(Carried(s, p)) + InItems(s'.asm[a].Items(), p)
  {
    assert Carried(s', p) == Carried(s, p)[a := InItems(s'.asm[a].Items(), p)];
    SumUpdate(Carried(s, p), a, InItems(s'.asm[a].Items(), p));
  }

  lemma PickConserves(s: State, a: nat, p: Packet)
    requires ReadyOk(s) && Conserved(s, p) && Enabled(s, Pick(a))
    ensures Conserved(Apply(s, Pick(a)), p)
  {
    var s' := Apply(s, Pick(a));
    assert Pending(s', p) == Pending(s, p);
    CarriedStep(s, s', a, p);
    assert s'.asm[a].Items() == s.asm[a].Items();
  }

  lemma CompleteConserves(s: State, a: nat, p: Packet)
    requires ReadyOk(s) && Conserved(s, p) && Enabled(s, Complete(a))
    ensures Conserved(Apply(s, Complete(a)), p)
  {
    var s', item := Apply(s, Complete(a)), s.asm[a].busy[0];
    CompleteKeepsPending(s, a, p);
    CarriedStep(s, s', a, p);
    assert s'.asm[a].Items() == s.asm[a].Items()[1..] && s.asm[a].Items()[0] == item;
    assert s'.handled[p] == s.handled[p] + Count(item.packets, p);
  }

  lemma CompleteKeepsPending(s: State, a: nat, p: Packet)
    requires ReadyOk(s) && Enabled(s, Complete(a))
    ensures Pending(Apply(s, Complete(a)), p) == Pending(s, p)
  {
  }

  /** What the worker dispatches is no longer pending. */
  lemma DispatchPending(s: State, w: nat, p: Packet)
    requires Inv(s) && Enabled(s, Dispatch(w))
    ensures Sum(Pending(Apply(s, Dispatch(w)), p)) + Count(s.workers[w].phase.todo[0], p) == Sum(Pending(s, p))
  {
    assert WorkerOk(s, w);
    PendingStep(s, Apply(s, Dispatch(w)), w, p);
  }

  /** It is carried by an assembly worker now, or has been refused. */
  lemma DispatchCarried(s: State, w: nat, p: Packet)
    requires Inv(s) && Enabled(s, Dispatch(w))
    ensures var s', n := Apply(s, Dispatch(w)), Count(s.workers[w].phase.todo[0], p);
            s'.refused[p] + Sum(Carried(s', p)) == s.refused[p] + Sum(Carried(s, p)) + n
  {
    var s', x := Apply(s, Dispatch(w)), s.workers[w];
    var todo := x.phase.todo;
    var a := |s.asm| - |todo|;
    if todo[0] != [] && |s.asm[a].queue| < QUEUE_SIZE {
      CarriedStep(s, s', a, p);
      assert s'.asm[a].Items() == s.asm[a].Items() + [Item(w, x.call, todo[0])];
      InItemsSnoc(s.asm[a].Items(), Item(w, x.call, todo[0]), p);
    } else {
      assert Carried(s', p) == Carried(s, p);
    }
  }

  lemma DispatchConserves(s: State, w: nat, p: Packet)
    requires Inv(s) && Conserved(s, p) && Enabled(s, Dispatch(w))
    ensures Conserved(Apply(s, Dispatch(w)), p)
  {
    DispatchPending(s, w, p);
    DispatchCarried(s, w, p);
  }

  // ---------------------------------------------------------------- shutting down

  ghost function ClosedFlags(s: State): seq<nat> {
    seq(|s.workers|, w requires 0 <= w < |s.workers| => if s.workers[w].closes > 0 then 1 else 0)
  }

  ghost predicate DrainOk(s: State) {
    match s.capture
    case Draining(count) => count == Sum(ClosedFlags(s))
    case Returned => Sum(ClosedFlags(s)) >= |s.workers|
    case _ => forall w :: 0 <= w < |s.workers| ==> s.workers[w].closes == 0
  }

  /** Packets go astray only together with the worker whose buffer they were read into. */
  ghost predicate FailedOk(s: State) {
    (forall w :: 0 <= w < |s.workers| ==> !s.workers[w].abandoned) ==> s.failed == multiset{}
  }

  lemma CloseOne(s: State, s': State, w: nat)
    requires w < |s.workers| && |s'.workers| == |s.workers| && s.workers[w].closes == 0
    requires s'.workers == s.workers[w := s'.workers[w]] && s'.workers[w].closes > 0
    ensures Sum(ClosedFlags(s')) == Sum(ClosedFlags(s)) + 1
  {
    assert ClosedFlags(s') == ClosedFlags(s)[w := 1];
    SumUpdate(ClosedFlags(s), w, 1);
  }

  /** No other step closes or abandons a worker. */
  lemma OtherStepsKeepFlags(s: State, step: Step)
    requires ReadyOk(s) && Enabled(s, step) && step !in {CollectEof, Drain} && !step.CollectError?
    ensures var s' := Apply(s, step);
            && |s'.workers| == |s.workers| && s'.failed == s.failed
            && (forall w :: 0 <= w < |s.workers| ==>
                  s'.workers[w].closes == s.workers[w].closes && s'.workers[w].abandoned == s.workers[w].abandoned)
  {
  }

  lemma OtherStepsKeepCapture(s: State, step: Step)
    requires ReadyOk(s) && Enabled(s, step) && step !in {CollectEof, Drain}
    ensures var c, c' := s.capture, Apply(s, step).capture;
            || c' == c
            || (c.Draining? && c' == Returned && c.count >= |s.workers|)
            || (!c.Draining? && !c.Returned? && !c'.Draining? && !c'.Returned?)
  {
  }

  lemma StepDrains(s: State, step: Step)
    requires Inv(s) && DrainOk(s) && FailedOk(s) && Enabled(s, step)
    ensures DrainOk(Apply(s, step)) && FailedOk(Apply(s, step))
  {
    var s' := Apply(s, step);
    if step == CollectEof {
      SumZero(ClosedFlags(s));
      CloseOne(s, s', s.capture.w);
      assert forall u :: 0 <= u < |s.workers| ==> s'.workers[u].abandoned == s.workers[u].abandoned;
    } else if step == Drain {
      var w := s.ready[0];
      assert w in s.ready && WorkerOk(s, w);
      CloseOne(s, s', w);
      assert forall u :: 0 <= u < |s.workers| ==> s'.workers[u].abandoned == s.workers[u].abandoned;
    } else if step.CollectError? {
      assert s'.workers[s.capture.w].abandoned;
    } else {
      OtherStepsKeepFlags(s, step);
      OtherStepsKeepCapture(s, step);
      assert ClosedFlags(s') == ClosedFlags(s);
    }
  }

  // ---------------------------------------------------------------- refused batches

  ghost function Losses(s: State): seq<nat> {
    seq(|s.workers|, w requires 0 <= w < |s.workers| => s.workers[w].lost)
  }

  /** Each refusal is some worker's, and there is none with at most 128 decode workers. */
  ghost predicate RefusedOk(s: State) {
    && s.refusals == Sum(Losses(s)) && (s.refusals == 0 ==> s.refused == multiset{})
    && (|s.workers| <= QUEUE_SIZE ==> s.refusals == 0)
  }

  // ---------------------------------------------------------------- whole runs

  ghost predicate Safe(s: State) {
    && Inv(s) && DrainOk(s) && FailedOk(s) && RefusedOk(s) && |s.asm| > 0
    && forall p :: Conserved(s, p)
  }

  lemma InitSafe(n: nat, k: nat)
    requires k > 0
    ensures Safe(Init(n, k))
  {
    var s := Init(n, k);
    forall p
      ensures Conserved(s, p)
    {
      SumZero(Pending(s, p));
      SumZero(Carried(s, p));
    }
    SumZero(ClosedFlags(s));
    SumZero(Losses(s));
  }

  lemma StepKeepsInv(s: State, step: Step)
    requires Inv(s) && Enabled(s, step)
    ensures Inv(Apply(s, step))
  {
    match step
    case Dispatch(w) => DispatchKeepsInv(s, w);
    case Pick(a) => PickKeepsInv(s, a);
    case Complete(a) => CompleteKeepsInv(s, a);
    case Publish(_) => WorkerStepKeepsInv(s, step);
    case Start(_) => WorkerStepKeepsInv(s, step);
    case Exit(_) => WorkerStepKeepsInv(s, step);
    case AllSent(_) => WorkerStepKeepsInv(s, step);
    case Receive(_) => WorkerStepKeepsInv(s, step);
    case Return(_) => WorkerStepKeepsInv(s, step);
    case _ => CaptureStepKeepsInv(s, step);
  }

  lemma StepConserves(s: State, step: Step, p: Packet)
    requires Inv(s) && Enabled(s, step) && |s.asm| > 0 && Conserved(s, p)
    ensures Conserved(Apply(s, step), p)
  {
    match step
    case Dispatch(w) => DispatchConserves(s, w, p);
    case Pick(a) => PickConserves(s, a, p);
    case Complete(a) => CompleteConserves(s, a, p);
    case Publish(_) => WorkerStepConserves(s, step, p);
    case Start(_) => WorkerStepConserves(s, step, p);
    case Exit(_) => WorkerStepConserves(s, step, p);
    case AllSent(_) => WorkerStepConserves(s, step, p);
    case Receive(_) => WorkerStepConserves(s, step, p);
    case Return(_) => WorkerStepConserves(s, step, p);
    case _ => CaptureStepConserves(s, step, p);
  }

  lemma StepKeepsSafe(s: State, step: Step)
    requires Safe(s) && Enabled(s, step)
    ensures Safe(Apply(s, step))
  {
    StepKeepsInv(s, step);
    StepDrains(s, step);
    forall p
      ensures Conserved(Apply(s, step), p)
    {
      StepConserves(s, step, p);
    }
    StepRefuses(s, step);
    StepKeepsSize(s, step);
  }

  lemma StepRefuses(s: State, step: Step)
    requires Inv(s) && Enabled(s, step) && RefusedOk(s)
    ensures RefusedOk(Apply(s, step))
  {
    var s' := Apply(s, step);
    if step.Dispatch? {
      DispatchRefuses(s, step.w);
    } else {
      OtherStepsKeepLosses(s, step);
      assert Losses(s') == Losses(s);
    }
  }

  lemma OtherStepsKeepLosses(s: State, step: Step)
    requires ReadyOk(s) && Enabled(s, step) && !step.Dispatch?
    ensures var s' := Apply(s, step);
            && |s'.workers| == |s.workers| && s'.refusals == s.refusals && s'.refused == s.refused
            && forall w :: 0 <= w < |s.workers| ==> s'.workers[w].lost == s.workers[w].lost
  {
  }

  lemma DispatchRefuses(s: State, w: nat)
    requires Inv(s) && Enabled(s, Dispatch(w)) && RefusedOk(s)
    ensures RefusedOk(Apply(s, Dispatch(w)))
  {
    var s' := Apply(s, Dispatch(w));
    QueueHasRoom(s, w);
    assert Losses(s') == Losses(s)[w := s'.workers[w].lost];
    SumUpdate(Losses(s), w, s'.workers[w].lost);
  }

  ghost predicate CanRun(s: State, steps: seq<Step>)
    decreases steps
  {
    steps == [] || (ReadyOk(s) && Enabled(s, steps[0]) && CanRun(Apply(s, steps[0]), steps[1..]))
  }

  ghost function Exec(s: State, steps: seq<Step>): State
    requires CanRun(s, steps)
    decreases steps
  {
    if steps == [] then s else Exec(Apply(s, steps[0]), steps[1..])
  }

  lemma {:induction false} RunKeepsSafe(s: State, steps: seq<Step>)
    requires Safe(s) && CanRun(s, steps)
    ensures Safe(Exec(s, steps))
    decreases steps
  {
    if steps != [] {
      StepKeepsSafe(s, steps[0]);
      RunKeepsSafe(Apply(s, steps[0]), steps[1..]);
    }
  }

  /** With at most 128 decode workers no assembly queue ever refuses a batch, in any run. */
  lemma NoBatchRefused(n: nat, k: nat, steps: seq<Step>)
    requires n <= 128 && k > 0 && CanRun(Init(n, k), steps)
    ensures Exec(Init(n, k), steps).refusals == 0
  {
    InitSafe(n, k);
    RunKeepsSize(Init(n, k), steps);
    RunKeepsSafe(Init(n, k), steps);
  }

  /** While the capture thread has a worker's buffer, nobody else refers to a packet of that worker. */
  lemma BufferOwnership(n: nat, k: nat, steps: seq<Step>, w: nat)
    requires k > 0 && CanRun(Init(n, k), steps)
    requires Held(Exec(Init(n, k), steps).capture, w)
    ensures var s := Exec(Init(n, k), steps);
            && w < |s.workers| && s.workers[w].phase == Parked && !s.workers[w].token && w !in s.ready
            && forall a :: 0 <= a < |s.asm| ==> !Owns(s.asm[a].Items(), w)
  {
    InitSafe(n, k);
    RunKeepsSafe(Init(n, k), steps);
    var s := Exec(Init(n, k), steps);
    assert WorkerOk(s, w) && CallOk(s, w);
    forall a | 0 <= a < |s.asm|
      ensures !Owns(s.asm[a].Items(), w)
    {
      assert a !in Holders(s.asm, w);
    }
  }

  /**
    Every HandlePackets call has a done signal there or coming for each batch it still waits for, except
    for those that were refused. The channel operations of workers and of the capture thread never block:
    a worker can always publish itself, the capture thread can always hand over, an assembly worker can
    always signal.
   */
  lemma SignalsArrive(n: nat, k: nat, steps: seq<Step>)
    requires k > 0 && CanRun(Init(n, k), steps)
    ensures var s := Exec(Init(n, k), steps);
            && (forall w :: 0 <= w < |s.workers| && s.workers[w].phase.Awaiting? ==>
                  s.workers[w].phase.left == s.workers[w].done + |Holders(s.asm, w)| + s.workers[w].lost)
            && (forall w :: 0 <= w < |s.workers| && s.workers[w].phase == Publishing ==> Enabled(s, Publish(w)))
            && (s.capture.Handing? ==> Enabled(s, HandOver))
            && (forall a :: 0 <= a < |s.asm| && s.asm[a].busy != [] ==> Enabled(s, Complete(a)))
  {
    InitSafe(n, k);
    RunKeepsSafe(Init(n, k), steps);
    var s := Exec(Init(n, k), steps);
    forall w | 0 <= w < |s.workers|
      ensures s.workers[w].phase.Awaiting? ==>
                s.workers[w].phase.left == s.workers[w].done + |Holders(s.asm, w)| + s.workers[w].lost
      ensures s.workers[w].phase == Publishing ==> |s.ready| < |s.workers|
    {
      assert WorkerOk(s, w) && CallOk(s, w);
      if s.workers[w].phase == Publishing {
        FewerThan(s.ready, |s.workers|, w);
      }
    }
    if s.capture.Handing? {
      assert WorkerOk(s, s.capture.w);
      FewerThan(s.ready, |s.workers|, s.capture.w);
    }
    forall a | 0 <= a < |s.asm| && s.asm[a].busy != []
      ensures Enabled(s, Complete(a))
    {
      SignalHasRoom(s, a);
    }
  }

  lemma SignalHasRoom(s: State, a: nat)
    requires Inv(s) && a < |s.asm| && s.asm[a].busy != []
    ensures s.asm[a].busy[0].owner < |s.workers| && s.workers[s.asm[a].busy[0].owner].done < |s.asm|
  {
    assert AssemblyOk(s, a);
    var w := s.asm[a].Items()[0].owner;
    assert CallOk(s, w);
    assert a in Holders(s.asm, w);
    assert |Holders(s.asm, w)| >= 1;
  }

  /** The packets that the steps of a run have read from the source. */
  ghost function Collected(steps: seq<Step>): multiset<Packet> {
    if steps == [] then multiset{}
    else
      (if steps[0].Collect? || steps[0].CollectError? then multiset(steps[0].batch) else multiset{})
      + Collected(steps[1..])
  }

  lemma StepCaptures(s: State, step: Step)
    requires ReadyOk(s) && Enabled(s, step)
    ensures Apply(s, step).captured == s.captured + Collected([step])
  {
    assert [step][1..] == [];
  }

  lemma {:induction false} RunCaptures(s: State, steps: seq<Step>)
    requires CanRun(s, steps)
    ensures Exec(s, steps).captured == s.captured + Collected(steps)
    decreases steps
  {
    if steps != [] {
      StepCaptures(s, steps[0]);
      assert [steps[0]][1..] == [];
      RunCaptures(Apply(s, steps[0]), steps[1..]);
    }
  }

  /**
    When Run returns, every worker has been closed exactly once, and what has been handled is exactly what
    was read from the source.
   */
  lemma Shutdown(n: nat, k: nat, steps: seq<Step>)
    requires k > 0 && CanRun(Init(n, k), steps)
    requires Exec(Init(n, k), steps).capture == Returned
    ensures var s := Exec(Init(n, k), steps);
            && (forall w :: 0 <= w < |s.workers| ==> s.workers[w].closes == 1)
            && s.handled == Collected(steps) && s.refusals == 0
  {
    InitSafe(n, k);
    RunKeepsSafe(Init(n, k), steps);
    var s := Exec(Init(n, k), steps);
    AllOnes(ClosedFlags(s));
    forall w | 0 <= w < |s.workers|
      ensures s.workers[w].closes == 1 && s.workers[w].phase in {Parked, Exited} && !s.workers[w].abandoned
      ensures !s.workers[w].token && Holders(s.asm, w) == {} && s.workers[w].lost == 0
    {
      assert ClosedFlags(s)[w] == 1;
      assert WorkerOk(s, w) && CallOk(s, w);
    }
    SumZero(Losses(s));
    RunCaptures(Init(n, k), steps);
    assert multiset{} + Collected(steps) == Collected(steps);
    forall a | 0 <= a < |s.asm|
      ensures s.asm[a].Items() == []
    {
      NobodyLeft(s, a);
    }
    forall p
      ensures s.handled[p] == s.captured[p]
    {
      assert Conserved(s, p);
      SumZero(Pending(s, p));
      SumZero(Carried(s, p));
    }
  }

  lemma NobodyLeft(s: State, a: nat)
    requires Inv(s) && a < |s.asm| && forall w :: 0 <= w < |s.workers| ==> Holders(s.asm, w) == {}
    ensures s.asm[a].Items() == []
  {
    assert AssemblyOk(s, a);
    if s.asm[a].Items() != [] {
      FirstHeld(s, a);
    }
  }

  lemma FirstHeld(s: State, a: nat)
    requires a < |s.asm| && s.asm[a].Items() != []
    ensures a in Holders(s.asm, s.asm[a].Items()[0].owner)
  {
    var items := s.asm[a].Items();
    assert Owns(items, items[0].owner);
  }

  // ---------------------------------------------------------------- no deadlock

  /** Nothing is queued or in progress at any assembly worker. */
  ghost predicate AssemblyIdle(s: State) {
    forall a :: 0 <= a < |s.asm| ==> s.asm[a].Items() == []
  }

  /** A worker that is not closed and not waiting for anybody can make a step. */
  lemma WorkerMoves(s: State, w: nat) returns (step: Step)
    requires Safe(s) && w < |s.workers| && s.workers[w].closes == 0 && !s.workers[w].abandoned
    requires w !in s.ready && !Held(s.capture, w) && AssemblyIdle(s) && s.workers[w].lost == 0
    ensures Enabled(s, step) && Apply(s, step).refusals == s.refusals
  {
    assert WorkerOk(s, w) && CallOk(s, w);
    assert Holders(s.asm, w) == {};
    match s.workers[w].phase
    case Publishing =>
      FewerThan(s.ready, |s.workers|, w);
      step := Publish(w);
    case Parked => step := Start(w);
    case Dispatching(todo, sent) => step := if todo == [] then AllSent(w) else Dispatch(w);
    case Awaiting(left) =>
      if left == 0 {
        step := Return(w);
      } else {
        step := Receive(w);
      }
  }

  lemma AssemblyMoves(s: State) returns (step: Step)
    requires Safe(s) && !AssemblyIdle(s)
    ensures Enabled(s, step) && Apply(s, step).refusals == s.refusals
  {
    var a :| 0 <= a < |s.asm| && s.asm[a].Items() != [];
    if s.asm[a].busy != [] {
      SignalHasRoom(s, a);
      step := Complete(a);
    } else {
      step := Pick(a);
    }
  }

  lemma {:induction false} SomeZero(flags: seq<nat>) returns (w: nat)
    requires Sum(flags) < |flags|
    ensures w < |flags| && flags[w] == 0
  {
    if flags[0] == 0 {
      w := 0;
    } else {
      w := SomeZero(flags[1..]);
      w := w + 1;
    }
  }

  /** A worker that waits for a signal that will not come, or that will not be told to stop. */
  ghost predicate StuckWorker(x: Worker) {
    x.abandoned || x.lost > 0
  }

  ghost predicate NobodyStuck(s: State) {
    forall w :: 0 <= w < |s.workers| ==> !StuckWorker(s.workers[w])
  }

  /** Unless a worker is stuck, some step can be taken until the capture thread has returned, and it refuses nothing. */
  lemma SomeStep(s: State) returns (step: Step)
    requires Safe(s) && |s.workers| > 0 && s.capture != Returned && NobodyStuck(s)
    ensures Enabled(s, step) && Apply(s, step).refusals == s.refusals
  {
    if AssemblyIdle(s) {
      step := IdleStep(s);
    } else {
      step := AssemblyMoves(s);
    }
  }

  lemma IdleStep(s: State) returns (step: Step)
    requires Safe(s) && |s.workers| > 0 && s.capture != Returned && NobodyStuck(s) && AssemblyIdle(s)
    ensures Enabled(s, step) && Apply(s, step).refusals == s.refusals
  {
    match s.capture
    case Filling(_) => step := Timeout;
    case Handing(w) =>
      assert WorkerOk(s, w);
      FewerThan(s.ready, |s.workers|, w);
      step := HandOver;
    case Polling =>
      if s.ready != [] {
        step := TakeReady;
      } else {
        step := WorkerMoves(s, 0);
      }
    case Draining(count) =>
      if count >= |s.workers| {
        step := Finish;
      } else if s.ready != [] {
        step := Drain;
      } else {
        var w := SomeZero(ClosedFlags(s));
        step := WorkerMoves(s, w);
      }
  }

  /** Unless a source error has left a worker out or a batch was refused, the pool never deadlocks, in any run. */
  lemma NoDeadlock(n: nat, k: nat, steps: seq<Step>) returns (step: Step)
    requires n > 0 && k > 0 && CanRun(Init(n, k), steps)
    requires Exec(Init(n, k), steps).capture != Returned && NobodyStuck(Exec(Init(n, k), steps))
    ensures Enabled(Exec(Init(n, k), steps), step)
  {
    InitSafe(n, k);
    RunKeepsSafe(Init(n, k), steps);
    RunKeepsSize(Init(n, k), steps);
    step := SomeStep(Exec(Init(n, k), steps));
  }

  lemma StuckNotReturned(s: State, w: nat)
    requires Safe(s) && w < |s.workers| && StuckWorker(s.workers[w])
    ensures s.capture != Returned && s.workers[w].closes == 0
  {
    assert WorkerOk(s, w) && CallOk(s, w);
    assert ClosedFlags(s)[w] == 0;
    if s.capture == Returned {
      AllOnes(ClosedFlags(s));
    }
  }

  lemma StepKeepsStuck(s: State, step: Step, w: nat)
    requires ReadyOk(s) && Enabled(s, step) && w < |s.workers| && StuckWorker(s.workers[w])
    ensures |Apply(s, step).workers| == |s.workers| && StuckWorker(Apply(s, step).workers[w])
  {
  }

  lemma {:induction false} RunKeepsStuck(s: State, steps: seq<Step>, w: nat)
    requires CanRun(s, steps) && w < |s.workers| && StuckWorker(s.workers[w])
    ensures |Exec(s, steps).workers| == |s.workers| && StuckWorker(Exec(s, steps).workers[w])
    decreases steps
  {
    if steps != [] {
      StepKeepsStuck(s, steps[0], w);
      RunKeepsStuck(Apply(s, steps[0]), steps[1..], w);
    }
  }

  /**
    A worker that a source error has left out, or one of whose batches was refused, is never closed, and
    the capture thread never returns, whatever happens from then on.
   */
  lemma StuckNeverReturns(n: nat, k: nat, steps: seq<Step>, w: nat, more: seq<Step>)
    requires k > 0 && CanRun(Init(n, k), steps) && CanRun(Exec(Init(n, k), steps), more)
    requires w < |Exec(Init(n, k), steps).workers| && StuckWorker(Exec(Init(n, k), steps).workers[w])
    ensures var end := Exec(Exec(Init(n, k), steps), more);
            w < |end.workers| && end.workers[w].closes == 0 && end.capture != Returned
  {
    InitSafe(n, k);
    RunKeepsSafe(Init(n, k), steps);
    RunKeepsSafe(Exec(Init(n, k), steps), more);
    RunKeepsStuck(Exec(Init(n, k), steps), more, w);
    StuckNotReturned(Exec(Exec(Init(n, k), steps), more), w);
  }

  lemma StepKeepsSize(s: State, step: Step)
    requires ReadyOk(s) && Enabled(s, step)
    ensures |Apply(s, step).workers| == |s.workers| && |Apply(s, step).asm| == |s.asm|
  {
  }

  lemma {:induction false} RunKeepsSize(s: State, steps: seq<Step>)
    requires CanRun(s, steps)
    ensures |Exec(s, steps).workers| == |s.workers| && |Exec(s, steps).asm| == |s.asm|
    decreases steps
  {
    if steps != [] {
      StepKeepsSize(s, steps[0]);
      RunKeepsSize(Apply(s, steps[0]), steps[1..]);
    }
  }

  // ---------------------------------------------------------------- more workers than queue slots

  /** The first j workers have each queued one packet for the first assembly worker, which has not started. */
  ghost predicate Flooded(s: State, n: nat, k: nat, j: nat) {
    && |s.workers| == n && |s.asm| == k > 0 && s.ready == [] && s.capture == Polling && s.asm[0].busy == []
    && |s.asm[0].queue| + s.refusals == j
    && (s.refusals > 0 ==> |s.asm[0].queue| == QUEUE_SIZE)
    && |s.asm[0].queue| <= QUEUE_SIZE
    && forall w :: j <= w < n ==> s.workers[w].phase == Publishing && !s.workers[w].token
  }

  /** A packet whose flow hash is 0 goes to the first assembly worker, however many there are. */
  const ONE := [Packet(0, 0)]

  function FloodSteps(w: nat): seq<Step> {
    [Publish(w), TakeReady, Collect(ONE), HandOver, Start(w), Dispatch(w)]
  }

  lemma OneGroup(k: nat)
    requires k > 0
    ensures |Partition(ONE, FlowSlot(k), k)| == k && Partition(ONE, FlowSlot(k), k)[0] == ONE
  {
    assert ONE[1..] == [];
    assert Group(ONE, FlowSlot(k), 0) == ONE;
  }

  lemma FloodStep(s: State, n: nat, k: nat, j: nat)
    requires Flooded(s, n, k, j) && j < n
    ensures CanRun(s, FloodSteps(j)) && Flooded(Exec(s, FloodSteps(j)), n, k, j + 1)
  {
    var s1, s2 := FloodTake(s, n, k, j);
    var s3, s4 := FloodFill(s2, n, k, j);
    var s5, s6 := FloodSend(s4, n, k, j);
    var steps := FloodSteps(j);
    assert steps[0] == Publish(j) && steps[1] == TakeReady && steps[2] == Collect(ONE);
    assert steps[3] == HandOver && steps[4] == Start(j) && steps[5] == Dispatch(j);
    Unfold6(s, s1, s2, s3, s4, s5, s6, steps);
  }

  /** Worker j is at the head of the line and the later ones have not started. */
  ghost predicate Taken(s: State, n: nat, k: nat, j: nat) {
    && |s.workers| == n && j < n && |s.asm| == k > 0 && s.ready == [] && s.capture == Filling(j) && s.asm[0].busy == []
    && s.workers[j].phase == Parked && !s.workers[j].token
    && forall w :: j < w < n ==> s.workers[w].phase == Publishing && !s.workers[w].token
  }

  lemma FloodTake(s: State, n: nat, k: nat, j: nat) returns (s1: State, s2: State)
    requires Flooded(s, n, k, j) && j < n
    ensures ReadyOk(s) && Enabled(s, Publish(j)) && s1 == Apply(s, Publish(j))
    ensures ReadyOk(s1) && Enabled(s1, TakeReady) && s2 == Apply(s1, TakeReady)
    ensures Taken(s2, n, k, j) && s2.asm == s.asm && s2.refusals == s.refusals
  {
    s1 := Apply(s, Publish(j));
    assert s1.ready == [j];
    s2 := Apply(s1, TakeReady);
  }

  lemma FloodFill(s2: State, n: nat, k: nat, j: nat) returns (s3: State, s4: State)
    requires Taken(s2, n, k, j)
    ensures ReadyOk(s2) && Enabled(s2, Collect(ONE)) && s3 == Apply(s2, Collect(ONE))
    ensures ReadyOk(s3) && Enabled(s3, HandOver) && s4 == Apply(s3, HandOver)
    ensures Offered(s4, n, k, j) && s4.asm == s2.asm && s4.refusals == s2.refusals
  {
    s3 := Apply(s2, Collect(ONE));
    s4 := Apply(s3, HandOver);
  }

  /** Worker j has been given its packet and the later ones have not started. */
  ghost predicate Offered(s: State, n: nat, k: nat, j: nat) {
    && |s.workers| == n && j < n && |s.asm| == k > 0 && s.ready == [] && s.capture == Polling && s.asm[0].busy == []
    && s.workers[j].phase == Parked && s.workers[j].token && s.workers[j].buffer == ONE
    && forall w :: j < w < n ==> s.workers[w].phase == Publishing && !s.workers[w].token
  }

  lemma FloodSend(s4: State, n: nat, k: nat, j: nat) returns (s5: State, s6: State)
    requires Offered(s4, n, k, j)
    requires |s4.asm[0].queue| + s4.refusals == j && |s4.asm[0].queue| <= QUEUE_SIZE
    requires s4.refusals > 0 ==> |s4.asm[0].queue| == QUEUE_SIZE
    ensures ReadyOk(s4) && Enabled(s4, Start(j)) && s5 == Apply(s4, Start(j))
    ensures ReadyOk(s5) && Enabled(s5, Dispatch(j)) && s6 == Apply(s5, Dispatch(j))
    ensures Flooded(s6, n, k, j + 1)
  {
    OneGroup(k);
    s5 := Apply(s4, Start(j));
    var groups := Partition(ONE, FlowSlot(k), k);
    assert s5.workers[j].phase == Dispatching(groups, 0) && groups[0] == ONE;
    s6 := Apply(s5, Dispatch(j));
  }

  lemma RunFirst(s: State, s': State, steps: seq<Step>)
    requires steps != [] && ReadyOk(s) && Enabled(s, steps[0]) && s' == Apply(s, steps[0]) && CanRun(s', steps[1..])
    ensures CanRun(s, steps) && Exec(s, steps) == Exec(s', steps[1..])
  {
  }

  lemma Unfold6(s: State, s1: State, s2: State, s3: State, s4: State, s5: State, s6: State, steps: seq<Step>)
    requires |steps| == 6
    requires ReadyOk(s) && Enabled(s, steps[0]) && s1 == Apply(s, steps[0])
    requires ReadyOk(s1) && Enabled(s1, steps[1]) && s2 == Apply(s1, steps[1])
    requires ReadyOk(s2) && Enabled(s2, steps[2]) && s3 == Apply(s2, steps[2])
    requires ReadyOk(s3) && Enabled(s3, steps[3]) && s4 == Apply(s3, steps[3])
    requires ReadyOk(s4) && Enabled(s4, steps[4]) && s5 == Apply(s4, steps[4])
    requires ReadyOk(s5) && Enabled(s5, steps[5]) && s6 == Apply(s5, steps[5])
    ensures CanRun(s, steps) && Exec(s, steps) == s6
  {
    assert steps[1..][1..] == steps[2..] && steps[2..][1..] == steps[3..] && steps[3..][1..] == steps[4..];
    assert steps[4..][1..] == steps[5..] && steps[5..][1..] == [];
    RunFirst(s5, s6, steps[5..]);
    RunFirst(s4, s5, steps[4..]);
    RunFirst(s3, s4, steps[3..]);
    RunFirst(s2, s3, steps[2..]);
    RunFirst(s1, s2, steps[1..]);
    RunFirst(s, s1, steps);
  }

  lemma {:induction false} RunConcat(s: State, a: seq<Step>, b: seq<Step>)
    requires CanRun(s, a) && CanRun(Exec(s, a), b)
    ensures CanRun(s, a + b) && Exec(s, a + b) == Exec(Exec(s, a), b)
    decreases a
  {
    if a == [] {
      assert a + b == b;
    } else {
      var s' := Peel(s, a);
      RunConcat(s', a[1..], b);
      Prepend(s, s', a, b);
    }
  }

  lemma Peel(s: State, a: seq<Step>) returns (s': State)
    requires a != [] && CanRun(s, a)
    ensures ReadyOk(s) && Enabled(s, a[0]) && s' == Apply(s, a[0])
    ensures CanRun(s', a[1..]) && Exec(s, a) == Exec(s', a[1..])
  {
    s' := Apply(s, a[0]);
  }

  lemma Prepend(s: State, s': State, a: seq<Step>, b: seq<Step>)
    requires a != [] && ReadyOk(s) && Enabled(s, a[0]) && s' == Apply(s, a[0]) && CanRun(s', a[1..] + b)
    ensures CanRun(s, a + b) && Exec(s, a + b) == Exec(s', a[1..] + b)
  {
    assert (a + b)[0] == a[0] && (a + b)[1..] == a[1..] + b;
    RunFirst(s, s', a + b);
  }

  lemma {:induction false} FloodRun(n: nat, k: nat, j: nat) returns (steps: seq<Step>)
    requires j <= n && k > 0
    ensures CanRun(Init(n, k), steps) && Flooded(Exec(Init(n, k), steps), n, k, j)
  {
    if j == 0 {
      steps := [];
    } else {
      var before := FloodRun(n, k, j - 1);
      FloodStep(Exec(Init(n, k), before), n, k, j - 1);
      RunConcat(Init(n, k), before, FloodSteps(j - 1));
      steps := before + FloodSteps(j - 1);
    }
  }

  /** With more than 128 decode workers some run refuses a batch, however many assembly workers there are. */
  lemma RefusalPossible(n: nat, k: nat) returns (steps: seq<Step>)
    requires n > 128 && k > 0
    ensures CanRun(Init(n, k), steps) && Exec(Init(n, k), steps).refusals > 0
  {
    steps := FloodRun(n, k, QUEUE_SIZE + 1);
  }

  /** The bound is exact: no run refuses a batch if and only if there are at most 128 decode workers. */
  lemma RefusalsExactly(n: nat, k: nat)
    requires k > 0
    ensures (forall steps :: CanRun(Init(n, k), steps) ==> Exec(Init(n, k), steps).refusals == 0) <==> n <= 128
  {
    if n <= QUEUE_SIZE {
      forall steps | CanRun(Init(n, k), steps)
        ensures Exec(Init(n, k), steps).refusals == 0
      {
        NoBatchRefused(n, k, steps);
      }
    } else {
      var steps := RefusalPossible(n, k);
      assert CanRun(Init(n, k), steps);
    }
  }
}
