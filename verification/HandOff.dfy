/**
  The hand-off between the capture thread, the decode workers and the assembly workers, as a machine
  whose steps are the channel operations of the program. Any number of workers of either kind may
  take steps in any order.
 */
module HandOff {
  import opened Grouping
  import opened Sums

  datatype Packet = Packet(id: nat, flowHash: nat)

  /** A batch on its way to an assembly worker, for one HandlePackets call of its owner. */
  datatype Item = Item(owner: nat, call: nat, packets: seq<Packet>)

  datatype Phase =
    | Publishing                                  // about to put itself on the ready queue
    | Parked                                      // receiving from its workReady channel
    | Dispatching(todo: seq<seq<Packet>>, sent: nat) // in HandlePackets, batches still to dispatch
    | Awaiting(left: nat)                         // in HandlePackets, done signals still to receive
    | Exited

  /**
    `token` is what the workReady channel holds, `closes` how often it was closed, `done` what the done
    channel of the current call holds. `lost` counts the worker's batches that were refused, which the
    program does not keep count of.
   */
  datatype Worker = Worker(
    phase: Phase,
    buffer: seq<Packet>,
    token: bool,
    closes: nat,
    abandoned: bool,
    call: nat,
    done: nat,
    lost: nat
  )

  /** The item an assembly worker is processing, if any, and its queue. */
  datatype Assembly = Assembly(busy: seq<Item>, queue: seq<Item>) {
    function Items(): seq<Item> { busy + queue }
  }

  datatype Capture = Polling | Filling(w: nat) | Handing(w: nat) | Draining(count: nat) | Returned

  datatype State = State(
    workers: seq<Worker>,
    ready: seq<nat>,
    capture: Capture,
    asm: seq<Assembly>,
    captured: multiset<Packet>,
    handled: multiset<Packet>,
    failed: multiset<Packet>,
    refused: multiset<Packet>,
    refusals: nat
  )

  const QUEUE_SIZE := 128

  datatype Step =
    | Publish(w: nat)
    | TakeReady
    | Timeout
    | Collect(batch: seq<Packet>)
    | CollectError(batch: seq<Packet>)
    | CollectEof
    | HandOver
    | Drain
    | Finish
    | Start(w: nat)
    | Exit(w: nat)
    | Dispatch(w: nat)
    | AllSent(w: nat)
    | Receive(w: nat)
    | Return(w: nat)
    | Pick(a: nat)
    | Complete(a: nat)

  function Init(decoders: nat, assemblers: nat): State {
    State(seq(decoders, _ => Worker(Publishing, [], false, 0, false, 0, 0, 0)), [], Polling,
          seq(assemblers, _ => Assembly([], [])), multiset{}, multiset{}, multiset{}, multiset{}, 0)
  }

  /** The assembly worker for a packet: both directions of a connection have the same flow hash. */
  function FlowSlot(assemblers: nat): Packet -> nat {
    (p: Packet) => if assemblers == 0 then 0 else p.flowHash % assemblers
  }

  /** Whether the step can be taken: its thread is at that point and its channel operation does not block. */
  predicate Enabled(s: State, step: Step) {
    var n, k := |s.workers|, |s.asm|;
    match step
    case Publish(w) => w < n && s.workers[w].phase == Publishing && |s.ready| < n
    case TakeReady => s.capture == Polling && s.ready != []
    case Timeout => s.capture.Filling?
    case Collect(_) => s.capture.Filling?
    case CollectError(_) => s.capture.Filling?
    case CollectEof => s.capture.Filling?
    case HandOver =>
      && s.capture.Handing? && s.capture.w < n
      && (if s.workers[s.capture.w].buffer != [] then !s.workers[s.capture.w].token else |s.ready| < n)
    case Drain => s.capture.Draining? && s.capture.count < n && s.ready != []
    case Finish => s.capture.Draining? && s.capture.count >= n
    case Start(w) => w < n && s.workers[w].phase == Parked && s.workers[w].token
    case Exit(w) => w < n && s.workers[w].phase == Parked && s.workers[w].closes > 0 && !s.workers[w].token
    case Dispatch(w) => w < n && s.workers[w].phase.Dispatching? && 0 < |s.workers[w].phase.todo| <= k
    case AllSent(w) => w < n && s.workers[w].phase.Dispatching? && s.workers[w].phase.todo == []
    case Receive(w) =>
      w < n && s.workers[w].phase.Awaiting? && s.workers[w].phase.left > 0 && s.workers[w].done > 0
    case Return(w) => w < n && s.workers[w].phase == Awaiting(0)
    case Pick(a) => a < k && s.asm[a].busy == [] && s.asm[a].queue != []
    case Complete(a) =>
      && a < k && s.asm[a].busy != []
      && (s.asm[a].busy[0].owner < n ==> s.workers[s.asm[a].busy[0].owner].done < k)
  }

  function CloseWorker(x: Worker): Worker { x.(closes := x.closes + 1) }

  function SetWorker(s: State, w: nat, x: Worker): State
    requires w < |s.workers|
  {
    s.(workers := s.workers[w := x])
  }

  function Apply(s: State, step: Step): State
    requires Enabled(s, step)
    requires ReadyOk(s)
  {
    match step
    case Publish(w) => SetWorker(s, w, s.workers[w].(phase := Parked)).(ready := s.ready + [w])
    case TakeReady => s.(capture := Filling(s.ready[0]), ready := s.ready[1..])
    case Timeout => SetWorker(s, s.capture.w, s.workers[s.capture.w].(buffer := []))
    case Collect(batch) =>
      SetWorker(s, s.capture.w, s.workers[s.capture.w].(buffer := batch))
      .(captured := s.captured + multiset(batch), capture := Handing(s.capture.w))
    case CollectError(batch) =>
      SetWorker(s, s.capture.w, s.workers[s.capture.w].(buffer := batch, abandoned := true))
      .(captured := s.captured + multiset(batch), failed := s.failed + multiset(batch), capture := Polling)
    case CollectEof =>
      SetWorker(s, s.capture.w, CloseWorker(s.workers[s.capture.w].(buffer := []))).(capture := Draining(1))
    case HandOver =>
      var w := s.capture.w;
      if s.workers[w].buffer != [] then SetWorker(s, w, s.workers[w].(token := true)).(capture := Polling)
      else s.(ready := s.ready + [w], capture := Polling)
    case Drain =>
      SetWorker(s, s.ready[0], CloseWorker(s.workers[s.ready[0]]))
      .(ready := s.ready[1..], capture := Draining(s.capture.count + 1))
    case Finish => s.(capture := Returned)
    case Start(w) =>
      var x := s.workers[w];
      SetWorker(s, w, x.(phase := Dispatching(Partition(x.buffer, FlowSlot(|s.asm|), |s.asm|), 0), token := false,
                         call := x.call + 1, done := 0))
    case Exit(w) => SetWorker(s, w, s.workers[w].(phase := Exited))
    case Dispatch(w) => ApplyDispatch(s, w)
    case AllSent(w) => SetWorker(s, w, s.workers[w].(phase := Awaiting(s.workers[w].phase.sent)))
    case Receive(w) =>
      var x := s.workers[w];
      SetWorker(s, w, x.(phase := Awaiting(x.phase.left - 1), done := x.done - 1))
    case Return(w) => SetWorker(s, w, s.workers[w].(phase := Publishing))
    case Pick(a) =>
      s.(asm := s.asm[a := Assembly([s.asm[a].queue[0]], s.asm[a].queue[1..])])
    case Complete(a) =>
      var item := s.asm[a].busy[0];
      var s' := s.(asm := s.asm[a := s.asm[a].(busy := s.asm[a].busy[1..])],
                   handled := s.handled + multiset(item.packets));
      if item.owner < |s.workers| && s.workers[item.owner].call == item.call then
        SetWorker(s', item.owner, s.workers[item.owner].(done := s.workers[item.owner].done + 1))
      else s'
  }

  /** One turn of the loop in HandlePackets: the next assembly worker's batch is queued, or refused if full. */
  function ApplyDispatch(s: State, w: nat): State
    requires w < |s.workers| && s.workers[w].phase.Dispatching? && 0 < |s.workers[w].phase.todo| <= |s.asm|
  {
    var x := s.workers[w];
    var todo, sent := x.phase.todo, x.phase.sent;
    var a := |s.asm| - |todo|;
    if todo[0] == [] then SetWorker(s, w, x.(phase := Dispatching(todo[1..], sent)))
    else
      var x' := x.(phase := Dispatching(todo[1..], sent + 1));
      if |s.asm[a].queue| < QUEUE_SIZE then
        SetWorker(s, w, x').(asm := s.asm[a := s.asm[a].(queue := s.asm[a].queue + [Item(w, x.call, todo[0])])])
      else
        SetWorker(s, w, x'.(lost := x.lost + 1))
        .(refused := s.refused + multiset(todo[0]), refusals := s.refusals + 1)
  }

  // ---------------------------------------------------------------- the invariant

  /** Assembly worker a has a batch of decode worker w, queued or in progress. */
  ghost predicate Owns(items: seq<Item>, w: nat) {
    exists i :: 0 <= i < |items| && items[i].owner == w
  }

  ghost function Holders(asm: seq<Assembly>, w: nat): set<nat> {
    set a | 0 <= a < |asm| && Owns(asm[a].Items(), w)
  }

  ghost predicate Held(c: Capture, w: nat) {
    (c.Filling? || c.Handing?) && c.w == w
  }

  /** A parked worker is in exactly one place, and other workers are in none of them. */
  ghost predicate WorkerOk(s: State, w: nat)
    requires w < |s.workers|
  {
    var x := s.workers[w];
    && (x.token ==> x.phase == Parked && x.closes == 0 && !x.abandoned && x.buffer != [])
    && (x.closes > 0 ==> x.closes == 1 && x.phase in {Parked, Exited} && !x.abandoned)
    && (x.abandoned ==> x.phase == Parked)
    && (w in s.ready ==> x.phase == Parked && !x.token && x.closes == 0 && !x.abandoned && !Held(s.capture, w))
    && (Held(s.capture, w) ==> x.phase == Parked && !x.token && x.closes == 0 && !x.abandoned)
    && (x.phase == Exited ==> x.closes > 0)
    && (x.phase == Parked ==> x.token || x.closes > 0 || x.abandoned || w in s.ready || Held(s.capture, w))
  }

  /** Every batch counted by a HandlePackets call is queued, in progress, refused, or has signalled. */
  ghost predicate CallOk(s: State, w: nat)
    requires w < |s.workers|
  {
    var x, holders := s.workers[w], Holders(s.asm, w);
    match x.phase
    case Dispatching(todo, sent) =>
      && |todo| <= |s.asm| && sent <= |s.asm| - |todo| && sent == x.done + |holders| + x.lost
      && forall a :: a in holders ==> a < |s.asm| - |todo|
    case Awaiting(left) => left <= |s.asm| && left == x.done + |holders| + x.lost
    case _ => holders == {} && x.lost == 0
  }

  ghost predicate AssemblyOk(s: State, a: nat)
    requires a < |s.asm|
  {
    var items := s.asm[a].Items();
    && |s.asm[a].busy| <= 1
    && (forall i, j :: 0 <= i < j < |items| ==> items[i].owner != items[j].owner)
    && (forall i :: 0 <= i < |items| ==>
          items[i].owner < |s.workers| && items[i].call == s.workers[items[i].owner].call)
  }

  predicate ReadyOk(s: State) {
    && (forall i :: 0 <= i < |s.ready| ==> s.ready[i] < |s.workers|)
    && (forall i, j :: 0 <= i < j < |s.ready| ==> s.ready[i] != s.ready[j])
    && (s.capture.Filling? || s.capture.Handing? ==> s.capture.w < |s.workers|)
  }

  ghost predicate Inv(s: State) {
    && ReadyOk(s)
    && (forall w :: 0 <= w < |s.workers| ==> WorkerOk(s, w))
    && (forall w :: 0 <= w < |s.workers| ==> CallOk(s, w))
    && (forall a :: 0 <= a < |s.asm| ==> AssemblyOk(s, a))
  }

  // ---------------------------------------------------------------- counting

  ghost function Below(n: nat): (r: set<nat>)
    ensures |r| == n && forall i :: i in r <==> 0 <= i < n
  {
    if n == 0 then {} else Below(n - 1) + {n - 1}
  }

  ghost function Members(xs: seq<nat>): set<nat> {
    set x | x in xs
  }

  lemma {:induction false} DistinctSet(xs: seq<nat>)
    requires forall i, j :: 0 <= i < j < |xs| ==> xs[i] != xs[j]
    ensures |Members(xs)| == |xs|
  {
    if xs != [] {
      var rest := xs[1..];
      DistinctSet(rest);
      assert xs[0] !in rest;
      assert xs == [xs[0]] + rest;
      assert Members(xs) == Members(rest) + {xs[0]};
    }
  }

  /** Distinct numbers below n that leave one out are fewer than n. */
  lemma FewerThan(xs: seq<nat>, n: nat, w: nat)
    requires forall i, j :: 0 <= i < j < |xs| ==> xs[i] != xs[j]
    requires w < n && w !in xs && forall i :: 0 <= i < |xs| ==> xs[i] < n
    ensures |xs| < n
  {
    DistinctSet(xs);
    SubsetSize(Members(xs), Below(n) - {w});
    assert |Below(n) - {w}| == n - 1;
  }

  // ---------------------------------------------------------------- every step keeps the invariant

  /** A step that changes one decode worker and its place leaves every other worker as it was. */
  lemma OneWorker(s: State, s': State, w: nat)
    requires Inv(s) && w < |s.workers| && ReadyOk(s')
    requires s'.asm == s.asm && |s'.workers| == |s.workers| && s'.workers == s.workers[w := s'.workers[w]]
    requires forall u :: 0 <= u < |s.workers| && u != w ==>
               (u in s'.ready <==> u in s.ready) && (Held(s'.capture, u) <==> Held(s.capture, u))
    requires WorkerOk(s', w) && CallOk(s', w)
    requires s'.workers[w].call == s.workers[w].call || Holders(s.asm, w) == {}
    ensures Inv(s')
  {
    forall u | 0 <= u < |s.workers|
      ensures WorkerOk(s', u) && CallOk(s', u)
    {
      if u != w {
        assert WorkerOk(s, u) && CallOk(s, u);
      }
    }
    forall a | 0 <= a < |s.asm|
      ensures AssemblyOk(s', a)
    {
      assert AssemblyOk(s, a);
      if s'.workers[w].call != s.workers[w].call {
        assert a !in Holders(s.asm, w);
      }
    }
  }

  lemma CaptureStepKeepsInv(s: State, step: Step)
    requires Inv(s) && Enabled(s, step)
    requires step in {TakeReady, Timeout, CollectEof, HandOver, Drain, Finish} || step.Collect? || step.CollectError?
    ensures Inv(Apply(s, step))
  {
    if step == TakeReady || step == Drain {
      ReadyStepKeepsInv(s, step);
    } else if step != Finish {
      HeldStepKeepsInv(s, step);
    } else {
      FinishKeepsInv(s);
    }
  }

  lemma ReadyStepKeepsInv(s: State, step: Step)
    requires Inv(s) && Enabled(s, step) && step in {TakeReady, Drain}
    ensures Inv(Apply(s, step))
  {
    var w := s.ready[0];
    assert w in s.ready && w !in s.ready[1..];
    assert WorkerOk(s, w) && CallOk(s, w);
    OneWorker(s, Apply(s, step), w);
  }

  lemma HeldStepKeepsInv(s: State, step: Step)
    requires Inv(s) && Enabled(s, step)
    requires step in {Timeout, CollectEof, HandOver} || step.Collect? || step.CollectError?
    ensures Inv(Apply(s, step))
  {
    var w := s.capture.w;
    assert WorkerOk(s, w) && CallOk(s, w);
    OneWorker(s, Apply(s, step), w);
  }

  lemma FinishKeepsInv(s: State)
    requires Inv(s) && Enabled(s, Finish)
    ensures Inv(Apply(s, Finish))
  {
    var s' := Apply(s, Finish);
    forall u | 0 <= u < |s.workers|
      ensures WorkerOk(s', u) && CallOk(s', u)
    {
      assert WorkerOk(s, u) && CallOk(s, u);
    }
    forall a | 0 <= a < |s.asm|
      ensures AssemblyOk(s', a)
    {
      assert AssemblyOk(s, a);
    }
  }

  lemma WorkerStepKeepsInv(s: State, step: Step)
    requires Inv(s) && Enabled(s, step)
    requires step.Publish? || step.Start? || step.Exit? || step.AllSent? || step.Receive? || step.Return?
    ensures Inv(Apply(s, step))
  {
    var s', w := Apply(s, step), step.w;
    assert WorkerOk(s, w) && CallOk(s, w);
    OneWorker(s, s', w);
  }

  /** Moving an item from the queue into progress changes nobody's batches. */
  lemma PickKeepsInv(s: State, a: nat)
    requires Inv(s) && Enabled(s, Pick(a))
    ensures Inv(Apply(s, Pick(a)))
  {
    var s' := Apply(s, Pick(a));
    assert s'.asm[a].Items() == s.asm[a].Items();
    forall u | 0 <= u < |s.workers|
      ensures WorkerOk(s', u) && CallOk(s', u)
    {
      assert WorkerOk(s, u) && CallOk(s, u);
      assert Holders(s'.asm, u) == Holders(s.asm, u);
    }
    forall b | 0 <= b < |s.asm|
      ensures AssemblyOk(s', b)
    {
      assert AssemblyOk(s, b);
    }
  }

  lemma HoldersAfter(asm: seq<Assembly>, a: nat, x: Assembly, u: nat)
    requires a < |asm|
    ensures Holders(asm[a := x], u) == (Holders(asm, u) - {a}) + if Owns(x.Items(), u) then {a} else {}
  {
  }

  /** A step that changes one decode worker and its batches at one assembly worker. */
  lemma OneBatch(s: State, s': State, a: nat, w: nat)
    requires Inv(s) && w < |s.workers| && a < |s.asm|
    requires s'.ready == s.ready && s'.capture == s.capture
    requires |s'.workers| == |s.workers| && s'.workers == s.workers[w := s'.workers[w]]
    requires |s'.asm| == |s.asm| && s'.asm == s.asm[a := s'.asm[a]]
    requires forall u :: 0 <= u < |s.workers| && u != w ==> (Owns(s'.asm[a].Items(), u) <==> Owns(s.asm[a].Items(), u))
    requires WorkerOk(s', w) && CallOk(s', w) && AssemblyOk(s', a) && s'.workers[w].call == s.workers[w].call
    ensures Inv(s')
  {
    forall u | 0 <= u < |s.workers|
      ensures WorkerOk(s', u) && CallOk(s', u)
    {
      if u != w {
        OtherWorker(s, s', a, u);
      }
    }
    forall b | 0 <= b < |s.asm|
      ensures AssemblyOk(s', b)
    {
      if b != a {
        OtherQueue(s, s', w, b);
      }
    }
  }

  lemma OtherWorker(s: State, s': State, a: nat, u: nat)
    requires u < |s.workers| && WorkerOk(s, u) && CallOk(s, u) && a < |s.asm|
    requires s'.ready == s.ready && s'.capture == s.capture
    requires |s'.workers| == |s.workers| && s'.workers[u] == s.workers[u]
    requires |s'.asm| == |s.asm| && s'.asm == s.asm[a := s'.asm[a]]
    requires Owns(s'.asm[a].Items(), u) <==> Owns(s.asm[a].Items(), u)
    ensures WorkerOk(s', u) && CallOk(s', u)
  {
    HoldersAfter(s.asm, a, s'.asm[a], u);
    assert Holders(s'.asm, u) == Holders(s.asm, u);
  }

  lemma OtherQueue(s: State, s': State, w: nat, b: nat)
    requires b < |s.asm| && AssemblyOk(s, b) && |s'.asm| == |s.asm| && s'.asm[b] == s.asm[b]
    requires w < |s.workers| && |s'.workers| == |s.workers| && s'.workers == s.workers[w := s'.workers[w]]
    requires s'.workers[w].call == s.workers[w].call
    ensures AssemblyOk(s', b)
  {
    assert s'.asm[b].Items() == s.asm[b].Items();
  }

  /** The owner of a completed item gets its signal: one batch fewer outstanding, one signal more. */
  lemma CompleteKeepsInv(s: State, a: nat)
    requires Inv(s) && Enabled(s, Complete(a))
    ensures Inv(Apply(s, Complete(a)))
  {
    var s', items := Apply(s, Complete(a)), s.asm[a].Items();
    assert AssemblyOk(s, a);
    var w := items[0].owner;
    CompletedOk(s, s', a);
    forall u | 0 <= u < |s.workers| && u != w
      ensures Owns(items[1..], u) <==> Owns(items, u)
    {
      OwnsTail(items, u);
    }
    OneBatch(s, s', a, w);
  }

  lemma CompletedOk(s: State, s': State, a: nat)
    requires Inv(s) && Enabled(s, Complete(a)) && s' == Apply(s, Complete(a))
    ensures var w := s.asm[a].busy[0].owner;
            && w < |s.workers| && s'.workers == s.workers[w := s'.workers[w]] && |s'.workers| == |s.workers|
            && s'.workers[w].call == s.workers[w].call && s'.asm[a].Items() == s.asm[a].Items()[1..]
            && AssemblyOk(s', a) && WorkerOk(s', w) && CallOk(s', w)
  {
    var items, w := s.asm[a].Items(), s.asm[a].busy[0].owner;
    assert AssemblyOk(s, a);
    assert items[0] == s.asm[a].busy[0] && items[0].owner == w;
    assert WorkerOk(s, w) && CallOk(s, w);
    assert s'.asm[a].Items() == items[1..];
    CompletedHolder(s.asm, a, s'.asm[a], w);
  }

  lemma CompletedHolder(asm: seq<Assembly>, a: nat, x: Assembly, w: nat)
    requires a < |asm| && asm[a].Items() != [] && asm[a].Items()[0].owner == w && x.Items() == asm[a].Items()[1..]
    requires forall i, j :: 0 <= i < j < |asm[a].Items()| ==> asm[a].Items()[i].owner != asm[a].Items()[j].owner
    ensures a in Holders(asm, w) && Holders(asm[a := x], w) == Holders(asm, w) - {a}
    ensures |Holders(asm[a := x], w)| == |Holders(asm, w)| - 1
  {
    var items := asm[a].Items();
    assert Owns(items, w) && !Owns(items[1..], w);
    HoldersAfter(asm, a, x, w);
  }

  lemma OwnsTail(items: seq<Item>, u: nat)
    requires items != [] && items[0].owner != u
    ensures Owns(items, u) <==> Owns(items[1..], u)
  {
    if Owns(items, u) {
      var i :| 0 <= i < |items| && items[i].owner == u;
      assert items[1..][i - 1].owner == u;
    }
  }

  /** The queue a worker is about to send to holds no batch of that worker, so it has fewer items than workers. */
  lemma QueueHasRoom(s: State, w: nat)
    requires Inv(s) && Enabled(s, Dispatch(w))
    ensures var a := |s.asm| - |s.workers[w].phase.todo|;
            |s.asm[a].queue| < |s.workers| && !Owns(s.asm[a].Items(), w)
  {
    var a := |s.asm| - |s.workers[w].phase.todo|;
    assert AssemblyOk(s, a) && CallOk(s, w);
    assert a !in Holders(s.asm, w);
    var items := s.asm[a].Items();
    var owners := seq(|items|, i requires 0 <= i < |items| => items[i].owner);
    assert forall i :: 0 <= i < |owners| ==> owners[i] == items[i].owner;
    assert w !in owners;
    FewerThan(owners, |s.workers|, w);
  }

  lemma DispatchKeepsInv(s: State, w: nat)
    requires Inv(s) && Enabled(s, Dispatch(w))
    ensures Inv(Apply(s, Dispatch(w)))
  {
    var s', x := Apply(s, Dispatch(w)), s.workers[w];
    var todo := x.phase.todo;
    var a := |s.asm| - |todo|;
    QueueHasRoom(s, w);
    assert WorkerOk(s, w) && CallOk(s, w);
    if todo[0] == [] || |s.asm[a].queue| >= QUEUE_SIZE {
      OneWorker(s, s', w);
    } else {
      EnqueueKeepsInv(s, s', a, w);
    }
  }

  lemma EnqueueKeepsInv(s: State, s': State, a: nat, w: nat)
    requires Inv(s) && Enabled(s, Dispatch(w)) && s' == Apply(s, Dispatch(w))
    requires s.workers[w].phase.todo[0] != [] && a == |s.asm| - |s.workers[w].phase.todo|
    requires |s.asm[a].queue| < QUEUE_SIZE && !Owns(s.asm[a].Items(), w)
    ensures Inv(s')
  {
    var x, items := s.workers[w], s.asm[a].Items();
    var item := Item(w, x.call, x.phase.todo[0]);
    assert AssemblyOk(s, a) && WorkerOk(s, w) && CallOk(s, w);
    assert s'.asm[a].Items() == items + [item];
    assert AssemblyOk(s', a) by { EnqueuedDistinct(items, item); }
    assert CallOk(s', w) by { EnqueuedHolder(s.asm, a, s'.asm[a], item); }
    forall u | 0 <= u < |s.workers| && u != w
      ensures Owns(items + [item], u) <==> Owns(items, u)
    {
      OwnsSnoc(items, item, u);
    }
    OneBatch(s, s', a, w);
  }

  lemma EnqueuedDistinct(items: seq<Item>, item: Item)
    requires forall i, j :: 0 <= i < j < |items| ==> items[i].owner != items[j].owner
    requires !Owns(items, item.owner)
    ensures var all := items + [item];
            forall i, j :: 0 <= i < j < |all| ==> all[i].owner != all[j].owner
  {
  }

  lemma EnqueuedHolder(asm: seq<Assembly>, a: nat, x: Assembly, item: Item)
    requires a < |asm| && x.Items() == asm[a].Items() + [item] && !Owns(asm[a].Items(), item.owner)
    ensures Holders(asm[a := x], item.owner) == Holders(asm, item.owner) + {a}
    ensures |Holders(asm[a := x], item.owner)| == |Holders(asm, item.owner)| + 1
  {
    OwnsSnoc(asm[a].Items(), item, item.owner);
    HoldersAfter(asm, a, x, item.owner);
    assert a !in Holders(asm, item.owner);
  }

  lemma OwnsSnoc(items: seq<Item>, item: Item, u: nat)
    ensures Owns(items + [item], u) <==> Owns(items, u) || item.owner == u
  {
    if Owns(items, u) {
      var i :| 0 <= i < |items| && items[i].owner == u;
      assert (items + [item])[i].owner == u;
    }
    if item.owner == u {
      assert (items + [item])[|items|].owner == u;
    }
  }
}
