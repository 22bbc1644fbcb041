/** Where packets go: in every run the packets of one connection reach one assembly worker. */
module HandOffRouting {
  import opened HandOff
  import opened HandOffTheorems
  import opened Grouping
  import Pairing
  import FlowHash

  /** Packets whose flow hash sends them to assembly worker a of k. */
  ghost predicate Routed(packets: seq<Packet>, k: nat, a: nat) {
    k > 0 && forall p :: p in packets ==> p.flowHash % k == a
  }

  ghost predicate ItemsRouted(items: seq<Item>, k: nat, a: nat) {
    forall i :: 0 <= i < |items| ==> Routed(items[i].packets, k, a)
  }

  ghost predicate TodoRouted(todo: seq<seq<Packet>>, k: nat) {
    |todo| <= k && forall j :: 0 <= j < |todo| ==> Routed(todo[j], k, k - |todo| + j)
  }

  /** What is to be dispatched, queued or in progress is where it belongs. */
  ghost predicate RoutedOk(s: State) {
    && |s.asm| > 0
    && (forall a :: 0 <= a < |s.asm| ==> ItemsRouted(s.asm[a].Items(), |s.asm|, a))
    && (forall w :: 0 <= w < |s.workers| && s.workers[w].phase.Dispatching? ==>
          TodoRouted(s.workers[w].phase.todo, |s.asm|))
  }

  lemma PartitionRouted(dps: seq<Packet>, k: nat)
    requires k > 0
    ensures TodoRouted(Partition(dps, FlowSlot(k), k), k)
  {
    forall j | 0 <= j < k
      ensures Routed(Partition(dps, FlowSlot(k), k)[j], k, j)
    {
      GroupSlot(dps, FlowSlot(k), j);
    }
  }

  lemma TodoTail(todo: seq<seq<Packet>>, k: nat)
    requires TodoRouted(todo, k) && todo != []
    ensures Routed(todo[0], k, k - |todo|) && TodoRouted(todo[1..], k)
  {
    forall j | 0 <= j < |todo| - 1
      ensures Routed(todo[1..][j], k, k - |todo[1..]| + j)
    {
      assert todo[1..][j] == todo[j + 1];
    }
  }

  /** A step that leaves the assembly workers alone and gives no worker more to dispatch. */
  lemma RoutedFrame(s: State, s': State, w: nat)
    requires RoutedOk(s) && s'.asm == s.asm && |s'.workers| == |s.workers|
    requires forall u :: 0 <= u < |s.workers| && u != w ==> s'.workers[u].phase == s.workers[u].phase
    requires w < |s.workers| && s'.workers[w].phase.Dispatching? ==> TodoRouted(s'.workers[w].phase.todo, |s.asm|)
    ensures RoutedOk(s')
  {
  }

  lemma DispatchKeepsRouted(s: State, w: nat)
    requires RoutedOk(s) && Enabled(s, Dispatch(w))
    ensures RoutedOk(ApplyDispatch(s, w))
  {
    var s', todo := ApplyDispatch(s, w), s.workers[w].phase.todo;
    var a := |s.asm| - |todo|;
    TodoTail(todo, |s.asm|);
    if todo[0] != [] && |s.asm[a].queue| < QUEUE_SIZE {
      var item := Item(w, s.workers[w].call, todo[0]);
      assert s'.asm[a].Items() == s.asm[a].Items() + [item];
      assert ItemsRouted(s'.asm[a].Items(), |s.asm|, a);
    } else {
      RoutedFrame(s, s', w);
    }
  }

  lemma AssemblyStepKeepsRouted(s: State, step: Step)
    requires RoutedOk(s) && ReadyOk(s) && Enabled(s, step) && (step.Pick? || step.Complete?)
    ensures RoutedOk(Apply(s, step))
  {
    var s', a := Apply(s, step), step.a;
    assert s'.asm[a].Items() == if step.Pick? then s.asm[a].Items() else s.asm[a].Items()[1..];
    assert ItemsRouted(s'.asm[a].Items(), |s.asm|, a);
    assert forall w :: 0 <= w < |s.workers| ==> s'.workers[w].phase == s.workers[w].phase;
  }

  lemma StepKeepsRouted(s: State, step: Step)
    requires RoutedOk(s) && ReadyOk(s) && Enabled(s, step)
    ensures RoutedOk(Apply(s, step)) && |Apply(s, step).asm| == |s.asm|
  {
    var s' := Apply(s, step);
    match step
    case Dispatch(w) => DispatchKeepsRouted(s, w);
    case Pick(_) => AssemblyStepKeepsRouted(s, step);
    case Complete(_) => AssemblyStepKeepsRouted(s, step);
    case Start(w) =>
      PartitionRouted(s.workers[w].buffer, |s.asm|);
      RoutedFrame(s, s', w);
    case _ => OtherStepKeepsRouted(s, step);
  }

  lemma OtherStepKeepsRouted(s: State, step: Step)
    requires RoutedOk(s) && ReadyOk(s) && Enabled(s, step)
    requires !step.Dispatch? && !step.Pick? && !step.Complete? && !step.Start?
    ensures RoutedOk(Apply(s, step)) && Apply(s, step).asm == s.asm
  {
    var s' := Apply(s, step);
    assert |s'.workers| == |s.workers|;
    assert forall u :: 0 <= u < |s.workers| && s'.workers[u].phase.Dispatching? ==>
                         s'.workers[u].phase == s.workers[u].phase;
  }

  lemma {:induction false} RunKeepsRouted(s: State, steps: seq<Step>)
    requires RoutedOk(s) && CanRun(s, steps)
    ensures RoutedOk(Exec(s, steps)) && |Exec(s, steps).asm| == |s.asm|
    decreases steps
  {
    if steps != [] {
      StepKeepsRouted(s, steps[0]);
      RunKeepsRouted(Apply(s, steps[0]), steps[1..]);
    }
  }

  /** Packet p is queued or in progress at assembly worker a. */
  ghost predicate At(s: State, a: nat, p: Packet) {
    a < |s.asm| && exists i :: 0 <= i < |s.asm[a].Items()| && p in s.asm[a].Items()[i].packets
  }

  /** In every run, a packet is only ever queued or in progress at the worker its flow hash names. */
  lemma PacketsRouted(n: nat, k: nat, steps: seq<Step>, a: nat, p: Packet)
    requires k > 0 && CanRun(Init(n, k), steps) && At(Exec(Init(n, k), steps), a, p)
    ensures p.flowHash % k == a
  {
    assert RoutedOk(Init(n, k));
    RunKeepsRouted(Init(n, k), steps);
    var s := Exec(Init(n, k), steps);
    var i :| 0 <= i < |s.asm[a].Items()| && p in s.asm[a].Items()[i].packets;
    assert Routed(s.asm[a].Items()[i].packets, k, a);
  }

  /** The flow hash that decoding gives the packets of one direction of a connection. */
  function HashOf(netHash: Pairing.Flow<Pairing.Address> -> FlowHash.Word,
                  portHash: Pairing.Flow<Pairing.Port> -> FlowHash.Word, flow: Pairing.ConnectionKey): nat {
    FlowHash.HashCombine(netHash(flow.net), portHash(flow.transport))
  }

  /**
    Both directions of a connection reach the same assembly worker, and so the same stream factory, at any
    two moments of a run: packets of flows that the factory keeps under one key are never at two workers.
   */
  lemma ConnectionHasOneWorker(netHash: Pairing.Flow<Pairing.Address> -> FlowHash.Word,
                               portHash: Pairing.Flow<Pairing.Port> -> FlowHash.Word, ports: set<int>,
                               f: Pairing.ConnectionKey, g: Pairing.ConnectionKey, n: nat, k: nat,
                               early: seq<Step>, late: seq<Step>, a: nat, b: nat, p: Packet, q: Packet)
    requires Pairing.Symmetric(netHash) && Pairing.Symmetric(portHash)
    requires Pairing.Canonical(ports, f) == Pairing.Canonical(ports, g)
    requires p.flowHash == HashOf(netHash, portHash, f) && q.flowHash == HashOf(netHash, portHash, g)
    requires k > 0 && CanRun(Init(n, k), early) && CanRun(Init(n, k), late)
    requires At(Exec(Init(n, k), early), a, p) && At(Exec(Init(n, k), late), b, q)
    ensures a == b == Pairing.Slot(netHash, portHash, f, k)
  {
    PacketsRouted(n, k, early, a, p);
    PacketsRouted(n, k, late, b, q);
    Pairing.KeyHasOneWorker(netHash, portHash, ports, f, g, k);
  }
}
