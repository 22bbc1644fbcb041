/**
 * Pairing of the two directions of a connection: the worker that a packet is sent to, and the
 * stream factory that gives both directions of a connection the same consumer.
 */
module Pairing {
  import opened FlowHash

  type Address = seq<char>
  type Port = p: int | 0 <= p < 65536

  datatype Flow<E> = Flow(src: E, dst: E) {
    function Reverse(): Flow<E> {
      Flow(dst, src)
    }
  }

  datatype ConnectionKey = ConnectionKey(net: Flow<Address>, transport: Flow<Port>) {
    function Reverse(): ConnectionKey {
      ConnectionKey(net.Reverse(), transport.Reverse())
    }
  }

  /** A consumer, by its position in the order in which the factory created them. */
  type Consumer = nat

  datatype Stream = ClientStream(consumer: Consumer) | ServerStream(consumer: Consumer)

  /** A call of New: the key it looked up, what it returned, and the flow it was called for. */
  datatype Call = Call(key: ConnectionKey, consumer: Consumer, fromServer: bool, flow: ConnectionKey)

  // ---------- The assembly worker of a packet ----------

  /** FastHash of a flow is foreign code that promises to ignore the direction. */
  ghost predicate Symmetric<E(!new)>(fastHash: Flow<E> -> Word) {
    forall f :: fastHash(f) == fastHash(f.Reverse())
  }

  function Slot(netHash: Flow<Address> -> Word, portHash: Flow<Port> -> Word, key: ConnectionKey,
                workers: nat): (slot: nat)
    requires workers > 0
    ensures slot < workers
  {
    HashCombine(netHash(key.net), portHash(key.transport)) % workers
  }

  // ---------- The key of a connection ----------

  predicate FromServer(ports: set<int>, key: ConnectionKey) {
    key.transport.src in ports
  }

  /** The key that New looks up: the flow as seen from the server, if the ports tell. */
  function Canonical(ports: set<int>, key: ConnectionKey): ConnectionKey {
    if FromServer(ports, key) then key else key.Reverse()
  }

  /** The two directions meet under one key exactly when one of the ports is a memcache port. */
  lemma DirectionsMeet(ports: set<int>, a: Address, b: Address, p: Port, q: Port)
    ensures Canonical(ports, ConnectionKey(Flow(a, b), Flow(p, q)))
            == Canonical(ports, ConnectionKey(Flow(b, a), Flow(q, p)))
            <==> (p in ports) != (q in ports) || (a == b && p == q)
  {
  }

  /** Whatever shares a key also shares a worker, so one factory sees all calls for that key. */
  lemma KeyHasOneWorker(netHash: Flow<Address> -> Word, portHash: Flow<Port> -> Word, ports: set<int>,
                        f: ConnectionKey, g: ConnectionKey, workers: nat)
    requires workers > 0 && Symmetric(netHash) && Symmetric(portHash)
    requires Canonical(ports, f) == Canonical(ports, g)
    ensures Slot(netHash, portHash, f, workers) == Slot(netHash, portHash, g, workers)
  {
    assert g == f || g == f.Reverse() by {
      assert f.Reverse().Reverse() == f && g.Reverse().Reverse() == g;
    }
  }

  // ---------- History ----------

  /** How many of these calls were for this key. */
  function CallsFor(calls: seq<Call>, key: ConnectionKey): nat {
    if calls == [] then 0
    else CallsFor(calls[..|calls| - 1], key) + (if calls[|calls| - 1].key == key then 1 else 0)
  }

  /** The number of the pair that call i belongs to, among the calls for its key. */
  function PairOf(calls: seq<Call>, i: nat): nat
    requires i < |calls|
  {
    CallsFor(calls[..i], calls[i].key) / 2
  }

  /** Two calls got the same consumer exactly when they are the two calls of one pair. */
  ghost predicate Paired(calls: seq<Call>) {
    forall i, j :: 0 <= i < |calls| && 0 <= j < |calls| ==>
      (calls[i].consumer == calls[j].consumer <==> calls[i].key == calls[j].key && PairOf(calls, i) == PairOf(calls, j))
  }

  lemma {:induction false} CallsForGrows(calls: seq<Call>, i: nat, key: ConnectionKey)
    requires i <= |calls|
    ensures CallsFor(calls[..i], key) <= CallsFor(calls, key)
    decreases |calls|
  {
    if i < |calls| {
      var front := calls[..|calls| - 1];
      CallsForGrows(front, i, key);
      assert front[..i] == calls[..i];
    } else {
      assert calls[..i] == calls;
    }
  }

  lemma PairOfOlder(calls: seq<Call>, call: Call, i: nat)
    requires i < |calls|
    ensures PairOf(calls + [call], i) == PairOf(calls, i)
  {
    assert (calls + [call])[..i] == calls[..i];
  }

  lemma PairOfNewest(calls: seq<Call>, call: Call)
    ensures PairOf(calls + [call], |calls|) == CallsFor(calls, call.key) / 2
  {
    assert (calls + [call])[..|calls|] == calls;
  }

  lemma CallsForOneMore(calls: seq<Call>, call: Call, key: ConnectionKey)
    ensures CallsFor(calls + [call], key) == CallsFor(calls, key) + if call.key == key then 1 else 0
  {
    assert (calls + [call])[..|calls|] == calls;
  }

  /** Each call is one of the calls for its own key. */
  lemma CallsForCounts(calls: seq<Call>, i: nat)
    requires i < |calls|
    ensures CallsFor(calls[..i], calls[i].key) < CallsFor(calls, calls[i].key)
  {
    CallsForOneMore(calls[..i], calls[i], calls[i].key);
    assert calls[..i] + [calls[i]] == calls[..i + 1];
    CallsForGrows(calls, i + 1, calls[i].key);
  }

  /** What a half-open entry means: the consumer of the last call, whose partner is to come. */
  ghost predicate Tracks(calls: seq<Call>, halfOpen: map<ConnectionKey, Consumer>) {
    (forall key :: key in halfOpen <==> CallsFor(calls, key) % 2 == 1) &&
    (forall key :: key in halfOpen ==> exists i :: Opener(calls, i, key, halfOpen[key]))
  }

  predicate Opener(calls: seq<Call>, i: int, key: ConnectionKey, c: Consumer) {
    0 <= i < |calls| && calls[i].key == key && calls[i].consumer == c &&
    PairOf(calls, i) == CallsFor(calls, key) / 2
  }

  /** Each call is under the key of its flow, and takes for the server's side what comes from a memcache port. */
  ghost predicate Recorded(ports: set<int>, calls: seq<Call>) {
    forall i :: 0 <= i < |calls| ==>
      && calls[i].key == Canonical(ports, calls[i].flow)
      && (calls[i].fromServer <==> calls[i].flow.transport.src in ports)
  }

  ghost predicate BelowBound(calls: seq<Call>, created: nat) {
    forall i :: 0 <= i < |calls| ==> calls[i].consumer < created
  }

  // ---------- The invariant over one more call ----------

  lemma CloseKeepsPaired(calls: seq<Call>, i: nat, call: Call)
    requires Paired(calls) && Opener(calls, i, call.key, call.consumer)
    ensures Paired(calls + [call])
  {
    var after := calls + [call];
    PairOfNewest(calls, call);
    forall a | 0 <= a < |calls|
      ensures PairOf(after, a) == PairOf(calls, a) && after[a] == calls[a]
    {
      PairOfOlder(calls, call, a);
    }
  }

  lemma OpenKeepsPaired(calls: seq<Call>, created: nat, call: Call)
    requires Paired(calls) && BelowBound(calls, created) && call.consumer == created
    requires CallsFor(calls, call.key) % 2 == 0
    ensures Paired(calls + [call])
  {
    var key := call.key;
    var after := calls + [call];
    PairOfNewest(calls, call);
    forall a | 0 <= a < |calls|
      ensures PairOf(after, a) == PairOf(calls, a) && after[a] == calls[a]
      ensures calls[a].key == key ==> PairOf(calls, a) < CallsFor(calls, key) / 2
    {
      PairOfOlder(calls, call, a);
      CallsForCounts(calls, a);
    }
  }

  lemma OpenerStays(calls: seq<Call>, call: Call, i: int, key: ConnectionKey, c: Consumer)
    requires Opener(calls, i, key, c) && call.key != key
    ensures Opener(calls + [call], i, key, c)
  {
    PairOfOlder(calls, call, i);
    CallsForOneMore(calls, call, key);
  }

  lemma TracksNext(calls: seq<Call>, halfOpen: map<ConnectionKey, Consumer>, call: Call, next: map<ConnectionKey,
                   Consumer>)
    requires Tracks(calls, halfOpen)
    requires call.key in halfOpen ==> next == halfOpen - {call.key}
    requires call.key !in halfOpen ==> next == halfOpen[call.key := call.consumer]
    ensures Tracks(calls + [call], next)
  {
    var after := calls + [call];
    forall key
      ensures key in next <==> CallsFor(after, key) % 2 == 1
      ensures key in next ==> exists i :: Opener(after, i, key, next[key])
    {
      CallsForOneMore(calls, call, key);
      if key in next {
        if key == call.key {
          PairOfNewest(calls, call);
          assert Opener(after, |calls|, key, next[key]);
        } else {
          var i :| Opener(calls, i, key, halfOpen[key]);
          OpenerStays(calls, call, i, key, halfOpen[key]);
        }
      }
    }
  }

  // ---------- The stream factory ----------

  class StreamFactory {
    const memcachePorts: set<int>
    var halfOpen: map<ConnectionKey, Consumer>
    /** How many consumers createConsumer has made. */
    var created: nat
    ghost var calls: seq<Call>

    ghost predicate Valid()
      reads this
    {
      Tracks(calls, halfOpen) && Paired(calls) && BelowBound(calls, created) && Recorded(memcachePorts, calls)
    }

    constructor (ports: set<int>)
      ensures Valid() && memcachePorts == ports && calls == []
    {
      memcachePorts := ports;
      halfOpen := map[];
      created := 0;
      calls := [];
    }

    /** The stream for a newly seen direction of a connection. */
    method New(key: ConnectionKey) returns (stream: Stream)
      requires Valid()
      modifies this
      ensures Valid()
      ensures calls == old(calls) + [Call(Canonical(memcachePorts, key), stream.consumer, stream.ServerStream?, key)]
      ensures forall k :: k in halfOpen <==> CallsFor(calls, k) % 2 == 1
      ensures stream.ServerStream? <==> key.transport.src in memcachePorts
    {
      var ck := key;
      var fromServer := FromServer(memcachePorts, key);
      if !fromServer {
        ck := ck.Reverse();
      }
      var c;
      ghost var was := halfOpen;
      if ck in halfOpen {
        c := halfOpen[ck];
        ghost var i :| Opener(calls, i, ck, c);
        CloseKeepsPaired(calls, i, Call(ck, c, fromServer, key));
        halfOpen := halfOpen - {ck};
      } else {
        c := created;
        created := created + 1;
        OpenKeepsPaired(calls, c, Call(ck, c, fromServer, key));
        halfOpen := halfOpen[ck := c];
      }
      TracksNext(calls, was, Call(ck, c, fromServer, key), halfOpen);
      calls := calls + [Call(ck, c, fromServer, key)];
      stream := if fromServer then ServerStream(c) else ClientStream(c);
    }
  }

  /**
   * Calls for other connections do not come between the two calls of a pair: the 2n-th and the
   * next call for a key share a consumer, whatever happens in between.
   */
  lemma PartnersShare(calls: seq<Call>, i: nat, j: nat)
    requires Paired(calls) && i < j < |calls| && calls[i].key == calls[j].key
    requires CallsFor(calls[..j], calls[i].key) == CallsFor(calls[..i], calls[i].key) + 1
    ensures calls[i].consumer == calls[j].consumer <==> CallsFor(calls[..i], calls[i].key) % 2 == 0
  {
    assert PairOf(calls, i) == CallsFor(calls[..i], calls[i].key) / 2;
    assert PairOf(calls, j) == CallsFor(calls[..j], calls[i].key) / 2;
  }

  /**
   * With one memcache port, what is sent from that port is the server's side and what is sent to it the
   * client's side of one consumer, exactly if the two calls are the two of a pair.
   */
  lemma SidesOfOneConsumer(ports: set<int>, calls: seq<Call>, i: nat, j: nat, a: Address, b: Address, p: Port, q: Port)
    requires Paired(calls) && Recorded(ports, calls) && i < |calls| && j < |calls|
    requires calls[i].flow == ConnectionKey(Flow(a, b), Flow(p, q))
    requires calls[j].flow == ConnectionKey(Flow(b, a), Flow(q, p))
    requires p in ports && q !in ports
    ensures calls[i].fromServer && !calls[j].fromServer
    ensures calls[i].consumer == calls[j].consumer <==> PairOf(calls, i) == PairOf(calls, j)
  {
    DirectionsMeet(ports, a, b, p, q);
  }

  /** No consumer is ever shared by two different connections, nor by three calls. */
  lemma AtMostTwo(calls: seq<Call>, i: nat, j: nat, k: nat)
    requires Paired(calls) && i < j < k < |calls|
    requires calls[i].consumer == calls[j].consumer
    ensures calls[k].consumer != calls[i].consumer
  {
    if calls[k].consumer == calls[i].consumer {
      assert PairOf(calls, i) == PairOf(calls, j) == PairOf(calls, k);
      RankGrows(calls, i, j);
      RankGrows(calls, j, k);
    }
  }

  lemma RankGrows(calls: seq<Call>, i: nat, j: nat)
    requires i < j < |calls| && calls[i].key == calls[j].key
    ensures CallsFor(calls[..i], calls[i].key) < CallsFor(calls[..j], calls[i].key)
  {
    CallsForCounts(calls[..j], i);
    assert calls[..j][..i] == calls[..i];
  }
}
