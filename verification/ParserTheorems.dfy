/** The main results about the text-protocol parser. */
module ParserTheorems {
  import opened Streams
  import opened Text
  import opened TextMachine
  import opened Segmentation
  import opened Runs
  import opened Wire
  import opened Requests
  import opened Replies

  lemma {:induction false} CompletedAll(values: seq<Value>, last: string, n: int)
    requires n >= |Reply(values, last)|
    ensures Completed(values, n) == Hits(values)
    decreases |values|
  {
    if values != [] {
      CompletedAll(values[1..], last, n - ItemLength(values[0]));
      assert Hits(values) == [HitEvent(values[0])] + Hits(values[1..]);
    }
  }

  lemma CompleteWalk(r: Machine, ex: Exchange, owed: nat)
    requires r.running && r.client == Owing(owed)
    ensures var x := Walked(r, ValuesOf(ex), ex.last, Response(ex));
            Between(x, owed) && x.state == ReadCommand && x.events == r.events + AllHits(ex)
  {
    CompletedAll(ValuesOf(ex), ex.last, |Response(ex)|);
  }

  lemma StartOfReply(r: Machine, ex: Exchange)
    requires r.server == FRESH
    ensures Walked(r, ValuesOf(ex), ex.last, "") == r
  {
    FreshBlocks({'\n'});
    assert r.events + [] == r.events;
    assert |Response(ex)| > 0 by { ResponseNotEmpty(ValuesOf(ex), ex.last); }
  }

  lemma ResponseNotEmpty(values: seq<Value>, last: string)
    ensures |Reply(values, last)| > 0 && Completed(values, 0) == []
  {
  }

  ghost function Whole(): Behaviour {
    m => Settle(m)
  }

  /** How many of the client's bytes are missing after c of them. */
  function Missing(ex: Exchange, owed: string, c: nat): nat
    requires ex.words != [] && c <= |owed| + |Request(ex)|
  {
    |owed| + |Request(ex)| - c
  }

  /** The machine after part of an exchange depends only on how much of each side has gone by. */
  ghost function ExchangeAt(m: Machine, ex: Exchange, owed: string, c: nat, s: nat): Machine
    requires ex.words != [] && c <= |owed| + |Request(ex)| && s <= |Response(ex)|
  {
    if c < CommandEnd(ex, owed) then AtClient(Whole(), m, owed + Request(ex), c)
    else AtServer(m, ex, Missing(ex, owed, c), s)
  }

  lemma ReplyStarts(m: Machine, ex: Exchange, owed: nat)
    ensures AtServer(m, ex, owed, 0) == Requested(m, ex, owed)
  {
    assert Response(ex)[..0] == "";
    StartOfReply(Requested(m, ex, owed), ex);
  }

  lemma RequestDone(settle: Behaviour, m: Machine, ex: Exchange, owed: string, c: nat, left: nat)
    requires Lawful(settle) && Between(m, |owed|) && Wire.WellFormed(ex)
    requires CommandEnd(ex, owed) <= c <= |owed| + |Request(ex)| && left == Missing(ex, owed, c)
    ensures AtClient(settle, m, owed + Request(ex), c) == AtServer(m, ex, left, 0)
    ensures ex.Retrieval? ==> left == 0
  {
    NothingMissing(ex, owed, c);
    var r := Requested(m, ex, left);
    assert AtClient(settle, m, owed + Request(ex), c) == r by { ClientFull(settle, m, ex, owed, c); }
    assert AtServer(m, ex, left, 0) == r by { ReplyStarts(m, ex, left); }
  }

  lemma NothingMissing(ex: Exchange, owed: string, c: nat)
    requires Wire.WellFormed(ex) && CommandEnd(ex, owed) <= c <= |owed| + |Request(ex)|
    ensures ex.Retrieval? ==> Missing(ex, owed, c) == 0
  {
    RequestLength(ex);
  }

  function FeedOne(m: Machine, a: Arrival): Machine {
    if a.side == Client then FeedClient(m, a.seg) else FeedServer(m, a.seg)
  }

  function FeedEach(m: Machine, arrivals: seq<Arrival>): Machine
    decreases arrivals
  {
    if arrivals == [] then m else FeedEach(FeedOne(m, arrivals[0]), arrivals[1..])
  }

  lemma StepWithin(m: Machine, ex: Exchange, owed: string, c: nat, s: nat, a: Arrival, c1: nat, s1: nat)
    requires Between(m, |owed|) && Wire.WellFormed(ex) && Within(ex, owed, c, s) && Next(ex, owed, c, s, a)
    requires c1 == Moved(Client, c, a) && s1 == Moved(Server, s, a)
    ensures Within(ex, owed, c1, s1) && FeedOne(ExchangeAt(m, ex, owed, c, s), a) == ExchangeAt(m, ex, owed, c1, s1)
  {
    NextWithin(ex, owed, c, s, a);
    if a.side == Server {
      ReplyArrives(m, ex, owed, c, s, a.seg, s1);
    } else if c < CommandEnd(ex, owed) {
      CommandArrives(m, ex, owed, c, a.seg, c1);
    } else {
      RestArrives(m, ex, owed, c, s, a.seg, c1);
    }
  }

  /** A server segment. */
  lemma ReplyArrives(m: Machine, ex: Exchange, owed: string, c: nat, s: nat, seg: Segment, s1: nat)
    requires Between(m, |owed|) && Wire.WellFormed(ex) && Within(ex, owed, c, s) && CommandEnd(ex, owed) <= c
    requires DeliversOne(ex, Server, owed, s, seg) && s1 == s + Length(seg)
    ensures s1 <= |Response(ex)|
    ensures FeedServer(ExchangeAt(m, ex, owed, c, s), seg) == ExchangeAt(m, ex, owed, c, s1)
  {
    NothingMissing(ex, owed, c);
    ServerSegment(m, ex, owed, Missing(ex, owed, c), s, seg, s1);
  }

  /** A client segment that starts before the end of the command line. */
  lemma CommandArrives(m: Machine, ex: Exchange, owed: string, c: nat, seg: Segment, c1: nat)
    requires Between(m, |owed|) && Wire.WellFormed(ex) && c < CommandEnd(ex, owed)
    requires DeliversOne(ex, Client, owed, c, seg) && c1 == c + Length(seg)
    ensures c1 <= |owed| + |Request(ex)|
    ensures FeedClient(ExchangeAt(m, ex, owed, c, 0), seg) == ExchangeAt(m, ex, owed, c1, 0)
  {
    ClientSegment(Whole(), m, ex, owed, owed + Request(ex), c, seg, c1);
    if c1 >= CommandEnd(ex, owed) {
      RequestDone(Whole(), m, ex, owed, c1, Missing(ex, owed, c1));
    }
  }

  /** A client segment after the command line, before, during or after the response. */
  lemma RestArrives(m: Machine, ex: Exchange, owed: string, c: nat, s: nat, seg: Segment, c1: nat)
    requires Between(m, |owed|) && Wire.WellFormed(ex) && CommandEnd(ex, owed) <= c && s <= |Response(ex)|
    requires c < c1 == c + Length(seg) <= |owed| + |Request(ex)|
    ensures FeedClient(ExchangeAt(m, ex, owed, c, s), seg) == ExchangeAt(m, ex, owed, c1, s)
  {
    NothingMissing(ex, owed, c);
    var left := Missing(ex, owed, c);
    BlockArrives(m, ex, left, s, seg, AtServer(m, ex, left, s), AtServer(m, ex, left - Length(seg), s));
  }

  /**
    Every way of cutting both sides of an exchange into segments, of interleaving them, and of losing
    bytes inside values and data blocks leads to the same machine, which depends only on how much of
    each side has gone by. What is missing of a data block may come, or be reported lost, as late as
    with the next request.
   */
  lemma {:induction false} SegmentsInvisible(m: Machine, ex: Exchange, owed: string, c: nat, s: nat,
                                             arrivals: seq<Arrival>)
    requires Between(m, |owed|) && Wire.WellFormed(ex) && Within(ex, owed, c, s) && Arrives(ex, owed, c, s, arrivals)
    ensures Within(ex, owed, EndOf(Client, c, arrivals), EndOf(Server, s, arrivals))
    ensures FeedEach(ExchangeAt(m, ex, owed, c, s), arrivals)
            == ExchangeAt(m, ex, owed, EndOf(Client, c, arrivals), EndOf(Server, s, arrivals))
    decreases arrivals
  {
    if arrivals != [] {
      var a := arrivals[0];
      var c1, s1 := Moved(Client, c, a), Moved(Server, s, a);
      StepWithin(m, ex, owed, c, s, a, c1, s1);
      SegmentsInvisible(m, ex, owed, c1, s1, arrivals[1..]);
      FeedFirst(ExchangeAt(m, ex, owed, c, s), ExchangeAt(m, ex, owed, c1, s1), arrivals);
    }
  }

  lemma FeedFirst(x: Machine, y: Machine, arrivals: seq<Arrival>)
    requires arrivals != [] && FeedOne(x, arrivals[0]) == y
    ensures FeedEach(x, arrivals) == FeedEach(y, arrivals[1..])
  {
  }

  lemma StartsAt(m: Machine, ex: Exchange, owed: string)
    requires ex.words != []
    ensures Within(ex, owed, 0, 0) && ExchangeAt(m, ex, owed, 0, 0) == m
  {
    assert CommandEnd(ex, owed) > 0;
  }

  /**
    At every point of an exchange the events reported are exactly the hits whose VALUE header line is
    complete, in order; after the exchange the machine is back at the next command with nothing
    buffered, owing exactly what is missing of the data block.
   */
  lemma ExchangeReported(m: Machine, ex: Exchange, owed: string, arrivals: seq<Arrival>)
    requires Between(m, |owed|) && Wire.WellFormed(ex) && Arrives(ex, owed, 0, 0, arrivals)
    ensures var x, c, s := FeedEach(m, arrivals), EndOf(Client, 0, arrivals), EndOf(Server, 0, arrivals);
            && Within(ex, owed, c, s)
            && x.events == m.events + ReportedAfter(ex, s)
            && (s == |Response(ex)| ==>
                  && Between(x, Missing(ex, owed, c)) && x.state == ReadCommand
                  && x.events == m.events + AllHits(ex))
  {
    StartsAt(m, ex, owed);
    ResponseNotEmpty(ValuesOf(ex), ex.last);
    SegmentsInvisible(m, ex, owed, 0, 0, arrivals);
    ExchangeEvents(m, ex, owed, EndOf(Client, 0, arrivals), EndOf(Server, 0, arrivals));
  }

  lemma ExchangeEvents(m: Machine, ex: Exchange, owed: string, c: nat, s: nat)
    requires Between(m, |owed|) && Wire.WellFormed(ex) && Within(ex, owed, c, s)
    ensures ExchangeAt(m, ex, owed, c, s).events == m.events + ReportedAfter(ex, s)
    ensures s == |Response(ex)| ==>
              var x := ExchangeAt(m, ex, owed, c, s);
              Between(x, Missing(ex, owed, c)) && x.state == ReadCommand && x.events == m.events + AllHits(ex)
  {
    ResponseNotEmpty(ValuesOf(ex), ex.last);
    if c < CommandEnd(ex, owed) {
      assert m.events + [] == m.events;
      if c > 0 {
        ClientWaits(Whole(), m, ex, owed, c);
      }
    } else {
      AnsweredEvents(m, ex, Missing(ex, owed, c), s);
    }
  }

  lemma AnsweredEvents(m: Machine, ex: Exchange, left: nat, s: nat)
    requires m.running && s <= |Response(ex)|
    ensures AtServer(m, ex, left, s).events == m.events + ReportedAfter(ex, s)
    ensures s == |Response(ex)| ==>
              var x := AtServer(m, ex, left, s);
              Between(x, left) && x.state == ReadCommand && x.events == m.events + AllHits(ex)
  {
    FreshBlocks({'\n'});
    CompleteWalk(Requested(m, ex, left), ex, left);
    assert Response(ex)[..|Response(ex)|] == Response(ex);
  }

  // ---------------------------------------------------------------- whole conversations

  /** An exchange with the segments it travelled in. */
  datatype Played = Played(ex: Exchange, arrivals: seq<Arrival>)

  predicate WellPlayed(p: Played, owed: string) {
    && Wire.WellFormed(p.ex) && Arrives(p.ex, owed, 0, 0, p.arrivals)
    && EndOf(Client, 0, p.arrivals) <= |owed| + |Request(p.ex)|
    && EndOf(Server, 0, p.arrivals) == |Response(p.ex)|
  }

  /** The client's bytes that were neither delivered nor reported lost with this exchange. */
  function Left(p: Played, owed: string): string
    requires p.ex.words != [] && EndOf(Client, 0, p.arrivals) <= |owed| + |Request(p.ex)|
  {
    (owed + Request(p.ex))[EndOf(Client, 0, p.arrivals)..]
  }

  /** Each exchange starts with the bytes that the one before it has left. */
  predicate AllWellPlayed(ps: seq<Played>, owed: string) {
    ps == [] || (WellPlayed(ps[0], owed) && AllWellPlayed(ps[1..], Left(ps[0], owed)))
  }

  function LeftAfter(ps: seq<Played>, owed: string): string
    requires AllWellPlayed(ps, owed)
  {
    if ps == [] then owed else LeftAfter(ps[1..], Left(ps[0], owed))
  }

  function Play(m: Machine, ps: seq<Played>): Machine
    decreases ps
  {
    if ps == [] then m else Play(FeedEach(m, ps[0].arrivals), ps[1..])
  }

  lemma PlayedReported(m: Machine, p: Played, owed: string)
    requires Between(m, |owed|) && WellPlayed(p, owed)
    ensures var x := FeedEach(m, p.arrivals);
            Between(x, |Left(p, owed)|) && x.events == m.events + AllHits(p.ex)
  {
    ExchangeReported(m, p.ex, owed, p.arrivals);
  }

  function HitsOf(ps: seq<Played>): seq<Event> {
    if ps == [] then [] else AllHits(ps[0].ex) + HitsOf(ps[1..])
  }

  lemma AppendAssoc(a: seq<Event>, b: seq<Event>, c: seq<Event>)
    ensures a + b + c == a + (b + c)
  {
  }

  /** A conversation of any number of exchanges is reported completely and exactly. */
  lemma {:induction false} ConversationReported(m: Machine, ps: seq<Played>, owed: string)
    requires Between(m, |owed|) && AllWellPlayed(ps, owed)
    ensures Between(Play(m, ps), |LeftAfter(ps, owed)|) && Play(m, ps).events == m.events + HitsOf(ps)
    decreases ps
  {
    if ps == [] {
      assert m.events + [] == m.events;
    } else {
      var x, left := FeedEach(m, ps[0].arrivals), Left(ps[0], owed);
      assert Between(x, |left|) && x.events == m.events + AllHits(ps[0].ex) by { PlayedReported(m, ps[0], owed); }
      ConversationReported(x, ps[1..], left);
      assert x.events + HitsOf(ps[1..]) == m.events + HitsOf(ps) by {
        AppendAssoc(m.events, AllHits(ps[0].ex), HitsOf(ps[1..]));
      }
    }
  }

  /** The same at any point in the middle of a connection's conversation. */
  lemma ConnectionReported(ps: seq<Played>, ex: Exchange, arrivals: seq<Arrival>)
    requires AllWellPlayed(ps, "") && Wire.WellFormed(ex) && Arrives(ex, LeftAfter(ps, ""), 0, 0, arrivals)
    ensures FeedEach(Play(NEW, ps), arrivals).events == HitsOf(ps) + ReportedAfter(ex, EndOf(Server, 0, arrivals))
  {
    ConversationReported(NEW, ps, "");
    assert NEW.events + HitsOf(ps) == HitsOf(ps);
    ExchangeReported(Play(NEW, ps), ex, LeftAfter(ps, ""), arrivals);
  }

  // ---------------------------------------------------------------- recovery after loss

  lemma EmptyFits(seg: Segment, cap: nat)
    ensures Fits(EMPTY, seg.skip, seg.data, cap) <==> |seg.data| <= cap
  {
    var gap := Gap(if seg.skip < 0 then 0 else seg.skip);
    assert Shift(Incoming(seg.skip, seg.data), 0) == gap + Payload(seg.data);
    NumDataConcat(gap, Payload(seg.data));
    NumDataGap(|gap|);
    NumDataPayload(seg.data);
  }

  /**
    Between exchanges a server segment changes nothing, if and only if it fits an empty buffer: a
    larger one leaves an error behind in the reader.
   */
  lemma IdleIgnoresServer(m: Machine, owed: nat, seg: Segment)
    requires Between(m, owed)
    ensures var x := FeedServer(m, seg);
            && x.events == m.events && x.state == m.state
            && (Between(x, owed) <==> |seg.data| <= 32768)
  {
    EmptyFits(seg, BUFFER_SIZE);
    OwingBlocks(owed, {' ', '\n'});
  }

  lemma {:induction false} IdleIgnoresAll(m: Machine, owed: nat, segs: seq<Segment>)
    requires Between(m, owed) && forall s :: s in segs ==> |s.data| <= BUFFER_SIZE
    ensures Between(FeedServerAll(m, segs), owed) && FeedServerAll(m, segs).events == m.events
    decreases segs
  {
    if segs != [] {
      IdleIgnoresServer(m, owed, segs[0]);
      IdleIgnoresAll(FeedServer(m, segs[0]), owed, segs[1..]);
    }
  }

  /** Ready for a command, but the server's reader has failed. */
  ghost predicate Deaf(m: Machine, owed: nat) {
    Open(m, owed) && m.server == Live(EMPTY, false, false, true)
  }

  lemma OversizeDeafens(m: Machine, owed: nat, seg: Segment)
    requires Between(m, owed) && |seg.data| > BUFFER_SIZE
    ensures Deaf(FeedServer(m, seg), owed) && FeedServer(m, seg).events == m.events
  {
    EmptyFits(seg, BUFFER_SIZE);
    OwingBlocks(owed, {' ', '\n'});
  }

  /** No server segment changes that, ... */
  lemma {:induction false} DeafStays(m: Machine, owed: nat, segs: seq<Segment>)
    requires Deaf(m, owed)
    ensures Deaf(FeedServerAll(m, segs), owed) && FeedServerAll(m, segs).events == m.events
    decreases segs
  {
    if segs != [] {
      OwingBlocks(owed, {' ', '\n'});
      DeafStays(FeedServer(m, segs[0]), owed, segs[1..]);
    }
  }

  /** ... and when the next retrieval is complete, the machine resynchronises before its reply has come. */
  lemma {:induction false} DeafUntilRetrieval(settle: Behaviour, m: Machine, ex: Exchange, owed: string, c: nat,
                                              arrivals: seq<Arrival>, x: Machine)
    requires Lawful(settle) && Deaf(m, |owed|) && Wire.WellFormed(ex) && ex.Retrieval? && c < CommandEnd(ex, owed)
    requires Arrives(ex, owed, c, 0, arrivals) && forall a :: a in arrivals ==> a.side == Client
    requires EndOf(Client, c, arrivals) == CommandEnd(ex, owed)
    requires c <= |owed + Request(ex)| && x == AtClient(settle, m, owed + Request(ex), c)
    ensures var y := FeedEach(x, arrivals);
            Ready(y) && y.state == ReadCommand && y.events == m.events
    decreases arrivals
  {
    var c1, y := DeafSegment(settle, m, ex, owed, c, arrivals, x);
    FeedFirst(x, y, arrivals);
    if c1 < CommandEnd(ex, owed) {
      DeafUntilRetrieval(settle, m, ex, owed, c1, arrivals[1..], y);
    } else {
      NothingAfter(ex, owed, arrivals[1..]);
    }
  }

  lemma DeafSegment(settle: Behaviour, m: Machine, ex: Exchange, owed: string, c: nat, arrivals: seq<Arrival>,
                    x: Machine) returns (c1: nat, y: Machine)
    requires Lawful(settle) && Deaf(m, |owed|) && Wire.WellFormed(ex) && ex.Retrieval? && c < CommandEnd(ex, owed)
    requires arrivals != [] && Arrives(ex, owed, c, 0, arrivals) && forall a :: a in arrivals ==> a.side == Client
    requires c <= |owed + Request(ex)| && x == AtClient(settle, m, owed + Request(ex), c)
    ensures FeedOne(x, arrivals[0]) == y && Arrives(ex, owed, c1, 0, arrivals[1..])
    ensures EndOf(Client, c, arrivals) == EndOf(Client, c1, arrivals[1..])
    ensures c1 <= CommandEnd(ex, owed) == |owed + Request(ex)|
    ensures if c1 < CommandEnd(ex, owed) then y == AtClient(settle, m, owed + Request(ex), c1)
            else Ready(y) && y.state == ReadCommand && y.events == m.events
  {
    var seg := arrivals[0].seg;
    c1, y := c + Length(seg), FeedClient(x, seg);
    RestOfClient(ex, owed, c, arrivals, c1);
    FirstDeaf(settle, m, ex, owed, c, arrivals, x, c1, y);
  }

  lemma FirstDeaf(settle: Behaviour, m: Machine, ex: Exchange, owed: string, c: nat, arrivals: seq<Arrival>, x: Machine,
                  c1: nat, y: Machine)
    requires Lawful(settle) && Deaf(m, |owed|) && Wire.WellFormed(ex) && ex.Retrieval? && c < CommandEnd(ex, owed)
    requires arrivals != [] && Arrives(ex, owed, c, 0, arrivals) && arrivals[0].side == Client
    requires c <= |owed + Request(ex)| && x == AtClient(settle, m, owed + Request(ex), c)
    requires c1 == c + Length(arrivals[0].seg) && y == FeedClient(x, arrivals[0].seg)
    ensures c1 <= CommandEnd(ex, owed) == |owed + Request(ex)|
    ensures if c1 < CommandEnd(ex, owed) then y == AtClient(settle, m, owed + Request(ex), c1)
            else Ready(y) && y.state == ReadCommand && y.events == m.events
  {
    DeafOne(settle, m, ex, owed, owed + Request(ex), c, arrivals[0].seg, c1, x, y);
  }

  lemma DeafOne(settle: Behaviour, m: Machine, ex: Exchange, owed: string, wire: string, c: nat, seg: Segment, c1: nat,
                x: Machine, y: Machine)
    requires Lawful(settle) && Deaf(m, |owed|) && Wire.WellFormed(ex) && ex.Retrieval? && c < CommandEnd(ex, owed)
    requires wire == owed + Request(ex) && DeliversOne(ex, Client, owed, c, seg) && c1 == c + Length(seg)
    requires c <= |wire| && x == AtClient(settle, m, wire, c) && y == FeedClient(x, seg)
    ensures c1 <= CommandEnd(ex, owed) == |wire|
    ensures if c1 < CommandEnd(ex, owed) then y == AtClient(settle, m, wire, c1)
            else Ready(y) && y.state == ReadCommand && y.events == m.events
  {
    assert |wire| == CommandEnd(ex, owed) by { RequestLength(ex); }
    CommandSegment(settle, m, ex, owed, wire, c, seg, c1);
    if c1 >= CommandEnd(ex, owed) {
      DeafFails(settle, m, ex, owed);
    }
  }

  lemma RestOfClient(ex: Exchange, owed: string, c: nat, arrivals: seq<Arrival>, c1: nat)
    requires ex.words != [] && arrivals != [] && forall a :: a in arrivals ==> a.side == Client
    requires Arrives(ex, owed, c, 0, arrivals) && c1 == c + Length(arrivals[0].seg)
    ensures arrivals[0].side == Client && Arrives(ex, owed, c1, 0, arrivals[1..])
    ensures EndOf(Client, c, arrivals) == EndOf(Client, c1, arrivals[1..])
  {
    assert arrivals[0] in arrivals;
  }

  lemma NothingAfter(ex: Exchange, owed: string, arrivals: seq<Arrival>)
    requires ex.words != [] && ex.Retrieval? && forall a :: a in arrivals ==> a.side == Client
    requires Arrives(ex, owed, CommandEnd(ex, owed), 0, arrivals)
    ensures arrivals == []
  {
    RequestLength(ex);
  }

  lemma DeafFails(settle: Behaviour, m: Machine, ex: Exchange, owed: string)
    requires Lawful(settle) && Deaf(m, |owed|) && Wire.WellFormed(ex) && ex.Retrieval?
    ensures |owed + Request(ex)| == CommandEnd(ex, owed)
    ensures var (y, status) := ClientRun(settle, m, owed + Request(ex), CommandEnd(ex, owed));
            status == Fail && Ready(Resync(y)) && y.events == m.events
  {
    var wire := owed + CommandLine(ex);
    WholeRun(settle, m, wire);
    OwedGone(m, owed, CommandLine(ex));
    DeafLine(settle, m, ex, owed);
  }

  lemma WholeRun(settle: Behaviour, m: Machine, wire: string)
    ensures ClientRun(settle, m, wire, |wire|) == settle(ToClient(m, Payload(wire)))
  {
    assert wire[..|wire|] == wire;
  }

  lemma DeafLine(settle: Behaviour, m: Machine, ex: Exchange, owed: string)
    requires Lawful(settle) && Deaf(m, |owed|) && Wire.WellFormed(ex) && ex.Retrieval?
    ensures var (y, status) := settle(ToClient(m.(client := FRESH), Payload(CommandLine(ex))));
            status == Fail && Ready(Resync(y)) && y.events == m.events
  {
    var m0 := m.(client := Holding(CommandLine(ex)));
    var a := AfterCommand(m0, ex, "");
    TakeFresh(CommandLine(ex));
    assert Settle(m0) == Settle(a) by {
      assert CommandLine(ex) + "" == CommandLine(ex);
      ReadCommandLine(m0, ex, "");
    }
    DeafGet(a);
  }

  lemma DeafGet(m: Machine)
    requires m.state == HandleGet && |m.args| >= 1 && m.client.Live? && m.running
    requires m.server == Live(EMPTY, false, false, true)
    ensures Settle(m) == (m, Fail) && Ready(Resync(m))
  {
  }

  /** The reply of that retrieval is not reported; the conversation after it is. */
  lemma OversizeLosesNext(m: Machine, owed: string, seg: Segment, idle: seq<Segment>, ex: Exchange,
                          arrivals: seq<Arrival>, reply: seq<Segment>, ps: seq<Played>)
    requires Between(m, |owed|) && |seg.data| > BUFFER_SIZE
    requires Wire.WellFormed(ex) && ex.Retrieval? && Arrives(ex, owed, 0, 0, arrivals)
    requires EndOf(Client, 0, arrivals) == CommandEnd(ex, owed) && forall a :: a in arrivals ==> a.side == Client
    requires (forall s :: s in reply ==> |s.data| <= BUFFER_SIZE) && AllWellPlayed(ps, "")
    ensures var deaf := FeedServerAll(FeedServer(m, seg), idle);
            var x := FeedServerAll(FeedEach(deaf, arrivals), reply);
            Deaf(deaf, |owed|) && Ready(x) && x.events == m.events && Play(x, ps).events == m.events + HitsOf(ps)
  {
    OversizeDeafens(m, |owed|, seg);
    DeafStays(FeedServer(m, seg), |owed|, idle);
    var deaf := FeedServerAll(FeedServer(m, seg), idle);
    assert CommandEnd(ex, owed) > 0;
    DeafUntilRetrieval(Whole(), deaf, ex, owed, 0, arrivals, deaf);
    IdleIgnoresAll(FeedEach(deaf, arrivals), 0, reply);
    ConversationReported(FeedServerAll(FeedEach(deaf, arrivals), reply), ps, "");
  }

  ghost predicate SameReaders(m: Machine, m': Machine) {
    m'.client.Live? == m.client.Live? && m'.server.Live? == m.server.Live?
  }

  lemma PeekKeepsReaders(m: Machine)
    ensures StepPeek(m).1 != Wait ==> SameReaders(m, StepPeek(m).0)
  {
  }

  lemma CommandKeepsReaders(m: Machine)
    ensures SameReaders(m, StepCommand(m).0)
  {
  }

  lemma ArgsKeepReaders(m: Machine)
    ensures SameReaders(m, StepArgs(m).0)
  {
  }

  lemma ClientStepKeepsReaders(m: Machine)
    ensures StepPeek(m).1 != Wait ==> SameReaders(m, StepPeek(m).0)
    ensures SameReaders(m, StepCommand(m).0) && SameReaders(m, StepArgs(m).0)
  {
    PeekKeepsReaders(m);
    CommandKeepsReaders(m);
    ArgsKeepReaders(m);
  }

  lemma DiscardKeepsReaders(m: Machine)
    ensures SameReaders(m, StepDiscard(m).0)
  {
  }

  lemma GetKeepsReaders(m: Machine)
    ensures SameReaders(m, StepGet(m).0)
  {
  }

  lemma SetKeepsReaders(m: Machine)
    ensures SameReaders(m, StepSet(m).0)
  {
    DiscardKeepsReaders(m);
    if |m.args| >= 4 && Atoi(m.args[3]).Number? {
      DiscardKeepsReaders(m.(client := Skip(m.client, Atoi(m.args[3]).value + |CRLF|)));
    }
  }

  lemma ServerStepKeepsReaders(m: Machine)
    ensures SameReaders(m, StepDiscard(m).0) && SameReaders(m, StepGet(m).0) && SameReaders(m, StepSet(m).0)
  {
    DiscardKeepsReaders(m);
    GetKeepsReaders(m);
    SetKeepsReaders(m);
  }

  lemma StepKeepsReaders(m: Machine)
    requires Step(m).1 != Wait
    ensures SameReaders(m, Step(m).0)
  {
    if m.state in {PeekMagicByte, ReadCommand, ReadArgs} {
      var m0 := m.(server := Truncate(m.server));
      ClientStepKeepsReaders(m0);
      ClientStepKeepsReaders(m0.(args := []));
    } else {
      ServerStepKeepsReaders(m);
    }
  }

  lemma {:induction false} FailKeepsReaders(m: Machine)
    requires Settle(m).1 == Fail
    ensures SameReaders(m, Settle(m).0)
    decreases Weight(m.server), Weight(m.client), Rank(m.state)
  {
    StepKeepsReaders(m);
    if Step(m).1 == Continue {
      StepProgress(m);
      FailKeepsReaders(Step(m).0);
    }
  }

  /**
    After a server segment that makes the machine resynchronise, the rest of that response is ignored
    and every later exchange is reported exactly.
   */
  lemma Recovery(m: Machine, seg: Segment, rest: seq<Segment>, ps: seq<Played>)
    requires Ok(m) && m.running && m.client.Live? && m.server.Live?
    requires Settle(m.(server := Receive(m.server, seg.skip, seg.data))).1 == Fail
    requires forall s :: s in rest ==> |s.data| <= BUFFER_SIZE
    requires AllWellPlayed(ps, "")
    ensures var lost := FeedServer(m, seg);
            var x := FeedServerAll(lost, rest);
            && Ready(lost) && lost.state == ReadCommand
            && Ready(x) && x.events == lost.events
            && Between(Play(x, ps), |LeftAfter(ps, "")|) && Play(x, ps).events == lost.events + HitsOf(ps)
  {
    var m1 := m.(server := Receive(m.server, seg.skip, seg.data));
    ReceiveOk(m.server, seg);
    SettleKeepsOk(m1);
    FailKeepsReaders(m1);
    IdleIgnoresAll(FeedServer(m, seg), 0, rest);
    ConversationReported(FeedServerAll(FeedServer(m, seg), rest), ps, "");
  }

  /**
    A response is given up exactly when a loss is not harmless. Then what was reported stays, the rest of
    the response is ignored and every later exchange is reported exactly.
   */
  lemma LossRecovered(m: Machine, ex: Exchange, owed: string, c: nat, s: nat, seg: Segment, rest: seq<Segment>,
                      ps: seq<Played>)
    requires Between(m, |owed|) && Wire.WellFormed(ex) && Within(ex, owed, c, s)
    requires CommandEnd(ex, owed) <= c && s < |Response(ex)|
    requires Lead(seg) > 0 && !Harmless(ex, Server, owed, s, Lead(seg))
    requires Fits(ResidueOf(ex, Server, owed, s), seg.skip, seg.data, BUFFER_SIZE)
    requires (forall r :: r in rest ==> |r.data| <= BUFFER_SIZE) && AllWellPlayed(ps, "")
    ensures var x := FeedServerAll(FeedServer(ExchangeAt(m, ex, owed, c, s), seg), rest);
            && Ready(x) && x.events == m.events + ReportedAfter(ex, s)
            && Between(Play(x, ps), |LeftAfter(ps, "")|)
            && Play(x, ps).events == m.events + ReportedAfter(ex, s) + HitsOf(ps)
  {
    var left := Missing(ex, owed, c);
    var x := AtServer(m, ex, left, s);
    AtServerOk(m, ex, left, s);
    AtServerHolds(m, ex, left, s);
    HarmfulLossFails(m, ex, left, s, seg, x);
    FeedIsRun(x, seg);
    ExchangeEvents(m, ex, owed, c, s);
    Recovery(x, seg, rest, ps);
  }
}
