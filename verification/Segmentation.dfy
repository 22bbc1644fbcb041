/**
  The parser does not see segment boundaries: for every machine state and every bytes, reading a
  segment to a standstill and then the next one is the same as having had both from the start.
 */
module Segmentation {
  import opened Streams
  import opened Text
  import opened TextMachine

  ghost predicate SourceOk(src: Source) {
    src.Live? ==> src.stream.Valid() && !src.eof
  }

  /** Holds of a new machine and is kept by every step and every segment; see FeedKeepsOk. */
  ghost predicate Ok(m: Machine) {
    && SourceOk(m.client) && SourceOk(m.server)
    && (m.state == HandleSet && m.client.Live? ==> m.client.stream.debt <= 0)
    && (m.state == ReadArgs ==> CommandState(m.cmd) != HandleUnknown)
    && (!m.running ==> m.state == PeekMagicByte && m.client == EofSource && m.server == EofSource)
  }

  function ToClient(m: Machine, incoming: seq<Cell>): Machine {
    m.(client := Take(m.client, incoming))
  }

  function ToServer(m: Machine, incoming: seq<Cell>): Machine {
    m.(server := Take(m.server, incoming))
  }

  // ---------------------------------------------------------------- sources

  lemma ReadUntilTake(src: Source, chars: set<char>, incoming: seq<Cell>)
    requires SourceOk(src)
    ensures var r := ReadUntil(src, chars);
            && (r.Got? ==> ReadUntil(Take(src, incoming), chars) == Got(r.text, Take(r.rest, incoming)))
            && (r.Failure? ==> ReadUntil(Take(src, incoming), chars) == Failure)
            && (r.Got? ==> SourceOk(r.rest) && r.rest.Live? && r.rest.stream.debt == 0)
  {
    if src.Live? {
      ReadThroughStable(src.stream, chars, incoming);
    }
  }

  lemma SkipTake(src: Source, n: int, incoming: seq<Cell>)
    requires SourceOk(src) && incoming != []
    requires n >= 0 || (src.Live? ==> src.stream.debt <= 0)
    ensures Skip(Take(src, incoming), n) == Take(Skip(src, n), incoming)
    ensures SourceOk(Skip(src, n))
  {
    if src.Live? {
      DiscardPushCommute(src.stream, n, incoming);
    }
  }

  lemma TakeOk(src: Source, incoming: seq<Cell>)
    requires SourceOk(src)
    ensures SourceOk(Take(src, incoming))
    ensures src.Live? && src.stream.debt <= 0 ==> Take(src, incoming).stream.debt <= 0
  {
  }

  // ---------------------------------------------------------------- one step with more data there

  /**
    `step` is a step taken, `more` the step taken from the same state with more data, and `after` the
    result of `step` with that data added: a nil-returning step is the same step, a failing step
    fails, and after a waiting step the next step is what it would have been.
   */
  ghost predicate Agrees(step: (Machine, Status), more: (Machine, Status), after: Machine) {
    match step.1
    case Continue => more == (after, Continue)
    case Fail => more.1 == Fail
    case Wait => Step(after) == more
  }

  lemma CommandToClient(m: Machine, incoming: seq<Cell>)
    requires SourceOk(m.client) && m.state == ReadCommand && m.args == [] && Truncate(m.server) == m.server
    ensures Agrees(StepCommand(m), StepCommand(ToClient(m, incoming)), ToClient(StepCommand(m).0, incoming))
  {
    var r := ReadUntil(m.client, {' ', '\n'});
    ReadUntilTake(m.client, {' ', '\n'}, incoming);
    if r.Got? {
      OnCommandToClient(m, r, incoming);
    }
  }

  lemma OnCommandToClient(m: Machine, r: Read, incoming: seq<Cell>)
    requires r.Got?
    ensures OnCommand(ToClient(m, incoming), Got(r.text, Take(r.rest, incoming)))
            == (ToClient(OnCommand(m, r).0, incoming), OnCommand(m, r).1)
    ensures OnCommand(m, r).1 != Wait
  {
  }

  lemma ArgsToClient(m: Machine, incoming: seq<Cell>)
    requires SourceOk(m.client) && m.state == ReadArgs && Truncate(m.server) == m.server
    ensures Agrees(StepArgs(m), StepArgs(ToClient(m, incoming)), ToClient(StepArgs(m).0, incoming))
  {
    ReadUntilTake(m.client, {' ', '\n'}, incoming);
  }

  lemma SetToClient(m: Machine, incoming: seq<Cell>)
    requires Ok(m) && m.state == HandleSet && incoming != []
    ensures Agrees(StepSet(m), StepSet(ToClient(m, incoming)), ToClient(StepSet(m).0, incoming))
  {
    if |m.args| >= 4 && Atoi(m.args[3]).Number? {
      SkipTake(m.client, Atoi(m.args[3]).value + |CRLF|, incoming);
    }
  }

  ghost predicate PeeksGap(m: Machine) {
    && m.state == PeekMagicByte && m.client.Live?
    && m.client.stream.cells != [] && m.client.stream.cells[0].Lost?
  }

  lemma PeekToClient(m: Machine, incoming: seq<Cell>)
    requires SourceOk(m.client) && m.state == PeekMagicByte && !PeeksGap(m) && Truncate(m.server) == m.server
    ensures Agrees(StepPeek(m), StepPeek(ToClient(m, incoming)), ToClient(StepPeek(m).0, incoming))
  {
    if m.client.Live? && m.client.stream.cells != [] {
      PushBuffered(m.client.stream.cells, incoming);
    }
  }

  lemma DiscardToClient(m: Machine, incoming: seq<Cell>)
    ensures Agrees(StepDiscard(m), StepDiscard(ToClient(m, incoming)), ToClient(StepDiscard(m).0, incoming))
  {
  }

  lemma GetToClient(m: Machine, incoming: seq<Cell>)
    requires m.state == HandleGet && |m.args| >= 1
    ensures Agrees(StepGet(m), StepGet(ToClient(m, incoming)), ToClient(StepGet(m).0, incoming))
  {
  }

  lemma StepToClient(m: Machine, incoming: seq<Cell>)
    requires Ok(m) && !PeeksGap(m) && incoming != []
    ensures Agrees(Step(m), Step(ToClient(m, incoming)), ToClient(Step(m).0, incoming))
  {
    var m0 := m.(server := Truncate(m.server));
    match m.state
    case PeekMagicByte => PeekToClient(m0, incoming);
    case ReadCommand => CommandToClient(m0.(args := []), incoming);
    case ReadArgs => ArgsToClient(m0, incoming);
    case HandleGet => if |m.args| >= 1 { GetToClient(m, incoming); } else { DiscardToClient(m, incoming); }
    case HandleSet => SetToClient(m, incoming);
    case HandleUnknown => DiscardToClient(m, incoming);
    case DiscardResponse => DiscardToClient(m, incoming);
    case _ =>
  }

  /** No client bytes are buffered, so no further command can have been sent. */
  ghost predicate ClientIdle(m: Machine) {
    m.client.Live? ==> m.client.stream.cells == []
  }

  lemma DiscardToServer(m: Machine, incoming: seq<Cell>)
    requires SourceOk(m.server)
    ensures Agrees(StepDiscard(m), StepDiscard(ToServer(m, incoming)), ToServer(StepDiscard(m).0, incoming))
  {
    ReadUntilTake(m.server, {'\n'}, incoming);
  }

  lemma GetToServer(m: Machine, incoming: seq<Cell>)
    requires SourceOk(m.server) && m.state == HandleGet && |m.args| >= 1 && incoming != []
    ensures Agrees(StepGet(m), StepGet(ToServer(m, incoming)), ToServer(StepGet(m).0, incoming))
  {
    ReadUntilTake(m.server, {'\n'}, incoming);
    var r := ReadUntil(m.server, {'\n'});
    if r.Got? {
      ReplyToServer(m.(server := r.rest), ParseReply(TrimEol(r.text)), incoming);
    }
  }

  lemma ReplyToServer(m: Machine, h: ReplyLine, incoming: seq<Cell>)
    requires SourceOk(m.server) && m.server.Live? && m.server.stream.debt == 0 && incoming != []
    ensures var (m', status) := OnReply(m, h);
            var (n', nstatus) := OnReply(ToServer(m, incoming), h);
            nstatus == status && status != Wait && (status == Continue ==> n' == ToServer(m', incoming))
  {
    if h.ValueHeader? {
      SkipTake(m.server, h.size + |CRLF|, incoming);
    }
  }

  lemma SetToServer(m: Machine, incoming: seq<Cell>)
    requires SourceOk(m.server) && m.state == HandleSet
    ensures Agrees(StepSet(m), StepSet(ToServer(m, incoming)), ToServer(StepSet(m).0, incoming))
  {
    if |m.args| >= 4 && Atoi(m.args[3]).Number? {
      SetValueToServer(m, Atoi(m.args[3]).value, incoming);
    } else {
      DiscardToServer(m, incoming);
    }
  }

  lemma SetValueToServer(m: Machine, size: int, incoming: seq<Cell>)
    requires SourceOk(m.server) && m.state == HandleSet && |m.args| >= 4 && Atoi(m.args[3]) == Number(size)
    ensures Agrees(StepSet(m), StepSet(ToServer(m, incoming)), ToServer(StepSet(m).0, incoming))
  {
    DiscardToServer(m.(client := Skip(m.client, size + |CRLF|)), incoming);
  }

  lemma StepToServer(m: Machine, incoming: seq<Cell>)
    requires Ok(m) && ClientIdle(m) && incoming != []
    ensures Agrees(Step(m), Step(ToServer(m, incoming)), ToServer(Step(m).0, incoming))
  {
    match m.state
    case HandleGet => if |m.args| >= 1 { GetToServer(m, incoming); } else { DiscardToServer(m, incoming); }
    case HandleSet => SetToServer(m, incoming);
    case HandleUnknown => DiscardToServer(m, incoming);
    case DiscardResponse => DiscardToServer(m, incoming);
    case _ =>
  }

  // ---------------------------------------------------------------- what every step keeps

  lemma ReadUntilOk(src: Source, chars: set<char>)
    requires SourceOk(src) && ReadUntil(src, chars).Got?
    ensures var rest := ReadUntil(src, chars).rest;
            && SourceOk(rest) && rest.Live? && rest.stream.debt == 0
            && src.stream.cells != [] && NumData(rest.stream.cells) <= NumData(src.stream.cells)
  {
    var n := Find(Prefix(src.stream.cells), chars) + 1;
    NumDataSuffix(src.stream.cells, n);
  }

  lemma ClientStepKeepsOk(m: Machine)
    requires Ok(m) && m.state in {PeekMagicByte, ReadCommand, ReadArgs}
    ensures Ok(Step(m).0) && (Step(m).1 == Fail ==> Step(m).0.running)
  {
    if m.state == PeekMagicByte {
      PeekKeepsOk(m);
    } else {
      WordKeepsOk(m);
    }
  }

  lemma PeekKeepsOk(m: Machine)
    requires Ok(m) && m.state == PeekMagicByte
    ensures Ok(Step(m).0) && (Step(m).1 == Fail ==> Step(m).0.running)
  {
  }

  lemma WordKeepsOk(m: Machine)
    requires Ok(m) && m.state in {ReadCommand, ReadArgs}
    ensures Ok(Step(m).0) && (Step(m).1 == Fail ==> Step(m).0.running)
  {
    if ReadUntil(m.client, {' ', '\n'}).Got? {
      ReadUntilOk(m.client, {' ', '\n'});
    }
  }

  lemma DiscardKeepsOk(m: Machine)
    requires SourceOk(m.client) && SourceOk(m.server) && m.running
    ensures Ok(StepDiscard(m).0) && StepDiscard(m).0.running
  {
    if ReadUntil(m.server, {'\n'}).Got? {
      ReadUntilOk(m.server, {'\n'});
    }
  }

  lemma GetKeepsOk(m: Machine)
    requires Ok(m) && m.state == HandleGet && m.running
    ensures Ok(StepGet(m).0) && StepGet(m).0.running
  {
    if ReadUntil(m.server, {'\n'}).Got? {
      ReadUntilOk(m.server, {'\n'});
    }
  }

  lemma SetKeepsOk(m: Machine)
    requires Ok(m) && m.state == HandleSet && m.running
    ensures Ok(StepSet(m).0) && StepSet(m).0.running
  {
    DiscardKeepsOk(m);
    if |m.args| >= 4 && Atoi(m.args[3]).Number? {
      DiscardKeepsOk(m.(client := Skip(m.client, Atoi(m.args[3]).value + |CRLF|)));
    }
  }

  lemma StepKeepsOk(m: Machine)
    requires Ok(m)
    ensures Ok(Step(m).0) && (Step(m).1 == Fail ==> Step(m).0.running)
  {
    match m.state
    case HandleGet => if |m.args| >= 1 { GetKeepsOk(m); } else { DiscardKeepsOk(m); }
    case HandleSet => SetKeepsOk(m);
    case HandleUnknown => DiscardKeepsOk(m);
    case DiscardResponse => DiscardKeepsOk(m);
    case HandleQuit =>
    case Finished =>
    case _ => ClientStepKeepsOk(m);
  }

  lemma {:induction false} SettleKeepsOk(m: Machine)
    requires Ok(m)
    ensures Ok(Settle(m).0) && (Settle(m).1 == Fail ==> Settle(m).0.running)
    decreases Weight(m.server), Weight(m.client), Rank(m.state)
  {
    StepKeepsOk(m);
    if Step(m).1 == Continue {
      StepProgress(m);
      SettleKeepsOk(Step(m).0);
    }
  }

  lemma RunKeepsOk(m: Machine)
    requires Ok(m)
    ensures Ok(Run(m))
  {
    SettleKeepsOk(m);
  }

  lemma StepKeepsClientIdle(m: Machine)
    requires ClientIdle(m)
    ensures ClientIdle(Step(m).0)
  {
    assert !ReadUntil(m.client, {' ', '\n'}).Got?;
    match m.state
    case HandleGet => assert Step(m).0.client == m.client;
    case HandleUnknown => assert Step(m).0.client == m.client;
    case DiscardResponse => assert Step(m).0.client == m.client;
    case HandleSet => SetKeepsClientIdle(m);
    case _ =>
  }

  lemma SetKeepsClientIdle(m: Machine)
    requires ClientIdle(m)
    ensures ClientIdle(StepSet(m).0)
  {
  }

  // ---------------------------------------------------------------- whole runs

  /** More client data before or after the run: the same, as long as the run does not resynchronise. */
  lemma {:induction false} SettleToClient(m: Machine, incoming: seq<Cell>)
    requires Ok(m) && !PeeksGap(m) && incoming != []
    ensures var (m', status) := Settle(m);
            if status == Wait then Settle(ToClient(m', incoming)) == Settle(ToClient(m, incoming))
            else Settle(ToClient(m, incoming)).1 == Fail
    decreases Weight(m.server), Weight(m.client), Rank(m.state)
  {
    StepToClient(m, incoming);
    StepKeepsOk(m);
    if Step(m).1 == Continue {
      StepProgress(m);
      SettleToClient(Step(m).0, incoming);
    }
  }

  /** The same for server data, as long as the client has sent no further command. */
  lemma {:induction false} SettleToServer(m: Machine, incoming: seq<Cell>)
    requires Ok(m) && ClientIdle(m) && incoming != []
    ensures var (m', status) := Settle(m);
            if status == Wait then Settle(ToServer(m', incoming)) == Settle(ToServer(m, incoming))
            else Settle(ToServer(m, incoming)).1 == Fail
    decreases Weight(m.server), Weight(m.client), Rank(m.state)
  {
    StepToServer(m, incoming);
    StepKeepsOk(m);
    StepKeepsClientIdle(m);
    if Step(m).1 == Continue {
      StepProgress(m);
      SettleToServer(Step(m).0, incoming);
    }
  }

  // ---------------------------------------------------------------- segments

  /** The segment does not overrun the reader it is written to. */
  predicate Accepts(src: Source, seg: Segment) {
    src.EofSource? || src.closed || src.failed || Fits(src.stream, seg.skip, seg.data, BUFFER_SIZE)
  }

  lemma ReceiveIsTake(src: Source, seg: Segment)
    requires Accepts(src, seg)
    ensures Receive(src, seg.skip, seg.data) == Take(src, Incoming(seg.skip, seg.data))
  {
  }

  lemma TakeSplit(src: Source, skip: int, a: string, b: string)
    ensures Take(src, Incoming(skip, a + b)) == Take(Take(src, Incoming(skip, a)), Incoming(0, b))
  {
    if src.Live? {
      WriteSplit(src.stream, skip, a, b);
    }
  }

  lemma StoppedStays(m: Machine)
    requires Ok(m) && !m.running
    ensures Run(m) == m
  {
  }

  /**
    A client segment may be cut in two anywhere, for every machine and all bytes: the machine, and so
    its events, end up the same, provided the first part leads neither to a resynchronisation nor to
    a restart at a gap, and nothing overruns the buffer.
   */
  lemma CutClientSegment(m: Machine, skip: int, a: string, b: string)
    requires Ok(m) && b != ""
    requires var m1 := m.(client := Receive(m.client, skip, a));
             && Settle(m1).1 == Wait && !PeeksGap(m1)
             && Accepts(Settle(m1).0.client, Segment(0, b))
    requires Accepts(m.client, Segment(skip, a)) && Accepts(m.client, Segment(skip, a + b))
    ensures FeedClient(FeedClient(m, Segment(skip, a)), Segment(0, b)) == FeedClient(m, Segment(skip, a + b))
  {
    var m1 := m.(client := Receive(m.client, skip, a));
    ReceiveIsTake(m.client, Segment(skip, a));
    ReceiveIsTake(m.client, Segment(skip, a + b));
    ReceiveIsTake(Settle(m1).0.client, Segment(0, b));
    TakeSplit(m.client, skip, a, b);
    TakeOk(m.client, Incoming(skip, a));
    SettleToClient(m1, Incoming(0, b));
    SettleKeepsOk(m1);
    if m.running && !Settle(m1).0.running {
      StoppedStays(Settle(m1).0);
    }
  }

  /** The same for a server segment while no client bytes are waiting. */
  lemma CutServerSegment(m: Machine, skip: int, a: string, b: string)
    requires Ok(m) && b != "" && ClientIdle(m)
    requires var m1 := m.(server := Receive(m.server, skip, a));
             Settle(m1).1 == Wait && Accepts(Settle(m1).0.server, Segment(0, b))
    requires Accepts(m.server, Segment(skip, a)) && Accepts(m.server, Segment(skip, a + b))
    ensures FeedServer(FeedServer(m, Segment(skip, a)), Segment(0, b)) == FeedServer(m, Segment(skip, a + b))
  {
    var m1 := m.(server := Receive(m.server, skip, a));
    ReceiveIsTake(m.server, Segment(skip, a));
    ReceiveIsTake(m.server, Segment(skip, a + b));
    ReceiveIsTake(Settle(m1).0.server, Segment(0, b));
    TakeSplit(m.server, skip, a, b);
    TakeOk(m.server, Incoming(skip, a));
    SettleToServer(m1, Incoming(0, b));
    SettleKeepsOk(m1);
    if m.running && !Settle(m1).0.running {
      StoppedStays(Settle(m1).0);
    }
  }

  lemma ReceiveOk(src: Source, seg: Segment)
    requires SourceOk(src)
    ensures var r := Receive(src, seg.skip, seg.data);
            SourceOk(r) && (src.Live? && src.stream.debt <= 0 ==> r.stream.debt <= 0)
  {
    if Accepts(src, seg) {
      ReceiveIsTake(src, seg);
      TakeOk(src, Incoming(seg.skip, seg.data));
    }
  }

  /** A new machine is well formed and every segment keeps it so. */
  lemma FeedKeepsOk(m: Machine, seg: Segment)
    requires Ok(m)
    ensures Ok(NEW) && Ok(FeedClient(m, seg)) && Ok(FeedServer(m, seg))
  {
    ReceiveOk(m.client, seg);
    ReceiveOk(m.server, seg);
    RunKeepsOk(m.(client := Receive(m.client, seg.skip, seg.data)));
    RunKeepsOk(m.(server := Receive(m.server, seg.skip, seg.data)));
  }
}
