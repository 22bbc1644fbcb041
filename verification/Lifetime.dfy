/** A connection from its first segment to its last: what can still be reported, and when no more. */
module Lifetime {
  import opened Streams
  import opened Text
  import opened TextMachine
  import opened Runs

  /** What the reassembler may do with the two streams of a connection, in any order. */
  datatype Input =
    | FromClient(segments: seq<Segment>)
    | FromServer(segments: seq<Segment>)
    | ClientEnd
    | ServerEnd

  function Apply(m: Machine, input: Input): Machine {
    match input
    case FromClient(segments) => FeedClientAll(m, segments)
    case FromServer(segments) => FeedServerAll(m, segments)
    case ClientEnd => m.(client := EofSource)
    case ServerEnd => m.(server := EofSource)
  }

  function ApplyAll(m: Machine, inputs: seq<Input>): Machine
    decreases inputs
  {
    if inputs == [] then m else ApplyAll(Apply(m, inputs[0]), inputs[1..])
  }

  /** Nothing will be reported any more. */
  ghost predicate Over(m: Machine) {
    !m.running || m.state == Finished || m.server.EofSource?
  }

  // ---------- Events are only ever added at the end ----------

  lemma ServerStepAdds(m: Machine)
    ensures m.events <= StepGet(m).0.events && StepDiscard(m).0.events == StepSet(m).0.events == m.events
    ensures m.server.EofSource? ==> StepGet(m).0.server == StepDiscard(m).0.server == StepSet(m).0.server == EofSource
  {
  }

  lemma StepAdds(m: Machine)
    ensures m.events <= Step(m).0.events
    ensures m.server.EofSource? ==> Step(m).0.server.EofSource?
  {
    if m.state in {PeekMagicByte, ReadCommand, ReadArgs} {
      ClientStateAdds(m);
    } else {
      ServerStepAdds(m);
    }
  }

  lemma ClientStateAdds(m: Machine)
    requires m.state in {PeekMagicByte, ReadCommand, ReadArgs}
    ensures Step(m).0.events == m.events && (m.server.EofSource? ==> Step(m).0.server.EofSource?)
  {
    var m0 := m.(server := Truncate(m.server));
    ClientStepQuiet(m0);
    ClientStepQuiet(m0.(args := []));
  }

  lemma {:induction false} SettleAdds(m: Machine)
    ensures m.events <= Settle(m).0.events
    ensures m.server.EofSource? ==> Settle(m).0.server.EofSource?
    decreases Weight(m.server), Weight(m.client), Rank(m.state)
  {
    StepAdds(m);
    if Step(m).1 == Continue {
      StepProgress(m);
      SettleAdds(Step(m).0);
    }
  }

  lemma RunAdds(m: Machine)
    ensures m.events <= Run(m).events
    ensures m.running && Over(m) ==> Run(m).events == m.events && Over(Run(m))
  {
    SettleAdds(m);
    if m.state == Finished {
      assert Step(m) == (m, Wait);
    } else if m.server.EofSource? {
      SettleQuiet(m);
    }
  }

  lemma {:induction false} FeedClientAdds(m: Machine, segments: seq<Segment>)
    ensures m.events <= FeedClientAll(m, segments).events
    ensures Over(m) ==> FeedClientAll(m, segments).events == m.events && Over(FeedClientAll(m, segments))
    decreases segments
  {
    if segments != [] {
      RunAdds(m.(client := Receive(m.client, segments[0].skip, segments[0].data)));
      FeedClientAdds(FeedClient(m, segments[0]), segments[1..]);
    }
  }

  lemma {:induction false} FeedServerAdds(m: Machine, segments: seq<Segment>)
    ensures m.events <= FeedServerAll(m, segments).events
    ensures Over(m) ==> FeedServerAll(m, segments).events == m.events && Over(FeedServerAll(m, segments))
    decreases segments
  {
    if segments != [] {
      RunAdds(m.(server := Receive(m.server, segments[0].skip, segments[0].data)));
      FeedServerAdds(FeedServer(m, segments[0]), segments[1..]);
    }
  }

  /** Whatever happens on either stream, reported events stay reported and in their order. */
  lemma {:induction false} EventsStay(m: Machine, inputs: seq<Input>)
    ensures m.events <= ApplyAll(m, inputs).events
    decreases inputs
  {
    if inputs != [] {
      OneInput(m, inputs[0]);
      EventsStay(Apply(m, inputs[0]), inputs[1..]);
    }
  }

  lemma OneInput(m: Machine, input: Input)
    ensures m.events <= Apply(m, input).events
    ensures Over(m) ==> Apply(m, input).events == m.events && Over(Apply(m, input))
  {
    match input
    case FromClient(segments) => FeedClientAdds(m, segments);
    case FromServer(segments) => FeedServerAdds(m, segments);
    case _ =>
  }

  // ---------- The end of a connection ----------

  /** Once a connection is over no event is added, whatever still arrives on either stream. */
  lemma {:induction false} OverForGood(m: Machine, inputs: seq<Input>)
    requires Over(m)
    ensures ApplyAll(m, inputs).events == m.events
    decreases inputs
  {
    if inputs != [] {
      OneInput(m, inputs[0]);
      OverForGood(Apply(m, inputs[0]), inputs[1..]);
    }
  }

  /** A quit command ends the connection, ... */
  lemma QuitIsOver(m: Machine, inputs: seq<Input>)
    requires m.state == HandleQuit
    ensures Run(m).state == Finished && ApplyAll(Run(m), inputs).events == m.events
  {
    assert Step(m).1 == Wait && Step(m).0.state == Finished;
    OverForGood(Run(m), inputs);
  }

  /** ... so does a first byte that announces the binary protocol, ... */
  lemma BinaryIsOver(m: Machine, inputs: seq<Input>)
    requires m.state == PeekMagicByte && m.client.Live? && !m.client.failed
    requires m.client.stream.cells != [] && m.client.stream.cells[0] == Data('\U{80}')
    ensures !Run(m).running && ApplyAll(Run(m), inputs).events == m.events
  {
    assert Step(m).1 == Wait && !Step(m).0.running;
    OverForGood(Run(m), inputs);
  }

  lemma {:induction false} SettleKeepsRunning(m: Machine)
    requires m.state != PeekMagicByte
    ensures Settle(m).0.running == m.running
    decreases Weight(m.server), Weight(m.client), Rank(m.state)
  {
    LaterStepKeepsRunning(m);
    if Step(m).1 == Continue {
      StepProgress(m);
      SettleKeepsRunning(Step(m).0);
    }
  }

  lemma LaterStepKeepsRunning(m: Machine)
    requires m.state != PeekMagicByte
    ensures Step(m).0.running == m.running
  {
    var m0 := m.(server := Truncate(m.server));
    assert StepCommand(m0.(args := [])).0.running == m.running;
    assert StepArgs(m0).0.running == m.running;
    assert StepGet(m).0.running == StepDiscard(m).0.running == StepSet(m).0.running == m.running;
  }

  /** ... which is the only first byte that does, ... */
  lemma OnlyBinaryStops(m: Machine)
    requires m.state == PeekMagicByte && m.running && m.client.Live? && !m.client.failed
    requires m.client.stream.cells != [] && m.client.stream.cells[0].Data?
    ensures !Run(m).running <==> m.client.stream.cells[0].b as int == 0x80
  {
    if m.client.stream.cells[0].b != '\U{80}' {
      var m1 := m.(server := Truncate(m.server), state := ReadCommand);
      assert Step(m) == (m1, Continue);
      SettleKeepsRunning(m1);
    }
  }

  /** ... and so does the end of the server's stream. */
  lemma ServerEndIsOver(m: Machine, inputs: seq<Input>)
    ensures ApplyAll(m, [ServerEnd] + inputs).events == m.events
  {
    assert ([ServerEnd] + inputs)[1..] == inputs;
    OverForGood(Apply(m, ServerEnd), inputs);
  }
}
