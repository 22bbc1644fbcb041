/** Facts about every run of the machine, whatever it reads. */
module Runs {
  import opened Streams
  import opened Text
  import opened TextMachine
  import opened Segmentation

  ghost predicate ServerIdle(m: Machine) {
    m.server.Live? ==> m.server.stream.cells == []
  }

  lemma PeekQuiet(m: Machine)
    ensures StepPeek(m).0.events == m.events && StepPeek(m).0.server in {m.server, EofSource}
  {
  }

  lemma WordQuiet(m: Machine)
    ensures StepCommand(m).0.events == StepArgs(m).0.events == m.events
    ensures StepCommand(m).0.server == StepArgs(m).0.server == m.server
  {
  }

  lemma ClientStepQuiet(m: Machine)
    ensures StepPeek(m).0.events == StepCommand(m).0.events == StepArgs(m).0.events == m.events
    ensures StepCommand(m).0.server == StepArgs(m).0.server == m.server
    ensures StepPeek(m).0.server in {m.server, EofSource}
  {
    PeekQuiet(m);
    WordQuiet(m);
  }

  lemma ServerStepQuiet(m: Machine)
    requires ServerIdle(m)
    ensures StepGet(m).0.events == StepDiscard(m).0.events == StepSet(m).0.events == m.events
    ensures StepGet(m).0.server == StepDiscard(m).0.server == StepSet(m).0.server == m.server
  {
    assert !ReadUntil(m.server, {'\n'}).Got?;
  }

  /** Without a reply nothing is reported. */
  lemma StepQuiet(m: Machine)
    requires ServerIdle(m)
    ensures ServerIdle(Step(m).0) && Step(m).0.events == m.events
  {
    if m.state in {PeekMagicByte, ReadCommand, ReadArgs} {
      var m0 := m.(server := Truncate(m.server));
      ClientStepQuiet(m0);
      ClientStepQuiet(m0.(args := []));
    } else {
      ServerStepQuiet(m);
    }
  }

  lemma {:induction false} SettleQuiet(m: Machine)
    requires ServerIdle(m)
    ensures Settle(m).0.events == m.events
    decreases Weight(m.server), Weight(m.client), Rank(m.state)
  {
    StepQuiet(m);
    if Step(m).1 == Continue {
      StepProgress(m);
      SettleQuiet(Step(m).0);
    }
  }

  /** A machine at a standstill stays there until something arrives. */
  lemma StepStandstill(m: Machine)
    requires Ok(m) && Step(m).1 == Wait
    ensures Step(Step(m).0) == Step(m)
  {
    if m.state == ReadCommand {
      assert Step(m).0 == m.(server := Truncate(m.server), args := []);
    } else if m.state == ReadArgs {
      assert Step(m).0 == m.(server := Truncate(m.server));
    } else if m.state in {HandleSet, HandleUnknown, DiscardResponse} || (m.state == HandleGet && |m.args| < 1) {
      ReplyPending(m);
      assert Step(m).0.state == DiscardResponse;
    } else if m.state == HandleGet {
      assert Step(m).0 == m;
    }
  }

  lemma ReplyPending(m: Machine)
    ensures StepDiscard(m).1 == Wait ==>
              ReadUntil(m.server, {'\n'}) == Blocked && StepDiscard(m).0 == m.(state := DiscardResponse)
    ensures StepSet(m).1 == Wait ==>
              ReadUntil(m.server, {'\n'}) == Blocked && StepSet(m).0.server == m.server
              && StepSet(m).0.state == DiscardResponse
  {
  }

  lemma {:induction false} Standstill(m: Machine)
    requires Ok(m) && Settle(m).1 == Wait
    ensures Settle(Settle(m).0) == Settle(m)
    decreases Weight(m.server), Weight(m.client), Rank(m.state)
  {
    if Step(m).1 == Continue {
      StepProgress(m);
      StepKeepsOk(m);
      Standstill(Step(m).0);
    } else {
      StepStandstill(m);
    }
  }

  lemma FeedIsRun(m: Machine, seg: Segment)
    requires Ok(m)
    ensures FeedClient(m, seg) == Run(m.(client := Receive(m.client, seg.skip, seg.data)))
    ensures FeedServer(m, seg) == Run(m.(server := Receive(m.server, seg.skip, seg.data)))
  {
    if !m.running {
      StoppedStays(m);
    }
  }

  lemma ReceiveNothing(src: Source)
    requires src.Live? ==> src.stream.debt >= 0
    ensures Receive(src, 0, "") == src
  {
    assert Incoming(0, "") == [];
    assert src.Live? ==> Push(src.stream, []) == src.stream;
  }

  /** An empty segment changes nothing about a machine that has come to a standstill. */
  lemma EmptySegmentIgnored(m: Machine, x: Machine)
    requires Ok(m) && Settle(m) == (x, Wait)
    requires (x.client.Live? ==> x.client.stream.debt >= 0) && (x.server.Live? ==> x.server.stream.debt >= 0)
    ensures FeedClient(x, Segment(0, "")) == x && FeedServer(x, Segment(0, "")) == x
  {
    Standstill(m);
    ReceiveNothing(x.client);
    ReceiveNothing(x.server);
  }
}
