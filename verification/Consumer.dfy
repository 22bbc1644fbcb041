/**
 * The consumer of one connection: the protocol states as methods over two readers, the event
 * buffer in front of the handler, and the readers' return to the pool.
 */
module Consumers {
  import opened Errors
  import opened Streams
  import opened Text
  import opened TextMachine
  import opened Readers
  import opened ReaderPools
  import Lifetime

  /** One call of a state: nil means one or more steps, short read or end of file that the run waits. */
  ghost predicate Follows(settle: Behaviour, before: Machine, after: Machine, err: Error) {
    match StatusOf(err)
    case Continue => settle(after) == settle(before) && Descends(before, after)
    case Wait => settle(before) == (after, Wait)
    case Fail => settle(before).1 == Fail && Resync(settle(before).0) == Resync(after)
  }

  /** The same for a state that makes exactly one step. */
  ghost predicate Steps(before: Machine, after: Machine, err: Error) {
    match StatusOf(err)
    case Continue => Step(before) == (after, Continue)
    case Wait => Step(before) == (after, Wait)
    case Fail => Step(before).1 == Fail && Resync(Step(before).0) == Resync(after)
  }

  ghost predicate Descends(before: Machine, after: Machine) {
    || Weight(after.server) < Weight(before.server)
    || (Weight(after.server) == Weight(before.server) && Weight(after.client) < Weight(before.client))
    || (Weight(after.server) == Weight(before.server) && Weight(after.client) == Weight(before.client)
        && Rank(after.state) < Rank(before.state))
  }

  lemma StepsFollow(settle: Behaviour, before: Machine, after: Machine, err: Error)
    requires Lawful(settle) && Steps(before, after, err)
    ensures Follows(settle, before, after, err)
  {
    assert settle(before) == Settle(before);
    if StatusOf(err) == Continue {
      StepProgress(before);
      assert settle(after) == Settle(after);
    }
  }

  // ---------- What each state does, on values ----------

  lemma PeekFollows(settle: Behaviour, m: Machine, first: string, err: Error)
    requires Lawful(settle) && m.state == PeekMagicByte && Peeked(m.client, first, err)
    ensures var m' := m.(server := Truncate(m.server));
            if err.LostData? then Follows(settle, m, m'.(client := Truncate(m.client)), ShortRead)
            else if err != Nil then Follows(settle, m, m', err)
            else
              && |first| == 1
              && if first[0] == MAGIC then
                   Follows(settle, m, m.(client := EofSource, server := EofSource, running := false), Eof)
                 else
                   Follows(settle, m, m'.(state := ReadCommand), Nil)
  {
    var m' := m.(server := Truncate(m.server));
    if err.LostData? {
      StepsFollow(settle, m, m'.(client := Truncate(m.client)), ShortRead);
    } else if err != Nil {
      StepsFollow(settle, m, m', err);
    } else if first[0] == MAGIC {
      StepsFollow(settle, m, m.(client := EofSource, server := EofSource, running := false), Eof);
    } else {
      StepsFollow(settle, m, m'.(state := ReadCommand), Nil);
    }
  }

  /** The command a word names, the state it leads to, and the error if it is not a word of letters. */
  function Dispatched(word: string): (string, State, Error) {
    var cmd := TrimRight(word, {' ', '\r', '\n'});
    if !IsWord(cmd) then (cmd, ReadCommand, ProtocolDesync)
    else if CommandState(cmd) != HandleUnknown then (cmd, ReadArgs, Nil)
    else (cmd, HandleUnknown, Nil)
  }

  lemma NoCommandFollows(settle: Behaviour, m: Machine, word: string, rest: Source, err: Error)
    requires Lawful(settle) && m.state == ReadCommand && WordRead(m.client, word, rest, err) && err != Nil
    ensures Follows(settle, m, m.(args := [], server := Truncate(m.server), client := rest), err)
  {
    StepsFollow(settle, m, m.(args := [], server := Truncate(m.server), client := rest), err);
  }

  lemma CommandFollows(settle: Behaviour, m: Machine, word: string, rest: Source, cmd: string, state: State, err: Error)
    requires Lawful(settle) && m.state == ReadCommand && WordRead(m.client, word, rest, Nil)
    requires (cmd, state, err) == Dispatched(word)
    ensures var m' := m.(args := [], server := Truncate(m.server), client := rest, cmd := cmd, state := state);
            Follows(settle, m, m', err)
  {
    var m' := m.(args := [], server := Truncate(m.server), client := rest, cmd := cmd, state := state);
    StepsFollow(settle, m, m', err);
  }

  lemma ArgsFollow(settle: Behaviour, m: Machine, word: string, rest: Source, err: Error)
    requires Lawful(settle) && m.state == ReadArgs && WordRead(m.client, word, rest, err)
    ensures var m' := m.(server := Truncate(m.server), client := rest);
            if err != Nil then Follows(settle, m, m', err)
            else
              && word != ""
              && var m'' := m'.(args := m.args + [TrimRight(word[..|word| - 1], {'\r'})]);
                 if word[|word| - 1] == ' ' then Follows(settle, m, m'', Nil)
                 else Follows(settle, m, m''.(state := CommandState(m.cmd)), Nil)
  {
    var m' := m.(server := Truncate(m.server), client := rest);
    if err != Nil {
      StepsFollow(settle, m, m', err);
    } else {
      var m'' := m'.(args := m.args + [TrimRight(word[..|word| - 1], {'\r'})]);
      StepsFollow(settle, m, if word[|word| - 1] == ' ' then m'' else m''.(state := CommandState(m.cmd)), Nil);
    }
  }

  lemma ReplyFollows(settle: Behaviour, m: Machine, line: string, rest: Source, err: Error)
    requires Lawful(settle) && m.state == HandleGet && |m.args| >= 1 && LineRead(m.server, line, rest, err)
    ensures err != Nil ==> Follows(settle, m, m.(server := rest), err)
    ensures err == Nil ==> rest.Live? && !rest.failed
  {
    if err != Nil {
      StepsFollow(settle, m, m.(server := rest), err);
    }
  }

  lemma ReplyTaken(settle: Behaviour, m: Machine, line: string, rest: Source, err: Error)
    requires Lawful(settle) && m.state == HandleGet && |m.args| >= 1 && LineRead(m.server, line, rest, Nil)
    requires StatusOf(err) == OnReply(m.(server := rest), ParseReply(line)).1
    ensures var after := OnReply(m.(server := rest), ParseReply(line)).0;
            Follows(settle, m, after, err) && (err == Nil ==> Weight(after.server) < Weight(m.server))
  {
    StepsFollow(settle, m, OnReply(m.(server := rest), ParseReply(line)).0, err);
    if err == Nil {
      GetProgress(m);
    }
  }

  /** The states that only wait for a one-line response and skip it. */
  ghost predicate AwaitsLine(m: Machine) {
    || m.state in {HandleUnknown, DiscardResponse}
    || (m.state == HandleGet && m.args == [])
    || (m.state == HandleSet && (|m.args| < 4 || Atoi(m.args[3]).NotANumber?))
  }

  lemma LineFollows(settle: Behaviour, m: Machine, line: string, rest: Source, err: Error)
    requires Lawful(settle) && AwaitsLine(m) && LineRead(m.server, line, rest, err)
    ensures Follows(settle, m, m.(server := rest, state := if err == Nil then ReadCommand else DiscardResponse), err)
  {
    StepsFollow(settle, m, m.(server := rest, state := if err == Nil then ReadCommand else DiscardResponse), err);
  }

  lemma SetFollows(settle: Behaviour, m: Machine, size: int, line: string, rest: Source, err: Error)
    requires Lawful(settle) && m.state == HandleSet && |m.args| >= 4 && Atoi(m.args[3]) == Number(size)
    requires LineRead(m.server, line, rest, err) && (m.client.Live? ==> !m.client.failed)
    ensures var m' := m.(client := Skip(m.client, size + |CRLF|));
            Follows(settle, m, m'.(server := rest, state := if err == Nil then ReadCommand else DiscardResponse), err)
  {
    var m' := m.(client := Skip(m.client, size + |CRLF|));
    StepsFollow(settle, m, m'.(server := rest, state := if err == Nil then ReadCommand else DiscardResponse), err);
  }

  lemma SetFails(settle: Behaviour, m: Machine, size: int, err: Error)
    requires Lawful(settle) && m.state == HandleSet && |m.args| >= 4 && Atoi(m.args[3]) == Number(size)
    requires m.client.Live? && m.client.failed && StatusOf(err) == Fail
    ensures Follows(settle, m, m, err)
  {
    StepsFollow(settle, m, m, err);
  }

  lemma QuitFollows(settle: Behaviour, m: Machine)
    requires Lawful(settle) && m.state == HandleQuit
    ensures Follows(settle, m, m.(client := Close(m.client), server := Close(m.server), state := Finished), Eof)
  {
    StepsFollow(settle, m, m.(client := Close(m.client), server := Close(m.server), state := Finished), Eof);
  }

  lemma FinishedFollows(settle: Behaviour, m: Machine)
    requires Lawful(settle) && m.state == Finished
    ensures Follows(settle, m, m, Eof)
  {
    StepsFollow(settle, m, m, Eof);
  }

  ghost function GivenUp(before: Reader?, after: Reader?): seq<Reader> {
    if before == after || before == null then [] else [before]
  }

  class Consumer {
    const pool: ReaderPool
    /** Null stands for the source that replaces a reader given back to the pool. */
    var client: Reader?
    var server: Reader?
    var state: State
    var cmd: string
    var args: seq<string>
    /** Whether Run is still the protocol's run and not the empty function that Close puts there. */
    var running: bool
    var eventBuf: seq<Event>
    /** The events of all batches the handler has been called with, in order. */
    var delivered: seq<Event>

    /** All events reported so far. */
    ghost var events: seq<Event>
    /** The behaviour that the states are held to. */
    ghost const settle: Behaviour

    ghost predicate Valid()
      reads this, client, if client == null then {} else {client.buf}
      reads server, if server == null then {} else {server.buf}
    {
      && ValidSource(client) && ValidSource(server)
      && (client != null ==> client != server)
      && |eventBuf| < 8 && events == delivered + eventBuf
      && Lawful(settle)
    }

    ghost function View(): (m: Machine)
      reads this, client, server
    {
      Machine(state, cmd, args, ViewOf(client), ViewOf(server), events, running)
    }

    constructor (pool: ReaderPool)
      requires pool.Valid()
      modifies pool
      ensures Valid() && this.pool == pool && View() == NEW
      ensures pool.Valid() && client != null && server != null && client !in pool.free && server !in pool.free
      ensures (client in old(pool.free) || fresh(client)) && (server in old(pool.free) || fresh(server))
      ensures forall r :: r in pool.free ==> r in old(pool.free)
      ensures delivered == [] && eventBuf == []
    {
      this.pool := pool;
      settle := m => Settle(m);
      state, cmd, args, running := PeekMagicByte, "", [], true;
      eventBuf, delivered, events := [], [], [];
      var cr := pool.Get();
      var sr := pool.Get();
      client, server := cr, sr;
    }

    /** A reader that this consumer no longer holds has been reset and is in the pool, once more than before. */
    twostate predicate Released()
      reads *
    {
      && (client == old(client) || client == null) && (server == old(server) || server == null)
      && pool.free == old(pool.free) + GivenUp(old(client), client) + GivenUp(old(server), server)
      && (client != old(client) ==> old(client).Valid() && old(client).src == FRESH)
      && (server != old(server) ==> old(server).Valid() && old(server).src == FRESH)
    }

    /** What a run may do: nothing to the pool, or give back whatever is held, and that for good. */
    twostate predicate KeptOrReleased()
      reads *
    {
      && Released()
      && ((client == old(client) && server == old(server)) || (client == null && server == null))
    }

    // ---------- Events ----------

    method AddEvent(evt: Event)
      requires |eventBuf| < 8 && events == delivered + eventBuf
      modifies `eventBuf, `delivered, `events
      ensures |eventBuf| < 8 && events == delivered + eventBuf
      ensures events == old(events) + [evt]
    {
      eventBuf := eventBuf + [evt];
      events := events + [evt];
      if |eventBuf| == 8 {
        FlushEvents();
      }
    }

    method FlushEvents()
      modifies `eventBuf, `delivered
      ensures eventBuf == [] && delivered == old(delivered + eventBuf)
    {
      delivered := delivered + eventBuf;
      eventBuf := [];
    }

    // ---------- States ----------

    method FirstByte() returns (first: string, err: Error)
      requires Valid()
      modifies Objects(server)
      ensures Valid() && Peeked(ViewOf(client), first, err)
      ensures ViewOf(client) == old(ViewOf(client)) && ViewOf(server) == Truncate(old(ViewOf(server)))
    {
      TruncateSource(server);
      first, err := PeekFrom(client);
    }

    method PeekState() returns (err: Error)
      requires Valid() && state == PeekMagicByte
      modifies `client, `server, `state, `running, Objects(client), Objects(server), pool
      ensures Valid() && KeptOrReleased() && (StatusOf(err) != Wait ==> client == old(client) && server == old(server))
      ensures Follows(settle, old(View()), View(), err)
    {
      ghost var m := View();
      var firstByte;
      firstByte, err := FirstByte();
      PeekFollows(settle, m, firstByte, err);
      if err != Nil {
        if err.LostData? {
          TruncateSource(client);
          err := ShortRead;
        }
        return;
      }
      err := TakeFirstByte(firstByte[0]);
    }

    /** Text goes on to the first command; the binary protocol is given up. */
    method TakeFirstByte(b: char) returns (err: Error)
      requires Valid()
      modifies `client, `server, `state, `running, Objects(client), Objects(server), pool
      ensures Valid() && KeptOrReleased()
      ensures if b == MAGIC then
                err == Eof && View() == old(View()).(client := EofSource, server := EofSource, running := false)
              else
                err == Nil && client == old(client) && server == old(server)
                && View() == old(View()).(state := ReadCommand)
    {
      if b == MAGIC {
        Close();
        return Eof;
      }
      state := ReadCommand;
      return Nil;
    }

    /** How readCommand and readArgs begin: unasked replies are dropped, then the client's next word is read. */
    method NextWord() returns (word: string, err: Error)
      requires Valid()
      modifies Objects(client), Objects(server)
      ensures Valid() && WordRead(old(ViewOf(client)), word, ViewOf(client), err)
      ensures View() == old(View()).(server := Truncate(old(ViewOf(server))), client := ViewOf(client))
    {
      TruncateSource(server);
      word, err := ReadWord(client);
    }

    method CommandStep() returns (err: Error)
      requires Valid() && state == ReadCommand
      modifies `args, `cmd, `state, Objects(client), Objects(server)
      ensures Valid() && Follows(settle, old(View()), View(), err)
    {
      ghost var m := View();
      var word;
      word, err := NextCommand();
      ghost var rest := ViewOf(client);
      if err != Nil {
        NoCommandFollows(settle, m, word, rest, err);
        return;
      }
      err := Dispatch(word);
      CommandFollows(settle, m, word, rest, cmd, state, err);
    }

    method NextCommand() returns (word: string, err: Error)
      requires Valid()
      modifies `args, Objects(client), Objects(server)
      ensures Valid() && WordRead(old(ViewOf(client)), word, ViewOf(client), err)
      ensures View() == old(View()).(args := [], server := Truncate(old(ViewOf(server))), client := ViewOf(client))
    {
      args := [];
      word, err := NextWord();
    }

    method Dispatch(word: string) returns (err: Error)
      requires state == ReadCommand
      modifies `cmd, `state
      ensures (cmd, state, err) == Dispatched(word)
    {
      cmd := TrimRight(word, {' ', '\r', '\n'});
      if !IsWord(cmd) {
        return ProtocolDesync;
      }
      if CommandState(cmd) != HandleUnknown {
        state := ReadArgs;
        return Nil;
      }
      state := HandleUnknown;
      return Nil;
    }

    method ArgsStep() returns (err: Error)
      requires Valid() && state == ReadArgs
      modifies `args, `state, Objects(client), Objects(server)
      ensures Valid() && Follows(settle, old(View()), View(), err)
    {
      ghost var m := View();
      var word;
      word, err := NextWord();
      ArgsFollow(settle, m, word, ViewOf(client), err);
      if err == Nil {
        TakeWord(word);
      }
    }

    /** A word is an argument; the one at the end of the line is the last. */
    method TakeWord(word: string)
      requires word != "" && state == ReadArgs
      modifies `args, `state
      ensures args == old(args) + [TrimRight(word[..|word| - 1], {'\r'})]
      ensures state == if word[|word| - 1] == ' ' then ReadArgs else CommandState(cmd)
    {
      args := args + [TrimRight(word[..|word| - 1], {'\r'})];
      if word[|word| - 1] == ' ' {
        return;
      }
      state := CommandState(cmd);
    }

    method GetState() returns (err: Error)
      requires Valid() && state == HandleGet
      modifies `eventBuf, `delivered, `events, `state, Objects(server)
      ensures Valid() && Follows(settle, old(View()), View(), err)
    {
      if |args| < 1 {
        err := OneLineState();
        return;
      }
      while true
        invariant Valid() && state == HandleGet
        invariant settle(View()) == settle(old(View()))
        invariant View() == old(View()) || Descends(old(View()), View())
        decreases Weight(ViewOf(server))
      {
        err := ReplyStep();
        if err != Nil || state != HandleGet {
          return;
        }
      }
    }

    /** One round of the loop of handleGet; the loop ends by an error or by leaving the state. */
    method ReplyStep() returns (err: Error)
      requires Valid() && state == HandleGet && |args| >= 1
      modifies `eventBuf, `delivered, `events, `state, Objects(server)
      ensures Valid() && Follows(settle, old(View()), View(), err)
      ensures err == Nil ==> Weight(ViewOf(server)) < old(Weight(ViewOf(server)))
    {
      var line;
      line, err := ReadLineFrom(server);
      ghost var read := ViewOf(server);
      ReplyFollows(settle, old(View()), line, read, err);
      if err != Nil {
        return;
      }
      err := TakeReply(ParseReply(line));
      ReplyTaken(settle, old(View()), line, read, err);
    }

    /** What handleGet does with a line it has read. */
    method TakeReply(h: ReplyLine) returns (err: Error)
      requires Valid() && ViewOf(server).Live? && !ViewOf(server).failed
      modifies `eventBuf, `delivered, `events, `state, Objects(server)
      ensures Valid() && (View(), StatusOf(err)) == OnReply(old(View()), h)
    {
      match h {
        case ValueHeader(key, size) =>
          AddEvent(Event(EventGetHit, key, size));
          err := DiscardSource(server, size + |CRLF|);
        case BadSize =>
          err := BadNumber;
        case OtherLine =>
          state := ReadCommand;
          err := Nil;
      }
    }

    method SetState() returns (err: Error)
      requires Valid() && state == HandleSet
      modifies `state, Objects(client), Objects(server)
      ensures Valid() && Follows(settle, old(View()), View(), err)
    {
      var size := if |args| < 4 then NotANumber else Atoi(args[3]);
      if size.NotANumber? {
        err := OneLineState();
      } else {
        err := SkipValue(size.value);
      }
    }

    /** The client announces a value of that size: it is skipped, and then the response. */
    method SkipValue(size: int) returns (err: Error)
      requires Valid() && state == HandleSet && |args| >= 4 && Atoi(args[3]) == Number(size)
      modifies `state, Objects(client), Objects(server)
      ensures Valid() && Follows(settle, old(View()), View(), err)
    {
      err := DiscardSource(client, size + |CRLF|);
      if err != Nil {
        SetFails(settle, old(View()), size, err);
        return;
      }
      var line;
      line, err := DiscardStep();
      SetFollows(settle, old(View()), size, line, ViewOf(server), err);
    }

    method QuitState() returns (err: Error)
      requires Valid() && state == HandleQuit
      modifies `state, Objects(client), Objects(server)
      ensures Valid() && Follows(settle, old(View()), View(), err)
    {
      QuitFollows(settle, View());
      CloseSource(client);
      CloseSource(server);
      state := Finished;
      return Eof;
    }

    /** The discardResponse state, which other states also fall through to. */
    method DiscardStep() returns (line: string, err: Error)
      requires Valid()
      modifies `state, Objects(server)
      ensures Valid() && LineRead(old(ViewOf(server)), line, ViewOf(server), err)
      ensures ViewOf(client) == old(ViewOf(client)) && state == if err == Nil then ReadCommand else DiscardResponse
    {
      state := DiscardResponse;
      line, err := ReadLineFrom(server);
      if err != Nil {
        return;
      }
      state := ReadCommand;
    }

    method OneLineState() returns (err: Error)
      requires Valid() && AwaitsLine(View())
      modifies `state, Objects(server)
      ensures Valid() && Follows(settle, old(View()), View(), err)
    {
      var line;
      line, err := DiscardStep();
      LineFollows(settle, old(View()), line, ViewOf(server), err);
    }

    /** One call of the current state. */
    method CallState() returns (err: Error)
      requires Valid()
      modifies this, Objects(client), Objects(server), pool
      ensures Valid() && KeptOrReleased() && (StatusOf(err) != Wait ==> client == old(client) && server == old(server))
      ensures Follows(settle, old(View()), View(), err)
    {
      if state == PeekMagicByte {
        err := PeekState();
      } else {
        err := CallLaterState();
      }
    }

    /** The states after the first, none of which gives a reader back. */
    method CallLaterState() returns (err: Error)
      requires Valid() && state != PeekMagicByte
      modifies `state, `cmd, `args, `eventBuf, `delivered, `events, Objects(client), Objects(server)
      ensures Valid() && Follows(settle, old(View()), View(), err)
    {
      match state {
        case ReadCommand => err := CommandStep();
        case ReadArgs => err := ArgsStep();
        case HandleGet => err := GetState();
        case HandleSet => err := SetState();
        case HandleQuit => err := QuitState();
        case HandleUnknown => err := OneLineState();
        case DiscardResponse => err := OneLineState();
        case _ =>
          FinishedFollows(settle, View());
          err := Eof;
      }
    }

    // ---------- Runs ----------

    method Resynchronise()
      requires Valid()
      modifies `state, Objects(client), Objects(server)
      ensures Valid() && View() == Resync(old(View()))
    {
      ResetSource(client);
      ResetSource(server);
      state := ReadCommand;
    }

    /** Calls states until one of them returns an error. */
    method Loop() returns (err: Error)
      requires Valid()
      modifies this, Objects(client), Objects(server), pool
      ensures Valid() && KeptOrReleased() && (StatusOf(err) == Fail ==> client == old(client) && server == old(server))
      ensures err != Nil && Follows(settle, old(View()), View(), err)
    {
      while true
        invariant Valid()
        invariant settle(View()) == settle(old(View()))
        invariant client == old(client) && server == old(server) && pool.free == old(pool.free)
        decreases Weight(ViewOf(server)), Weight(ViewOf(client)), Rank(state)
      {
        err := CallState();
        if err != Nil {
          return;
        }
      }
    }

    /** The protocol's run: after lost data or a protocol error it resynchronises at the next command. */
    method RunProtocol()
      requires Valid()
      modifies this, Objects(client), Objects(server), pool
      ensures Valid() && KeptOrReleased()
      ensures View() == Run(old(View()))
    {
      assert settle(View()) == Settle(View());
      var err := Loop();
      if StatusOf(err) == Fail {
        Resynchronise();
      }
    }

    /** Gives both readers back and makes Run do nothing. */
    method Close()
      requires Valid()
      modifies `client, `server, `running, Objects(client), Objects(server), pool
      ensures Valid() && KeptOrReleased() && client == null && server == null && !running
    {
      if client != null {
        client.Reset();
        pool.Put(client);
        client := null;
      }
      if server != null {
        server.Reset();
        pool.Put(server);
        server := null;
      }
      running := false;
    }

    // ---------- The two streams ----------

    method ClientSegment(r: Segment)
      requires Valid()
      modifies this, Objects(client), Objects(server), pool
      ensures Valid() && KeptOrReleased()
      ensures View() == FeedClient(old(View()), r)
    {
      ReceiveSource(client, r);
      if running {
        RunProtocol();
      }
    }

    method ClientReassembled(rs: seq<Segment>)
      requires Valid()
      modifies this, Objects(client), Objects(server), pool
      ensures Valid() && KeptOrReleased()
      ensures View() == FeedClientAll(old(View()), rs)
    {
      for i := 0 to |rs|
        invariant Valid() && KeptOrReleased()
        invariant FeedClientAll(View(), rs[i..]) == FeedClientAll(old(View()), rs)
      {
        ClientSegment(rs[i]);
      }
    }

    /** The client has closed its side: everything buffered is delivered and the reader is given back. */
    method ClientComplete()
      requires Valid()
      modifies this, Objects(client), pool
      ensures Valid() && Released() && eventBuf == [] && delivered == events
      ensures View() == Lifetime.Apply(old(View()), Lifetime.ClientEnd)
    {
      if client != null {
        client.ReassemblyComplete();
      }
      FlushEvents();
      if client != null {
        client.Reset();
        pool.Put(client);
        client := null;
      }
    }

    method ServerSegment(r: Segment)
      requires Valid()
      modifies this, Objects(client), Objects(server), pool
      ensures Valid() && KeptOrReleased()
      ensures View() == FeedServer(old(View()), r)
    {
      ReceiveSource(server, r);
      if running {
        RunProtocol();
      }
    }

    method ServerReassembled(rs: seq<Segment>)
      requires Valid()
      modifies this, Objects(client), Objects(server), pool
      ensures Valid() && KeptOrReleased()
      ensures View() == FeedServerAll(old(View()), rs)
    {
      for i := 0 to |rs|
        invariant Valid() && KeptOrReleased()
        invariant FeedServerAll(View(), rs[i..]) == FeedServerAll(old(View()), rs)
      {
        ServerSegment(rs[i]);
      }
    }

    method ServerComplete()
      requires Valid()
      modifies this, Objects(server), pool
      ensures Valid() && Released() && eventBuf == [] && delivered == events
      ensures View() == Lifetime.Apply(old(View()), Lifetime.ServerEnd)
    {
      if server != null {
        server.ReassemblyComplete();
      }
      FlushEvents();
      if server != null {
        server.Reset();
        pool.Put(server);
        server := null;
      }
    }
  }
}
