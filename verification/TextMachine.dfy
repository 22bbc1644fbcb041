/**
  The text-protocol consumer as a machine on values: the two sources, the protocol state and the
  log of events reported so far. A step is one call of the current state function; `Settle` makes
  steps until one of them does not return nil, and `Run` adds the resynchronisation.
 */
module TextMachine {
  import opened Streams
  import opened Text

  datatype EventType = EventUnknown | EventGetHit | EventGetMiss
  datatype Event = Event(kind: EventType, key: string, size: int)

  datatype State =
    | PeekMagicByte
    | ReadCommand
    | ReadArgs
    | HandleGet
    | HandleSet
    | HandleQuit
    | HandleUnknown
    | DiscardResponse
    | Finished

  /** A reader, or the source that replaces it once the stream has been given up. */
  datatype Source = Live(stream: Stream, closed: bool, eof: bool, failed: bool) | EofSource

  const FRESH := Live(EMPTY, false, false, false)
  const BUFFER_SIZE: nat := 32 * 1024

  datatype Machine = Machine(
    state: State,
    cmd: string,
    args: seq<string>,
    client: Source,
    server: Source,
    events: seq<Event>,
    running: bool
  )

  datatype Status = Continue | Wait | Fail

  const NEW := Machine(PeekMagicByte, "", [], FRESH, FRESH, [], true)

  // ---------------------------------------------------------------- sources

  datatype Read = Got(text: string, rest: Source) | Blocked | Failure

  function ReadUntil(src: Source, chars: set<char>): (r: Read) {
    match src
    case EofSource => Blocked
    case Live(stream, _, eof, failed) =>
      if failed then Failure
      else
        match ReadThrough(stream, chars)
        case Chunk(bytes, rest) => Got(bytes, src.(stream := rest))
        case Short => if eof then Failure else Blocked
        case Broken => Failure
  }

  function Truncate(src: Source): Source {
    if src.Live? then src.(stream := EMPTY) else src
  }

  function Reset(src: Source): Source {
    if src.Live? then FRESH else src
  }

  function Close(src: Source): Source {
    if src.Live? then src.(stream := EMPTY, closed := true) else src
  }

  function Skip(src: Source, n: int): Source {
    if src.Live? then src.(stream := Discard(src.stream, n)) else src
  }

  /** A segment handed to a reader: ignored once closed or failed, fatal for it if it does not fit. */
  function Receive(src: Source, skip: int, data: string): Source {
    if src.EofSource? || src.closed || src.failed then src
    else if Fits(src.stream, skip, data, BUFFER_SIZE) then src.(stream := Write(src.stream, skip, data))
    else src.(failed := true)
  }

  /** The same for a reader without a size limit. */
  function Take(src: Source, incoming: seq<Cell>): Source {
    if src.EofSource? || src.closed || src.failed then src
    else src.(stream := Push(src.stream, incoming))
  }

  // ---------------------------------------------------------------- steps

  function CommandState(cmd: string): State {
    if cmd in {"get", "gets"} then HandleGet
    else if cmd in {"set", "add", "replace", "append", "prepend", "cas"} then HandleSet
    else if cmd == "quit" then HandleQuit
    else HandleUnknown
  }

  function Step(m: Machine): (r: (Machine, Status)) {
    match m.state
    case PeekMagicByte => StepPeek(m.(server := Truncate(m.server)))
    case ReadCommand => StepCommand(m.(server := Truncate(m.server), args := []))
    case ReadArgs => StepArgs(m.(server := Truncate(m.server)))
    case HandleGet => if |m.args| < 1 then StepDiscard(m) else StepGet(m)
    case HandleSet => StepSet(m)
    case HandleQuit => (m.(client := Close(m.client), server := Close(m.server), state := Finished), Wait)
    case HandleUnknown => StepDiscard(m)
    case DiscardResponse => StepDiscard(m)
    case Finished => (m, Wait)
  }

  const MAGIC := '\U{80}'

  function StepPeek(m: Machine): (r: (Machine, Status)) {
    match m.client
    case EofSource => (m, Wait)
    case Live(stream, _, eof, failed) =>
      if failed then (m, Fail)
      else if stream.cells == [] then (m, if eof then Fail else Wait)
      else if stream.cells[0].Lost? then (m.(client := Truncate(m.client)), Wait)
      else if stream.cells[0].b == MAGIC then
        (m.(client := EofSource, server := EofSource, running := false), Wait)
      else (m.(state := ReadCommand), Continue)
  }

  function StepCommand(m: Machine): (r: (Machine, Status)) {
    OnCommand(m, ReadUntil(m.client, {' ', '\n'}))
  }

  function OnCommand(m: Machine, read: Read): (r: (Machine, Status)) {
    match read
    case Blocked => (m, Wait)
    case Failure => (m, Fail)
    case Got(text, rest) =>
      var cmd := TrimRight(text, {' ', '\r', '\n'});
      var m' := m.(client := rest, cmd := cmd);
      if !IsWord(cmd) then (m', Fail)
      else if CommandState(cmd) != HandleUnknown then (m'.(state := ReadArgs), Continue)
      else (m'.(state := HandleUnknown), Continue)
  }

  function StepArgs(m: Machine): (r: (Machine, Status)) {
    match ReadUntil(m.client, {' ', '\n'})
    case Blocked => (m, Wait)
    case Failure => (m, Fail)
    case Got(text, rest) =>
      var m' := m.(client := rest, args := m.args + [TrimRight(text[..|text| - 1], {'\r'})]);
      if text[|text| - 1] == ' ' then (m', Continue)
      else (m'.(state := CommandState(m.cmd)), Continue)
  }

  /** The event a reply line announces, if it is a VALUE header whose size is a number. */
  datatype ReplyLine = ValueHeader(key: string, size: int) | BadSize | OtherLine

  function ParseReply(line: string): (h: ReplyLine) {
    var fields := Split(line);
    if |fields| >= 4 && fields[0] == "VALUE" then
      match Atoi(fields[3])
      case Number(size) => ValueHeader(fields[1], size)
      case NotANumber => BadSize
    else OtherLine
  }

  const CRLF := "\r\n"

  function StepGet(m: Machine): (r: (Machine, Status)) {
    match ReadUntil(m.server, {'\n'})
    case Blocked => (m, Wait)
    case Failure => (m, Fail)
    case Got(text, rest) =>
      OnReply(m.(server := rest), ParseReply(TrimEol(text)))
  }

  function OnReply(m: Machine, h: ReplyLine): (r: (Machine, Status)) {
    match h
    case ValueHeader(key, size) =>
      (m.(events := m.events + [Event(EventGetHit, key, size)], server := Skip(m.server, size + |CRLF|)), Continue)
    case BadSize => (m, Fail)
    case OtherLine => (m.(state := ReadCommand), Continue)
  }

  function StepSet(m: Machine): (r: (Machine, Status)) {
    if |m.args| < 4 then StepDiscard(m)
    else
      match Atoi(m.args[3])
      case NotANumber => StepDiscard(m)
      case Number(size) =>
        if m.client.Live? && m.client.failed then (m, Fail)
        else StepDiscard(m.(client := Skip(m.client, size + |CRLF|)))
  }

  function StepDiscard(m: Machine): (r: (Machine, Status)) {
    match ReadUntil(m.server, {'\n'})
    case Blocked => (m.(state := DiscardResponse), Wait)
    case Failure => (m.(state := DiscardResponse), Fail)
    case Got(_, rest) => (m.(server := rest, state := ReadCommand), Continue)
  }

  // ---------------------------------------------------------------- runs

  /** The buffered positions that can still be consumed; none if the next one was lost. */
  function Weight(src: Source): nat {
    if src.Live? && src.stream.cells != [] && src.stream.cells[0].Data? then |src.stream.cells| else 0
  }

  function Rank(state: State): nat {
    if state == PeekMagicByte then 1 else 0
  }

  lemma ReadShrinks(src: Source, chars: set<char>)
    requires ReadUntil(src, chars).Got?
    ensures var rest := ReadUntil(src, chars).rest;
            src.Live? && rest.Live? && |rest.stream.cells| < Weight(src)
  {
  }

  lemma SkipBound(src: Source, n: int)
    requires src.Live?
    ensures Weight(Skip(src, n)) <= |src.stream.cells|
  {
  }

  /** A step that returns nil consumes a server byte, or a client byte, or leaves the initial state for good. */
  predicate Progress(m: Machine, m': Machine) {
    && m'.state != PeekMagicByte
    && (|| Weight(m'.server) < Weight(m.server)
        || (Weight(m'.server) <= Weight(m.server) && Weight(m'.client) < Weight(m.client))
        || (Weight(m'.server) <= Weight(m.server) && m'.client == m.client && m.state == PeekMagicByte))
  }

  lemma DiscardProgress(m: Machine)
    requires StepDiscard(m).1 == Continue
    ensures Weight(StepDiscard(m).0.server) < Weight(m.server) && StepDiscard(m).0.state == ReadCommand
  {
    ReadShrinks(m.server, {'\n'});
  }

  lemma GetProgress(m: Machine)
    requires StepGet(m).1 == Continue && m.state == HandleGet
    ensures Weight(StepGet(m).0.server) < Weight(m.server) && StepGet(m).0.state != PeekMagicByte
  {
    ReadShrinks(m.server, {'\n'});
    var Got(text, rest) := ReadUntil(m.server, {'\n'});
    match ParseReply(TrimEol(text))
    case ValueHeader(key, size) => SkipBound(rest, size + |CRLF|);
    case _ =>
  }

  lemma CommandProgress(m: Machine)
    requires StepCommand(m).1 == Continue
    ensures var m' := StepCommand(m).0;
            Weight(m'.client) < Weight(m.client) && m'.server == m.server && m'.state in {ReadArgs, HandleUnknown}
  {
    ReadShrinks(m.client, {' ', '\n'});
  }

  lemma ArgsProgress(m: Machine)
    requires StepArgs(m).1 == Continue && m.state == ReadArgs
    ensures var m' := StepArgs(m).0;
            Weight(m'.client) < Weight(m.client) && m'.server == m.server && m'.state != PeekMagicByte
  {
    ReadShrinks(m.client, {' ', '\n'});
  }

  lemma SetProgress(m: Machine)
    requires StepSet(m).1 == Continue
    ensures Weight(StepSet(m).0.server) < Weight(m.server) && StepSet(m).0.state == ReadCommand
  {
    if |m.args| >= 4 && Atoi(m.args[3]).Number? {
      DiscardProgress(m.(client := Skip(m.client, Atoi(m.args[3]).value + |CRLF|)));
    } else {
      DiscardProgress(m);
    }
  }

  /**
    Every nil-returning step makes progress, whatever the buffers hold. This covers negative declared
    sizes too: those put a gap in front of what is buffered.
   */
  lemma StepProgress(m: Machine)
    requires Step(m).1 == Continue
    ensures Progress(m, Step(m).0)
  {
    var m0 := m.(server := Truncate(m.server));
    if m.state == ReadCommand {
      CommandProgress(m0.(args := []));
    } else if m.state == ReadArgs {
      ArgsProgress(m0);
    } else if m.state == HandleGet && |m.args| >= 1 {
      GetProgress(m);
    } else if m.state == HandleSet {
      SetProgress(m);
    } else if m.state != PeekMagicByte {
      DiscardProgress(m);
    }
  }

  function Settle(m: Machine): (r: (Machine, Status))
    ensures r.1 != Continue
    decreases Weight(m.server), Weight(m.client), Rank(m.state)
  {
    var (m', status) := Step(m);
    if status == Continue then
      StepProgress(m);
      Settle(m')
    else (m', status)
  }

  /**
    A run carried along as a function value. Its only link to Settle has Settle as its trigger, so that
    a proof that merely passes runs on does not unfold them.
   */
  type Behaviour = Machine -> (Machine, Status)

  ghost predicate Lawful(settle: Behaviour) {
    forall m {:trigger Settle(m)} :: settle(m) == Settle(m)
  }

  function Resync(m: Machine): Machine {
    m.(client := Reset(m.client), server := Reset(m.server), state := ReadCommand)
  }

  function Run(m: Machine): Machine {
    var (m', status) := Settle(m);
    if status == Fail then Resync(m') else m'
  }

  datatype Segment = Segment(skip: int, data: string)

  function FeedClient(m: Machine, seg: Segment): Machine {
    var m' := m.(client := Receive(m.client, seg.skip, seg.data));
    if m.running then Run(m') else m'
  }

  function FeedServer(m: Machine, seg: Segment): Machine {
    var m' := m.(server := Receive(m.server, seg.skip, seg.data));
    if m.running then Run(m') else m'
  }

  function FeedClientAll(m: Machine, segs: seq<Segment>): Machine
    decreases segs
  {
    if segs == [] then m else FeedClientAll(FeedClient(m, segs[0]), segs[1..])
  }

  function FeedServerAll(m: Machine, segs: seq<Segment>): Machine
    decreases segs
  {
    if segs == [] then m else FeedServerAll(FeedServer(m, segs[0]), segs[1..])
  }
}
