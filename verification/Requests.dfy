/**
  The client side of an exchange: whatever segments bring a request, with any loss inside data blocks,
  the machine ends up waiting for the reply.
 */
module Requests {
  import opened Streams
  import opened Text
  import opened TextMachine
  import opened Segmentation
  import opened Runs
  import opened Wire

  function Holding(p: string): Source { Live(Stream(Payload(p), 0), false, false, false) }

  function Owing(n: int): Source { Live(Stream([], n), false, false, false) }

  /** Ready for a command; of the last data block `owed` bytes have not arrived, or been reported lost, yet. */
  ghost predicate Open(m: Machine, owed: nat) {
    && (m.state == ReadCommand || (m.state == PeekMagicByte && owed == 0))
    && m.client == Owing(owed) && m.running
    && m.server.Live? && m.server.stream == EMPTY && !m.server.eof
  }

  /** Between exchanges, at the start of a connection or back at the next command, nothing is buffered. */
  ghost predicate Between(m: Machine, owed: nat) {
    Open(m, owed) && m.server == FRESH
  }

  ghost predicate Ready(m: Machine) {
    Between(m, 0)
  }

  // ---------------------------------------------------------------- reading delimited bytes

  lemma ReadDelimited(w: string, d: char, rest: string, chars: set<char>)
    requires d in chars && forall c :: c in w ==> c !in chars
    ensures ReadUntil(Holding(w + ([d] + rest)), chars) == Got(w + [d], Holding(rest))
  {
    var text := w + ([d] + rest);
    PrefixPayload(text);
    assert text[|w|] == d;
    FindUnique(text, chars, |w|);
    assert text[..|w| + 1] == w + [d] && text[|w| + 1..] == rest;
    PayloadSlice(text, |w| + 1);
    assert |text| == |w| + 1 ==> Payload(rest) == [];
  }

  lemma ReadPartial(p: string, chars: set<char>)
    requires forall c :: c in p ==> c !in chars
    ensures ReadUntil(Holding(p), chars) == Blocked
  {
    PrefixPayload(p);
    assert forall i :: 0 <= i < |p| ==> p[i] in p;
    assert Find(p, chars) == |p|;
  }

  lemma TrimToken(w: string)
    requires IsToken(w)
    ensures TrimRight(w, {'\r'}) == w && TrimRight(w + "\r", {'\r'}) == w
  {
    assert (w + "\r")[..|w|] == w;
    assert w != "" ==> w[|w| - 1] in w;
  }

  // ---------------------------------------------------------------- the request

  lemma ReadWord(m: Machine, w: string, d: char, rest: string)
    requires m.state == ReadArgs && Truncate(m.server) == m.server && IsToken(w) && d in {' ', '\n'}
    requires m.client == Holding((if d == ' ' then w else w + "\r") + ([d] + rest))
    ensures Step(m) == (m.(client := Holding(rest), args := m.args + [w],
                           state := if d == ' ' then ReadArgs else CommandState(m.cmd)), Continue)
  {
    var word := if d == ' ' then w else w + "\r";
    ReadDelimited(word, d, rest, {' ', '\n'});
    assert (word + [d])[..|word|] == word;
    TrimToken(w);
  }

  lemma {:induction false} ReadWords(m: Machine, words: seq<string>, tail: string)
    requires m.state == ReadArgs && Truncate(m.server) == m.server
    requires words != [] && forall w :: w in words ==> IsToken(w)
    requires m.client == Holding(Words(words) + tail)
    ensures Settle(m) == Settle(m.(state := CommandState(m.cmd), args := m.args + words, client := Holding(tail)))
    decreases |words|
  {
    if |words| == 1 {
      assert words == [words[0]];
      assert Words(words) + tail == (words[0] + "\r") + (['\n'] + tail);
      ReadWord(m, words[0], '\n', tail);
    } else {
      ReadMoreWords(m, words, tail);
    }
  }

  lemma {:induction false} ReadMoreWords(m: Machine, words: seq<string>, tail: string)
    requires m.state == ReadArgs && Truncate(m.server) == m.server
    requires |words| > 1 && forall w :: w in words ==> IsToken(w)
    requires m.client == Holding(Words(words) + tail)
    ensures Settle(m) == Settle(m.(state := CommandState(m.cmd), args := m.args + words, client := Holding(tail)))
    decreases |words|, 0
  {
    var w, rest := words[0], Words(words[1..]) + tail;
    var m1 := m.(client := Holding(rest), args := m.args + [w]);
    assert m1.args + words[1..] == m.args + words;
    assert Settle(m) == Settle(m1) by {
      assert Words(words) + tail == w + ([' '] + rest);
      ReadWord(m, w, ' ', rest);
    }
    ReadWords(m1, words[1..], tail);
  }

  lemma TrimWord(verb: string)
    requires IsWord(verb)
    ensures TrimRight(verb + " ", {' ', '\r', '\n'}) == verb
  {
    assert (verb + " ")[..|verb|] == verb;
    assert verb[|verb| - 1] in verb;
  }

  lemma ReadVerb(m: Machine, verb: string, rest: string)
    requires m.state == ReadCommand && CommandState(verb) != HandleUnknown
    requires m.client == Holding(verb + (" " + rest))
    ensures Step(m) == (m.(client := Holding(rest), cmd := verb, args := [], server := Truncate(m.server),
                           state := ReadArgs), Continue)
  {
    CommandIsWord(verb);
    TrimWord(verb);
    ReadDelimited(verb, ' ', rest, {' ', '\n'});
  }

  /** The machine once a command line has been read and `tail` follows it. */
  function AfterLine(m: Machine, verb: string, words: seq<string>, tail: string): Machine {
    m.(state := CommandState(verb), cmd := verb, args := words, client := Holding(tail), server := Truncate(m.server))
  }

  lemma ReadLineOf(m: Machine, verb: string, words: seq<string>, tail: string)
    requires m.state in {PeekMagicByte, ReadCommand} && CommandState(verb) != HandleUnknown
    requires words != [] && forall w :: w in words ==> IsToken(w)
    requires m.client == Holding(verb + (" " + (Words(words) + tail)))
    ensures Settle(m) == Settle(AfterLine(m, verb, words, tail))
  {
    var rest := Words(words) + tail;
    var m1 := m.(server := Truncate(m.server), state := ReadCommand);
    if m.state == PeekMagicByte {
      CommandIsWord(verb);
      assert m.client.stream.cells[0] == Data(verb[0]);
      assert IsLetter(verb[0]);
      assert Step(m) == (m1, Continue);
    } else {
      assert Step(m) == Step(m1);
    }
    assert Settle(m) == Settle(m1);
    ReadVerb(m1, verb, rest);
    ReadWords(m1.(client := Holding(rest), cmd := verb, args := [], state := ReadArgs), words, tail);
    assert [] + words == words;
  }

  function AfterCommand(m: Machine, ex: Exchange, tail: string): Machine {
    AfterLine(m, ex.verb, ex.words, tail)
  }

  lemma ReadCommandLine(m: Machine, ex: Exchange, tail: string)
    requires m.state in {PeekMagicByte, ReadCommand} && WellFormed(ex)
    requires m.client == Holding(CommandLine(ex) + tail)
    ensures Settle(m) == Settle(AfterCommand(m, ex, tail))
  {
    assert CommandLine(ex) + tail == ex.verb + (" " + (Words(ex.words) + tail));
    CommandOf(ex);
    ReadLineOf(m, ex.verb, ex.words, tail);
  }

  /** The machine waiting for a reply, with `owed` bytes of a data block still to come. */
  function Requested(m: Machine, ex: Exchange, owed: int): Machine {
    m.(state := if ex.Storage? then DiscardResponse else HandleGet, cmd := ex.verb, args := ex.words,
       client := Owing(owed), server := FRESH)
  }

  lemma SkipBlock(p: string, size: nat)
    requires |p| <= size
    ensures Skip(Holding(p), size) == Owing(size - |p|)
  {
  }

  lemma FreshBlocks(chars: set<char>)
    ensures ReadUntil(FRESH, chars) == Blocked && FRESH == Owing(0) == Holding("")
  {
  }

  lemma OwingBlocks(n: int, chars: set<char>)
    ensures ReadUntil(Owing(n), chars) == Blocked
  {
  }

  function OwedAfter(ex: Exchange, p: string): int {
    if ex.Storage? then |ex.body| + 2 - |p| else 0
  }

  lemma AwaitReply(m: Machine, ex: Exchange, p: string)
    requires m.server == FRESH && WellFormed(ex)
    requires if ex.Storage? then |p| <= |ex.body| + 2 else p == ""
    ensures Settle(AfterCommand(m, ex, p)) == (Requested(m, ex, OwedAfter(ex, p)), Wait)
  {
    var a := AfterCommand(m, ex, p);
    FreshBlocks({'\n'});
    if ex.Storage? {
      SkipBlock(p, |ex.body| + 2);
      assert Step(a) == (Requested(m, ex, OwedAfter(ex, p)), Wait);
    }
  }

  /** The whole command line and part of the data block: the machine waits for the reply. */
  lemma RequestRead(m: Machine, ex: Exchange, p: string)
    requires Ready(m) && WellFormed(ex)
    requires if ex.Storage? then |p| <= |ex.body| + 2 else p == ""
    ensures Settle(ToClient(m, Payload(CommandLine(ex) + p))) == (Requested(m, ex, OwedAfter(ex, p)), Wait)
  {
    var text := CommandLine(ex) + p;
    PushEmpty(0, Payload(text));
    assert Shift(Payload(text), 0) == Payload(text);
    ReadCommandLine(ToClient(m, Payload(text)), ex, p);
    AwaitReply(m, ex, p);
  }

  // ---------------------------------------------------------------- segments, whatever they bring

  lemma TakeFresh(p: string)
    ensures Take(FRESH, Payload(p)) == Holding(p) && SourceOk(Holding(p))
  {
    PushEmpty(0, Payload(p));
    assert Shift(Payload(p), 0) == Payload(p);
  }

  lemma ToClientTwice(m: Machine, p: string, q: string)
    ensures ToClient(ToClient(m, Payload(p)), Payload(q)) == ToClient(m, Payload(p + q))
  {
    TakeSplit(m.client, 0, p, q);
    assert Incoming(0, p + q) == Payload(p + q) && Incoming(0, p) == Payload(p) && Incoming(0, q) == Payload(q);
  }

  lemma Pieces(wire: string, a: nat, b: nat)
    requires a <= b <= |wire|
    ensures wire[..a] + wire[a..b] == wire[..b] && wire[..|wire|] == wire
    ensures a == 0 ==> wire[a..b] == wire[..b]
  {
  }

  /** The source has room for the segment, and owes what the segment has lost. */
  ghost predicate Admits(src: Source, seg: Segment) {
    src.Live? ==>
      && Fits(src.stream, seg.skip, seg.data, BUFFER_SIZE)
      && (Lead(seg) == 0 || Lead(seg) <= src.stream.debt)
  }

  /** Receiving a segment is the same as receiving the bytes it stands for, none of them lost. */
  lemma ReceiveWhole(src: Source, seg: Segment, bytes: string)
    requires Admits(src, seg) && Lead(seg) <= |bytes| && bytes[Lead(seg)..] == seg.data
    ensures Receive(src, seg.skip, seg.data) == Take(src, Payload(bytes))
  {
    ReceiveIsTake(src, seg);
    assert Incoming(0, bytes) == Payload(bytes);
    if Lead(seg) == 0 {
      assert bytes == seg.data && Incoming(seg.skip, seg.data) == Payload(bytes);
    } else if src.Live? {
      assert bytes == bytes[..Lead(seg)] + seg.data;
      LossInsideDebt(src.stream, Lead(seg), seg.data, bytes[..Lead(seg)]);
    }
  }

  lemma BringsWhole(src: Source, seg: Segment, wire: string, pos: nat, end: nat)
    requires Brings(seg, wire, pos, end) && Admits(src, seg)
    ensures Receive(src, seg.skip, seg.data) == Take(src, Payload(wire[pos..end]))
  {
    assert wire[pos..end][Lead(seg)..] == seg.data;
    ReceiveWhole(src, seg, wire[pos..end]);
  }

  /** The run over the first n bytes of what the client sends. */
  function ClientRun(settle: Behaviour, m: Machine, wire: string, n: nat): (Machine, Status)
    requires n <= |wire|
  {
    settle(ToClient(m, Payload(wire[..n])))
  }

  /** Cutting what the client sends, whatever it is. */
  lemma ClientContinues(settle: Behaviour, m: Machine, wire: string, pos: nat, end: nat, x: Machine)
    requires Lawful(settle) && pos < end <= |wire| && ClientRun(settle, m, wire, pos) == (x, Wait)
    requires Ok(ToClient(m, Payload(wire[..pos]))) && !PeeksGap(ToClient(m, Payload(wire[..pos])))
    ensures settle(ToClient(x, Payload(wire[pos..end]))) == ClientRun(settle, m, wire, end)
  {
    var start := ToClient(m, Payload(wire[..pos]));
    SettleToClient(start, Payload(wire[pos..end]));
    Pieces(wire, pos, end);
    ToClientTwice(m, wire[..pos], wire[pos..end]);
  }

  /** Feeding a client segment is running over the bytes it brings. */
  lemma ClientFeed(settle: Behaviour, x: Machine, seg: Segment, wire: string, pos: nat, end: nat)
    requires Lawful(settle) && Ok(x) && Brings(seg, wire, pos, end) && Admits(x.client, seg)
    ensures var (y, status) := settle(ToClient(x, Payload(wire[pos..end])));
            FeedClient(x, seg) == if status == Fail then Resync(y) else y
  {
    BringsWhole(x.client, seg, wire, pos, end);
    FeedIsRun(x, seg);
    assert settle(ToClient(x, Payload(wire[pos..end]))) == Settle(ToClient(x, Payload(wire[pos..end])));
  }

  // ---------------------------------------------------------------- the client side of an exchange

  lemma RequestLength(ex: Exchange)
    requires ex.words != []
    ensures Request(ex) == CommandLine(ex) + if ex.Storage? then ex.body + CRLF else ""
    ensures |Request(ex)| == |CommandLine(ex)| + if ex.Storage? then |ex.body| + 2 else 0
  {
  }

  /** Part of a request that includes the command line is the command line and part of the data block. */
  lemma RequestParts(ex: Exchange, n: nat) returns (p: string)
    requires ex.words != [] && |CommandLine(ex)| <= n <= |Request(ex)|
    ensures Request(ex)[..n] == CommandLine(ex) + p && |p| == n - |CommandLine(ex)|
    ensures OwedAfter(ex, p) == |Request(ex)| - n
    ensures if ex.Storage? then |p| <= |ex.body| + 2 else p == ""
  {
    RequestLength(ex);
    p := (if ex.Storage? then ex.body + CRLF else "")[..n - |CommandLine(ex)|];
  }

  lemma RequestFull(settle: Behaviour, m: Machine, ex: Exchange, n: nat)
    requires Lawful(settle) && Ready(m) && WellFormed(ex) && |CommandLine(ex)| <= n <= |Request(ex)|
    ensures ClientRun(settle, m, Request(ex), n) == (Requested(m, ex, |Request(ex)| - n), Wait)
  {
    var p := RequestParts(ex, n);
    TextRead(settle, m, ex, p, Request(ex)[..n]);
  }

  lemma TextRead(settle: Behaviour, m: Machine, ex: Exchange, p: string, text: string)
    requires Lawful(settle) && Ready(m) && WellFormed(ex) && text == CommandLine(ex) + p
    requires if ex.Storage? then |p| <= |ex.body| + 2 else p == ""
    ensures settle(ToClient(m, Payload(text))) == (Requested(m, ex, OwedAfter(ex, p)), Wait)
  {
    RequestRead(m, ex, p);
  }

  // ---------------------------------------------------------------- part of a command line

  lemma CurrentWordAfter(w: string, q: string)
    requires ' ' !in w
    ensures CurrentWord(w) == w && CurrentWord(w + (" " + q)) == CurrentWord(q)
  {
    var text := w + (" " + q);
    assert Find(w, {' '}) == |w|;
    assert text[|w|] == ' ';
    FindUnique(text, {' '}, |w|);
    assert text[|w| + 1..] == q;
  }

  lemma AfterSpace(q: string, w: string, rest: string)
    requires q <= w + (" " + rest) && |q| > |w|
    ensures var next := q[|w| + 1..];
            q == w + (" " + next) && next <= rest && (|q| < |w| + 1 + |rest| ==> |next| < |rest|)
  {
    assert forall i :: 0 <= i < |q| ==> q[i] == (w + (" " + rest))[i];
  }

  lemma WithinWord(q: string, w: string, rest: string)
    requires q <= w + rest && |q| <= |w|
    ensures q <= w && forall c :: c in q ==> c in w
  {
    assert forall i :: 0 <= i < |q| ==> q[i] == (w + rest)[i];
  }

  /** Of the last word and the end of the line, any part is kept as it is. */
  lemma LastWordPart(m: Machine, w: string, q: string)
    requires m.state == ReadArgs && Truncate(m.server) == m.server && IsToken(w)
    requires q <= w + CRLF && |q| < |w| + 2 && m.client == Holding(q)
    ensures Settle(m) == (m, Wait) && CurrentWord(q) == q
  {
    assert w + CRLF == (w + "\r") + "\n";
    WithinWord(q, w + "\r", "\n");
    ReadPartial(q, {' ', '\n'});
    CurrentWordAfter(q, "");
  }

  lemma {:induction false} WordsPart(m: Machine, words: seq<string>, q: string)
    requires m.state == ReadArgs && Truncate(m.server) == m.server
    requires words != [] && forall w :: w in words ==> IsToken(w)
    requires q <= Words(words) && |q| < |Words(words)| && m.client == Holding(q)
    ensures Settle(m).1 == Wait && Settle(m).0.client == Holding(CurrentWord(q))
    decreases |words|
  {
    var w := words[0];
    assert IsToken(w);
    if |words| == 1 {
      LastWordPart(m, w, q);
    } else if |q| <= |w| {
      WithinWord(q, w, " " + Words(words[1..]));
      LastWordPart(m, w, q);
    } else {
      var next := q[|w| + 1..];
      AfterSpace(q, w, Words(words[1..]));
      var m1 := m.(client := Holding(next), args := m.args + [w]);
      assert Settle(m) == Settle(m1) by {
        assert q == w + ([' '] + next);
        ReadWord(m, w, ' ', next);
      }
      WordsPart(m1, words[1..], next);
      CurrentWordAfter(w, next);
    }
  }

  /** A part of a command line is read up to its last complete word. */
  lemma LinePart(m: Machine, verb: string, words: seq<string>, q: string)
    requires m.state in {PeekMagicByte, ReadCommand} && CommandState(verb) != HandleUnknown
    requires words != [] && forall w :: w in words ==> IsToken(w)
    requires q <= verb + (" " + Words(words)) && |q| < |verb| + 1 + |Words(words)| && m.client == Holding(q)
    ensures Settle(m).1 == Wait && Settle(m).0.client == Holding(CurrentWord(q))
  {
    CommandIsWord(verb);
    if q == "" {
      FreshBlocks({' ', '\n'});
    } else {
      var m1 := m.(server := Truncate(m.server), state := ReadCommand);
      assert Settle(m) == Settle(m1) by { FirstLetter(m, m1, verb, words, q); }
      VerbPart(m1, verb, words, q);
    }
  }

  lemma FirstLetter(m: Machine, m1: Machine, verb: string, words: seq<string>, q: string)
    requires m.state in {PeekMagicByte, ReadCommand} && IsWord(verb) && words != []
    requires q != "" && q <= verb + (" " + Words(words)) && m.client == Holding(q)
    requires m1 == m.(server := Truncate(m.server), state := ReadCommand)
    ensures Settle(m) == Settle(m1)
  {
    assert q[0] == verb[0] && IsLetter(verb[0]);
    assert m.client.stream.cells[0] == Data(q[0]);
    if m.state == PeekMagicByte {
      assert Step(m) == (m1, Continue);
    } else {
      assert Step(m) == Step(m1);
    }
  }

  lemma VerbPart(m: Machine, verb: string, words: seq<string>, q: string)
    requires m.state == ReadCommand && Truncate(m.server) == m.server && CommandState(verb) != HandleUnknown
    requires words != [] && forall w :: w in words ==> IsToken(w)
    requires q <= verb + (" " + Words(words)) && |q| < |verb| + 1 + |Words(words)| && m.client == Holding(q)
    ensures Settle(m).1 == Wait && Settle(m).0.client == Holding(CurrentWord(q))
  {
    CommandIsWord(verb);
    assert forall c :: c in verb ==> c !in {' ', '\n'};
    if |q| <= |verb| {
      WithinWord(q, verb, " " + Words(words));
      ReadPartial(q, {' ', '\n'});
      CurrentWordAfter(q, "");
    } else {
      var next := q[|verb| + 1..];
      AfterSpace(q, verb, Words(words));
      ReadVerb(m, verb, next);
      WordsPart(m.(client := Holding(next), cmd := verb, args := [], state := ReadArgs), words, next);
      CurrentWordAfter(verb, next);
    }
  }

  // ---------------------------------------------------------------- any part of the client's bytes

  /** A machine that waits after part of the client's bytes, with nothing reported and this much left. */
  ghost predicate Waits(m: Machine, r: (Machine, Status), left: Stream) {
    r.1 == Wait && Ok(r.0) && r.0.events == m.events && r.0.client == Live(left, false, false, false)
  }

  lemma WaitsIfSettled(settle: Behaviour, m: Machine, p: string, left: Stream)
    requires Lawful(settle) && Open(m, 0) && settle(ToClient(m, Payload(p))).1 == Wait
    requires settle(ToClient(m, Payload(p))).0.client == Live(left, false, false, false)
    ensures Waits(m, settle(ToClient(m, Payload(p))), left)
  {
    var start := ToClient(m, Payload(p));
    TakeFresh(p);
    SettleKeepsOk(start);
    SettleQuiet(start);
  }

  /** Part of a command line never makes the machine fail or report anything. */
  lemma PartWaits(settle: Behaviour, m: Machine, ex: Exchange, n: nat)
    requires Lawful(settle) && Open(m, 0) && WellFormed(ex) && n < |CommandLine(ex)|
    ensures n <= |Request(ex)| && Waits(m, ClientRun(settle, m, Request(ex), n), ClientResidue(ex, "", n))
  {
    RequestPrefix(ex, n);
    var q := CommandLine(ex)[..n];
    PrefixWaits(settle, m, ex, q);
    PartIs(settle, m, Request(ex), n, q);
    PartResidue(ex, n, q);
  }

  lemma PartIs(settle: Behaviour, m: Machine, wire: string, n: nat, q: string)
    requires n <= |wire| && wire[..n] == q
    ensures ClientRun(settle, m, wire, n) == settle(ToClient(m, Payload(q)))
  {
  }

  lemma PartResidue(ex: Exchange, n: nat, q: string)
    requires ex.words != [] && n < |CommandLine(ex)| && n <= |Request(ex)| && q == CommandLine(ex)[..n]
    ensures ClientResidue(ex, "", n) == Stream(Payload(CurrentWord(q)), 0)
  {
  }

  lemma RequestPrefix(ex: Exchange, n: nat)
    requires ex.words != [] && n < |CommandLine(ex)|
    ensures n <= |Request(ex)| && Request(ex)[..n] == CommandLine(ex)[..n]
  {
    RequestLength(ex);
    TakePrefix(Request(ex), CommandLine(ex), if ex.Storage? then ex.body + CRLF else "", n);
  }

  lemma TakePrefix(whole: string, a: string, b: string, n: nat)
    requires whole == a + b && n <= |a|
    ensures whole[..n] == a[..n]
  {
  }

  lemma PrefixWaits(settle: Behaviour, m: Machine, ex: Exchange, q: string)
    requires Lawful(settle) && Open(m, 0) && WellFormed(ex) && q <= CommandLine(ex) && |q| < |CommandLine(ex)|
    ensures Waits(m, settle(ToClient(m, Payload(q))), Stream(Payload(CurrentWord(q)), 0))
  {
    TakeFresh(q);
    LinePart(ToClient(m, Payload(q)), ex.verb, ex.words, q);
    WaitsIfSettled(settle, m, q, Stream(Payload(CurrentWord(q)), 0));
  }

  // ---------------------------------------------------------------- after a data block of which bytes are owed

  /** While owed bytes arrive nothing happens. */
  lemma OwedWaits(settle: Behaviour, m: Machine, owed: nat, p: string)
    requires Lawful(settle) && Open(m, owed) && m.state == ReadCommand && |p| <= owed
    ensures settle(ToClient(m, Payload(p))) == (m.(client := Owing(owed - |p|), args := []), Wait)
  {
    OwingBlocks(owed - |p|, {' ', '\n'});
    assert Settle(ToClient(m, Payload(p))) == (m.(client := Owing(owed - |p|), args := []), Wait);
  }

  /** Once they have all arrived, the machine is where it would be had it not owed any. */
  lemma OwedGone(m: Machine, owed: string, q: string)
    requires Open(m, |owed|)
    ensures ToClient(m, Payload(owed + q)) == ToClient(m.(client := FRESH), Payload(q))
  {
    ToClientTwice(m, owed, q);
    assert ToClient(m, Payload(owed)) == m.(client := FRESH);
  }

  lemma OwedPart(owed: string, req: string, n: nat)
    requires n <= |owed| + |req|
    ensures (owed + req)[..n] == if n < |owed| then owed[..n] else owed + req[..n - |owed|]
  {
  }

  lemma OwedRun(settle: Behaviour, m: Machine, owed: string, req: string, n: nat)
    requires Open(m, |owed|) && |owed| <= n <= |owed| + |req|
    ensures ClientRun(settle, m, owed + req, n) == ClientRun(settle, m.(client := FRESH), req, n - |owed|)
  {
    OwedPart(owed, req, n);
    OwedGone(m, owed, req[..n - |owed|]);
  }

  /** The machine after n of the client's bytes have been fed to it. */
  function AtClient(settle: Behaviour, m: Machine, wire: string, n: nat): Machine
    requires n <= |wire|
  {
    if n == 0 then m else ClientRun(settle, m, wire, n).0
  }

  lemma FullOnceGone(settle: Behaviour, m: Machine, ex: Exchange, owed: nat, n: nat, left: nat)
    requires Lawful(settle) && Between(m, owed) && WellFormed(ex) && |CommandLine(ex)| <= n <= |Request(ex)|
    requires left == |Request(ex)| - n
    ensures ClientRun(settle, m.(client := FRESH), Request(ex), n) == (Requested(m, ex, left), Wait)
  {
    RequestFull(settle, m.(client := FRESH), ex, n);
  }

  lemma ClientFull(settle: Behaviour, m: Machine, ex: Exchange, owed: string, n: nat)
    requires Lawful(settle) && Between(m, |owed|) && WellFormed(ex)
    requires CommandEnd(ex, owed) <= n <= |owed| + |Request(ex)|
    ensures n > 0 && ClientRun(settle, m, owed + Request(ex), n) == (Requested(m, ex, |owed| + |Request(ex)| - n), Wait)
  {
    var req, d := Request(ex), |owed|;
    FullOnceGone(settle, m, ex, d, n - d, d + |req| - n);
    OwedRun(settle, m, owed, req, n);
  }

  lemma FullWaits(settle: Behaviour, m: Machine, ex: Exchange, owed: string, n: nat)
    requires Lawful(settle) && Between(m, |owed|) && WellFormed(ex)
    requires CommandEnd(ex, owed) <= n <= |owed| + |Request(ex)|
    ensures Waits(m, ClientRun(settle, m, owed + Request(ex), n), ClientResidue(ex, owed, n))
  {
    ClientFull(settle, m, ex, owed, n);
  }

  lemma WaitsWhileOwed(settle: Behaviour, m: Machine, owed: string, req: string, n: nat)
    requires Lawful(settle) && Open(m, |owed|) && m.state == ReadCommand && n <= |owed|
    ensures Waits(m, ClientRun(settle, m, owed + req, n), Stream([], |owed| - n))
  {
    assert (owed + req)[..n] == owed[..n];
    OwedWaits(settle, m, |owed|, owed[..n]);
  }

  lemma ResidueOnceGone(ex: Exchange, owed: string, n: nat)
    requires ex.words != [] && |owed| <= n <= |owed| + |Request(ex)|
    ensures ClientResidue(ex, owed, n) == ClientResidue(ex, "", n - |owed|)
  {
  }

  lemma CommandOnceGone(settle: Behaviour, m: Machine, ex: Exchange, owed: string, n: nat)
    requires Lawful(settle) && Open(m, |owed|) && WellFormed(ex) && |owed| <= n < CommandEnd(ex, owed)
    requires n <= |owed| + |Request(ex)|
    ensures Waits(m, ClientRun(settle, m, owed + Request(ex), n), ClientResidue(ex, "", n - |owed|))
  {
    var m', k := m.(client := FRESH), n - |owed|;
    PartWaits(settle, m', ex, k);
    WaitsOn(m, m', ClientRun(settle, m', Request(ex), k), ClientResidue(ex, "", k));
    OwedRun(settle, m, owed, Request(ex), n);
  }

  lemma WaitsOn(m: Machine, m': Machine, r: (Machine, Status), left: Stream)
    requires Waits(m', r, left) && m'.events == m.events
    ensures Waits(m, r, left)
  {
  }

  /** Until the command line is complete it does not matter what the server's reader is like. */
  lemma CommandWaits(settle: Behaviour, m: Machine, ex: Exchange, owed: string, n: nat)
    requires Lawful(settle) && Open(m, |owed|) && WellFormed(ex) && 0 < n < CommandEnd(ex, owed)
    ensures n <= |owed| + |Request(ex)|
    ensures Waits(m, ClientRun(settle, m, owed + Request(ex), n), ClientResidue(ex, owed, n))
  {
    assert n <= |owed| + |Request(ex)| by { RequestLength(ex); }
    if n < |owed| {
      WaitsWhileOwed(settle, m, owed, Request(ex), n);
    } else {
      CommandOnceGone(settle, m, ex, owed, n);
      ResidueOnceGone(ex, owed, n);
    }
  }

  lemma ClientWaits(settle: Behaviour, m: Machine, ex: Exchange, owed: string, n: nat)
    requires Lawful(settle) && Between(m, |owed|) && WellFormed(ex) && 0 < n <= |owed| + |Request(ex)|
    ensures Waits(m, ClientRun(settle, m, owed + Request(ex), n), ClientResidue(ex, owed, n))
  {
    if n < CommandEnd(ex, owed) {
      CommandWaits(settle, m, ex, owed, n);
    } else {
      FullWaits(settle, m, ex, owed, n);
    }
  }

  /** Wherever a loss is harmless, at least as much is owed. */
  lemma LossIsOwed(ex: Exchange, owed: string, n: nat, skip: nat)
    requires ex.words != [] && n <= |owed| + |Request(ex)|
    requires skip > 0 && Harmless(ex, Client, owed, n, skip)
    ensures skip <= ClientResidue(ex, owed, n).debt
  {
    assert CommandEnd(ex, owed) > |owed|;
  }

  lemma StartResidue(m: Machine, ex: Exchange, owed: string)
    requires Open(m, |owed|) && ex.words != []
    ensures m.client == Live(ClientResidue(ex, owed, 0), false, false, false)
  {
    assert CommandEnd(ex, owed) > |owed|;
    assert owed == "" ==> CommandLine(ex)[..0] == "" && Payload("") == [];
  }

  /** The machine that has been fed pos bytes; it is at the start or waits with what the wire leaves there. */
  ghost predicate Reaches(settle: Behaviour, m: Machine, ex: Exchange, owed: string, pos: nat, x: Machine)
    requires ex.words != [] && pos <= |owed| + |Request(ex)|
  {
    if pos == 0 then x == m
    else ClientRun(settle, m, owed + Request(ex), pos) == (x, Wait) && Waits(m, (x, Wait), ClientResidue(ex, owed, pos))
  }

  /** Wherever a segment is delivered, the reader takes it. */
  lemma ClientAdmits(settle: Behaviour, m: Machine, ex: Exchange, owed: string, pos: nat, seg: Segment, x: Machine)
    requires Lawful(settle) && Open(m, |owed|) && WellFormed(ex) && pos <= |owed| + |Request(ex)|
    requires Fits(ClientResidue(ex, owed, pos), seg.skip, seg.data, BUFFER_SIZE)
    requires Harmless(ex, Client, owed, pos, Lead(seg)) && Reaches(settle, m, ex, owed, pos, x)
    ensures Ok(x) && Admits(x.client, seg)
  {
    if pos == 0 {
      StartResidue(m, ex, owed);
    }
    if Lead(seg) > 0 {
      LossIsOwed(ex, owed, pos, Lead(seg));
    }
  }

  lemma StartIsFine(m: Machine, owed: nat, p: string)
    requires Open(m, owed)
    ensures Ok(ToClient(m, Payload(p))) && !PeeksGap(ToClient(m, Payload(p)))
  {
    TakeOk(m.client, Payload(p));
    if owed == 0 {
      TakeFresh(p);
    }
  }

  /** Feeding a segment is running over the bytes it brings, as far as the run over all of them goes. */
  lemma ClientSegmentRun(settle: Behaviour, m: Machine, ex: Exchange, owed: string, wire: string, pos: nat,
                         seg: Segment, end: nat, x: Machine)
    requires Lawful(settle) && Open(m, |owed|) && WellFormed(ex) && wire == owed + Request(ex)
    requires Brings(seg, wire, pos, end) && Harmless(ex, Client, owed, pos, Lead(seg))
    requires Fits(ClientResidue(ex, owed, pos), seg.skip, seg.data, BUFFER_SIZE)
    requires Reaches(settle, m, ex, owed, pos, x)
    ensures var (y, status) := ClientRun(settle, m, wire, end);
            FeedClient(x, seg) == if status == Fail then Resync(y) else y
  {
    ClientAdmits(settle, m, ex, owed, pos, seg, x);
    assert settle(ToClient(x, Payload(wire[pos..end]))) == ClientRun(settle, m, wire, end) by {
      if pos == 0 {
        Pieces(wire, pos, end);
      } else {
        StartIsFine(m, |owed|, wire[..pos]);
        ClientContinues(settle, m, wire, pos, end, x);
      }
    }
    ClientFeed(settle, x, seg, wire, pos, end);
  }

  /** One segment of the client's bytes, possibly with loss inside a data block. */
  lemma ClientSegment(settle: Behaviour, m: Machine, ex: Exchange, owed: string, wire: string, pos: nat, seg: Segment,
                      end: nat)
    requires Lawful(settle) && Between(m, |owed|) && WellFormed(ex) && wire == owed + Request(ex)
    requires DeliversOne(ex, Client, owed, pos, seg) && end == pos + Length(seg)
    ensures end <= |wire| && FeedClient(AtClient(settle, m, wire, pos), seg) == AtClient(settle, m, wire, end)
  {
    var x := AtClient(settle, m, wire, pos);
    assert Reaches(settle, m, ex, owed, pos, x) by {
      if pos > 0 {
        ClientWaits(settle, m, ex, owed, pos);
      }
    }
    ClientSegmentRun(settle, m, ex, owed, wire, pos, seg, end, x);
    ClientWaits(settle, m, ex, owed, end);
  }

  /** The same as long as the command line is not complete, whatever the server's reader is like. */
  lemma CommandSegment(settle: Behaviour, m: Machine, ex: Exchange, owed: string, wire: string, pos: nat, seg: Segment,
                       end: nat)
    requires Lawful(settle) && Open(m, |owed|) && WellFormed(ex) && wire == owed + Request(ex)
    requires DeliversOne(ex, Client, owed, pos, seg) && end == pos + Length(seg) && pos < CommandEnd(ex, owed)
    ensures end <= |wire|
    ensures var (y, status) := ClientRun(settle, m, wire, end);
            FeedClient(AtClient(settle, m, wire, pos), seg) == if status == Fail then Resync(y) else y
    ensures end < CommandEnd(ex, owed) ==> ClientRun(settle, m, wire, end).1 == Wait
  {
    var x := AtClient(settle, m, wire, pos);
    assert Reaches(settle, m, ex, owed, pos, x) by {
      if pos > 0 {
        CommandWaits(settle, m, ex, owed, pos);
      }
    }
    ClientSegmentRun(settle, m, ex, owed, wire, pos, seg, end, x);
    if end < CommandEnd(ex, owed) {
      CommandWaits(settle, m, ex, owed, end);
    }
  }
}
