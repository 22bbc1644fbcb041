/** What the parser makes of single commands: when it acts on them, and what it does not understand. */
module Commands {
  import opened Streams
  import opened Text
  import opened TextMachine
  import opened Segmentation
  import opened Runs
  import opened Wire
  import opened Requests
  import opened Replies
  import opened Lifetime

  lemma TrimBare(verb: string)
    requires IsWord(verb)
    ensures TrimRight(verb + "\r" + "\n", {' ', '\r', '\n'}) == verb
  {
    var cutset := {' ', '\r', '\n'};
    assert verb[|verb| - 1] in verb;
    assert TrimRight(verb, cutset) == verb;
    assert (verb + "\r")[..|verb|] == verb;
    assert TrimRight(verb + "\r", cutset) == verb;
    assert (verb + "\r" + "\n")[..|verb| + 1] == verb + "\r";
  }

  /** A command line with any number of words. */
  function LineOf(verb: string, words: seq<string>): string {
    if words == [] then verb + CRLF else verb + (" " + Words(words))
  }

  /** Where a recognised command line leads if nothing follows it. */
  function Reached(verb: string, words: seq<string>): State {
    if words == [] then ReadArgs
    else if RetrievalVerb(verb) then HandleGet
    else if StorageVerb(verb) then DiscardResponse
    else Finished
  }

  /**
    A recognised command line is acted on when it arrives if and only if it has arguments. Without any
    the parser goes on to wait for arguments, so a bare quit is noticed only when more client bytes arrive.
   */
  lemma ActedOnIffArguments(m: Machine, verb: string, words: seq<string>)
    requires Ready(m) && KnownVerb(verb) && forall w :: w in words ==> IsToken(w)
    ensures var (x, status) := Settle(ToClient(m, Payload(LineOf(verb, words))));
            && status == Wait && x.cmd == verb && x.args == words && x.state == Reached(verb, words)
            && (x.state == ReadArgs <==> words == [])
  {
    CommandStates(verb);
    if words == [] {
      BareCommandWaits(m, verb);
    } else {
      TakeFresh(LineOf(verb, words));
      assert Words(words) + "" == Words(words);
      ReadLineOf(ToClient(m, Payload(LineOf(verb, words))), verb, words, "");
      ActsOn(AfterLine(m, verb, words, ""));
    }
  }

  lemma ActsOn(m: Machine)
    requires m.state in {HandleGet, HandleSet, HandleQuit} && m.args != [] && m.server == FRESH && m.client == FRESH
    ensures var (x, status) := Settle(m);
            && status == Wait && x.cmd == m.cmd && x.args == m.args
            && x.state == if m.state == HandleSet then DiscardResponse
                          else if m.state == HandleQuit then Finished
                          else HandleGet
  {
    FreshBlocks({'\n'});
    if m.state == HandleSet {
      SetWaits(m);
    }
  }

  lemma SetWaits(m: Machine)
    requires m.state == HandleSet && m.server == FRESH && m.client == FRESH
    ensures Step(m).1 == Wait && Step(m).0.cmd == m.cmd && Step(m).0.args == m.args
    ensures Step(m).0.state == DiscardResponse
  {
    FreshBlocks({'\n'});
  }

  lemma BareCommandWaits(m: Machine, verb: string)
    requires Ready(m) && KnownVerb(verb)
    ensures var (x, status) := Settle(ToClient(m, Payload(verb + CRLF)));
            status == Wait && x.state == ReadArgs && x.cmd == verb && x.args == [] && x.client == FRESH
  {
    CommandStates(verb);
    CommandIsWord(verb);
    var text := verb + CRLF;
    TakeFresh(text);
    var m0 := ToClient(m, Payload(text));
    var m1 := m0.(state := ReadCommand);
    var m2 := m1.(state := ReadArgs, cmd := verb, args := [], client := FRESH);
    assert Settle(m2) == (m2, Wait) by { FreshBlocks({' ', '\n'}); }
    assert Settle(m1) == Settle(m2) by { BareCommandRead(m1, verb); }
    assert Settle(m0) == Settle(m1) by {
      if m.state == PeekMagicByte {
        assert IsLetter(verb[0]) && Payload(text)[0] == Data(verb[0]);
        assert Step(m0) == (m1, Continue);
      }
    }
  }

  lemma BareCommandRead(m: Machine, verb: string)
    requires m.state == ReadCommand && m.client == Holding(verb + CRLF) && m.server == FRESH
    requires CommandState(verb) != HandleUnknown
    ensures Step(m) == (m.(state := ReadArgs, cmd := verb, args := [], client := FRESH), Continue)
  {
    CommandIsWord(verb);
    assert verb + CRLF == (verb + "\r") + (['\n'] + "");
    ReadDelimited(verb + "\r", '\n', "", {' ', '\n'});
    TrimBare(verb);
    FreshBlocks({' ', '\n'});
  }

  // ---------------------------------------------------------------- the end of a connection

  lemma SmallFits(m: Machine, text: string)
    requires Ready(m) && |text| <= 32768
    ensures FeedClient(m, Segment(0, text)) == Run(ToClient(m, Payload(text)))
    ensures ToClient(m, Payload(text)).client == Holding(text)
  {
    assert Incoming(0, text) == Payload(text);
    TakeFresh(text);
    SmallSegmentFits(EMPTY, 0, text, BUFFER_SIZE);
  }

  /** A quit command with something behind it, if only a space, ends the reporting for good. */
  lemma QuitLineIsOver(m: Machine, words: seq<string>, inputs: seq<Input>)
    requires Ready(m) && words != [] && (forall w :: w in words ==> IsToken(w)) && |LineOf("quit", words)| <= 32768
    ensures var x := FeedClient(m, Segment(0, LineOf("quit", words)));
            x.state == Finished && x.events == m.events && ApplyAll(x, inputs).events == m.events
  {
    var text := LineOf("quit", words);
    SmallFits(m, text);
    ActedOnIffArguments(m, "quit", words);
    SettleQuiet(ToClient(m, Payload(text)));
    OverForGood(FeedClient(m, Segment(0, text)), inputs);
  }

  // ---------------------------------------------------------------- what is not understood

  predicate AsciiLetter(c: char) {
    'A' <= c <= 'Z' || 'a' <= c <= 'z'
  }

  /** The first word of a line with its delimiter; a carriage return before the delimiter is ignored. */
  function Opening(w: string, cr: bool, d: char): string {
    (if cr then w + "\r" else w) + [d]
  }

  lemma TrimOpening(w: string, cr: bool, d: char)
    requires d in {' ', '\n'} && (w == "" || w[|w| - 1] !in {' ', '\r', '\n'})
    ensures TrimRight(Opening(w, cr, d), {' ', '\r', '\n'}) == w
  {
    var cutset, text := {' ', '\r', '\n'}, if cr then w + "\r" else w;
    assert TrimRight(w, cutset) == w;
    assert (w + "\r")[..|w|] == w;
    assert TrimRight(text, cutset) == w;
    assert (text + [d])[..|text|] == text;
  }

  lemma OpeningRead(m: Machine, w: string, cr: bool, d: char)
    requires m.state == ReadCommand && m.client == Holding(Opening(w, cr, d)) && m.server == FRESH && d in {' ', '\n'}
    requires (forall c :: c in w ==> c !in {' ', '\n'}) && (w == "" || w[|w| - 1] != '\r')
    ensures var m' := m.(args := [], client := FRESH, cmd := w);
            Step(m) == if !IsWord(w) then (m', Fail)
                       else if KnownVerb(w) then (m'.(state := ReadArgs), Continue)
                       else (m'.(state := HandleUnknown), Continue)
  {
    var text := if cr then w + "\r" else w;
    assert Opening(w, cr, d) == text + ([d] + "");
    ReadDelimited(text, d, "", {' ', '\n'});
    TrimOpening(w, cr, d);
    CommandStates(w);
    FreshBlocks({' ', '\n'});
  }

  /** A word between blanks that is not empty but for carriage returns, and does not look like the binary protocol. */
  predicate IsOpening(w: string) {
    && (forall c :: c in w ==> c !in {' ', '\n'})
    && (w == "" || (w[|w| - 1] != '\r' && w[0] != '\U{80}'))
  }

  lemma TextPeeked(m: Machine, text: string)
    requires Ready(m) && text != "" && text[0] != '\U{80}'
    ensures Settle(ToClient(m, Payload(text))) == Settle(m.(state := ReadCommand, client := Holding(text)))
  {
    TakeFresh(text);
    var m0, m1 := ToClient(m, Payload(text)), m.(state := ReadCommand, client := Holding(text));
    assert m0.client == Holding(text) && Payload(text)[0] == Data(text[0]);
    if m.state == PeekMagicByte {
      assert Step(m0) == (m1, Continue);
    } else {
      assert m0 == m1;
    }
  }

  /** How a first word settles when nothing follows it. */
  lemma OpeningSettles(m: Machine, w: string, cr: bool, d: char)
    requires Ready(m) && d in {' ', '\n'} && IsOpening(w)
    ensures Settle(ToClient(m, Payload(Opening(w, cr, d))))
            == if !IsWord(w) then (m.(args := [], cmd := w, state := ReadCommand), Fail)
               else if KnownVerb(w) then (m.(args := [], cmd := w, state := ReadArgs), Wait)
               else (m.(args := [], cmd := w, state := DiscardResponse), Wait)
  {
    var text := Opening(w, cr, d);
    TextPeeked(m, text);
    var m1 := m.(state := ReadCommand, client := Holding(text));
    OpeningRead(m1, w, cr, d);
    if IsWord(w) {
      WordWaits(Step(m1).0);
    }
  }

  lemma WordWaits(m: Machine)
    requires m.client == FRESH && m.server == FRESH && m.state in {ReadArgs, HandleUnknown}
    ensures Settle(m) == (if m.state == ReadArgs then m else m.(state := DiscardResponse), Wait)
  {
    FreshBlocks({' ', '\n'});
    FreshBlocks({'\n'});
  }

  /** The parser gives up on a first word, and resynchronises, exactly if it is not made of letters. */
  lemma DesyncIffNotWord(m: Machine, w: string, cr: bool, d: char)
    requires Ready(m) && d in {' ', '\n'} && IsOpening(w)
    ensures Settle(ToClient(m, Payload(Opening(w, cr, d)))).1 == Fail
            <==> w == "" || exists i :: 0 <= i < |w| && !AsciiLetter(w[i])
  {
    OpeningSettles(m, w, cr, d);
    WordIffLetters(w);
  }

  lemma WordIffLetters(w: string)
    ensures IsWord(w) <==> w != "" && forall i :: 0 <= i < |w| ==> AsciiLetter(w[i])
  {
    assert forall i :: 0 <= i < |w| ==> w[i] in w;
    assert forall c :: c in w ==> exists i :: 0 <= i < |w| && w[i] == c;
  }

  /** A command without arguments that is none of the known ones is skipped together with its one-line response. */
  lemma UnknownSkipped(m: Machine, verb: string, response: string)
    requires Ready(m) && IsWord(verb) && verb !in {"get", "gets", "quit"}
    requires verb !in {"set", "add", "replace", "append", "prepend", "cas"} && IsLine(response)
    requires |verb| + 2 <= 32768 && |response| + 2 <= 32768
    ensures var x := FeedClient(m, Segment(0, verb + "\r\n"));
            var y := FeedServer(x, Segment(0, response + "\r\n"));
            x.state == DiscardResponse && x.events == m.events
            && Ready(y) && y.state == ReadCommand && y.events == m.events
  {
    var text, reply := verb + "\r\n", response + "\r\n";
    UnknownAwaits(m, verb, text);
    var x := FeedClient(m, Segment(0, text));
    assert Incoming(0, reply) == Payload(reply);
    SmallSegmentFits(EMPTY, 0, reply, BUFFER_SIZE);
    TakeFresh(reply);
    assert Receive(x.server, 0, reply) == Holding(reply);
    ResponseSkipped(x.(server := Holding(reply)), response);
  }

  lemma UnknownAwaits(m: Machine, verb: string, text: string)
    requires Ready(m) && IsWord(verb) && !KnownVerb(verb) && text == verb + "\r\n" && |text| <= 32768
    ensures FeedClient(m, Segment(0, text)) == m.(args := [], cmd := verb, state := DiscardResponse)
  {
    assert text == Opening(verb, true, '\n');
    assert IsLetter(verb[0]) && IsLetter(verb[|verb| - 1]);
    SmallFits(m, text);
    OpeningSettles(m, verb, true, '\n');
  }

  lemma ResponseSkipped(m: Machine, response: string)
    requires m.state == DiscardResponse && m.client == FRESH && IsLine(response)
    requires m.server == Holding(response + "\r\n")
    ensures Settle(m) == (m.(state := ReadCommand, server := FRESH, args := []), Wait)
  {
    assert response + "\r\n" == response + CRLF + "";
    CompleteLine(response, "");
    FreshBlocks({' ', '\n'});
    BackToCommand(m.(server := FRESH, state := ReadCommand));
  }
}
