/**
  Well-formed exchanges of the memcached text protocol as bytes on the wire: retrieval commands with
  the values they return, and storage commands with their data block and reply. The formats are those
  of the sections "Retrieval command" and "Storage commands" of memcached's doc/protocol.txt.
 */
module Wire {
  import opened Streams
  import opened Text
  import opened TextMachine

  /** One returned item; `tail` is empty or a space and the cas unique value. */
  datatype Value = Value(key: string, flags: string, sizeText: string, tail: string, body: string)

  datatype Exchange =
    | Retrieval(verb: string, words: seq<string>, values: seq<Value>, last: string)
    | Storage(verb: string, words: seq<string>, body: string, last: string)

  predicate IsToken(text: string) {
    forall c :: c in text ==> c !in {' ', '\r', '\n'}
  }

  predicate IsLine(text: string) {
    '\n' !in text
  }

  /** A header line, whatever it says about the size. */
  predicate IsHeader(v: Value) {
    && IsToken(v.key) && IsToken(v.flags) && IsToken(v.sizeText) && IsLine(v.tail)
    && (v.tail == "" || v.tail[0] == ' ')
  }

  predicate WellFormedValue(v: Value) {
    && IsHeader(v)
    && Atoi(v.sizeText) == Number(|v.body|)
  }

  predicate AllWellFormed(values: seq<Value>) {
    values == [] || (WellFormedValue(values[0]) && AllWellFormed(values[1..]))
  }

  predicate RetrievalVerb(verb: string) {
    verb in {"get", "gets"}
  }

  predicate StorageVerb(verb: string) {
    verb in {"set", "add", "replace", "append", "prepend", "cas"}
  }

  /** The commands of the protocol that the parser acts on. */
  predicate KnownVerb(verb: string) {
    RetrievalVerb(verb) || StorageVerb(verb) || verb == "quit"
  }

  /** A line that does not announce a value: not VALUE and three more fields. */
  predicate EndsReply(line: string) {
    !("VALUE " <= line && Spaces(line) >= 3)
  }

  predicate WellFormed(ex: Exchange) {
    && (forall w :: w in ex.words ==> IsToken(w))
    && IsLine(ex.last)
    && match ex
       case Retrieval(verb, words, values, last) =>
         && RetrievalVerb(verb) && |words| >= 1
         && AllWellFormed(values)
         && EndsReply(last)
       case Storage(verb, words, body, last) =>
         && StorageVerb(verb) && |words| >= 4
         && Atoi(words[3]) == Number(|body|)
  }

  function HeaderLine(v: Value): string {
    "VALUE" + (" " + (v.key + (" " + (v.flags + (" " + (v.sizeText + v.tail))))))
  }

  function Header(v: Value): string { HeaderLine(v) + CRLF }

  function ItemLength(v: Value): nat { |Header(v)| + |v.body| + 2 }

  function Reply(values: seq<Value>, last: string): string {
    if values == [] then last + CRLF
    else Header(values[0]) + (values[0].body + CRLF + Reply(values[1..], last))
  }

  function Words(words: seq<string>): string
    requires words != []
  {
    if |words| == 1 then words[0] + CRLF else words[0] + (" " + Words(words[1..]))
  }

  function CommandLine(ex: Exchange): string
    requires ex.words != []
  {
    ex.verb + (" " + Words(ex.words))
  }

  function Request(ex: Exchange): string
    requires ex.words != []
  {
    if ex.Storage? then CommandLine(ex) + (ex.body + CRLF) else CommandLine(ex)
  }

  function Response(ex: Exchange): string {
    Reply(if ex.Storage? then [] else ex.values, ex.last)
  }

  function HitEvent(v: Value): Event { Event(EventGetHit, v.key, |v.body|) }

  /** The hits whose header line lies within the first n bytes of the response. */
  function Completed(values: seq<Value>, n: int): seq<Event> {
    if values == [] || n < |Header(values[0])| then []
    else [HitEvent(values[0])] + Completed(values[1..], n - ItemLength(values[0]))
  }

  function Hits(values: seq<Value>): seq<Event> {
    seq(|values|, i requires 0 <= i < |values| => HitEvent(values[i]))
  }

  function ReportedAfter(ex: Exchange, n: int): seq<Event> {
    if ex.Storage? then [] else Completed(ex.values, n)
  }

  function AllHits(ex: Exchange): seq<Event> {
    if ex.Storage? then [] else Hits(ex.values)
  }

  // ---------------------------------------------------------------- segments of an exchange

  datatype Side = Client | Server

  /**
    What one side sends in an exchange. On the client side it starts with the bytes the parser is still
    owed from the data block before, if any.
   */
  function WireOf(ex: Exchange, side: Side, owed: string): string
    requires ex.words != []
  {
    if side == Client then owed + Request(ex) else Response(ex)
  }

  /** Whether `skip` bytes lost at position `pos` of a response all belong to one value and its terminator. */
  predicate InValue(values: seq<Value>, pos: int, skip: nat) {
    values != [] &&
    if pos < ItemLength(values[0]) then |Header(values[0])| <= pos && pos + skip <= ItemLength(values[0])
    else InValue(values[1..], pos - ItemLength(values[0]), skip)
  }

  /**
    Loss that the parser need not notice: inside a value or a data block, after the line announcing it.
    The loss of the end of a data block may only be known when the next request arrives.
   */
  predicate Harmless(ex: Exchange, side: Side, owed: string, pos: nat, skip: nat)
    requires ex.words != []
  {
    || skip == 0
    || (side == Client && pos + skip <= |owed|)
    || (side == Client && ex.Storage? && CommandEnd(ex, owed) <= pos && pos + skip <= |owed| + |Request(ex)|)
    || (side == Server && ex.Retrieval? && InValue(ex.values, pos, skip))
  }

  /** Where the command line ends on the client side. */
  function CommandEnd(ex: Exchange, owed: string): nat
    requires ex.words != []
  {
    |owed| + |CommandLine(ex)|
  }

  function Lead(seg: Segment): nat { if seg.skip < 0 then 0 else seg.skip }

  function Length(seg: Segment): nat { Lead(seg) + |seg.data| }

  // ---------------------------------------------------------------- what is buffered, by position

  function ValuesOf(ex: Exchange): seq<Value> {
    if ex.Storage? then [] else ex.values
  }

  /** What is left in the server stream after the first bytes p of a reply. */
  function Residue(values: seq<Value>, last: string, p: string): Stream {
    if values == [] then
      if |p| < |last| + 2 then Stream(Payload(p), 0) else EMPTY
    else if |p| < |Header(values[0])| then Stream(Payload(p), 0)
    else
      var rest, size := p[|Header(values[0])|..], |values[0].body| + 2;
      if |rest| < size then Stream([], size - |rest|) else Residue(values[1..], last, rest[size..])
  }

  /** The word that is not complete yet after the first bytes p of a command line. */
  function CurrentWord(p: string): string
    decreases |p|
  {
    var pos := Find(p, {' '});
    if pos == |p| then p else CurrentWord(p[pos + 1..])
  }

  /** What is left in the client stream after that many bytes: a part of a word, or what is still owed. */
  function ClientResidue(ex: Exchange, owed: string, pos: nat): Stream
    requires ex.words != [] && pos <= |owed| + |Request(ex)|
  {
    if pos < |owed| then Stream([], |owed| - pos)
    else if pos < CommandEnd(ex, owed) then Stream(Payload(CurrentWord(CommandLine(ex)[..pos - |owed|])), 0)
    else Stream([], |owed| + |Request(ex)| - pos)
  }

  function ResidueOf(ex: Exchange, side: Side, owed: string, pos: nat): Stream
    requires ex.words != [] && pos <= |WireOf(ex, side, owed)|
  {
    if side == Client then ClientResidue(ex, owed, pos)
    else Residue(ValuesOf(ex), ex.last, Response(ex)[..pos])
  }

  // ---------------------------------------------------------------- delivery

  /** The segment brings the bytes of `wire` between two positions, except for what is lost of them. */
  predicate Brings(seg: Segment, wire: string, pos: nat, end: nat) {
    && pos < end <= |wire| && pos + Length(seg) == end
    && seg.data == wire[pos + Lead(seg)..end]
  }

  /**
    The segment delivers the bytes of one side from position `pos` on, with harmless loss only; it is
    not empty and fits the buffer together with what is left there.
   */
  predicate DeliversOne(ex: Exchange, side: Side, owed: string, pos: nat, seg: Segment)
    requires ex.words != []
  {
    && Brings(seg, WireOf(ex, side, owed), pos, pos + Length(seg))
    && Harmless(ex, side, owed, pos, Lead(seg))
    && Fits(ResidueOf(ex, side, owed, pos), seg.skip, seg.data, BUFFER_SIZE)
  }

  /** A segment of one side, in the order in which the segments of both sides arrive. */
  datatype Arrival = Arrival(side: Side, seg: Segment)

  function Moved(side: Side, pos: nat, a: Arrival): nat {
    if a.side == side then pos + Length(a.seg) else pos
  }

  /** The position that one side has reached once all of these have arrived. */
  function EndOf(side: Side, pos: nat, arrivals: seq<Arrival>): nat
    decreases arrivals
  {
    if arrivals == [] then pos else EndOf(side, Moved(side, pos, arrivals[0]), arrivals[1..])
  }

  /** The server does not answer before the command line is complete. */
  predicate Next(ex: Exchange, owed: string, c: nat, s: nat, a: Arrival)
    requires ex.words != []
  {
    && (a.side == Server ==> CommandEnd(ex, owed) <= c)
    && DeliversOne(ex, a.side, owed, if a.side == Client then c else s, a.seg)
  }

  /** Both sides are cut anywhere and interleaved in any other way. */
  predicate Arrives(ex: Exchange, owed: string, c: nat, s: nat, arrivals: seq<Arrival>)
    requires ex.words != []
    decreases arrivals
  {
    arrivals == [] ||
    (Next(ex, owed, c, s, arrivals[0])
     && Arrives(ex, owed, Moved(Client, c, arrivals[0]), Moved(Server, s, arrivals[0]), arrivals[1..]))
  }

  /** Positions of both sides that can be reached. */
  predicate Within(ex: Exchange, owed: string, c: nat, s: nat)
    requires ex.words != []
  {
    c <= |owed| + |Request(ex)| && s <= |Response(ex)| && (s > 0 ==> CommandEnd(ex, owed) <= c)
  }

  lemma DeliveredWithin(ex: Exchange, side: Side, owed: string, pos: nat, seg: Segment)
    requires ex.words != [] && DeliversOne(ex, side, owed, pos, seg)
    ensures pos + Length(seg) <= |WireOf(ex, side, owed)|
  {
  }

  lemma NextWithin(ex: Exchange, owed: string, c: nat, s: nat, a: Arrival)
    requires ex.words != [] && Within(ex, owed, c, s) && Next(ex, owed, c, s, a)
    ensures Within(ex, owed, Moved(Client, c, a), Moved(Server, s, a))
  {
    DeliveredWithin(ex, a.side, owed, if a.side == Client then c else s, a.seg);
  }

  /** Never more arrives than is sent. */
  lemma {:induction false} EndsWithin(ex: Exchange, owed: string, c: nat, s: nat, arrivals: seq<Arrival>)
    requires ex.words != [] && Within(ex, owed, c, s) && Arrives(ex, owed, c, s, arrivals)
    ensures Within(ex, owed, EndOf(Client, c, arrivals), EndOf(Server, s, arrivals))
    decreases arrivals
  {
    if arrivals != [] {
      NextWithin(ex, owed, c, s, arrivals[0]);
      EndsWithin(ex, owed, Moved(Client, c, arrivals[0]), Moved(Server, s, arrivals[0]), arrivals[1..]);
    }
  }

  // ---------------------------------------------------------------- parsing what was printed

  lemma SplitField(a: string, rest: string)
    requires ' ' !in a
    ensures Split(a) == [a]
    ensures Split(a + (" " + rest)) == [a] + Split(rest)
  {
    var line := a + (" " + rest);
    assert line[|a|] == ' ';
    FindUnique(line, {' '}, |a|);
    assert line[..|a|] == a && line[|a| + 1..] == rest;
    assert Find(a, {' '}) == |a|;
  }

  lemma SizeField(v: Value)
    requires IsHeader(v)
    ensures Split(v.sizeText + v.tail)[0] == v.sizeText
  {
    if v.tail == "" {
      assert v.sizeText + v.tail == v.sizeText;
      SplitField(v.sizeText, "");
    } else {
      assert v.tail == " " + v.tail[1..];
      SplitField(v.sizeText, v.tail[1..]);
    }
  }

  /** A header line announces its key and whatever number its size field holds; other sizes are errors. */
  lemma ParseAnyHeader(v: Value)
    requires IsHeader(v)
    ensures ParseReply(HeaderLine(v)) == match Atoi(v.sizeText)
                                         case Number(n) => ValueHeader(v.key, n)
                                         case NotANumber => BadSize
  {
    SizeField(v);
    assert ' ' !in "VALUE" && ' ' !in v.key && ' ' !in v.flags;
    ThreeFields("VALUE", v.key, v.flags, v.sizeText + v.tail);
  }

  /** The header line of a value announces exactly its key and the length of its body. */
  lemma ParseHeader(v: Value)
    requires WellFormedValue(v)
    ensures ParseReply(HeaderLine(v)) == ValueHeader(v.key, |v.body|)
  {
    ParseAnyHeader(v);
  }

  lemma ThreeFields(a: string, b: string, c: string, rest: string)
    requires ' ' !in a && ' ' !in b && ' ' !in c
    ensures var fields := Split(a + (" " + (b + (" " + (c + (" " + rest))))));
            && |fields| == 3 + |Split(rest)|
            && fields[0] == a && fields[1] == b && fields[2] == c && fields[3] == Split(rest)[0]
  {
    var line2 := c + (" " + rest);
    var line1 := b + (" " + line2);
    SplitField(c, rest);
    SplitField(b, line2);
    SplitField(a, line1);
    var f2, f1 := Split(line2), Split(line1);
    assert f2[0] == c && f2[1] == Split(rest)[0];
    assert f1[0] == b && f1[1] == f2[0] && f1[2] == f2[1];
  }

  lemma {:induction false} DigitsAreToken(digits: string)
    requires AllDigits(digits)
    ensures IsToken(digits)
  {
    if digits != "" {
      DigitsAreToken(digits[1..]);
      assert digits == [digits[0]] + digits[1..];
    }
  }

  /** A value whose size a server prints in decimal is well formed, whatever bytes it consists of. */
  lemma PrintedValue(key: string, flags: string, body: string)
    requires IsToken(key) && IsToken(flags) && |body| <= MAX_INT
    ensures WellFormedValue(Value(key, flags, Itoa(|body|), "", body))
  {
    AtoiItoa(|body|);
    ItoaDigits(|body|);
    DigitsAreToken(Itoa(|body|));
  }

  /** So is a storage command whose size a client prints in decimal. */
  lemma PrintedStorage(verb: string, key: string, flags: string, expiry: string, body: string, last: string)
    requires StorageVerb(verb) && IsLine(last) && |body| <= MAX_INT
    requires IsToken(key) && IsToken(flags) && IsToken(expiry)
    ensures WellFormed(Storage(verb, [key, flags, expiry, Itoa(|body|)], body, last))
  {
    var size := Itoa(|body|);
    assert Atoi(size) == Number(|body|) && IsToken(size) by {
      AtoiItoa(|body|);
      ItoaDigits(|body|);
      DigitsAreToken(size);
    }
    FourTokens(key, flags, expiry, size);
    assert [key, flags, expiry, size][3] == size;
  }

  lemma FourTokens(a: string, b: string, c: string, d: string)
    requires IsToken(a) && IsToken(b) && IsToken(c) && IsToken(d)
    ensures forall w :: w in [a, b, c, d] ==> IsToken(w)
  {
  }

  lemma HeaderIsLine(v: Value)
    requires IsHeader(v)
    ensures IsLine(HeaderLine(v))
  {
    assert IsLine(v.key) && IsLine(v.flags) && IsLine(v.sizeText);
    assert '\n' !in "VALUE" && '\n' !in " ";
  }

  lemma TrimEolLine(line: string)
    ensures TrimEol(line + CRLF) == line
  {
    TrimEolExactly(line);
  }

  /** Each command leads to its own state, and any other word to none of them. */
  lemma CommandStates(verb: string)
    ensures CommandState(verb) == if RetrievalVerb(verb) then HandleGet
                                  else if StorageVerb(verb) then HandleSet
                                  else if verb == "quit" then HandleQuit
                                  else HandleUnknown
  {
  }

  lemma CommandOf(ex: Exchange)
    requires WellFormed(ex)
    ensures CommandState(ex.verb) == (if ex.Storage? then HandleSet else HandleGet) && KnownVerb(ex.verb)
  {
    CommandStates(ex.verb);
  }

  /** Every recognised command is a word. */
  lemma CommandIsWord(verb: string)
    requires CommandState(verb) != HandleUnknown
    ensures IsWord(verb)
  {
  }

  /** The lines that end a reply are exactly those that do not announce a value. */
  lemma ReplyEnds(line: string)
    ensures ParseReply(line) == OtherLine <==> EndsReply(line)
  {
    SplitExactly(line);
    var pos := Find(line, {' '});
    if "VALUE " <= line {
      assert line[5] == ' ';
      FindUnique(line, {' '}, 5);
      assert line[..5] == "VALUE";
    }
    assert pos < |line| && line[..pos] == "VALUE" ==> line[..6] == "VALUE" + " ";
  }
}
