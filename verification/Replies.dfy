/**
  The server side of an exchange: at every byte of a response the machine has reported the hits whose
  header line is complete, and keeps or owes exactly what is left of the current line or value.
 */
module Replies {
  import opened Streams
  import opened Text
  import opened TextMachine
  import opened Segmentation
  import opened Runs
  import opened Wire
  import opened Requests

  function ResidueSource(values: seq<Value>, last: string, p: string): Source {
    Live(Residue(values, last, p), false, false, false)
  }

  /** The machine once the reply line is complete. */
  function Answered(m: Machine): Machine {
    m.(state := ReadCommand, args := [], server := FRESH)
  }

  lemma PartialLine(p: string, line: string)
    requires p <= line + CRLF && |p| < |line| + 2 && IsLine(line)
    ensures ReadUntil(Holding(p), {'\n'}) == Blocked
  {
    assert forall i :: 0 <= i < |p| ==> p[i] == (line + CRLF)[i];
    ReadPartial(p, {'\n'});
  }

  lemma CompleteLine(line: string, rest: string)
    requires IsLine(line)
    ensures ReadUntil(Holding(line + CRLF + rest), {'\n'}) == Got(line + CRLF, Holding(rest))
  {
    assert line + CRLF + rest == (line + "\r") + (['\n'] + rest);
    ReadDelimited(line + "\r", '\n', rest, {'\n'});
    assert (line + "\r") + ['\n'] == line + CRLF;
  }

  /** Nothing of the client's is buffered; it may still owe bytes of a data block. */
  ghost predicate Quiet(src: Source) {
    src.Live? && src == Owing(src.stream.debt)
  }

  lemma BackToCommand(m: Machine)
    requires m.state == ReadCommand && Quiet(m.client) && m.server == FRESH
    ensures Settle(m) == (Answered(m), Wait)
  {
    OwingBlocks(m.client.stream.debt, {' ', '\n'});
  }

  /** The last line of a reply to a retrieval, or part of it. */
  lemma LastLine(m: Machine, last: string, p: string)
    requires m.state == HandleGet && |m.args| >= 1 && Quiet(m.client)
    requires IsLine(last) && EndsReply(last) && p <= last + CRLF && m.server == Holding(p)
    ensures Settle(m) == (if |p| < |last| + 2 then m else Answered(m), Wait)
  {
    if |p| < |last| + 2 {
      PartialLine(p, last);
    } else {
      assert p == last + CRLF + "";
      CompleteLine(last, "");
      FreshBlocks({'\n'});
      TrimEolLine(last);
      ReplyEnds(last);
      BackToCommand(m.(server := FRESH, state := ReadCommand));
    }
  }

  lemma SkipValue(rest: string, size: nat)
    ensures Skip(Holding(rest), size) == if |rest| < size then Owing(size - |rest|) else Holding(rest[size..])
  {
    if |rest| >= size {
      PayloadSlice(rest, size);
      assert |rest| == size ==> Payload(rest[size..]) == [];
    }
  }

  /** A complete header line is reported and the value after it is skipped. */
  lemma HeaderStep(m: Machine, v: Value, rest: string)
    requires m.state == HandleGet && |m.args| >= 1 && WellFormedValue(v)
    requires m.server == Holding(Header(v) + rest)
    ensures Step(m) == (AfterHeader(m, v, rest), Continue)
  {
    HeaderSkips(m, v, rest);
    AnyHeaderStep(m, v, rest);
  }

  lemma HeaderSkips(m: Machine, v: Value, rest: string)
    requires WellFormedValue(v)
    ensures Atoi(v.sizeText) == Number(|v.body|)
    ensures AfterHeader(m, v, rest) == m.(events := m.events + [Event(EventGetHit, v.key, |v.body|)],
                                          server := Skip(Holding(rest), |v.body| + 2))
  {
    SkipValue(rest, |v.body| + 2);
  }

  /**
    Whatever number the size field of a header holds, a hit of that size is reported and size + 2 positions
    are skipped, forwards or backwards; if it holds none, the response is given up and nothing is reported.
   */
  lemma AnyHeaderStep(m: Machine, v: Value, rest: string)
    requires m.state == HandleGet && |m.args| >= 1 && IsHeader(v) && m.server == Holding(Header(v) + rest)
    ensures Step(m) == match Atoi(v.sizeText)
                       case Number(n) =>
                         (m.(events := m.events + [Event(EventGetHit, v.key, n)], server := Skip(Holding(rest), n + 2)),
                          Continue)
                       case NotANumber => (m.(server := Holding(rest)), Fail)
  {
    HeaderIsLine(v);
    CompleteLine(HeaderLine(v), rest);
    TrimEolLine(HeaderLine(v));
    ParseAnyHeader(v);
  }

  lemma OwingWaits(m: Machine, n: int)
    requires m.state == HandleGet && |m.args| >= 1 && m.server == Owing(n)
    ensures Settle(m) == (m, Wait)
  {
  }

  /** The machine after the first bytes p of a reply. */
  function Walked(m: Machine, values: seq<Value>, last: string, p: string): Machine {
    var m' := m.(events := m.events + Completed(values, |p|), server := ResidueSource(values, last, p));
    if |p| < |Reply(values, last)| then m' else Answered(m')
  }

  function AfterHeader(m: Machine, v: Value, rest: string): Machine {
    m.(events := m.events + [HitEvent(v)],
       server := if |rest| < |v.body| + 2 then Owing(|v.body| + 2 - |rest|) else Holding(rest[|v.body| + 2..]))
  }

  lemma WalkedItem(m: Machine, values: seq<Value>, last: string, p: string)
    requires values != [] && p <= Reply(values, last) && |p| >= |Header(values[0])|
    ensures var v, rest := values[0], p[|Header(values[0])|..];
            Walked(m, values, last, p) ==
            if |rest| < |v.body| + 2 then AfterHeader(m, v, rest)
            else Walked(AfterHeader(m, v, rest), values[1..], last, rest[|v.body| + 2..])
  {
    var v, rest := values[0], p[|Header(values[0])|..];
    ReplyParts(values, last, p);
    CompletedItem(m.events, values, |p|);
    if |rest| >= |v.body| + 2 {
      WalkedOn(m, values, last, p, rest, rest[|v.body| + 2..]);
    }
  }

  lemma WalkedOn(m: Machine, values: seq<Value>, last: string, p: string, rest: string, next: string)
    requires values != [] && |p| >= |Header(values[0])| && rest == p[|Header(values[0])|..]
    requires |rest| >= |values[0].body| + 2 && next == rest[|values[0].body| + 2..]
    requires |Reply(values, last)| == ItemLength(values[0]) + |Reply(values[1..], last)|
    requires m.events + Completed(values, |p|)
             == m.events + [HitEvent(values[0])] + Completed(values[1..], |p| - ItemLength(values[0]))
    ensures Walked(m, values, last, p) == Walked(AfterHeader(m, values[0], rest), values[1..], last, next)
  {
    assert |next| == |p| - ItemLength(values[0]);
  }

  /** The run over the first bytes p of a reply: the hits so far are reported and the rest is kept or owed. */
  lemma {:induction false} GetWalk(m: Machine, values: seq<Value>, last: string, p: string)
    requires m.state == HandleGet && |m.args| >= 1 && Quiet(m.client) && m.server == Holding(p)
    requires AllWellFormed(values)
    requires IsLine(last) && EndsReply(last) && p <= Reply(values, last)
    ensures Settle(m) == (Walked(m, values, last, p), Wait)
    decreases |values|
  {
    if values == [] {
      LastLine(m, last, p);
      assert m.events + [] == m.events;
    } else if |p| < |Header(values[0])| {
      HeaderIsLine(values[0]);
      PartialHeader(values, last, p);
      PartialLine(p, HeaderLine(values[0]));
      assert m.events + [] == m.events;
    } else {
      GetWalkItem(m, values, last, p);
    }
  }

  lemma PartialHeader(values: seq<Value>, last: string, p: string)
    requires values != [] && p <= Reply(values, last) && |p| < |Header(values[0])|
    ensures p <= Header(values[0]) && |p| < |Reply(values, last)|
  {
    assert p == Reply(values, last)[..|p|] == Header(values[0])[..|p|];
  }

  /** Cuts the bytes of a reply after the first header and after the first value. */
  lemma ReplyParts(values: seq<Value>, last: string, p: string)
    requires values != [] && p <= Reply(values, last) && |p| >= |Header(values[0])|
    ensures var h, size := |Header(values[0])|, |values[0].body| + 2;
            && p == Header(values[0]) + p[h..]
            && |Reply(values, last)| == h + size + |Reply(values[1..], last)|
            && (|p[h..]| >= size ==> p[h..][size..] <= Reply(values[1..], last))
  {
    var h, size := |Header(values[0])|, |values[0].body| + 2;
    var whole := Reply(values, last);
    assert whole[..h] == Header(values[0]);
    assert whole[h + size..] == Reply(values[1..], last);
    assert p == whole[..|p|];
    if |p[h..]| >= size {
      assert p[h..][size..] == whole[h + size..|p|];
    }
  }

  lemma {:induction false} GetWalkItem(m: Machine, values: seq<Value>, last: string, p: string)
    requires m.state == HandleGet && |m.args| >= 1 && Quiet(m.client) && m.server == Holding(p)
    requires AllWellFormed(values)
    requires IsLine(last) && EndsReply(last) && p <= Reply(values, last)
    requires values != [] && |p| >= |Header(values[0])|
    ensures Settle(m) == (Walked(m, values, last, p), Wait)
    decreases |values|, 0
  {
    var v, rest := values[0], p[|Header(values[0])|..];
    var m1 := AfterHeader(m, v, rest);
    ReplyParts(values, last, p);
    assert Settle(m) == Settle(m1) by { HeaderStep(m, v, rest); }
    assert Settle(m1) == (Walked(m, values, last, p), Wait) by {
      WalkedItem(m, values, last, p);
      if |rest| < |v.body| + 2 {
        OwingWaits(m1, |v.body| + 2 - |rest|);
      } else {
        GetWalk(m1, values[1..], last, rest[|v.body| + 2..]);
      }
    }
  }

  lemma CompletedItem(events: seq<Event>, values: seq<Value>, n: nat)
    requires values != [] && n >= |Header(values[0])|
    ensures var v := values[0];
            events + Completed(values, n) ==
            if n < ItemLength(v) then events + [HitEvent(v)]
            else events + [HitEvent(v)] + Completed(values[1..], n - ItemLength(v))
  {
    var hit, more := [HitEvent(values[0])], Completed(values[1..], n - ItemLength(values[0]));
    assert Completed(values, n) == hit + more;
    assert events + (hit + more) == events + hit + more;
    assert n < ItemLength(values[0]) ==> events + hit + more == events + hit;
  }

  /** The run over the first bytes of the reply to a storage command. */
  lemma StoreWalk(m: Machine, last: string, p: string)
    requires m.state == DiscardResponse && Quiet(m.client) && m.server == Holding(p)
    requires IsLine(last) && p <= last + CRLF
    ensures Settle(m) == (if |p| < |last| + 2 then m else Answered(m), Wait)
  {
    if |p| < |last| + 2 {
      PartialLine(p, last);
    } else {
      assert p == last + CRLF + "";
      CompleteLine(last, "");
      FreshBlocks({'\n'});
      BackToCommand(m.(server := FRESH, state := ReadCommand));
    }
  }

  /** The run over the first n bytes of what the server sends. */
  function ServerAt(r: Machine, wire: string, n: nat): (Machine, Status)
    requires n <= |wire|
  {
    Settle(ToServer(r, Payload(wire[..n])))
  }

  /** The machine after n bytes of the response have been fed to it. */
  function AtServer(m: Machine, ex: Exchange, owed: nat, n: nat): Machine
    requires n <= |Response(ex)|
  {
    Walked(Requested(m, ex, owed), ValuesOf(ex), ex.last, Response(ex)[..n])
  }

  lemma StoreWalked(m: Machine, last: string, p: string)
    requires m.server == Holding(p) && |p| <= |last| + 2
    ensures Walked(m, [], last, p) == if |p| < |last| + 2 then m else Answered(m)
  {
    assert m.events + [] == m.events;
  }

  lemma ServerRun(m: Machine, ex: Exchange, owed: nat, n: nat)
    requires WellFormed(ex) && n <= |Response(ex)| && (ex.Retrieval? ==> owed == 0)
    ensures ServerAt(Requested(m, ex, owed), Response(ex), n) == (AtServer(m, ex, owed, n), Wait)
  {
    var r, p := Requested(m, ex, owed), Response(ex)[..n];
    TakeFresh(p);
    FreshBlocks({'\n'});
    var start := ToServer(r, Payload(p));
    assert start == r.(server := Holding(p));
    WalkedFrom(r, start, ValuesOf(ex), ex.last, p);
    if ex.Storage? {
      StoreWalk(start, ex.last, p);
      StoreWalked(start, ex.last, p);
    } else {
      GetWalk(start, ex.values, ex.last, p);
    }
  }

  lemma WalkedFrom(m: Machine, m': Machine, values: seq<Value>, last: string, p: string)
    requires m' == m.(server := m'.server)
    ensures Walked(m', values, last, p) == Walked(m, values, last, p)
  {
  }

  lemma {:induction false} ResidueOk(values: seq<Value>, last: string, p: string)
    ensures Residue(values, last, p).Valid()
    decreases |values|
  {
    if values != [] && |p| >= |Header(values[0])| {
      var rest, size := p[|Header(values[0])|..], |values[0].body| + 2;
      if |rest| >= size {
        ResidueOk(values[1..], last, rest[size..]);
      }
    }
  }

  /** Loss inside a value is covered by what is owed at that point. */
  lemma {:induction false} ResidueDebt(values: seq<Value>, last: string, p: string, skip: nat)
    requires InValue(values, |p|, skip)
    ensures skip <= Residue(values, last, p).debt || skip == 0
    decreases |values|
  {
    var h, size := |Header(values[0])|, |values[0].body| + 2;
    if |p| >= ItemLength(values[0]) {
      ResidueDebt(values[1..], last, p[h..][size..], skip);
    }
  }

  lemma {:induction false} InValueWithin(values: seq<Value>, last: string, n: int, skip: nat)
    requires InValue(values, n, skip)
    ensures n + skip < |Reply(values, last)|
    decreases |values|
  {
    if n >= ItemLength(values[0]) {
      InValueWithin(values[1..], last, n - ItemLength(values[0]), skip);
    }
  }

  /** Part of a response never makes the machine fail, and loss inside a value is covered by what is owed. */
  lemma ServerFacts(m: Machine, ex: Exchange, owed: nat, n: nat, seg: Segment, x: Machine)
    requires m.running && WellFormed(ex) && n <= |Response(ex)| && x == AtServer(m, ex, owed, n)
    requires Harmless(ex, Server, "", n, Lead(seg))
    requires Fits(Residue(ValuesOf(ex), ex.last, Response(ex)[..n]), seg.skip, seg.data, BUFFER_SIZE)
    ensures Ok(x) && Admits(x.server, seg)
  {
    AtServerOk(m, ex, owed, n);
    AtServerHolds(m, ex, owed, n);
    if Lead(seg) != 0 {
      ResidueDebt(ex.values, ex.last, Response(ex)[..n], Lead(seg));
    }
  }

  lemma AtServerOk(m: Machine, ex: Exchange, owed: nat, n: nat)
    requires m.running && WellFormed(ex) && n <= |Response(ex)|
    ensures Ok(AtServer(m, ex, owed, n))
  {
    ResidueOk(ValuesOf(ex), ex.last, Response(ex)[..n]);
    AtServerHolds(m, ex, owed, n);
  }

  /** At every position the server source is exactly what the wire leaves there. */
  lemma AtServerHolds(m: Machine, ex: Exchange, owed: nat, n: nat)
    requires n <= |Response(ex)|
    ensures AtServer(m, ex, owed, n).server == ResidueSource(ValuesOf(ex), ex.last, Response(ex)[..n])
  {
    if n == |Response(ex)| {
      assert Response(ex)[..n] == Response(ex);
      ResidueAtEnd(ValuesOf(ex), ex.last);
    }
  }

  lemma {:induction false} ResidueAtEnd(values: seq<Value>, last: string)
    ensures Residue(values, last, Reply(values, last)) == EMPTY
    decreases |values|
  {
    if values != [] {
      var h, size, rest := |Header(values[0])|, |values[0].body| + 2, Reply(values[1..], last);
      assert Reply(values, last)[h..] == values[0].body + CRLF + rest;
      assert (values[0].body + CRLF + rest)[size..] == rest;
      ResidueAtEnd(values[1..], last);
    }
  }

  lemma ToServerTwice(m: Machine, p: string, q: string)
    ensures ToServer(ToServer(m, Payload(p)), Payload(q)) == ToServer(m, Payload(p + q))
  {
    TakeSplit(m.server, 0, p, q);
    assert Incoming(0, p + q) == Payload(p + q) && Incoming(0, p) == Payload(p) && Incoming(0, q) == Payload(q);
  }

  /** Cutting what the server sends, whatever it is. */
  lemma ServerContinues(r: Machine, wire: string, pos: nat, end: nat, x: Machine)
    requires Ok(r) && ClientIdle(r) && r.server == FRESH && pos < end <= |wire|
    requires ServerAt(r, wire, pos) == (x, Wait)
    ensures Settle(ToServer(x, Payload(wire[pos..end]))) == ServerAt(r, wire, end)
  {
    TakeFresh(wire[..pos]);
    SettleToServer(ToServer(r, Payload(wire[..pos])), Payload(wire[pos..end]));
    Pieces(wire, pos, end);
    ToServerTwice(r, wire[..pos], wire[pos..end]);
  }

  lemma ServerFeed(x: Machine, seg: Segment, wire: string, pos: nat, end: nat, y: Machine)
    requires Ok(x) && Brings(seg, wire, pos, end) && Admits(x.server, seg)
    requires Settle(ToServer(x, Payload(wire[pos..end]))) == (y, Wait)
    ensures FeedServer(x, seg) == y
  {
    BringsWhole(x.server, seg, wire, pos, end);
    FeedIsRun(x, seg);
  }

  lemma ServerRuns(m: Machine, ex: Exchange, owed: nat, pos: nat, end: nat, wire: string, x: Machine, y: Machine)
    requires m.running && WellFormed(ex) && (ex.Retrieval? ==> owed == 0)
    requires wire == Response(ex) && pos < end <= |wire|
    requires x == AtServer(m, ex, owed, pos) && y == AtServer(m, ex, owed, end)
    ensures Settle(ToServer(x, Payload(wire[pos..end]))) == (y, Wait)
  {
    var r := Requested(m, ex, owed);
    assert ServerAt(r, wire, pos) == (x, Wait) by { ServerRun(m, ex, owed, pos); }
    assert ServerAt(r, wire, end) == (y, Wait) by { ServerRun(m, ex, owed, end); }
    ServerContinues(r, wire, pos, end, x);
  }

  /** One segment of the response, possibly with loss inside a value. */
  lemma ServerSegment(m: Machine, ex: Exchange, before: string, owed: nat, pos: nat, seg: Segment, end: nat)
    requires m.running && WellFormed(ex) && (ex.Retrieval? ==> owed == 0)
    requires DeliversOne(ex, Server, before, pos, seg) && end == pos + Length(seg)
    ensures end <= |Response(ex)| && FeedServer(AtServer(m, ex, owed, pos), seg) == AtServer(m, ex, owed, end)
  {
    ServerSegmentFed(m, ex, owed, pos, seg, end, AtServer(m, ex, owed, pos), AtServer(m, ex, owed, end));
  }

  lemma ServerSegmentFed(m: Machine, ex: Exchange, owed: nat, pos: nat, seg: Segment, end: nat, x: Machine, y: Machine)
    requires m.running && WellFormed(ex) && (ex.Retrieval? ==> owed == 0)
    requires Brings(seg, Response(ex), pos, end) && Harmless(ex, Server, "", pos, Lead(seg))
    requires Fits(Residue(ValuesOf(ex), ex.last, Response(ex)[..pos]), seg.skip, seg.data, BUFFER_SIZE)
    requires x == AtServer(m, ex, owed, pos) && y == AtServer(m, ex, owed, end)
    ensures FeedServer(x, seg) == y
  {
    var wire := Response(ex);
    ServerFacts(m, ex, owed, pos, seg, x);
    ServerRuns(m, ex, owed, pos, end, wire, x, y);
    ServerFeed(x, seg, wire, pos, end, y);
  }

  // ---------------------------------------------------------------- late parts of a data block

  /** While the rest of a data block arrives, the machine goes on waiting where it is. */
  lemma BlockArrives(m: Machine, ex: Exchange, owed: nat, s: nat, seg: Segment, x: Machine, y: Machine)
    requires m.running && WellFormed(ex) && (ex.Retrieval? ==> owed == 0) && s <= |Response(ex)|
    requires 0 < Length(seg) <= owed
    requires x == AtServer(m, ex, owed, s) && y == AtServer(m, ex, owed - Length(seg), s)
    ensures FeedClient(x, seg) == y
  {
    AtServerHolds(m, ex, owed, s);
    assert x.client == Owing(owed) && y == x.(client := Owing(owed - Length(seg)));
    assert y.client == Receive(x.client, seg.skip, seg.data);
    if s < |Response(ex)| {
      PartialLine(Response(ex)[..s], ex.last);
      assert Step(y) == (y, Wait);
    } else {
      OwingBlocks(owed - Length(seg), {' ', '\n'});
      assert Step(y) == (y, Wait);
    }
  }

  // ---------------------------------------------------------------- loss that is not harmless

  /** A line that has not ended before a gap is never completed. */
  lemma GapInLine(p: string, n: nat, more: seq<Cell>)
    requires '\n' !in p && n > 0
    ensures ReadUntil(Live(Stream(Payload(p) + (Gap(n) + more), 0), false, false, false), {'\n'}) == Failure
  {
    var cells := Payload(p) + (Gap(n) + more);
    assert cells[|p|] == Lost;
    assert forall i :: 0 <= i < |p| ==> cells[i] == Data(p[i]);
    PrefixUnique(cells, p);
    assert Find(p, {'\n'}) == |p| by {
      assert forall i :: 0 <= i < |p| ==> p[i] in p;
    }
  }

  /** Inside a value everything up to its end is owed; elsewhere a part of a line is kept and no loss is harmless. */
  lemma {:induction false} ResidueShape(values: seq<Value>, last: string, p: string, skip: nat) returns (q: string)
    requires AllWellFormed(values) && IsLine(last) && p <= Reply(values, last) && |p| < |Reply(values, last)|
    requires skip > 0
    ensures var r := Residue(values, last, p);
            if r.debt > 0 then r.cells == [] && (InValue(values, |p|, skip) <==> skip <= r.debt)
            else r == Stream(Payload(q), 0) && '\n' !in q && !InValue(values, |p|, skip)
    decreases |values|
  {
    q := p;
    if values == [] {
      PartOfLine(p, last);
    } else if |p| < |Header(values[0])| {
      PartialHeader(values, last, p);
      HeaderIsLine(values[0]);
      PartOfLine(p, HeaderLine(values[0]));
    } else {
      var rest, size := p[|Header(values[0])|..], |values[0].body| + 2;
      ReplyParts(values, last, p);
      if |rest| >= size {
        q := ResidueShape(values[1..], last, rest[size..], skip);
      }
    }
  }

  lemma PartOfLine(p: string, line: string)
    requires p <= line + CRLF && |p| < |line| + 2 && IsLine(line)
    ensures '\n' !in p
  {
    assert forall i :: 0 <= i < |p| ==> p[i] == (line + CRLF)[i];
  }

  /** What a harmful loss leaves in the server stream cannot be read. */
  lemma HarmfulBlocks(s: Stream, q: string, seg: Segment)
    requires Lead(seg) > 0
    requires if s.debt > 0 then s.cells == [] && s.debt < Lead(seg) else s == Stream(Payload(q), 0) && '\n' !in q
    ensures ReadUntil(Live(Write(s, seg.skip, seg.data), false, false, false), {'\n'}) == Failure
  {
    var gap, more := Lead(seg), Payload(seg.data);
    assert Incoming(seg.skip, seg.data) == Gap(gap) + more;
    if s.debt > 0 {
      assert Shift(Gap(gap) + more, s.debt) == Payload("") + (Gap(gap - s.debt) + more);
      GapInLine("", gap - s.debt, more);
      assert [] + Shift(Gap(gap) + more, s.debt) == Shift(Gap(gap) + more, s.debt);
    } else {
      assert Shift(Gap(gap) + more, 0) == Gap(gap) + more;
      GapInLine(q, gap, more);
    }
  }

  /** A loss that is not harmless makes the run fail, whatever comes after the gap. */
  lemma HarmfulLossFails(m: Machine, ex: Exchange, owed: nat, pos: nat, seg: Segment, x: Machine)
    requires WellFormed(ex) && pos < |Response(ex)| && x == AtServer(m, ex, owed, pos)
    requires Lead(seg) > 0 && !Harmless(ex, Server, "", pos, Lead(seg))
    requires Fits(Residue(ValuesOf(ex), ex.last, Response(ex)[..pos]), seg.skip, seg.data, BUFFER_SIZE)
    ensures var (y, status) := Settle(x.(server := Receive(x.server, seg.skip, seg.data)));
            status == Fail && y.events == x.events
  {
    var s := Residue(ValuesOf(ex), ex.last, Response(ex)[..pos]);
    var q := ResidueShape(ValuesOf(ex), ex.last, Response(ex)[..pos], Lead(seg));
    AtServerHolds(m, ex, owed, pos);
    HarmfulBlocks(s, q, seg);
    var x' := x.(server := Receive(x.server, seg.skip, seg.data));
    assert x'.server == Live(Write(s, seg.skip, seg.data), false, false, false);
    assert Step(x').1 == Fail && Step(x').0.events == x.events;
  }

  /** A segment of a response makes the machine resynchronise if and only if its loss is not harmless. */
  lemma FailsIffHarmful(m: Machine, ex: Exchange, owed: nat, pos: nat, seg: Segment, x: Machine)
    requires m.running && WellFormed(ex) && (ex.Retrieval? ==> owed == 0)
    requires pos < |Response(ex)| && x == AtServer(m, ex, owed, pos)
    requires Brings(seg, Response(ex), pos, pos + Length(seg))
    requires Fits(Residue(ValuesOf(ex), ex.last, Response(ex)[..pos]), seg.skip, seg.data, BUFFER_SIZE)
    ensures Settle(x.(server := Receive(x.server, seg.skip, seg.data))).1 == Fail
            <==> !Harmless(ex, Server, "", pos, Lead(seg))
  {
    var wire, end := Response(ex), pos + Length(seg);
    if Harmless(ex, Server, "", pos, Lead(seg)) {
      ServerFacts(m, ex, owed, pos, seg, x);
      ServerRuns(m, ex, owed, pos, end, wire, x, AtServer(m, ex, owed, end));
      BringsWhole(x.server, seg, wire, pos, end);
    } else {
      HarmfulLossFails(m, ex, owed, pos, seg, x);
    }
  }
}
