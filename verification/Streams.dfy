/**
  One direction of a TCP conversation as memsniff sees it: a sequence of cells, each a byte that
  arrived or a position whose byte was lost, together with a discard debt, the number of positions
  that must still be skipped when more of the stream arrives.

  This is the specification that the block-based buffer refines. Bytes are written as the
  characters with the same codes, so every law here holds for a superset of the byte strings.
 */
module Streams {
  datatype Cell = Lost | Data(b: char)

  /** `debt` is negative only after a negative Discard, which makes room for positions never sent. */
  datatype Stream = Stream(cells: seq<Cell>, debt: int) {
    ghost predicate Valid() {
      cells != [] ==> debt == 0
    }
  }

  const EMPTY := Stream([], 0)

  function Gap(n: nat): (cells: seq<Cell>)
    ensures |cells| == n && forall i :: 0 <= i < n ==> cells[i] == Lost
  {
    seq(n, _ => Lost)
  }

  function Payload(data: string): (cells: seq<Cell>)
    ensures |cells| == |data| && forall i :: 0 <= i < |data| ==> cells[i] == Data(data[i])
  {
    seq(|data|, i requires 0 <= i < |data| => Data(data[i]))
  }

  /** The positions covered by one reassembled segment; a negative skip marks a stream picked up midway. */
  function Incoming(skip: int, data: string): (cells: seq<Cell>)
    ensures |cells| == (if skip < 0 then 0 else skip) + |data|
  {
    Gap(if skip < 0 then 0 else skip) + Payload(data)
  }

  /** Moves the start of the cells n positions forward; backwards means positions that were never sent. */
  function Shift(cells: seq<Cell>, n: int): (r: seq<Cell>)
    requires n <= |cells|
    ensures |r| == |cells| - n
  {
    if n > 0 then cells[n..] else if n == 0 then cells else Gap(-n) + cells
  }

  /** More cells arrive: the first `debt` of them are skipped, the others are queued. */
  function Push(s: Stream, incoming: seq<Cell>): (r: Stream)
    ensures s.Valid() ==> r.Valid()
  {
    if s.debt >= |incoming| then Stream(s.cells, s.debt - |incoming|)
    else Stream(s.cells + Shift(incoming, s.debt), 0)
  }

  /** A segment arrives. */
  function Write(s: Stream, skip: int, data: string): (r: Stream)
    ensures s.Valid() ==> r.Valid()
  {
    Push(s, Incoming(skip, data))
  }

  /** Skips n positions, buffered or still to come. */
  function Discard(s: Stream, n: int): (r: Stream)
    ensures s.Valid() ==> r.Valid()
  {
    if s.cells != [] && n < |s.cells| then Stream(Shift(s.cells, n), s.debt)
    else Stream([], s.debt + n - |s.cells|)
  }

  /** The number of bytes, as opposed to lost positions, among the cells. */
  function NumData(cells: seq<Cell>): (n: nat)
    ensures n <= |cells|
  {
    if cells == [] then 0 else (if cells[0].Data? then 1 else 0) + NumData(cells[1..])
  }

  /** Whether a segment can be taken by a buffer that holds at most `cap` bytes. */
  predicate Fits(s: Stream, skip: int, data: string, cap: nat) {
    var incoming := Incoming(skip, data);
    s.debt >= |incoming| || NumData(s.cells) + NumData(Shift(incoming, s.debt)) <= cap
  }

  /** The bytes that can be read before the first lost position. */
  function Prefix(cells: seq<Cell>): (p: string)
    ensures |p| <= |cells|
    ensures forall i :: 0 <= i < |p| ==> cells[i] == Data(p[i])
    ensures |p| < |cells| ==> cells[|p|].Lost?
  {
    if cells == [] || cells[0].Lost? then "" else [cells[0].b] + Prefix(cells[1..])
  }

  /** The position of the first byte of `text` that is one of `chars`, or |text| if there is none. */
  function Find(text: string, chars: set<char>): (pos: nat)
    ensures pos <= |text|
    ensures pos < |text| ==> text[pos] in chars
    ensures forall i :: 0 <= i < pos ==> text[i] !in chars
  {
    if text == "" || text[0] in chars then 0 else 1 + Find(text[1..], chars)
  }

  /** The outcome of reading up to and including a delimiter. */
  datatype Chunk = Chunk(bytes: string, rest: Stream) | Short | Broken

  function ReadThrough(s: Stream, chars: set<char>): (r: Chunk)
    ensures r.Chunk? ==> s.cells != [] && !s.cells[0].Lost? && 0 < |r.bytes| <= |s.cells|
    ensures r.Chunk? && s.Valid() ==> r.rest.Valid() && r.rest.debt == 0
  {
    var avail := Prefix(s.cells);
    var pos := Find(avail, chars);
    if pos < |avail| then Chunk(avail[..pos + 1], Discard(s, pos + 1))
    else if |avail| < |s.cells| then Broken
    else Short
  }

  // ---------------------------------------------------------------- basic facts

  lemma PayloadConcat(a: string, b: string)
    ensures Payload(a + b) == Payload(a) + Payload(b)
  {
  }

  lemma PayloadSlice(a: string, n: nat)
    requires n <= |a|
    ensures Payload(a)[n..] == Payload(a[n..]) && Payload(a)[..n] == Payload(a[..n])
  {
  }

  lemma {:induction false} NumDataConcat(a: seq<Cell>, b: seq<Cell>)
    ensures NumData(a + b) == NumData(a) + NumData(b)
  {
    if a == [] {
      assert a + b == b;
    } else {
      assert (a + b)[1..] == a[1..] + b;
      NumDataConcat(a[1..], b);
    }
  }

  lemma {:induction false} NumDataPayload(data: string)
    ensures NumData(Payload(data)) == |data|
  {
    if data != "" {
      PayloadSlice(data, 1);
      NumDataPayload(data[1..]);
    }
  }

  lemma {:induction false} NumDataGap(n: nat)
    ensures NumData(Gap(n)) == 0
  {
    if n > 0 {
      assert Gap(n)[1..] == Gap(n - 1);
      NumDataGap(n - 1);
    }
  }

  lemma SplitAround(cells: seq<Cell>, n: nat)
    requires 0 < n <= |cells|
    ensures cells == cells[..n] + cells[n..]
  {
  }

  lemma NumDataSuffix(cells: seq<Cell>, n: int)
    requires n <= |cells|
    ensures NumData(Shift(cells, n)) <= NumData(cells)
  {
    if n > 0 {
      SplitAround(cells, n);
      NumDataConcat(cells[..n], cells[n..]);
    } else if n < 0 {
      NumDataConcat(Gap(-n), cells);
      NumDataGap(-n);
    }
  }

  /** The readable prefix is determined by its defining property. */
  lemma {:induction false} PrefixUnique(cells: seq<Cell>, p: string)
    requires |p| <= |cells|
    requires forall i :: 0 <= i < |p| ==> cells[i] == Data(p[i])
    requires |p| < |cells| ==> cells[|p|].Lost?
    ensures Prefix(cells) == p
  {
    if p != "" {
      assert forall i :: 0 <= i < |p| - 1 ==> cells[1..][i] == cells[i + 1] == Data(p[i + 1]);
      PrefixUnique(cells[1..], p[1..]);
    }
  }

  lemma PrefixPayload(data: string)
    ensures Prefix(Payload(data)) == data
  {
    PrefixUnique(Payload(data), data);
  }

  lemma {:induction false} PrefixExtends(a: seq<Cell>, b: seq<Cell>)
    ensures Prefix(a) <= Prefix(a + b)
    ensures |Prefix(a)| < |a| ==> Prefix(a + b) == Prefix(a)
  {
    if a != [] {
      assert (a + b)[1..] == a[1..] + b;
      PrefixExtends(a[1..], b);
    }
  }

  lemma FindUnique(text: string, chars: set<char>, pos: nat)
    requires pos < |text| && text[pos] in chars
    requires forall i :: 0 <= i < pos ==> text[i] !in chars
    ensures Find(text, chars) == pos
  {
  }

  // ---------------------------------------------------------------- laws of the stream

  lemma ShiftAt(cells: seq<Cell>, n: int)
    requires n <= |cells|
    ensures forall i :: 0 <= i < |cells| - n ==> Shift(cells, n)[i] == if i + n < 0 then Lost else cells[i + n]
  {
  }

  lemma ShiftShift(cells: seq<Cell>, a: int, b: int)
    requires a <= |cells| && a + b <= |cells| && (b >= 0 || a <= 0)
    ensures Shift(Shift(cells, a), b) == Shift(cells, a + b)
  {
    ShiftAt(cells, a);
    ShiftAt(Shift(cells, a), b);
    ShiftAt(cells, a + b);
  }

  lemma ShiftConcat(a: seq<Cell>, b: seq<Cell>, n: int)
    requires n <= |a|
    ensures Shift(a + b, n) == Shift(a, n) + b
  {
    ShiftAt(a + b, n);
    ShiftAt(a, n);
  }

  lemma ShiftPast(a: seq<Cell>, b: seq<Cell>, n: int)
    requires n <= |b| && (n >= 0 || a == [])
    ensures Shift(a + b, |a| + n) == Shift(b, n)
  {
    ShiftAt(a + b, |a| + n);
    ShiftAt(b, n);
  }

  lemma PushBuffered(cells: seq<Cell>, incoming: seq<Cell>)
    requires cells != []
    ensures Push(Stream(cells, 0), incoming) == Stream(cells + incoming, 0)
  {
    assert Shift(incoming, 0) == incoming && (incoming == [] ==> cells + incoming == cells);
  }

  /** Cells may arrive in two steps. */
  lemma PushSplit(s: Stream, a: seq<Cell>, b: seq<Cell>)
    ensures Push(s, a + b) == Push(Push(s, a), b)
  {
    if s.debt >= |a| {
      if s.debt < |a| + |b| {
        ShiftPast(a, b, s.debt - |a|);
      }
    } else {
      ShiftConcat(a, b, s.debt);
      Append(s.cells, Shift(a, s.debt), b);
      PushBuffered(s.cells + Shift(a, s.debt), b);
    }
  }

  lemma Append(a: seq<Cell>, b: seq<Cell>, c: seq<Cell>)
    ensures a + (b + c) == (a + b) + c
  {
  }

  /** A segment may be cut anywhere: the two halves written in turn leave the same stream. */
  lemma WriteSplit(s: Stream, skip: int, a: string, b: string)
    ensures Write(s, skip, a + b) == Write(Write(s, skip, a), 0, b)
  {
    assert Incoming(skip, a + b) == Incoming(skip, a) + Incoming(0, b) by { PayloadConcat(a, b); }
    PushSplit(s, Incoming(skip, a), Incoming(0, b));
  }

  /** Skipping positions before or after more of the stream arrives is the same. */
  lemma DiscardPushCommute(s: Stream, n: int, incoming: seq<Cell>)
    requires s.Valid()
    requires n >= 0 || (s.debt <= 0 && (s.cells != [] || incoming != []))
    ensures Discard(Push(s, incoming), n) == Push(Discard(s, n), incoming)
  {
    if s.cells == [] {
      CommuteEmpty(s.debt, n, incoming);
    } else {
      CommuteBuffered(s.cells, n, incoming);
    }
  }

  lemma DiscardWriteCommute(s: Stream, n: int, skip: int, data: string)
    requires s.Valid()
    requires n >= 0 || (s.debt <= 0 && (s.cells != [] || Incoming(skip, data) != []))
    ensures Discard(Write(s, skip, data), n) == Write(Discard(s, n), skip, data)
  {
    DiscardPushCommute(s, n, Incoming(skip, data));
  }

  lemma CommuteEmpty(debt: int, n: int, incoming: seq<Cell>)
    requires n >= 0 || (debt <= 0 && incoming != [])
    ensures Discard(Push(Stream([], debt), incoming), n) == Push(Stream([], debt + n), incoming)
  {
    PushEmpty(debt, incoming);
    PushEmpty(debt + n, incoming);
    if debt < |incoming| && debt + n < |incoming| {
      ShiftShift(incoming, debt, n);
    }
  }

  lemma PushEmpty(debt: int, incoming: seq<Cell>)
    ensures Push(Stream([], debt), incoming) ==
            if debt >= |incoming| then Stream([], debt - |incoming|) else Stream(Shift(incoming, debt), 0)
  {
    if debt < |incoming| {
      assert [] + Shift(incoming, debt) == Shift(incoming, debt);
    }
  }

  lemma CommuteBuffered(cells: seq<Cell>, n: int, incoming: seq<Cell>)
    requires cells != []
    ensures Discard(Push(Stream(cells, 0), incoming), n) == Push(Discard(Stream(cells, 0), n), incoming)
  {
    PushBuffered(cells, incoming);
    if n < |cells| {
      PushBuffered(Shift(cells, n), incoming);
      ShiftConcat(cells, incoming, n);
    } else if n < |cells| + |incoming| {
      ShiftPast(cells, incoming, n - |cells|);
      PushEmpty(n - |cells|, incoming);
    }
  }

  /** Discarding first never makes a segment too large: if it fits before, it fits after. */
  lemma DiscardKeepsFit(s: Stream, n: nat, skip: int, data: string, cap: nat)
    requires s.Valid() && Fits(s, skip, data, cap)
    ensures Fits(Discard(s, n), skip, data, cap)
  {
    if n < |s.cells| {
      NumDataSuffix(s.cells, n);
    } else {
      MoreDebtFits(s, Discard(s, n), skip, data, cap);
    }
  }

  lemma MoreDebtFits(s: Stream, t: Stream, skip: int, data: string, cap: nat)
    requires Fits(s, skip, data, cap) && t.cells == [] && t.debt >= s.debt
    ensures Fits(t, skip, data, cap)
  {
    var inc := Incoming(skip, data);
    if t.debt < |inc| {
      ShiftShift(inc, s.debt, t.debt - s.debt);
      NumDataSuffix(Shift(inc, s.debt), t.debt - s.debt);
    }
  }

  /** Loss that falls inside the debt leaves no trace: any bytes in its place give the same stream. */
  lemma LossInsideDebt(s: Stream, skip: nat, data: string, filler: string)
    requires skip <= s.debt && |filler| == skip
    ensures Write(s, skip, data) == Write(s, 0, filler + data)
  {
    var lossy, whole := Incoming(skip, data), Incoming(0, filler + data);
    if s.debt < |lossy| {
      assert lossy[s.debt..] == whole[s.debt..];
    }
  }

  /** What can already be read stays readable, and a gap stays where it is. */
  lemma ReadThroughMore(cells: seq<Cell>, chars: set<char>, incoming: seq<Cell>)
    ensures var p, q := Prefix(cells), Prefix(cells + incoming);
            && (Find(p, chars) < |p| ==>
                  && Find(q, chars) == Find(p, chars) < |q|
                  && q[..Find(p, chars) + 1] == p[..Find(p, chars) + 1])
            && (|p| < |cells| ==> q == p)
  {
    var p, q := Prefix(cells), Prefix(cells + incoming);
    PrefixExtends(cells, incoming);
    if Find(p, chars) < |p| {
      FindUnique(q, chars, Find(p, chars));
    }
  }

  /** A complete read is not affected by what arrives later, and neither is the report of a gap. */
  lemma ReadThroughStable(s: Stream, chars: set<char>, incoming: seq<Cell>)
    requires s.Valid()
    ensures ReadThrough(s, chars).Broken? ==> ReadThrough(Push(s, incoming), chars).Broken?
    ensures var c := ReadThrough(s, chars);
            c.Chunk? ==> ReadThrough(Push(s, incoming), chars) == Chunk(c.bytes, Push(c.rest, incoming))
  {
    if s.cells != [] {
      PushBuffered(s.cells, incoming);
      ReadThroughMore(s.cells, chars, incoming);
      DiscardPushCommute(s, Find(Prefix(s.cells), chars) + 1, incoming);
    }
  }

  /** The largest data-only buffer content a bounded buffer needs room for is what was buffered plus the segment. */
  lemma SmallSegmentFits(s: Stream, skip: int, data: string, cap: nat)
    requires NumData(s.cells) + |data| <= cap
    ensures Fits(s, skip, data, cap)
  {
    var inc := Incoming(skip, data);
    var gap := Gap(if skip < 0 then 0 else skip);
    NumDataConcat(gap, Payload(data));
    NumDataGap(|gap|);
    NumDataPayload(data);
    if s.debt < |inc| {
      NumDataSuffix(inc, s.debt);
    }
  }
}
