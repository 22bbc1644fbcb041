/** The error values that travel between the buffer, the readers and the protocol states. */
module Errors {
  datatype Error =
    | Nil
    | ShortRead
    | LostData(lost: int)
    | ShortWrite
    | UnexpectedEof
    | Eof
    | ProtocolDesync
    | BadNumber
}

/**
  The gap-aware buffer. The bytes of all blocks lie end to end in `buf`; each block says how many
  positions were lost before its bytes. `View` is the stream of cells the buffer stands for.
 */
module Buffers {
  import opened Errors
  import opened Streams
  import opened Text

  datatype Block = Block(gap: int, dataLen: int) {
    function Len(): int { gap + dataLen }
    predicate HasGap() { gap > 0 }
  }

  // ---------------------------------------------------------------- blocks as cells

  /** A block together with its bytes. */
  datatype Piece = Piece(gap: nat, bytes: string) {
    ghost function ToBlock(): Block { Block(gap, |bytes|) }
    ghost function ToCells(): (cells: seq<Cell>) { Gap(gap) + Payload(bytes) }
  }

  ghost function Bytes(pieces: seq<Piece>): string {
    if pieces == [] then "" else pieces[0].bytes + Bytes(pieces[1..])
  }

  ghost function Cells(pieces: seq<Piece>): seq<Cell> {
    if pieces == [] then [] else pieces[0].ToCells() + Cells(pieces[1..])
  }

  /** Every block covers something, and every block after the first starts with a gap. */
  ghost predicate WellFormed(pieces: seq<Piece>) {
    && (forall p :: p in pieces ==> p.gap + |p.bytes| > 0)
    && (forall i :: 0 < i < |pieces| ==> pieces[i].gap > 0)
  }

  ghost predicate Describes(pieces: seq<Piece>, blocks: seq<Block>) {
    && |pieces| == |blocks|
    && forall i :: 0 <= i < |blocks| ==> blocks[i] == pieces[i].ToBlock()
  }

  lemma {:induction false} Concat(a: seq<Piece>, b: seq<Piece>)
    ensures Bytes(a + b) == Bytes(a) + Bytes(b)
    ensures Cells(a + b) == Cells(a) + Cells(b)
  {
    if a == [] {
      assert a + b == b;
    } else {
      assert (a + b)[1..] == a[1..] + b;
      Concat(a[1..], b);
    }
  }

  lemma Single(p: Piece)
    ensures Bytes([p]) == p.bytes && Cells([p]) == p.ToCells()
  {
    assert [p][1..] == [];
  }

  lemma {:induction false} Sizes(pieces: seq<Piece>)
    ensures NumData(Cells(pieces)) == |Bytes(pieces)|
  {
    if pieces != [] {
      var p, rest := pieces[0], pieces[1..];
      Sizes(rest);
      NumDataConcat(p.ToCells(), Cells(rest));
      NumDataConcat(Gap(p.gap), Payload(p.bytes));
      NumDataGap(p.gap);
      NumDataPayload(p.bytes);
    }
  }

  /** Splits the pieces into those before i, piece i, and those after i. */
  lemma Around(pieces: seq<Piece>, i: nat)
    requires i < |pieces|
    ensures Bytes(pieces) == Bytes(pieces[..i]) + (pieces[i].bytes + Bytes(pieces[i + 1..]))
    ensures Cells(pieces) == Cells(pieces[..i]) + (pieces[i].ToCells() + Cells(pieces[i + 1..]))
  {
    SplitAt(pieces, i);
    Join(pieces[..i], pieces[i], pieces[i + 1..]);
  }

  lemma SplitAt(pieces: seq<Piece>, i: nat)
    requires i < |pieces|
    ensures pieces == pieces[..i] + ([pieces[i]] + pieces[i + 1..])
  {
  }

  lemma Join(before: seq<Piece>, p: Piece, after: seq<Piece>)
    ensures Bytes(before + ([p] + after)) == Bytes(before) + (p.bytes + Bytes(after))
    ensures Cells(before + ([p] + after)) == Cells(before) + (p.ToCells() + Cells(after))
  {
    Single(p);
    Concat([p], after);
    Concat(before, [p] + after);
  }

  lemma Snoc(pieces: seq<Piece>, i: nat)
    requires i < |pieces|
    ensures Bytes(pieces[..i + 1]) == Bytes(pieces[..i]) + pieces[i].bytes
    ensures Cells(pieces[..i + 1]) == Cells(pieces[..i]) + pieces[i].ToCells()
  {
    assert pieces[..i + 1] == pieces[..i] + [pieces[i]];
    Single(pieces[i]);
    Concat(pieces[..i], [pieces[i]]);
  }

  /**
    The text from position n on. Nothing is dropped from the front when n is 0, as the solver would
    otherwise go on to drop nothing from the result, and so on.
   */
  ghost function From(text: string, n: nat): string
    requires n <= |text|
  {
    if n == 0 then text else text[n..]
  }

  /** What is left of a piece after its first n positions. */
  ghost function Trim(p: Piece, n: int): Piece
    requires n < p.gap + |p.bytes|
  {
    if p.gap > n then Piece(p.gap - n, p.bytes) else Piece(0, From(p.bytes, n - p.gap))
  }

  lemma TrimCells(p: Piece, n: int)
    requires n < p.gap + |p.bytes|
    ensures Trim(p, n).ToCells() == Shift(p.ToCells(), n)
  {
  }

  /** What a segment adds to the buffer once the debt has been taken from it. */
  ghost function Queued(skip: nat, data: string, debt: int): Piece
    requires debt < skip + |data|
  {
    if skip >= debt then Piece(skip - debt, data) else Piece(0, From(data, debt - skip))
  }

  lemma QueuedCells(s: Stream, skip: int, data: string, cap: nat)
    requires s.debt < (if skip < 0 then 0 else skip) + |data|
    ensures var p := Queued(if skip < 0 then 0 else skip, data, s.debt);
            && Streams.Write(s, skip, data) == Stream(s.cells + p.ToCells(), 0)
            && (Fits(s, skip, data, cap) <==> NumData(s.cells) + |p.bytes| <= cap)
  {
    var p := Queued(if skip < 0 then 0 else skip, data, s.debt);
    assert Shift(Incoming(skip, data), s.debt) == p.ToCells();
    Single(p);
    Sizes([p]);
  }

  lemma TrimHead(p: Piece, after: seq<Piece>, n: int)
    requires n < p.gap + |p.bytes|
    ensures Cells([Trim(p, n)] + after) == Shift(p.ToCells() + Cells(after), n)
    ensures Bytes([Trim(p, n)] + after) == From(p.bytes, if p.gap > n then 0 else n - p.gap) + Bytes(after)
  {
    var q := Trim(p, n);
    Single(q);
    Concat([q], after);
    TrimCells(p, n);
    ShiftConcat(p.ToCells(), Cells(after), n);
  }

  /** A segment without a gap lengthens the last block. */
  lemma ExtendLast(pieces: seq<Piece>, more: string)
    requires pieces != []
    ensures var n := |pieces| - 1;
            var pieces' := pieces[n := Piece(pieces[n].gap, pieces[n].bytes + more)];
            && Bytes(pieces') == Bytes(pieces) + more
            && Cells(pieces') == Cells(pieces) + Piece(0, more).ToCells()
  {
    var n := |pieces| - 1;
    var init, last, last' := pieces[..n], pieces[n], Piece(pieces[n].gap, pieces[n].bytes + more);
    assert pieces == init + [last];
    assert pieces[n := last'] == init + [last'];
    Single(last);
    Single(last');
    Concat(init, [last]);
    Concat(init, [last']);
    LongerPiece(last, more);
  }

  lemma LongerPiece(p: Piece, more: string)
    ensures Piece(p.gap, p.bytes + more).ToCells() == p.ToCells() + Piece(0, more).ToCells()
  {
    PayloadConcat(p.bytes, more);
  }

  /** A segment after a gap, or into an empty buffer, starts a new block. */
  lemma AppendPiece(pieces: seq<Piece>, blocks: seq<Block>, p: Piece)
    requires WellFormed(pieces) && Describes(pieces, blocks)
    requires p.gap + |p.bytes| > 0 && (pieces != [] ==> p.gap > 0)
    ensures WellFormed(pieces + [p]) && Describes(pieces + [p], blocks + [p.ToBlock()])
    ensures Bytes(pieces + [p]) == Bytes(pieces) + p.bytes
    ensures Cells(pieces + [p]) == Cells(pieces) + p.ToCells()
  {
    Single(p);
    Concat(pieces, [p]);
  }

  /** After the first i blocks and part of the next are gone, the rest is still well formed. */
  lemma DropAndTrimShape(pieces: seq<Piece>, blocks: seq<Block>, i: nat, n: int)
    requires WellFormed(pieces) && Describes(pieces, blocks)
    requires i < |pieces| && n < blocks[i].Len()
    ensures var q := Trim(pieces[i], n);
            WellFormed([q] + pieces[i + 1..]) && Describes([q] + pieces[i + 1..], [q.ToBlock()] + blocks[i + 1..])
  {
  }

  /** ... its bytes are the buffered bytes without as many as were dropped ... */
  lemma DropAndTrimBytes(pieces: seq<Piece>, i: nat, n: int)
    requires i < |pieces| && n < pieces[i].gap + |pieces[i].bytes|
    ensures var p := pieces[i];
            var dropped := |Bytes(pieces[..i])| + (if p.gap > n then 0 else n - p.gap);
            && dropped <= |Bytes(pieces)|
            && Bytes([Trim(p, n)] + pieces[i + 1..]) == From(Bytes(pieces), dropped)
  {
    var p, before, after := pieces[i], Bytes(pieces[..i]), pieces[i + 1..];
    var k: nat := if p.gap > n then 0 else n - p.gap;
    assert Bytes(pieces) == before + (p.bytes + Bytes(after)) by { Around(pieces, i); }
    assert Bytes([Trim(p, n)] + after) == From(p.bytes, k) + Bytes(after) by { TrimHead(p, after, n); }
    DropPast(before, p.bytes, Bytes(after), k);
  }

  /** ... and it stands for the stream with that many positions discarded. */
  lemma DropAndTrimCells(pieces: seq<Piece>, i: nat, n: int)
    requires i < |pieces| && n < pieces[i].gap + |pieces[i].bytes| && 0 < pieces[i].gap + |pieces[i].bytes|
    requires i > 0 ==> n >= 0
    ensures var s := Stream(Cells([Trim(pieces[i], n)] + pieces[i + 1..]), 0);
            && |s.cells| == |Cells(pieces)| - |Cells(pieces[..i])| - n
            && Streams.Discard(Stream(Cells(pieces), 0), |Cells(pieces[..i])| + n) == s
  {
    var p, before, after := pieces[i], pieces[..i], pieces[i + 1..];
    Around(pieces, i);
    TrimHead(p, after, n);
    assert i == 0 ==> before == [];
    ShiftPast(Cells(before), p.ToCells() + Cells(after), n);
  }

  lemma UpdateThenDrop(blocks: seq<Block>, i: nat, b: Block)
    requires i < |blocks|
    ensures blocks[i := b][i..] == [b] + blocks[i + 1..]
  {
  }

  lemma DropTwice(a: string, k: nat, d: nat)
    requires k + d <= |a|
    ensures From(From(a, k), d) == From(a, d + k)
  {
  }

  lemma DropPast(a: string, b: string, c: string, k: nat)
    requires k <= |b|
    ensures From(a + (b + c), |a| + k) == From(b, k) + c
  {
  }

  /** The same in terms of what the blocks cover. */
  lemma DropBytes(pieces: seq<Piece>, blocks: seq<Block>, i: nat, n: int)
    requires Describes(pieces, blocks) && i < |pieces| && n < blocks[i].Len()
    ensures var p, earlier := pieces[i], DataTotal(blocks[..i]);
            var k := if p.gap > n then 0 else n - p.gap;
            && 0 <= earlier && k + earlier <= |Bytes(pieces)|
            && Bytes([Trim(p, n)] + pieces[i + 1..]) == From(Bytes(pieces), earlier + k)
  {
    assert DataTotal(blocks[..i]) == |Bytes(pieces[..i])| by { Totals(pieces[..i], blocks[..i]); }
    DropAndTrimBytes(pieces, i, n);
  }

  lemma DropCells(pieces: seq<Piece>, blocks: seq<Block>, i: nat, n: int)
    requires WellFormed(pieces) && Describes(pieces, blocks)
    requires i < |pieces| && n < blocks[i].Len() && (i > 0 ==> n >= 0)
    ensures var s := Stream(Cells([Trim(pieces[i], n)] + pieces[i + 1..]), 0);
            && |s.cells| == |Cells(pieces)| - Span(blocks[..i]) - n
            && Streams.Discard(Stream(Cells(pieces), 0), Span(blocks[..i]) + n) == s
  {
    assert Span(blocks[..i]) == |Cells(pieces[..i])| by { Totals(pieces[..i], blocks[..i]); }
    assert pieces[i] in pieces;
    DropAndTrimCells(pieces, i, n);
  }

  /** If there is no gap before piece i and one in it, the readable bytes end there. */
  lemma FirstGap(pieces: seq<Piece>, i: nat)
    requires i < |pieces| && pieces[i].gap > 0
    requires Cells(pieces[..i]) == Payload(Bytes(pieces[..i]))
    ensures var avail, gap := |Bytes(pieces[..i])|, pieces[i].gap;
            && Prefix(Cells(pieces)) == Bytes(pieces[..i])
            && avail <= |Bytes(pieces)| && Bytes(pieces)[..avail] == Bytes(pieces[..i])
            && avail + gap <= |Cells(pieces)| && Cells(pieces)[avail..avail + gap] == Gap(gap)
  {
    Around(pieces, i);
    var before, p := pieces[..i], pieces[i];
    FirstGapCells(Cells(before), p.gap, Payload(p.bytes), Cells(pieces[i + 1..]));
    PrefixUnique(Cells(pieces), Bytes(before));
  }

  lemma FirstGapCells(a: seq<Cell>, gap: nat, b: seq<Cell>, c: seq<Cell>)
    ensures var cells := a + ((Gap(gap) + b) + c);
            && cells[..|a|] == a && cells[|a|..|a| + gap] == Gap(gap)
            && (gap > 0 ==> cells[|a|] == Lost)
  {
  }

  lemma NoGap(pieces: seq<Piece>, i: nat)
    requires i < |pieces| && pieces[i].gap == 0
    requires Cells(pieces[..i]) == Payload(Bytes(pieces[..i]))
    ensures Cells(pieces[..i + 1]) == Payload(Bytes(pieces[..i + 1]))
    ensures |Bytes(pieces[..i + 1])| == |Bytes(pieces[..i])| + |pieces[i].bytes|
  {
    Snoc(pieces, i);
    assert pieces[i].ToCells() == Payload(pieces[i].bytes);
    PayloadConcat(Bytes(pieces[..i]), pieces[i].bytes);
  }

  // ---------------------------------------------------------------- the buffer

  /** The fields of a buffer, its blocks with their bytes, and the stream it stands for. */
  datatype Image = Image(
    buf: string,
    len: int,
    cap: nat,
    blocks: seq<Block>,
    discard: int,
    pieces: seq<Piece>,
    stream: Stream
  )

  /** What every operation keeps. */
  ghost predicate Coherent(v: Image) {
    && WellFormed(v.pieces) && Describes(v.pieces, v.blocks)
    && v.buf == Bytes(v.pieces) && |v.buf| <= v.cap
    && v.len == |Cells(v.pieces)|
    && (v.blocks != [] ==> v.discard == 0)
    && v.stream == Stream(Cells(v.pieces), v.discard)
  }

  /**
    A buffer carries Coherent as a function whose definition is triggered by Coherent alone, so that
    proofs about the users of buffers do not unfold it.
   */
  ghost predicate Defined(coherent: Image -> bool) {
    forall v {:trigger Coherent(v)} :: coherent(v) == Coherent(v)
  }

  /** A coherent buffer without its first i blocks and the first n positions of the next, as Discard leaves it. */
  ghost function Dropped(v: Image, i: nat, n: int): Image
    requires Coherent(v) && i < |v.blocks| && n < v.blocks[i].Len()
    requires 0 <= DataTotal(v.blocks[..i]) <= |v.buf| - (if v.blocks[i].gap > n then 0 else n - v.blocks[i].gap)
  {
    var p, q := v.pieces[i], Trim(v.pieces[i], n);
    var k := if p.gap > n then 0 else n - p.gap;
    var after := [q] + v.pieces[i + 1..];
    Image(From(v.buf, DataTotal(v.blocks[..i]) + k), v.len - n - Span(v.blocks[..i]), v.cap,
          [q.ToBlock()] + v.blocks[i + 1..], v.discard, after, Stream(Cells(after), 0))
  }

  lemma DropAndTrim(v: Image, i: nat, n: int)
    requires Coherent(v) && i < |v.blocks| && n < v.blocks[i].Len() && (i > 0 ==> n >= 0)
    ensures 0 <= DataTotal(v.blocks[..i]) <= |v.buf| - (if v.blocks[i].gap > n then 0 else n - v.blocks[i].gap)
    ensures Coherent(Dropped(v, i, n))
    ensures Dropped(v, i, n).stream == Streams.Discard(v.stream, Span(v.blocks[..i]) + n)
  {
    assert v.blocks[i].gap == v.pieces[i].gap;
    DropBytes(v.pieces, v.blocks, i, n);
    var after := [Trim(v.pieces[i], n)] + v.pieces[i + 1..];
    assert Dropped(v, i, n).pieces == after && Dropped(v, i, n).buf == Bytes(after);
    assert WellFormed(after) && Describes(after, Dropped(v, i, n).blocks) by {
      DropAndTrimShape(v.pieces, v.blocks, i, n);
    }
    DropCells(v.pieces, v.blocks, i, n);
  }

  /** The gap of the first block that has one; only the first block may have none. */
  function FirstGapSize(blocks: seq<Block>): int {
    if blocks == [] then 0
    else if blocks[0].HasGap() then blocks[0].gap
    else if |blocks| > 1 then blocks[1].gap
    else 0
  }

  lemma GapIsFirst(pieces: seq<Piece>, blocks: seq<Block>, i: nat)
    requires WellFormed(pieces) && Describes(pieces, blocks) && i <= |blocks|
    requires forall j :: 0 <= j < i ==> !blocks[j].HasGap()
    ensures if i == |blocks| then FirstGapSize(blocks) == 0
            else blocks[i].HasGap() ==> FirstGapSize(blocks) == blocks[i].gap
  {
    assert |blocks| > 1 ==> pieces[1].gap > 0 && blocks[1].HasGap();
  }

  /** The error tells how many positions in a row, at least, are lost behind the readable bytes. */
  ghost predicate FirstLoss(s: Stream, err: Error) {
    var avail := |Prefix(s.cells)|;
    && err.LostData? && 0 < err.lost <= |s.cells| - avail
    && s.cells[avail..avail + err.lost] == Gap(err.lost)
  }

  class Buffer {
    /** The bytes that can still be read, those of all blocks end to end. */
    var buf: string
    /** Length including gaps. */
    var len: int
    const cap: nat
    var blocks: seq<Block>
    var discard: int
    /** The blocks with their bytes. */
    ghost var pieces: seq<Piece>
    /** The stream this buffer stands for. */
    ghost var stream: Stream
    ghost const coherent: Image -> bool
    /** The reader this buffer is part of; a buffer is never shared between readers. */
    ghost var owner: object?

    ghost predicate Valid()
      reads this
    {
      Defined(coherent) && coherent(Fields())
    }

    ghost function Fields(): Image
      reads this
    {
      Image(buf, len, cap, blocks, discard, pieces, stream)
    }

    constructor (cap: nat)
      ensures Valid() && stream == EMPTY && this.cap == cap
    {
      this.cap := cap;
      buf, len, blocks, discard := "", 0, [], 0;
      pieces, stream := [], EMPTY;
      coherent := v => Coherent(v);
      new;
      assert Coherent(Fields());
    }

    method Reset()
      requires Valid()
      modifies `buf, `len, `blocks, `discard, `pieces, `stream
      ensures Valid() && stream == EMPTY
    {
      buf := "";
      len := 0;
      blocks := [];
      discard := 0;
      pieces, stream := [], EMPTY;
      assert Coherent(Fields());
    }

    method Write(skip: int, data: string) returns (err: Error)
      requires Valid()
      modifies `buf, `len, `blocks, `discard, `pieces, `stream
      ensures Valid()
      ensures err == if Fits(old(stream), skip, data, cap) then Nil else ShortWrite
      ensures stream == if err.Nil? then Streams.Write(old(stream), skip, data) else old(stream)
    {
      assert Coherent(Fields());
      var skip, data := skip, data;
      ghost var s := stream;
      Sizes(pieces);
      if discard < (if skip < 0 then 0 else skip) + |data| {
        QueuedCells(s, skip, data, cap);
      }
      if skip < 0 {
        skip := 0;
      }
      if discard >= skip + |data| {
        discard := discard - skip - |data|;
        stream := Stream(stream.cells, discard);
        assert Coherent(Fields());
        return Nil;
      }
      ghost var p := Queued(skip, data, discard);
      if skip >= discard {
        skip := skip - discard;
      } else {
        data := data[discard - skip..];
        skip := 0;
      }
      assert p == Piece(skip, data);
      if |buf| + |data| > cap {
        return ShortWrite;
      }
      Queue(skip, data);
      return Nil;
    }

    /** Adds a non-empty piece of the stream that fits behind what is buffered. */
    method Queue(skip: nat, data: string)
      requires Valid() && skip + |data| > 0 && |buf| + |data| <= cap
      modifies `buf, `len, `blocks, `discard, `pieces, `stream
      ensures Valid() && stream == Stream(old(stream).cells + Piece(skip, data).ToCells(), 0)
    {
      assert Coherent(Fields());
      buf := buf + data;
      discard := 0;
      if skip == 0 && |blocks| > 0 {
        var n := |blocks| - 1;
        ExtendLast(pieces, data);
        blocks := blocks[n := Block(blocks[n].gap, blocks[n].dataLen + |data|)];
        pieces := pieces[n := Piece(pieces[n].gap, pieces[n].bytes + data)];
      } else {
        AppendPiece(pieces, blocks, Piece(skip, data));
        blocks := blocks + [Block(skip, |data|)];
        pieces := pieces + [Piece(skip, data)];
      }
      len := len + skip + |data|;
      stream := Stream(Cells(pieces), 0);
      assert Coherent(Fields());
    }

    /** The readable bytes before the first gap, and the size of that gap. */
    method ContiguousAvailable() returns (avail: int, gap: int)
      requires Valid()
      ensures 0 <= avail <= |buf| && buf[..avail] == Prefix(stream.cells)
      ensures len == |stream.cells|
      ensures if avail < len then
                0 < gap && avail + gap <= len && stream.cells[avail..avail + gap] == Gap(gap)
              else
                gap == 0
      ensures gap == FirstGapSize(blocks)
    {
      assert Coherent(Fields());
      avail, gap := 0, 0;
      for i := 0 to |blocks|
        invariant gap == 0 && forall j :: 0 <= j < i ==> !blocks[j].HasGap()
        invariant Cells(pieces[..i]) == Payload(Bytes(pieces[..i]))
        invariant avail == |Bytes(pieces[..i])|
      {
        assert blocks[i] == pieces[i].ToBlock();
        if blocks[i].HasGap() {
          FirstGap(pieces, i);
          GapIsFirst(pieces, blocks, i);
          return avail, blocks[i].gap;
        }
        NoGap(pieces, i);
        avail := avail + blocks[i].dataLen;
      }
      GapIsFirst(pieces, blocks, |blocks|);
      assert pieces[..|blocks|] == pieces;
      PrefixPayload(buf);
    }

    method ReadN(n: nat) returns (out: string, err: Error)
      requires Valid()
      modifies `buf, `len, `blocks, `discard, `pieces, `stream
      ensures Valid()
      ensures var s := old(stream);
              var p := Prefix(s.cells);
              if |s.cells| < n then
                out == "" && err == ShortRead && stream == s
              else if |p| < n then
                out == p && FirstLoss(s, err) && stream == Streams.Discard(s, |p| + err.lost)
              else
                out == p[..n] && err == Nil && stream == Streams.Discard(s, n)
      ensures err.LostData? ==> err.lost == FirstGapSize(old(blocks))
    {
      assert Coherent(Fields());
      if len < n {
        return "", ShortRead;
      }
      var avail, gap := ContiguousAvailable();
      var readable := buf[..avail];
      if avail < n {
        Discard(avail + gap);
        return readable, LostData(gap);
      }
      out := readable[..n];
      Discard(n);
      return out, Nil;
    }

    method PeekN(n: nat) returns (out: string, err: Error)
      requires Valid()
      ensures var s := stream;
              var p := Prefix(s.cells);
              if |s.cells| < n then
                out == "" && err == ShortRead
              else if |p| < n then
                out == p && FirstLoss(s, err)
              else
                out == p[..n] && err == Nil
      ensures err.LostData? ==> err.lost == FirstGapSize(blocks)
    {
      assert Coherent(Fields());
      if len < n {
        return "", ShortRead;
      }
      var avail, gap := ContiguousAvailable();
      if avail < n {
        return buf[..avail], LostData(gap);
      }
      return buf[..avail][..n], Nil;
    }

    method IndexAny(chars: set<char>) returns (pos: int, err: Error)
      requires Valid()
      ensures var s := stream;
              var p := Prefix(s.cells);
              var i := Find(p, chars);
              if i < |p| then pos == i && err == Nil
              else pos == -1 && (if |p| < |s.cells| then FirstLoss(s, err) else err == ShortRead)
      ensures err.LostData? ==> err.lost == FirstGapSize(blocks)
    {
      assert Coherent(Fields());
      var avail, gap := ContiguousAvailable();
      pos := FindIn(buf[..avail], chars);
      if pos < 0 {
        if avail < len {
          return pos, LostData(gap);
        }
        return pos, ShortRead;
      }
      return pos, Nil;
    }

    /** Reads a line without its terminator; a gap before the end of the line is reported and passed. */
    method ReadLine() returns (out: string, err: Error)
      requires Valid()
      modifies `buf, `len, `blocks, `discard, `pieces, `stream
      ensures Valid()
      ensures var s := old(stream);
              match ReadThrough(s, {'\n'})
              case Chunk(bytes, rest) => err == Nil && out == TrimEol(bytes) && stream == rest
              case Short => out == "" && err == ShortRead && stream == s
              case Broken =>
                && out == "" && FirstLoss(s, err)
                && stream == Streams.Discard(s, |Prefix(s.cells)| + err.lost)
      ensures err.LostData? ==> err.lost == FirstGapSize(old(blocks))
    {
      var avail, gap := ContiguousAvailable();
      var readable := buf[..avail];
      var pos := FindIn(readable, {'\n'});
      if pos < 0 {
        if avail < len {
          Discard(avail + gap);
          return "", LostData(gap);
        }
        return "", ShortRead;
      }
      out := TrimCr(readable[..pos]);
      LineBefore(readable, pos);
      Discard(pos + 1);
      return out, Nil;
    }

    /** Skips n positions, first those that are buffered and then those that have not arrived. */
    method Discard(n: int)
      requires Valid()
      modifies `buf, `len, `blocks, `discard, `pieces, `stream
      ensures Valid() && stream == Streams.Discard(old(stream), n)
    {
      var toDiscard := n;
      for i := 0 to |blocks|
        invariant unchanged(this)
        invariant toDiscard == n - Span(blocks[..i])
        invariant i > 0 ==> toDiscard >= 0
      {
        if blocks[i].Len() > toDiscard {
          DiscardUpTo(i, toDiscard);
          return;
        }
        assert blocks[..i + 1] == blocks[..i] + [blocks[i]];
        TotalsSnoc(blocks[..i], blocks[i]);
        toDiscard := toDiscard - blocks[i].Len();
      }
      assert blocks[..|blocks|] == blocks;
      DiscardAll(toDiscard);
    }

    /** Drops everything that is buffered and owes n more positions. */
    method DiscardAll(n: int)
      requires Valid() && (blocks != [] ==> n >= 0)
      modifies `buf, `len, `blocks, `discard, `pieces, `stream
      ensures Valid() && stream == Streams.Discard(old(stream), Span(old(blocks)) + n)
    {
      assert Coherent(Fields());
      Totals(pieces, blocks);
      buf := "";
      len := 0;
      blocks := [];
      discard := discard + n;
      pieces, stream := [], Stream([], discard);
      assert Coherent(Fields());
    }

    /** Drops the blocks before i and the first n positions of block i, in the order the bytes are not in. */
    method DiscardUpTo(i: nat, n: int)
      requires Valid() && i < |blocks| && n < blocks[i].Len() && (i > 0 ==> n >= 0)
      modifies `buf, `len, `blocks, `discard, `pieces, `stream
      ensures Valid() && stream == Streams.Discard(old(stream), Span(old(blocks)[..i]) + n)
    {
      ghost var before := Fields();
      assert Coherent(before);
      DropAndTrim(before, i, n);
      ghost var after := Dropped(before, i, n);
      DropFront(i, n);
      pieces, stream := after.pieces, after.stream;
      assert Fields() == after;
    }

    method DropFront(i: nat, n: int)
      requires i < |blocks| && n < blocks[i].Len()
      requires 0 <= DataTotal(blocks[..i]) <= |buf| - (if blocks[i].gap > n then 0 else n - blocks[i].gap)
      modifies `buf, `len, `blocks
      ensures var b, before := old(blocks)[i], old(blocks)[..i];
              var k := if b.gap > n then 0 else n - b.gap;
              && buf == From(old(buf), DataTotal(before) + k)
              && blocks == [Block(if b.gap > n then b.gap - n else 0, b.dataLen - k)] + old(blocks)[i + 1..]
              && len == old(len) - n - Span(before)
    {
      DropTwice(buf, if blocks[i].gap > n then 0 else n - blocks[i].gap, DataTotal(blocks[..i]));
      DiscardFromBlock(i, n);
      assert blocks[..i] == old(blocks)[..i];
      UpdateThenDrop(old(blocks), i, blocks[i]);
      DropBlocks(i);
    }

    /**
      Shortens block i by its first n positions. The bytes are taken from the front of `buf`,
      whichever block they belong to.
     */
    method DiscardFromBlock(i: nat, n: int)
      requires i < |blocks| && n < blocks[i].Len() && n - blocks[i].gap <= |buf|
      modifies `buf, `len, `blocks
      ensures len == old(len) - n
      ensures var b := old(blocks)[i];
              if b.gap > n then
                blocks == old(blocks)[i := Block(b.gap - n, b.dataLen)] && buf == old(buf)
              else
                && blocks == old(blocks)[i := Block(0, b.dataLen - (n - b.gap))]
                && buf == From(old(buf), n - b.gap)
    {
      var n := n;
      len := len - n;
      if blocks[i].gap > n {
        blocks := blocks[i := blocks[i].(gap := blocks[i].gap - n)];
        return;
      }
      n := n - blocks[i].gap;
      blocks := blocks[i := Block(0, blocks[i].dataLen - n)];
      buf := buf[n..];
    }

    /** Removes the first n blocks and as many bytes from the front of `buf` as they hold. */
    method DropBlocks(n: nat)
      requires n <= |blocks| && 0 <= DataTotal(blocks[..n]) <= |buf|
      modifies `buf, `len, `blocks
      ensures blocks == old(blocks)[n..]
      ensures buf == From(old(buf), DataTotal(old(blocks)[..n]))
      ensures len == old(len) - Span(old(blocks)[..n])
    {
      var dataToDrop := 0;
      for i := 0 to n
        invariant blocks == old(blocks) && buf == old(buf)
        invariant dataToDrop == DataTotal(blocks[..i])
        invariant len == old(len) - Span(blocks[..i])
      {
        TotalsSnoc(blocks[..i], blocks[i]);
        assert blocks[..i + 1] == blocks[..i] + [blocks[i]];
        len := len - blocks[i].Len();
        dataToDrop := dataToDrop + blocks[i].dataLen;
      }
      blocks := blocks[n..];
      buf := buf[dataToDrop..];
    }
  }

  ghost function DataTotal(blocks: seq<Block>): int {
    if blocks == [] then 0 else blocks[0].dataLen + DataTotal(blocks[1..])
  }

  ghost function Span(blocks: seq<Block>): int {
    if blocks == [] then 0 else blocks[0].Len() + Span(blocks[1..])
  }

  lemma {:induction false} TotalsSnoc(bs: seq<Block>, b: Block)
    ensures DataTotal(bs + [b]) == DataTotal(bs) + b.dataLen
    ensures Span(bs + [b]) == Span(bs) + b.Len()
  {
    if bs == [] {
      assert bs + [b] == [b];
    } else {
      assert (bs + [b])[1..] == bs[1..] + [b];
      TotalsSnoc(bs[1..], b);
    }
  }

  /** Buffered bytes are the sum of the block data, and length is the sum of gaps and data. */
  lemma {:induction false} Totals(pieces: seq<Piece>, blocks: seq<Block>)
    requires Describes(pieces, blocks)
    ensures DataTotal(blocks) == |Bytes(pieces)| && Span(blocks) == |Cells(pieces)|
  {
    if pieces != [] {
      Totals(pieces[1..], blocks[1..]);
    }
  }

  lemma LineBefore(text: string, pos: nat)
    requires pos < |text|
    ensures TrimEol(text[..pos + 1]) == TrimCr(text[..pos])
  {
    assert text[..pos + 1][..pos] == text[..pos];
  }

  method FindIn(text: string, chars: set<char>) returns (pos: int)
    ensures pos == if Find(text, chars) < |text| then Find(text, chars) else -1
  {
    for i := 0 to |text|
      invariant forall j :: 0 <= j < i ==> text[j] !in chars
    {
      if text[i] in chars {
        FindUnique(text, chars, i);
        return i;
      }
    }
    return -1;
  }
}
