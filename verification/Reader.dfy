/** A buffer with the flags of one direction of a connection. */
module Readers {
  import opened Errors
  import opened Streams
  import opened Text
  import opened Buffers
  import opened TextMachine

  /** Why nothing can be read up to a delimiter: an earlier error, the end of the stream, or a loss. */
  ghost predicate Failed(src: Source, sticky: Error, err: Error) {
    src.Live? &&
    if src.failed then err == sticky == ShortWrite
    else if |Prefix(src.stream.cells)| == |src.stream.cells| then src.eof && err == UnexpectedEof
    else FirstLoss(src.stream, err)
  }

  class Reader {
    const buf: Buffer
    var closed: bool
    var eof: bool
    /** The error that ended the reader's usefulness, if any; only a failed Write sets it. */
    var err: Error
    /** The source of the protocol machine that this reader stands for. */
    ghost var src: Source

    ghost predicate Valid()
      reads this, buf
    {
      && buf.owner == this && buf.Valid() && buf.cap == BUFFER_SIZE
      && err in {Nil, ShortWrite}
      && src == View()
    }

    ghost function View(): Source
      reads this, buf
    {
      Live(buf.stream, closed, eof, err != Nil)
    }

    constructor ()
      ensures Valid() && src == FRESH && fresh(buf)
    {
      buf := new Buffer(BUFFER_SIZE);
      closed, eof, err := false, false, Nil;
      src := FRESH;
      new;
      buf.owner := this;
    }

    method Reassembled(rs: seq<Segment>)
      requires Valid()
      modifies this, buf
      ensures Valid() && src == ReceiveAll(old(src), rs)
    {
      if closed || err != Nil {
        ReceiveNothing(src, rs);
        return;
      }
      for i := 0 to |rs|
        invariant Valid() && closed == old(closed) && !closed && err == Nil
        invariant ReceiveAll(src, rs[i..]) == ReceiveAll(old(src), rs)
      {
        var failure := buf.Write(rs[i].skip, rs[i].data);
        if failure != Nil {
          err := failure;
          src := View();
          ReceiveNothing(src, rs[i + 1..]);
          return;
        }
        src := View();
      }
    }

    method ReassemblyComplete()
      requires Valid()
      modifies this
      ensures Valid() && src == Live(old(src).stream, old(src).closed, true, old(src).failed)
    {
      eof := true;
      src := View();
    }

    /** Prepares the reader for another connection. */
    method Reset()
      requires Valid()
      modifies this, buf
      ensures Valid() && src == FRESH
    {
      buf.Reset();
      closed := false;
      eof := false;
      err := Nil;
      src := View();
    }

    /** Drops what is buffered, and the debt, but keeps the flags and the error. */
    method Truncate()
      requires Valid()
      modifies `src, buf
      ensures Valid() && src == TextMachine.Truncate(old(src))
    {
      buf.Reset();
      src := View();
    }

    method Discard(n: int) returns (discarded: int, err: Error)
      requires Valid()
      modifies `src, buf
      ensures Valid()
      ensures err == this.err && discarded == if err == Nil then n else 0
      ensures src == if err == Nil then Skip(old(src), n) else old(src)
    {
      if this.err != Nil {
        return 0, this.err;
      }
      buf.Discard(n);
      src := View();
      return n, Nil;
    }

    method ReadN(n: nat) returns (out: string, err: Error)
      requires Valid()
      modifies `src, buf
      ensures Valid()
      ensures this.err != Nil ==> err == this.err && src == old(src)
      ensures var s := old(src).stream;
              this.err == Nil && n <= |Prefix(s.cells)| ==>
                err == Nil && out == Prefix(s.cells)[..n] && src == Skip(old(src), n)
      ensures var s := old(src).stream;
              this.err == Nil && |s.cells| < n ==>
                err == (if eof then UnexpectedEof else ShortRead) && src == old(src)
      ensures var s := old(src).stream;
              this.err == Nil && |Prefix(s.cells)| < n <= |s.cells| ==>
                && out == Prefix(s.cells) && FirstLoss(s, err)
                && src == Skip(old(src), |Prefix(s.cells)| + err.lost)
      ensures err.LostData? ==> err.lost == FirstGapSize(old(buf.blocks))
    {
      if this.err != Nil {
        return "", this.err;
      }
      out, err := buf.ReadN(n);
      src := View();
      if err == ShortRead && eof {
        err := UnexpectedEof;
      }
    }

    method IndexAny(chars: set<char>) returns (pos: int, err: Error)
      requires Valid()
      ensures match ReadUntil(src, chars)
              case Got(text, rest) => err == Nil && pos == |text| - 1
              case Blocked => err == ShortRead && pos == -1
              case Failure => pos == -1 && Failed(src, this.err, err)
      ensures err.LostData? ==> err.lost == FirstGapSize(buf.blocks)
    {
      if this.err != Nil {
        return -1, this.err;
      }
      pos, err := buf.IndexAny(chars);
      if err == ShortRead && eof {
        err := UnexpectedEof;
      }
    }

    method PeekN(n: nat) returns (out: string, err: Error)
      requires Valid()
      ensures this.err != Nil ==> err == this.err
      ensures var s := src.stream;
              this.err == Nil && n <= |Prefix(s.cells)| ==> err == Nil && out == Prefix(s.cells)[..n]
      ensures var s := src.stream;
              this.err == Nil && |s.cells| < n ==> err == if eof then UnexpectedEof else ShortRead
      ensures var s := src.stream;
              this.err == Nil && |Prefix(s.cells)| < n <= |s.cells| ==> out == Prefix(s.cells) && FirstLoss(s, err)
      ensures err.LostData? ==> err.lost == FirstGapSize(buf.blocks)
    {
      if this.err != Nil {
        return "", this.err;
      }
      out, err := buf.PeekN(n);
      if err == ShortRead && eof {
        err := UnexpectedEof;
      }
    }

    method ReadLine() returns (out: string, err: Error)
      requires Valid()
      modifies `src, buf
      ensures Valid()
      ensures match ReadUntil(old(src), {'\n'})
              case Got(text, rest) => err == Nil && out == TrimEol(text) && src == rest
              case Blocked => err == ShortRead && src == old(src)
              case Failure =>
                && out == "" && Failed(old(src), this.err, err)
                && src == if err.LostData? then Skip(old(src), |Prefix(old(src).stream.cells)| + err.lost) else old(src)
      ensures err.LostData? ==> err.lost == FirstGapSize(old(buf.blocks))
    {
      if this.err != Nil {
        return "", this.err;
      }
      out, err := buf.ReadLine();
      src := View();
      if err == ShortRead && eof {
        err := UnexpectedEof;
      }
    }

    /** Ignores everything that still arrives, without giving the reader back. */
    method Close()
      requires Valid()
      modifies this, buf
      ensures Valid() && src == TextMachine.Close(old(src))
    {
      closed := true;
      buf.Reset();
      src := View();
    }
  }

  ghost function ReceiveAll(src: Source, rs: seq<Segment>): Source
    decreases rs
  {
    if rs == [] then src else ReceiveAll(Receive(src, rs[0].skip, rs[0].data), rs[1..])
  }

  lemma {:induction false} ReceiveNothing(src: Source, rs: seq<Segment>)
    requires src.EofSource? || src.closed || src.failed
    ensures ReceiveAll(src, rs) == src
    decreases rs
  {
    if rs != [] {
      ReceiveNothing(src, rs[1..]);
    }
  }

  // ---------- Sources: a reader, or null for the source that is always at its end ----------

  ghost predicate ValidSource(src: Reader?)
    reads src, if src == null then {} else {src.buf}
  {
    src != null ==> src.Valid()
  }

  ghost function ViewOf(src: Reader?): Source
    reads src
  {
    if src == null then EofSource else src.src
  }

  ghost function Objects(src: Reader?): set<object> {
    if src == null then {} else {src, src.buf}
  }

  /** How `run` treats an error. */
  function StatusOf(err: Error): Status {
    match err
    case Nil => Continue
    case ShortRead => Wait
    case Eof => Wait
    case _ => Fail
  }

  /** What reading a line from `src` gives and leaves; after a failure the contents are not determined. */
  ghost predicate LineRead(src: Source, line: string, rest: Source, err: Error) {
    match ReadUntil(src, {'\n'})
    case Got(text, after) => err == Nil && line == TrimEol(text) && rest == after
    case Blocked => StatusOf(err) == Wait && rest == src
    case Failure => StatusOf(err) == Fail && src.Live? && rest.Live?
  }

  /** The same for a word with its delimiter. */
  ghost predicate WordRead(src: Source, word: string, rest: Source, err: Error) {
    match ReadUntil(src, {' ', '\n'})
    case Got(text, after) => err == Nil && word == text && rest == after
    case Blocked => StatusOf(err) == Wait && rest == src
    case Failure => StatusOf(err) == Fail && src.Live? && rest.Live?
  }

  /** What peeking at the next byte gives. */
  ghost predicate Peeked(src: Source, first: string, err: Error) {
    match src
    case EofSource => err == Eof
    case Live(stream, _, eof, failed) =>
      if failed then err == ShortWrite
      else if stream.cells == [] then err == if eof then UnexpectedEof else ShortRead
      else if stream.cells[0].Lost? then err.LostData?
      else err == Nil && first == [stream.cells[0].b]
  }

  method TruncateSource(src: Reader?)
    requires ValidSource(src)
    modifies Objects(src)
    ensures ValidSource(src) && ViewOf(src) == Truncate(old(ViewOf(src)))
  {
    if src != null {
      src.Truncate();
    }
  }

  method ResetSource(src: Reader?)
    requires ValidSource(src)
    modifies Objects(src)
    ensures ValidSource(src) && ViewOf(src) == Reset(old(ViewOf(src)))
  {
    if src != null {
      src.Reset();
    }
  }

  method CloseSource(src: Reader?)
    requires ValidSource(src)
    modifies Objects(src)
    ensures ValidSource(src) && ViewOf(src) == Close(old(ViewOf(src)))
  {
    if src != null {
      src.Close();
    }
  }

  method DiscardSource(src: Reader?, n: int) returns (err: Error)
    requires ValidSource(src)
    modifies Objects(src)
    ensures ValidSource(src)
    ensures StatusOf(err) == if old(ViewOf(src)).Live? && old(ViewOf(src)).failed then Fail else Continue
    ensures ViewOf(src) == if err == Nil then Skip(old(ViewOf(src)), n) else old(ViewOf(src))
  {
    if src == null {
      return Nil;
    }
    var _, e := src.Discard(n);
    return e;
  }

  method ReceiveSource(src: Reader?, r: Segment)
    requires ValidSource(src)
    modifies Objects(src)
    ensures ValidSource(src) && ViewOf(src) == Receive(old(ViewOf(src)), r.skip, r.data)
  {
    if src != null {
      ghost var before := src.src;
      src.Reassembled([r]);
      assert ReceiveAll(before, [r]) == Receive(before, r.skip, r.data);
    }
  }

  /** The first byte without reading it; a gap in its place is reported as lost data. */
  method PeekFrom(src: Reader?) returns (first: string, err: Error)
    requires ValidSource(src)
    ensures Peeked(ViewOf(src), first, err)
  {
    if src == null {
      return "", Eof;
    }
    first, err := src.PeekN(1);
    assert Prefix(src.src.stream.cells) == "" <==> src.src.stream.cells == [] || src.src.stream.cells[0].Lost?;
  }

  method ReadLineFrom(src: Reader?) returns (line: string, err: Error)
    requires ValidSource(src)
    modifies Objects(src)
    ensures ValidSource(src)
    ensures LineRead(old(ViewOf(src)), line, ViewOf(src), err)
  {
    if src == null {
      return "", Eof;
    }
    line, err := src.ReadLine();
  }

  lemma ReadUntilSkips(src: Source, chars: set<char>)
    requires ReadUntil(src, chars).Got?
    ensures var Got(text, rest) := ReadUntil(src, chars);
            var p := Prefix(src.stream.cells);
            !src.failed && |text| <= |p| && text == p[..|text|] && rest == Skip(src, |text|)
  {
  }

  /**
   * Finds the next delimiter and reads up to and including it. Once IndexAny has succeeded, ReadN
   * of one more byte than the position cannot fail.
   */
  method ReadWord(src: Reader?) returns (word: string, err: Error)
    requires ValidSource(src)
    modifies Objects(src)
    ensures ValidSource(src)
    ensures WordRead(old(ViewOf(src)), word, ViewOf(src), err)
  {
    if src == null {
      return "", Eof;
    }
    var pos, e := src.IndexAny({' ', '\n'});
    if e != Nil {
      return "", e;
    }
    ReadUntilSkips(src.src, {' ', '\n'});
    word, err := src.ReadN(pos + 1);
  }
}
