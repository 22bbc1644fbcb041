/** Replaying a capture file at its original pace. Times are in nanoseconds. */
module Replay {
  import opened PacketBuffers

  datatype Status = Nil | Timeout | Eof | SourceError(code: int) | BufferFull(why: BufferError)

  const REPLAYER_TIMEOUT := 10_000_000
  const SNAP_LEN := 65535
  /** Stands for the zero time, which marks `first` as not yet set. */
  const ZERO_TIME := 0

  /** What the packet source does on its successive calls: a batch of packets, or an error and none. */
  datatype Outcome = Batch(packets: seq<PacketData>) | Failure(code: int)

  datatype Fate = Delivered | Dropped | Discarded

  function Mark(ps: seq<PacketData>, fate: Fate): seq<(PacketData, Fate)> {
    seq(|ps|, i requires 0 <= i < |ps| => (ps[i], fate))
  }

  function Unmark(log: seq<(PacketData, Fate)>): seq<PacketData> {
    seq(|log|, i requires 0 <= i < |log| => log[i].0)
  }

  ghost function Coming(script: seq<Outcome>): seq<PacketData> {
    if script == [] then []
    else (if script[0].Batch? then script[0].packets else []) + Coming(script[1..])
  }

  ghost predicate AllBatches(script: seq<Outcome>) {
    script == [] || (script[0].Batch? && AllBatches(script[1..]))
  }

  lemma {:induction false} BatchesConcat(a: seq<Outcome>, b: seq<Outcome>)
    requires AllBatches(a) && AllBatches(b)
    ensures AllBatches(a + b)
  {
    if a == [] {
      assert a + b == b;
    } else {
      BatchesConcat(a[1..], b);
      assert (a + b)[1..] == a[1..] + b;
    }
  }

  /**
    What a call has read of the source's script: batches, and after them the failure it returns, or the
    whole script if it returns the end of the file.
   */
  ghost predicate Answers(was: seq<Outcome>, now: seq<Outcome>, status: Status) {
    var n := |was| - |now| - if status.SourceError? then 1 else 0;
    && 0 <= n <= |was| && |now| <= |was| && now == was[|was| - |now|..]
    && AllBatches(was[..n])
    && (status.SourceError? ==> was[n] == Failure(status.code))
    && (status == Eof ==> now == [])
  }

  ghost predicate InOrder(ps: seq<PacketData>) {
    |ps| < 2 || (ps[0].info.timestamp <= ps[1].info.timestamp && InOrder(ps[1..]))
  }

  lemma {:induction false} FirstIsFirst(ps: seq<PacketData>, i: nat)
    requires InOrder(ps) && i < |ps|
    ensures ps[0].info.timestamp <= ps[i].info.timestamp
  {
    if i > 0 {
      FirstIsFirst(ps[1..], i - 1);
    }
  }

  /** Any stretch of packets in order is in order. */
  lemma {:induction false} StretchInOrder(ps: seq<PacketData>, from: nat, to: nat)
    requires InOrder(ps) && from <= to <= |ps|
    ensures InOrder(ps[from..to])
    decreases |ps|
  {
    if from > 0 {
      StretchInOrder(ps[1..], from - 1, to - 1);
      assert ps[1..][from - 1..to - 1] == ps[from..to];
    } else if to > 1 {
      StretchInOrder(ps[1..], 0, to - 1);
      assert ps[0..to][1..] == ps[1..][0..to - 1];
    }
  }

  /** The packets that replaying has dealt with, those in the buffer from the cursor on, and the source's. */
  datatype Ledger = Ledger(
    all: seq<PacketData>,
    log: seq<(PacketData, Fate)>,
    packets: seq<PacketData>,
    cursor: nat,
    script: seq<Outcome>
  )

  ghost function Rest(packets: seq<PacketData>, cursor: nat): seq<PacketData> {
    if cursor == 0 then packets else if cursor <= |packets| then packets[cursor..] else []
  }

  /** Every packet has got its fate, is pending, or is still to come, in source order. */
  ghost predicate Balanced(l: Ledger) {
    l.all == Unmark(l.log) + (Rest(l.packets, l.cursor) + Coming(l.script))
  }

  /** Balanced as a function value, unfolded only where Balanced itself is mentioned. */
  ghost predicate Balances(balanced: Ledger -> bool) {
    forall l {:trigger Balanced(l)} :: balanced(l) == Balanced(l)
  }

  /** The buffer is used up and the source gives a batch, or nothing. */
  lemma FillBalances(l: Ledger, packets: seq<PacketData>, cursor: nat, script: seq<Outcome>)
    requires Balanced(l) && l.cursor >= |l.packets|
    requires Rest(packets, cursor) + Coming(script) == Coming(l.script)
    ensures Balanced(Ledger(l.all, l.log, packets, cursor, script))
  {
    assert Rest(l.packets, l.cursor) == [];
    assert [] + Coming(l.script) == Coming(l.script);
  }

  /** The packets that the cursor has passed get their fate. */
  lemma RecordBalances(l: Ledger, cursor: nat, fate: Fate)
    requires Balanced(l) && l.cursor <= cursor <= |l.packets|
    ensures Balanced(l.(cursor := cursor, log := l.log + Mark(l.packets[l.cursor..cursor], fate)))
  {
    var settled, rest := l.packets[l.cursor..cursor], l.packets[cursor..];
    assert l.packets[l.cursor..] == settled + rest;
    UnmarkMark(l.log, settled, fate);
    Regroup(Unmark(l.log), settled, rest, Coming(l.script));
  }

  /** A batch that a buffer of that capacity can hold. */
  predicate FitsBuffer(ps: seq<PacketData>, maxPackets: nat, maxBytes: nat) {
    |ps| <= maxPackets && Bytes(ps) <= maxBytes
  }

  function Bytes(ps: seq<PacketData>): nat {
    if ps == [] then 0 else Bytes(ps[..|ps| - 1]) + |ps[|ps| - 1].data|
  }

  lemma {:induction false} BytesPrefix(ps: seq<PacketData>, n: nat)
    requires n <= |ps|
    ensures Bytes(ps[..n]) <= Bytes(ps)
    decreases |ps|
  {
    if n == |ps| {
      assert ps[..n] == ps;
    } else {
      BytesPrefix(ps[..|ps| - 1], n);
      assert ps[..|ps| - 1][..n] == ps[..n];
    }
  }

  lemma BytesSnoc(ps: seq<PacketData>, n: nat)
    requires n < |ps|
    ensures ps[..n + 1] == ps[..n] + [ps[n]]
    ensures Bytes(ps[..n + 1]) == Bytes(ps[..n]) + |ps[n].data| && Bytes(ps[..n + 1]) <= Bytes(ps)
  {
    assert ps[..n + 1][..n] == ps[..n];
    BytesPrefix(ps, n + 1);
  }

  /** A packet source that follows a script, which may be any. */
  class Source {
    var script: seq<Outcome>

    ghost predicate Serves(maxPackets: nat, maxBytes: nat)
      reads this
    {
      forall i :: 0 <= i < |script| && script[i].Batch? ==>
        script[i].packets != [] && FitsBuffer(script[i].packets, maxPackets, maxBytes)
    }

    constructor (script: seq<Outcome>)
      ensures this.script == script
    {
      this.script := script;
    }

    method CollectPackets(pb: PacketBuffer) returns (status: Status)
      requires pb.Valid() && Serves(pb.PacketCap(), pb.blocks.data.Length)
      modifies this, pb.Repr()
      ensures pb.Valid() && Serves(pb.PacketCap(), pb.blocks.data.Length)
      ensures if old(script) == [] then status == Eof && script == [] else script == old(script)[1..]
      ensures old(script) != [] && old(script)[0].Failure? ==> status == SourceError(old(script)[0].code)
      ensures old(script) != [] && old(script)[0].Batch? ==> status == Nil && pb.packets == old(script)[0].packets
      ensures status != Nil ==> pb.packets == [] && (status == Eof || status.SourceError?)
      ensures status == Nil ==> pb.packets != []
    {
      pb.Clear();
      if script == [] {
        return Eof;
      }
      var outcome := script[0];
      script := script[1..];
      if outcome.Failure? {
        return SourceError(outcome.code);
      }
      for i := 0 to |outcome.packets|
        invariant pb.Valid() && pb.packets == outcome.packets[..i] && script == old(script)[1..]
        invariant pb.Remaining() == pb.blocks.data.Length - Bytes(outcome.packets[..i])
      {
        BytesSnoc(outcome.packets, i);
        var err := pb.Append(outcome.packets[i]);
      }
      assert outcome.packets[..|outcome.packets|] == outcome.packets;
      return Nil;
    }
  }

  class Replayer {
    const buf: PacketBuffer
    const src: Source
    var first: int
    var cursor: nat
    var received: nat
    var dropped: nat
    /** What became of every packet taken from the buffer so far, in source order. */
    ghost var log: seq<(PacketData, Fate)>
    /** Everything the source had to give when this replayer was made. */
    ghost const all: seq<PacketData>
    ghost const balanced: Ledger -> bool

    ghost predicate Separate()
      reads this
    {
      this !in buf.Repr() && src as object !in buf.Repr() && src as object != this
    }

    ghost predicate Valid()
      reads this, buf.Repr(), src
    {
      && Separate() && buf.Valid()
      && src.Serves(buf.PacketCap(), buf.blocks.data.Length)
      && Balances(balanced) && balanced(Books())
    }

    ghost function Books(): Ledger
      reads this, buf, src
    {
      Ledger(all, log, buf.packets, cursor, src.script)
    }

    /** What is in the buffer and not yet given a fate, and what the source still has. */
    ghost function Upcoming(): seq<PacketData>
      reads this, buf, src
    {
      Rest(buf.packets, cursor) + Coming(src.script)
    }

    constructor (src: Source, batchSize: nat, maxBytes: nat)
      requires batchSize > 0 && src.Serves(batchSize, maxBytes)
      ensures Valid() && log == [] && all == Coming(src.script) && this.src == src
      ensures fresh(buf.Repr())
    {
      buf := new PacketBuffer(batchSize, maxBytes);
      this.src := src;
      first, cursor, received, dropped := ZERO_TIME, 0, 0, 0;
      log := [];
      all := Coming(src.script);
      balanced := l => Balanced(l);
      new;
      assert Balanced(Books());
    }

    /** Takes the next batch from the source; only called when the last one is used up. */
    method Fill() returns (status: Status)
      requires Valid() && cursor >= |buf.packets|
      modifies `first, `cursor, buf.Repr(), src
      ensures Valid()
      ensures status == Nil ==> cursor == 0 && buf.packets != [] && |src.script| < old(|src.script|)
      ensures status != Nil ==> buf.packets == [] && (status == Eof || status.SourceError?)
      ensures Answers(old(src.script), src.script, status)
      ensures status == Nil ==> old(src.script) != [] && old(src.script)[0] == Batch(buf.packets)
      ensures first == if status == Nil && old(first) == ZERO_TIME then buf.packets[0].info.timestamp else old(first)
    {
      assert Balanced(Books());
      ghost var before := Books();
      status := src.CollectPackets(buf);
      if status != Nil {
        FillBalances(before, buf.packets, cursor, src.script);
        return;
      }
      cursor := 0;
      FillBalances(before, buf.packets, cursor, src.script);
      if first == ZERO_TIME {
        var p := buf.Packet(0);
        first := p.info.timestamp;
      }
    }

    /** Records what became of the packets between `from` and the cursor. */
    ghost method Record(from: nat, fate: Fate)
      requires Separate() && buf.Valid() && src.Serves(buf.PacketCap(), buf.blocks.data.Length)
      requires from == cursor || from <= cursor <= |buf.packets|
      requires Balances(balanced) && balanced(Books().(cursor := from))
      modifies `log
      ensures Valid()
      ensures log == old(log) + Mark(if from <= cursor <= |buf.packets| then buf.packets[from..cursor] else [], fate)
    {
      assert Balanced(Books().(cursor := from));
      if from <= cursor <= |buf.packets| {
        RecordBalances(Books().(cursor := from), cursor, fate);
        log := log + Mark(buf.packets[from..cursor], fate);
      } else {
        MarkNothing(fate);
      }
    }

    /** Drops the packets at the cursor whose time has passed. */
    method DropExpired(elapsed: int) returns (ghost gone: seq<PacketData>)
      requires Valid()
      modifies `cursor, `dropped, `log
      ensures Valid()
      ensures log == old(log) + Mark(gone, Dropped) && dropped == old(dropped) + |gone|
      ensures forall p :: p in gone ==> p.info.timestamp <= first + elapsed - 5_000_000
      ensures cursor < |buf.packets| ==> buf.packets[cursor].info.timestamp > first + elapsed - 5_000_000
    {
      var dropUntil := first + elapsed - REPLAYER_TIMEOUT / 2;
      ghost var from := cursor;
      var l := buf.PacketLen();
      while cursor < l
        invariant from == cursor || from <= cursor <= l
        invariant dropped == old(dropped) + cursor - from && log == old(log)
        invariant forall i :: from <= i < cursor && i < l ==> buf.packets[i].info.timestamp <= dropUntil
      {
        var p := buf.Packet(cursor);
        if p.info.timestamp > dropUntil {
          break;
        }
        dropped := dropped + 1;
        cursor := cursor + 1;
      }
      gone := if from <= cursor <= l then buf.packets[from..cursor] else [];
      Record(from, Dropped);
    }

    /** The caller's buffer shares nothing with this replayer. */
    ghost predicate Apart(pb: PacketBuffer)
      reads this
    {
      pb.Repr() !! buf.Repr() && this !in pb.Repr() && src as object !in pb.Repr()
    }

    /** Nothing that is buffered, due and fits is held back. */
    ghost predicate StopsRightly(pb: PacketBuffer, elapsed: int)
      reads this, buf, pb, pb.blocks
    {
      || cursor >= |buf.packets|
      || pb.Remaining() < 65535
      || buf.packets[cursor].info.timestamp > first + elapsed + 10_000_000
    }

    /**
      What a delivery returns: a timeout exactly if the very first packet is not due, a full buffer only if
      the packet at the cursor is due and does not fit, and otherwise nil.
     */
    ghost predicate Told(pb: PacketBuffer, elapsed: int, status: Status)
      reads this, buf, buf.blocks, pb, pb.blocks
    {
      if status.BufferFull? then
        && cursor < |buf.packets| && buf.packets[cursor].info.timestamp <= first + elapsed + 10_000_000
        && pb.Remaining() >= 65535
        && (|pb.packets| >= pb.PacketCap() || |buf.packets[cursor].data| > pb.Remaining())
      else
        && StopsRightly(pb, elapsed) && status in {Nil, Timeout}
        && (status == Timeout <==> pb.packets == [] && cursor < |buf.packets| && pb.Remaining() >= 65535)
    }

    /** Copies due packets from the buffer into pb until one is not due yet or pb is full. */
    method Deliver(pb: PacketBuffer, elapsed: int) returns (status: Status)
      requires Valid() && cursor < |buf.packets| && pb.Valid() && pb.packets == [] && Apart(pb)
      modifies `cursor, `received, `log, pb.Repr()
      ensures Valid() && pb.Valid()
      ensures log == old(log) + Mark(pb.packets, Delivered)
      ensures pb.packets <= old(buf.packets[cursor..])
      ensures forall p :: p in pb.packets ==> p.info.timestamp <= first + elapsed + 10_000_000
      ensures InOrder(old(Rest(buf.packets, cursor))) && !old(Late(buf.packets[cursor], first, elapsed)) ==>
                forall p :: p in pb.packets ==> !Late(p, first, elapsed)
      ensures Told(pb, elapsed, status)
      ensures received == old(received) + |pb.packets|
                          + if cursor < |buf.packets| && pb.Remaining() >= 65535 then 1 else 0
    {
      ghost var from, due := cursor, buf.packets;
      status := CopyDue(pb, elapsed);
      Record(from, Delivered);
      OnTime(pb.packets, due, from, first, elapsed);
    }

    method CopyDue(pb: PacketBuffer, elapsed: int) returns (status: Status)
      requires buf.Valid() && cursor < |buf.packets| && pb.Valid() && pb.packets == [] && Apart(pb)
      modifies `cursor, `received, pb.Repr()
      ensures pb.Valid() && old(cursor) <= cursor <= |buf.packets| && pb.packets == buf.packets[old(cursor)..cursor]
      ensures forall p :: p in pb.packets ==> p.info.timestamp <= first + elapsed + 10_000_000
      ensures Told(pb, elapsed, status)
      ensures received == old(received) + |pb.packets|
                          + if cursor < |buf.packets| && pb.Remaining() >= 65535 then 1 else 0
    {
      var l := buf.PacketLen();
      var writeUntil := first + elapsed + REPLAYER_TIMEOUT;
      ghost var from, due := cursor, buf.packets;
      while cursor < l && pb.Remaining() >= SNAP_LEN
        invariant buf.Valid() && buf.packets == due && pb.Valid()
        invariant from <= cursor <= l && pb.packets == due[from..cursor]
        invariant forall p :: p in pb.packets ==> p.info.timestamp <= writeUntil
        invariant received == old(received) + |pb.packets|
      {
        var more;
        more, status := CopyNext(pb, writeUntil);
        if !more {
          return;
        }
        SliceSnoc(due, from, cursor - 1);
      }
      return Nil;
    }

    /** One round of the loop: the packet at the cursor is copied, or the reason it is not is returned. */
    method CopyNext(pb: PacketBuffer, writeUntil: int) returns (more: bool, status: Status)
      requires buf.Valid() && cursor < |buf.packets| && pb.Valid() && Apart(pb)
      modifies `cursor, `received, pb.Repr()
      ensures pb.Valid() && received == old(received) + 1
      ensures more <==> cursor == old(cursor) + 1
      ensures more ==> buf.packets[old(cursor)].info.timestamp <= writeUntil
                       && pb.packets == old(pb.packets) + [buf.packets[old(cursor)]]
      ensures !more ==>
                && cursor == old(cursor) && pb.packets == old(pb.packets) && pb.Remaining() == old(pb.Remaining())
                && if status.BufferFull? then
                     buf.packets[cursor].info.timestamp <= writeUntil
                     && (|pb.packets| >= pb.PacketCap() || |buf.packets[cursor].data| > pb.Remaining())
                   else
                     && buf.packets[cursor].info.timestamp > writeUntil
                     && status == if pb.packets == [] then Timeout else Nil
    {
      var p := buf.Packet(cursor);
      received := received + 1;
      if p.info.timestamp > writeUntil {
        var n := pb.PacketLen();
        return false, if n == 0 then Timeout else Nil;
      }
      var err := pb.Append(p);
      if err != Ok {
        return false, BufferFull(err);
      }
      cursor := cursor + 1;
      return true, Nil;
    }

    /**
      One batch for the caller: first drops what is too late, reading on from the source as long as
      everything is, then delivers what is due. `elapsed` is the time since the first call.
     */
    method CollectPackets(pb: PacketBuffer, elapsed: int) returns (status: Status, ghost gone: seq<PacketData>)
      requires Valid() && pb.Valid() && Apart(pb)
      modifies `first, `cursor, `received, `dropped, `log, buf.Repr(), src, pb.Repr()
      ensures Valid() && pb.Valid()
      ensures log == old(log) + Mark(gone, Dropped) + Mark(pb.packets, Delivered)
      ensures dropped == old(dropped) + |gone|
      ensures forall p :: p in gone ==> Late(p, first, elapsed) || Late(p, old(first), elapsed)
      ensures forall p :: p in pb.packets ==> p.info.timestamp <= first + elapsed + 10_000_000
      ensures InOrder(old(Upcoming())) ==> forall p :: p in pb.packets ==> !Late(p, first, elapsed)
      ensures status != Nil && !status.BufferFull? ==> pb.packets == []
      ensures Answers(old(src.script), src.script, status)
      ensures if status == Eof || status.SourceError? then buf.packets == [] else Told(pb, elapsed, status)
      ensures status == Eof ==> Upcoming() == []
      ensures received == old(received) + |pb.packets|
                          + if cursor < |buf.packets| && pb.Remaining() >= 65535 then 1 else 0
      ensures first == old(first) || old(first) == ZERO_TIME
    {
      pb.Clear();
      status, gone := CollectInto(pb, elapsed);
    }

    /** The same with an empty buffer to fill. */
    method CollectInto(pb: PacketBuffer, elapsed: int) returns (status: Status, ghost gone: seq<PacketData>)
      requires Valid() && pb.Valid() && pb.packets == [] && Apart(pb)
      modifies `first, `cursor, `received, `dropped, `log, buf.Repr(), src, pb.Repr()
      ensures Valid() && pb.Valid()
      ensures log == old(log) + Mark(gone, Dropped) + Mark(pb.packets, Delivered)
      ensures dropped == old(dropped) + |gone|
      ensures forall p :: p in gone ==> Late(p, first, elapsed) || Late(p, old(first), elapsed)
      ensures forall p :: p in pb.packets ==> p.info.timestamp <= first + elapsed + 10_000_000
      ensures InOrder(old(Upcoming())) ==> forall p :: p in pb.packets ==> !Late(p, first, elapsed)
      ensures status != Nil && !status.BufferFull? ==> pb.packets == []
      ensures Answers(old(src.script), src.script, status)
      ensures if status == Eof || status.SourceError? then buf.packets == [] else Told(pb, elapsed, status)
      ensures status == Eof ==> Upcoming() == []
      ensures received == old(received) + |pb.packets|
                          + if cursor < |buf.packets| && pb.Remaining() >= 65535 then 1 else 0
      ensures first == old(first) || old(first) == ZERO_TIME
    {
      status, gone := SkipLateInOrder(elapsed);
      if status != Nil {
        MarkNothing(Delivered);
        return;
      }
      status := Deliver(pb, elapsed);
    }

    /** SkipLate, with what is left in order if what was upcoming was. */
    method SkipLateInOrder(elapsed: int) returns (status: Status, ghost gone: seq<PacketData>)
      requires Valid()
      modifies `first, `cursor, `dropped, `log, buf.Repr(), src
      ensures Valid()
      ensures log == old(log) + Mark(gone, Dropped) && dropped == old(dropped) + |gone|
      ensures forall p :: p in gone ==> Late(p, first, elapsed) || Late(p, old(first), elapsed)
      ensures first == old(first) || old(first) == ZERO_TIME
      ensures if status == Nil then cursor < |buf.packets| && !Late(buf.packets[cursor], first, elapsed)
              else buf.packets == [] && (status == Eof || status.SourceError?)
      ensures Answers(old(src.script), src.script, status)
      ensures InOrder(old(Upcoming())) ==> InOrder(Rest(buf.packets, cursor))
    {
      assert Balanced(Books());
      status, gone := SkipLate(elapsed);
      assert Balanced(Books());
      DueInOrder(old(Books()), Books(), gone);
    }

    /** Drops late packets and refills until there is one that is not late, or the source has no more. */
    method SkipLate(elapsed: int) returns (status: Status, ghost gone: seq<PacketData>)
      requires Valid()
      modifies `first, `cursor, `dropped, `log, buf.Repr(), src
      ensures Valid()
      ensures log == old(log) + Mark(gone, Dropped) && dropped == old(dropped) + |gone|
      ensures forall p :: p in gone ==> Late(p, first, elapsed) || Late(p, old(first), elapsed)
      ensures first == old(first) || old(first) == ZERO_TIME
      ensures if status == Nil then cursor < |buf.packets| && !Late(buf.packets[cursor], first, elapsed)
              else buf.packets == [] && (status == Eof || status.SourceError?)
      ensures Answers(old(src.script), src.script, status)
    {
      gone := DropExpired(elapsed);
      var l := buf.PacketLen();
      while cursor >= l
        invariant Valid() && l == |buf.packets|
        invariant log == old(log) + Mark(gone, Dropped) && dropped == old(dropped) + |gone|
        invariant first == old(first) || old(first) == ZERO_TIME
        invariant forall p :: p in gone ==> Late(p, first, elapsed) || Late(p, old(first), elapsed)
        invariant cursor < l ==> !Late(buf.packets[cursor], first, elapsed)
        invariant Answers(old(src.script), src.script, Nil)
        decreases |src.script|
      {
        ghost var more, between := [], src.script;
        status, more := Refill(elapsed);
        AnswersOn(old(src.script), between, src.script, status);
        if status != Nil {
          return;
        }
        GoneOn(old(log), log, gone, more);
        gone := gone + more;
        l := buf.PacketLen();
      }
      status := Nil;
    }

    /** Takes the next batch and drops what is late in it. */
    method Refill(elapsed: int) returns (status: Status, ghost gone: seq<PacketData>)
      requires Valid() && cursor >= |buf.packets|
      modifies `first, `cursor, `dropped, `log, buf.Repr(), src
      ensures Valid()
      ensures log == old(log) + Mark(gone, Dropped) && dropped == old(dropped) + |gone|
      ensures forall p :: p in gone ==> Late(p, first, elapsed)
      ensures first == old(first) || old(first) == ZERO_TIME
      ensures status == Nil ==> |src.script| < old(|src.script|)
      ensures status == Nil && cursor < |buf.packets| ==> !Late(buf.packets[cursor], first, elapsed)
      ensures status != Nil ==> gone == [] && first == old(first) && buf.packets == []
      ensures status in {Nil, Eof} || status.SourceError?
      ensures Answers(old(src.script), src.script, status)
    {
      gone := [];
      status := Fill();
      if status != Nil {
        MarkNothing(Dropped);
        return;
      }
      gone := DropExpired(elapsed);
    }

    /** Skips one packet if it is due. */
    method DiscardPacket(elapsed: int) returns (status: Status)
      requires Valid()
      modifies `first, `cursor, `received, `log, buf.Repr(), src
      ensures Valid()
      ensures if status == Nil then
                && |log| == old(|log|) + 1 && log[..old(|log|)] == old(log) && log[old(|log|)].1 == Discarded
                && log[old(|log|)].0.info.timestamp - first <= elapsed + 10_000_000
              else log == old(log)
      ensures received == old(received) + if status == Nil then 1 else 0
      ensures Answers(old(src.script), src.script, status) && !status.BufferFull?
      ensures status == Timeout ==>
                cursor < |buf.packets| && buf.packets[cursor].info.timestamp > first + elapsed + 10_000_000
      ensures status == Eof ==> Upcoming() == []
    {
      var l := buf.PacketLen();
      if cursor >= l {
        status := Fill();
        if status != Nil {
          return;
        }
      }
      status := DiscardDue(elapsed);
    }

    /** Skips the packet at the cursor if it is due. */
    method DiscardDue(elapsed: int) returns (status: Status)
      requires Valid() && cursor < |buf.packets|
      modifies `cursor, `received, `log
      ensures Valid() && status in {Nil, Timeout}
      ensures if status == Nil then
                && log == old(log) + [(buf.packets[old(cursor)], Discarded)] && received == old(received) + 1
                && buf.packets[old(cursor)].info.timestamp - first <= elapsed + 10_000_000
              else
                && log == old(log) && received == old(received) && cursor == old(cursor)
                && buf.packets[cursor].info.timestamp > first + elapsed + 10_000_000
    {
      var p := buf.Packet(cursor);
      var offset := p.info.timestamp - first;
      if offset > elapsed + REPLAYER_TIMEOUT {
        return Timeout;
      }
      ghost var from := cursor;
      cursor := cursor + 1;
      received := received + 1;
      OneSlice(buf.packets, from);
      Record(from, Discarded);
      return Nil;
    }
  }

  /** A packet whose time is more than half a timeout ago. */
  predicate Late(p: PacketData, first: int, elapsed: int) {
    p.info.timestamp <= first + elapsed - 5_000_000
  }

  /** If the first packet due is not late, and they are in order, none of them is. */
  lemma OnTime(ps: seq<PacketData>, packets: seq<PacketData>, cursor: nat, first: int, elapsed: int)
    requires cursor < |packets| && ps <= packets[cursor..]
    ensures InOrder(Rest(packets, cursor)) && !Late(packets[cursor], first, elapsed) ==>
              forall p :: p in ps ==> !Late(p, first, elapsed)
  {
    var due := packets[cursor..];
    assert Rest(packets, cursor) == due;
    if InOrder(due) && !Late(due[0], first, elapsed) {
      forall i | 0 <= i < |ps|
        ensures !Late(ps[i], first, elapsed)
      {
        assert ps[i] == due[i];
        FirstIsFirst(due, i);
      }
    }
  }

  /** Reading on after batches only. */
  lemma AnswersOn(was: seq<Outcome>, between: seq<Outcome>, now: seq<Outcome>, status: Status)
    requires Answers(was, between, Nil) && Answers(between, now, status)
    ensures Answers(was, now, status)
  {
    var n := |was| - |between|;
    var m := |between| - |now| - if status.SourceError? then 1 else 0;
    BatchesConcat(was[..n], between[..m]);
    assert was[..n + m] == was[..n] + between[..m];
  }

  lemma OneSlice(ps: seq<PacketData>, i: nat)
    requires i < |ps|
    ensures ps[i..i + 1] == [ps[i]] && Mark(ps[i..i + 1], Discarded) == [(ps[i], Discarded)]
  {
  }

  lemma SliceSnoc(ps: seq<PacketData>, from: nat, to: nat)
    requires from <= to < |ps|
    ensures ps[from..to + 1] == ps[from..to] + [ps[to]]
  {
  }

  lemma MarkConcat(a: seq<PacketData>, b: seq<PacketData>, fate: Fate)
    ensures Mark(a + b, fate) == Mark(a, fate) + Mark(b, fate)
  {
  }

  /** Dropping more after what has been dropped so far. */
  lemma GoneOn(was: seq<(PacketData, Fate)>, log: seq<(PacketData, Fate)>, gone: seq<PacketData>, more: seq<PacketData>)
    requires log == was + Mark(gone, Dropped) + Mark(more, Dropped)
    ensures log == was + Mark(gone + more, Dropped)
  {
    MarkConcat(gone, more, Dropped);
  }

  lemma MarkNothing(fate: Fate)
    ensures Mark([], fate) == []
  {
  }

  lemma UnmarkMark(log: seq<(PacketData, Fate)>, ps: seq<PacketData>, fate: Fate)
    ensures Unmark(log + Mark(ps, fate)) == Unmark(log) + ps
  {
  }

  lemma Regroup(a: seq<PacketData>, b: seq<PacketData>, c: seq<PacketData>, d: seq<PacketData>)
    ensures a + ((b + c) + d) == (a + b) + (c + d)
  {
  }

  lemma DueInOrder(l: Ledger, l': Ledger, gone: seq<PacketData>)
    requires Balanced(l) && Balanced(l') && l'.all == l.all && l'.log == l.log + Mark(gone, Dropped)
    ensures InOrder(Rest(l.packets, l.cursor) + Coming(l.script)) ==> InOrder(Rest(l'.packets, l'.cursor))
  {
    var upcoming := Rest(l.packets, l.cursor) + Coming(l.script);
    if InOrder(upcoming) {
      UnmarkMark(l.log, gone, Dropped);
      LaterIsLater(Unmark(l.log), upcoming, gone, Rest(l'.packets, l'.cursor), Coming(l'.script));
    }
  }

  /** What is due next is a stretch of what was upcoming, so it is in order if that was. */
  lemma LaterIsLater(before: seq<PacketData>, upcoming: seq<PacketData>, gone: seq<PacketData>,
                     due: seq<PacketData>, coming: seq<PacketData>)
    requires InOrder(upcoming) && (before + gone) + (due + coming) == before + upcoming
    ensures InOrder(due)
  {
    var from, to := |gone|, |gone| + |due|;
    forall i | 0 <= i < |due|
      ensures due[i] == upcoming[from..to][i]
    {
      assert ((before + gone) + (due + coming))[|before| + |gone| + i] == due[i];
    }
    assert due == upcoming[from..to];
    StretchInOrder(upcoming, from, to);
  }
}
