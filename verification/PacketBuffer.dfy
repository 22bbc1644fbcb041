/** Captured packets stored end to end in one fixed array. */
module PacketBuffers {
  datatype BufferError = Ok | BytesFull | BlocksFull

  ghost function Join(blocks: seq<string>): string {
    if blocks == [] then "" else Join(blocks[..|blocks| - 1]) + blocks[|blocks| - 1]
  }

  lemma JoinSnoc(blocks: seq<string>, block: string)
    ensures Join(blocks + [block]) == Join(blocks) + block
  {
    assert (blocks + [block])[..|blocks|] == blocks;
  }

  /** Block n lies between the end of the first n blocks and the end of the first n + 1. */
  lemma {:induction false} JoinSlice(blocks: seq<string>, n: nat)
    requires n < |blocks|
    ensures |Join(blocks[..n])| <= |Join(blocks[..n + 1])| <= |Join(blocks)|
    ensures Join(blocks)[|Join(blocks[..n])|..|Join(blocks[..n + 1])|] == blocks[n]
    ensures blocks[..0] == []
  {
    var last := |blocks| - 1;
    if n == last {
      assert blocks[..n + 1] == blocks;
    } else {
      JoinSlice(blocks[..last], n);
      assert blocks[..last][..n] == blocks[..n] && blocks[..last][..n + 1] == blocks[..n + 1];
    }
  }

  /** The contents of a block buffer: the two arrays, how much of them is in use, and the blocks this stands for. */
  datatype Image = Image(offsets: seq<nat>, data: string, count: nat, used: nat, blocks: seq<string>)

  ghost predicate Coherent(v: Image) {
    && v.count <= |v.offsets| && v.used <= |v.data|
    && |v.blocks| == v.count
    && v.data[..v.used] == Join(v.blocks)
    && forall i :: 0 <= i < v.count ==> v.offsets[i] == |Join(v.blocks[..i + 1])|
  }

  /** Coherent as a function value, unfolded only where Coherent itself is mentioned. */
  ghost predicate Defined(coherent: Image -> bool) {
    forall v {:trigger Coherent(v)} :: coherent(v) == Coherent(v)
  }

  lemma AppendCoherent(v: Image, w: Image, block: string)
    requires Coherent(v) && v.count < |v.offsets| && v.used + |block| <= |v.data|
    requires w.count == v.count + 1 && w.used == v.used + |block| && w.blocks == v.blocks + [block]
    requires w.offsets == v.offsets[v.count := w.used]
    requires |w.data| == |v.data| && w.data[..w.used] == v.data[..v.used] + block
    ensures Coherent(w)
  {
    JoinSnoc(v.blocks, block);
    assert w.blocks[..w.count] == w.blocks;
    forall i | 0 <= i < v.count
      ensures w.offsets[i] == |Join(w.blocks[..i + 1])|
    {
      assert w.blocks[..i + 1] == v.blocks[..i + 1];
    }
  }

  /** A sequence of byte blocks in compact form: block n ends at offsets[n] in data. */
  class BlockBuffer {
    const offsets: array<nat>
    const data: array<char>
    /** The lengths of the two slices; the array lengths are their capacities. */
    var count: nat
    var used: nat
    ghost var blocks: seq<string>
    ghost const coherent: Image -> bool

    ghost predicate Valid()
      reads this, offsets, data
    {
      && Defined(coherent) && coherent(Fields())
      && |blocks| == count <= offsets.Length && used <= data.Length
    }

    ghost function Fields(): Image
      reads this, offsets, data
    {
      Image(offsets[..], data[..], count, used, blocks)
    }

    constructor (maxBlocks: nat, maxBytes: nat)
      ensures Valid() && blocks == [] && fresh(offsets) && fresh(data)
      ensures offsets.Length == maxBlocks && data.Length == maxBytes && BytesRemaining() == maxBytes
    {
      offsets := new nat[maxBlocks];
      data := new char[maxBytes];
      count, used, blocks := 0, 0, [];
      coherent := v => Coherent(v);
      new;
      assert Coherent(Fields());
    }

    function BytesRemaining(): int
      reads this
    {
      data.Length - used
    }

    method Block(n: nat) returns (block: string)
      requires Valid() && n < |blocks|
      ensures block == blocks[n]
    {
      assert Coherent(Fields());
      var start := 0;
      if n > 0 {
        start := offsets[n - 1];
      }
      var end := offsets[n];
      JoinSlice(blocks, n);
      block := data[start..end];
      assert block == data[..][..used][start..end];
    }

    method Clear()
      requires Valid()
      modifies this
      ensures Valid() && blocks == [] && BytesRemaining() == data.Length
    {
      count := 0;
      used := 0;
      blocks := [];
      assert Coherent(Fields());
    }

    /** Copies a block behind the others; a full buffer is left unchanged. */
    method Append(block: string) returns (err: BufferError)
      requires Valid() && offsets.Length > 0
      modifies this, offsets, data
      ensures Valid()
      ensures err == if old(|blocks|) >= offsets.Length then BlocksFull
                     else if |block| > old(BytesRemaining()) then BytesFull
                     else Ok
      ensures blocks == old(blocks) + if err.Ok? then [block] else []
      ensures BytesRemaining() == old(BytesRemaining()) - if err.Ok? then |block| else 0
    {
      assert Coherent(Fields());
      ghost var before := Fields();
      if count >= offsets.Length {
        return BlocksFull;
      }
      var start, end := used, used + |block|;
      if end > data.Length {
        return BytesFull;
      }
      forall i | 0 <= i < |block| {
        data[start + i] := block[i];
      }
      assert data[..][..end] == before.data[..start] + block;
      used := end;
      offsets[count] := end;
      assert offsets[..] == before.offsets[count := end];
      count := count + 1;
      blocks := blocks + [block];
      AppendCoherent(before, Fields(), block);
      return Ok;
    }
  }

  datatype CaptureInfo = CaptureInfo(timestamp: int, captureLength: int, length: int)
  datatype PacketData = PacketData(info: CaptureInfo, data: string)

  /** A block buffer with the capture information of each packet beside it. */
  class PacketBuffer {
    const blocks: BlockBuffer
    const cis: array<CaptureInfo>
    ghost var packets: seq<PacketData>

    ghost function Repr(): set<object> {
      {this, blocks, blocks.offsets, blocks.data, cis}
    }

    ghost predicate Valid()
      reads Repr()
    {
      && blocks.Valid() && cis.Length == blocks.offsets.Length && cis.Length > 0
      && |packets| == |blocks.blocks|
      && forall i :: 0 <= i < |packets| ==> packets[i] == PacketData(cis[i], blocks.blocks[i])
    }

    constructor (maxPackets: nat, maxBytes: nat)
      requires maxPackets > 0
      ensures Valid() && packets == [] && fresh(Repr())
      ensures PacketCap() == maxPackets && Remaining() == maxBytes
    {
      blocks := new BlockBuffer(maxPackets, maxBytes);
      cis := new CaptureInfo[maxPackets](_ => CaptureInfo(0, 0, 0));
      packets := [];
    }

    function PacketCap(): nat { blocks.offsets.Length }

    function Remaining(): int
      reads this, blocks
    {
      blocks.BytesRemaining()
    }

    method PacketLen() returns (n: nat)
      requires Valid()
      ensures n == |packets|
    {
      n := blocks.count;
    }

    method Packet(n: nat) returns (p: PacketData)
      requires Valid() && n < |packets|
      ensures p == packets[n]
    {
      var data := blocks.Block(n);
      p := PacketData(cis[n], data);
    }

    method Append(pd: PacketData) returns (err: BufferError)
      requires Valid()
      modifies Repr()
      ensures Valid()
      ensures err == if old(|packets|) >= PacketCap() then BlocksFull
                     else if |pd.data| > old(Remaining()) then BytesFull
                     else Ok
      ensures packets == old(packets) + if err.Ok? then [pd] else []
      ensures Remaining() == old(Remaining()) - if err.Ok? then |pd.data| else 0
    {
      err := blocks.Append(pd.data);
      if !err.Ok? {
        return err;
      }
      cis[blocks.count - 1] := pd.info;
      packets := packets + [pd];
    }

    method Clear()
      requires Valid()
      modifies this, blocks
      ensures Valid() && packets == [] && Remaining() == blocks.data.Length
    {
      blocks.Clear();
      packets := [];
    }
  }
}
