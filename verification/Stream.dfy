/** What a stream of blocks decodes to, and how appending a block extends it. */
module Stream {
  import opened Options
  import opened Bits
  import opened LzTokens
  import opened Inflater
  import opened Blocks
  import opened BlockFlush
  import A = Adler32

  /** However the stream goes on: after the first base bits, its k blocks decode to data. */
  ghost predicate Decodes(stream: seq<bool>, base: nat, k: nat, data: seq<byte>) {
    base <= |stream| && forall bits :: At(bits, 0, stream) ==>
      RunBlocks(bits, base, [], k) == Some(Decoded(|stream|, data))
  }

  /** The same for a stream whose last block has been written; it ends at bit end. */
  ghost predicate Ends(stream: seq<bool>, base: nat, end: nat, data: seq<byte>) {
    base <= |stream| && forall bits :: At(bits, 0, stream) ==> Inflate(bits, base, []) == Some(Decoded(end, data))
  }

  lemma NoBlocks(stream: seq<bool>)
    ensures Decodes(stream, |stream|, 0, [])
  {
  }

  lemma RunOne(bits: seq<bool>, pos: nat, data: seq<byte>, next: BlockAt)
    requires DecodeBlock(bits, pos, data) == Some(next) && pos < next.pos <= |bits| && !next.last
    ensures RunBlocks(bits, pos, data, 1) == Some(Decoded(next.pos, next.data))
  {
    hide DecodeBlock;
    assert RunBlocks(bits, next.pos, next.data, 0) == Some(Decoded(next.pos, next.data));
  }

  lemma OneBlock(b: Block, bits: seq<bool>, pos: nat, data: seq<byte>)
    requires b.Valid() && b.Follows(data) && At(bits, pos, BlockBits(b, false, pos))
    ensures RunBlocks(bits, pos, data, 1) == Some(Decoded(pos + |BlockBits(b, false, pos)|, b.After(data)))
  {
    hide *;
    BlockReadBack(b, false, bits, pos, data);
    BlockNotEmpty(b, false, pos);
    AtInside(bits, pos, BlockBits(b, false, pos));
    RunOne(bits, pos, data, BlockAt(pos + |BlockBits(b, false, pos)|, b.After(data), false));
  }

  lemma BlockNotEmpty(b: Block, last: bool, pos: nat)
    requires b.Valid()
    ensures |BlockBits(b, last, pos)| >= 3
  {
    hide Body;
  }

  lemma AtInside(bits: seq<bool>, pos: nat, s: seq<bool>)
    requires At(bits, pos, s)
    ensures pos + |s| <= |bits|
  {
  }

  lemma DecodesAt(stream: seq<bool>, base: nat, k: nat, data: seq<byte>, bits: seq<bool>)
    requires Decodes(stream, base, k, data) && At(bits, 0, stream)
    ensures base <= |stream| && RunBlocks(bits, base, [], k) == Some(Decoded(|stream|, data))
  {
    hide At, RunBlocks;
  }

  lemma ExtendAt(stream: seq<bool>, base: nat, k: nat, data: seq<byte>, b: Block, bits: seq<bool>)
    requires Decodes(stream, base, k, data) && b.Valid() && b.Follows(data)
    requires At(bits, 0, stream + BlockBits(b, false, |stream|))
    ensures base <= |stream|
    ensures RunBlocks(bits, base, [], k + 1) == Some(Decoded(|stream + BlockBits(b, false, |stream|)|, b.After(data)))
  {
    hide *;
    AtSplit(bits, 0, stream, BlockBits(b, false, |stream|));
    DecodesAt(stream, base, k, data, bits);
    RunOneMore(bits, base, [], k);
    OneBlock(b, bits, |stream|, data);
  }

  /** One more block that is not the last. */
  lemma Extend(stream: seq<bool>, base: nat, k: nat, data: seq<byte>, b: Block)
    requires Decodes(stream, base, k, data) && b.Valid() && b.Follows(data)
    ensures Decodes(stream + BlockBits(b, false, |stream|), base, k + 1, b.After(data))
  {
    var block := BlockBits(b, false, |stream|);
    forall bits | At(bits, 0, stream + block)
      ensures RunBlocks(bits, base, [], k + 1) == Some(Decoded(|stream + block|, b.After(data)))
    {
      hide *;
      ExtendAt(stream, base, k, data, b, bits);
    }
    hide BlockBits, At, RunBlocks;
  }

  lemma EndOne(bits: seq<bool>, pos: nat, data: seq<byte>, next: BlockAt)
    requires DecodeBlock(bits, pos, data) == Some(next) && pos < next.pos <= |bits| && next.last
    ensures Inflate(bits, pos, data) == Some(Decoded(next.pos, next.data))
  {
    hide DecodeBlock;
  }

  lemma LastBlock(b: Block, bits: seq<bool>, pos: nat, data: seq<byte>)
    requires b.Valid() && b.Follows(data) && At(bits, pos, BlockBits(b, true, pos))
    ensures Inflate(bits, pos, data) == Some(Decoded(pos + |BlockBits(b, true, pos)|, b.After(data)))
  {
    hide *;
    BlockReadBack(b, true, bits, pos, data);
    BlockNotEmpty(b, true, pos);
    AtInside(bits, pos, BlockBits(b, true, pos));
    EndOne(bits, pos, data, BlockAt(pos + |BlockBits(b, true, pos)|, b.After(data), true));
  }

  lemma CloseAt(stream: seq<bool>, base: nat, k: nat, data: seq<byte>, b: Block, behind: seq<bool>, bits: seq<bool>)
    requires RunBlocks(bits, base, [], k) == Some(Decoded(|stream|, data)) && b.Valid() && b.Follows(data)
    requires At(bits, |stream|, BlockBits(b, true, |stream|))
    ensures Inflate(bits, base, []) == Some(Decoded(|stream| + |BlockBits(b, true, |stream|)|, b.After(data)))
  {
    hide *;
    RunThenInflate(bits, base, [], k);
    LastBlock(b, bits, |stream|, data);
  }

  /** The last block, and anything behind it. */
  lemma Close(stream: seq<bool>, base: nat, k: nat, data: seq<byte>, b: Block, behind: seq<bool>)
    requires Decodes(stream, base, k, data) && b.Valid() && b.Follows(data)
    ensures var block := BlockBits(b, true, |stream|);
            Ends(stream + block + behind, base, |stream| + |block|, b.After(data))
  {
    hide BlockBits, At, Expand, RunBlocks, Inflate, CanExpand;
    var block := BlockBits(b, true, |stream|);
    forall bits | At(bits, 0, stream + block + behind)
      ensures Inflate(bits, base, []) == Some(Decoded(|stream| + |block|, b.After(data)))
    {
      AtSplit(bits, 0, stream + block, behind);
      AtSplit(bits, 0, stream, block);
      CloseAt(stream, base, k, data, b, behind, bits);
    }
  }

  // ---- positions count modulo 8 only ----

  lemma PaddingShift(pos: nat, k: nat)
    ensures Padding(pos + 8 * k) == Padding(pos)
  {
  }

  lemma BodyShift(b: Block, pos: nat, k: nat)
    requires b.Valid()
    ensures Body(b, pos + 8 * k) == Body(b, pos)
  {
    PaddingShift(pos, k);
    hide Padding, ToBits, ByteBits;
  }

  lemma BlockShift(b: Block, last: bool, pos: nat, k: nat)
    requires b.Valid()
    ensures BlockBits(b, last, pos + 8 * k) == BlockBits(b, last, pos)
  {
    hide Body, ToBits;
    BodyShift(b, pos + 3, k);
  }

  lemma TrailerShift(flush: Flush, zlib: bool, adler: u32, pos: nat, k: nat)
    ensures Trailer(flush, zlib, adler, pos + 8 * k) == Trailer(flush, zlib, adler, pos)
  {
    PaddingShift(pos, k);
    BlockShift(Stored([]), false, pos, k);
    hide Padding, BlockBits;
  }

  lemma OutputIs(b: Block, header: bool, probes: nat, flush: Flush, zlib: bool, adler: u32, pos: nat)
    requires b.Valid()
    ensures var start := StartBits(header, probes); var block := BlockBits(b, flush == Finish, pos + |start|);
            FlushOutput(b, header, probes, flush, zlib, adler, pos) == start + block +
              Trailer(flush, zlib, adler, pos + |start| + |block|)
  {
    hide BlockBits, Trailer, StartBits;
  }

  lemma OutputShift(b: Block, header: bool, probes: nat, flush: Flush, zlib: bool, adler: u32, pos: nat, k: nat)
    requires b.Valid()
    ensures FlushOutput(b, header, probes, flush, zlib, adler, pos + 8 * k) ==
              FlushOutput(b, header, probes, flush, zlib, adler, pos)
  {
    hide *;
    var start := StartBits(header, probes);
    OutputIs(b, header, probes, flush, zlib, adler, pos);
    OutputIs(b, header, probes, flush, zlib, adler, pos + 8 * k);
    BlockShift(b, flush == Finish, pos + |start|, k);
    TrailerShift(flush, zlib, adler, pos + |start| + |BlockBits(b, flush == Finish, pos + |start|)|, k);
  }

  // ---- a stream under construction ----

  /** What the compressor has written: nothing yet, or an optional zlib header and blocks for data. */
  ghost predicate InProgress(stream: seq<bool>, zlib: bool, probes: nat, blocks: nat, data: seq<byte>) {
    if blocks == 0 then stream == [] && data == []
    else Decodes(stream, |StartBits(zlib, probes)|, blocks, data) && StartBits(zlib, probes) <= stream
  }

  /** What a finished zlib stream ends in. */
  ghost function Checksum(zlib: bool, adler: u32): seq<bool> {
    if zlib then ByteBits(BigEndian(adler)) else []
  }

  /** A complete stream for data: after the last block the padding and, for zlib, the checksum. */
  ghost predicate Complete(stream: seq<bool>, zlib: bool, probes: nat, adler: u32, data: seq<byte>) {
    exists front, end :: CompleteAt(stream, zlib, probes, adler, data, front, end)
  }

  ghost predicate CompleteAt(stream: seq<bool>, zlib: bool, probes: nat, adler: u32, data: seq<byte>, front: seq<bool>,
                             end: nat) {
    && stream == front + Checksum(zlib, adler)
    && |front| == (end + 7) / 8 * 8 && StartBits(zlib, probes) <= front
    && Ends(stream, |StartBits(zlib, probes)|, end, data)
  }

  /** The header, if this is the first block. */
  lemma Started(stream: seq<bool>, zlib: bool, probes: nat, blocks: nat, data: seq<byte>)
    requires InProgress(stream, zlib, probes, blocks, data)
    ensures var start := StartBits(zlib && blocks == 0, probes);
            Decodes(stream + start, |StartBits(zlib, probes)|, blocks, data)
            && StartBits(zlib, probes) <= stream + start
  {
    hide Decodes, ZlibHeader;
    var start := StartBits(zlib && blocks == 0, probes);
    if blocks == 0 {
      assert stream + start == StartBits(zlib, probes);
      NoBlocks(stream + start);
    } else {
      assert stream + start == stream;
    }
  }

  lemma Split3(a: seq<bool>, b: seq<bool>, c: seq<bool>, d: seq<bool>)
    ensures a + (b + c + d) == a + b + c + d
  {
  }

  lemma PrefixKept(p: seq<bool>, s: seq<bool>, t: seq<bool>)
    requires p <= s
    ensures p <= s + t
  {
  }

  /** A flush that does not finish leaves a stream that decodes to the data and the new block's data. */
  lemma FlushExtends(stream: seq<bool>, zlib: bool, probes: nat, blocks: nat, data: seq<byte>, b: Block, flush: Flush,
                     adler: u32)
    requires InProgress(stream, zlib, probes, blocks, data) && b.Valid() && b.Follows(data) && flush != Finish
    ensures InProgress(stream + FlushOutput(b, zlib && blocks == 0, probes, flush, zlib, adler, |stream|), zlib, probes,
                       blocks + (if flush == NoFlush then 1 else 2), b.After(data))
  {
    hide *;
    var header := zlib && blocks == 0;
    var start, base := StartBits(header, probes), |StartBits(zlib, probes)|;
    Started(stream, zlib, probes, blocks, data);
    OutputIs(b, header, probes, flush, zlib, adler, |stream|);
    var s1 := stream + start;
    var block := BlockBits(b, false, |s1|);
    Extend(s1, base, blocks, data, b);
    PrefixKept(StartBits(zlib, probes), s1, block);
    var s2 := s1 + block;
    var trailer := Trailer(flush, zlib, adler, |s2|);
    Split3(stream, start, block, trailer);
    TrailerIs(flush, zlib, adler, |s2|);
    if flush == NoFlush {
      assert s2 + trailer == s2;
      StillInProgress(s2, zlib, probes, blocks + 1, b.After(data));
    } else {
      EmptyAddsNothing(b.After(data));
      Extend(s2, base, blocks + 1, b.After(data), Stored([]));
      PrefixKept(StartBits(zlib, probes), s2, trailer);
      StillInProgress(s2 + trailer, zlib, probes, blocks + 2, b.After(data));
    }
  }

  lemma StillInProgress(stream: seq<bool>, zlib: bool, probes: nat, blocks: nat, data: seq<byte>)
    requires blocks > 0 && Decodes(stream, |StartBits(zlib, probes)|, blocks, data) && StartBits(zlib, probes) <= stream
    ensures InProgress(stream, zlib, probes, blocks, data)
  {
  }

  lemma TrailerIs(flush: Flush, zlib: bool, adler: u32, pos: nat)
    ensures Stored([]).Valid()
    ensures Trailer(flush, zlib, adler, pos) ==
            match flush
            case NoFlush => []
            case Finish => Padding(pos) + Checksum(zlib, adler)
            case _ => BlockBits(Stored([]), false, pos)
  {
    hide Padding, BlockBits, ByteBits;
  }

  lemma EmptyAddsNothing(data: seq<byte>)
    ensures Stored([]).Valid() && Stored([]).Follows(data) && Stored([]).After(data) == data
  {
  }

  lemma Padded(pos: nat)
    ensures pos + |Padding(pos)| == (pos + 7) / 8 * 8
  {
  }

  lemma Split4(a: seq<bool>, b: seq<bool>, c: seq<bool>, d: seq<bool>, e: seq<bool>)
    ensures a + (b + c + (d + e)) == a + b + c + d + e
    ensures a + b + c + (d + e) == a + b + c + d + e
  {
  }

  /** A finishing flush completes the stream. */
  lemma FlushCompletes(stream: seq<bool>, zlib: bool, probes: nat, blocks: nat, data: seq<byte>, b: Block, adler: u32)
    requires InProgress(stream, zlib, probes, blocks, data) && b.Valid() && b.Follows(data)
    ensures Complete(stream + FlushOutput(b, zlib && blocks == 0, probes, Finish, zlib, adler, |stream|), zlib, probes,
                     adler, b.After(data))
  {
    hide *;
    var header := zlib && blocks == 0;
    var start, base := StartBits(header, probes), |StartBits(zlib, probes)|;
    Started(stream, zlib, probes, blocks, data);
    OutputIs(b, header, probes, Finish, zlib, adler, |stream|);
    var s1 := stream + start;
    var block := BlockBits(b, true, |s1|);
    var end := |s1| + |block|;
    TrailerIs(Finish, zlib, adler, end);
    var pad, sum := Padding(end), Checksum(zlib, adler);
    Close(s1, base, blocks, data, b, pad + sum);
    Split4(stream, start, block, pad, sum);
    Padded(end);
    PrefixKept(StartBits(zlib, probes), s1, block + pad);
    assert s1 + block + pad == s1 + (block + pad);
    IsComplete(s1 + block + pad, zlib, probes, adler, b.After(data), end);
  }

  lemma IsComplete(front: seq<bool>, zlib: bool, probes: nat, adler: u32, data: seq<byte>, end: nat)
    requires |front| == (end + 7) / 8 * 8 && StartBits(zlib, probes) <= front
    requires Ends(front + Checksum(zlib, adler), |StartBits(zlib, probes)|, end, data)
    ensures Complete(front + Checksum(zlib, adler), zlib, probes, adler, data)
  {
    hide StartBits, Ends, ByteBits;
    assert CompleteAt(front + Checksum(zlib, adler), zlib, probes, adler, data, front, end);
  }

  // ---- decoders for whole byte strings ----

  /** A raw DEFLATE stream. */
  ghost function RawDecode(bytes: seq<byte>): Option<seq<byte>> {
    match Inflate(ByteBits(bytes), 0, [])
    case None => None
    case Some(d) => Some(d.data)
  }

  /** A zlib stream: section 2.2 of RFC 1950. */
  ghost function ZlibDecode(bytes: seq<byte>): Option<seq<byte>> {
    if |bytes| < 2 || bytes[0] % 16 != 8 || bytes[0] / 16 > 7 || (bytes[0] as int * 256 + bytes[1]) % 31 != 0
       || bytes[1] / 32 % 2 != 0 then None
    else
      match Inflate(ByteBits(bytes), 16, [])
      case None => None
      case Some(d) =>
        var p := (d.pos + 7) / 8;
        if p + 4 > |bytes| then None
        else
          var sum := A.Adler(A.Sums(1, 0), d.data);
          if 0x100 * (bytes[p] as int) + bytes[p + 1] != sum.s2
             || 0x100 * (bytes[p + 2] as int) + bytes[p + 3] != sum.s1 then None
          else Some(d.data)
  }

  lemma WholeAt(s: seq<bool>)
    ensures At(s, 0, s)
  {
    assert s[0..|s|] == s;
  }

  /** A finished raw stream decodes to its data. */
  lemma RawDecodes(bytes: seq<byte>, end: nat, data: seq<byte>)
    requires Ends(ByteBits(bytes), 0, end, data)
    ensures RawDecode(bytes) == Some(data)
  {
    WholeAt(ByteBits(bytes));
  }

  lemma FirstBytes(bytes: seq<byte>, v: byte, w: byte, rest: seq<bool>)
    requires ByteBits(bytes) == ToBits(v, 8) + ToBits(w, 8) + rest
    ensures |bytes| >= 2 && bytes[0] == v && bytes[1] == w
  {
    BytesAt(bytes, 0);
    BytesAt(bytes, 1);
    PowEight();
    FromToBits(v, 8);
    FromToBits(w, 8);
    FromToBits(bytes[0], 8);
    FromToBits(bytes[1], 8);
    var s := ByteBits(bytes);
    assert s[0..8] == ToBits(v, 8);
    assert s[8..16] == ToBits(w, 8);
  }

  lemma {:induction false} BytesAt(bytes: seq<byte>, i: nat)
    requires i < |bytes|
    ensures ByteBits(bytes)[8 * i..8 * i + 8] == ToBits(bytes[i], 8)
  {
    hide ToBits;
    var k := |bytes| - 1;
    if i < k {
      BytesAt(bytes[..k], i);
      assert ByteBits(bytes)[8 * i..8 * i + 8] == ByteBits(bytes[..k])[8 * i..8 * i + 8];
    }
  }

  lemma LastBytes(bytes: seq<byte>, front: seq<bool>, last: seq<byte>)
    requires ByteBits(bytes) == front + ByteBits(last)
    ensures |last| <= |bytes| && bytes[|bytes| - |last|..] == last
  {
    hide ByteBits;
    var n := |bytes| - |last|;
    assert |bytes| >= |last|;
    forall i | 0 <= i < |last|
      ensures bytes[n + i] == last[i]
    {
      SameByte(bytes, front, last, n, i);
    }
  }

  lemma TailSlice(front: seq<bool>, x: seq<bool>, k: nat)
    requires k + 8 <= |x|
    ensures (front + x)[|front| + k..|front| + k + 8] == x[k..k + 8]
  {
  }

  lemma SameByte(bytes: seq<byte>, front: seq<bool>, last: seq<byte>, n: nat, i: nat)
    requires ByteBits(bytes) == front + ByteBits(last) && |bytes| == n + |last| && i < |last|
    ensures bytes[n + i] == last[i]
  {
    hide *;
    PowEight();
    BytesAt(bytes, n + i);
    BytesAt(last, i);
    TailSlice(front, ByteBits(last), 8 * i);
    FromToBits(bytes[n + i], 8);
    FromToBits(last[i], 8);
  }

  /** A finished zlib stream: header, blocks, padding, checksum. */
  lemma ZlibDecodes(bytes: seq<byte>, probes: nat, stream: seq<bool>, end: nat, data: seq<byte>, adler: u32)
    requires ByteBits(bytes) == stream + ByteBits(BigEndian(adler)) && |stream| == (end + 7) / 8 * 8
    requires ZlibHeader(probes) <= stream && Ends(ByteBits(bytes), 16, end, data)
    requires A.Unpack(adler) == A.Adler(A.Sums(1, 0), data)
    ensures ZlibDecode(bytes) == Some(data)
  {
    hide Inflate, ToBits, A.Adler, ZlibFlags, BigEndian, ByteBits;
    WholeAt(ByteBits(bytes));
    var rest := stream[16..] + ByteBits(BigEndian(adler));
    assert ByteBits(bytes) == ToBits(CMF, 8) + ToBits(ZlibFlags(probes), 8) + rest;
    FirstBytes(bytes, CMF, ZlibFlags(probes), rest);
    LastBytes(bytes, stream, BigEndian(adler));
    var p := (end + 7) / 8;
    assert |bytes| == p + 4;
    ChecksumBytes(bytes[p..], adler);
  }

  lemma ChecksumBytes(b: seq<byte>, adler: u32)
    requires b == BigEndian(adler)
    ensures 0x100 * (b[0] as int) + b[1] == A.Unpack(adler).s2 && 0x100 * (b[2] as int) + b[3] == A.Unpack(adler).s1
  {
    var q, r := adler / 0x1_0000, adler % 0x1_0000;
    assert adler / 0x100 / 0x100 == q;
    assert q / 0x100 * 0x100 + q % 0x100 == q;
  }

  /** A complete stream decodes to its data, with the decoder for its format. */
  lemma CompleteDecodes(bytes: seq<byte>, zlib: bool, probes: nat, adler: u32, data: seq<byte>)
    requires Complete(ByteBits(bytes), zlib, probes, adler, data)
    requires zlib ==> A.Unpack(adler) == A.Adler(A.Sums(1, 0), data)
    ensures (if zlib then ZlibDecode(bytes) else RawDecode(bytes)) == Some(data)
  {
    hide Ends, ByteBits, ZlibDecode, RawDecode, ZlibHeader, A.Adler;
    var front, end :| CompleteAt(ByteBits(bytes), zlib, probes, adler, data, front, end);
    if zlib {
      ZlibDecodes(bytes, probes, front, end, data, adler);
    } else {
      RawDecodes(bytes, end, data);
    }
  }
}
