/** The writing half of tdefl_flush_block: zlib header, one block in whichever form is chosen,
    and what a flush puts behind it. */
module BlockFlush {
  import opened Bits
  import opened LzTokens
  import opened Inflater
  import opened Blocks
  import opened BitWriter
  import opened BlockCoder
  import opened BlockSize
  import opened DynamicBlock
  import BlockFormat
  import TB = TokenBuffer

  datatype Flush = NoFlush | SyncFlush | FullFlush | Finish

  lemma {:induction false} ZeroBits(n: nat)
    ensures ToBits(0, n) == seq(n, _ => false)
  {
    if n == 0 {
    } else {
      ZeroBits(n - 1);
    }
  }

  lemma {:induction false} Complement(v: nat, n: nat)
    requires v < Pow2(n)
    ensures BitXor(v, Pow2(n) - 1) == Pow2(n) - 1 - v
  {
    if n == 0 {
    } else {
      Complement(v / 2, n - 1);
    }
  }

  lemma Complement16(v: u16)
    ensures BitXor(v, 0xFFFF) == 0xFFFF - v
  {
    PowSixteen();
    Complement(v, 16);
  }

  /** The accumulator tells how many padding bits are missing. */
  lemma PaddingMissing(w: Writer, m: Mark, sent: seq<bool>)
    requires w.Valid() && w.Since(m, sent)
    ensures sent + Padding(|m.bits| + |sent|) == if w.bitsIn == 0 then sent else sent + ToBits(0, 8 - w.bitsIn)
    ensures 0 < Pow2(8 - w.bitsIn)
  {
    ZeroBits(8 - w.bitsIn);
    hide ToBits;
  }

  /** Zero bits up to a byte boundary, if not already at one. */
  method PutPadding(w: Writer, ghost m: Mark, ghost sent: seq<bool>)
    requires w.Valid() && w.Since(m, sent)
    modifies w`outPos, w`bitBuffer, w`bitsIn, w.out
    ensures w.Valid() && w.bitsIn == 0 && w.Since(m, sent + Padding(|m.bits| + |sent|))
  {
    PaddingMissing(w, m, sent);
    hide ToBits, Padding, w.Since, Pow2;
    if w.bitsIn > 0 {
      w.Put(0, 8 - w.bitsIn, m, sent);
    }
  }

  /** A length or zero, then its complement. */
  method PutLength(w: Writer, v: u16, ghost m: Mark, ghost sent: seq<bool>)
    requires w.Valid() && w.Since(m, sent)
    modifies w`outPos, w`bitBuffer, w`bitsIn, w.out
    ensures w.Valid() && w.bitsIn == old(w.bitsIn) && w.Since(m, sent + ToBits(v, 16) + ToBits(0xFFFF - v, 16))
  {
    hide ToBits, w.Since;
    PowSixteen();
    Complement16(v);
    var x := v;
    w.Put(x, 16, m, sent);
    x := BitXor(x, 0xFFFF);
    w.Put(x, 16, m, sent + ToBits(v, 16));
  }

  lemma ByteFits(v: byte)
    ensures v < Pow2(8)
  {
    PowEight();
  }

  /** The raw bytes, read out of the window. */
  method PutBytes(w: Writer, dict: array<byte>, dictPos: u32, n: nat, ghost bytes: seq<byte>, ghost m: Mark,
                  ghost sent: seq<bool>)
    requires w.Valid() && w.Since(m, sent) && dict != w.out && dict.Length >= LZ_DICT_SIZE && |bytes| == n
    requires forall i: nat :: i < n ==> dict[(dictPos as int + i) % LZ_DICT_SIZE] == bytes[i]
    modifies w`outPos, w`bitBuffer, w`bitsIn, w.out
    ensures w.Valid() && w.Since(m, sent + ByteBits(bytes))
  {
    hide ToBits, w.Since;
    var i := 0;
    assert sent + ByteBits(bytes[..0]) == sent;
    while i < n
      invariant i <= n && w.Valid() && w.Since(m, sent + ByteBits(bytes[..i]))
    {
      ByteFits(bytes[i]);
      w.Put(dict[(dictPos as int + i) % LZ_DICT_SIZE], 8, m, sent + ByteBits(bytes[..i]));
      assert bytes[..i + 1][..i] == bytes[..i];
      assert sent + ByteBits(bytes[..i]) + ToBits(bytes[i], 8) == sent + ByteBits(bytes[..i + 1]);
      i := i + 1;
    }
    assert bytes[..n] == bytes;
  }

  lemma JoinStored(a: seq<bool>, b: seq<bool>, c: seq<bool>, d: seq<bool>, e: seq<bool>)
    ensures a + b + c + d + e == a + (b + (c + (d + e)))
  {
  }

  /** The block type and body of a stored block. */
  method PutStored(w: Writer, dict: array<byte>, dictPos: u32, n: u16, ghost bytes: seq<byte>, ghost m: Mark)
    requires w.Valid() && w.Since(m, []) && dict != w.out && dict.Length >= LZ_DICT_SIZE && |bytes| == n
    requires forall i: nat :: i < n ==> dict[(dictPos as int + i) % LZ_DICT_SIZE] == bytes[i]
    modifies w`outPos, w`bitBuffer, w`bitsIn, w.out
    ensures w.Valid() && w.Since(m, ToBits(0, 2) + Body(Stored(bytes), |m.bits| + 2))
  {
    hide ToBits, w.Since, ByteBits, Padding;
    TwoBits(0);
    w.Put(0, 2, m, []);
    ghost var kind, pad := ToBits(0, 2), Padding(|m.bits| + 2);
    assert [] + kind == kind;
    PutPadding(w, m, kind);
    PutLength(w, n, m, kind + pad);
    PutBytes(w, dict, dictPos, n, bytes, m, kind + pad + ToBits(n, 16) + ToBits(0xFFFF - n, 16));
    JoinStored(kind, pad, ToBits(n, 16), ToBits(0xFFFF - n, 16), ByteBits(bytes));
  }

  // ---- zlib header: section 2.2 of RFC 1950 ----

  const NUM_PROBES: seq<nat> := [0, 1, 6, 32, 16, 32, 128, 256, 512, 768, 1500]
  const CMF: byte := 0x78

  /** The level recorded in the header: the position of the probe count in the table of presets. */
  function Level(probes: nat): (l: nat)
    ensures l <= 3
  {
    if probes == NUM_PROBES[0] || probes == NUM_PROBES[1] then 0
    else if probes == NUM_PROBES[2] || probes == NUM_PROBES[3] || probes == NUM_PROBES[4] then 1
    else if probes == NUM_PROBES[6] then 2
    else 3
  }

  /** The flag byte: level, and check bits that make the header a multiple of 31. */
  function ZlibFlags(probes: nat): (flg: byte)
    ensures (CMF * 256 + flg) % 31 == 0 && flg / 64 == Level(probes) && flg / 32 % 2 == 0
  {
    var header := CMF * 256 + 64 * Level(probes);
    (header + 31 - header % 31) % 256
  }

  /** The search for the level runs through the table. */
  method FindLevel(probes: nat) returns (level: nat)
    ensures level == Level(probes)
  {
    var i := 0;
    while i < |NUM_PROBES| && NUM_PROBES[i] != probes
      invariant i <= |NUM_PROBES| && forall j :: 0 <= j < i ==> NUM_PROBES[j] != probes
    {
      i := i + 1;
    }
    level := if i < 2 then 0 else if i < 6 then 1 else if i == 6 then 2 else 3;
  }

  function ZlibHeader(probes: nat): (r: seq<bool>)
    ensures |r| == 16
  {
    ToBits(CMF, 8) + ToBits(ZlibFlags(probes), 8)
  }

  method PutZlibHeader(w: Writer, probes: nat, ghost m: Mark)
    requires w.Valid() && w.Since(m, [])
    modifies w`outPos, w`bitBuffer, w`bitsIn, w.out
    ensures w.Valid() && w.Since(m, ZlibHeader(probes))
  {
    hide ToBits, w.Since;
    var level := FindLevel(probes);
    var header := CMF * 256 + 64 * level;
    header := header + 31 - header % 31;
    ByteFits(CMF);
    ByteFits(header % 256);
    assert [] + ToBits(CMF, 8) == ToBits(CMF, 8);
    w.Put(CMF, 8, m, []);
    w.Put(header % 256, 8, m, ToBits(CMF, 8));
  }

  // ---- what a flush adds behind the block ----

  function BigEndian(a: u32): (r: seq<byte>)
    ensures |r| == 4
  {
    [a / 0x100 / 0x100 / 0x100, a / 0x100 / 0x100 % 0x100, a / 0x100 % 0x100, a % 0x100]
  }

  ghost function Trailer(flush: Flush, zlib: bool, adler: u32, pos: nat): seq<bool> {
    match flush
    case NoFlush => []
    case Finish => Padding(pos) + if zlib then ByteBits(BigEndian(adler)) else []
    case _ => BlockBits(Stored([]), false, pos)
  }

  /** The checksum register after i shifts. */
  function Shifted(a: u32, i: nat): u32 {
    if i == 0 then a else (Shifted(a, i - 1) as int * 0x100) % 0x1_0000_0000
  }

  lemma ShiftOut(top: byte, rest: nat)
    requires rest < 0x100_0000
    ensures (0x100_0000 * (top as int) + rest) * 0x100 % 0x1_0000_0000 == 0x100 * rest
  {
  }

  lemma JoinBytes(a: u32, b0: byte, b1: byte, b2: byte, b3: byte)
    requires [b0, b1, b2, b3] == BigEndian(a)
    ensures a == 0x100_0000 * (b0 as int) + (0x1_0000 * (b1 as int) + 0x100 * (b2 as int) + b3)
  {
  }

  lemma TopByte(a: u32, i: nat)
    requires i < 4
    ensures Shifted(a, i) / 0x100_0000 == BigEndian(a)[i]
  {
    var b := BigEndian(a);
    hide BigEndian;
    var b0: int, b1: int, b2: int, b3: int := b[0], b[1], b[2], b[3];
    JoinBytes(a, b[0], b[1], b[2], b[3]);
    ShiftOut(b[0], 0x1_0000 * b1 + 0x100 * b2 + b3);
    ShiftOut(b[1], 0x1_0000 * b2 + 0x100 * b3);
    ShiftOut(b[2], 0x1_0000 * b3);
    assert Shifted(a, 1) == 0x100_0000 * b1 + (0x1_0000 * b2 + 0x100 * b3);
    assert Shifted(a, 2) == 0x100_0000 * b2 + 0x1_0000 * b3;
    assert Shifted(a, 3) == 0x100_0000 * b3;
  }

  /** The checksum, highest byte first, shifting the register left after each. */
  method PutChecksum(w: Writer, adler: u32, ghost m: Mark, ghost sent: seq<bool>)
    requires w.Valid() && w.Since(m, sent)
    modifies w`outPos, w`bitBuffer, w`bitsIn, w.out
    ensures w.Valid() && w.Since(m, sent + ByteBits(BigEndian(adler)))
  {
    hide ToBits, w.Since, BigEndian;
    ghost var be := BigEndian(adler);
    var a, i := adler, 0;
    assert sent + ByteBits(be[..0]) == sent;
    while i < 4
      invariant i <= 4 && w.Valid() && w.Since(m, sent + ByteBits(be[..i]))
      invariant a == Shifted(adler, i)
    {
      TopByte(adler, i);
      ByteFits(be[i]);
      w.Put(a / 0x100_0000, 8, m, sent + ByteBits(be[..i]));
      assert be[..i + 1][..i] == be[..i];
      assert sent + ByteBits(be[..i]) + ToBits(be[i], 8) == sent + ByteBits(be[..i + 1]);
      a := (a as int * 0x100) % 0x1_0000_0000;
      i := i + 1;
    }
    assert be[..4] == be;
  }

  lemma EmptyStored(sent: seq<bool>, pos: nat)
    ensures sent + ToBits(0, 3) + Padding(pos + 3) + ToBits(0, 16) + ToBits(0xFFFF, 16) == sent +
              BlockBits(Stored([]), false, pos)
  {
    ZeroBits(1);
    ZeroBits(2);
    ZeroBits(3);
    var pad, len, inv := Padding(pos + 3), ToBits(0, 16), ToBits(0xFFFF, 16);
    hide Padding, ToBits;
    assert Body(Stored([]), pos + 3) == pad + (len + (inv + []));
    assert ToBits(0, 3) == ToBits(0, 1) + ToBits(0, 2);
  }

  method PutTrailer(w: Writer, flush: Flush, zlib: bool, adler: u32, ghost m: Mark, ghost sent: seq<bool>)
    requires w.Valid() && w.Since(m, sent)
    modifies w`outPos, w`bitBuffer, w`bitsIn, w.out
    ensures w.Valid() && w.Since(m, sent + Trailer(flush, zlib, adler, |m.bits| + |sent|))
    ensures flush != NoFlush ==> w.bitsIn == 0
  {
    ghost var pos := |m.bits| + |sent|;
    if flush == Finish {
      PutFinal(w, zlib, adler, m, sent);
    } else if flush != NoFlush {
      PutSync(w, m, sent);
    } else {
      assert sent + [] == sent;
    }
  }

  method PutFinal(w: Writer, zlib: bool, adler: u32, ghost m: Mark, ghost sent: seq<bool>)
    requires w.Valid() && w.Since(m, sent)
    modifies w`outPos, w`bitBuffer, w`bitsIn, w.out
    ensures w.Valid() && w.bitsIn == 0 && w.Since(m, sent + Trailer(Finish, zlib, adler, |m.bits| + |sent|))
  {
    hide ByteBits, Padding, w.Valid;
    ghost var pad := Padding(|m.bits| + |sent|);
    PutPadding(w, m, sent);
    if zlib {
      PutChecksum(w, adler, m, sent + pad);
      assert sent + pad + ByteBits(BigEndian(adler)) == sent + (pad + ByteBits(BigEndian(adler)));
    } else {
      assert sent + pad == sent + (pad + []);
    }
  }

  method PutSync(w: Writer, ghost m: Mark, ghost sent: seq<bool>)
    requires w.Valid() && w.Since(m, sent)
    modifies w`outPos, w`bitBuffer, w`bitsIn, w.out
    ensures w.Valid() && w.bitsIn == 0 && w.Since(m, sent + BlockBits(Stored([]), false, |m.bits| + |sent|))
  {
    hide ToBits, Padding, w.Since, BlockBits;
    ghost var pos := |m.bits| + |sent|;
    assert 0 < Pow2(3);
    w.Put(0, 3, m, sent);
    PutPadding(w, m, sent + ToBits(0, 3));
    PutLength(w, 0, m, sent + ToBits(0, 3) + Padding(pos + 3));
    EmptyStored(sent, pos);
  }

  // ---- choosing the form of the block ----

  /** The output buffer, a little more than the largest body of a block: AttemptFits. */
  const OUT_BUF_SIZE: nat := 85196
  const OUT_LIMIT: nat := OUT_BUF_SIZE - 16

  /** The token buffer after Close: its bytes are the layout of its tokens. */
  ghost predicate ClosedTokens(c: Coder, tb: TB.Buffer)
    reads tb, tb.buf
  {
    && tb.buf != c.w.out && tb.buf as object !in c.TableArrays() && tb.buf as object != tb.count0
    && tb.codePos <= tb.buf.Length == TB.LZ_CODE_BUF_SIZE && tb.buf[..tb.codePos] == Layout(tb.tokens)
    && AllValid(tb.tokens) && |tb.tokens| < 0xFFFF && Separate(c, tb.count0, tb.count1)
  }

  ghost predicate Closed(c: Coder, tb: TB.Buffer)
    reads tb, tb.buf, tb.count0, tb.count1
  {
    ClosedTokens(c, tb) && TB.CountsMatch(tb.count0[..], tb.count1[..], tb.tokens)
  }

  /** The n bytes from dictPos on are still in the window. */
  ghost predicate InWindow(dict: array<byte>, dictPos: u32, n: nat, raw: seq<byte>)
    reads dict
  {
    && dict.Length >= LZ_DICT_SIZE && |raw| == n <= LZ_DICT_SIZE
    && forall i: nat :: i < n ==> dict[(dictPos as int + i) % LZ_DICT_SIZE] == raw[i]
  }

  /** The form the tokens are tried in first. */
  ghost predicate Attempt(a: Block, ts: seq<Token>, isStatic: bool) {
    && a.Valid() && Thrifty(a) && AllValid(ts) && |Layout(ts)| <= TB.LZ_CODE_BUF_SIZE
    && (if isStatic then a == Fixed(ts) else a.Dynamic? && a.tokens == ts)
  }

  /** No form of a block is larger than MAX_BODY. */
  lemma AttemptFits(a: Block, ts: seq<Token>, isStatic: bool, pos: nat)
    requires Attempt(a, ts, isStatic)
    ensures |Body(a, pos)| <= MAX_BODY
  {
    hide Layout, BlockFormat.DataBits, FixedLitLens, FixedDistLens, Body, BlockFormat.AllCoded, Economical,
         BlockFormat.Tables;
    if isStatic {
      FixedSize(ts);
      FixedAnywhere(ts, pos);
    } else {
      DynamicSize(a.header, ts, pos);
    }
  }

  lemma FixedAnywhere(ts: seq<Token>, pos: nat)
    requires Fixed(ts).Valid()
    ensures Body(Fixed(ts), pos) == Body(Fixed(ts), 0)
  {
    hide BlockFormat.DataBits, FixedLitLens, FixedDistLens;
  }

  lemma StoredFits(raw: seq<byte>, pos: nat)
    requires |raw| <= LZ_DICT_SIZE
    ensures |Body(Stored(raw), pos)| <= MAX_BODY
  {
    hide ByteBits, Padding;
  }

  /** Forgets what was written since m and writes the bytes as they are. */
  method PutRaw(c: Coder, tb: TB.Buffer, dict: array<byte>, dictPos: u32, savedPos: nat, savedBuffer: nat,
                savedBits: nat,
                ghost raw: seq<byte>, ghost m: Mark, ghost sent: seq<bool>)
    requires c.Valid() && c.w.Since(m, sent) && Saved(m, savedPos, savedBuffer, savedBits) && savedPos < c.w.outEnd
    requires dict != c.w.out && InWindow(dict, dictPos, tb.totalLzBytes, raw)
    modifies c.w`outPos, c.w`bitBuffer, c.w`bitsIn, c.w.out
    ensures c.Valid() && Stored(raw).Valid() && c.w.Since(m, ToBits(0, 2) + Body(Stored(raw), |m.bits| + 2))
    ensures |Body(Stored(raw), |m.bits| + 2)| <= MAX_BODY
  {
    hide ToBits, Body, c.w.Since, ByteBits;
    c.w.Restore(savedPos, savedBuffer, savedBits, m, sent);
    StoredFits(raw, |m.bits| + 2);
    PutStored(c.w, dict, dictPos, tb.totalLzBytes, raw, m);
  }

  ghost predicate Saved(m: Mark, savedPos: nat, savedBuffer: nat, savedBits: nat) {
    && m.fitted && |m.bytes| == savedPos && savedBits < 8 && savedBuffer < Pow2(savedBits)
    && m.bits == ByteBits(m.bytes) + ToBits(savedBuffer, savedBits)
  }

  /** Forgets what was written since m and uses the fixed codes, which always fit. */
  method PutStaticAgain(c: Coder, tb: TB.Buffer, savedPos: nat, savedBuffer: nat, savedBits: nat, ghost m: Mark,
                        ghost sent: seq<bool>)
    requires c.Valid() && c.w.Since(m, sent) && Saved(m, savedPos, savedBuffer, savedBits) && savedPos < c.w.outEnd
    requires ClosedTokens(c, tb)
    modifies tb.count0, c.TableArrays(), c.w`outPos, c.w`bitBuffer, c.w`bitsIn, c.w.out
    ensures c.Valid() && Fixed(tb.tokens).Valid() && c.w.Since(m, ToBits(1, 2) + Body(Fixed(tb.tokens), |m.bits| + 2))
  {
    hide ToBits, Body, c.w.Since, ByteBits, Layout, AllValid;
    c.w.Restore(savedPos, savedBuffer, savedBits, m, sent);
    var succeeded, _ := CompressBlock(c, tb.buf, tb.codePos, tb.count0, tb.count1, true, tb.tokens, m);
  }

  /** How many bytes the output moves on when block a is written after m. */
  ghost function Moved(m: Mark, a: Block): int
    requires a.Valid()
  {
    (|m.bits| + 2 + |Body(a, |m.bits| + 2)|) / 8 - |m.bits| / 8
  }

  /** The tokens did not shrink below the n bytes they stand for. */
  ghost predicate Unshrunk(m: Mark, a: Block, n: nat)
    requires a.Valid()
  {
    n > 0 && Moved(m, a) + 1 >= n
  }

  /** There is room for what was sent. */
  ghost predicate Room(m: Mark, sent: seq<bool>, end: nat) {
    m.fitted && |m.bits| + |sent| < 8 * end
  }

  /** While there is room, the output position tells how much was sent. */
  lemma OutputMoved(w: Writer, m: Mark, a: Block)
    requires w.Valid() && a.Valid() && w.Since(m, ToBits(a.Kind(), 2) + Body(a, |m.bits| + 2))
    ensures Room(m, ToBits(a.Kind(), 2) + Body(a, |m.bits| + 2), w.outEnd) ==>
              w.outPos < w.outEnd && w.outPos - |m.bits| / 8 == Moved(m, a)
  {
    hide ToBits, ByteBits, Body;
    var sent := ToBits(a.Kind(), 2) + Body(a, |m.bits| + 2);
    w.SinceMeans(m, sent);
    if Room(m, sent, w.outEnd) {
      assert |w.Written()| == |m.bits| + |sent|;
    }
  }

  lemma HasRoom(m: Mark, a: Block, end: nat)
    requires a.Valid() && |Body(a, |m.bits| + 2)| <= MAX_BODY && m.fitted && |m.bits| <= 24 && end == OUT_LIMIT
    ensures Room(m, ToBits(a.Kind(), 2) + Body(a, |m.bits| + 2), end)
  {
    hide ToBits, Body;
  }

  /** Which way the block goes: raw when forced, or when compression did not make it smaller and the window still
      has all of it; otherwise as it was tried first, dynamic unless short or forced to be static. The second try
      with the fixed code is never needed: every dynamic block fits. */
  method PutBlock(c: Coder, tb: TB.Buffer, dict: array<byte>, dictPos: u32, useRaw: bool, forceStatic: bool,
                  inWindow: bool,
                  ghost raw: seq<byte>, ghost m: Mark) returns (ghost b: Block, ghost a: Block)
    requires c.Valid() && c.w.Since(m, []) && m == c.w.Here() && m.fitted && |m.bits| <= 24 && c.w.outEnd == OUT_LIMIT
    requires Closed(c, tb)
    requires dict != c.w.out && dict as object !in c.TableArrays() && dict as object != tb.count0
    requires inWindow ==> InWindow(dict, dictPos, tb.totalLzBytes, raw)
    requires useRaw ==> inWindow
    modifies tb.count0, c.TableArrays(), c.w`outPos, c.w`bitBuffer, c.w`bitsIn, c.w.out
    ensures c.Valid() && b.Valid() && c.w.Since(m, ToBits(b.Kind(), 2) + Body(b, |m.bits| + 2))
    ensures if b.Stored? then inWindow && b.bytes == raw else b.tokens == tb.tokens
    ensures !inWindow ==> (b.Fixed? <==> forceStatic || tb.totalLzBytes < 48)
    ensures !useRaw ==> Attempt(a, tb.tokens, forceStatic || tb.totalLzBytes < 48)
    ensures b == if useRaw || (inWindow && Unshrunk(m, a, tb.totalLzBytes)) then Stored(raw) else a
    ensures |Body(b, |m.bits| + 2)| <= MAX_BODY
  {
    hide ToBits, Body, c.w.Since, Layout, ByteBits, TB.CountsMatch, AllValid, Pow2, Room, Thrifty, Block.Valid;
    var w := c.w;
    var savedPos, savedBuffer, savedBits := w.outPos, w.bitBuffer, w.bitsIn;
    b, a := Stored(raw), Stored(raw);
    if useRaw {
      PutRaw(c, tb, dict, dictPos, savedPos, savedBuffer, savedBits, raw, m, []);
      return;
    }
    var isStatic := forceStatic || tb.totalLzBytes < 48;
    var succeeded;
    succeeded, a := CompressBlock(c, tb.buf, tb.codePos, tb.count0, tb.count1, isStatic, tb.tokens, m);
    ghost var sent := ToBits(a.Kind(), 2) + Body(a, |m.bits| + 2);
    OutputMoved(w, m, a);
    if tb.totalLzBytes > 0 && w.outPos - savedPos + 1 >= tb.totalLzBytes && inWindow {
      PutRaw(c, tb, dict, dictPos, savedPos, savedBuffer, savedBits, raw, m, sent);
    } else if !succeeded {
      PutStaticAgain(c, tb, savedPos, savedBuffer, savedBits, m, sent);
      b := Fixed(tb.tokens);
    } else {
      b := a;
    }
    AttemptFits(a, tb.tokens, isStatic, |m.bits| + 2);
    HasRoom(m, a, w.outEnd);
  }

  // ---- the whole output of one flush ----

  function StartBits(header: bool, probes: nat): (r: seq<bool>)
    ensures |r| == if header then 16 else 0
  {
    if header then ZlibHeader(probes) else []
  }

  /** Zlib header before the first block, then the last-block bit. */
  method PutStart(w: Writer, header: bool, probes: nat, last: bool, ghost m: Mark)
    requires w.Valid() && w.outPos == 0 && w.outEnd == OUT_LIMIT && m == w.Here()
    modifies w`outPos, w`bitBuffer, w`bitsIn, w.out
    ensures w.Valid() && w.outPos < w.outEnd
    ensures |m.bits| <= 7 && |w.Written()| <= 24
    ensures w.Written() == m.bits + (StartBits(header, probes) + ToBits(if last then 1 else 0, 1))
  {
    hide ToBits, w.Written;
    w.NothingSince();
    if header {
      PutZlibHeader(w, probes, m);
    }
    PowOne();
    w.Put(if last then 1 else 0, 1, m, StartBits(header, probes));
  }

  lemma PowOne()
    ensures Pow2(1) == 2
  {
  }

  /** Everything one flush writes after pos bits. */
  ghost function FlushOutput(b: Block, header: bool, probes: nat, flush: Flush, zlib: bool, adler: u32,
                             pos: nat): seq<bool>
    requires b.Valid()
  {
    var start := StartBits(header, probes);
    var block := BlockBits(b, flush == Finish, pos + |start|);
    start + block + Trailer(flush, zlib, adler, pos + |start| + |block|)
  }

  lemma FlushOutputIs(b: Block, header: bool, probes: nat, flush: Flush, zlib: bool, adler: u32, pos: nat)
    requires b.Valid()
    ensures var start, last := StartBits(header, probes), ToBits(if flush == Finish then 1 else 0, 1);
            var block := ToBits(b.Kind(), 2) + Body(b, pos + |start| + 3);
            FlushOutput(b, header, probes, flush, zlib, adler, pos) ==
            (start + (last + block)) + Trailer(flush, zlib, adler, pos + |start| + 1 + |block|)
  {
    hide ToBits, Body, StartBits, Trailer;
  }

  lemma JoinFlush(bits: seq<bool>, b: Block, header: bool, probes: nat, flush: Flush, zlib: bool, adler: u32)
    requires b.Valid()
    ensures var start := StartBits(header, probes) + ToBits(if flush == Finish then 1 else 0, 1);
            var block := ToBits(b.Kind(), 2) + Body(b, |bits + start| + 2);
            bits + start + (block + Trailer(flush, zlib, adler, |bits + start| + |block|)) ==
            bits + FlushOutput(b, header, probes, flush, zlib, adler, |bits|)
  {
    hide *;
    FlushOutputIs(b, header, probes, flush, zlib, adler, |bits|);
    var start, last := StartBits(header, probes), ToBits(if flush == Finish then 1 else 0, 1);
    var block := ToBits(b.Kind(), 2) + Body(b, |bits + start| + 3);
    var trailer := Trailer(flush, zlib, adler, |bits + start| + 1 + |block|);
    JoinFive(bits, start, last, block, trailer);
  }

  lemma JoinFive(a: seq<bool>, b: seq<bool>, c: seq<bool>, d: seq<bool>, e: seq<bool>)
    ensures a + (b + c) + (d + e) == a + ((b + (c + d)) + e)
  {
  }

  lemma TrailerSmall(flush: Flush, zlib: bool, adler: u32, pos: nat)
    ensures |Trailer(flush, zlib, adler, pos)| <= 64
  {
    hide Padding, ToBits, ByteBits;
  }

  lemma HereIs(w: Writer)
    requires w.Valid()
    ensures w.Here().bits == w.Written() && w.Here().fitted == (w.outPos < w.outEnd)
  {
    hide w.Written;
  }

  lemma KindSize(b: Block)
    ensures |ToBits(b.Kind(), 2)| == 2 && 8 * OUT_LIMIT == 681_440
  {
  }

  /** Writes one block with its surroundings. The output is exactly FlushOutput of the chosen block, and there is
      always room left behind it. */
  method PutFlush(c: Coder, tb: TB.Buffer, dict: array<byte>, dictPos: u32, useRaw: bool, forceStatic: bool,
                  inWindow: bool,
                  header: bool, probes: nat, flush: Flush, zlib: bool, adler: u32,
                  ghost raw: seq<byte>) returns (ghost b: Block)
    requires c.Valid() && c.w.outPos == 0 && c.w.outEnd == OUT_LIMIT && Closed(c, tb)
    requires dict != c.w.out && dict as object !in c.TableArrays() && dict as object != tb.count0
    requires inWindow ==> InWindow(dict, dictPos, tb.totalLzBytes, raw)
    requires useRaw ==> inWindow
    modifies tb.count0, c.TableArrays(), c.w`outPos, c.w`bitBuffer, c.w`bitsIn, c.w.out
    ensures c.Valid() && b.Valid()
    ensures if b.Stored? then inWindow && b.bytes == raw else b.tokens == tb.tokens
    ensures !inWindow ==> (b.Fixed? <==> forceStatic || tb.totalLzBytes < 48)
    ensures useRaw ==> b.Stored?
    ensures c.w.outPos < c.w.outEnd
    ensures c.w.Written() == old(c.w.Written()) +
              FlushOutput(b, header, probes, flush, zlib, adler, |old(c.w.Written())|)
    ensures flush != NoFlush ==> c.w.bitsIn == 0
  {
    hide ToBits, Body, Layout, ByteBits, TB.CountsMatch, Pow2, c.w.Written, c.w.Since, c.w.Here, StartBits, BlockBits,
         Trailer, FlushOutput;
    hide AllValid, Attempt, Unshrunk, Moved, InWindow, Block.Valid;
    ghost var bits := c.w.Written();
    HereIs(c.w);
    PutStart(c.w, header, probes, flush == Finish, c.w.Here());
    ghost var m := c.w.Here();
    HereIs(c.w);
    c.w.NothingSince();
    ghost var a;
    b, a := PutBlock(c, tb, dict, dictPos, useRaw, forceStatic, inWindow, raw, m);
    ghost var block := ToBits(b.Kind(), 2) + Body(b, |m.bits| + 2);
    PutTrailer(c.w, flush, zlib, adler, m, block);
    c.w.SinceMeans(m, block + Trailer(flush, zlib, adler, |m.bits| + |block|));
    TrailerSmall(flush, zlib, adler, |m.bits| + |block|);
    KindSize(b);
    JoinFlush(bits, b, header, probes, flush, zlib, adler);
  }
}
