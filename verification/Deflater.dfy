/** The compressor: tdefl_compress, tdefl_compress_normal and tdefl_flush_block, with output through
    the caller's put-buffer function. */
module Deflater {
  import opened Options
  import opened Bits
  import opened LzTokens
  import LzAlphabet
  import opened Blocks
  import opened BlockCoder
  import opened BlockFlush
  import opened Stream
  import opened RunLengths
  import A = Adler32
  import TB = TokenBuffer
  import W = Window

  const CODE_LIMIT: nat := TB.LZ_CODE_BUF_SIZE - 8

  datatype Flags = Flags(probes: nat, zlib: bool, computeAdler: bool, greedy: bool, rle: bool, filter: bool,
                         forceStatic: bool, forceRaw: bool)

  datatype Status = Okay | Done | BadParam | PutBufFailed

  /** When a block is closed: the token buffer is nearly full, or the data does not compress. */
  predicate Closes(codePos: nat, total: nat, forceRaw: bool) {
    codePos > CODE_LIMIT || (total > 31 * 1024 && (codePos * 115 / 128 >= total || forceRaw))
  }

  /** A block with these tokens, its token buffer perhaps one flag byte longer, is not closed. */
  ghost predicate StaysOpen(ts: seq<Token>) {
    !Closes(|Layout(ts)| + 1, TotalSize(ts), false)
  }

  /** No prefix of the tokens closes the block. */
  ghost predicate NeverCloses(ts: seq<Token>) {
    forall k :: 0 <= k <= |ts| ==> StaysOpen(ts[..k])
  }

  // ---- parsing ----

  /** The tokens of the current block expand the history up to its start into the history up to upTo. */
  ghost predicate Parsed(h: seq<byte>, start: nat, ts: seq<Token>, upTo: int) {
    start <= upTo <= |h| && CanExpand(h[..start], ts) && Expand(h[..start], ts) == h[..upTo]
  }

  lemma NothingParsed(h: seq<byte>, p: nat)
    requires p <= |h|
    ensures Parsed(h, p, [], p)
  {
  }

  lemma ParsedSize(h: seq<byte>, start: nat, ts: seq<Token>, upTo: nat)
    requires Parsed(h, start, ts, upTo)
    ensures TotalSize(ts) == upTo - start
  {
    ExpandSize(h[..start], ts);
  }

  lemma ParsedMore(h: seq<byte>, more: seq<byte>, start: nat, ts: seq<Token>, upTo: nat)
    requires Parsed(h, start, ts, upTo)
    ensures Parsed(h + more, start, ts, upTo)
  {
    assert (h + more)[..start] == h[..start] && (h + more)[..upTo] == h[..upTo];
  }

  lemma ParseLiteral(h: seq<byte>, start: nat, ts: seq<Token>, p: nat)
    requires Parsed(h, start, ts, p) && p < |h|
    ensures Parsed(h, start, ts + [Literal(h[p])], p + 1)
  {
    ExpandSnoc(h[..start], ts, Literal(h[p]));
    assert h[..p] + [h[p]] == h[..p + 1];
  }

  /** A genuine match parses the bytes it stands for. */
  lemma ParseMatch(h: seq<byte>, start: nat, ts: seq<Token>, p: nat, dist: nat, len: nat)
    requires Parsed(h, start, ts, p) && W.IsMatch(h, p, dist, len)
    requires MIN_MATCH_LEN <= len <= MAX_MATCH_LEN && dist <= LZ_DICT_SIZE
    ensures Parsed(h, start, ts + [Match(len, dist)], p + len)
  {
    GenuineMatch(h, p, len, dist);
    ExpandSnoc(h[..start], ts, Match(len, dist));
  }

  /** A match the parser may record: long enough, within the window, and genuine. */
  ghost predicate Recordable(h: seq<byte>, p: int, dist: nat, len: nat) {
    p >= 0 && MIN_MATCH_LEN <= len <= MAX_MATCH_LEN && 1 <= dist <= LZ_DICT_SIZE && W.IsMatch(h, p, dist, len)
  }

  lemma RecordableMore(h: seq<byte>, more: seq<byte>, p: nat, dist: nat, len: nat)
    requires Recordable(h, p, dist, len)
    ensures Recordable(h + more, p, dist, len)
  {
    assert (h + more)[p - dist..p - dist + len] == h[p - dist..p - dist + len];
    assert (h + more)[p..p + len] == h[p..p + len];
  }

  lemma EmptyStream(v: nat, s: A.Sums)
    ensures ByteBits([]) + ToBits(v, 0) == [] && A.Adler(s, []) == s
  {
  }

  class Compressor {
    const flags: Flags
    /** Whether the caller's function accepts the n-th delivery. */
    const putBuf: nat -> bool
    const c: Coder
    const tb: TB.Buffer
    const win: W.Window
    var dictPos: u32
    var adler: u32
    var savedLen: nat
    var savedDist: nat
    var savedLit: byte
    var blockIndex: nat
    var wantsToFinish: bool
    var finished: bool
    var status: Status
    var deliveries: nat
    /** What the caller's function has accepted. */
    var sink: seq<byte>
    ghost var blockStart: nat
    ghost var blocks: nat

    /** The arrays of equal type are different arrays. */
    ghost predicate Parts() {
      && tb.buf != c.w.out && win.dict != c.w.out && tb.buf != win.dict
      && tb.count0 != win.next && tb.count0 != win.hash && tb.count1 != win.next && tb.count1 != win.hash
    }

    /** One byte behind the parser may still wait for a better match. */
    ghost function Pend(): nat
      reads this`savedLen
    {
      if savedLen > 0 then 1 else 0
    }

    ghost function StreamBits(): seq<bool>
      reads this`sink, c.w
    {
      ByteBits(sink) + c.w.Tail()
    }

    /** The lazy match, if there is one, starts at the byte before the parser. */
    ghost predicate SavedOk()
      reads this`savedLen, this`savedDist, this`savedLit, win
    {
      savedLen > 0 ==>
        && !flags.rle && !flags.forceRaw && savedLen < 128 && savedLen <= win.lookaheadSize + 1
        && Recordable(win.history, win.Pos() - 1, savedDist, savedLen)
        && savedLit == win.history[win.Pos() - 1]
    }

    /** The token side: buffer, window and parser agree. */
    ghost predicate Parsing()
      reads this`savedLen, this`savedDist, this`savedLit, this`blockStart, this`dictPos, win, win.dict, tb, tb.buf
      reads tb.count0, tb.count1
    {
      && tb.Valid() && win.Valid() && SavedOk()
      && Parsed(win.history, blockStart, tb.tokens, win.Pos() - Pend())
      && dictPos == blockStart % W.U32
    }

    /** The output side: the stream so far decodes to the history up to the current block. */
    ghost predicate Writing()
      reads this`sink, this`blockStart, this`blocks, this`blockIndex, c.w, win`history
    {
      && c.Valid() && c.w.out.Length == OUT_BUF_SIZE && flags.probes < 0x1000
      && blockStart <= |win.history| && (blocks == 0 <==> blockIndex == 0)
      && InProgress(StreamBits(), flags.zlib, flags.probes, blocks, win.history[..blockStart])
    }

    /** The running checksum, when one is kept, is that of h. */
    ghost predicate SummedFor(h: seq<byte>)
      reads this`adler
    {
      flags.zlib || flags.computeAdler ==> A.Unpack(adler) == A.Adler(A.Sums(1, 0), h)
    }

    ghost predicate Summed()
      reads this`adler, win`history
    {
      SummedFor(win.history)
    }

    ghost predicate Running()
      reads this`savedLen, this`savedDist, this`savedLit, this`blockStart, this`dictPos, this`sink, this`blocks
      reads this`blockIndex, c.w, win, win.dict, tb, tb.buf, tb.count0, tb.count1
    {
      Parts() && Parsing() && Writing()
    }

    ghost predicate Valid()
      reads this, c.w, win, win.dict, tb, tb.buf, tb.count0, tb.count1
    {
      status == Okay ==> Running() && Summed() && tb.codePos <= CODE_LIMIT && !finished
    }

    /** Nothing was taken in, parsed or written yet. */
    ghost predicate Untouched()
      reads this`sink, this`blockStart, this`blocks, c.w`bitsIn, win`history, win`lookaheadSize, win`dictSize, tb`tokens
    {
      && win.history == [] && win.lookaheadSize == 0 && win.dictSize == 0 && tb.tokens == []
      && blockStart == 0 && blocks == 0 && sink == [] && c.w.bitsIn == 0
    }

    lemma StartsRunning()
      requires Parts() && c.Valid() && c.w.bitsIn == 0 && c.w.out.Length == OUT_BUF_SIZE && flags.probes < 0x1000
      requires tb.Valid() && tb.tokens == [] && tb.codePos == 1 && win.Valid() && win.history == []
               && win.lookaheadSize == 0
      requires dictPos == 0 && adler == 1 && savedLen == 0 && blockIndex == 0 && sink == [] && blockStart == 0
               && blocks == 0
      requires win.dictSize == 0
      ensures Running() && Summed() && Untouched()
    {
      hide ByteBits, ToBits, A.Adler, Expand, CanExpand, TB.CountsMatch, TB.PackedTokens, TotalSize, W.Holds, Decodes;
      EmptyStream(c.w.bitBuffer, A.Sums(1, 0));
      NothingParsed([], 0);
    }

    /** tdefl_init */
    constructor (flags: Flags, putBuf: nat -> bool)
      requires flags.probes < 0x1000
      ensures Valid() && status == Okay && !wantsToFinish && this.flags == flags && this.putBuf == putBuf
      ensures Untouched() && deliveries == 0
      ensures fresh(c.w) && fresh(c.w.out) && fresh(c.TableArrays()) && fresh(tb.Repr()) && fresh(win.Repr())
    {
      this.flags, this.putBuf := flags, putBuf;
      c := new Coder(OUT_BUF_SIZE);
      tb := new TB.Buffer();
      win := new W.Window();
      dictPos, adler, savedLen, savedDist, savedLit, blockIndex := 0, 1, 0, 0, 0, 0;
      wantsToFinish, finished, status, deliveries, sink := false, false, Okay, 0, [];
      blockStart, blocks := 0, 0;
      new;
      hide *;
      StartsRunning();
    }

    // ---- flushing a block ----

    /** Whether the whole block, and a waiting byte, is still within the window. */
    function InDictionary(): bool
      reads this, win
    {
      (win.lookaheadPos - dictPos) % W.U32 <= win.dictSize
    }

    /** If so, the window yields exactly the bytes the block's tokens stand for. */
    lemma RawBytes()
      requires Parsing() && InDictionary()
      ensures var raw := win.history[blockStart..win.Pos() - Pend()];
              InWindow(win.dict, dictPos, tb.totalLzBytes, raw)
              && win.history[..blockStart] + raw == win.history[..win.Pos() - Pend()]
    {
      hide TB.CountsMatch, TB.PackedTokens, TotalSize, Expand, CanExpand, W.Holds, InWindow;
      var end := win.Pos() - Pend();
      ParsedSize(win.history, blockStart, tb.tokens, end);
      BlockSpan();
      RawBytesAt(win.dict, win.history, blockStart, end, dictPos);
    }

    /** The 32-bit difference of positions is the true one. */
    lemma BlockSpan()
      requires Parsing()
      ensures (win.lookaheadPos - dictPos) % W.U32 == win.Pos() - blockStart
    {
      hide TB.CountsMatch, TB.PackedTokens, Expand, CanExpand, W.Holds;
      tb.FewTokens();
      ParsedSize(win.history, blockStart, tb.tokens, win.Pos() - Pend());
      SizeBound(tb.tokens);
      DifferenceWraps(win.Pos(), blockStart);
    }

    /** What the closed token buffer still satisfies. */
    lemma ClosedIsParsed()
      requires Parsing()
      ensures forall i :: 0 <= i < |tb.tokens| ==> tb.tokens[i].Valid()
      ensures |tb.tokens| < 0xFFFF && TB.CountsMatch(tb.count0[..], tb.count1[..], tb.tokens)
      ensures tb.buf.Length == TB.LZ_CODE_BUF_SIZE && tb.codePos <= tb.buf.Length && tb.count0 != tb.count1
    {
      tb.FewTokens();
    }

    /** Closes the token buffer and rewinds the output buffer. */
    method OpenOutput()
      requires Running()
      modifies c.w`outPos, c.w`outEnd, tb`codePos, tb.buf
      ensures c.Valid() && c.w.outPos == 0 && c.w.outEnd == OUT_LIMIT && Closed(c, tb)
      ensures c.w.Written() == c.w.Tail() == old(c.w.Tail()) && |c.w.Tail()| == c.w.bitsIn == old(c.w.bitsIn)
    {
      hide TB.CountsMatch, TB.PackedTokens, TotalSize, Expand, CanExpand, W.Holds, ToBits, Layout, Pow2, Decodes,
           Parsed;
      ClosedIsParsed();
      tb.Close();
      c.w.outPos, c.w.outEnd := 0, OUT_LIMIT;
      NothingOut(c.w.out[..0], c.w.bitBuffer, c.w.bitsIn);
    }

    /** The block with its surroundings, into the output buffer. Afterwards there is always room left. */
    method WriteOut(flush: Flush) returns (ghost b: Block)
      requires Running()
      modifies c.w, c.w.out, c.TableArrays(), tb`codePos, tb.buf, tb.count0
      ensures c.Valid() && b.Valid() && BlockCovers(b, win.history, blockStart, old(win.Pos() - Pend()))
      ensures c.w.Written() == old(c.w.Tail()) +
                FlushOutput(b, flags.zlib && blocks == 0, flags.probes, flush, flags.zlib, adler, old(c.w.bitsIn))
      ensures flush != NoFlush ==> c.w.bitsIn == 0
      ensures c.w.outPos < c.w.outEnd
      ensures old(!InDictionary()) && flags.forceStatic ==> b == Fixed(old(tb.tokens))
    {
      hide *;
      RunningParts();
      ghost var h, end: nat, tokens := win.history, win.Pos() - Pend(), tb.tokens;
      ghost var raw := h[blockStart..end];
      var inDictionary := InDictionary();
      if inDictionary {
        RawBytes();
      }
      OpenOutput();
      b := PutFlush(c, tb, win.dict, dictPos, flags.forceRaw && inDictionary, flags.forceStatic, inDictionary,
                    flags.zlib && blockIndex == 0, flags.probes, flush, flags.zlib, adler, raw);
      Covers(b, h, blockStart, tokens, end);
      assert c.w.outPos < c.w.outEnd;
    }

    lemma RunningParts()
      requires Running()
      ensures Parsing() && Parts() && win.Shape() && (blocks == 0 <==> blockIndex == 0)
      ensures Parsed(win.history, blockStart, tb.tokens, win.Pos() - Pend())
              && blockStart <= win.Pos() - Pend() <= |win.history|
      ensures win.dict as object !in c.TableArrays() && win.dict as object != tb.count0
      ensures this !in c.TableArrays() && win !in c.TableArrays() && tb !in c.TableArrays()
      ensures Writing() && c.w !in c.TableArrays()
      ensures TokenShape() && win.Valid() && SavedOk() && dictPos == blockStart % W.U32
      ensures c.w.out.Length == OUT_BUF_SIZE && flags.probes < 0x1000
      ensures tb.totalLzBytes == win.Pos() - Pend() - blockStart
      ensures StreamBits() == ByteBits(sink) + c.w.Tail() && |c.w.Tail()| == c.w.bitsIn
      ensures InProgress(StreamBits(), flags.zlib, flags.probes, blocks, win.history[..blockStart])
    {
      ParsedSize(win.history, blockStart, tb.tokens, win.Pos() - Pend());
    }

    /** The caller's function has refused the last delivery. */
    predicate Refused()
      reads this`deliveries
    {
      deliveries > 0 && !putBuf(deliveries - 1)
    }

    /** Hands the output buffer to the caller's function. */
    method Deliver() returns (ok: bool)
      requires c.Valid() && status == Okay
      modifies this`status, this`deliveries, this`sink
      ensures ok ==> status == Okay && StreamBits() == ByteBits(old(sink)) + c.w.Written()
      ensures !ok ==> status == PutBufFailed && Refused()
      ensures deliveries <= old(deliveries) + 1
    {
      var n := c.w.outPos;
      ok := true;
      if n != 0 {
        ok := putBuf(deliveries);
        deliveries := deliveries + 1;
        if !ok {
          status := PutBufFailed;
          return;
        }
      }
      Delivered(sink, c.w.out[..n], c.w.Tail());
      sink := sink + c.w.out[..n];
    }

    /** After a flush: the next block starts where the last one ended, and nothing is buffered. */
    method NextBlock(ghost end: nat, ghost more: nat)
      requires TokenShape() && end <= |win.history| && dictPos == blockStart % W.U32
               && tb.totalLzBytes == end - blockStart >= 0
      requires win.Valid() && more > 0
      modifies this`dictPos, this`blockIndex, this`blockStart, this`blocks, tb, tb.count0, tb.count1
      ensures tb.Valid() && tb.tokens == [] && tb.codePos == 1 && dictPos == blockStart % W.U32 && blockStart == end
      ensures Parsed(win.history, blockStart, tb.tokens, end)
      ensures blocks == old(blocks) + more > 0 && blockIndex > 0
    {
      W.WrapAdd(blockStart, tb.totalLzBytes);
      dictPos := (dictPos as int + tb.totalLzBytes) % W.U32;
      tb.Reset();
      blockIndex := blockIndex + 1;
      blockStart, blocks := end, blocks + more;
      NothingParsed(win.history, end);
    }

    ghost predicate TokenShape() {
      && tb.buf.Length == TB.LZ_CODE_BUF_SIZE && tb.buf as object != tb.count0 && tb.buf as object != tb.count1
      && tb.count0 != tb.count1 && tb.count0.Length == tb.count1.Length == 288
    }

    lemma ParsesOn()
      requires tb.Valid() && win.Valid() && SavedOk() && Parsed(win.history, blockStart, tb.tokens, win.Pos() - Pend())
      requires dictPos == blockStart % W.U32
      ensures Parsing()
    {
    }

    lemma WritesOn()
      requires c.Valid() && c.w.out.Length == OUT_BUF_SIZE && flags.probes < 0x1000 && blockStart <= |win.history|
      requires blocks > 0 && blockIndex > 0
               && InProgress(StreamBits(), flags.zlib, flags.probes, blocks, win.history[..blockStart])
      ensures Writing()
    {
    }

    /** What follows the writing of a block: the bytes are handed over and the next block starts. */
    method SendBlock(ghost end: nat, ghost more: nat) returns (ok: bool)
      requires TokenShape() && end <= |win.history| && dictPos == blockStart % W.U32
               && tb.totalLzBytes == end - blockStart >= 0
      requires win.Valid() && SavedOk() && more > 0 && end == win.Pos() - Pend()
      requires c.Valid() && status == Okay && tb !in c.TableArrays() && this !in c.TableArrays()
               && win.dict as object !in {tb.count0 as object, tb.count1}
      modifies this`status, this`dictPos, this`blockIndex, this`blockStart, this`blocks, this`deliveries, this`sink, tb
      modifies tb.count0, tb.count1
      ensures ok ==>
                status == Okay && Parsing() && tb.codePos == 1 && StreamBits() == ByteBits(old(sink)) + c.w.Written()
      ensures blockStart == end && blocks == old(blocks) + more > 0 && blockIndex > 0
      ensures !ok ==> status == PutBufFailed && Refused()
      ensures deliveries <= old(deliveries) + 1
    {
      hide *;
      NextBlock(end, more);
      ok := Deliver();
      ParsesOn();
    }

    /** tdefl_flush_block: one block for everything parsed so far. */
    method FlushBlock(flush: Flush) returns (ok: bool, ghost b: Block)
      requires Running() && status == Okay
      modifies this`status, this`dictPos, this`blockIndex, this`blockStart, this`blocks, this`deliveries, this`sink
      modifies c.w, c.w.out, c.TableArrays(), tb, tb.buf, tb.count0, tb.count1
      ensures ok ==>
                status == Okay && Parts() && Parsing() && tb.codePos == 1 && blocks > 0
                && blockStart == win.Pos() - Pend()
      ensures ok && flush != Finish ==> Writing()
      ensures ok && flush == Finish ==>
                Complete(StreamBits(), flags.zlib, flags.probes, adler, win.history[..blockStart])
      ensures ok && flush != NoFlush ==> c.w.bitsIn == 0
      ensures !ok ==> status == PutBufFailed && Refused()
      ensures deliveries <= old(deliveries) + 1 && b.Valid()
      ensures ok ==>
                StreamBits() == ByteBits(old(sink)) + (old(c.w.Tail()) +
                FlushOutput(b, flags.zlib && old(blocks) == 0, flags.probes, flush, flags.zlib, adler, old(c.w.bitsIn)))
      ensures old(!InDictionary()) && flags.forceStatic ==> b == Fixed(old(tb.tokens))
    {
      hide *;
      RunningParts();
      ghost var tail, before, was, h, start, end :=
                  c.w.Tail(), sink, blocks, win.history, blockStart, win.Pos() - Pend();
      ghost var more: nat := if flush == NoFlush then 1 else 2;
      b := WriteOut(flush);
      ok := SendBlock(end, more);
      if ok {
        FlushedStream(StreamBits(), before, tail, flags.zlib, flags.probes, was, h, start, end, b, flush, adler);
        if flush != Finish {
          WritesOn();
        }
      }
    }

    // ---- the parser ----

    /** The match to consider at the parser: none (distance 0), or a recordable one; it is longer
        than the waiting match only if it is one. */
    method FindCurrent() returns (dist: nat, len: nat)
      requires win.Valid() && SavedOk() && win.lookaheadSize > 0 && flags.probes < 0x1000
      ensures dist > 0 ==> !flags.forceRaw && len <= win.lookaheadSize && Recordable(win.history, win.Pos(), dist, len)
      ensures dist == 0 && savedLen > 0 ==> len <= savedLen
      ensures InRuns() && AtStart() ==> FindsRun(dist, len)
    {
      var probesShort, probesLong := 1 + (flags.probes + 2) / 3, 1 + (flags.probes / 4 + 2) / 3;
      dist, len := 0, if savedLen > 0 then savedLen else MIN_MATCH_LEN - 1;
      if flags.rle || flags.forceRaw {
        if win.dictSize > 0 && !flags.forceRaw {
          len := win.FindRun();
          RunIs(win.history, win.Pos(), win.lookaheadSize, len);
          if len < MIN_MATCH_LEN {
            len := 0;
          } else {
            dist := 1;
          }
        }
      } else {
        dist, len :=
          win.FindMatch(win.dictSize, win.lookaheadSize, dist, len, if len >= 32 then probesLong else probesShort);
      }
      if (len == MIN_MATCH_LEN && dist >= 8 * 1024) || win.lookaheadPos % LZ_DICT_SIZE == dist
         || (flags.filter && len <= 5) {
        dist, len := 0, 0;
      }
    }

    /** Only runs are looked for. */
    predicate InRuns() {
      flags.rle && !flags.forceRaw
    }

    /** The dictionary is empty only at the very start. */
    ghost predicate AtStart()
      reads win
    {
      win.dictSize > 0 <==> win.Pos() > 0
    }

    /** The token for what was found: none at distance 0. */
    ghost function FoundToken(dist: nat, len: nat): Token
      requires 0 <= win.Pos() < |win.history|
      reads win
    {
      if dist == 0 then Literal(win.history[win.Pos()]) else Match(len, dist)
    }

    ghost predicate FindsRun(dist: nat, len: nat)
      reads win
    {
      && 0 <= win.Pos() < |win.history| && 0 < win.lookaheadSize <= MAX_MATCH_LEN
      && FoundToken(dist, len) == RunToken(win.history, win.Pos(), win.lookaheadSize, flags.filter)
    }

    /** The byte at the parser, as the window holds it. */
    method CurrentByte() returns (b: byte)
      requires win.Valid() && win.lookaheadSize > 0
      ensures b == win.history[win.Pos()]
    {
      W.EndPos(win.Pos(), 0, win.lookaheadPos);
      W.ReadAcross(win.dict[..], win.history, win.Pos(), 0);
      b := win.dict[win.lookaheadPos % LZ_DICT_SIZE];
    }

    /** The state of the parser between a decision and the move of `move` bytes it asks for. */
    ghost predicate Decided(move: nat)
      reads this, win, tb, tb.buf, tb.count0, tb.count1
    {
      && tb.Valid() && 1 <= move <= win.lookaheadSize <= |win.history|
      && Parsed(win.history, blockStart, tb.tokens, win.Pos() + move - Pend())
      && (savedLen > 0 ==>
            && !flags.rle && !flags.forceRaw && savedLen < 128 && move == 1 && savedLen <= win.lookaheadSize
            && Recordable(win.history, win.Pos(), savedDist, savedLen) && savedLit == win.history[win.Pos()])
    }

    /** A match at the parser is recorded at once, or kept waiting for one byte. */
    method RecordNow(dist: nat, len: nat) returns (move: nat)
      requires Parsing() && savedLen == 0 && dist > 0 && len <= win.lookaheadSize
               && Recordable(win.history, win.Pos(), dist, len)
      requires tb.codePos + 3 < tb.buf.Length
      modifies tb.Repr()
      ensures Decided(move) && tb.codePos <= old(tb.codePos) + 4
      ensures tb.tokens == old(tb.tokens) + [Match(len, dist)] && move == len
    {
      hide TB.CountsMatch, TB.PackedTokens, TotalSize, Expand, CanExpand, W.Holds, W.IsMatch, LzAlphabet.LitLenCount,
           LzAlphabet.DistCount;
      ParseMatch(win.history, blockStart, tb.tokens, win.Pos(), dist, len);
      tb.RecordMatch(len, dist);
      move := len;
    }

    method Wait(dist: nat, len: nat) returns (move: nat)
      requires Parsing() && savedLen == 0 && dist > 0 && len <= win.lookaheadSize
               && Recordable(win.history, win.Pos(), dist, len)
      requires win.lookaheadSize > 0 && !flags.rle && !flags.forceRaw && len < 128
      modifies this`savedLen, this`savedDist, this`savedLit
      ensures Decided(move)
    {
      hide TB.CountsMatch, TB.PackedTokens, TotalSize, Expand, CanExpand, W.Holds, W.IsMatch;
      savedLit := CurrentByte();
      savedDist, savedLen := dist, len;
      move := 1;
    }

    ghost predicate Current(dist: nat, len: nat)
      reads this, win
    {
      && (dist > 0 ==> !flags.forceRaw && len <= win.lookaheadSize && Recordable(win.history, win.Pos(), dist, len))
      && (dist == 0 && savedLen > 0 ==> len <= savedLen)
    }

    /** Nothing is waiting. */
    method DecideFresh(dist: nat, len: nat) returns (move: nat)
      requires Parsing() && savedLen == 0 && Current(dist, len) && win.lookaheadSize > 0 && tb.codePos <= CODE_LIMIT + 2
      modifies this`savedLen, this`savedDist, this`savedLit, tb.Repr()
      ensures Decided(move) && tb.codePos <= old(tb.codePos) + 4
      ensures InRuns() ==> tb.tokens == old(tb.tokens) + [FoundToken(dist, len)] && move == FoundToken(dist, len).Size()
    {
      hide TB.CountsMatch, TB.PackedTokens, TotalSize, Expand, CanExpand, W.Holds, W.IsMatch, LzAlphabet.LitLenCount,
           LzAlphabet.DistCount;
      if dist == 0 {
        var lit := CurrentByte();
        ParseLiteral(win.history, blockStart, tb.tokens, win.Pos());
        tb.RecordLiteral(lit);
        move := 1;
      } else if flags.greedy || flags.rle || len >= 128 {
        move := RecordNow(dist, len);
      } else {
        move := Wait(dist, len);
      }
    }

    /** The waiting literal is recorded; the byte at the parser comes next. */
    method RecordSavedLiteral()
      requires Parsing() && savedLen > 0 && tb.codePos <= CODE_LIMIT
      modifies this`savedLen, tb.Repr()
      ensures Parsing() && savedLen == 0 && tb.codePos <= old(tb.codePos) + 2
    {
      hide TB.CountsMatch, TB.PackedTokens, TotalSize, Expand, CanExpand, W.Holds, W.IsMatch, LzAlphabet.LitLenCount,
           LzAlphabet.DistCount;
      ParseLiteral(win.history, blockStart, tb.tokens, win.Pos() - 1);
      tb.RecordLiteral(savedLit);
      savedLen := 0;
    }

    method RecordSavedMatch() returns (move: nat)
      requires Parsing() && savedLen > 0 && tb.codePos <= CODE_LIMIT
      modifies this`savedLen, tb.Repr()
      ensures Decided(move) && tb.codePos <= old(tb.codePos) + 4
    {
      hide TB.CountsMatch, TB.PackedTokens, TotalSize, Expand, CanExpand, W.Holds, W.IsMatch, LzAlphabet.LitLenCount,
           LzAlphabet.DistCount;
      ParseMatch(win.history, blockStart, tb.tokens, win.Pos() - 1, savedDist, savedLen);
      tb.RecordMatch(savedLen, savedDist);
      move := savedLen - 1;
      savedLen := 0;
    }

    /** A match is waiting: a longer one turns its first byte into a literal, otherwise it is taken. */
    method DecideSaved(dist: nat, len: nat) returns (move: nat)
      requires Parsing() && savedLen > 0 && Current(dist, len) && win.lookaheadSize > 0 && tb.codePos <= CODE_LIMIT
      modifies this`savedLen, this`savedDist, this`savedLit, tb.Repr()
      ensures Decided(move) && tb.codePos <= old(tb.codePos) + 6
    {
      hide TB.CountsMatch, TB.PackedTokens, TotalSize, Expand, CanExpand, W.Holds, W.IsMatch, Decided;
      if len > savedLen {
        RecordSavedLiteral();
        if len >= 128 {
          move := RecordNow(dist, len);
        } else {
          move := Wait(dist, len);
        }
      } else {
        move := RecordSavedMatch();
      }
    }

    /** The token of the run at p was recorded, and the parser has moved past it. */
    ghost predicate TookRun(before: seq<Token>, p: int, ahead: nat)
      reads win, tb`tokens
    {
      && 0 <= p && 0 < ahead <= MAX_MATCH_LEN && p + ahead <= |win.history|
      && var t := RunToken(win.history, p, ahead, flags.filter);
         tb.tokens == before + [t] && win.Pos() == p + t.Size()
    }

    /** One round of the lazy parser: find, decide, move. */
    method Step()
      requires Parsing() && win.lookaheadSize > 0 && tb.codePos <= CODE_LIMIT && flags.probes < 0x1000
      modifies this`savedLen, this`savedDist, this`savedLit, tb, tb.buf, tb.count0, tb.count1, win`lookaheadPos
      modifies win`lookaheadSize, win`dictSize
      ensures Parsing() && win.lookaheadSize <= |win.history| && win.lookaheadSize < old(win.lookaheadSize)
              && tb.codePos <= CODE_LIMIT + 6
      ensures win.dictSize > 0
      ensures InRuns() && old(AtStart()) ==> TookRun(old(tb.tokens), old(win.Pos()), old(win.lookaheadSize))
    {
      hide TB.CountsMatch, TB.PackedTokens, TotalSize, Expand, CanExpand, W.Holds, W.IsMatch;
      var dist, len := FindCurrent();
      var move;
      if savedLen > 0 {
        move := DecideSaved(dist, len);
      } else {
        move := DecideFresh(dist, len);
      }
      win.Advance(move);
    }

    // ---- the whole loop ----

    /** Takes input into the window. */
    method TakeInput(src: seq<byte>) returns (n: nat)
      requires Running()
      modifies win, win.dict, win.next, win.hash
      ensures n <= |src| && Running() && win.history == old(win.history) + src[..n]
              && win.lookaheadSize == old(win.lookaheadSize) + n
      ensures n < |src| ==> win.lookaheadSize == MAX_MATCH_LEN
      ensures |src| > 0 || old(win.lookaheadSize) > 0 ==> win.lookaheadSize > 0
      ensures old(AtStart()) ==> AtStart()
      ensures win.lookaheadSize <= MAX_MATCH_LEN
    {
      hide TB.CountsMatch, TB.PackedTokens, TotalSize, Expand, CanExpand, W.Holds, W.IsMatch, Decodes, ByteBits, ToBits;
      ghost var h := win.history;
      n := win.Fill(src);
      ghost var more := src[..n];
      ParsedMore(h, more, blockStart, tb.tokens, win.Pos() - Pend());
      if savedLen > 0 {
        RecordableMore(h, more, win.Pos() - 1, savedDist, savedLen);
      }
      assert (h + more)[..blockStart] == h[..blockStart];
    }

    /** Whether the block is closed now: the token buffer is nearly full, or the data does not compress. */
    method CheckFull() returns (full: bool)
      ensures full == Closes(tb.codePos, tb.totalLzBytes, flags.forceRaw)
      ensures full || tb.codePos <= CODE_LIMIT
      ensures tb.Valid() && !flags.forceRaw && StaysOpen(tb.tokens) ==> !full
    {
      hide TB.CountsMatch, TB.PackedTokens, Layout, TotalSize;
      if tb.Valid() {
        tb.LayoutLength();
      }
      full := tb.codePos > CODE_LIMIT ||
        (tb.totalLzBytes > 31 * 1024 && (tb.codePos * 115 / 128 >= tb.totalLzBytes || flags.forceRaw));
    }

    /** Takes what fits of the input from p on. */
    method TakeRest(ghost h: seq<byte>, src: seq<byte>, p: nat) returns (q: nat)
      requires Running() && p <= |src| && win.history == h + src[..p]
      modifies win, win.dict, win.next, win.hash
      ensures p <= q <= |src| && Running() && win.history == h + src[..q]
              && win.lookaheadSize == old(win.lookaheadSize) + q - p
      ensures q < |src| ==> win.lookaheadSize == MAX_MATCH_LEN
      ensures p < |src| || old(win.lookaheadSize) > 0 ==> win.lookaheadSize > 0
      ensures old(RunsOnly(h + src)) ==> RunsOnly(h + src) && (win.lookaheadSize > 0 ==> RunsNext(h + src))
    {
      hide *;
      RunningParts();
      if RunsOnly(h + src) {
        RunsAtStart(h + src);
      }
      var n := TakeInput(src[p..]);
      SliceMore(h, src, p, n);
      q := p + n;
      if old(RunsOnly(h + src)) {
        PrefixOf(h, src, q);
        RunsOnAfter(h + src);
      }
    }

    /** tdefl_compress_normal: all input is consumed, and with a flush nothing is left to parse. */
    method CompressNormal(src: seq<byte>, flush: Flush) returns (ok: bool)
      requires Running() && status == Okay && tb.codePos <= CODE_LIMIT
      modifies this`savedLen, this`savedDist, this`savedLit
      modifies this`status, this`dictPos, this`blockIndex, this`blockStart, this`blocks, this`deliveries, this`sink
      modifies c.w, c.w.out, c.TableArrays(), tb, tb.buf, tb.count0, tb.count1, win, win.dict, win.next, win.hash
      ensures ok ==> status == Okay && Running() && tb.codePos <= CODE_LIMIT && win.history == old(win.history) + src
      ensures ok && flush != NoFlush ==> win.lookaheadSize == 0
      ensures !ok ==> status == PutBufFailed && Refused()
      ensures deliveries + win.lookaheadSize <= old(deliveries + win.lookaheadSize) + |src|
      ensures old(RunsOnly(win.history + src)) && flush != NoFlush ==> ok && RunsOnly(win.history)
    {
      hide *;
      RunningParts();
      ghost var h := win.history;
      ghost var runs := RunsOnly(h + src);
      var p: nat := 0;
      ok := true;
      assert h + src[..0] == h;
      while p < |src| || (flush != NoFlush && win.lookaheadSize > 0)
        invariant p <= |src| && Running() && status == Okay && tb.codePos <= CODE_LIMIT && win.history == h + src[..p]
        invariant deliveries + win.lookaheadSize <= old(deliveries + win.lookaheadSize) + p
        invariant runs ==> RunsOnly(h + src)
        decreases |src| - p + win.lookaheadSize
      {
        p := TakeRest(h, src, p);
        if flush == NoFlush && win.lookaheadSize < MAX_MATCH_LEN {
          break;
        }
        ok := StepAndFlush(h + src);
        if !ok {
          return;
        }
      }
      assert src[..p] == src;
    }

    lemma RunsOn()
      requires Parts() && Parsing() && Writing()
      ensures Running() && tb.Valid() && 1 <= CODE_LIMIT
    {
    }

    /** A first block under way that is made of runs: its tokens so far, with those of the rest, are those of data. */
    ghost predicate RunsThrough(data: seq<byte>)
      reads this`sink, this`blockStart, this`blocks, c.w, win, tb`tokens
    {
      && InRuns() && AtStart() && blockStart == 0 && blocks == 0 && sink == [] && c.w.Tail() == []
      && win.history <= data && 0 <= win.Pos() <= |data|
      && tb.tokens + RunTokens(data, win.Pos(), flags.filter) == RunTokens(data, 0, flags.filter)
    }

    lemma RunStarts(data: seq<byte>)
      requires RunsNext(data)
      ensures RunsOnly(data) && InRuns() && AtStart() && !flags.forceRaw && blocks == 0 && sink == []
              && c.w.Tail() == []
    {
    }

    /** And no prefix of the tokens of data closes the block. */
    ghost predicate RunsOnly(data: seq<byte>)
      reads this`sink, this`blockStart, this`blocks, c.w, win, tb`tokens
    {
      RunsThrough(data) && NeverCloses(RunTokens(data, 0, flags.filter))
    }

    /** There is more, with the lookahead topped up. */
    ghost predicate RunsNext(data: seq<byte>)
      reads this`sink, this`blockStart, this`blocks, c.w, win, tb`tokens
    {
      RunsOnly(data) && win.Pos() < |data| && win.lookaheadSize == Ahead(data, win.Pos())
    }

    lemma RunsFromStart(data: seq<byte>)
      requires Untouched() && InRuns()
      ensures RunsThrough(data)
    {
      hide RunTokens;
    }

    lemma RunsAtStart(data: seq<byte>)
      requires RunsOnly(data)
      ensures AtStart()
    {
    }

    /** Taking input keeps it so and tops up the lookahead. */
    twostate lemma RunsOnAfter(data: seq<byte>)
      requires old(RunsOnly(data)) && AtStart() && win.history <= data
      requires |win.history| - win.lookaheadSize == old(|win.history| - win.lookaheadSize)
               && win.lookaheadSize <= MAX_MATCH_LEN
      requires win.history != data ==> win.lookaheadSize == MAX_MATCH_LEN
      requires tb.tokens == old(tb.tokens) && sink == old(sink) && c.w.Tail() == old(c.w.Tail())
      requires blockStart == old(blockStart) && blocks == old(blocks)
      ensures RunsOnly(data) && (win.lookaheadSize > 0 ==> RunsNext(data))
    {
      hide RunTokens, NeverCloses;
    }

    /** All tokens of the data are in this one block, which the window no longer holds. */
    lemma RunsDone()
      requires Running() && RunsOnly(win.history) && win.lookaheadSize == 0 && |win.history| > LZ_DICT_SIZE
      ensures tb.tokens == RunTokens(win.history, 0, flags.filter) && !InDictionary()
      ensures blocks == 0 && sink == [] && c.w.Tail() == []
    {
      hide NeverCloses, TB.CountsMatch, TB.PackedTokens, Expand, CanExpand, W.Holds, Decodes, W.IsMatch, ByteBits,
           TotalSize;
      BlockSpan();
    }

    /** One token more, and the block stays open. */
    twostate lemma RunsOneMore(data: seq<byte>)
      requires old(RunsNext(data))
      requires TookRun(old(tb.tokens), old(win.Pos()), old(win.lookaheadSize)) && win.dictSize > 0
      requires win.history == old(win.history) && sink == old(sink) && c.w.Tail() == old(c.w.Tail())
      requires blockStart == old(blockStart) && blocks == old(blocks)
      ensures RunsOnly(data) && StaysOpen(tb.tokens)
    {
      hide RunTokens, RunToken, StaysOpen, Ahead;
      NextRun(data, win.history, old(win.Pos()), old(tb.tokens), flags.filter);
      assert StaysOpen(RunTokens(data, 0, flags.filter)[..|old(tb.tokens)| + 1]);
    }

    /** A parsing step, and a flush if the block is full. */
    method StepAndFlush(ghost data: seq<byte>) returns (ok: bool)
      requires Running() && status == Okay && win.lookaheadSize > 0 && tb.codePos <= CODE_LIMIT
      modifies this`savedLen, this`savedDist, this`savedLit
      modifies this`status, this`dictPos, this`blockIndex, this`blockStart, this`blocks, this`deliveries, this`sink
      modifies c.w, c.w.out, c.TableArrays(), tb, tb.buf, tb.count0, tb.count1, win`lookaheadPos, win`lookaheadSize
      modifies win`dictSize
      ensures ok ==>
                status == Okay && Running() && tb.codePos <= CODE_LIMIT && win.lookaheadSize < old(win.lookaheadSize)
      ensures !ok ==> status == PutBufFailed && Refused()
      ensures win.lookaheadSize < old(win.lookaheadSize) && deliveries <= old(deliveries) + 1
      ensures old(RunsNext(data)) ==> ok && RunsOnly(data)
    {
      hide *;
      RunningParts();
      if RunsNext(data) {
        RunStarts(data);
      }
      Step();
      RunsOn();
      ok := true;
      var full := CheckFull();
      if old(RunsNext(data)) {
        RunsOneMore(data);
      }
      if full {
        ghost var b;
        ok, b := FlushBlock(NoFlush);
        if ok {
          RunsOn();
        }
      }
    }

    // ---- one call ----

    /** The format's header length: bits before the first block. */
    ghost function Base(): nat {
      |StartBits(flags.zlib, flags.probes)|
    }

    /** tdefl_compress with an output function. Misuse changes nothing but the status. After any accepted
        call all input is consumed; after a flush what was delivered decodes, block by block, to everything
        consumed so far; after finishing it is a complete stream for it. It fails only if the output function
        refuses something. */
    method Compress(src: seq<byte>, flush: Flush) returns (s: Status)
      requires Valid()
      modifies this, c.w, c.w.out, c.TableArrays(), tb, tb.buf, tb.count0, tb.count1, win, win.dict, win.next, win.hash
      ensures Valid() && s == status
      ensures (old(status) != Okay || (old(wantsToFinish) && flush != Finish)) ==>
                s == BadParam && sink == old(sink) && win.history == old(win.history)
      ensures !(old(status) != Okay || (old(wantsToFinish) && flush != Finish)) ==> s != BadParam
      ensures s == PutBufFailed ==> Refused()
      ensures deliveries + win.lookaheadSize <= old(deliveries + win.lookaheadSize) + |src| + 1
      ensures s == Okay || s == Done ==> win.history == old(win.history) + src
      ensures s == Done ==>
                flush == Finish
                && (if flags.zlib then ZlibDecode(sink) else RawDecode(sink)) == Option.Some(win.history)
      ensures s == Okay ==> flush != Finish && wantsToFinish == old(wantsToFinish)
      ensures s == Okay && flush != NoFlush ==> blocks > 0 && Decodes(ByteBits(sink), Base(), blocks, win.history)
      ensures old(Untouched()) && LargeInRuns(src) && s == Done ==> SentInRuns(src)
    {
      if status != Okay || (wantsToFinish && flush != Finish) {
        status := BadParam;
        return status;
      }
      s := Accept(src, flush);
    }

    lemma ValidParts()
      requires Valid() && status == Okay
      ensures Running() && SummedFor(win.history) && tb.codePos <= CODE_LIMIT && !finished
    {
    }

    lemma ValidAgain()
      requires status == Okay ==> Running() && Summed() && tb.codePos <= CODE_LIMIT && !finished
      ensures Valid()
    {
    }

    /** The checksum is carried over the input of this call. */
    method AddToSum(src: seq<byte>, ghost h: seq<byte>)
      requires win.history == h + src
      requires SummedFor(h)
      modifies this`adler
      ensures Summed()
    {
      hide A.Adler, A.Unpack;
      if flags.zlib || flags.computeAdler {
        adler := A.Checksum(adler, src);
        A.Compose(A.Sums(1, 0), h, src);
      }
    }

    /** With the lookahead used up no match can be waiting. */
    lemma NothingWaits()
      requires Running() && win.lookaheadSize == 0
      ensures Pend() == 0 && win.Pos() == |win.history|
    {
      hide W.IsMatch, TB.PackedTokens, TB.CountsMatch, Decodes, Expand, CanExpand;
    }

    /** The stream is whole bytes, and covers everything consumed. */
    lemma AllDelivered()
      requires c.w.bitsIn == 0 && blockStart == |win.history|
      ensures StreamBits() == ByteBits(sink) && win.history[..blockStart] == win.history
    {
    }

    lemma InProgressDecodes()
      requires Writing() && blocks > 0 && c.w.bitsIn == 0 && blockStart == |win.history|
      ensures Decodes(ByteBits(sink), Base(), blocks, win.history)
    {
      hide Decodes;
      AllDelivered();
    }

    lemma FinishedDecodes()
      requires Summed() && c.w.bitsIn == 0 && blockStart == |win.history|
      requires Complete(StreamBits(), flags.zlib, flags.probes, adler, win.history[..blockStart])
      ensures (if flags.zlib then ZlibDecode(sink) else RawDecode(sink)) == Option.Some(win.history)
    {
      hide Complete, ZlibDecode, RawDecode, A.Adler, ByteBits;
      AllDelivered();
      CompleteDecodes(sink, flags.zlib, flags.probes, adler, win.history);
    }

    /** A full flush forgets the window's past. */
    method ForgetWindow()
      requires Running() && win.lookaheadSize == 0 && blockStart == |win.history|
      modifies win`dictSize, win.next, win.hash
      ensures Running()
    {
      hide TB.CountsMatch, TB.PackedTokens, Expand, CanExpand, W.Holds, W.IsMatch, Decodes, ByteBits, ToBits, TotalSize,
           LzAlphabet.LitLenCount;
      win.Forget();
    }

    /** What was delivered is one block with its surroundings, and nothing else. */
    ghost predicate SentAlone(b: Block)
      requires b.Valid()
      reads this`sink, this`adler
    {
      ByteBits(sink) == FlushOutput(b, flags.zlib, flags.probes, Finish, flags.zlib, adler, 0)
    }

    lemma OneBlock(b: Block)
      requires b.Valid() && ByteBits(sink) == StreamBits()
      requires StreamBits() == ByteBits([]) +
                 ([] + FlushOutput(b, flags.zlib, flags.probes, Finish, flags.zlib, adler, 0))
      ensures SentAlone(b)
    {
      hide FlushOutput;
      assert ByteBits([]) == [];
    }

    /** The flush at the end of a call; nothing is left to parse. */
    method FlushAll(flush: Flush) returns (ghost b: Block)
      requires Running() && Summed() && win.lookaheadSize == 0 && flush != NoFlush && status == Okay && !finished
      modifies this`finished, win`dictSize, win.next, win.hash
      modifies this`status, this`dictPos, this`blockIndex, this`blockStart, this`blocks, this`deliveries, this`sink
      modifies c.w, c.w.out, c.TableArrays(), tb, tb.buf, tb.count0, tb.count1
      ensures Valid() && status != BadParam && (status == PutBufFailed ==> Refused())
      ensures status == Done ==>
                flush == Finish
                && (if flags.zlib then ZlibDecode(sink) else RawDecode(sink)) == Option.Some(win.history)
      ensures status == Okay ==> flush != Finish && blocks > 0 && Decodes(ByteBits(sink), Base(), blocks, win.history)
      ensures deliveries <= old(deliveries) + 1 && b.Valid()
      ensures status == Done && old(blocks) == 0 && old(sink) == [] && old(c.w.Tail()) == [] ==> SentAlone(b)
      ensures old(!InDictionary()) && flags.forceStatic ==> b == Fixed(old(tb.tokens))
    {
      hide *;
      RunningParts();
      NothingWaits();
      var ok;
      ok, b := FlushBlock(flush);
      if !ok {
        ValidAgain();
        return;
      }
      finished := flush == Finish;
      if finished {
        FinishedDecodes();
        AllDelivered();
        if old(blocks) == 0 && old(sink) == [] && old(c.w.Tail()) == [] {
          OneBlock(b);
        }
        status := Done;
      } else {
        RunsOn();
        InProgressDecodes();
        if flush == FullFlush {
          ForgetWindow();
        }
      }
      ValidAgain();
    }

    /** Data for one block that only runs are looked for in, that is never closed early, and that the window does not
        hold when it is sent: all that decides about a forced fixed block. */
    ghost predicate LargeInRuns(data: seq<byte>) {
      && InRuns() && flags.forceStatic && |data| > LZ_DICT_SIZE && NeverCloses(RunTokens(data, 0, flags.filter))
    }

    /** It was sent as one fixed block, whatever its size. */
    ghost predicate SentInRuns(data: seq<byte>)
      reads this`sink, this`adler
    {
      var b := Fixed(RunTokens(data, 0, flags.filter));
      b.Valid() && SentAlone(b)
    }

    lemma LargeStarts(data: seq<byte>)
      requires Running() && Untouched() && LargeInRuns(data)
      ensures win.history == [] && RunsOnly(win.history + data)
    {
      hide RunTokens, NeverCloses;
      assert [] + data == data;
      RunsFromStart(data);
    }

    lemma LargeDone(data: seq<byte>)
      requires Running() && LargeInRuns(data) && RunsOnly(win.history) && win.lookaheadSize == 0
               && win.history == [] + data
      ensures tb.tokens == RunTokens(data, 0, flags.filter) && !InDictionary() && flags.forceStatic
      ensures blocks == 0 && sink == [] && c.w.Tail() == []
    {
      hide *;
      LargeIs(data);
      assert [] + data == data;
      RunsDone();
    }

    lemma LargeIs(data: seq<byte>)
      requires LargeInRuns(data)
      ensures flags.forceStatic && |data| > LZ_DICT_SIZE
    {
    }

    lemma LargeSent(data: seq<byte>, b: Block)
      requires b.Valid() && b == Fixed(RunTokens(data, 0, flags.filter)) && SentAlone(b)
      ensures SentInRuns(data)
    {
    }

    /** What follows the parsing: the checksum, and the flush. */
    method SumAndFlush(src: seq<byte>, ghost h: seq<byte>, flush: Flush, ghost large: bool)
      requires Running() && status == Okay && tb.codePos <= CODE_LIMIT && !finished
      requires SummedFor(h) && win.history == h + src && (flush != NoFlush ==> win.lookaheadSize == 0)
      requires large && flush != NoFlush ==> h == [] && RunsOnly(win.history) && LargeInRuns(src)
      modifies this`adler, this`finished, win`dictSize, win.next, win.hash
      modifies this`status, this`dictPos, this`blockIndex, this`blockStart, this`blocks, this`deliveries, this`sink
      modifies c.w, c.w.out, c.TableArrays(), tb, tb.buf, tb.count0, tb.count1
      ensures Valid() && status != BadParam && (status == PutBufFailed ==> Refused())
      ensures status == Done ==>
                flush == Finish
                && (if flags.zlib then ZlibDecode(sink) else RawDecode(sink)) == Option.Some(win.history)
      ensures status == Okay ==> flush != Finish
      ensures status == Okay && flush != NoFlush ==> blocks > 0 && Decodes(ByteBits(sink), Base(), blocks, win.history)
      ensures deliveries <= old(deliveries) + 1 && (large && status == Done ==> SentInRuns(src))
    {
      hide *;
      RunningParts();
      AddToSum(src, h);
      if flush != NoFlush {
        if large {
          LargeDone(src);
        }
        ghost var b := FlushAll(flush);
        if large && status == Done {
          LargeSent(src, b);
        }
      } else {
        ValidAgain();
      }
    }

    method Accept(src: seq<byte>, flush: Flush) returns (s: Status)
      requires Valid() && status == Okay
      modifies this, c.w, c.w.out, c.TableArrays(), tb, tb.buf, tb.count0, tb.count1, win, win.dict, win.next, win.hash
      ensures Valid() && s == status != BadParam && wantsToFinish == (old(wantsToFinish) || flush == Finish)
      ensures s == Okay || s == Done ==> win.history == old(win.history) + src
      ensures s == Done ==>
                flush == Finish
                && (if flags.zlib then ZlibDecode(sink) else RawDecode(sink)) == Option.Some(win.history)
      ensures s == Okay ==> flush != Finish
      ensures s == PutBufFailed ==> Refused()
      ensures s == Okay && flush != NoFlush ==> blocks > 0 && Decodes(ByteBits(sink), Base(), blocks, win.history)
      ensures deliveries + win.lookaheadSize <= old(deliveries + win.lookaheadSize) + |src| + 1
      ensures old(Untouched()) && LargeInRuns(src) && s == Done ==> SentInRuns(src)
    {
      hide *;
      ghost var h := win.history;
      ValidParts();
      RunningParts();
      ghost var large := Untouched() && LargeInRuns(src);
      if large {
        LargeStarts(src);
      }
      wantsToFinish := wantsToFinish || flush == Finish;
      var ok := CompressNormal(src, flush);
      if !ok {
        ValidAgain();
        return status;
      }
      SumAndFlush(src, h, flush, large);
      s := status;
    }
  }

  /** tdefl_compress_mem_to_output: it succeeds unless the output function refuses one of its calls, of which there are
      at most one a byte and one more; and then what that received decodes to the input. */
  method CompressMemToOutput(src: seq<byte>, flags: Flags, putBuf: nat -> bool)
    returns (succeeded: bool, output: seq<byte>)
    requires flags.probes < 0x1000
    ensures !succeeded ==> exists i :: 0 <= i <= |src| && !putBuf(i)
    ensures succeeded ==> (if flags.zlib then ZlibDecode(output) else RawDecode(output)) == Option.Some(src)
  {
    var d := new Compressor(flags, putBuf);
    var s := d.Compress(src, Finish);
    succeeded, output := s == Done, d.sink;
    assert !succeeded ==> !putBuf(d.deliveries - 1);
    assert [] + src == src;
  }

  function Joined(pieces: seq<seq<byte>>): seq<byte> {
    if |pieces| == 0 then [] else Joined(pieces[..|pieces| - 1]) + pieces[|pieces| - 1]
  }

  lemma {:induction false} JoinedPart(pieces: seq<seq<byte>>, i: nat)
    requires i <= |pieces|
    ensures |Joined(pieces[..i])| <= |Joined(pieces)|
  {
    if i < |pieces| {
      JoinedPart(pieces[..|pieces| - 1], i);
      assert pieces[..|pieces| - 1][..i] == pieces[..i];
    } else {
      assert pieces[..i] == pieces;
    }
  }

  lemma JoinedMore(pieces: seq<seq<byte>>, i: nat)
    requires i < |pieces|
    ensures Joined(pieces[..i + 1]) == Joined(pieces[..i]) + pieces[i]
  {
    assert pieces[..i + 1][..i] == pieces[..i];
  }

  /** A compressor that has accepted everything so far. */
  ghost predicate Ready(d: Compressor, flags: Flags, putBuf: nat -> bool, input: seq<byte>)
    reads d, d.c.w, d.win, d.win.dict, d.tb, d.tb.buf, d.tb.count0, d.tb.count1
  {
    d.Valid() && d.status == Okay && !d.wantsToFinish && d.win.history == input && d.flags == flags
    && d.putBuf == putBuf
  }

  /** However the input is cut up, and whatever flushes are asked for on the way, a completed stream
      decodes to all of it. */
  method CompressInPieces(pieces: seq<seq<byte>>, flushes: seq<Flush>, flags: Flags, putBuf: nat -> bool)
    returns (succeeded: bool, output: seq<byte>)
    requires flags.probes < 0x1000 && |flushes| == |pieces| && Finish !in flushes
    ensures !succeeded ==> exists k :: 0 <= k <= |Joined(pieces)| + |pieces| && !putBuf(k)
    ensures succeeded ==> (if flags.zlib then ZlibDecode(output) else RawDecode(output)) == Option.Some(Joined(pieces))
  {
    hide ZlibDecode, RawDecode, Decodes, Compressor.Valid;
    var d := new Compressor(flags, putBuf);
    var i := 0;
    while i < |pieces|
      invariant i <= |pieces| && Ready(d, flags, putBuf, Joined(pieces[..i]))
      invariant d.deliveries + d.win.lookaheadSize <= |Joined(pieces[..i])| + i
      invariant fresh(d) && fresh(d.c.w) && fresh(d.c.w.out) && fresh(d.c.TableArrays()) && fresh(d.tb.Repr())
                && fresh(d.win.Repr())
    {
      var s := d.Compress(pieces[i], flushes[i]);
      JoinedMore(pieces, i);
      if s != Okay {
        JoinedPart(pieces, i + 1);
        assert !putBuf(d.deliveries - 1);
        return false, d.sink;
      }
      i := i + 1;
    }
    assert pieces[..i] == pieces && Joined(pieces) + [] == Joined(pieces);
    var s := d.Compress([], Finish);
    succeeded, output := s == Done, d.sink;
    assert !succeeded ==> !putBuf(d.deliveries - 1);
  }

  lemma PrefixOf(h: seq<byte>, src: seq<byte>, p: nat)
    requires p <= |src|
    ensures h + src[..p] <= h + src && (p == |src| ==> h + src[..p] == h + src)
  {
  }

  lemma SliceMore(h: seq<byte>, src: seq<byte>, p: nat, n: nat)
    requires p <= |src| && n <= |src| - p
    ensures h + src[..p] + src[p..][..n] == h + src[..p + n]
  {
  }

  lemma Delivered(sink: seq<byte>, out: seq<byte>, tail: seq<bool>)
    ensures ByteBits(sink + out) + tail == ByteBits(sink) + (ByteBits(out) + tail)
  {
    ByteBitsAppend(sink, out);
  }

  /** The stream before, and what the flush adds to it. */
  lemma Appended(sink: seq<byte>, tail: seq<bool>, b: Block, header: bool, probes: nat, flush: Flush, zlib: bool,
                 adler: u32)
    requires b.Valid()
    ensures var stream := ByteBits(sink) + tail;
            ByteBits(sink) + (tail + FlushOutput(b, header, probes, flush, zlib, adler, |tail|)) ==
            stream + FlushOutput(b, header, probes, flush, zlib, adler, |stream|)
  {
    hide FlushOutput;
    OutputShift(b, header, probes, flush, zlib, adler, |tail|, |sink|);
    Regroup(ByteBits(sink), tail, FlushOutput(b, header, probes, flush, zlib, adler, |tail|));
  }

  /** What the flush makes of the stream. */
  lemma FlushedStream(stream: seq<bool>, sink: seq<byte>, tail: seq<bool>, zlib: bool, probes: nat, was: nat,
                      h: seq<byte>, start: nat, end: nat, b: Block, flush: Flush, adler: u32)
    requires b.Valid() && BlockCovers(b, h, start, end)
    requires InProgress(ByteBits(sink) + tail, zlib, probes, was, h[..start])
    requires stream == ByteBits(sink) + (tail + FlushOutput(b, zlib && was == 0, probes, flush, zlib, adler, |tail|))
    ensures flush != Finish ==> InProgress(stream, zlib, probes, was + (if flush == NoFlush then 1 else 2), h[..end])
    ensures flush == Finish ==> Complete(stream, zlib, probes, adler, h[..end])
  {
    hide FlushOutput, InProgress, Complete, ByteBits, Expand, CanExpand;
    Appended(sink, tail, b, zlib && was == 0, probes, flush, zlib, adler);
    if flush == Finish {
      FlushCompletes(ByteBits(sink) + tail, zlib, probes, was, h[..start], b, adler);
    } else {
      FlushExtends(ByteBits(sink) + tail, zlib, probes, was, h[..start], b, flush, adler);
    }
  }

  lemma Regroup(a: seq<bool>, b: seq<bool>, c: seq<bool>)
    ensures a + (b + c) == a + b + c
  {
  }

  /** The block continues the history from start to end. */
  ghost predicate BlockCovers(b: Block, h: seq<byte>, start: nat, end: int) {
    start <= end <= |h| && b.Follows(h[..start]) && b.After(h[..start]) == h[..end]
  }

  lemma Covers(b: Block, h: seq<byte>, start: nat, ts: seq<Token>, end: nat)
    requires Parsed(h, start, ts, end)
    requires if b.Stored? then b.bytes == h[start..end] else b.tokens == ts
    ensures BlockCovers(b, h, start, end)
  {
    assert h[..start] + h[start..end] == h[..end];
  }

  lemma NothingOut(out: seq<byte>, v: nat, n: nat)
    requires out == []
    ensures ByteBits(out) + ToBits(v, n) == ToBits(v, n)
  {
  }

  lemma {:induction false} SizeBound(ts: seq<Token>)
    requires forall i :: 0 <= i < |ts| ==> ts[i].Valid()
    ensures TotalSize(ts) <= MAX_MATCH_LEN * |ts|
  {
    if |ts| == 0 {
    } else {
      SizeBound(ts[..|ts| - 1]);
    }
  }

  lemma DifferenceWraps(p: nat, q: nat)
    requires q <= p < q + W.U32
    ensures (p % W.U32 - q % W.U32) % W.U32 == p - q
  {
  }

  lemma RawBytesAt(dict: array<byte>, h: seq<byte>, start: nat, end: nat, dictPos: u32)
    requires W.Holds(dict[..], h) && start <= end <= |h| <= start + LZ_DICT_SIZE && dictPos == start % W.U32
    ensures InWindow(dict, dictPos, end - start, h[start..end]) && h[..start] + h[start..end] == h[..end]
  {
    hide W.Kept, W.Slot;
    var raw := h[start..end];
    forall i: nat | i < |raw|
      ensures dict[(dictPos as int + i) % LZ_DICT_SIZE] == raw[i]
    {
      RawByte(dict[..], h, start, i, dictPos);
    }
  }

  lemma RawByte(d: seq<byte>, h: seq<byte>, start: nat, i: nat, dictPos: u32)
    requires W.Holds(d, h) && start + i < |h| <= start + i + LZ_DICT_SIZE && dictPos == start % W.U32
    ensures d[(dictPos as int + i) % LZ_DICT_SIZE] == h[start + i]
  {
    W.EndPos(start + i, i, dictPos);
    assert W.Kept(d, h, start + i);
  }
}
