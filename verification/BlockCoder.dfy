/** tdefl_start_static_block, tdefl_start_dynamic_block, tdefl_compress_lz_codes and
    tdefl_compress_block: writing one block's codes through the bit writer. */
module BlockCoder {
  import opened Bits
  import opened LzTokens
  import opened LzAlphabet
  import opened CanonicalCode
  import opened BlockFormat
  import opened Blocks
  import opened BitWriter
  import opened Inflater
  import HT = HuffmanTable
  import RS = RankedSymbols
  import Rle = CodeLengthRle

  /** Code table: every symbol with a code length has its bit-reversed canonical code. */
  ghost predicate Usable(sizes: seq<nat>, codes: seq<nat>) {
    |sizes| <= |codes| && Decodable(sizes, MAX_CODE_SIZE) && HT.CodesOf(codes, sizes)
  }

  // ---- histograms of valid tokens ----

  function LitTotal(ts: seq<Token>, n: nat): nat {
    if n == 0 then 0 else LitTotal(ts, n - 1) + LitLenCount(ts, n - 1)
  }

  function DistTotal(ts: seq<Token>, n: nat): nat {
    if n == 0 then 0 else DistTotal(ts, n - 1) + DistCount(ts, n - 1)
  }

  lemma {:induction false} TotalsOfNone(n: nat)
    ensures LitTotal([], n) == 0 && DistTotal([], n) == 0
  {
    if n == 0 {
    } else {
      TotalsOfNone(n - 1);
    }
  }

  lemma {:induction false} TotalsSnoc(ts: seq<Token>, n: nat)
    requires |ts| > 0
    ensures var t := ts[|ts| - 1];
            && LitTotal(ts, n) == LitTotal(ts[..|ts| - 1], n) + (if LitLenSym(t) < n then 1 else 0)
            && DistTotal(ts, n) <= DistTotal(ts[..|ts| - 1], n) + (if t.Match? && MatchDistSym(t) < n then 1 else 0)
  {
    if n == 0 {
    } else {
      TotalsSnoc(ts, n - 1);
    }
  }

  /** Each token is counted once in the literal/length histogram and at most once in the other. */
  lemma {:induction false} Totals(ts: seq<Token>)
    ensures LitTotal(ts, LITLEN_SYMBOLS) == |ts| && DistTotal(ts, DIST_SYMBOLS) <= |ts|
  {
    if |ts| == 0 {
      TotalsOfNone(LITLEN_SYMBOLS);
      TotalsOfNone(DIST_SYMBOLS);
    } else {
      Totals(ts[..|ts| - 1]);
      TotalsSnoc(ts, LITLEN_SYMBOLS);
      TotalsSnoc(ts, DIST_SYMBOLS);
    }
  }

  ghost predicate LitHistogram(counts: seq<u16>, ts: seq<Token>) {
    forall s :: 0 <= s < |counts| ==> counts[s] == if s == END_OF_BLOCK then 1 else LitLenCount(ts, s)
  }

  ghost predicate DistHistogram(counts: seq<u16>, ts: seq<Token>) {
    forall s :: 0 <= s < |counts| ==> counts[s] == DistCount(ts, s)
  }

  lemma {:induction false} LitTotalOf(counts: seq<u16>, ts: seq<Token>)
    requires LitHistogram(counts, ts)
    ensures RS.Total(counts) <= LitTotal(ts, |counts|) + (if |counts| > END_OF_BLOCK then 1 else 0)
  {
    if |counts| == 0 {
    } else {
      LitTotalOf(counts[..|counts| - 1], ts);
    }
  }

  lemma {:induction false} DistTotalOf(counts: seq<u16>, ts: seq<Token>)
    requires DistHistogram(counts, ts)
    ensures RS.Total(counts) == DistTotal(ts, |counts|)
  {
    if |counts| == 0 {
    } else {
      DistTotalOf(counts[..|counts| - 1], ts);
    }
  }

  ghost predicate AllValid(ts: seq<Token>) {
    forall i :: 0 <= i < |ts| ==> ts[i].Valid()
  }

  lemma SymbolRanges(t: Token)
    requires t.Valid()
    ensures LitLenSym(t) < 286 && LitLenSym(t) != END_OF_BLOCK && (t.Match? ==> MatchDistSym(t) < 30)
  {
    if t.Match? {
      DistFits(t.dist - 1);
    }
  }

  /** Symbols 286 and 287 and distance symbols 30 and 31 never occur. */
  lemma {:induction false} NeverUsed(ts: seq<Token>, s: nat, d: nat)
    requires AllValid(ts) && (s >= 286 || s == END_OF_BLOCK) && d >= 30
    ensures LitLenCount(ts, s) == 0 && DistCount(ts, d) == 0
  {
    if |ts| == 0 {
    } else {
      NeverUsed(ts[..|ts| - 1], s, d);
      SymbolRanges(ts[|ts| - 1]);
    }
    hide LitLenSym, MatchDistSym;
  }

  lemma HistogramsCodeOne(ts: seq<Token>, i: nat, count0: seq<u16>, count1: seq<u16>, ll: seq<nat>, dl: seq<nat>)
    requires i < |ts| && ts[i].Valid() && LitHistogram(count0, ts) && DistHistogram(count1, ts)
    requires |count0| == |ll| == LITLEN_SYMBOLS && |count1| == |dl| == DIST_SYMBOLS
    requires forall s :: 0 <= s < |ll| ==> (ll[s] > 0 <==> count0[s] > 0)
    requires forall s :: 0 <= s < |dl| ==> (dl[s] > 0 <==> count1[s] > 0)
    ensures Coded(ll, dl, ts[i])
  {
    hide LitLenSym, LenSym, DistSym, LitLenCount, DistCount;
    CountedIfUsed(ts, i);
    assert count0[LitLenSym(ts[i])] > 0;
    if ts[i].Match? {
      DistFits(ts[i].dist - 1);
      assert count1[MatchDistSym(ts[i])] > 0;
    }
  }

  /** Tables built from the histograms have codes for all tokens. */
  lemma HistogramsCode(ts: seq<Token>, count0: seq<u16>, count1: seq<u16>, ll: seq<nat>, dl: seq<nat>)
    requires AllValid(ts) && LitHistogram(count0, ts) && DistHistogram(count1, ts)
    requires |count0| == LITLEN_SYMBOLS && |count1| == DIST_SYMBOLS
    requires HT.LengthsFor(count0, ll, MAX_CODE_SIZE) && HT.LengthsFor(count1, dl, MAX_CODE_SIZE)
    ensures AllCoded(ll, dl, ts)
  {
    hide Decodable, Coded;
    assert count0[END_OF_BLOCK] == 1;
    forall i | 0 <= i < |ts|
      ensures Coded(ll, dl, ts[i])
    {
      HistogramsCodeOne(ts, i, count0, count1, ll, dl);
    }
  }

  // ---- the coder ----

  class Coder {
    const w: Writer
    const sizes0: array<nat>
    const codes0: array<nat>
    const sizes1: array<nat>
    const codes1: array<nat>
    const sizes2: array<nat>
    const codes2: array<nat>

    /** The code tables, which every block rebuilds. */
    ghost function TableArrays(): set<object> {
      {sizes0, codes0, sizes1, codes1, sizes2, codes2}
    }

    ghost predicate Shape() {
      && sizes0.Length == codes0.Length == LITLEN_SYMBOLS
      && sizes1.Length == codes1.Length == DIST_SYMBOLS
      && sizes2.Length == codes2.Length == Rle.RLE_SYMBOLS
      && sizes0 != codes0 && sizes0 != sizes1 && sizes0 != codes1 && codes0 != sizes1 && codes0 != codes1
      && sizes1 != codes1
      && sizes2 != codes2 && sizes2 !in [sizes0, codes0, sizes1, codes1] && codes2 !in [sizes0, codes0, sizes1, codes1]
      && w.out as object !in TableArrays() && w as object !in TableArrays()
    }

    ghost predicate Valid()
      reads w
    {
      Shape() && w.Valid()
    }

    constructor (size: nat)
      ensures Valid() && fresh(w) && fresh(w.out) && fresh(TableArrays()) && w.out.Length == size
      ensures w.Written() == [] && w.outPos == 0 && w.outEnd == 0 && w.bitsIn == 0
    {
      w := new Writer(size);
      sizes0 := new nat[LITLEN_SYMBOLS];
      codes0 := new nat[LITLEN_SYMBOLS];
      sizes1 := new nat[DIST_SYMBOLS];
      codes1 := new nat[DIST_SYMBOLS];
      sizes2 := new nat[Rle.RLE_SYMBOLS];
      codes2 := new nat[Rle.RLE_SYMBOLS];
    }
  }

  method PutCode(w: Writer, sizes: array<nat>, codes: array<nat>, s: nat, ghost m: Mark, ghost sent: seq<bool>)
    requires w.Valid() && s < sizes.Length && Usable(sizes[..], codes[..]) && sizes[s] > 0 && w.Since(m, sent)
    modifies w`outPos, w`bitBuffer, w`bitsIn, w.out
    ensures w.Valid() && w.Since(m, sent + CodeBits(old(sizes[..]), s))
  {
    assert HT.Writes(codes[s], sizes[..], s) && sizes[..][s] <= 15;
    w.Put(codes[s], sizes[s], m, sent);
  }

  /** The extra bits of a length or distance. */
  method PutLow(w: Writer, v: nat, n: nat, ghost m: Mark, ghost sent: seq<bool>)
    requires w.Valid() && n <= 16 && w.Since(m, sent)
    modifies w`outPos, w`bitBuffer, w`bitsIn, w.out
    ensures w.Valid() && w.Since(m, sent + ToBits(v, n))
  {
    ToBitsLow(v, n);
    w.Put(LowBits(v, n), n, m, sent);
  }

  lemma JoinFour(a: seq<bool>, b: seq<bool>, c: seq<bool>, d: seq<bool>, e: seq<bool>)
    ensures a + b + c + d + e == a + (b + (c + (d + e)))
  {
  }

  /** Length symbol, length extra bits, distance symbol, distance extra bits. */
  method PutMatch(c: Coder, matchLen: byte, matchDist: nat, ghost m: Mark, ghost sent: seq<bool>)
    requires c.Valid() && c.w.Since(m, sent) && matchDist < LZ_DICT_SIZE
    requires Usable(c.sizes0[..], c.codes0[..]) && Usable(c.sizes1[..], c.codes1[..])
    requires Coded(c.sizes0[..], c.sizes1[..], Match(matchLen as int + MIN_MATCH_LEN, matchDist + 1))
    modifies c.w`outPos, c.w`bitBuffer, c.w`bitsIn, c.w.out
    ensures c.Valid()
    ensures c.w.Since(m,
                      sent +
                        TokenBits(c.sizes0[..], c.sizes1[..], Match(matchLen as int + MIN_MATCH_LEN, matchDist + 1)))
  {
    hide LenSym, DistSym, Usable, LenExtra, DistExtra, CodeBits, ToBits, c.w.Since, c.w.Valid;
    ghost var ll, dl := c.sizes0[..], c.sizes1[..];
    DistFits(matchDist);
    ghost var b0, b1 := CodeBits(ll, LenSym(matchLen)), ToBits(matchLen, LenExtra(matchLen));
    ghost var b2, b3 := CodeBits(dl, DistSym(matchDist)), ToBits(matchDist, DistExtra(matchDist));
    JoinFour(sent, b0, b1, b2, b3);
    PutCode(c.w, c.sizes0, c.codes0, LenSym(matchLen), m, sent);
    PutLow(c.w, matchLen, LenExtra(matchLen), m, sent + b0);
    PutCode(c.w, c.sizes1, c.codes1, DistSym(matchDist), m, sent + b0 + b1);
    PutLow(c.w, matchDist, DistExtra(matchDist), m, sent + b0 + b1 + b2);
  }

  method PutLiteral(c: Coder, lit: byte, ghost m: Mark, ghost sent: seq<bool>)
    requires c.Valid() && c.w.Since(m, sent) && Usable(c.sizes0[..], c.codes0[..])
    requires Coded(c.sizes0[..], c.sizes1[..], Literal(lit))
    modifies c.w`outPos, c.w`bitBuffer, c.w`bitsIn, c.w.out
    ensures c.Valid() && c.w.Since(m, sent + TokenBits(c.sizes0[..], c.sizes1[..], Literal(lit)))
  {
    PutCode(c.w, c.sizes0, c.codes0, lit, m, sent);
  }

  /** The reader stands in the buffer after the first k tokens. */
  ghost predicate ReadSoFar(unread: seq<byte>, flags: nat, ts: seq<Token>, k: nat, g: seq<Token>, n: nat) {
    k + |g| <= |ts| && ts[k..k + |g|] == g && Reading(unread, flags, g, ts[k + |g|..], n)
  }

  lemma StartReading(ts: seq<Token>)
    ensures ReadSoFar(Layout(ts), 1, ts, 0, [], 0)
  {
    assert ts[0..] == ts;
    assert Payloads([]) + Layout(ts) == Layout(ts);
  }

  /** An exhausted register is refilled from the next flag byte. */
  lemma Refill(unread: seq<byte>, ts: seq<Token>, k: nat, g: seq<Token>, n: nat) returns (g': seq<Token>)
    requires ReadSoFar(unread, 1, ts, k, g, n) && |unread| > 0
    ensures ReadSoFar(unread[1..], 256 + (unread[0] as int), ts, k, g', 8) && |g'| > 0
  {
    hide Reading, Layout;
    var rest := ts[k + |g|..];
    GroupEnd(unread, 1, g, rest, n);
    OpenGroup(unread, rest);
    g' := FirstGroup(rest);
    GroupSplit(rest);
    assert ts[k + |g'|..] == LaterGroups(rest);
  }

  lemma NotExhausted(unread: seq<byte>, flags: nat, ts: seq<Token>, k: nat, g: seq<Token>, n: nat)
    requires ReadSoFar(unread, flags, ts, k, g, n) && flags != 1 && |unread| > 0
    ensures |g| > 0
  {
    GroupEnd(unread, flags, g, ts[k + |g|..], n);
  }

  /** Reading one token. */
  lemma ReadOne(unread: seq<byte>, flags: nat, ts: seq<Token>, k: nat, g: seq<Token>, n: nat)
    requires ReadSoFar(unread, flags, ts, k, g, n) && |g| > 0
    ensures k < |ts| && n > 0 && flags != 1 && (flags % 2 == 1 <==> ts[k].Match?) && Payload(ts[k]) <= unread
    ensures ReadSoFar(unread[|Payload(ts[k])|..], flags / 2, ts, k + 1, g[1..], n - 1)
  {
    hide Reading, Payload;
    ReadNext(unread, flags, g, ts[k + |g|..], n);
    assert ts[k..k + |g|][0] == ts[k] && ts[k..k + |g|][1..] == ts[k + 1..k + |g|];
  }

  lemma AllRead(unread: seq<byte>, flags: nat, ts: seq<Token>, k: nat, g: seq<Token>, n: nat)
    requires ReadSoFar(unread, flags, ts, k, g, n) && |unread| == 0
    ensures k == |ts|
  {
    GroupEnd(unread, flags, g, ts[k + |g|..], n);
  }

  lemma SentOneMore(ll: seq<nat>, dl: seq<nat>, ts: seq<Token>, k: nat)
    requires AllCoded(ll, dl, ts) && k < |ts|
    ensures Coded(ll, dl, ts[k]) && AllCoded(ll, dl, ts[..k]) && AllCoded(ll, dl, ts[..k + 1])
    ensures SentBits(ll, dl, ts[..k + 1]) == SentBits(ll, dl, ts[..k]) + TokenBits(ll, dl, ts[k])
  {
    DataBitsSnoc(ll, dl, ts[..k], ts[k]);
    assert ts[..k] + [ts[k]] == ts[..k + 1];
  }

  /** Writes the token standing at p in the buffer; its kind has been read off the flag register. */
  method PutTokenAt(c: Coder, buf: array<byte>, p: nat, n: nat, isMatch: bool, ghost t: Token, ghost m: Mark,
                    ghost sent: seq<bool>) returns (p': nat)
    requires c.Valid() && c.w.Since(m, sent) && buf != c.w.out && p < n <= buf.Length
    requires Usable(c.sizes0[..], c.codes0[..]) && Usable(c.sizes1[..], c.codes1[..])
             && Coded(c.sizes0[..], c.sizes1[..], t)
    requires isMatch == t.Match? && Payload(t) <= buf[p..n]
    modifies c.w`outPos, c.w`bitBuffer, c.w`bitsIn, c.w.out
    ensures c.Valid() && p' == p + |Payload(t)| <= n
    ensures c.w.Since(m, sent + TokenBits(c.sizes0[..], c.sizes1[..], t))
  {
    hide TokenBits, Usable, LenSym, DistSym, CodeBits;
    assert buf[p..n][..|Payload(t)|] == Payload(t);
    if isMatch {
      PayloadKeepsMatch(t);
      var matchLen, matchDist := buf[p], buf[p + 1] as int + 256 * (buf[p + 2] as int);
      PutMatch(c, matchLen, matchDist, m, sent);
      p' := p + 3;
    } else {
      PutLiteral(c, buf[p], m, sent);
      p' := p + 1;
    }
  }

  lemma NothingSent(ll: seq<nat>, dl: seq<nat>, ts: seq<Token>, sent: seq<bool>)
    requires AllCoded(ll, dl, ts)
    ensures AllCoded(ll, dl, ts[..0]) && sent + SentBits(ll, dl, ts[..0]) == sent
  {
  }

  method PutEnd(c: Coder, ghost ts: seq<Token>, ghost m: Mark, ghost sent: seq<bool>)
    requires c.Valid() && Usable(c.sizes0[..], c.codes0[..]) && AllCoded(c.sizes0[..], c.sizes1[..], ts)
    requires c.w.Since(m, sent + SentBits(c.sizes0[..], c.sizes1[..], ts))
    modifies c.w`outPos, c.w`bitBuffer, c.w`bitsIn, c.w.out
    ensures c.Valid() && c.w.Since(m, sent + DataBits(c.sizes0[..], c.sizes1[..], ts))
  {
    hide Usable, SentBits, DataBits, CodeBits;
    ghost var ll, dl := c.sizes0[..], c.sizes1[..];
    SentThenEnd(ll, dl, ts);
    PutCode(c.w, c.sizes0, c.codes0, END_OF_BLOCK, m, sent + SentBits(ll, dl, ts));
    assert sent + SentBits(ll, dl, ts) + CodeBits(ll, END_OF_BLOCK) == sent +
             (SentBits(ll, dl, ts) + CodeBits(ll, END_OF_BLOCK));
  }

  /** Tables that can code all of ts. */
  ghost predicate TablesFor(c: Coder, ts: seq<Token>)
    reads c.TableArrays()
  {
    && Usable(c.sizes0[..], c.codes0[..]) && Usable(c.sizes1[..], c.codes1[..])
    && AllCoded(c.sizes0[..], c.sizes1[..], ts)
  }

  /** One round of the loop: refill the register if it is used up, then write one token. */
  method CompressNext(c: Coder, buf: array<byte>, p: nat, n: nat, flags: nat, ghost ts: seq<Token>, ghost k: nat,
                      ghost g: seq<Token>, ghost left: nat, ghost m: Mark, ghost sent: seq<bool>)
    returns (p': nat, flags': nat, ghost g': seq<Token>, ghost left': nat)
    requires c.Valid() && TablesFor(c, ts) && buf != c.w.out && p < n <= buf.Length && k <= |ts|
    requires ReadSoFar(buf[p..n], flags, ts, k, g, left)
    requires AllCoded(c.sizes0[..], c.sizes1[..], ts[..k])
    requires c.w.Since(m, sent + SentBits(c.sizes0[..], c.sizes1[..], ts[..k]))
    modifies c.w`outPos, c.w`bitBuffer, c.w`bitsIn, c.w.out
    ensures c.Valid() && p < p' <= n && k < |ts| && AllCoded(c.sizes0[..], c.sizes1[..], ts[..k + 1])
    ensures ReadSoFar(buf[p'..n], flags', ts, k + 1, g', left')
    ensures c.w.Since(m, sent + SentBits(c.sizes0[..], c.sizes1[..], ts[..k + 1]))
  {
    hide Layout, TokenBits, SentBits, DataBits, Usable, AllCoded, CodeBits, ReadSoFar, Coded;
    p', flags', g', left' := p, flags, g, left;
    if flags' == 1 {
      g' := Refill(buf[p..n], ts, k, g, left);
      left' := 8;
      assert buf[p..n][1..] == buf[p + 1..n];
      flags' := 256 + (buf[p'] as int);
      p' := p' + 1;
    } else {
      NotExhausted(buf[p..n], flags, ts, k, g, left);
    }
    ReadOne(buf[p'..n], flags', ts, k, g', left');
    SentOneMore(c.sizes0[..], c.sizes1[..], ts, k);
    ghost var unread, size := buf[p'..n], |Payload(ts[k])|;
    p' := PutTokenAt(c, buf, p', n, flags' % 2 == 1, ts[k], m, sent + SentBits(c.sizes0[..], c.sizes1[..], ts[..k]));
    SentJoin(c.sizes0[..], c.sizes1[..], ts, k, sent);
    assert buf[p'..n] == unread[size..];
    flags' := flags' / 2;
    g', left' := g'[1..], left' - 1;
  }

  lemma SentJoin(ll: seq<nat>, dl: seq<nat>, ts: seq<Token>, k: nat, sent: seq<bool>)
    requires AllCoded(ll, dl, ts) && k < |ts| && Coded(ll, dl, ts[k])
    requires AllCoded(ll, dl, ts[..k]) && AllCoded(ll, dl, ts[..k + 1])
    ensures sent + SentBits(ll, dl, ts[..k]) + TokenBits(ll, dl, ts[k]) == sent + SentBits(ll, dl, ts[..k + 1])
  {
    hide TokenBits, SentBits;
    SentOneMore(ll, dl, ts, k);
  }

  /** tdefl_compress_lz_codes: everything recorded in the token buffer, then the end-of-block symbol. */
  method CompressLzCodes(c: Coder, buf: array<byte>, n: nat, ghost ts: seq<Token>, ghost m: Mark, ghost sent: seq<bool>)
    returns (ok: bool)
    requires c.Valid() && TablesFor(c, ts) && c.w.Since(m, sent) && buf != c.w.out && n <= buf.Length
             && buf[..n] == Layout(ts)
    modifies c.w`outPos, c.w`bitBuffer, c.w`bitsIn, c.w.out
    ensures c.Valid() && ok == (c.w.outPos < c.w.outEnd)
    ensures c.w.Since(m, sent + DataBits(c.sizes0[..], c.sizes1[..], ts))
  {
    hide Layout, TokenBits, SentBits, DataBits, Usable, AllCoded, CodeBits, ReadSoFar;
    ghost var ll, dl := c.sizes0[..], c.sizes1[..];
    var flags: nat, p: nat := 1, 0;
    ghost var k: nat, g: seq<Token>, left: nat := 0, [], 0;
    StartReading(ts);
    NothingSent(ll, dl, ts, sent);
    while p < n
      invariant p <= n && k <= |ts| && c.Valid() && c.sizes0[..] == ll && c.sizes1[..] == dl && TablesFor(c, ts)
      invariant ReadSoFar(buf[p..n], flags, ts, k, g, left)
      invariant AllCoded(ll, dl, ts[..k]) && c.w.Since(m, sent + SentBits(ll, dl, ts[..k]))
    {
      p, flags, g, left := CompressNext(c, buf, p, n, flags, ts, k, g, left, m, sent);
      k := k + 1;
    }
    AllRead(buf[p..n], flags, ts, k, g, left);
    assert ts[..k] == ts;
    PutEnd(c, ts, m, sent);
    ok := c.w.outPos < c.w.outEnd;
  }

  // ---- starting a static block ----

  lemma TwoBits(v: nat)
    ensures v < 4 ==> v < Pow2(2)
  {
  }

  method FillSizes(sizes: array<nat>, from: nat, to: nat, v: nat)
    requires from <= to <= sizes.Length
    modifies sizes
    ensures sizes[..] == old(sizes[..from]) + Rle.Fill(v, to - from) + old(sizes[to..])
  {
    var i := from;
    while i < to
      invariant from <= i <= to
      invariant forall k :: 0 <= k < sizes.Length ==> sizes[k] == if from <= k < i then v else old(sizes[k])
    {
      sizes[i] := v;
      i := i + 1;
    }
  }

  method FillStaticSizes(sizes: array<nat>)
    requires sizes.Length == LITLEN_SYMBOLS
    modifies sizes
    ensures sizes[..] == FixedLitLens()
  {
    FillSizes(sizes, 0, 144, 8);
    FillSizes(sizes, 144, 256, 9);
    FillSizes(sizes, 256, 280, 7);
    FillSizes(sizes, 280, 288, 8);
    hide Rle.Fill;
  }

  method StartStaticBlock(c: Coder, ghost ts: seq<Token>, ghost m: Mark, ghost sent: seq<bool>)
    requires c.Valid() && c.w.Since(m, sent) && AllValid(ts)
    modifies c.TableArrays(), c.w`outPos, c.w`bitBuffer, c.w`bitsIn, c.w.out
    ensures c.Valid() && c.sizes0[..] == FixedLitLens() && c.sizes1[..] == FixedDistLens()
    ensures TablesFor(c, ts) && c.w.Since(m, sent + ToBits(1, 2))
  {
    hide FixedLitLens, FixedDistLens, Decodable, Full, HT.CodesOf, ToBits, AllCoded;
    FixedTables();
    FixedCoded(ts);
    FillStaticSizes(c.sizes0);
    FillDistSizes(c.sizes1);
    assert c.sizes0[..LITLEN_SYMBOLS] == c.sizes0[..] && c.sizes1[..DIST_SYMBOLS] == c.sizes1[..];
    HT.StaticCodes(c.sizes0, LITLEN_SYMBOLS, 15, c.codes0);
    HT.StaticCodes(c.sizes1, DIST_SYMBOLS, 15, c.codes1);
    TwoBits(1);
    c.w.Put(1, 2, m, sent);
  }

  method FillDistSizes(sizes: array<nat>)
    requires sizes.Length == DIST_SYMBOLS
    modifies sizes
    ensures sizes[..] == FixedDistLens()
  {
    FillSizes(sizes, 0, 32, 5);
  }
}
