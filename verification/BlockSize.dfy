/** How large a compressed block can get. A dynamic block costs little more than the fixed code would,
    so every form of a block fits the output buffer. */
module BlockSize {
  import opened Bits
  import opened LzTokens
  import opened LzAlphabet
  import opened CanonicalCode
  import opened BlockFormat
  import opened Blocks
  import opened BlockCoder
  import opened Inflater
  import DH = DynamicHeader
  import HO = HuffmanOptimality
  import RS = RankedSymbols
  import TC = TableCost
  import Rle = CodeLengthRle

  // ---- what the codes of a block cost ----

  function LitCounts(ts: seq<Token>): (h: seq<nat>)
    ensures |h| == LITLEN_SYMBOLS
  {
    seq(LITLEN_SYMBOLS, s requires 0 <= s < LITLEN_SYMBOLS => LitLenCount(ts, s))
  }

  function DistCounts(ts: seq<Token>): (h: seq<nat>)
    ensures |h| == DIST_SYMBOLS
  {
    seq(DIST_SYMBOLS, s requires 0 <= s < DIST_SYMBOLS => DistCount(ts, s))
  }

  /** The extra bits of all matches, which no choice of tables changes. */
  function ExtraBits(ts: seq<Token>): nat {
    if |ts| == 0 then 0 else ExtraBits(ts[..|ts| - 1]) + ExtraBitsOf(ts[|ts| - 1])
  }

  function ExtraBitsOf(t: Token): nat {
    if t.Literal? then 0 else LenExtra((t.len - MIN_MATCH_LEN) % 256) + DistExtra((t.dist - 1) % LZ_DICT_SIZE)
  }

  lemma {:induction false} CostOfOneMore(ws: seq<nat>, ws': seq<nat>, lens: seq<nat>, s: nat)
    requires |ws| == |ws'| == |lens| && s < |ws|
    requires forall i :: 0 <= i < |ws| ==> ws'[i] == ws[i] + if i == s then 1 else 0
    ensures HO.Cost(ws', lens) == HO.Cost(ws, lens) + lens[s]
  {
    var k := |ws| - 1;
    if s < k {
      CostOfOneMore(ws[..k], ws'[..k], lens[..k], s);
    } else {
      assert ws'[..k] == ws[..k];
      OneTimesMore(ws[k], lens[k]);
    }
  }

  lemma OneTimesMore(w: nat, l: nat)
    ensures (w + 1) * l == w * l + l
  {
  }

  lemma {:induction false} CostOfNothing(ws: seq<nat>, lens: seq<nat>)
    requires |ws| == |lens| && forall i :: 0 <= i < |ws| ==> ws[i] == 0
    ensures HO.Cost(ws, lens) == 0
  {
    if |ws| == 0 {
    } else {
      CostOfNothing(ws[..|ws| - 1], lens[..|lens| - 1]);
    }
  }

  lemma CountsOfOneMore(ts: seq<Token>)
    requires |ts| > 0 && ts[|ts| - 1].Valid()
    ensures var t, before := ts[|ts| - 1], ts[..|ts| - 1];
            && (forall s :: 0 <= s < LITLEN_SYMBOLS ==>
                  LitCounts(ts)[s] == LitCounts(before)[s] + if s == LitLenSym(t) then 1 else 0)
            && (t.Match? ==> forall s :: 0 <= s < DIST_SYMBOLS ==>
                  DistCounts(ts)[s] == DistCounts(before)[s] + if s == MatchDistSym(t) then 1 else 0)
            && (t.Literal? ==> DistCounts(ts) == DistCounts(before))
  {
    hide LitLenSym, MatchDistSym;
  }

  lemma TokenCost(ll: seq<nat>, dl: seq<nat>, t: Token)
    requires Coded(ll, dl, t) && |ll| == LITLEN_SYMBOLS && |dl| == DIST_SYMBOLS
    ensures t.Valid() && LitLenSym(t) < |ll| && (t.Match? ==> MatchDistSym(t) < |dl|)
    ensures |TokenBits(ll, dl, t)| == ll[LitLenSym(t)] + (if t.Match? then dl[MatchDistSym(t)] else 0) + ExtraBitsOf(t)
  {
    hide LenSym, DistSym, LenExtra, DistExtra, CodeBits, ToBits;
    SymbolRanges(t);
  }

  /** The bits sent for tokens: what their symbols cost, and the extra bits. */
  lemma {:induction false} SentCost(ll: seq<nat>, dl: seq<nat>, ts: seq<Token>)
    requires AllCoded(ll, dl, ts) && |ll| == LITLEN_SYMBOLS && |dl| == DIST_SYMBOLS
    ensures |SentBits(ll, dl, ts)| == HO.Cost(LitCounts(ts), ll) + HO.Cost(DistCounts(ts), dl) + ExtraBits(ts)
  {
    hide *;
    if |ts| == 0 {
      NothingCosts(ll, dl, ts);
    } else {
      var k := |ts| - 1;
      CodedBefore(ll, dl, ts);
      SentCost(ll, dl, ts[..k]);
      DataBitsSnoc(ll, dl, ts[..k], ts[k]);
      assert ts[..k] + [ts[k]] == ts;
      CostOfToken(ll, dl, ts);
    }
  }

  lemma NothingCosts(ll: seq<nat>, dl: seq<nat>, ts: seq<Token>)
    requires AllCoded(ll, dl, ts) && |ll| == LITLEN_SYMBOLS && |dl| == DIST_SYMBOLS && |ts| == 0
    ensures |SentBits(ll, dl, ts)| == 0 == ExtraBits(ts)
    ensures HO.Cost(LitCounts(ts), ll) == 0 == HO.Cost(DistCounts(ts), dl)
  {
    CostOfNothing(LitCounts(ts), ll);
    CostOfNothing(DistCounts(ts), dl);
    hide HO.Cost;
  }

  lemma CodedBefore(ll: seq<nat>, dl: seq<nat>, ts: seq<Token>)
    requires AllCoded(ll, dl, ts) && |ts| > 0
    ensures AllCoded(ll, dl, ts[..|ts| - 1]) && Coded(ll, dl, ts[|ts| - 1])
  {
    hide Coded;
  }

  lemma CostOfToken(ll: seq<nat>, dl: seq<nat>, ts: seq<Token>)
    requires |ts| > 0 && Coded(ll, dl, ts[|ts| - 1]) && |ll| == LITLEN_SYMBOLS && |dl| == DIST_SYMBOLS
    ensures HO.Cost(LitCounts(ts), ll) + HO.Cost(DistCounts(ts), dl) + ExtraBits(ts) ==
            HO.Cost(LitCounts(ts[..|ts| - 1]), ll) + HO.Cost(DistCounts(ts[..|ts| - 1]), dl) + ExtraBits(ts[..|ts| - 1])
            + |TokenBits(ll, dl, ts[|ts| - 1])|
  {
    hide LitCounts, DistCounts, LitLenSym, MatchDistSym, HO.Cost, TokenBits, Coded, ExtraBitsOf;
    var t, before := ts[|ts| - 1], ts[..|ts| - 1];
    TokenCost(ll, dl, t);
    CountsOfOneMore(ts);
    CostOfOneMore(LitCounts(before), LitCounts(ts), ll, LitLenSym(t));
    if t.Match? {
      CostOfOneMore(DistCounts(before), DistCounts(ts), dl, MatchDistSym(t));
    }
  }

  /** The bits of a block's data are the cost of its histograms under the tables, and the extra bits. */
  lemma DataCost(ll: seq<nat>, dl: seq<nat>, ts: seq<Token>, h0: seq<u16>, h1: seq<u16>)
    requires AllCoded(ll, dl, ts) && |ll| == |h0| == LITLEN_SYMBOLS && |dl| == |h1| == DIST_SYMBOLS
    requires AllValid(ts) && LitHistogram(h0, ts) && DistHistogram(h1, ts)
    ensures |DataBits(ll, dl, ts)| == HO.Cost(h0, ll) + HO.Cost(h1, dl) + ExtraBits(ts)
  {
    SentCost(ll, dl, ts);
    SentThenEnd(ll, dl, ts);
    NeverUsed(ts, END_OF_BLOCK, 30);
    hide AllCoded, SentBits, DataBits, CodeBits, HO.Cost, ExtraBits, LitLenCount, DistCount;
    CostOfOneMore(LitCounts(ts), h0, ll, END_OF_BLOCK);
    assert h1 == DistCounts(ts);
  }

  // ---- the tables built are hardly worse than any others ----

  /** Tables for the same tokens. */
  ghost predicate Rivals(ll: seq<nat>, dl: seq<nat>, ts: seq<Token>) {
    && |ll| == LITLEN_SYMBOLS && |dl| == DIST_SYMBOLS && AllCoded(ll, dl, ts)
    && Decodable(ll, MAX_CODE_SIZE) && Decodable(dl, MAX_CODE_SIZE)
  }

  /** No other tables save more than a bit and an eighth per token, and none save anything on fewer than 1596 tokens. */
  ghost predicate Economical(ll: seq<nat>, dl: seq<nat>, ts: seq<Token>)
    requires AllCoded(ll, dl, ts)
  {
    forall ll': seq<nat>, dl': seq<nat> :: Rivals(ll', dl', ts) ==>
      && 8 * |DataBits(ll, dl, ts)| <= 8 * |DataBits(ll', dl', ts)| + 9 * |ts| + 8
      && (|ts| < 1596 ==> |DataBits(ll, dl, ts)| <= |DataBits(ll', dl', ts)|)
  }

  lemma {:induction false} CountedSomewhere(ts: seq<Token>, s: nat)
    ensures LitLenCount(ts, s) > 0 ==> exists i :: 0 <= i < |ts| && LitLenSym(ts[i]) == s
    ensures DistCount(ts, s) > 0 ==> exists i :: 0 <= i < |ts| && ts[i].Match? && MatchDistSym(ts[i]) == s
  {
    hide LitLenSym, MatchDistSym;
    if |ts| == 0 {
    } else {
      var k := |ts| - 1;
      CountedSomewhere(ts[..k], s);
      if LitLenCount(ts[..k], s) > 0 {
        var i :| 0 <= i < k && LitLenSym(ts[..k][i]) == s;
        assert LitLenSym(ts[i]) == s;
      }
      if DistCount(ts[..k], s) > 0 {
        var i :| 0 <= i < k && ts[..k][i].Match? && MatchDistSym(ts[..k][i]) == s;
        assert ts[i].Match? && MatchDistSym(ts[i]) == s;
      }
    }
  }

  /** What can code the tokens has codes for everything the histograms count. */
  lemma RivalsCover(ll: seq<nat>, dl: seq<nat>, ts: seq<Token>, h0: seq<u16>, h1: seq<u16>)
    requires Rivals(ll, dl, ts) && |h0| == LITLEN_SYMBOLS && |h1| == DIST_SYMBOLS
    requires LitHistogram(h0, ts) && DistHistogram(h1, ts)
    ensures TC.Covers(ll, h0) && TC.Covers(dl, h1)
  {
    hide LitLenCount, DistCount, Decodable, LitLenSym, MatchDistSym, Coded;
    forall s | 0 <= s < |h0| && h0[s] > 0
      ensures ll[s] > 0
    {
      CountedSomewhere(ts, s);
      if s != END_OF_BLOCK {
        var i :| 0 <= i < |ts| && LitLenSym(ts[i]) == s;
        CodedSymbols(ll, dl, ts[i]);
      }
    }
    forall s | 0 <= s < |h1| && h1[s] > 0
      ensures dl[s] > 0
    {
      CountedSomewhere(ts, s);
      var i :| 0 <= i < |ts| && ts[i].Match? && MatchDistSym(ts[i]) == s;
      CodedSymbols(ll, dl, ts[i]);
    }
  }

  lemma CodedSymbols(ll: seq<nat>, dl: seq<nat>, t: Token)
    requires Coded(ll, dl, t)
    ensures LitLenSym(t) < |ll| && ll[LitLenSym(t)] > 0
    ensures t.Match? ==> MatchDistSym(t) < |dl| && dl[MatchDistSym(t)] > 0
  {
    hide LitLenSym, DistSym;
  }

  lemma FibSeventeen()
    ensures HO.Fib(17) == 1597
  {
    assert HO.Fib(3) == 2 && HO.Fib(4) == 3;
    assert HO.Fib(5) == 5 && HO.Fib(6) == 8;
    assert HO.Fib(7) == 13 && HO.Fib(8) == 21;
    assert HO.Fib(9) == 34 && HO.Fib(10) == 55;
    assert HO.Fib(11) == 89 && HO.Fib(12) == 144;
    assert HO.Fib(13) == 233 && HO.Fib(14) == 377;
    assert HO.Fib(15) == 610 && HO.Fib(16) == 987;
  }

  /** What cheapness says of one rival table. */
  lemma CheapAgainst(counts: seq<u16>, lens: seq<nat>, others: seq<nat>)
    requires |lens| == |counts| && TC.Cheap(counts, lens, MAX_CODE_SIZE) && Decodable(others, MAX_CODE_SIZE)
             && TC.Covers(others, counts)
    ensures HO.Cost(counts, lens) <= HO.Cost(counts, others) + RS.Total(counts)
    ensures |counts| <= 32 ==> 8 * HO.Cost(counts, lens) <= 8 * HO.Cost(counts, others) + RS.Total(counts)
    ensures RS.Total(counts) < 1597 ==> HO.Cost(counts, lens) <= HO.Cost(counts, others)
  {
    FibSeventeen();
    hide HO.Cost, RS.Total, Decodable, TC.Covers, HO.Fib;
  }

  lemma CheaperThanRivals(ll: seq<nat>, dl: seq<nat>, ts: seq<Token>, h0: seq<u16>, h1: seq<u16>, ll': seq<nat>,
                          dl': seq<nat>)
    requires AllCoded(ll, dl, ts) && |ll| == |h0| == LITLEN_SYMBOLS && |dl| == |h1| == DIST_SYMBOLS
    requires AllValid(ts) && LitHistogram(h0, ts) && DistHistogram(h1, ts)
    requires RS.Total(h0) <= |ts| + 1 && RS.Total(h1) <= |ts|
    requires TC.Cheap(h0, ll, MAX_CODE_SIZE) && TC.Cheap(h1, dl, MAX_CODE_SIZE)
    requires Rivals(ll', dl', ts)
    ensures 8 * |DataBits(ll, dl, ts)| <= 8 * |DataBits(ll', dl', ts)| + 9 * |ts| + 8
    ensures |ts| < 1596 ==> |DataBits(ll, dl, ts)| <= |DataBits(ll', dl', ts)|
  {
    hide DataBits, Decodable, TC.Cheap, TC.Covers, HO.Cost, LitHistogram, DistHistogram, AllCoded, RS.Total;
    RivalsCover(ll', dl', ts, h0, h1);
    CheapAgainst(h0, ll, ll');
    CheapAgainst(h1, dl, dl');
    DataCost(ll, dl, ts, h0, h1);
    DataCost(ll', dl', ts, h0, h1);
  }

  lemma CheapIsEconomical(ll: seq<nat>, dl: seq<nat>, ts: seq<Token>, h0: seq<u16>, h1: seq<u16>)
    requires AllCoded(ll, dl, ts) && |ll| == |h0| == LITLEN_SYMBOLS && |dl| == |h1| == DIST_SYMBOLS
    requires AllValid(ts) && LitHistogram(h0, ts) && DistHistogram(h1, ts)
    requires RS.Total(h0) <= |ts| + 1 && RS.Total(h1) <= |ts|
    requires TC.Cheap(h0, ll, MAX_CODE_SIZE) && TC.Cheap(h1, dl, MAX_CODE_SIZE)
    ensures Economical(ll, dl, ts)
  {
    hide DataBits, Decodable, TC.Cheap, HO.Cost, LitHistogram, DistHistogram, Coded, RS.Total;
    forall ll': seq<nat>, dl': seq<nat> | Rivals(ll', dl', ts)
      ensures 8 * |DataBits(ll, dl, ts)| <= 8 * |DataBits(ll', dl', ts)| + 9 * |ts| + 8
      ensures |ts| < 1596 ==> |DataBits(ll, dl, ts)| <= |DataBits(ll', dl', ts)|
    {
      CheaperThanRivals(ll, dl, ts, h0, h1, ll', dl');
    }
  }

  /** A dynamic block is coded economically. */
  ghost predicate Thrifty(b: Block)
    requires b.Valid()
  {
    b.Dynamic? ==> Economical(LitLens(b.header), DistLens(b.header), b.tokens)
  }

  // ---- every block fits ----

  /** The largest body of a block, in bits. */
  const MAX_BODY: nat := 678_300

  /** A token's bits under the fixed code, against the bytes it takes in the buffer. */
  lemma FixedTokenRate(t: Token)
    requires Coded(FixedLitLens(), FixedDistLens(), t)
    ensures 25 * (8 * |TokenBits(FixedLitLens(), FixedDistLens(), t)| + 9) <= 257 * (8 * |Payload(t)| + 1)
  {
    if t.Match? {
      DistFits(t.dist - 1);
    }
  }

  lemma {:induction false} FixedDataRate(ts: seq<Token>)
    requires AllCoded(FixedLitLens(), FixedDistLens(), ts)
    ensures 25 * (8 * |DataBits(FixedLitLens(), FixedDistLens(), ts)| + 9 * |ts|) <= 257 * (8 * |Payloads(ts)| + |ts|) +
              1400
  {
    if |ts| == 0 {
    } else {
      hide FixedLitLens, FixedDistLens, TokenBits;
      FixedTokenRate(ts[0]);
      FixedDataRate(ts[1..]);
    }
  }

  /** Economical tables send at most 257 bits for every 25 bytes of the token buffer. */
  lemma EconomicalSize(ll: seq<nat>, dl: seq<nat>, ts: seq<Token>)
    requires AllValid(ts) && AllCoded(ll, dl, ts) && Economical(ll, dl, ts)
    ensures 25 * |DataBits(ll, dl, ts)| <= 257 * |Layout(ts)| + 200
  {
    hide Layout, Payloads, DataBits, FixedLitLens, FixedDistLens, Decodable, AllCoded;
    FixedTables();
    FixedCoded(ts);
    LayoutSize(ts);
    FixedDataRate(ts);
    assert Rivals(FixedLitLens(), FixedDistLens(), ts);
  }

  lemma OpSize(cl: seq<nat>, op: Rle.Op)
    requires |cl| == 19 && op.Symbol() < 19 && forall i :: 0 <= i < 19 ==> cl[i] <= 7
    ensures |DH.OpBits(cl, op)| <= 14
  {
    hide CodeBits, ToBits;
  }

  lemma {:induction false} OpsSize(cl: seq<nat>, ops: seq<Rle.Op>)
    requires DH.OpsCoded(cl, ops) && forall i :: 0 <= i < 19 ==> cl[i] <= 7
    ensures |DH.OpsBits(cl, ops)| <= 14 * |ops|
  {
    if |ops| == 0 {
    } else {
      hide DH.OpBits;
      OpSize(cl, ops[0]);
      OpsSize(cl, ops[1..]);
    }
  }

  lemma {:induction false} OpsYield(ops: seq<Rle.Op>)
    requires Rle.CanApplyAll(ops)
    ensures |ops| <= |Rle.ApplyAll(ops)|
  {
    if |ops| == 0 {
    } else {
      OpsYield(ops[..|ops| - 1]);
    }
  }

  lemma HeaderSize(h: DH.Header)
    requires h.Valid()
    ensures |DH.HeaderBits(h)| <= 4495
  {
    hide DH.OpsBits, Rle.ApplyAll, Rle.CanApplyAll, DH.HeaderBits;
    DH.HeaderLength(h);
    OpsSize(h.cl, h.ops);
    OpsYield(h.ops);
  }

  lemma DynamicSize(h: DH.Header, ts: seq<Token>, pos: nat)
    requires Dynamic(h, ts).Valid() && AllValid(ts) && Economical(LitLens(h), DistLens(h), ts)
             && |Layout(ts)| <= 0x1_0000
    ensures |Body(Dynamic(h, ts), pos)| <= MAX_BODY
  {
    hide Layout, DataBits, DH.HeaderBits, AllCoded, Economical, Tables, LitLens, DistLens;
    HeaderSize(h);
    EconomicalSize(LitLens(h), DistLens(h), ts);
  }
}
