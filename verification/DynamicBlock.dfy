/** tdefl_start_dynamic_block and tdefl_compress_block. */
module DynamicBlock {
  import opened Bits
  import opened LzTokens
  import opened LzAlphabet
  import opened CanonicalCode
  import opened BlockFormat
  import opened Blocks
  import opened BitWriter
  import opened BlockCoder
  import opened BlockSize
  import opened Inflater
  import DH = DynamicHeader
  import HT = HuffmanTable
  import RS = RankedSymbols
  import TC = TableCost
  import Rle = CodeLengthRle
  import TB = TokenBuffer

  // ---- the two token tables ----

  ghost predicate Separate(c: Coder, count0: array<u16>, count1: array<u16>) {
    && count0.Length == count1.Length == LITLEN_SYMBOLS && count0 != count1
    && count0 as object !in c.TableArrays() && count1 as object !in c.TableArrays()
    && count0 as object != c.w.out && count1 as object != c.w.out
  }

  lemma PowLimits()
    ensures Pow2(15) >= 288 && Pow2(7) >= 19
  {
    assert Pow2(9) == 512 by { assert Pow2(5) == 32; }
    Pow2Monotone(9, 15);
    Pow2Monotone(5, 7);
  }

  lemma CountsToHistograms(count0: seq<u16>, count1: seq<u16>, ts: seq<Token>)
    requires TB.CountsMatch(count0, count1, ts) && |ts| < 0xFFFF
    ensures LitHistogram(count0[END_OF_BLOCK := 1], ts) && DistHistogram(count1[..DIST_SYMBOLS], ts)
    ensures RS.Total(count0[END_OF_BLOCK := 1]) <= |ts| + 1 && RS.Total(count1[..DIST_SYMBOLS]) <= |ts|
  {
    hide LitTotal, DistTotal, RS.Total, LitLenCount, DistCount;
    Totals(ts);
    LitTotalOf(count0[END_OF_BLOCK := 1], ts);
    DistTotalOf(count1[..DIST_SYMBOLS], ts);
  }

  method BuildTables(c: Coder, count0: array<u16>, count1: array<u16>, ghost ts: seq<Token>)
    requires c.Shape() && Separate(c, count0, count1) && AllValid(ts) && |ts| < 0xFFFF
    requires TB.CountsMatch(count0[..], count1[..], ts)
    modifies count0, c.sizes0, c.codes0, c.sizes1, c.codes1
    ensures TablesFor(c, ts) && Tables(c.sizes0[..], c.sizes1[..]) && Economical(c.sizes0[..], c.sizes1[..], ts)
    ensures forall s :: 286 <= s < LITLEN_SYMBOLS ==> c.sizes0[s] == 0
    ensures forall s :: 30 <= s < DIST_SYMBOLS ==> c.sizes1[s] == 0
  {
    hide Decodable, Full, TC.Cheap, Economical, HT.CodesOf, RS.Total, LitLenCount, DistCount, AllCoded, Pow2;
    CountsToHistograms(count0[..], count1[..], ts);
    count0[END_OF_BLOCK] := 1;
    ghost var h0, h1 := count0[..], count1[..DIST_SYMBOLS];
    PowLimits();
    assert count0[..LITLEN_SYMBOLS] == h0 && h0 == old(count0[..])[END_OF_BLOCK := 1];
    HT.OptimizeTable(count0, LITLEN_SYMBOLS, 15, c.sizes0, c.codes0);
    HT.OptimizeTable(count1, DIST_SYMBOLS, 15, c.sizes1, c.codes1);
    assert c.sizes0[..LITLEN_SYMBOLS] == c.sizes0[..] && c.sizes1[..DIST_SYMBOLS] == c.sizes1[..];
    HistogramsCode(ts, h0, h1, c.sizes0[..], c.sizes1[..]);
    CheapIsEconomical(c.sizes0[..], c.sizes1[..], ts, h0, h1);
    UnusedTop(ts, h0, h1, c.sizes0[..], c.sizes1[..]);
  }

  lemma UnusedTop(ts: seq<Token>, h0: seq<u16>, h1: seq<u16>, ll: seq<nat>, dl: seq<nat>)
    requires AllValid(ts) && LitHistogram(h0, ts) && DistHistogram(h1, ts)
    requires |h0| == LITLEN_SYMBOLS && |h1| == DIST_SYMBOLS
    requires HT.LengthsFor(h0, ll, 15) && HT.LengthsFor(h1, dl, 15)
    ensures forall s :: 286 <= s < LITLEN_SYMBOLS ==> ll[s] == 0
    ensures forall s :: 30 <= s < DIST_SYMBOLS ==> dl[s] == 0
  {
    hide Decodable;
    forall s | 286 <= s < LITLEN_SYMBOLS
      ensures ll[s] == 0
    {
      NeverUsed(ts, s, 30);
    }
    forall s | 30 <= s < DIST_SYMBOLS
      ensures dl[s] == 0
    {
      NeverUsed(ts, 286, s);
    }
  }

  /** How many lengths are sent: from top down to, but not below, bottom, the first nonzero one. */
  method SentCount(sizes: array<nat>, top: nat, bottom: nat) returns (n: nat)
    requires 1 <= bottom <= top <= sizes.Length
    ensures bottom <= n <= top && forall s :: n <= s < top ==> sizes[s] == 0
    ensures n > bottom ==> sizes[n - 1] != 0
  {
    n := top;
    while n > bottom && sizes[n - 1] == 0
      invariant bottom <= n <= top && forall s :: n <= s < top ==> sizes[s] == 0
    {
      n := n - 1;
    }
  }

  // ---- the third table ----

  lemma {:induction false} CodeLengthTotal(count: seq<u16>, ops: seq<Rle.Op>)
    requires forall s :: 0 <= s < |count| ==> count[s] == Rle.SymbolCount(ops, s)
    ensures RS.Total(count) == Rle.CountUpTo(ops, |count|)
  {
    if |count| == 0 {
    } else {
      CodeLengthTotal(count[..|count| - 1], ops);
    }
  }

  lemma CodeLengthsCoded(count: seq<u16>, ops: seq<Rle.Op>, cl: seq<nat>)
    requires |count| == |cl| == Rle.RLE_SYMBOLS && Rle.CanApplyAll(ops)
    requires forall s :: 0 <= s < |count| ==> count[s] == Rle.SymbolCount(ops, s)
    requires forall s :: 0 <= s < |cl| ==> (cl[s] > 0 <==> count[s] > 0)
    ensures DH.OpsCoded(cl, ops)
  {
    hide Rle.SymbolCount;
    forall i | 0 <= i < |ops|
      ensures ops[i].Symbol() < 19 && cl[ops[i].Symbol()] > 0
    {
      OpsValid(ops, i);
      Rle.SymbolUsed(ops, i);
      assert count[ops[i].Symbol()] > 0;
    }
  }

  lemma {:induction false} OpsValid(ops: seq<Rle.Op>, i: nat)
    requires Rle.CanApplyAll(ops) && i < |ops|
    ensures ops[i].Valid()
  {
    if i < |ops| - 1 {
      OpsValid(ops[..|ops| - 1], i);
    }
  }

  /** Packs the code lengths and builds the table the packed form is sent with. */
  method PackLengths(c: Coder, lens: seq<nat>) returns (packer: Rle.Packer)
    requires c.Shape() && |lens| <= Rle.MAX_CODE_LENGTHS && forall i :: 0 <= i < |lens| ==> lens[i] <= 15
    modifies c.sizes2, c.codes2
    ensures fresh(packer) && fresh(packer.packed) && fresh(packer.count) && packer.Valid()
            && Rle.ApplyAll(packer.ops) == lens
    ensures Accepted(c.sizes2[..], DH.MAX_CL_SIZE) && DH.OpsCoded(c.sizes2[..], packer.ops)
    ensures Usable(c.sizes2[..], c.codes2[..])
  {
    hide Decodable, Full, TC.Cheap, HT.CodesOf, RS.Total, Rle.SymbolCount, Pow2;
    packer := new Rle.Packer(Rle.RLE_SYMBOLS);
    packer.PackAll(lens);
    ghost var count := packer.count[..];
    PowLimits();
    Rle.PackedNoLonger(packer.ops);
    CodeLengthTotal(count, packer.ops);
    Rle.CountUpToAtMost(packer.ops, Rle.RLE_SYMBOLS);
    assert packer.count[..Rle.RLE_SYMBOLS] == count;
    HT.OptimizeTable(packer.count, Rle.RLE_SYMBOLS, 7, c.sizes2, c.codes2);
    assert c.sizes2[..Rle.RLE_SYMBOLS] == c.sizes2[..];
    CodeLengthsCoded(count, packer.ops, c.sizes2[..]);
    WiderLimit(c.sizes2[..], DH.MAX_CL_SIZE, MAX_CODE_SIZE);
  }

  /** A code within a small limit is one within a larger limit. */
  lemma WiderLimit(lens: seq<nat>, b: nat, b': nat)
    requires Decodable(lens, b) && b <= b'
    ensures Decodable(lens, b')
  {
    WiderKraft(lens, b, b, b');
    LongerUnused(lens, b, b', b');
    Pow2Sum(b, b' - b);
    MulMonotone(KraftUpTo(lens, b, b), Pow2(b), Pow2(b' - b));
  }

  lemma MulMonotone(x: nat, y: nat, u: nat)
    requires x <= y
    ensures x * u <= y * u
  {
  }

  lemma {:induction false} WiderKraft(lens: seq<nat>, l: nat, b: nat, b': nat)
    requires l <= b <= b'
    ensures KraftUpTo(lens, l, b') == KraftUpTo(lens, l, b) * Pow2(b' - b)
  {
    if l == 0 {
    } else {
      WiderKraft(lens, l - 1, b, b');
      Pow2Sum(b - l, b' - b);
      Distribute(KraftUpTo(lens, l - 1, b), Count(lens, l), Pow2(b - l), Pow2(b' - b));
    }
  }

  lemma Distribute(x: nat, n: nat, p: nat, u: nat)
    ensures x * u + n * (p * u) == (x + n * p) * u
  {
  }

  lemma {:induction false} LongerUnused(lens: seq<nat>, b: nat, l: nat, b': nat)
    requires b <= l <= b' && forall s :: 0 <= s < |lens| ==> lens[s] <= b
    ensures KraftUpTo(lens, l, b') == KraftUpTo(lens, b, b')
  {
    if b < l {
      LongerUnused(lens, b, l - 1, b');
      CountNone(lens, l);
    }
  }

  lemma {:induction false} CountNone(lens: seq<nat>, l: nat)
    requires forall s :: 0 <= s < |lens| ==> lens[s] < l
    ensures Count(lens, l) == 0
  {
    if |lens| == 0 {
    } else {
      CountNone(lens[..|lens| - 1], l);
    }
  }

  // ---- sending the header ----

  lemma PowFields()
    ensures Pow2(2) == 4 && Pow2(3) == 8 && Pow2(4) == 16 && Pow2(5) == 32 && Pow2(7) == 128
  {
    assert Pow2(3) == 8;
    assert Pow2(5) == 32;
  }

  /** How many lengths of the third table are sent: at least 4, and the ones left off are zero. */
  method SentClCount(sizes: array<nat>) returns (n: nat)
    requires sizes.Length == Rle.RLE_SYMBOLS
    ensures 4 <= n <= 19 && forall i :: n <= i < 19 ==> sizes[ClOrder(i)] == 0
    ensures n > 4 ==> sizes[ClOrder(n - 1)] != 0
  {
    var k := 18;
    while k >= 0 && sizes[ClOrder(k)] == 0
      invariant -1 <= k <= 18 && forall i :: k < i < 19 ==> sizes[ClOrder(i)] == 0
    {
      k := k - 1;
    }
    n := if k + 1 < 4 then 4 else k + 1;
  }

  method PutClLengths(c: Coder, n: nat, ghost m: Mark, ghost sent: seq<bool>)
    requires c.Valid() && c.w.Since(m, sent) && n <= 19 && forall i :: 0 <= i < 19 ==> c.sizes2[i] < 8
    modifies c.w`outPos, c.w`bitBuffer, c.w`bitsIn, c.w.out
    ensures c.Valid() && c.w.Since(m, sent + DH.ClBits(c.sizes2[..], n))
  {
    hide ClOrder;
    ghost var cl := c.sizes2[..];
    assert sent + DH.ClBits(cl, 0) == sent;
    var i := 0;
    while i < n
      invariant 0 <= i <= n && c.Valid() && c.sizes2[..] == cl
      invariant c.w.Since(m, sent + DH.ClBits(cl, i))
    {
      PowFields();
      assert cl[ClOrder(i)] == c.sizes2[ClOrder(i)];
      c.w.Put(c.sizes2[ClOrder(i)], 3, m, sent + DH.ClBits(cl, i));
      assert sent + DH.ClBits(cl, i) + ToBits(cl[ClOrder(i)], 3) == sent + DH.ClBits(cl, i + 1);
      i := i + 1;
    }
  }

  /** Writes the instruction packed at p. */
  method PutOpAt(c: Coder, packed: array<nat>, p: nat, ghost op: Rle.Op, ghost m: Mark, ghost sent: seq<bool>)
    returns (p': nat)
    requires c.Valid() && c.w.Since(m, sent) && Usable(c.sizes2[..], c.codes2[..])
    requires op.Valid() && op.Symbol() < 19 && c.sizes2[op.Symbol()] > 0
    requires p + |Rle.OpBytes(op)| <= packed.Length && packed[p..p + |Rle.OpBytes(op)|] == Rle.OpBytes(op)
    modifies c.w`outPos, c.w`bitBuffer, c.w`bitsIn, c.w.out
    ensures c.Valid() && p' == p + |Rle.OpBytes(op)| && c.w.Since(m, sent + DH.OpBits(c.sizes2[..], op))
  {
    hide Usable, CodeBits, ToBits;
    ghost var cl, bytes := c.sizes2[..], packed[p..p + |Rle.OpBytes(op)|];
    assert packed[p] == bytes[0] == op.Symbol();
    var code := packed[p];
    p' := p + 1;
    PutCode(c.w, c.sizes2, c.codes2, code, m, sent);
    if code >= 16 {
      assert packed[p'] == bytes[1] == op.extra;
      c.w.Put(packed[p'], if code == 16 then 2 else if code == 17 then 3 else 7, m, sent + CodeBits(cl, code));
      p' := p' + 1;
      assert sent + CodeBits(cl, code) + ToBits(op.extra, Rle.ExtraBits(code)) == sent + DH.OpBits(cl, op);
    }
  }

  lemma OpPosition(packed: seq<nat>, ops: seq<Rle.Op>, k: nat)
    requires Rle.Packed(ops) <= packed && k < |ops|
    ensures var p := |Rle.Packed(ops[..k])|; var n := |Rle.OpBytes(ops[k])|;
            && p + n == |Rle.Packed(ops[..k + 1])| && p + n <= |Rle.Packed(ops)|
            && packed[p..p + n] == Rle.OpBytes(ops[k])
  {
    hide Rle.OpBytes;
    Rle.PackedAt(ops, k);
    assert ops[..k + 1][..k] == ops[..k];
    var a, b := Rle.Packed(ops[..k]), Rle.OpBytes(ops[k]);
    assert packed[..|a + b|] == a + b;
  }

  lemma OpsOneMore(cl: seq<nat>, ops: seq<Rle.Op>, k: nat, sent: seq<bool>)
    requires DH.OpsCoded(cl, ops) && k < |ops|
    ensures DH.OpsCoded(cl, ops[..k]) && DH.OpsCoded(cl, ops[..k + 1])
    ensures sent + DH.OpsBits(cl, ops[..k]) + DH.OpBits(cl, ops[k]) == sent + DH.OpsBits(cl, ops[..k + 1])
  {
    hide DH.OpsBits, DH.OpBits;
    DH.OpsBitsSnoc(cl, ops[..k], ops[k]);
    assert ops[..k] + [ops[k]] == ops[..k + 1];
  }

  method PutOps(c: Coder, packer: Rle.Packer, ghost m: Mark, ghost sent: seq<bool>)
    requires c.Valid() && c.w.Since(m, sent) && Usable(c.sizes2[..], c.codes2[..])
    requires packer.Valid() && DH.OpsCoded(c.sizes2[..], packer.ops)
    requires {packer, packer.packed, packer.count} !! {c.w, c.w.out}
    modifies c.w`outPos, c.w`bitBuffer, c.w`bitsIn, c.w.out
    ensures c.Valid() && c.w.Since(m, sent + DH.OpsBits(c.sizes2[..], packer.ops))
  {
    hide Usable, DH.OpBits, Rle.Packed, Rle.CanApplyAll, Rle.ApplyAll, Rle.SymbolCount, Rle.OpBytes;
    ghost var cl, ops, k: nat := c.sizes2[..], packer.ops, 0;
    var p := 0;
    NoOpsYet(cl, ops, sent);
    while p < packer.num
      invariant c.Valid() && c.sizes2[..] == cl && packer.Valid() && packer.ops == ops
                && Usable(c.sizes2[..], c.codes2[..])
      invariant k <= |ops| && p == |Rle.Packed(ops[..k])| && (p < packer.num ==> k < |ops|)
      invariant DH.OpsCoded(cl, ops[..k]) && c.w.Since(m, sent + DH.OpsBits(cl, ops[..k]))
      decreases |ops| - k
    {
      OpPosition(packer.packed[..], ops, k);
      OpsValid(ops, k);
      OpsOneMore(cl, ops, k, sent);
      p := PutOpAt(c, packer.packed, p, ops[k], m, sent + DH.OpsBits(cl, ops[..k]));
      k := k + 1;
      assert k == |ops| ==> ops[..k] == ops;
    }
    OpsLeft(ops, k);
    assert ops[..k] == ops;
  }

  lemma NoOpsYet(cl: seq<nat>, ops: seq<Rle.Op>, sent: seq<bool>)
    requires DH.OpsCoded(cl, ops)
    ensures DH.OpsCoded(cl, ops[..0]) && sent + DH.OpsBits(cl, ops[..0]) == sent
    ensures |Rle.Packed(ops[..0])| == 0 && (|ops| == 0 ==> |Rle.Packed(ops)| == 0)
  {
  }

  /** Nothing is left unread only when all instructions have been read. */
  lemma OpsLeft(ops: seq<Rle.Op>, k: nat)
    requires k <= |ops| && |Rle.Packed(ops[..k])| >= |Rle.Packed(ops)|
    ensures k == |ops|
  {
    if k < |ops| {
      Rle.PackedAt(ops, k);
    }
  }

  lemma JoinHeader(sent: seq<bool>, a: seq<bool>, b: seq<bool>, c: seq<bool>, d: seq<bool>, e: seq<bool>)
    ensures sent + a + b + c + d + e == sent + (a + (b + (c + (d + e))))
  {
  }

  method PutCounts(c: Coder, numLit: nat, numDist: nat, ghost m: Mark, ghost sent: seq<bool>)
    requires c.Valid() && c.w.Since(m, sent) && 257 <= numLit <= 286 && 1 <= numDist <= 30
    modifies c.w`outPos, c.w`bitBuffer, c.w`bitsIn, c.w.out
    ensures c.Valid() && c.w.Since(m, sent + ToBits(numLit - 257, 5) + ToBits(numDist - 1, 5))
  {
    hide ToBits, c.w.Since;
    PowFields();
    c.w.Put(numLit - 257, 5, m, sent);
    c.w.Put(numDist - 1, 5, m, sent + ToBits(numLit - 257, 5));
  }

  method PutClTable(c: Coder, ghost m: Mark, ghost sent: seq<bool>) returns (numCl: nat)
    requires c.Valid() && c.w.Since(m, sent) && Accepted(c.sizes2[..], DH.MAX_CL_SIZE)
    modifies c.w`outPos, c.w`bitBuffer, c.w`bitsIn, c.w.out
    ensures c.Valid() && 4 <= numCl <= 19 && forall i :: numCl <= i < 19 ==> c.sizes2[..][ClOrder(i)] == 0
    ensures numCl > 4 ==> c.sizes2[ClOrder(numCl - 1)] != 0
    ensures c.w.Since(m, sent + ToBits(numCl - 4, 4) + DH.ClBits(c.sizes2[..], numCl))
  {
    hide ToBits, c.w.Since, DH.ClBits, ClOrder;
    assert forall i :: 0 <= i < 19 ==> c.sizes2[..][i] < 8;
    PowFields();
    numCl := SentClCount(c.sizes2);
    c.w.Put(numCl - 4, 4, m, sent);
    PutClLengths(c, numCl, m, sent + ToBits(numCl - 4, 4));
  }

  lemma PackerShape(c: Coder, packer: Rle.Packer)
    requires c.Valid() && packer.Valid()
    ensures |c.sizes2[..]| == 19 && Rle.CanApplyAll(packer.ops)
  {
  }

  method PutHeader(c: Coder, numLit: nat, numDist: nat, packer: Rle.Packer, ghost m: Mark, ghost sent: seq<bool>)
    returns (ghost h: DH.Header)
    requires c.Valid() && c.w.Since(m, sent) && Usable(c.sizes2[..], c.codes2[..])
             && Accepted(c.sizes2[..], DH.MAX_CL_SIZE)
    requires packer.Valid() && DH.OpsCoded(c.sizes2[..], packer.ops)
    requires {packer, packer.packed, packer.count} !! {c.w, c.w.out}
    requires 257 <= numLit <= 286 && 1 <= numDist <= 30 && |Rle.ApplyAll(packer.ops)| == numLit + numDist
    modifies c.w`outPos, c.w`bitBuffer, c.w`bitsIn, c.w.out
    ensures c.Valid() && h.Valid() && h.numLit == numLit && h.ops == packer.ops && c.w.Since(m, sent + DH.HeaderBits(h))
    ensures h.numDist == numDist
  {
    hide *;
    ghost var cl, ops := c.sizes2[..], packer.ops;
    PackerShape(c, packer);
    PutCounts(c, numLit, numDist, m, sent);
    ghost var sent1 := sent + ToBits(numLit - 257, 5) + ToBits(numDist - 1, 5);
    var numCl := PutClTable(c, m, sent1);
    PutOps(c, packer, m, sent1 + ToBits(numCl - 4, 4) + DH.ClBits(cl, numCl));
    h := DH.Header(numLit, numDist, numCl, cl, ops);
    HeaderIs(h, sent);
  }

  lemma HeaderIs(h: DH.Header, sent: seq<bool>)
    requires 257 <= h.numLit <= 286 && 1 <= h.numDist <= 30 && 4 <= h.numCl <= 19
    requires Accepted(h.cl, DH.MAX_CL_SIZE) && DH.OpsCoded(h.cl, h.ops) && forall i :: h.numCl <= i < 19 ==>
               h.cl[ClOrder(i)] == 0
    requires Rle.CanApplyAll(h.ops) && |Rle.ApplyAll(h.ops)| == h.numLit + h.numDist
    ensures h.Valid()
    ensures sent + DH.HeaderBits(h) == sent + ToBits(h.numLit - 257, 5) + ToBits(h.numDist - 1, 5) +
              ToBits(h.numCl - 4, 4)
            + DH.ClBits(h.cl, h.numCl) + DH.OpsBits(h.cl, h.ops)
  {
    hide DH.ClBits, DH.OpsBits, ToBits, Rle.ApplyAll, Rle.CanApplyAll, KraftUpTo, ClOrder;
    assert forall i :: 0 <= i < 19 ==> h.cl[i] < 8;
    JoinHeader(sent, ToBits(h.numLit - 257, 5), ToBits(h.numDist - 1, 5), ToBits(h.numCl - 4, 4),
               DH.ClBits(h.cl, h.numCl), DH.OpsBits(h.cl, h.ops));
  }

  // ---- the whole block ----

  /** The header h describes the tables, with trailing unused symbols left off. */
  ghost predicate Describes(h: DH.Header, ll: seq<nat>, dl: seq<nat>, ts: seq<Token>) {
    && h.Valid() && Dynamic(h, ts).Valid() && AllCoded(ll, dl, ts)
    && DataBits(LitLens(h), DistLens(h), ts) == DataBits(ll, dl, ts)
    && Thrifty(Dynamic(h, ts))
  }

  lemma SplitLengths(h: DH.Header, ll: seq<nat>, dl: seq<nat>, ts: seq<Token>)
    requires h.Valid() && h.numLit <= |ll| && h.numDist <= |dl|
             && Rle.ApplyAll(h.ops) == ll[..h.numLit] + dl[..h.numDist]
    requires Tables(ll, dl) && AllCoded(ll, dl, ts) && Economical(ll, dl, ts)
    requires forall s :: h.numLit <= s < |ll| ==> ll[s] == 0
    requires forall s :: h.numDist <= s < |dl| ==> dl[s] == 0
    ensures Describes(h, ll, dl, ts)
  {
    hide Decodable, Full, AllCoded, Rle.ApplyAll, DataBits, Rivals;
    DataTrimmed(ll, dl, h.numLit, h.numDist, ts);
    assert LitLens(h) == ll[..h.numLit] && DistLens(h) == dl[..h.numDist];
  }

  /** The tables and the packed code lengths, before anything is written. */
  method PrepareDynamic(c: Coder, count0: array<u16>, count1: array<u16>, ghost ts: seq<Token>)
    returns (numLit: nat, numDist: nat, packer: Rle.Packer)
    requires c.Shape() && Separate(c, count0, count1) && AllValid(ts) && |ts| < 0xFFFF
    requires TB.CountsMatch(count0[..], count1[..], ts)
    modifies count0, c.TableArrays()
    ensures TablesFor(c, ts) && Tables(c.sizes0[..], c.sizes1[..]) && Economical(c.sizes0[..], c.sizes1[..], ts)
    ensures 257 <= numLit <= 286 && 1 <= numDist <= 30
    ensures forall s :: numLit <= s < |c.sizes0[..]| ==> c.sizes0[..][s] == 0
    ensures forall s :: numDist <= s < |c.sizes1[..]| ==> c.sizes1[..][s] == 0
    ensures fresh(packer) && fresh(packer.packed) && fresh(packer.count) && packer.Valid()
    ensures Rle.ApplyAll(packer.ops) == c.sizes0[..][..numLit] + c.sizes1[..][..numDist]
    ensures Accepted(c.sizes2[..], DH.MAX_CL_SIZE) && DH.OpsCoded(c.sizes2[..], packer.ops)
    ensures Usable(c.sizes2[..], c.codes2[..])
  {
    hide AllCoded, Economical, Full, Rle.ApplyAll, Rle.CanApplyAll, Rle.Packed, Rle.SymbolCount, DH.OpsCoded,
         HT.CodesOf, TB.CountsMatch, KraftUpTo;
    BuildTables(c, count0, count1, ts);
    numLit := SentCount(c.sizes0, 286, 257);
    numDist := SentCount(c.sizes1, 30, 1);
    packer := PackLengths(c, c.sizes0[..numLit] + c.sizes1[..numDist]);
  }

  method StartDynamicBlock(c: Coder, count0: array<u16>, count1: array<u16>, ghost ts: seq<Token>, ghost m: Mark,
                           ghost sent: seq<bool>)
    returns (ghost h: DH.Header)
    requires c.Valid() && c.w.Since(m, sent) && Separate(c, count0, count1) && AllValid(ts) && |ts| < 0xFFFF
    requires TB.CountsMatch(count0[..], count1[..], ts)
    modifies count0, c.TableArrays(), c.w`outPos, c.w`bitBuffer, c.w`bitsIn, c.w.out
    ensures c.Valid() && TablesFor(c, ts) && Describes(h, c.sizes0[..], c.sizes1[..], ts)
    ensures c.w.Since(m, sent + ToBits(2, 2) + DH.HeaderBits(h))
  {
    hide DH.HeaderBits, ToBits, AllCoded, Economical, Tables, Rle.ApplyAll, DH.OpsCoded, HT.CodesOf, TB.CountsMatch,
         Describes, c.w.Since, c.w.Valid;
    var numLit, numDist, packer := PrepareDynamic(c, count0, count1, ts);
    TwoBits(2);
    c.w.Put(2, 2, m, sent);
    h := PutHeader(c, numLit, numDist, packer, m, sent + ToBits(2, 2));
    SplitTables(c, h, ts);
  }

  lemma SplitTables(c: Coder, h: DH.Header, ts: seq<Token>)
    requires c.Shape() && TablesFor(c, ts) && h.Valid() && Tables(c.sizes0[..], c.sizes1[..])
             && Economical(c.sizes0[..], c.sizes1[..], ts)
    requires Rle.ApplyAll(h.ops) == c.sizes0[..][..h.numLit] + c.sizes1[..][..h.numDist]
    requires forall s :: h.numLit <= s < |c.sizes0[..]| ==> c.sizes0[..][s] == 0
    requires forall s :: h.numDist <= s < |c.sizes1[..]| ==> c.sizes1[..][s] == 0
    ensures Describes(h, c.sizes0[..], c.sizes1[..], ts)
  {
    hide AllCoded, Rle.ApplyAll, HT.CodesOf, Describes, Economical, Tables;
    SplitLengths(h, c.sizes0[..], c.sizes1[..], ts);
  }

  method CompressStatic(c: Coder, buf: array<byte>, n: nat, ghost ts: seq<Token>, ghost m: Mark) returns (ok: bool)
    requires c.Valid() && c.w.Since(m, []) && buf != c.w.out && buf as object !in c.TableArrays()
    requires n <= buf.Length && buf[..n] == Layout(ts) && AllValid(ts)
    modifies c.TableArrays(), c.w`outPos, c.w`bitBuffer, c.w`bitsIn, c.w.out
    ensures c.Valid() && ok == (c.w.outPos < c.w.outEnd) && Fixed(ts).Valid()
    ensures forall pos :: c.w.Since(m, ToBits(1, 2) + Body(Fixed(ts), pos))
  {
    hide AllCoded, DataBits, FixedLitLens, FixedDistLens, c.w.Since, c.w.Valid, ToBits, Usable, Layout;
    StartStaticBlock(c, ts, m, []);
    assert [] + ToBits(1, 2) == ToBits(1, 2);
    ok := CompressLzCodes(c, buf, n, ts, m, ToBits(1, 2));
  }

  method CompressDynamic(c: Coder, buf: array<byte>, n: nat, count0: array<u16>, count1: array<u16>,
                         ghost ts: seq<Token>, ghost m: Mark)
    returns (ok: bool, ghost h: DH.Header)
    requires c.Valid() && c.w.Since(m, []) && buf != c.w.out && buf as object !in c.TableArrays()
             && buf as object != count0
    requires n <= buf.Length && buf[..n] == Layout(ts) && AllValid(ts) && |ts| < 0xFFFF
    requires Separate(c, count0, count1) && TB.CountsMatch(count0[..], count1[..], ts)
    modifies count0, c.TableArrays(), c.w`outPos, c.w`bitBuffer, c.w`bitsIn, c.w.out
    ensures c.Valid() && ok == (c.w.outPos < c.w.outEnd) && Dynamic(h, ts).Valid() && Thrifty(Dynamic(h, ts))
    ensures forall pos :: c.w.Since(m, ToBits(2, 2) + Body(Dynamic(h, ts), pos))
  {
    hide AllCoded, DataBits, DH.HeaderBits, c.w.Since, c.w.Valid, ToBits, Usable, Layout, TB.CountsMatch, DH.OpsCoded,
         Rle.ApplyAll, Tables, Thrifty;
    h := StartDynamicBlock(c, count0, count1, ts, m, []);
    assert [] + ToBits(2, 2) == ToBits(2, 2);
    ok := CompressLzCodes(c, buf, n, ts, m, ToBits(2, 2) + DH.HeaderBits(h));
    JoinThree(ToBits(2, 2), DH.HeaderBits(h), DataBits(LitLens(h), DistLens(h), ts));
  }

  lemma JoinThree(a: seq<bool>, b: seq<bool>, c: seq<bool>)
    ensures a + b + c == a + (b + c)
  {
  }

  /** tdefl_compress_block */
  method CompressBlock(c: Coder, buf: array<byte>, n: nat, count0: array<u16>, count1: array<u16>, isStatic: bool,
                       ghost ts: seq<Token>, ghost m: Mark)
    returns (ok: bool, ghost b: Block)
    requires c.Valid() && c.w.Since(m, []) && buf != c.w.out && buf as object !in c.TableArrays()
             && buf as object != count0
    requires n <= buf.Length && buf[..n] == Layout(ts) && AllValid(ts) && |ts| < 0xFFFF && Separate(c, count0, count1)
    requires !isStatic ==> TB.CountsMatch(count0[..], count1[..], ts)
    modifies count0, c.TableArrays(), c.w`outPos, c.w`bitBuffer, c.w`bitsIn, c.w.out
    ensures c.Valid() && ok == (c.w.outPos < c.w.outEnd)
    ensures b.Valid() && Thrifty(b) && (if isStatic then b == Fixed(ts) else b.Dynamic? && b.tokens == ts)
    ensures forall pos :: c.w.Since(m, ToBits(b.Kind(), 2) + Body(b, pos))
  {
    hide Body, c.w.Since, c.w.Valid, ToBits, Layout, TB.CountsMatch, DH.OpsCoded, Rle.ApplyAll, Decodable;
    if isStatic {
      ok := CompressStatic(c, buf, n, ts, m);
      b := Fixed(ts);
    } else {
      ghost var h;
      ok, h := CompressDynamic(c, buf, n, count0, count1, ts, m);
      b := Dynamic(h, ts);
    }
  }
}
