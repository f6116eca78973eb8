/** tdefl_optimize_huffman_table: from symbol counts to code lengths to canonical codes. */
module HuffmanTable {
  import opened Bits
  import opened RadixSort
  import opened CanonicalCode
  import MR = MinRedundancy
  import HO = HuffmanOptimality
  import LL = LengthLimit
  import opened LengthHistogram
  import opened RankedSymbols
  import opened TableCost
  import LP = LimitPenalty

  // ---- handing lengths to symbols ----

  /** Ranked symbols from `from` on have their lengths, descending; all other symbols have none. */
  ghost predicate Handed(r: seq<SymFreq>, from: nat, lens: seq<nat>, longest: nat) {
    && (forall k :: 0 <= k < |r| ==> r[k].sym < |lens|)
    && (forall k :: from <= k < |r| ==> 1 <= lens[r[k].sym] <= longest)
    && (forall k, m :: from <= k < m < |r| ==> lens[r[k].sym] >= lens[r[m].sym])
    && (forall s :: 0 <= s < |lens| && lens[s] > 0 ==> exists k :: from <= k < |r| && r[k].sym == s)
  }

  lemma HandOne(r: seq<SymFreq>, from: nat, lens: seq<nat>, l: nat)
    requires 0 < from <= |r| && l > 0 && Handed(r, from, lens, l)
    requires forall i, j :: 0 <= i < j < |r| ==> r[i].sym != r[j].sym
    ensures r[from - 1].sym < |lens| && lens[r[from - 1].sym] == 0
    ensures Handed(r, from - 1, lens[r[from - 1].sym := l], l)
  {
    var s := r[from - 1].sym;
    var lens' := lens[s := l];
    forall t | 0 <= t < |lens'| && lens'[t] > 0
      ensures exists k :: from - 1 <= k < |r| && r[k].sym == t
    {
      if t == s {
        assert r[from - 1].sym == t;
      }
    }
  }

  /** The histogram so far: complete below l, `rest` codes of length l still to hand out. */
  ghost predicate HistSoFar(lens: seq<nat>, num: seq<nat>, l: nat, rest: nat) {
    && l < |num| && rest <= num[l]
    && (forall i: nat :: 1 <= i < l ==> Count(lens, i) == num[i])
    && Count(lens, l) == num[l] - rest
    && (forall i: nat :: l < i ==> Count(lens, i) == 0)
  }

  lemma HistOneMore(lens: seq<nat>, num: seq<nat>, l: nat, rest: nat, s: nat)
    requires HistSoFar(lens, num, l, rest) && rest > 0 && l > 0 && s < |lens| && lens[s] == 0
    ensures HistSoFar(lens[s := l], num, l, rest - 1)
  {
    var lens' := lens[s := l];
    CountUpdate(lens, s, l, l);
    forall i: nat | i > 0
      ensures Count(lens', i) == Count(lens, i) + (if i == l then 1 else 0)
    {
      CountUpdate(lens, s, l, i);
    }
  }

  /** syms lists the symbols of r in order, whatever its keys have become. */
  ghost predicate ListsSyms(syms: seq<SymFreq>, r: seq<SymFreq>) {
    |r| <= |syms| && forall i :: 0 <= i < |r| ==> syms[i].sym == r[i].sym
  }

  method AssignSizes(syms: array<SymFreq>, n: nat, num: array<nat>, limit: nat, sizes: array<nat>,
                     ghost r: seq<SymFreq>)
    requires n == |r| && ListsSyms(syms[..], r) && DistinctSyms(r, sizes.Length)
    requires num.Length == 33 && 1 <= limit <= 15 && LL.HistCount(num[..], 0, limit) == n
    requires forall s :: 0 <= s < sizes.Length ==> sizes[s] == 0
    requires num != sizes
    modifies sizes
    ensures Handed(r, 0, sizes[..], limit)
    ensures forall l :: 1 <= l <= limit ==> Count(sizes[..], l) == num[l]
  {
    ghost var hist := num[..];
    forall l: nat | l > 0
      ensures Count(sizes[..], l) == 0
    {
      CountZeros(sizes[..], l);
    }
    var i, j := 1, n;
    while i <= limit
      invariant 1 <= i <= limit + 1
      invariant j == n - LL.HistCount(hist, 0, i - 1) && 0 <= j <= n
      invariant Handed(r, j, sizes[..], i - 1)
      invariant HistSoFar(sizes[..], hist, i, hist[i])
    {
      LL.HistCountSplit(hist, 0, i, limit);
      j := HandOut(syms, j, num[i], i, sizes, hist, r);
      i := i + 1;
    }
  }

  /** Gives length i to the next count symbols, most frequent first. */
  method HandOut(syms: array<SymFreq>, j0: nat, count: nat, i: nat, sizes: array<nat>, ghost hist: seq<nat>,
                 ghost r: seq<SymFreq>)
    returns (j: nat)
    requires 0 < i < |hist| - 1 && count == hist[i] <= j0 <= |r|
    requires ListsSyms(syms[..], r) && DistinctSyms(r, sizes.Length)
    requires Handed(r, j0, sizes[..], i - 1) && HistSoFar(sizes[..], hist, i, hist[i])
    modifies sizes
    ensures j == j0 - count
    ensures Handed(r, j, sizes[..], i) && HistSoFar(sizes[..], hist, i + 1, hist[i + 1])
  {
    j := j0;
    var l := count;
    while l > 0
      invariant 0 <= l <= count && j == j0 - count + l
      invariant Handed(r, j, sizes[..], i) && HistSoFar(sizes[..], hist, i, l)
    {
      ghost var lens := sizes[..];
      HandOne(r, j, lens, i);
      j := j - 1;
      HistOneMore(lens, hist, i, l, r[j].sym as nat);
      sizes[syms[j].sym] := i;
      assert sizes[..] == lens[r[j].sym := i];
      l := l - 1;
    }
  }

  // ---- canonical codes ----

  /** codes[s] holds the code of s with its bits reversed, ready to be written. */
  ghost predicate CodesOf(codes: seq<nat>, lens: seq<nat>) {
    CodesUpTo(codes, lens, |lens|)
  }

  ghost predicate CodesUpTo(codes: seq<nat>, lens: seq<nat>, n: nat) {
    && n <= |lens| <= |codes|
    && forall s :: 0 <= s < n && lens[s] > 0 ==> Writes(codes[s], lens, s)
  }

  ghost predicate Writes(code: nat, lens: seq<nat>, s: nat)
    requires s < |lens|
  {
    code < Pow2(lens[s]) && ToBits(code, lens[s]) == CodeBits(lens, s)
  }

  method FirstCodes(num: array<nat>, limit: nat, ghost lens: seq<nat>) returns (nextCode: array<nat>)
    requires num.Length == 33 && 1 <= limit <= 15
    requires forall l :: 1 <= l <= limit ==> num[l] == Count(lens, l)
    ensures fresh(nextCode) && nextCode.Length == 33
    ensures forall l :: 1 <= l <= limit ==> nextCode[l] == FirstCode(lens, l)
  {
    nextCode := new nat[33];
    nextCode[1] := 0;
    var i, j := 2, 0;
    while i <= limit
      invariant 2 <= i <= limit + 1 && j == FirstCode(lens, i - 1)
      invariant forall l :: 1 <= l < i ==> nextCode[l] == FirstCode(lens, l)
    {
      j := 2 * (j + num[i - 1]);
      nextCode[i] := j;
      i := i + 1;
    }
  }

  method ReverseCode(code: nat, size: nat) returns (rev: nat)
    requires code < Pow2(size)
    ensures rev < Pow2(size) && ToBits(rev, size) == MsbBits(code, size)
  {
    rev := 0;
    var c, k := code, 0;
    while k < size
      invariant 0 <= k <= size && c == Shr(code, k)
      invariant rev < Pow2(k) && ToBits(rev, k) == MsbBits(code, k)
    {
      ghost var r := rev;
      MsbNext(code, k);
      ShrNext(code, k);
      rev := 2 * rev + c % 2;
      assert rev / 2 == r && rev % 2 == c % 2;
      c, k := c / 2, k + 1;
    }
  }

  method AssignCodes(sizes: array<nat>, tableLen: nat, num: array<nat>, limit: nat, codes: array<nat>)
    requires tableLen <= sizes.Length && tableLen <= codes.Length && num.Length == 33 && 1 <= limit <= 15
    requires codes != sizes && codes != num
    requires Decodable(sizes[..tableLen], limit)
    requires forall l :: 1 <= l <= limit ==> num[l] == Count(sizes[..tableLen], l)
    modifies codes
    ensures CodesOf(codes[..], sizes[..tableLen])
  {
    ghost var lens := sizes[..tableLen];
    var nextCode := FirstCodes(num, limit, lens);
    NoCodesYet(nextCode[..], lens, limit);
    var i := 0;
    while i < tableLen
      invariant 0 <= i <= tableLen && sizes[..tableLen] == lens
      invariant NextCodes(nextCode[..], lens, i, limit)
      invariant CodesUpTo(codes[..], lens, i)
    {
      AssignCode(i, sizes[i], limit, nextCode, codes, lens);
      i := i + 1;
    }
  }

  method AssignCode(i: nat, size: nat, limit: nat, nextCode: array<nat>, codes: array<nat>, ghost lens: seq<nat>)
    requires nextCode != codes && i < |lens| && size == lens[i] && Decodable(lens, limit)
    requires NextCodes(nextCode[..], lens, i, limit) && CodesUpTo(codes[..], lens, i)
    modifies nextCode, codes
    ensures NextCodes(nextCode[..], lens, i + 1, limit) && CodesUpTo(codes[..], lens, i + 1)
  {
    ghost var next := nextCode[..];
    NextCodesStep(next, lens, i, limit);
    if size != 0 {
      var code := nextCode[size];
      nextCode[size] := code + 1;
      assert nextCode[..] == next[size := next[size] + 1];
      var rev := ReverseCode(code, size);
      codes[i] := rev;
    }
  }

  /** The next code to hand out for each length, after the first i symbols. */
  ghost predicate NextCodes(next: seq<nat>, lens: seq<nat>, i: nat, limit: nat) {
    && i <= |lens| && |next| > limit
    && forall l :: 1 <= l <= limit ==> next[l] == FirstCode(lens, l) + Count(lens[..i], l)
  }

  lemma NoCodesYet(next: seq<nat>, lens: seq<nat>, limit: nat)
    requires |next| > limit && forall l :: 1 <= l <= limit ==> next[l] == FirstCode(lens, l)
    ensures NextCodes(next, lens, 0, limit)
  {
    assert lens[..0] == [];
  }

  lemma NextCodesStep(next: seq<nat>, lens: seq<nat>, i: nat, limit: nat)
    requires i < |lens| && Decodable(lens, limit) && NextCodes(next, lens, i, limit)
    ensures lens[i] == 0 ==> NextCodes(next, lens, i + 1, limit)
    ensures lens[i] > 0 ==> lens[i] <= limit && next[lens[i]] == Code(lens, i) < Pow2(lens[i])
    ensures lens[i] > 0 ==> NextCodes(next[lens[i] := next[lens[i]] + 1], lens, i + 1, limit)
  {
    assert lens[..i + 1][..i] == lens[..i];
    if lens[i] > 0 {
      CodeFits(lens, i, limit);
    }
  }

  // ---- the whole table ----

  /** Every used symbol, and no other, has a code; frequent symbols never have longer ones. The code is complete. */
  ghost predicate LengthsFor(counts: seq<u16>, lens: seq<nat>, limit: nat) {
    && |lens| == |counts| && Decodable(lens, limit) && Full(lens, limit)
    && (forall s :: 0 <= s < |lens| ==> (lens[s] > 0 <==> counts[s] > 0))
    && (forall s, t :: 0 <= s < |lens| && 0 <= t < |lens| && 0 < counts[s] < counts[t] ==> lens[s] >= lens[t])
  }

  lemma {:induction false} CountTrimmed(lens: seq<nat>, k: nat, l: nat)
    requires k <= |lens| && l > 0 && forall s :: k <= s < |lens| ==> lens[s] == 0
    ensures Count(lens[..k], l) == Count(lens, l)
    decreases |lens|
  {
    if k < |lens| {
      CountTrimmed(lens[..|lens| - 1], k, l);
      assert lens[..|lens| - 1][..k] == lens[..k];
    } else {
      assert lens[..k] == lens;
    }
  }

  lemma HandedLengths(counts: seq<u16>, r: seq<SymFreq>, lens: seq<nat>, num: seq<nat>, limit: nat)
    requires 1 <= limit <= 15 && |num| == 33 && |counts| <= |lens|
    requires Ranked(r, counts) && Handed(r, 0, lens, limit)
    requires forall l :: 1 <= l <= limit ==> Count(lens, l) == num[l]
    requires LL.HistKraft(num, limit, limit) <= Pow2(limit)
             && (|r| >= 2 ==> LL.HistKraft(num, limit, limit) == Pow2(limit))
    ensures LengthsFor(counts, lens[..|counts|], limit)
    ensures forall l :: 1 <= l <= limit ==> num[l] == Count(lens[..|counts|], l)
  {
    hide *;
    var trimmed := lens[..|counts|];
    HandedElsewhere(counts, r, lens, limit);
    HandedTrimmed(lens, |counts|, num, limit);
    HandedBySymbol(counts, r, lens, limit);
    HistKraftIsKraft(num, trimmed, limit, limit);
    if |r| <= 1 {
      HandedFew(counts, r, lens, limit);
    }
    LengthsForIf(counts, trimmed, limit);
  }

  lemma LengthsForIf(counts: seq<u16>, lens: seq<nat>, limit: nat)
    requires |lens| == |counts| && KraftUpTo(lens, limit, limit) <= Pow2(limit)
    requires KraftUpTo(lens, limit, limit) == Pow2(limit) || AtMostOne(lens)
    requires forall s :: 0 <= s < |counts| ==> lens[s] <= limit && (lens[s] > 0 <==> counts[s] > 0)
    requires forall s, t :: 0 <= s < |counts| && 0 <= t < |counts| && 0 < counts[s] < counts[t] ==> lens[s] >= lens[t]
    ensures LengthsFor(counts, lens, limit)
  {
    hide KraftUpTo, AtMostOne;
  }

  lemma HandedTrimmed(lens: seq<nat>, k: nat, num: seq<nat>, limit: nat)
    requires k <= |lens| && |num| > limit && forall s :: k <= s < |lens| ==> lens[s] == 0
    requires forall l :: 1 <= l <= limit ==> Count(lens, l) == num[l]
    ensures forall l :: 1 <= l <= limit ==> num[l] == Count(lens[..k], l)
  {
    hide Count;
    forall l: nat | 1 <= l <= limit
      ensures num[l] == Count(lens[..k], l)
    {
      CountTrimmed(lens, k, l);
    }
  }

  lemma HandedBySymbol(counts: seq<u16>, r: seq<SymFreq>, lens: seq<nat>, limit: nat)
    requires |counts| <= |lens| && Ranked(r, counts) && Handed(r, 0, lens, limit)
    ensures var trimmed := lens[..|counts|];
            && (forall s :: 0 <= s < |counts| ==> trimmed[s] <= limit && (trimmed[s] > 0 <==> counts[s] > 0))
            && (forall s, t :: 0 <= s < |counts| && 0 <= t < |counts| && 0 < counts[s] < counts[t] ==>
                  trimmed[s] >= trimmed[t])
  {
    hide *;
    forall s | 0 <= s < |counts|
      ensures lens[s] <= limit && (lens[s] > 0 <==> counts[s] > 0)
    {
      HandedSupport(counts, r, lens, limit, s);
    }
    forall s, t | 0 <= s < |counts| && 0 <= t < |counts| && 0 < counts[s] < counts[t]
      ensures lens[s] >= lens[t]
    {
      HandedOrder(counts, r, lens, limit, s, t);
    }
  }

  lemma HandedElsewhere(counts: seq<u16>, r: seq<SymFreq>, lens: seq<nat>, limit: nat)
    requires |counts| <= |lens| && Ranked(r, counts) && Handed(r, 0, lens, limit)
    ensures forall s :: |counts| <= s < |lens| ==> lens[s] == 0
  {
  }

  lemma HandedFew(counts: seq<u16>, r: seq<SymFreq>, lens: seq<nat>, limit: nat)
    requires |counts| <= |lens| && Handed(r, 0, lens, limit) && |r| <= 1
    ensures AtMostOne(lens[..|counts|])
  {
    forall s, t | 0 <= s < |counts| && 0 <= t < |counts| && lens[s] > 0 && lens[t] > 0
      ensures s == t
    {
      var i :| 0 <= i < |r| && r[i].sym == s;
      var j :| 0 <= j < |r| && r[j].sym == t;
    }
  }

  lemma HandedSupport(counts: seq<u16>, r: seq<SymFreq>, lens: seq<nat>, limit: nat, s: nat)
    requires |counts| <= |lens| && Ranked(r, counts) && Handed(r, 0, lens, limit) && s < |counts|
    ensures lens[s] <= limit && (lens[s] > 0 <==> counts[s] > 0)
  {
    if lens[s] > 0 {
      var k :| 0 <= k < |r| && r[k].sym == s;
    }
  }

  lemma HandedOrder(counts: seq<u16>, r: seq<SymFreq>, lens: seq<nat>, limit: nat, s: nat, t: nat)
    requires |counts| <= |lens| && Ranked(r, counts) && Handed(r, 0, lens, limit)
    requires s < |counts| && t < |counts| && 0 < counts[s] < counts[t]
    ensures lens[s] >= lens[t]
  {
    var i :| 0 <= i < |r| && r[i].sym == s;
    var j :| 0 <= j < |r| && r[j].sym == t;
    assert r[i].key < r[j].key;
    assert i < j;
  }

  /** By rank, the lengths handed out are the sorted list of the histogram. */
  lemma HandedLists(r: seq<SymFreq>, lens: seq<nat>, num: seq<nat>, limit: nat)
    requires Handed(r, 0, lens, limit) && DistinctSyms(r, |lens|) && |num| > limit
    requires forall l :: 1 <= l <= limit ==> Count(lens, l) == num[l]
    ensures LP.Lists(Lookup(r, lens), num, limit)
  {
    HandedInOrder(r, lens, limit);
    hide Handed, DistinctSyms, Supports, Count, Lookup;
    forall l: nat | 1 <= l <= limit
      ensures num[l] == Count(Lookup(r, lens), l)
    {
      LookupCount(r, lens, l);
    }
  }

  lemma HandedInOrder(r: seq<SymFreq>, lens: seq<nat>, limit: nat)
    requires Handed(r, 0, lens, limit) && DistinctSyms(r, |lens|)
    ensures Supports(r, lens)
    ensures LP.Descending(Lookup(r, lens)) && forall i :: 0 <= i < |r| ==> 1 <= Lookup(r, lens)[i] <= limit
  {
  }

  method CollectUsed(counts: array<u16>, tableLen: nat, syms: array<SymFreq>) returns (n: nat)
    requires tableLen <= counts.Length && tableLen <= syms.Length && tableLen <= MAX_SYMBOLS
    modifies syms
    ensures n <= tableLen && syms[..n] == Used(counts[..tableLen])
  {
    n := 0;
    var i := 0;
    while i < tableLen
      invariant 0 <= n <= i <= tableLen && syms[..n] == Used(counts[..i])
    {
      assert counts[..i + 1][..i] == counts[..i];
      if counts[i] != 0 {
        ghost var before := syms[..n];
        syms[n] := SymFreq(counts[i], i);
        assert syms[..n + 1] == before + [SymFreq(counts[i], i)];
        n := n + 1;
      }
      i := i + 1;
    }
  }

  method RankUsed(counts: array<u16>, tableLen: nat) returns (syms: array<SymFreq>, n: nat)
    requires tableLen <= counts.Length && tableLen <= MAX_SYMBOLS
    ensures fresh(syms) && n <= tableLen && n <= syms.Length && Ranked(syms[..n], counts[..tableLen])
  {
    var syms0 := new SymFreq[MAX_SYMBOLS];
    var syms1 := new SymFreq[MAX_SYMBOLS];
    n := CollectUsed(counts, tableLen, syms0);
    syms := RadixSortSyms(n, syms0, syms1);
    SortedUsedIsRanked(syms[..n], counts[..tableLen]);
  }

  /** Replaces the frequencies of ranked symbols by optimal code lengths. */
  method Measure(syms: array<SymFreq>, n: nat, ghost counts: seq<u16>)
    returns (ghost m: MR.MergeTrace, ghost d: seq<nat>)
    requires n <= syms.Length && Ranked(syms[..n], counts) && Total(counts) <= 0xFFFF
    modifies syms
    ensures ListsSyms(syms[..], old(syms[..n])) && Measured(MR.Keys(syms[..], n))
    ensures n >= 2 ==> Built(old(syms[..n]), counts, m, d, MR.Keys(syms[..], n))
  {
    ghost var r := syms[..n];
    RankedKeys(r, counts, syms[..]);
    assert MR.Keys(syms[..], n) == MR.Keys(r, n);
    m, d := MR.CalculateMinimumRedundancy(syms, n);
    if n >= 2 {
      MeasuredLengths(m, d, MR.Keys(syms[..], n));
    }
  }

  /** Lengths that fit the histogram and form a complete code. */
  ghost predicate Measured(lens: seq<nat>) {
    && (forall i :: 0 <= i < |lens| ==> 1 <= lens[i] <= 32)
    && (|lens| == 1 ==> lens[0] == 1)
    && (|lens| >= 2 ==> HO.AllAtMost(lens, 32) && HO.Kraft(lens, 32) == Pow2(32))
  }

  lemma MeasuredLengths(m: MR.MergeTrace, d: seq<nat>, lens: seq<nat>)
    requires HO.TreeLengths(m, d, lens) && m.w[|m.w| - 1] <= 0xFFFF
    ensures Measured(lens)
  {
    HO.DepthFits(m, d, lens);
    HO.KraftIsOne(m, d, lens, 32);
    forall i | 0 <= i < |lens|
      ensures 1 <= lens[i] <= 32
    {
      HO.LengthsDescend(m, d, lens, i, i);
    }
  }

  /** The histogram of the measured lengths; the index never leaves its 33 slots. */
  method Tally(syms: array<SymFreq>, n: nat) returns (num: array<nat>)
    requires n <= syms.Length && Measured(MR.Keys(syms[..], n))
    ensures fresh(num) && num.Length == 33 && num[..] == HistOf(MR.Keys(syms[..], n))
  {
    num := new nat[33](_ => 0);
    ghost var lens := MR.Keys(syms[..], n);
    assert lens[..0] == [];
    var i := 0;
    while i < n
      invariant 0 <= i <= n && forall l :: 0 <= l < 33 ==> num[l] == Count(lens[..i], l)
    {
      assert lens[..i + 1][..i] == lens[..i];
      assert syms[i].key == lens[i];
      num[syms[i].key] := num[syms[i].key] + 1;
      i := i + 1;
    }
    assert lens[..n] == lens;
  }

  method LimitLengths(syms: array<SymFreq>, n: nat, limit: nat) returns (num: array<nat>)
    requires n <= syms.Length && 1 <= limit <= 15 && n <= Pow2(limit)
    requires Measured(MR.Keys(syms[..], n))
    ensures fresh(num) && num.Length == 33
    ensures LL.HistCount(num[..], 0, limit) == n
    ensures LL.HistKraft(num[..], limit, limit) <= Pow2(limit)
    ensures n >= 2 ==> LL.HistKraft(num[..], limit, limit) == Pow2(limit)
    ensures Limited(MR.Keys(syms[..], n), num[..], limit)
  {
    num := Tally(syms, n);
    ghost var lens := MR.Keys(syms[..], n);
    HistOfLengths(lens, 32);
    LL.EnforceMaxCodeSize(num, n, limit);
    if n <= 1 {
      FewSymbols(lens, limit);
    }
    hide LL.HistCount, LL.HistKraft, LL.Demotions, LL.Excess, LL.Clamped;
  }

  lemma FewSymbols(lens: seq<nat>, limit: nat)
    requires 1 <= limit <= 15 && |lens| <= 1 && (|lens| == 1 ==> lens[0] == 1)
    ensures LL.HistCount(HistOf(lens), 0, limit) == |lens| && LL.HistKraft(HistOf(lens), limit, limit) <= Pow2(limit)
  {
    HistOfLengths(lens, limit);
    if |lens| == 1 {
      assert HO.Kraft(lens, limit) == HO.Kraft(lens[..0], limit) + Pow2(limit - 1);
    }
  }

  method Clear(a: array<nat>)
    modifies a
    ensures forall i :: 0 <= i < a.Length ==> a[i] == 0
  {
    var i := 0;
    while i < a.Length
      invariant 0 <= i <= a.Length && forall k :: 0 <= k < i ==> a[k] == 0
    {
      a[i] := 0;
      i := i + 1;
    }
  }

  /** A table of code lengths and codes for symbols that occur this often. All symbols in use get a code, more
      frequent ones no longer code, the code is complete, and it is cheap; the codes are canonical. */
  method OptimizeTable(counts: array<u16>, tableLen: nat, limit: nat, sizes: array<nat>, codes: array<nat>)
    requires tableLen <= counts.Length && tableLen <= sizes.Length && tableLen <= codes.Length
    requires tableLen <= MAX_SYMBOLS && 1 <= limit <= 15 && tableLen <= Pow2(limit)
    requires Total(counts[..tableLen]) <= 0xFFFF
    requires sizes != codes && counts as object != sizes && counts as object != codes
    modifies sizes, codes
    ensures LengthsFor(counts[..tableLen], sizes[..tableLen], limit)
            && Cheap(counts[..tableLen], sizes[..tableLen], limit)
    ensures CodesOf(codes[..], sizes[..tableLen])
    ensures forall s :: tableLen <= s < sizes.Length ==> sizes[s] == 0
  {
    hide Cheap;
    var num := OptimizeLengths(counts, tableLen, limit, sizes);
    Clear(codes);
    AssignCodes(sizes, tableLen, num, limit, codes);
  }

  method OptimizeLengths(counts: array<u16>, tableLen: nat, limit: nat, sizes: array<nat>) returns (num: array<nat>)
    requires tableLen <= counts.Length && tableLen <= sizes.Length
    requires tableLen <= MAX_SYMBOLS && 1 <= limit <= 15 && tableLen <= Pow2(limit)
    requires Total(counts[..tableLen]) <= 0xFFFF && counts as object != sizes
    modifies sizes
    ensures fresh(num) && num.Length == 33
    ensures LengthsFor(counts[..tableLen], sizes[..tableLen], limit)
            && Cheap(counts[..tableLen], sizes[..tableLen], limit)
    ensures forall l :: 1 <= l <= limit ==> num[l] == Count(sizes[..tableLen], l)
    ensures forall s :: tableLen <= s < sizes.Length ==> sizes[s] == 0
  {
    hide Limited, Ranked, Built, LP.Lists, Cheap, LL.HistKraft, LL.HistCount;
    var syms, n := RankUsed(counts, tableLen);
    ghost var r := syms[..n];
    ghost var m, d := Measure(syms, n, counts[..tableLen]);
    ghost var opt := MR.Keys(syms[..], n);
    num := LimitLengths(syms, n, limit);
    Clear(sizes);
    GiveLengths(syms, n, num, limit, sizes, r, counts[..tableLen]);
    MeasuredOne(opt);
    CheapLengths(counts[..tableLen], r, m, d, opt, num[..], sizes[..], limit);
  }

  lemma MeasuredOne(opt: seq<nat>)
    requires Measured(opt)
    ensures |opt| == 1 ==> opt == [1]
  {
  }

  method GiveLengths(syms: array<SymFreq>, n: nat, num: array<nat>, limit: nat, sizes: array<nat>,
                     ghost r: seq<SymFreq>, ghost counts: seq<u16>)
    requires n == |r| && ListsSyms(syms[..], r) && Ranked(r, counts) && |counts| <= sizes.Length && num != sizes
    requires num.Length == 33 && 1 <= limit <= 15 && LL.HistCount(num[..], 0, limit) == n
    requires LL.HistKraft(num[..], limit, limit) <= Pow2(limit)
             && (n >= 2 ==> LL.HistKraft(num[..], limit, limit) == Pow2(limit))
    requires forall s :: 0 <= s < sizes.Length ==> sizes[s] == 0
    modifies sizes
    ensures LengthsFor(counts, sizes[..|counts|], limit) && LP.Lists(Lookup(r, sizes[..]), num[..], limit)
    ensures forall l :: 1 <= l <= limit ==> num[l] == Count(sizes[..|counts|], l)
    ensures forall s :: |counts| <= s < sizes.Length ==> sizes[s] == 0
  {
    assert DistinctSyms(r, sizes.Length);
    AssignSizes(syms, n, num, limit, sizes, r);
    ghost var lens := sizes[..];
    HandedLengths(counts, r, lens, num[..], limit);
    HandedLists(r, lens, num[..], limit);
    assert sizes[..|counts|] == lens[..|counts|];
    forall s | |counts| <= s < |lens|
      ensures lens[s] == 0
    {
    }
  }

  /** The static case: the lengths are given, only the codes are computed. */
  method StaticCodes(sizes: array<nat>, tableLen: nat, limit: nat, codes: array<nat>)
    requires tableLen <= sizes.Length && tableLen <= codes.Length && 1 <= limit <= 15 && sizes != codes
    requires Decodable(sizes[..tableLen], limit)
    modifies codes
    ensures CodesOf(codes[..], sizes[..tableLen])
  {
    var num := new nat[33](_ => 0);
    ghost var lens := sizes[..tableLen];
    assert lens[..0] == [];
    var i := 0;
    while i < tableLen
      invariant 0 <= i <= tableLen && forall l :: 0 <= l < 33 ==> num[l] == Count(lens[..i], l)
    {
      assert lens[..i + 1][..i] == lens[..i];
      num[sizes[i]] := num[sizes[i]] + 1;
      i := i + 1;
    }
    assert lens[..tableLen] == lens;
    AssignCodes(sizes, tableLen, num, limit, codes);
  }
}
