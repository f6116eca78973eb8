/** How cheap a table of code lengths is: at most a bit per occurrence above the optimum, however the lengths were
    limited. */
module TableCost {
  import opened Bits
  import opened RadixSort
  import opened CanonicalCode
  import opened LengthHistogram
  import opened RankedSymbols
  import MR = MinRedundancy
  import HO = HuffmanOptimality
  import LL = LengthLimit
  import LP = LimitPenalty

  // ---- how cheap the lengths are ----

  /** The listed symbols, and no others, have a length. */
  ghost predicate Supports(r: seq<SymFreq>, lens: seq<nat>) {
    && DistinctSyms(r, |lens|)
    && (forall s :: 0 <= s < |lens| && lens[s] > 0 ==> exists k :: 0 <= k < |r| && r[k].sym == s)
  }

  /** Lengths are counted alike by symbol and by rank. */
  lemma {:induction false} LookupCount(r: seq<SymFreq>, lens: seq<nat>, l: nat)
    requires Supports(r, lens) && l > 0
    ensures Count(Lookup(r, lens), l) == Count(lens, l)
    decreases |r|
  {
    if |r| == 0 {
      CountZeros(lens, l);
    } else {
      var k := |r| - 1;
      var s := r[k].sym;
      SupportsLess(r, lens);
      LookupLast(r, lens);
      CountLast(Lookup(r, lens), l);
      CountUpdate(lens, s, 0, l);
      hide *;
      LookupCount(r[..k], lens[s := 0], l);
    }
  }

  lemma LookupLast(r: seq<SymFreq>, lens: seq<nat>)
    requires DistinctSyms(r, |lens|) && |r| > 0
    ensures var k := |r| - 1;
            Lookup(r, lens)[..k] == Lookup(r[..k], lens[r[k].sym := 0]) && Lookup(r, lens)[k] == lens[r[k].sym]
  {
  }

  lemma CountLast(ls: seq<nat>, l: nat)
    requires |ls| > 0
    ensures Count(ls, l) == Count(ls[..|ls| - 1], l) + if ls[|ls| - 1] == l then 1 else 0
  {
  }

  lemma SupportsLess(r: seq<SymFreq>, lens: seq<nat>)
    requires Supports(r, lens) && |r| > 0
    ensures Supports(r[..|r| - 1], lens[r[|r| - 1].sym := 0])
  {
    var k := |r| - 1;
    var s, lens' := r[k].sym, lens[r[k].sym := 0];
    forall t | 0 <= t < |lens'| && lens'[t] > 0
      ensures exists i :: 0 <= i < k && r[..k][i].sym == t
    {
      var i :| 0 <= i < |r| && r[i].sym == t;
      assert r[..k][i].sym == t;
    }
  }

  /** Every symbol that occurs has a length. */
  ghost predicate Covers(lens: seq<nat>, counts: seq<u16>) {
    |lens| == |counts| && forall s :: 0 <= s < |counts| && counts[s] > 0 ==> lens[s] > 0
  }

  /** At a limit of 15 the lengths cost at most one bit per occurrence more than any prefix code's, with at most 32
      symbols an eighth of a bit; and nothing more, if there are fewer occurrences than a longer code needs. */
  ghost predicate Cheap(counts: seq<u16>, lens: seq<nat>, limit: nat)
    requires |lens| == |counts|
  {
    forall others: seq<nat>, b: nat :: Decodable(others, b) && Covers(others, counts) ==>
      && (limit == 15 ==> HO.Cost(counts, lens) <= HO.Cost(counts, others) + Total(counts))
      && (limit == 15 && |counts| <= 32 ==> 8 * HO.Cost(counts, lens) <= 8 * HO.Cost(counts, others) + Total(counts))
      && (Total(counts) < HO.Fib(limit + 2) ==> HO.Cost(counts, lens) <= HO.Cost(counts, others))
  }

  /** Lengths of a prefix code for all symbols make one for the ranked ones. */
  lemma LookupFeasible(r: seq<SymFreq>, counts: seq<u16>, others: seq<nat>, b: nat)
    requires Ranked(r, counts) && Decodable(others, b) && Covers(others, counts)
    ensures HO.Feasible(Lookup(r, others), b)
  {
    var used := seq(|others|, s requires 0 <= s < |others| => if counts[s] > 0 then others[s] else 0);
    assert Supports(r, used);
    assert Lookup(r, others) == Lookup(r, used);
    forall l: nat | l > 0
      ensures Count(Lookup(r, others), l) <= Count(others, l)
    {
      LookupCount(r, used, l);
      FewerCounted(used, others, l);
    }
    KraftOfFewer(Lookup(r, others), others, b, b);
    ListKraftUpTo(Lookup(r, others), b);
  }

  lemma {:induction false} FewerCounted(a: seq<nat>, b: seq<nat>, l: nat)
    requires |a| == |b| && l > 0 && forall s :: 0 <= s < |a| ==> a[s] == b[s] || a[s] == 0
    ensures Count(a, l) <= Count(b, l)
  {
    if |a| == 0 {
    } else {
      FewerCounted(a[..|a| - 1], b[..|b| - 1], l);
    }
  }

  lemma {:induction false} KraftOfFewer(a: seq<nat>, b: seq<nat>, l: nat, m: nat)
    requires l <= m && forall i: nat :: i > 0 ==> Count(a, i) <= Count(b, i)
    ensures KraftUpTo(a, l, m) <= KraftUpTo(b, l, m)
  {
    if l == 0 {
    } else {
      KraftOfFewer(a, b, l - 1, m);
      assert Count(a, l) * Pow2(m - l) <= Count(b, l) * Pow2(m - l);
    }
  }

  /** The Kraft sum by length and by item. */
  lemma {:induction false} ListKraftUpTo(ls: seq<nat>, b: nat)
    requires HO.AllAtMost(ls, b) && forall i :: 0 <= i < |ls| ==> ls[i] >= 1
    ensures HO.Kraft(ls, b) == KraftUpTo(ls, b, b)
  {
    if |ls| == 0 {
      NothingCounted(b, b);
    } else {
      var k := |ls| - 1;
      ListKraftUpTo(ls[..k], b);
      OneMoreCounted(ls, b, b);
    }
  }

  lemma {:induction false} NothingCounted(l: nat, b: nat)
    requires l <= b
    ensures KraftUpTo([], l, b) == 0
  {
    if l == 0 {
    } else {
      NothingCounted(l - 1, b);
    }
  }

  lemma {:induction false} OneMoreCounted(ls: seq<nat>, l: nat, b: nat)
    requires |ls| > 0 && l <= b && 1 <= ls[|ls| - 1] <= b
    ensures KraftUpTo(ls, l, b) == KraftUpTo(ls[..|ls| - 1], l, b) + if ls[|ls| - 1] <= l
            then Pow2(b - ls[|ls| - 1]) else 0
  {
    if l == 0 {
    } else {
      OneMoreCounted(ls, l - 1, b);
      OneMore(Count(ls[..|ls| - 1], l), Pow2(b - l));
    }
  }

  /** How num comes from the histogram of the optimal lengths. */
  ghost predicate Limited(opt: seq<nat>, num: seq<nat>, limit: nat)
    requires limit <= 32
  {
    && (|opt| >= 2 ==> LL.Excess(HistOf(opt), limit) >= 0)
    && (|opt| >= 2 && limit > 0 ==>
          num == LL.Demotions(LL.Clamped(HistOf(opt), limit), LL.Excess(HistOf(opt), limit), limit))
    && (|opt| <= 1 || LL.HistCount(HistOf(opt), limit, 32) == 0 ==> num == HistOf(opt))
  }

  lemma LimitedCost(m: MR.MergeTrace, d: seq<nat>, opt: seq<nat>, num: seq<nat>, ls: seq<nat>)
    requires HO.TreeLengths(m, d, opt) && m.w[|m.w| - 1] <= 0xFFFF && 2 <= |opt| <= 288
    requires Limited(opt, num, 15) && LP.Lists(ls, num, 15)
    ensures |ls| == |opt| == |m.keys| && HO.Cost(m.keys, ls) <= HO.Cost(m.keys, opt) + m.w[|m.w| - 1]
    ensures |opt| <= 32 ==> 8 * HO.Cost(m.keys, ls) <= 8 * HO.Cost(m.keys, opt) + m.w[|m.w| - 1]
  {
    hide LP.Lists, HO.Cost, HO.TreeLengths, LL.Clamped, LL.Excess, LL.Demotions;
    var ls' := LP.LimitCosts(m, d, opt, num);
    LP.OneList(ls, ls', num, 15);
  }

  lemma {:induction false} NoneLonger(opt: seq<nat>, limit: nat, hi: nat)
    requires limit <= hi <= 32 && HO.AllAtMost(opt, limit)
    ensures LL.HistCount(HistOf(opt), limit, hi) == 0
  {
    if limit < hi {
      NoneLonger(opt, limit, hi - 1);
      AbsentCount(opt, hi);
    }
  }

  lemma {:induction false} AbsentCount(ls: seq<nat>, l: nat)
    requires forall i :: 0 <= i < |ls| ==> ls[i] != l
    ensures Count(ls, l) == 0
  {
    if |ls| == 0 {
    } else {
      AbsentCount(ls[..|ls| - 1], l);
    }
  }

  /** With too few occurrences for a longer code, limiting changes nothing. */
  lemma Unlimited(m: MR.MergeTrace, d: seq<nat>, opt: seq<nat>, num: seq<nat>, ls: seq<nat>, limit: nat)
    requires HO.TreeLengths(m, d, opt) && m.w[|m.w| - 1] <= 0xFFFF && 2 <= |opt| && limit <= 15
    requires Limited(opt, num, limit) && LP.Lists(ls, num, limit) && m.w[|m.w| - 1] < HO.Fib(limit + 2)
    ensures ls == opt
  {
    LP.OptimalLists(m, d, opt);
    hide HO.TreeLengths, LL.HistCount, LL.Demotions, HO.Fib, Count, HO.Kraft;
    forall j | 0 <= j < |opt|
      ensures opt[j] <= limit
    {
      ShortLeaf(m, d, opt, limit, j);
    }
    NoneLonger(opt, limit, 32);
    LP.OneList(ls, opt, num, limit);
  }

  lemma ShortLeaf(m: MR.MergeTrace, d: seq<nat>, opt: seq<nat>, limit: nat, j: nat)
    requires HO.TreeLengths(m, d, opt) && m.w[|m.w| - 1] < HO.Fib(limit + 2) && j < |opt|
    ensures opt[j] <= limit
  {
    LP.LeafOutweighed(m, d, opt, j);
    assert m.keys[j] > 0;
    hide HO.TreeLengths, HO.Fib;
    if opt[j] > limit {
      HO.FibGrows(limit + 2, opt[j] + 1);
      AtLeastOnce(HO.Fib(opt[j] + 1), m.keys[j]);
    }
  }

  lemma AtLeastOnce(x: nat, k: nat)
    requires k > 0
    ensures x <= x * k
  {
  }

  /** The whole computation of the lengths gives cheap ones. */
  lemma CheapLengths(counts: seq<u16>, r: seq<SymFreq>, m: MR.MergeTrace, d: seq<nat>, opt: seq<nat>, num: seq<nat>,
                     lens: seq<nat>, limit: nat)
    requires Ranked(r, counts) && |counts| <= |lens| && 1 <= limit <= 15 && |opt| == |r|
    requires |r| >= 2 ==> Built(r, counts, m, d, opt)
    requires |r| == 1 ==> opt == [1]
    requires Limited(opt, num, limit) && LP.Lists(Lookup(r, lens), num, limit)
    ensures Cheap(counts, lens[..|counts|], limit)
  {
    CostByRank(r, counts, lens);
    forall others: seq<nat>, b: nat | Decodable(others, b) && Covers(others, counts)
      ensures (limit == 15 ==> HO.Cost(counts, lens[..|counts|]) <= HO.Cost(counts, others) + Total(counts))
      ensures (limit == 15 && |counts| <= 32 ==>
                 8 * HO.Cost(counts, lens[..|counts|]) <= 8 * HO.Cost(counts, others) + Total(counts))
      ensures (Total(counts) < HO.Fib(limit + 2) ==> HO.Cost(counts, lens[..|counts|]) <= HO.Cost(counts, others))
    {
      CheaperThan(counts, r, m, d, opt, num, Lookup(r, lens), limit, others, b);
    }
  }

  /** opt are the optimal lengths for the ranked symbols. */
  ghost predicate Built(r: seq<SymFreq>, counts: seq<u16>, m: MR.MergeTrace, d: seq<nat>, opt: seq<nat>) {
    && HO.TreeLengths(m, d, opt) && m.keys == MR.Keys(r, |r|) && |opt| == |r| >= 2
    && m.w[|m.w| - 1] == Total(counts) <= 0xFFFF
  }

  lemma LookupPositive(r: seq<SymFreq>, counts: seq<u16>, others: seq<nat>)
    requires Ranked(r, counts) && Covers(others, counts)
    ensures |r| <= |counts| <= MAX_SYMBOLS
    ensures forall i :: 0 <= i < |r| ==> r[i].sym < |others|
    ensures forall i :: 0 <= i < |r| ==> Lookup(r, others)[i] >= 1
  {
  }

  lemma CheaperThan(counts: seq<u16>, r: seq<SymFreq>, m: MR.MergeTrace, d: seq<nat>, opt: seq<nat>, num: seq<nat>,
                    ls: seq<nat>, limit: nat, others: seq<nat>, b: nat)
    requires Ranked(r, counts) && 1 <= limit <= 15 && |opt| == |r| == |ls|
    requires |r| >= 2 ==> Built(r, counts, m, d, opt)
    requires |r| == 1 ==> opt == [1]
    requires Limited(opt, num, limit) && LP.Lists(ls, num, limit)
    requires Decodable(others, b) && Covers(others, counts)
    ensures var cost, other := HO.Cost(MR.Keys(r, |r|), ls), HO.Cost(counts, others);
            && (limit == 15 ==> cost <= other + Total(counts))
            && (limit == 15 && |counts| <= 32 ==> 8 * cost <= 8 * other + Total(counts))
            && (Total(counts) < HO.Fib(limit + 2) ==> cost <= other)
  {
    hide Ranked, Limited, HO.Cost, HO.TreeLengths, HO.Feasible, LP.Lists, HO.Fib, Decodable, Lookup, Total;
    LookupPositive(r, counts, others);
    CostByRank(r, counts, others);
    assert others[..|counts|] == others;
    if |r| >= 2 {
      LookupFeasible(r, counts, others, b);
      HO.Optimal(m, d, opt, Lookup(r, others), b);
      if limit == 15 {
        LimitedCost(m, d, opt, num, ls);
      }
      if Total(counts) < HO.Fib(limit + 2) {
        Unlimited(m, d, opt, num, ls, limit);
      }
    } else {
      FewAreCheapest(r, opt, num, ls, limit, Lookup(r, others));
    }
  }

  lemma FewAreCheapest(r: seq<SymFreq>, opt: seq<nat>, num: seq<nat>, ls: seq<nat>, limit: nat, others: seq<nat>)
    requires |opt| == |r| == |ls| == |others| <= 1 && (|r| == 1 ==> opt == [1]) && 1 <= limit <= 15
    requires Limited(opt, num, limit) && LP.Lists(ls, num, limit) && forall i :: 0 <= i < |others| ==> others[i] >= 1
    ensures HO.Cost(MR.Keys(r, |r|), ls) <= HO.Cost(MR.Keys(r, |r|), others)
  {
    LP.OneList(ls, opt, num, limit);
    LP.CheaperList(MR.Keys(r, |r|), ls, others);
  }
}
