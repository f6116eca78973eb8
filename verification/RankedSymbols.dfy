/** The symbols in use, ranked by how often they occur, and what lengths for them cost. */
module RankedSymbols {
  import opened Bits
  import opened RadixSort
  import MR = MinRedundancy
  import HO = HuffmanOptimality

  const MAX_SYMBOLS := 288

  // ---- the symbols in use ----

  /** The used symbols with their counts, in symbol order. */
  ghost function Used(counts: seq<u16>): seq<SymFreq>
    requires |counts| <= MAX_SYMBOLS
  {
    if |counts| == 0 then []
    else
      var k := |counts| - 1;
      Used(counts[..k]) + if counts[k] > 0 then [SymFreq(counts[k], k)] else []
  }

  ghost function Total(counts: seq<u16>): nat
  {
    if |counts| == 0 then 0 else Total(counts[..|counts| - 1]) + counts[|counts| - 1]
  }

  lemma {:induction false} UsedMembers(counts: seq<u16>)
    requires |counts| <= MAX_SYMBOLS
    ensures |Used(counts)| <= |counts|
    ensures forall x :: x in Used(counts) ==> x.sym < |counts| && x.key == counts[x.sym] > 0
  {
    if |counts| == 0 {
    } else {
      UsedMembers(counts[..|counts| - 1]);
    }
  }

  lemma {:induction false} UsedCovers(counts: seq<u16>, s: nat)
    requires s < |counts| <= MAX_SYMBOLS && counts[s] > 0
    ensures SymFreq(counts[s], s) in Used(counts)
  {
    if s < |counts| - 1 {
      UsedCovers(counts[..|counts| - 1], s);
    }
  }

  lemma {:induction false} UsedOnce(counts: seq<u16>, x: SymFreq)
    requires |counts| <= MAX_SYMBOLS
    ensures multiset(Used(counts))[x] <= 1
  {
    if |counts| == 0 {
    } else {
      UsedOnce(counts[..|counts| - 1], x);
      UsedMembers(counts[..|counts| - 1]);
    }
  }

  // ---- what a table costs ----

  /** The lengths of the listed symbols, in the order of the list. */
  ghost function Lookup(s: seq<SymFreq>, lens: seq<nat>): (ls: seq<nat>)
    requires forall i :: 0 <= i < |s| ==> s[i].sym < |lens|
    ensures |ls| == |s|
  {
    seq(|s|, i requires 0 <= i < |s| => lens[s[i].sym])
  }

  /** The bits spent on the listed symbols. */
  ghost function Weigh(s: seq<SymFreq>, lens: seq<nat>): nat
    requires forall i :: 0 <= i < |s| ==> s[i].sym < |lens|
  {
    HO.Cost(MR.Keys(s, |s|), Lookup(s, lens))
  }

  lemma WeighMore(s: seq<SymFreq>, x: SymFreq, lens: seq<nat>)
    requires (forall i :: 0 <= i < |s| ==> s[i].sym < |lens|) && x.sym < |lens|
    ensures Weigh(s + [x], lens) == Weigh(s, lens) + x.key * lens[x.sym]
  {
    var t := s + [x];
    assert MR.Keys(t, |t|)[..|s|] == MR.Keys(s, |s|) && Lookup(t, lens)[..|s|] == Lookup(s, lens);
  }

  lemma {:induction false} WeighUsed(counts: seq<u16>, lens: seq<nat>)
    requires |counts| <= MAX_SYMBOLS && |counts| <= |lens|
    ensures forall i :: 0 <= i < |Used(counts)| ==> Used(counts)[i].sym < |lens|
    ensures Weigh(Used(counts), lens) == HO.Cost(counts, lens[..|counts|])
  {
    UsedMembers(counts);
    if |counts| == 0 {
      assert HO.Cost(counts, lens[..0]) == 0;
    } else {
      var k := |counts| - 1;
      WeighUsed(counts[..k], lens);
      CostOfLast(counts, lens);
      UsedOfLast(counts);
      hide Weigh, Used, HO.Cost;
      if counts[k] > 0 {
        WeighMore(Used(counts[..k]), SymFreq(counts[k], k), lens);
      }
    }
  }

  lemma CostOfLast(counts: seq<u16>, lens: seq<nat>)
    requires 0 < |counts| <= |lens|
    ensures var k := |counts| - 1;
            HO.Cost(counts, lens[..k + 1]) == HO.Cost(counts[..k], lens[..k]) + counts[k] * lens[k]
  {
    assert lens[..|counts|][..|counts| - 1] == lens[..|counts| - 1];
  }

  lemma UsedOfLast(counts: seq<u16>)
    requires 0 < |counts| <= MAX_SYMBOLS
    ensures var k := |counts| - 1;
            Used(counts) == if counts[k] > 0 then Used(counts[..k]) + [SymFreq(counts[k], k)] else Used(counts[..k])
  {
  }

  lemma WeighWithout(s: seq<SymFreq>, p: nat, lens: seq<nat>)
    requires p < |s| && forall i :: 0 <= i < |s| ==> s[i].sym < |lens|
    ensures Weigh(s, lens) == Weigh(s[..p] + s[p + 1..], lens) + s[p].key * lens[s[p].sym]
  {
    HO.CostWithout(MR.Keys(s, |s|), Lookup(s, lens), p);
    var t := s[..p] + s[p + 1..];
    assert MR.Keys(t, |t|) == HO.Without(MR.Keys(s, |s|), p) && Lookup(t, lens) == HO.Without(Lookup(s, lens), p);
  }

  lemma {:induction false} WeighPermuted(s: seq<SymFreq>, t: seq<SymFreq>, lens: seq<nat>)
    requires multiset(s) == multiset(t)
    requires (forall i :: 0 <= i < |s| ==> s[i].sym < |lens|) && (forall i :: 0 <= i < |t| ==> t[i].sym < |lens|)
    ensures Weigh(s, lens) == Weigh(t, lens)
    decreases |s|
  {
    assert |multiset(s)| == |multiset(t)|;
    if |s| == 0 {
      assert s == t;
    } else {
      hide Weigh;
      var k := |s| - 1;
      var p := SameRest(s, t);
      WeighWithout(s, k, lens);
      WeighWithout(t, p, lens);
      assert s[..k] + s[k + 1..] == s[..k];
      WeighPermuted(s[..k], t[..p] + t[p + 1..], lens);
    }
  }

  lemma SameRest(s: seq<SymFreq>, t: seq<SymFreq>) returns (p: nat)
    requires multiset(s) == multiset(t) && |s| > 0
    ensures p < |t| && t[p] == s[|s| - 1] && multiset(s[..|s| - 1]) == multiset(t[..p] + t[p + 1..])
  {
    var k := |s| - 1;
    assert s[k] in multiset(t);
    p :| 0 <= p < |t| && t[p] == s[k];
    assert s == s[..k] + [s[k]];
    assert t == t[..p] + [t[p]] + t[p + 1..];
    assert multiset(t) == multiset(t[..p] + t[p + 1..]) + multiset{t[p]};
    assert multiset(s[..k]) == multiset(s) - multiset{s[k]};
  }

  function Ones(n: nat): (s: seq<nat>)
    ensures |s| == n
  {
    seq(n, _ => 1)
  }

  lemma {:induction false} TotalIsCost(counts: seq<u16>)
    ensures HO.Cost(counts, Ones(|counts|)) == Total(counts)
  {
    if |counts| == 0 {
    } else {
      TotalIsCost(counts[..|counts| - 1]);
      assert Ones(|counts|)[..|counts| - 1] == Ones(|counts| - 1);
    }
  }

  lemma {:induction false} SumIsCost(ws: seq<nat>)
    ensures HO.Cost(ws, Ones(|ws|)) == MR.Sum(ws)
  {
    if |ws| == 0 {
    } else {
      var k := |ws| - 1;
      SumIsCost(ws[..k]);
      assert Ones(|ws|)[..k] == Ones(k);
      MR.SumSame(ws, ws[..k], 0, k);
      MR.SumSplit(ws, 0, k, k + 1);
      MR.SumOfOne(ws, k);
    }
  }

  /** A list of the used symbols in ascending order of their counts. */
  ghost predicate Ranked(r: seq<SymFreq>, counts: seq<u16>) {
    && Ascending(r) && |r| <= |counts| <= MAX_SYMBOLS
    && (forall i :: 0 <= i < |r| ==> r[i].sym < |counts| && r[i].key == counts[r[i].sym] > 0)
    && (forall i, j :: 0 <= i < j < |r| ==> r[i].sym != r[j].sym)
    && (forall s :: 0 <= s < |counts| && counts[s] > 0 ==> exists i :: 0 <= i < |r| && r[i].sym == s)
    && multiset(r) == multiset(Used(counts))
  }

  lemma NoRepeats(r: seq<SymFreq>, i: nat, j: nat)
    requires i < j < |r| && r[i] == r[j]
    ensures multiset(r)[r[i]] >= 2
  {
    assert r == r[..j] + r[j..];
    assert r[i] in r[..j] && r[j] in r[j..];
  }

  lemma SortedUsedMembers(r: seq<SymFreq>, counts: seq<u16>, i: nat)
    requires |counts| <= MAX_SYMBOLS && multiset(r) == multiset(Used(counts)) && i < |r|
    ensures r[i].sym < |counts| && r[i].key == counts[r[i].sym] > 0
  {
    UsedMembers(counts);
    assert r[i] in multiset(r);
    assert r[i] in Used(counts);
  }

  lemma SortedUsedIsRanked(r: seq<SymFreq>, counts: seq<u16>)
    requires |counts| <= MAX_SYMBOLS && StableSortOf(r, Used(counts))
    ensures Ranked(r, counts)
  {
    UsedMembers(counts);
    assert |multiset(r)| == |multiset(Used(counts))|;
    forall i | 0 <= i < |r|
      ensures r[i].sym < |counts| && r[i].key == counts[r[i].sym] > 0
    {
      SortedUsedMembers(r, counts, i);
    }
    forall i, j | 0 <= i < j < |r|
      ensures r[i].sym != r[j].sym
    {
      if r[i] == r[j] {
        NoRepeats(r, i, j);
        UsedOnce(counts, r[i]);
      }
    }
    forall s | 0 <= s < |counts| && counts[s] > 0
      ensures exists i :: 0 <= i < |r| && r[i].sym == s
    {
      UsedCovers(counts, s);
      assert SymFreq(counts[s], s) in multiset(r);
    }
  }

  ghost predicate DistinctSyms(r: seq<SymFreq>, bound: nat) {
    && (forall i :: 0 <= i < |r| ==> r[i].sym < bound)
    && (forall i, j :: 0 <= i < j < |r| ==> r[i].sym != r[j].sym)
  }

  /** What the ranked symbols cost is what all symbols cost. */
  lemma RankedWeigh(r: seq<SymFreq>, counts: seq<u16>, lens: seq<nat>)
    requires Ranked(r, counts) && |counts| <= |lens|
    ensures Weigh(r, lens) == HO.Cost(counts, lens[..|counts|])
  {
    UsedMembers(counts);
    WeighUsed(counts, lens);
    WeighPermuted(r, Used(counts), lens);
    hide Weigh, Used;
  }

  /** The lengths by symbol and by rank cost the same. */
  lemma CostByRank(r: seq<SymFreq>, counts: seq<u16>, lens: seq<nat>)
    requires Ranked(r, counts) && |counts| <= |lens|
    ensures HO.Cost(counts, lens[..|counts|]) == HO.Cost(MR.Keys(r, |r|), Lookup(r, lens))
  {
    RankedWeigh(r, counts, lens);
  }

  lemma RankedKeys(r: seq<SymFreq>, counts: seq<u16>, a: seq<SymFreq>)
    requires Ranked(r, counts) && r <= a
    ensures MR.Sum(MR.Keys(a, |r|)) == Total(counts)
    ensures forall i :: 0 <= i < |r| ==> a[i].key > 0
    ensures forall i, j :: 0 <= i < j < |r| ==> a[i].key <= a[j].key
  {
    assert MR.Keys(a, |r|) == MR.Keys(r, |r|);
    RankedWeigh(r, counts, Ones(|counts|));
    assert Lookup(r, Ones(|counts|)) == Ones(|r|) && Ones(|counts|)[..|counts|] == Ones(|counts|);
    TotalIsCost(counts);
    SumIsCost(MR.Keys(r, |r|));
  }
}
