/** What limiting the code lengths costs: the loop that shortens the code space demotes light symbols only,
    so the limited code is at most one bit a symbol occurrence dearer than the optimal one. */
module LimitPenalty {
  import opened Bits
  import opened CanonicalCode
  import opened LengthHistogram
  import opened HO = HuffmanOptimality
  import opened MR = MinRedundancy
  import LL = LengthLimit

  // ---- sorted lists of lengths ----

  ghost predicate Descending(ls: seq<nat>) {
    forall i, j :: 0 <= i < j < |ls| ==> ls[i] >= ls[j]
  }

  /** A descending list of lengths from 1 to max with the histogram num. */
  ghost predicate Lists(ls: seq<nat>, num: seq<nat>, max: nat) {
    && |num| > max && Descending(ls) && (forall i :: 0 <= i < |ls| ==> 1 <= ls[i] <= max)
    && (forall l :: 1 <= l <= max ==> num[l] == Count(ls, l))
  }

  /** The codes of length max come first. */
  lemma {:induction false} MaxFirst(ls: seq<nat>, max: nat)
    requires Descending(ls) && AllAtMost(ls, max)
    ensures Count(ls, max) <= |ls|
    ensures forall j :: 0 <= j < |ls| ==> (ls[j] == max <==> j < Count(ls, max))
  {
    if |ls| == 0 {
      assert Count(ls, max) == 0;
    } else {
      var k := |ls| - 1;
      MaxFirst(ls[..k], max);
    }
  }

  lemma {:induction false} CountOfMember(ls: seq<nat>, j: nat)
    requires j < |ls|
    ensures Count(ls, ls[j]) > 0
  {
    if j < |ls| - 1 {
      CountOfMember(ls[..|ls| - 1], j);
    }
  }

  lemma {:induction false} MemberOfCount(ls: seq<nat>, l: nat) returns (j: nat)
    requires Count(ls, l) > 0
    ensures j < |ls| && ls[j] == l
  {
    if ls[|ls| - 1] == l {
      j := |ls| - 1;
    } else {
      j := MemberOfCount(ls[..|ls| - 1], l);
    }
  }

  /** Right behind the codes of length max stands the longest of the others. */
  lemma LongestBehind(ls: seq<nat>, num: seq<nat>, i: nat, max: nat)
    requires Lists(ls, num, max) && 1 <= i < max && num[i] > 0 && forall k :: i < k < max ==> num[k] == 0
    ensures num[max] < |ls| && ls[num[max]] == i
  {
    var p := num[max];
    MaxFirst(ls, max);
    var j := MemberOfCount(ls, i);
    assert j >= p;
    CountOfMember(ls, p);
  }

  /** A histogram has only one sorted list. */
  lemma {:induction false} OneList(a: seq<nat>, b: seq<nat>, num: seq<nat>, max: nat)
    requires Lists(a, num, max) && Lists(b, num, max)
    ensures a == b
    decreases |a|
  {
    if |a| == 0 {
      if |b| > 0 {
        SameLast(b, a, num, max);
      }
    } else {
      SameLast(a, b, num, max);
      ListsLess(a, num, max);
      ListsLess(b, num, max);
      var k, m, x := |a| - 1, |b| - 1, a[|a| - 1];
      assert a == a[..k] + [x] && b == b[..m] + [x];
      hide Lists;
      OneList(a[..k], b[..m], num[x := num[x] - 1], max);
    }
  }

  lemma SameLast(a: seq<nat>, b: seq<nat>, num: seq<nat>, max: nat)
    requires Lists(a, num, max) && Lists(b, num, max) && |a| > 0
    ensures |b| > 0 && a[|a| - 1] == b[|b| - 1]
  {
    CountOfMember(a, |a| - 1);
    var j := MemberOfCount(b, a[|a| - 1]);
    CountOfMember(b, |b| - 1);
    var i := MemberOfCount(a, b[|b| - 1]);
    hide Count;
  }

  lemma ListsLess(a: seq<nat>, num: seq<nat>, max: nat)
    requires Lists(a, num, max) && |a| > 0
    ensures var x := a[|a| - 1]; num[x] > 0 && Lists(a[..|a| - 1], num[x := num[x] - 1], max)
  {
    CountOfMember(a, |a| - 1);
  }

  /** A demotion on the sorted list: the last code of length max and the one behind it get length i + 1. */
  function DemotedList(ls: seq<nat>, p: nat, i: nat): seq<nat>
    requires 0 < p < |ls|
  {
    ls[p - 1 := i + 1][p := i + 1]
  }

  lemma DemotedLists(ls: seq<nat>, num: seq<nat>, i: nat, max: nat)
    requires Lists(ls, num, max) && 1 <= i < max && num[i] > 0 && num[max] > 0 && forall k :: i < k < max ==>
               num[k] == 0
    ensures num[max] < |ls| && Lists(DemotedList(ls, num[max], i), LL.Demoted(num, i, max), max)
  {
    LongestBehind(ls, num, i, max);
    MaxFirst(ls, max);
    var p := num[max];
    var a := ls[p - 1 := i + 1];
    var b := a[p := i + 1];
    forall l: nat | 1 <= l <= max
      ensures LL.Demoted(num, i, max)[l] == Count(b, l)
    {
      CountUpdate(ls, p - 1, i + 1, l);
      CountUpdate(a, p, i + 1, l);
    }
    hide Count;
  }

  lemma DemotedKraft(ls: seq<nat>, p: nat, i: nat, max: nat)
    requires AllAtMost(ls, max) && 0 < p < |ls| && ls[p - 1] == max && ls[p] == i < max
    ensures AllAtMost(DemotedList(ls, p, i), max) && Kraft(DemotedList(ls, p, i), max) == Kraft(ls, max) - 1
  {
    hide Kraft;
    KraftUpdate(ls, max, p - 1, i + 1);
    KraftUpdate(ls[p - 1 := i + 1], max, p, i + 1);
    assert Pow2(0) == 1 && Pow2(max - i) == 2 * Pow2(max - i - 1);
  }

  // ---- Kraft sums of parts of a list ----

  lemma {:induction false} KraftSplit(ls: seq<nat>, b: nat, p: nat)
    requires AllAtMost(ls, b) && p <= |ls|
    ensures Kraft(ls, b) == Kraft(ls[..p], b) + Kraft(ls[p..], b)
    decreases |ls|
  {
    if p == |ls| {
      assert ls[..p] == ls && ls[p..] == [];
    } else {
      var k := |ls| - 1;
      KraftSplit(ls[..k], b, p);
      assert ls[..k][..p] == ls[..p] && ls[p..][..k - p] == ls[..k][p..] && ls[p..][k - p] == ls[k];
    }
  }

  lemma {:induction false} KraftOfMax(ls: seq<nat>, b: nat)
    requires forall i :: 0 <= i < |ls| ==> ls[i] == b
    ensures Kraft(ls, b) == |ls|
  {
    if |ls| == 0 {
      assert Kraft(ls, b) == 0;
    } else {
      KraftOfMax(ls[..|ls| - 1], b);
      assert Pow2(0) == 1;
    }
  }

  /** What the codes of the first q symbols take beyond one unit each. */
  ghost function Room(c: seq<nat>, q: nat, max: nat): int
    requires AllAtMost(c, max) && q <= |c|
  {
    Kraft(c[..q], max) - q
  }

  // ---- the demotion loop ----

  /** The state after k demotions of c, as a sorted list: from q on nothing has changed; the symbols before q - 1
      do not take up all excess, and a code of the length symbol q - 1 had would be worth fewer than |c| units. */
  ghost predicate Demoting(c: seq<nat>, ls: seq<nat>, q: nat, k: nat, max: nat) {
    && |ls| == |c| && q <= |c| && AllAtMost(c, max) && AllAtMost(ls, max)
    && (forall j :: q <= j < |c| ==> ls[j] == c[j])
    && Kraft(ls, max) == Kraft(c, max) - k
    && (q > 0 ==> Room(c, q - 1, max) < Kraft(c, max) - Pow2(max) && Pow2(max - c[q - 1]) < |c|)
  }

  lemma FreshRoom(c: seq<nat>, ls: seq<nat>, q: nat, k: nat, p: nat, max: nat)
    requires Demoting(c, ls, q, k, max) && q <= p <= |c| && forall j :: 0 <= j < p ==> ls[j] == max
    ensures Room(c, p, max) == k
  {
    KraftSplit(c, max, p);
    KraftSplit(ls, max, p);
    KraftOfMax(ls[..p], max);
    assert c[p..] == ls[p..];
    hide Kraft;
  }

  /** With fewer units in excess than codes of length max, the next code is worth fewer units than there are codes. */
  lemma FewUnits(ls: seq<nat>, e: nat, p: nat, i: nat, max: nat)
    requires AllAtMost(ls, max) && Kraft(ls, max) == Pow2(max) + e && 0 < e < p < |ls| && i < max
    requires (forall j :: 0 <= j < p ==> ls[j] == max) && (forall j :: p <= j < |ls| ==> ls[j] <= i)
    ensures Pow2(max - i) < |ls|
  {
    KraftSplit(ls, max, p);
    KraftOfMax(ls[..p], max);
    var k := KraftMultiple(ls[p..], max, i);
    Pow2Sum(i, max - i);
    MultipleGap(k, Pow2(i), Pow2(max - i), k * Pow2(max - i), Pow2(max));
    hide Kraft, Pow2;
  }

  lemma DemoteOne(c: seq<nat>, ls: seq<nat>, q: nat, k: nat, p: nat, i: nat, max: nat) returns (q': nat)
    requires Demoting(c, ls, q, k, max) && Descending(ls) && 0 < p < |ls| && 1 <= i < max
    requires (forall j :: 0 <= j < p ==> ls[j] == max) && (forall j :: p <= j < |ls| ==> ls[j] <= i) && ls[p] == i
    requires Pow2(max) < Kraft(ls, max) < Pow2(max) + p
    ensures Demoting(c, DemotedList(ls, p, i), q', k + 1, max)
  {
    DemotedKraft(ls, p, i, max);
    if q <= p {
      FreshRoom(c, ls, q, k, p, max);
      FewUnits(ls, Kraft(ls, max) - Pow2(max), p, i, max);
      q' := p + 1;
    } else {
      q' := q;
    }
    hide Kraft, Pow2;
  }

  // ---- the penalty ----

  /** What it costs to give the first q symbols length max. */
  ghost function Raise(ws: seq<nat>, c: seq<nat>, q: nat, max: nat): nat
    requires |ws| == |c| && q <= |c| && AllAtMost(c, max)
  {
    if q == 0 then 0 else Raise(ws, c, q - 1, max) + ws[q - 1] * (max - c[q - 1])
  }

  lemma {:induction false} RaisedCost(ws: seq<nat>, c: seq<nat>, ls: seq<nat>, q: nat, max: nat, n: nat)
    requires |ws| == |c| == |ls| && q <= |c| && AllAtMost(c, max) && AllAtMost(ls, max) && n <= |c|
    requires forall j :: q <= j < |c| ==> ls[j] == c[j]
    ensures Cost(ws[..n], ls[..n]) <= Cost(ws[..n], c[..n]) + Raise(ws, c, if n < q then n else q, max)
  {
    if n == 0 {
      assert Cost(ws[..0], ls[..0]) == 0;
    } else {
      RaisedCost(ws, c, ls, q, max, n - 1);
      assert ws[..n][..n - 1] == ws[..n - 1] && ls[..n][..n - 1] == ls[..n - 1] && c[..n][..n - 1] == c[..n - 1];
      if n <= q {
        Spread(ws[n - 1], ls[n - 1], c[n - 1], max);
      }
    }
  }

  lemma Spread(w: nat, l: nat, c: nat, max: nat)
    requires l <= max && c <= max
    ensures w * l <= w * c + w * (max - c)
  {
    assert w * c + w * (max - c) == w * max;
  }

  /** Each weight fits as often into the whole as the Fibonacci number for its length says. */
  ghost predicate Weighed(ws: seq<nat>, c: seq<nat>, total: nat) {
    |ws| == |c| && forall j :: 0 <= j < |c| ==> Fib(c[j] + 1) * ws[j] <= total
  }

  lemma FibTable()
    ensures Fib(8) == 21 && Fib(9) == 34 && Fib(10) == 55 && Fib(11) == 89 && Fib(12) == 144
    ensures Fib(13) == 233 && Fib(14) == 377 && Fib(15) == 610
  {
    assert Fib(3) == 2 && Fib(4) == 3;
    assert Fib(5) == 5 && Fib(6) == 8;
    assert Fib(7) == 13 && Fib(8) == 21;
    assert Fib(9) == 34 && Fib(10) == 55;
    assert Fib(11) == 89 && Fib(12) == 144;
    assert Fib(13) == 233 && Fib(14) == 377;
  }

  lemma PowTable()
    ensures Pow2(1) == 2 && Pow2(2) == 4 && Pow2(3) == 8 && Pow2(4) == 16 && Pow2(5) == 32
    ensures Pow2(6) == 64 && Pow2(7) == 128 && Pow2(8) == 256 && Pow2(9) == 512
  {
    assert Pow2(2) == 4 && Pow2(4) == 16 && Pow2(6) == 64;
  }

  /** Lengthening a code to 15 costs at most one part in 540 of the whole for every unit it sets free. */
  lemma OneRaise(w: nat, c: nat, total: nat)
    requires 7 <= c <= 15 && Fib(c + 1) * w <= total
    ensures 540 * (w * (15 - c)) <= (Pow2(15 - c) - 1) * total
    ensures 21 * (w * (15 - c)) <= 8 * total
    ensures c >= 11 ==> 36 * (w * (15 - c)) <= total
  {
    FibTable();
    PowTable();
    hide Fib, Pow2;
    if c == 15 {
      assert Pow2(15 - c) >= 1;
    }
  }

  lemma Distribute(a: int, b: int, c: int)
    ensures (a + b) * c == a * c + b * c
  {
  }

  lemma {:induction false} RaiseFits(ws: seq<nat>, c: seq<nat>, q: nat, total: nat)
    requires Weighed(ws, c, total) && q <= |c| && AllAtMost(c, 15) && forall j :: 0 <= j < q ==> c[j] >= 7
    ensures 540 * Raise(ws, c, q, 15) <= Room(c, q, 15) * total
  {
    hide Fib, Pow2, Kraft, Room;
    if q == 0 {
      NoRoom(c, 15);
    } else {
      RaiseFits(ws, c, q - 1, total);
      RoomNext(c, q, 15);
      OneRaise(ws[q - 1], c[q - 1], total);
      Distribute(Room(c, q - 1, 15), Pow2(15 - c[q - 1]) - 1, total);
    }
  }

  lemma NoRoom(c: seq<nat>, max: nat)
    requires AllAtMost(c, max)
    ensures Room(c, 0, max) == 0
  {
  }

  lemma RoomNext(c: seq<nat>, q: nat, max: nat)
    requires AllAtMost(c, max) && 0 < q <= |c|
    ensures Room(c, q, max) == Room(c, q - 1, max) + (Pow2(max - c[q - 1]) - 1)
  {
    assert c[..q][..q - 1] == c[..q - 1];
  }

  /** Codes worth few units are long. */
  lemma LongEnough(c: nat, n: nat)
    requires c <= 15 && Pow2(15 - c) < n
    ensures n <= 288 ==> c >= 7
    ensures n <= 32 ==> c >= 11
  {
    PowTable();
    if c < 7 {
      Pow2Monotone(9, 15 - c);
    }
    if c < 11 {
      Pow2Monotone(5, 15 - c);
    }
    hide Pow2;
  }

  lemma TimesLess(a: int, b: int, t: nat)
    requires a <= b
    ensures a * t <= b * t
  {
  }

  /** All demotions together cost at most one bit per occurrence; with at most 32 symbols, an eighth of a bit. */
  lemma PenaltyFits(ws: seq<nat>, c: seq<nat>, ls: seq<nat>, q: nat, k: nat, total: nat)
    requires Demoting(c, ls, q, k, 15) && Descending(c) && Weighed(ws, c, total) && |c| <= 288
    requires Kraft(c, 15) <= Pow2(15) + |c|
    ensures Raise(ws, c, q, 15) <= total
    ensures |c| <= 32 ==> 8 * Raise(ws, c, q, 15) <= total
  {
    hide Fib, Pow2, Room, Kraft, Raise;
    if q > 0 {
      LongEnough(c[q - 1], |c|);
      EarlierFits(ws, c, q - 1, total);
      LastFits(ws[q - 1], c[q - 1], total);
    }
    hide Weighed, Demoting, Descending;
    RaiseSum(ws, c, q, total);
  }

  lemma EarlierFits(ws: seq<nat>, c: seq<nat>, q: nat, total: nat)
    requires Weighed(ws, c, total) && Descending(c) && q < |c| && AllAtMost(c, 15) && c[q] >= 7 && Room(c, q, 15) <= |c|
    ensures 540 * Raise(ws, c, q, 15) <= |c| * total
  {
    hide Fib, Pow2, Room, Kraft, Raise, Weighed;
    RaiseFits(ws, c, q, total);
    TimesLess(Room(c, q, 15), |c|, total);
  }

  lemma LastFits(w: nat, c: nat, total: nat)
    requires 7 <= c <= 15 && Fib(c + 1) * w <= total
    ensures 21 * (w * (15 - c)) <= 8 * total && (c >= 11 ==> 36 * (w * (15 - c)) <= total)
  {
    hide Fib, Pow2;
    OneRaise(w, c, total);
  }

  lemma RaiseSum(ws: seq<nat>, c: seq<nat>, q: nat, total: nat)
    requires |ws| == |c| <= 288 && q <= |c| && AllAtMost(c, 15)
    requires q > 0 ==> 540 * Raise(ws, c, q - 1, 15) <= |c| * total && 21 * (ws[q - 1] * (15 - c[q - 1])) <= 8 * total
    requires q > 0 && |c| <= 32 ==> 36 * (ws[q - 1] * (15 - c[q - 1])) <= total
    ensures Raise(ws, c, q, 15) <= total
    ensures |c| <= 32 ==> 8 * Raise(ws, c, q, 15) <= total
  {
    if q > 0 {
      PenaltySum(Raise(ws, c, q - 1, 15), ws[q - 1] * (15 - c[q - 1]), |c|, total);
    }
  }

  lemma PenaltySum(r: nat, x: nat, n: nat, total: nat)
    requires 540 * r <= n * total && 21 * x <= 8 * total && n <= 288
    ensures r + x <= total
    ensures n <= 32 && 36 * x <= total ==> 8 * (r + x) <= total
  {
    TimesLess(n, 288, total);
    if n <= 32 {
      TimesLess(n, 32, total);
    }
  }

  /** The loop of tdefl_huffman_enforce_max_code_size, seen on the sorted list of lengths. */
  lemma {:induction false} DemotedTimes(c: seq<nat>, num: seq<nat>, k: nat, max: nat) returns (ls: seq<nat>, q: nat)
    requires Lists(c, num, max) && 1 <= max && |c| <= Pow2(max) && AllAtMost(c, max)
    requires Pow2(max) + k <= Kraft(c, max) && (Pow2(max) < Kraft(c, max) ==> Kraft(c, max) < Pow2(max) + num[max])
    ensures Lists(ls, LL.Demotions(num, k, max), max) && Demoting(c, ls, q, k, max)
    ensures Pow2(max) + k < Kraft(c, max) ==> Kraft(c, max) - k < Pow2(max) + LL.Demotions(num, k, max)[max]
  {
    if k == 0 {
      ls, q := c, 0;
    } else {
      var before := LL.Demotions(num, k - 1, max);
      var ls0, q0 := DemotedTimes(c, num, k - 1, max);
      var i, p := LL.LongestUpTo(before, max - 1), before[max];
      OneDemotion(ls0, before, max);
      DemotedLists(ls0, before, i, max);
      q := DemoteOne(c, ls0, q0, k - 1, p, i, max);
      ls := DemotedList(ls0, p, i);
      hide Kraft, Pow2, Count;
    }
  }

  /** While there is excess, there is a code to demote. */
  lemma OneDemotion(ls: seq<nat>, num: seq<nat>, max: nat)
    requires Lists(ls, num, max) && 1 <= max && AllAtMost(ls, max) && |ls| <= Pow2(max)
    requires Pow2(max) < Kraft(ls, max) < Pow2(max) + num[max]
    ensures var i, p := LL.LongestUpTo(num, max - 1), num[max];
            && 0 < i < max && 0 < p < |ls| && ls[p] == i
            && (forall j :: 0 <= j < p ==> ls[j] == max) && (forall j :: p <= j < |ls| ==> ls[j] <= i)
  {
    var i, p := LL.LongestUpTo(num, max - 1), num[max];
    MaxFirst(ls, max);
    if p == |ls| {
      KraftOfMax(ls, max);
    } else {
      CountOfMember(ls, p);
      LongestBehind(ls, num, i, max);
    }
    hide Kraft, Pow2, Count;
  }

  // ---- from the optimal lengths to the limited ones ----

  ghost function Clamp(ls: seq<nat>, max: nat): (c: seq<nat>)
    ensures |c| == |ls|
  {
    seq(|ls|, j requires 0 <= j < |ls| => if ls[j] <= max then ls[j] else max)
  }

  lemma {:induction false} ClampCount(ls: seq<nat>, max: nat, x: nat)
    requires 1 <= x <= max < 32 && forall j :: 0 <= j < |ls| ==> 1 <= ls[j] <= 32
    ensures Count(Clamp(ls, max), x) == LL.Clamped(HistOf(ls), max)[x]
  {
    if |ls| == 0 {
      HistOfNothing(HistOf(ls), 32, 32);
      LL.HistCountSplit(HistOf(ls), 0, max, 32);
    } else {
      var k := |ls| - 1;
      ClampCount(ls[..k], max, x);
      assert Clamp(ls, max)[..k] == Clamp(ls[..k], max);
      var h, v := HistOf(ls[..k]), ls[k];
      assert HistOf(ls) == h[v := h[v] + 1];
      LL.HistCountUpdate(h, max, 32, v, h[v] + 1);
    }
  }

  lemma ClampLists(ls: seq<nat>, max: nat)
    requires Descending(ls) && 1 <= max < 32 && forall j :: 0 <= j < |ls| ==> 1 <= ls[j] <= 32
    ensures Lists(Clamp(ls, max), LL.Clamped(HistOf(ls), max), max)
  {
    forall x: nat | 1 <= x <= max
      ensures Count(Clamp(ls, max), x) == LL.Clamped(HistOf(ls), max)[x]
    {
      ClampCount(ls, max, x);
    }
    hide Count;
  }

  lemma ListKraft(ls: seq<nat>, num: seq<nat>, max: nat)
    requires Lists(ls, num, max) && max <= 32
    ensures AllAtMost(ls, max) && Kraft(ls, max) == LL.HistKraft(num, max, max)
  {
    HistOfLengths(ls, max);
    HistKraftIsKraft(num, ls, max, max);
    HistKraftIsKraft(HistOf(ls), ls, max, max);
  }

  lemma {:induction false} CheaperList(ws: seq<nat>, a: seq<nat>, b: seq<nat>)
    requires |ws| == |a| == |b| && forall j :: 0 <= j < |a| ==> a[j] <= b[j]
    ensures Cost(ws, a) <= Cost(ws, b)
  {
    if |ws| > 0 {
      var k := |ws| - 1;
      CheaperList(ws[..k], a[..k], b[..k]);
      assert ws[k] * a[k] <= ws[k] * b[k];
    } else {
      assert Cost(ws, a) == 0;
    }
  }

  /** A leaf at depth l weighs at most one part in Fib(l + 1) of the whole. */
  lemma LeafOutweighed(m: MergeTrace, d: seq<nat>, ls: seq<nat>, j: nat)
    requires TreeLengths(m, d, ls) && j < |ls|
    ensures ls[j] >= 1 && Fib(ls[j] + 1) * m.keys[j] <= m.w[|m.w| - 1]
  {
    var p := FindLeafParent(m, |m.keys| - 1, j);
    RootOutweighs(m, d, p);
    assert m.GreedyAt(p);
    assert ls[j] == d[p] + 1;
    FibSum(d[p], m.w[p], m.mx[p], m.keys[j]);
  }

  lemma FibSum(n: nat, w: nat, x: nat, k: nat)
    requires w >= k && x >= k
    ensures Fib(n + 2) * k <= Fib(n + 1) * w + Fib(n) * x
  {
    assert Fib(n + 2) == Fib(n + 1) + Fib(n);
    hide Fib;
    FibStep(Fib(n + 1), Fib(n), w, x, k, 0);
  }

  lemma ClampWeighed(m: MergeTrace, d: seq<nat>, ls: seq<nat>, max: nat)
    requires TreeLengths(m, d, ls)
    ensures Weighed(m.keys, Clamp(ls, max), m.w[|m.w| - 1])
  {
    var c := Clamp(ls, max);
    assert |ls| == |m.keys|;
    hide TreeLengths, Fib;
    forall j | 0 <= j < |c|
      ensures Fib(c[j] + 1) * m.keys[j] <= m.w[|m.w| - 1]
    {
      LeafOutweighed(m, d, ls, j);
      FibGrows(c[j] + 1, ls[j] + 1);
      TimesLess(Fib(c[j] + 1), Fib(ls[j] + 1), m.keys[j]);
    }
  }

  lemma OptimalLists(m: MergeTrace, d: seq<nat>, opt: seq<nat>)
    requires TreeLengths(m, d, opt) && m.w[|m.w| - 1] <= 0xFFFF
    ensures |opt| == |m.keys| && Descending(opt) && (forall j :: 0 <= j < |opt| ==> 1 <= opt[j] <= 32)
    ensures AllAtMost(opt, 32) && Kraft(opt, 32) == Pow2(32)
  {
    DepthFits(m, d, opt);
    KraftIsOne(m, d, opt, 32);
    forall i, j | 0 <= i <= j < |opt|
      ensures opt[i] >= opt[j] >= 1
    {
      LengthsDescend(m, d, opt, i, j);
    }
  }

  lemma LimitedList(opt: seq<nat>, num: seq<nat>) returns (ls: seq<nat>, q: nat)
    requires Descending(opt) && (forall j :: 0 <= j < |opt| ==> 1 <= opt[j] <= 32) && |opt| <= 288
    requires AllAtMost(opt, 32) && Kraft(opt, 32) == Pow2(32) && LL.Excess(HistOf(opt), 15) >= 0
    requires num == LL.Demotions(LL.Clamped(HistOf(opt), 15), LL.Excess(HistOf(opt), 15), 15)
    ensures Lists(ls, num, 15) && Demoting(Clamp(opt, 15), ls, q, LL.Excess(HistOf(opt), 15), 15)
    ensures Descending(Clamp(opt, 15)) && Kraft(Clamp(opt, 15), 15) <= Pow2(15) + |opt|
  {
    var c, h := Clamp(opt, 15), LL.Clamped(HistOf(opt), 15);
    HistOfLengths(opt, 32);
    LL.ClampExcess(HistOf(opt), 15, h);
    ClampLists(opt, 15);
    ListKraft(c, h, 15);
    MaxFirst(c, 15);
    assert Pow2(15) >= 288 by {
      PowTable();
      Pow2Monotone(9, 15);
    }
    hide Count, Kraft, Pow2;
    ls, q := DemotedTimes(c, h, LL.Excess(HistOf(opt), 15), 15);
  }

  lemma RaisedTotal(ws: seq<nat>, c: seq<nat>, ls: seq<nat>, q: nat, k: nat)
    requires |ws| == |c| && Demoting(c, ls, q, k, 15)
    ensures Cost(ws, ls) <= Cost(ws, c) + Raise(ws, c, q, 15)
  {
    RaisedCost(ws, c, ls, q, 15, |c|);
    assert ws[..|c|] == ws && ls[..|c|] == ls && c[..|c|] == c;
    hide Cost, Raise, Kraft;
  }

  /** The limited lengths, handed out in order, cost at most one bit per occurrence more than the optimal ones. */
  lemma LimitCosts(m: MergeTrace, d: seq<nat>, opt: seq<nat>, num: seq<nat>) returns (ls: seq<nat>)
    requires TreeLengths(m, d, opt) && m.w[|m.w| - 1] <= 0xFFFF && |opt| <= 288
    requires LL.Excess(HistOf(opt), 15) >= 0
    requires num == LL.Demotions(LL.Clamped(HistOf(opt), 15), LL.Excess(HistOf(opt), 15), 15)
    ensures Lists(ls, num, 15) && |ls| == |opt| == |m.keys|
    ensures Cost(m.keys, ls) <= Cost(m.keys, opt) + m.w[|m.w| - 1]
    ensures |opt| <= 32 ==> 8 * Cost(m.keys, ls) <= 8 * Cost(m.keys, opt) + m.w[|m.w| - 1]
  {
    OptimalLists(m, d, opt);
    CheaperList(m.keys, Clamp(opt, 15), opt);
    hide Pow2, Cost, Kraft, Raise, Lists, Weighed, Clamp, LL.Clamped, LL.Excess, TreeLengths;
    var c := Clamp(opt, 15);
    var q;
    ls, q := LimitedList(opt, num);
    ClampWeighed(m, d, opt, 15);
    PenaltyFits(m.keys, c, ls, q, LL.Excess(HistOf(opt), 15), m.w[|m.w| - 1]);
    RaisedTotal(m.keys, c, ls, q, LL.Excess(HistOf(opt), 15));
  }
}
