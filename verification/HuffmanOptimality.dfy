/** What the code lengths computed in place are worth: they fill the code space exactly, they
    never grow with frequency, they fit the 32 histogram slots, and no prefix code is cheaper. */
module HuffmanOptimality {
  import opened Bits
  import opened MinRedundancy

  ghost predicate AllAtMost(ls: seq<nat>, b: nat) {
    forall i :: 0 <= i < |ls| ==> ls[i] <= b
  }

  /** 2^b times the Kraft sum of the lengths. */
  ghost function Kraft(ls: seq<nat>, b: nat): nat
    requires AllAtMost(ls, b)
  {
    if |ls| == 0 then 0 else Kraft(ls[..|ls| - 1], b) + Pow2(b - ls[|ls| - 1])
  }

  /** The weighted length: the bits spent if item i occurs ws[i] times. */
  ghost function Cost(ws: seq<nat>, ls: seq<nat>): nat
    requires |ws| == |ls|
  {
    if |ws| == 0 then 0 else Cost(ws[..|ws| - 1], ls[..|ls| - 1]) + ws[|ws| - 1] * ls[|ls| - 1]
  }

  // ---- sums over the leaves of a merge tree ----

  /** If the children of every node t carry what t carries plus extra[t], then the leaves carry
      what the root carries plus all extras. */
  lemma {:induction false} Frontier(m: MergeTrace, leaves: seq<nat>, nodes: seq<nat>, extra: seq<nat>, t: nat)
    requires m.Complete() && |leaves| == |m.keys| && |nodes| == |extra| == |m.w| && t <= |m.w|
    requires forall s {:trigger m.ShapeAt(s)} :: 0 <= s < |m.w| && m.ShapeAt(s) && 0 <= m.Lc(s) ==>
               SumRange(leaves, m.Lc(s), m.Lc(s + 1)) + SumRange(nodes, m.rc[s], m.rc[s + 1]) == nodes[s] + extra[s]
    ensures 0 <= m.Lc(t) <= |m.keys| && m.rc[t] <= t
    ensures SumRange(leaves, m.Lc(t), |leaves|) + SumRange(nodes, m.rc[t], t)
            == nodes[|nodes| - 1] + SumRange(extra, t, |extra|)
    decreases |m.w| - t
  {
    RcMonotone(m, t, |m.w|);
    RcMonotone(m, t, t);
    if t == |m.w| {
      assert m.rc[t] == t - 1;
      SumOfOne(nodes, t - 1);
    } else {
      Frontier(m, leaves, nodes, extra, t + 1);
      assert m.ShapeAt(t);
      SumSplit(leaves, m.Lc(t), m.Lc(t + 1), |leaves|);
      SumSplit(nodes, m.rc[t], m.rc[t + 1], t + 1);
      SumSplit(nodes, m.rc[t], t, t + 1);
      SumOfOne(nodes, t);
    }
  }

  lemma {:induction false} SumScaled(s: seq<nat>, t: seq<nat>, lo: nat, hi: nat, c: nat)
    requires hi <= |s| == |t| && forall i :: lo <= i < hi ==> t[i] == s[i] * c
    ensures SumRange(t, lo, hi) == SumRange(s, lo, hi) * c
    decreases hi - lo
  {
    if lo < hi {
      SumScaled(s, t, lo + 1, hi, c);
    }
  }

  lemma {:induction false} SumConstant(t: seq<nat>, lo: nat, hi: nat, c: nat)
    requires lo <= hi <= |t| && forall i :: lo <= i < hi ==> t[i] == c
    ensures SumRange(t, lo, hi) == (hi - lo) * c
    decreases hi - lo
  {
    if lo < hi {
      SumConstant(t, lo + 1, hi, c);
    }
  }

  ghost function Terms(ls: seq<nat>, b: nat): (r: seq<nat>)
    requires AllAtMost(ls, b)
    ensures |r| == |ls| && forall i :: 0 <= i < |ls| ==> r[i] == Pow2(b - ls[i])
  {
    seq(|ls|, i requires 0 <= i < |ls| => Pow2(b - ls[i]))
  }

  ghost function Products(ws: seq<nat>, ls: seq<nat>): (r: seq<nat>)
    requires |ws| == |ls|
    ensures |r| == |ls| && forall i :: 0 <= i < |ls| ==> r[i] == ws[i] * ls[i]
  {
    seq(|ls|, i requires 0 <= i < |ls| => ws[i] * ls[i])
  }

  lemma {:induction false} KraftIsSum(ls: seq<nat>, b: nat)
    requires AllAtMost(ls, b)
    ensures Kraft(ls, b) == Sum(Terms(ls, b))
  {
    if |ls| == 0 {
    } else {
      var k := |ls| - 1;
      KraftIsSum(ls[..k], b);
      SumSame(Terms(ls, b), Terms(ls[..k], b), 0, k);
      SumSplit(Terms(ls, b), 0, k, k + 1);
      SumOfOne(Terms(ls, b), k);
    }
  }

  lemma {:induction false} CostIsSum(ws: seq<nat>, ls: seq<nat>)
    requires |ws| == |ls|
    ensures Cost(ws, ls) == Sum(Products(ws, ls))
  {
    if |ls| == 0 {
    } else {
      var k := |ls| - 1;
      CostIsSum(ws[..k], ls[..k]);
      SumSame(Products(ws, ls), Products(ws[..k], ls[..k]), 0, k);
      SumSplit(Products(ws, ls), 0, k, k + 1);
      SumOfOne(Products(ws, ls), k);
    }
  }

  ghost predicate TreeLengths(m: MergeTrace, d: seq<nat>, lens: seq<nat>) {
    m.Complete() && Depths(m, d) && LeafDepths(m, d, lens)
  }

  lemma ChildDepths(m: MergeTrace, d: seq<nat>, lens: seq<nat>, t: nat)
    requires TreeLengths(m, d, lens) && t < |m.w|
    ensures m.ShapeAt(t) && 0 <= m.Lc(t) <= m.Lc(t + 1) <= |lens| && m.rc[t + 1] <= t < |d|
    ensures forall i :: m.Lc(t) <= i < m.Lc(t + 1) ==> lens[i] == d[t] + 1
    ensures forall j :: m.rc[t] <= j < m.rc[t + 1] ==> d[j] == d[t] + 1
  {
    assert m.ShapeAt(t);
    RcMonotone(m, t, t + 1);
    forall i | m.Lc(t) <= i < m.Lc(t + 1)
      ensures lens[i] == d[t] + 1
    {
      assert IsLeafChild(m, t, i);
    }
    forall j | m.rc[t] <= j < m.rc[t + 1]
      ensures d[j] == d[t] + 1
    {
      assert IsNodeChild(m, t, j);
    }
  }

  /** The lengths use up the code space: their Kraft sum is exactly 1. */
  lemma KraftIsOne(m: MergeTrace, d: seq<nat>, lens: seq<nat>, b: nat)
    requires TreeLengths(m, d, lens) && AllAtMost(lens, b)
    ensures Kraft(lens, b) == Pow2(b)
  {
    NodeDepthsAtMost(m, d, lens, b);
    var leaves, nodes, extra := Terms(lens, b), Terms(d, b), seq(|d|, _ => 0);
    NodeTerms(m, d, b);
    forall t {:trigger m.ShapeAt(t)} | 0 <= t < |m.w| && m.ShapeAt(t) && 0 <= m.Lc(t)
      ensures SumRange(leaves, m.Lc(t), m.Lc(t + 1)) + SumRange(nodes, m.rc[t], m.rc[t + 1]) == nodes[t] + extra[t]
    {
      hide Depths, LeafDepths, m.Complete, Terms, SumRange;
      KraftOfChildren(m, d, lens, b, t);
    }
    hide Depths, LeafDepths, Terms, SumRange, Kraft, AllAtMost, Pow2;
    Frontier(m, leaves, nodes, extra, 0);
    SumConstant(extra, 0, |extra|, 0);
    KraftIsSum(lens, b);
  }

  lemma NodeDepthsAtMost(m: MergeTrace, d: seq<nat>, lens: seq<nat>, b: nat)
    requires TreeLengths(m, d, lens) && AllAtMost(lens, b)
    ensures AllAtMost(d, b) && |lens| == |m.keys| && |d| == |m.w|
  {
    forall j | 0 <= j < |d|
      ensures d[j] <= b
    {
      NodeDepthAtMost(m, d, lens, b, j);
    }
  }

  lemma NodeTerms(m: MergeTrace, d: seq<nat>, b: nat)
    requires m.Complete() && Depths(m, d) && AllAtMost(d, b)
    ensures |Terms(d, b)| == |d| > 0 && (forall t :: 0 <= t < |d| ==> Terms(d, b)[t] == Pow2(b - d[t]))
    ensures d[|d| - 1] == 0
  {
  }

  lemma KraftOfChildren(m: MergeTrace, d: seq<nat>, lens: seq<nat>, b: nat, t: nat)
    requires TreeLengths(m, d, lens) && AllAtMost(lens, b) && AllAtMost(d, b) && t < |m.w|
    ensures 0 <= m.Lc(t) <= m.Lc(t + 1) <= |lens| && m.rc[t + 1] <= |d|
    ensures SumRange(Terms(lens, b), m.Lc(t), m.Lc(t + 1)) +
              SumRange(Terms(d, b), m.rc[t], m.rc[t + 1]) == Pow2(b - d[t])
  {
    ChildDepths(m, d, lens, t);
    NodeDepthAtMost(m, d, lens, b, t);
    var c := Pow2(b - d[t] - 1);
    var x, y := m.Lc(t + 1) - m.Lc(t), m.rc[t + 1] - m.rc[t];
    SumConstant(Terms(lens, b), m.Lc(t), m.Lc(t + 1), c);
    SumConstant(Terms(d, b), m.rc[t], m.rc[t + 1], c);
    assert x * c + y * c == (x + y) * c && x + y == 2;
  }

  lemma {:induction false} NodeDepthAtMost(m: MergeTrace, d: seq<nat>, lens: seq<nat>, b: nat, j: nat)
    requires TreeLengths(m, d, lens) && AllAtMost(lens, b) && j < |d|
    ensures d[j] < b
  {
    ChildDepths(m, d, lens, j);
    if m.rc[j] < m.rc[j + 1] {
      NodeDepthAtMost(m, d, lens, b, m.rc[j]);
    } else {
      assert lens[m.Lc(j)] == d[j] + 1;
    }
  }

  /** What the code costs is what the merges weigh. */
  lemma CostOfMerges(m: MergeTrace, d: seq<nat>, lens: seq<nat>)
    requires TreeLengths(m, d, lens)
    ensures Cost(m.keys, lens) == Sum(m.w)
  {
    var leaves, nodes := Products(m.keys, lens), Products(m.w, d);
    forall t {:trigger m.ShapeAt(t)} | 0 <= t < |m.w| && m.ShapeAt(t) && 0 <= m.Lc(t)
      ensures SumRange(leaves, m.Lc(t), m.Lc(t + 1)) + SumRange(nodes, m.rc[t], m.rc[t + 1]) == nodes[t] + m.w[t]
    {
      CostOfChildren(m, d, lens, t);
    }
    Frontier(m, leaves, nodes, m.w, 0);
    CostIsSum(m.keys, lens);
    assert nodes[|nodes| - 1] == 0;
  }

  lemma CostOfChildren(m: MergeTrace, d: seq<nat>, lens: seq<nat>, t: nat)
    requires TreeLengths(m, d, lens) && t < |m.w|
    ensures 0 <= m.Lc(t) <= m.Lc(t + 1) <= |lens| && m.rc[t + 1] <= |d|
    ensures SumRange(Products(m.keys, lens), m.Lc(t), m.Lc(t + 1)) + SumRange(Products(m.w, d), m.rc[t], m.rc[t + 1])
            == m.w[t] * d[t] + m.w[t]
  {
    ChildDepths(m, d, lens, t);
    assert m.WeightAt(t);
    var c := d[t] + 1;
    SumScaled(m.keys, Products(m.keys, lens), m.Lc(t), m.Lc(t + 1), c);
    SumScaled(m.w, Products(m.w, d), m.rc[t], m.rc[t + 1], c);
    OneMore(SumRange(m.keys, m.Lc(t), m.Lc(t + 1)), SumRange(m.w, m.rc[t], m.rc[t + 1]), m.w[t], d[t]);
  }

  lemma OneMore(x: nat, y: nat, w: nat, d: nat)
    requires w == x + y
    ensures x * (d + 1) + y * (d + 1) == w * d + w
  {
    assert x * (d + 1) == x * d + x && y * (d + 1) == y * d + y && (x + y) * d == x * d + y * d;
  }

  /** Heavier items never get longer codes. */
  lemma LengthsDescend(m: MergeTrace, d: seq<nat>, lens: seq<nat>, i: nat, k: nat)
    requires TreeLengths(m, d, lens) && i <= k < |lens|
    ensures lens[i] >= lens[k] >= 1
  {
    var n := |m.keys|;
    var p := FindLeafParent(m, n - 1, i);
    var q := FindLeafParent(m, n - 1, k);
    if q < p {
      RcMonotone(m, q + 1, p);
    }
    DepthsDescend(m, d, p, q);
  }

  lemma {:induction false} DepthsDescend(m: MergeTrace, d: seq<nat>, i: nat, k: nat)
    requires m.Complete() && Depths(m, d) && i <= k < |d|
    ensures d[i] >= d[k]
    decreases |d| - i
  {
    if i < k && k < |d| - 1 {
      var n := |m.keys|;
      var p := FindNodeParent(m, n - 1, i);
      var q := FindNodeParent(m, n - 1, k);
      if q < p {
        RcMonotone(m, q + 1, p);
      }
      DepthsDescend(m, d, p, q);
    }
  }

  // ---- depth ----

  function Fib(n: nat): nat
  {
    if n < 2 then n else Fib(n - 1) + Fib(n - 2)
  }

  /** A parent outweighs a node by more than half: weights grow like Fibonacci numbers towards the root. */
  lemma ParentOutweighs(m: MergeTrace, p: nat, j: nat)
    requires m.Complete() && IsNodeChild(m, p, j)
    ensures j < p < |m.w| && m.w[p] >= m.w[j] + m.mx[j] && m.mx[p] >= m.w[j]
  {
    NodeParentLater(m, p, j);
    RcMonotone(m, j + 1, p);
    RcMonotone(m, p, p + 1);
    assert m.GreedyAt(j) && m.GreedyAt(p) && m.WeightAt(p);
    var r := m.rc[p];
    if m.rc[p + 1] == r + 1 {
      SumOfOne(m.keys, m.Lc(p));
      SumOfOne(m.w, r);
    } else {
      SumOfTwo(m.w, r);
      assert m.ShapeAt(p);
    }
  }

  lemma {:induction false} RootOutweighs(m: MergeTrace, d: seq<nat>, j: nat)
    requires m.Complete() && Depths(m, d) && j < |d|
    ensures m.w[|m.w| - 1] >= Fib(d[j] + 1) * m.w[j] + Fib(d[j]) * m.mx[j]
    decreases |d| - j
  {
    if j < |d| - 1 {
      var p := FindNodeParent(m, |m.keys| - 1, j);
      ParentOutweighs(m, p, j);
      RootOutweighs(m, d, p);
      FibStep(Fib(d[p] + 1), Fib(d[p]), m.w[p], m.mx[p], m.w[j], m.mx[j]);
    }
  }

  lemma FibStep(f: nat, g: nat, wp: nat, xp: nat, wj: nat, xj: nat)
    requires wp >= wj + xj && xp >= wj
    ensures f * wp + g * xp >= (f + g) * wj + f * xj
  {
    assert f * wp >= f * (wj + xj);
    assert g * xp >= g * wj;
    assert f * (wj + xj) + g * wj == (f + g) * wj + f * xj;
  }

  lemma {:induction false} FibGrows(a: nat, b: nat)
    requires a <= b
    ensures Fib(a) <= Fib(b)
  {
    if a < b {
      FibGrows(a, b - 1);
    }
  }

  /** A code for at most 65535 symbols in all is no deeper than 22, well inside the 32 slots of the histogram. */
  lemma DepthFits(m: MergeTrace, d: seq<nat>, lens: seq<nat>)
    requires TreeLengths(m, d, lens) && m.w[|m.w| - 1] <= 0xFFFF
    ensures AllAtMost(lens, 22)
  {
    forall i | 0 <= i < |lens|
      ensures lens[i] <= 22
    {
      var p := FindLeafParent(m, |m.keys| - 1, i);
      NodeDepthFits(m, d, p);
    }
  }

  lemma NodeDepthFits(m: MergeTrace, d: seq<nat>, p: nat)
    requires m.Complete() && Depths(m, d) && m.w[|m.w| - 1] <= 0xFFFF && p < |d|
    ensures d[p] <= 21
  {
    RootOutweighs(m, d, p);
    NodeWeighsTwo(m, p);
    AtLeastTwoAndOne(Fib(d[p] + 1), Fib(d[p]), m.w[p], m.mx[p]);
    assert Fib(d[p] + 3) == Fib(d[p] + 2) + Fib(d[p] + 1);
    if d[p] > 21 {
      FibGrows(25, d[p] + 3);
      FibValues();
      assert false;
    }
  }

  lemma AtLeastTwoAndOne(f: nat, g: nat, w: nat, x: nat)
    requires w >= 2 && x >= 1
    ensures f * w + g * x >= 2 * f + g
  {
  }

  lemma FibValues()
    ensures Fib(25) == 75025
  {
    assert Fib(5) == 5 && Fib(6) == 8;
    assert Fib(8) == 21 && Fib(9) == 34;
    assert Fib(11) == 89 && Fib(12) == 144;
    assert Fib(14) == 377 && Fib(15) == 610;
    assert Fib(17) == 1597 && Fib(18) == 2584;
    assert Fib(20) == 6765 && Fib(21) == 10946;
    assert Fib(23) == 28657 && Fib(24) == 46368;
  }

  lemma NodeWeighsTwo(m: MergeTrace, t: nat)
    requires m.Complete() && t < |m.w|
    ensures m.w[t] >= 2 && m.mx[t] >= 1
    decreases t
  {
    assert m.WeightAt(t) && m.GreedyAt(t) && m.ShapeAt(t);
    if m.rc[t] < m.rc[t + 1] {
      NodeWeighsTwo(m, m.rc[t]);
      SumAtLeast(m.w, m.rc[t], m.rc[t + 1], m.rc[t]);
    } else {
      SumOfTwo(m.keys, m.Lc(t));
    }
  }

  // ---- no prefix code is cheaper ----

  ghost predicate Feasible(ls: seq<nat>, b: nat) {
    AllAtMost(ls, b) && Kraft(ls, b) <= Pow2(b)
  }

  /** Every set of lengths a prefix code can have costs at least c for these weights. */
  ghost predicate CostsAtLeast(ws: seq<nat>, c: nat) {
    forall ls: seq<nat>, b: nat :: |ls| == |ws| && Feasible(ls, b) ==> Cost(ws, ls) >= c
  }

  function Without<T>(s: seq<T>, p: nat): seq<T>
    requires p < |s|
  {
    s[..p] + s[p + 1..]
  }

  lemma {:induction false} KraftWithout(ls: seq<nat>, b: nat, p: nat)
    requires AllAtMost(ls, b) && p < |ls|
    ensures AllAtMost(Without(ls, p), b)
    ensures Kraft(ls, b) == Kraft(Without(ls, p), b) + Pow2(b - ls[p])
  {
    var k := |ls| - 1;
    if p < k {
      KraftWithout(ls[..k], b, p);
      assert Without(ls, p)[..k - 1] == Without(ls[..k], p);
      assert Without(ls, p)[k - 1] == ls[k];
    } else {
      assert Without(ls, p) == ls[..k];
    }
  }

  lemma {:induction false} CostWithout(ws: seq<nat>, ls: seq<nat>, p: nat)
    requires |ws| == |ls| && p < |ls|
    ensures Cost(ws, ls) == Cost(Without(ws, p), Without(ls, p)) + ws[p] * ls[p]
  {
    var k := |ls| - 1;
    if p < k {
      CostWithout(ws[..k], ls[..k], p);
      assert Without(ls, p)[..k - 1] == Without(ls[..k], p);
      assert Without(ws, p)[..k - 1] == Without(ws[..k], p);
      assert Without(ls, p)[k - 1] == ls[k] && Without(ws, p)[k - 1] == ws[k];
    } else {
      assert Without(ls, p) == ls[..k] && Without(ws, p) == ws[..k];
    }
  }

  lemma KraftUpdate(ls: seq<nat>, b: nat, p: nat, v: nat)
    requires AllAtMost(ls, b) && p < |ls| && v <= b
    ensures AllAtMost(ls[p := v], b)
    ensures Kraft(ls[p := v], b) == Kraft(ls, b) - Pow2(b - ls[p]) + Pow2(b - v)
  {
    KraftWithout(ls, b, p);
    KraftWithout(ls[p := v], b, p);
    assert Without(ls[p := v], p) == Without(ls, p);
  }

  lemma CostUpdate(ws: seq<nat>, ls: seq<nat>, p: nat, v: nat)
    requires |ws| == |ls| && p < |ls|
    ensures Cost(ws, ls[p := v]) == Cost(ws, ls) - ws[p] * ls[p] + ws[p] * v
  {
    CostWithout(ws, ls, p);
    CostWithout(ws, ls[p := v], p);
    assert Without(ls[p := v], p) == Without(ls, p);
  }

  /** Giving the longer code to the lighter of two items does not raise the cost. */
  lemma Exchange(ws: seq<nat>, ls: seq<nat>, b: nat, p: nat, q: nat)
    requires |ws| == |ls| && p < |ls| && q < |ls| && p != q && Feasible(ls, b)
    requires ws[p] <= ws[q] && ls[p] <= ls[q]
    ensures Feasible(ls[p := ls[q]][q := ls[p]], b)
    ensures Cost(ws, ls[p := ls[q]][q := ls[p]]) <= Cost(ws, ls)
  {
    var t := ls[p := ls[q]];
    KraftUpdate(ls, b, p, ls[q]);
    KraftUpdate(t, b, q, ls[p]);
    CostUpdate(ws, ls, p, ls[q]);
    CostUpdate(ws, t, q, ls[p]);
    ExchangeGain(ws[p], ws[q], ls[p], ls[q]);
  }

  lemma ExchangeGain(wp: nat, wq: nat, lp: nat, lq: nat)
    requires wp <= wq && lp <= lq
    ensures wp * lq + wq * lp <= wp * lp + wq * lq
  {
    var dw, dl := wq - wp, lq - lp;
    assert wq * dl == wp * dl + dw * dl;
    assert wp * lq == wp * lp + wp * dl && wq * lq == wq * lp + wq * dl;
  }

  ghost predicate Deepest(ls: seq<nat>, p: nat, q: nat) {
    && p < |ls| && q < |ls|
    && (forall i :: 0 <= i < |ls| && i != p && i != q ==> ls[i] <= ls[p] && ls[i] <= ls[q])
  }

  lemma {:induction false} Argmax(ls: seq<nat>, except: int) returns (k: nat)
    requires |ls| >= 2 || (|ls| == 1 && except != 0)
    ensures k < |ls| && k != except && forall i :: 0 <= i < |ls| && i != except ==> ls[i] <= ls[k]
  {
    var n := |ls| - 1;
    if n == except {
      k := Argmax(ls[..n], except);
    } else if n >= 2 || (n == 1 && except != 0) {
      k := Argmax(ls[..n], except);
      k := if ls[n] > ls[k] then n else k;
    } else {
      k := n;
    }
  }

  /** The two lightest items may be assumed to have the two longest codes. */
  lemma LightestDeepest(ws: seq<nat>, ls: seq<nat>, b: nat, p: nat, q: nat) returns (r: seq<nat>)
    requires |ws| == |ls| && p < q < |ls| && Feasible(ls, b)
    requires forall i :: 0 <= i < |ws| && i != p && i != q ==> ws[p] <= ws[i] && ws[q] <= ws[i]
    ensures |r| == |ls| && Feasible(r, b) && Deepest(r, p, q) && Cost(ws, r) <= Cost(ws, ls)
  {
    var k := Argmax(ls, -1);
    r := ls;
    var top := p;
    if k != p && k != q {
      Exchange(ws, ls, b, p, k);
      r := ls[p := ls[k]][k := ls[p]];
    } else {
      top := k;
    }
    var low := if top == p then q else p;
    assert low != top;
    var j := Argmax(r, top);
    if j != low {
      Exchange(ws, r, b, low, j);
      r := r[low := r[j]][j := r[low]];
    }
  }

  lemma AddTimes(a: nat, b: nat, c: nat)
    ensures (a + b) * c == a * c + b * c
  {
  }

  /** A Kraft sum of lengths at most l is a multiple of the term for l. */
  lemma {:induction false} KraftMultiple(ls: seq<nat>, b: nat, l: nat) returns (k: nat)
    requires AllAtMost(ls, b) && AllAtMost(ls, l) && l <= b
    ensures Kraft(ls, b) == k * Pow2(b - l)
  {
    if |ls| == 0 {
      k := 0;
    } else {
      var x := ls[|ls| - 1];
      var k0 := KraftMultiple(ls[..|ls| - 1], b, l);
      Pow2Sum(l - x, b - l);
      k := k0 + Pow2(l - x);
      AddTimes(k0, Pow2(l - x), Pow2(b - l));
      hide Pow2;
    }
  }

  /** Of two longest codes the longer can be cut to the length of the other. */
  lemma LevelOff(ls: seq<nat>, b: nat, p: nat, q: nat)
    requires Feasible(ls, b) && Deepest(ls, p, q) && p != q && ls[p] >= ls[q]
    ensures Feasible(ls[p := ls[q]], b) && ls[q] >= 1
  {
    var l := ls[q];
    var rest := Without(ls, p);
    KraftWithout(ls, b, p);
    KraftUpdate(ls, b, p, l);
    assert AllAtMost(rest, l) by {
      assert forall i :: 0 <= i < |ls| && i != p ==> ls[i] <= l;
    }
    var k := KraftMultiple(rest, b, l);
    Pow2Sum(l, b - l);
    MultipleGap(k, Pow2(l), Pow2(b - l), Kraft(rest, b), Pow2(b));
  }

  lemma MultipleGap(k: nat, n: nat, u: nat, x: nat, y: nat)
    requires x == k * u && y == n * u && x < y && u > 0
    ensures x + u <= y
  {
    var d: int := n - k;
    assert d * u == y - x;
    assert d >= 1;
    assert d * u >= u;
  }

  function MergedWeights(ws: seq<nat>, p: nat, q: nat): seq<nat>
    requires p < q < |ws|
  {
    Without(Without(ws, q), p) + [ws[p] + ws[q]]
  }

  /** One Huffman merge: what holds for the merged weights holds before the merge, plus their sum. */
  lemma MergeBound(ws: seq<nat>, p: nat, q: nat, c: nat)
    requires p < q < |ws|
    requires forall i :: 0 <= i < |ws| && i != p && i != q ==> ws[p] <= ws[i] && ws[q] <= ws[i]
    requires CostsAtLeast(MergedWeights(ws, p, q), c)
    ensures CostsAtLeast(ws, c + ws[p] + ws[q])
  {
    forall ls: seq<nat>, b: nat | |ls| == |ws| && Feasible(ls, b)
      ensures Cost(ws, ls) >= c + ws[p] + ws[q]
    {
      var r := LightestDeepest(ws, ls, b, p, q);
      var s := EvenOut(ws, r, b, p, q);
      MergeSiblings(ws, s, b, p, q);
      var t := Without(Without(s, q), p) + [s[p] - 1];
      assert Cost(MergedWeights(ws, p, q), t) >= c;
    }
  }

  lemma EvenOut(ws: seq<nat>, r: seq<nat>, b: nat, p: nat, q: nat) returns (s: seq<nat>)
    requires p < q < |ws| == |r| && Feasible(r, b) && Deepest(r, p, q)
    ensures |s| == |ws| && Feasible(s, b) && s[p] == s[q] >= 1 && Cost(ws, s) <= Cost(ws, r)
  {
    if r[p] <= r[q] {
      LevelOff(r, b, q, p);
      ShortenCost(ws, r, q, r[p]);
      s := r[q := r[p]];
    } else {
      LevelOff(r, b, p, q);
      ShortenCost(ws, r, p, r[q]);
      s := r[p := r[q]];
    }
  }

  lemma ShortenCost(ws: seq<nat>, r: seq<nat>, p: nat, v: nat)
    requires |ws| == |r| && p < |r| && v <= r[p]
    ensures Cost(ws, r[p := v]) <= Cost(ws, r)
  {
    CostUpdate(ws, r, p, v);
    assert ws[p] * (r[p] - v) >= 0;
    assert ws[p] * r[p] == ws[p] * v + ws[p] * (r[p] - v);
  }

  /** Two codes of equal length can be replaced by their common prefix. */
  lemma MergeSiblings(ws: seq<nat>, s: seq<nat>, b: nat, p: nat, q: nat)
    requires p < q < |ws| == |s| && Feasible(s, b) && s[p] == s[q] >= 1
    ensures var t := Without(Without(s, q), p) + [s[p] - 1];
            Feasible(t, b) && Cost(ws, s) == Cost(MergedWeights(ws, p, q), t) + ws[p] + ws[q]
  {
    var s1, w1 := Without(s, q), Without(ws, q);
    var s2, w2 := Without(s1, p), Without(w1, p);
    var l := s[p];
    KraftWithout(s, b, q);
    KraftWithout(s1, b, p);
    CostWithout(ws, s, q);
    CostWithout(w1, s1, p);
    Append(s2, w2, b, l - 1, ws[p] + ws[q]);
    OneMore(ws[p], ws[q], ws[p] + ws[q], l - 1);
  }

  lemma Append(s: seq<nat>, w: seq<nat>, b: nat, l: nat, x: nat)
    requires |s| == |w| && AllAtMost(s, b) && l <= b
    ensures AllAtMost(s + [l], b) && Kraft(s + [l], b) == Kraft(s, b) + Pow2(b - l)
    ensures Cost(w + [x], s + [l]) == Cost(w, s) + x * l
  {
    assert (s + [l])[..|s|] == s && (w + [x])[..|w|] == w;
  }

  /** What remains to merge after t merges: leaves first, then internal nodes. */
  ghost function Remaining(m: MergeTrace, t: nat): seq<nat>
    requires m.Complete() && t <= |m.w|
  {
    RcMonotone(m, t, |m.w|);
    RcMonotone(m, t, t);
    m.keys[m.Lc(t)..] + m.w[m.rc[t]..t]
  }

  lemma {:induction false} MergesOptimal(m: MergeTrace, t: nat)
    requires m.Complete() && t <= |m.w|
    ensures CostsAtLeast(Remaining(m, t), SumRange(m.w, t, |m.w|))
    decreases |m.w| - t
  {
    if t < |m.w| {
      MergesOptimal(m, t + 1);
      var p, q := MergePositions(m, t);
      MergeBound(Remaining(m, t), p, q, SumRange(m.w, t + 1, |m.w|));
    }
  }

  /** Merge t joins two lightest items of what remains. */
  lemma MergePositions(m: MergeTrace, t: nat) returns (p: nat, q: nat)
    requires m.Complete() && t < |m.w|
    ensures var ws := Remaining(m, t);
            && p < q < |ws| && ws[p] + ws[q] == m.w[t]
            && (forall i :: 0 <= i < |ws| && i != p && i != q ==> ws[p] <= ws[i] && ws[q] <= ws[i])
            && MergedWeights(ws, p, q) == Remaining(m, t + 1)
  {
    assert m.ShapeAt(t);
    RcMonotone(m, t, t);
    var k, taken := |m.keys| - m.Lc(t), m.rc[t + 1] - m.rc[t];
    p, q := if taken == 2 then k else 0, if taken == 0 then 1 else if taken == 1 then k else k + 1;
    RemainingNext(m, t, taken);
    DropFronts(m.keys[m.Lc(t)..], m.w[m.rc[t]..t], taken, p, q);
    MergeMinimal(m, t, taken, p, q);
  }

  lemma RemainingAt(m: MergeTrace, t: nat)
    requires m.Complete() && t <= |m.w|
    ensures var ws, leaf, k := Remaining(m, t), m.Lc(t), |m.keys| - m.Lc(t);
            && 0 <= leaf <= |m.keys| && m.rc[t] <= t && |ws| == k + t - m.rc[t]
            && (forall i :: 0 <= i < k ==> ws[i] == m.keys[leaf + i])
            && (forall i :: k <= i < |ws| ==> ws[i] == m.w[m.rc[t] + i - k])
  {
    RcMonotone(m, t, |m.w|);
    RcMonotone(m, t, t);
  }

  lemma MergeMinimal(m: MergeTrace, t: nat, taken: nat, p: nat, q: nat)
    requires m.Complete() && t < |m.w| && m.rc[t + 1] == m.rc[t] + taken && taken <= 2 && m.Lc(t) >= 0
    requires m.Lc(t) + 2 - taken <= |m.keys| && m.rc[t] + taken <= t
    requires p == if taken == 2 then |m.keys| - m.Lc(t) else 0
    requires q == if taken == 0 then 1 else if taken == 1 then |m.keys| - m.Lc(t) else |m.keys| - m.Lc(t) + 1
    ensures var ws := Remaining(m, t);
            && p < q < |ws| && ws[p] + ws[q] == m.w[t]
            && (forall i :: 0 <= i < |ws| && i != p && i != q ==> ws[p] <= ws[i] && ws[q] <= ws[i])
  {
    hide Remaining;
    var ws := Remaining(m, t);
    assert m.WeightAt(t) && m.GreedyAt(t);
    var leaf, root, k := m.Lc(t), m.rc[t], |m.keys| - m.Lc(t);
    RemainingAt(m, t);
    if taken == 0 {
      SumOfTwo(m.keys, leaf);
    } else if taken == 1 {
      SumOfOne(m.keys, leaf);
      SumOfOne(m.w, root);
    } else {
      SumOfTwo(m.w, root);
    }
    assert ws[p] <= m.mx[t] && ws[q] <= m.mx[t];
  }

  lemma DropFronts(keys: seq<nat>, w: seq<nat>, taken: nat, p: nat, q: nat)
    requires taken <= 2 && 2 - taken <= |keys| && taken <= |w|
    requires p == if taken == 2 then |keys| else 0
    requires q == if taken == 0 then 1 else if taken == 1 then |keys| else |keys| + 1
    ensures p < q < |keys + w| && Without(Without(keys + w, q), p) == keys[2 - taken..] + w[taken..]
  {
    var u := Without(Without(keys + w, q), p);
    var v := keys[2 - taken..] + w[taken..];
    assert |u| == |v|;
    assert forall i :: 0 <= i < |u| ==> u[i] == v[i];
  }

  lemma RemainingNext(m: MergeTrace, t: nat, taken: nat)
    requires m.Complete() && t < |m.w| && m.ShapeAt(t) && m.rc[t + 1] == m.rc[t] + taken && m.Lc(t) >= 0
    ensures taken <= 2 && m.rc[t] + taken <= t && m.Lc(t) + 2 - taken <= |m.keys|
    ensures Remaining(m, t + 1) == m.keys[m.Lc(t)..][2 - taken..] + m.w[m.rc[t]..t][taken..] + [m.w[t]]
  {
    RcMonotone(m, t + 1, |m.w|);
    assert m.keys[m.Lc(t)..][2 - taken..] == m.keys[m.Lc(t + 1)..];
    assert m.w[m.rc[t]..t][taken..] == m.w[m.rc[t + 1]..t];
    assert m.w[m.rc[t + 1]..t + 1] == m.w[m.rc[t + 1]..t] + [m.w[t]];
  }

  /** The code lengths are optimal: no lengths with Kraft sum at most 1 cost less. */
  lemma Optimal(m: MergeTrace, d: seq<nat>, lens: seq<nat>, others: seq<nat>, b: nat)
    requires TreeLengths(m, d, lens)
    requires |others| == |m.keys| && Feasible(others, b)
    ensures Cost(m.keys, lens) <= Cost(m.keys, others)
  {
    CostOfMerges(m, d, lens);
    MergesOptimal(m, 0);
    assert Remaining(m, 0) == m.keys;
  }
}
