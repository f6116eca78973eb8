/** tdefl_calculate_minimum_redundancy: Moffat and Katajainen's in-place computation of
    optimal code lengths. One array holds, in turn, the keys, the weights and parent links
    of the internal nodes, their depths, and finally the code lengths.

    The tree the algorithm builds is recorded as a MergeTrace: internal node t merges the
    leaves Lc(t)..Lc(t+1) and the internal nodes rc[t]..rc[t+1], two items in all. */
module MinRedundancy {
  import opened RadixSort

  function SumRange(s: seq<nat>, lo: nat, hi: nat): nat
    requires hi <= |s|
    decreases hi - lo
  {
    if lo >= hi then 0 else s[lo] + SumRange(s, lo + 1, hi)
  }

  function Sum(s: seq<nat>): nat
  {
    SumRange(s, 0, |s|)
  }

  lemma {:induction false} SumSplit(s: seq<nat>, a: nat, b: nat, c: nat)
    requires a <= b <= c <= |s|
    ensures SumRange(s, a, c) == SumRange(s, a, b) + SumRange(s, b, c)
    decreases b - a
  {
    if a < b {
      SumSplit(s, a + 1, b, c);
    }
  }

  lemma {:induction false} SumSame(s: seq<nat>, t: seq<nat>, lo: nat, hi: nat)
    requires hi <= |s| && hi <= |t|
    requires forall i :: lo <= i < hi ==> s[i] == t[i]
    ensures SumRange(s, lo, hi) == SumRange(t, lo, hi)
    decreases hi - lo
  {
    if lo < hi {
      SumSame(s, t, lo + 1, hi);
    }
  }

  lemma {:induction false} SumAtLeast(s: seq<nat>, lo: nat, hi: nat, i: nat)
    requires lo <= i < hi <= |s|
    ensures SumRange(s, lo, hi) >= s[i]
    decreases hi - lo
  {
    if lo < i {
      SumAtLeast(s, lo + 1, hi, i);
    }
  }

  lemma {:induction false} SumOfPositive(s: seq<nat>, lo: nat, hi: nat)
    requires lo <= hi <= |s| && forall i :: lo <= i < hi ==> s[i] > 0
    ensures SumRange(s, lo, hi) >= hi - lo
    decreases hi - lo
  {
    if lo < hi {
      SumOfPositive(s, lo + 1, hi);
    }
  }

  // ---- the tree ----

  datatype MergeTrace = MergeTrace(keys: seq<nat>, rc: seq<nat>, w: seq<nat>, mx: seq<nat>) {
    /** How many leaves the nodes before t consumed. */
    function Lc(t: nat): int
      requires t < |rc|
    {
      2 * t - rc[t]
    }

    ghost predicate Shape() {
      && |rc| == |w| + 1 && |mx| == |w| && rc[0] == 0
      && (forall t :: 0 <= t < |w| ==> ShapeAt(t))
    }

    /** A node consumes two items, and only nodes made before it. */
    ghost predicate ShapeAt(t: nat)
      requires t < |w| && |rc| == |w| + 1
    {
      rc[t] <= rc[t + 1] <= rc[t] + 2 && rc[t + 1] <= t && Lc(t + 1) <= |keys|
    }

    ghost predicate WeightAt(t: nat)
      requires Shape() && t < |w|
    {
      0 <= Lc(t) <= Lc(t + 1) <= |keys| && rc[t + 1] <= |w|
      && w[t] == SumRange(keys, Lc(t), Lc(t + 1)) + SumRange(w, rc[t], rc[t + 1])
    }

    /** Node t merges the two smallest items there were: mx[t] is the larger one, and
        everything not consumed by then weighs at least as much. */
    ghost predicate GreedyAt(t: nat)
      requires Shape() && t < |w|
    {
      && mx[t] <= w[t] <= 2 * mx[t]
      && (forall i :: Lc(t) <= i < Lc(t + 1) && 0 <= i < |keys| ==> keys[i] <= mx[t])
      && (forall j :: rc[t] <= j < rc[t + 1] && j < |w| ==> w[j] <= mx[t])
      && (forall i :: Lc(t + 1) <= i < |keys| && i >= 0 ==> mx[t] <= keys[i])
      && (forall j :: rc[t + 1] <= j < |w| ==> mx[t] <= w[j])
    }

    ghost predicate Ordered() {
      && (forall i :: 0 <= i < |keys| ==> keys[i] > 0)
      && (forall i, j :: 0 <= i < j < |keys| ==> keys[i] <= keys[j])
      && (forall i, j :: 0 <= i < j < |w| ==> w[i] <= w[j])
    }

    ghost predicate Valid() {
      && Shape() && Ordered()
      && (forall t :: 0 <= t < |w| ==> GreedyAt(t))
      && (forall t :: 0 <= t < |w| ==> WeightAt(t))
    }

    /** All leaves have been merged into one tree. */
    ghost predicate Complete() {
      Valid() && |rc| == |keys| && |keys| >= 2 && rc[|keys| - 1] == |keys| - 2
    }
  }

  ghost predicate IsNodeChild(m: MergeTrace, p: nat, j: nat) {
    p + 1 < |m.rc| && m.rc[p] <= j < m.rc[p + 1]
  }

  ghost predicate IsLeafChild(m: MergeTrace, p: nat, i: nat) {
    p + 1 < |m.rc| && m.Lc(p) <= i < m.Lc(p + 1)
  }

  /** d gives the depth of every internal node; the last one is the root. */
  ghost predicate Depths(m: MergeTrace, d: seq<nat>) {
    && |d| == |m.w| && |d| > 0 && d[|d| - 1] == 0
    && (forall p: nat, j: nat :: IsNodeChild(m, p, j) && p < |d| && j < |d| ==> d[j] == d[p] + 1)
  }

  /** lens gives the depth of every leaf. */
  ghost predicate LeafDepths(m: MergeTrace, d: seq<nat>, lens: seq<nat>) {
    && |lens| == |m.keys|
    && (forall p: nat, i: nat :: IsLeafChild(m, p, i) && p < |d| && i < |lens| ==> lens[i] == d[p] + 1)
  }

  lemma {:induction false} RcMonotone(m: MergeTrace, a: nat, b: nat)
    requires m.Shape() && a <= b < |m.rc|
    ensures m.rc[a] <= m.rc[b] && 0 <= m.Lc(a) <= m.Lc(b)
    ensures b > 0 ==> m.rc[b] <= b - 1
    decreases b
  {
    if a < b {
      RcMonotone(m, a, b - 1);
      assert m.ShapeAt(b - 1);
    } else if a > 0 {
      assert m.ShapeAt(a - 1);
    }
  }

  lemma {:induction false} FindNodeParent(m: MergeTrace, t: nat, j: nat) returns (p: nat)
    requires m.Shape() && t < |m.rc| && j < m.rc[t]
    ensures IsNodeChild(m, p, j) && j < p < t
  {
    if m.rc[t - 1] <= j {
      p := t - 1;
      assert m.ShapeAt(p);
    } else {
      p := FindNodeParent(m, t - 1, j);
    }
  }

  lemma {:induction false} FindLeafParent(m: MergeTrace, t: nat, i: nat) returns (p: nat)
    requires m.Shape() && t < |m.rc| && i < m.Lc(t)
    ensures IsLeafChild(m, p, i) && p < t
  {
    if m.Lc(t - 1) <= i {
      p := t - 1;
    } else {
      p := FindLeafParent(m, t - 1, i);
    }
  }

  // ---- phase 1: merge ----

  ghost function Keys(a: seq<SymFreq>, n: nat): (k: seq<nat>)
    requires n <= |a|
    ensures |k| == n && forall i :: 0 <= i < n ==> k[i] == a[i].key
  {
    seq(n, i requires 0 <= i < n => a[i].key)
  }

  /** What the array holds after |m.w| merges. */
  ghost predicate Holds(m: MergeTrace, a: seq<SymFreq>) {
    && m.Shape() && |m.keys| <= |a|
    && var next := |m.w|;
       var root := m.rc[next];
       && (forall j :: 0 <= j < root && j < |a| ==> a[j].key < next && IsNodeChild(m, a[j].key, j))
       && (forall j :: root <= j < next && j < |a| ==> a[j].key == m.w[j])
       && (forall i :: 2 * next - root <= i < |m.keys| && i >= 0 ==> a[i].key == m.keys[i])
  }

  /** Nothing is lost: the unmerged items still weigh what all keys weigh. */
  ghost predicate Mass(m: MergeTrace)
    requires m.Shape()
  {
    var next := |m.w|;
    && 0 <= m.Lc(next) <= |m.keys| && m.rc[next] <= next
    && SumRange(m.keys, m.Lc(next), |m.keys|) + SumRange(m.w, m.rc[next], next) == Sum(m.keys)
  }

  function Extended(m: MergeTrace, r: nat, x: nat, y: nat): MergeTrace {
    m.(rc := m.rc + [r], w := m.w + [x + y], mx := m.mx + [y])
  }

  /** No remaining item weighs less than v. */
  ghost predicate Remains(m: MergeTrace, leaf: int, root: nat, v: nat) {
    && (forall i :: leaf <= i < |m.keys| && i >= 0 ==> v <= m.keys[i])
    && (forall j :: root <= j < |m.w| ==> v <= m.w[j])
  }

  /** The next merge may take the leaves and nodes up to counts leaf and r, which weigh x + y in all. */
  ghost predicate CanMerge(m: MergeTrace, r: nat, x: nat, y: nat)
    requires m.Shape()
  {
    var next := |m.w|;
    var root, leaf, leaf' := m.rc[next], m.Lc(next), 2 * (next + 1) - r;
    && x <= y && root <= r <= root + 2 && r <= next && 0 <= leaf <= leaf' <= |m.keys|
    && SumRange(m.keys, leaf, leaf') + SumRange(m.w, root, r) == x + y
    && (forall i :: leaf <= i < leaf' ==> m.keys[i] <= y)
    && (forall j :: root <= j < r ==> m.w[j] <= y)
    && Remains(m, leaf', r, y)
    && (next > 0 ==> m.mx[next - 1] <= x)
  }

  lemma SumOfOne(s: seq<nat>, i: nat)
    requires i < |s|
    ensures SumRange(s, i, i + 1) == s[i]
  {
    assert SumRange(s, i + 1, i + 1) == 0;
  }

  lemma SumOfTwo(s: seq<nat>, i: nat)
    requires i + 1 < |s|
    ensures SumRange(s, i, i + 2) == s[i] + s[i + 1]
  {
    SumSplit(s, i, i + 1, i + 2);
    SumOfOne(s, i);
    SumOfOne(s, i + 1);
  }

  lemma TwoLeaves(m: MergeTrace)
    requires m.Shape() && m.Ordered()
    requires var next := |m.w|; var root := m.rc[next]; var leaf := m.Lc(next);
             && root <= next && 0 <= leaf && leaf + 1 < |m.keys|
             && Remains(m, leaf + 2, root, m.keys[leaf + 1])
             && (next > 0 ==> m.mx[next - 1] <= m.keys[leaf])
    ensures var leaf := m.Lc(|m.w|); CanMerge(m, m.rc[|m.w|], m.keys[leaf], m.keys[leaf + 1])
  {
    SumOfTwo(m.keys, m.Lc(|m.w|));
  }

  lemma LeafAndNode(m: MergeTrace, x: nat, y: nat)
    requires m.Shape() && m.Ordered()
    requires var next := |m.w|; var root := m.rc[next]; var leaf := m.Lc(next);
             && root < next && 0 <= leaf < |m.keys| && x <= y
             && ((x == m.keys[leaf] && y == m.w[root]) || (x == m.w[root] && y == m.keys[leaf]))
             && Remains(m, leaf + 1, root + 1, y)
             && (next > 0 ==> m.mx[next - 1] <= x)
    ensures CanMerge(m, m.rc[|m.w|] + 1, x, y)
  {
    SumOfOne(m.keys, m.Lc(|m.w|));
    SumOfOne(m.w, m.rc[|m.w|]);
  }

  lemma TwoNodes(m: MergeTrace)
    requires m.Shape() && m.Ordered()
    requires var next := |m.w|; var root := m.rc[next]; var leaf := m.Lc(next);
             && root + 1 < next && 0 <= leaf <= |m.keys|
             && Remains(m, leaf, root + 2, m.w[root + 1])
             && (next > 0 ==> m.mx[next - 1] <= m.w[root])
    ensures var root := m.rc[|m.w|]; CanMerge(m, root + 2, m.w[root], m.w[root + 1])
  {
    SumOfTwo(m.w, m.rc[|m.w|]);
  }

  /** Merging the two smallest remaining items keeps the trace greedy, its weights ascending and its mass. */
  lemma Extend(m: MergeTrace, r: nat, x: nat, y: nat)
    requires m.Valid() && Mass(m) && CanMerge(m, r, x, y)
    ensures Extended(m, r, x, y).Valid() && Mass(Extended(m, r, x, y))
  {
    var m' := Extended(m, r, x, y);
    ExtendShape(m, r, x, y);
    ExtendOrdered(m, r, x, y);
    forall t | 0 <= t < |m'.w|
      ensures m'.WeightAt(t)
    {
      ExtendWeight(m, r, x, y, t);
    }
    forall t | 0 <= t < |m'.w|
      ensures m'.GreedyAt(t)
    {
      ExtendGreedy(m, r, x, y, t);
    }
    ExtendMass(m, r, x, y);
  }

  lemma ExtendShape(m: MergeTrace, r: nat, x: nat, y: nat)
    requires m.Shape() && CanMerge(m, r, x, y)
    ensures Extended(m, r, x, y).Shape()
  {
    var m' := Extended(m, r, x, y);
    forall t | 0 <= t < |m'.w|
      ensures m'.ShapeAt(t)
    {
      if t < |m.w| {
        assert m.ShapeAt(t);
      }
    }
  }

  lemma ExtendOrdered(m: MergeTrace, r: nat, x: nat, y: nat)
    requires m.Valid() && CanMerge(m, r, x, y)
    ensures Extended(m, r, x, y).Ordered()
  {
    if |m.w| > 0 {
      assert m.GreedyAt(|m.w| - 1);
    }
  }

  lemma ExtendWeight(m: MergeTrace, r: nat, x: nat, y: nat, t: nat)
    requires m.Valid() && CanMerge(m, r, x, y) && Extended(m, r, x, y).Shape() && t <= |m.w|
    ensures Extended(m, r, x, y).WeightAt(t)
  {
    hide SumRange;
    var m' := Extended(m, r, x, y);
    RcMonotone(m', t, t + 1);
    SumSame(m.w, m'.w, m'.rc[t], m'.rc[t + 1]);
    if t < |m.w| {
      assert m.WeightAt(t);
    }
  }

  lemma ExtendGreedy(m: MergeTrace, r: nat, x: nat, y: nat, t: nat)
    requires m.Valid() && CanMerge(m, r, x, y) && Extended(m, r, x, y).Shape() && t <= |m.w|
    ensures Extended(m, r, x, y).GreedyAt(t)
  {
    if t < |m.w| {
      assert m.GreedyAt(t);
      assert m.ShapeAt(t);
      MxAscending(m, t, |m.w| - 1);
    }
  }

  lemma ExtendMass(m: MergeTrace, r: nat, x: nat, y: nat)
    requires m.Shape() && Mass(m) && CanMerge(m, r, x, y) && Extended(m, r, x, y).Shape()
    ensures Mass(Extended(m, r, x, y))
  {
    var m' := Extended(m, r, x, y);
    var next := |m.w|;
    SumSplit(m.keys, m.Lc(next), m'.Lc(next + 1), |m.keys|);
    SumSplit(m.w, m.rc[next], r, next);
    SumSplit(m'.w, r, next, next + 1);
    SumSame(m.w, m'.w, r, next);
    SumOfOne(m'.w, next);
  }

  lemma {:induction false} MxAscending(m: MergeTrace, s: nat, t: nat)
    requires m.Valid() && s <= t < |m.w|
    ensures m.mx[s] <= m.mx[t]
  {
    if s < t {
      assert m.GreedyAt(s) && m.GreedyAt(t) && m.WeightAt(t);
      RcMonotone(m, s + 1, t);
      RcMonotone(m, t, t + 1);
      // node t consumed something, and all of it was still there after node s
      if m.rc[t] < m.rc[t + 1] {
        assert m.w[m.rc[t]] <= m.mx[t];
      } else {
        assert m.keys[m.Lc(t)] <= m.mx[t];
      }
    }
  }

  ghost predicate SameSyms(a: seq<SymFreq>, b: seq<SymFreq>, n: nat) {
    && |a| == |b|
    && (forall i :: 0 <= i < |a| ==> a[i].sym == b[i].sym)
    && (forall i :: n <= i < |a| ==> a[i] == b[i])
  }

  /** How a merge changes the array: links at the consumed nodes, the weight at the new one. */
  ghost predicate Merged(a: seq<SymFreq>, b: seq<SymFreq>, root: nat, r: nat, next: nat, weight: nat) {
    && |a| == |b| && root <= r <= next < |a|
    && (forall j :: root <= j < r ==> b[j].key == next)
    && b[next].key == weight
    && (forall j :: 0 <= j < |a| && !(root <= j < r) && j != next ==> b[j].key == a[j].key)
  }

  lemma HoldsExtended(m: MergeTrace, r: nat, x: nat, y: nat, a: seq<SymFreq>, b: seq<SymFreq>)
    requires m.Shape() && Holds(m, a) && CanMerge(m, r, x, y)
    requires Extended(m, r, x, y).Shape() && Merged(a, b, m.rc[|m.w|], r, |m.w|, x + y)
    ensures Holds(Extended(m, r, x, y), b)
  {
    var m' := Extended(m, r, x, y);
    forall j | 0 <= j < r
      ensures b[j].key < |m'.w| && IsNodeChild(m', b[j].key, j)
    {
      if j < m.rc[|m.w|] {
        assert IsNodeChild(m, a[j].key, j);
      }
    }
    assert m'.ShapeAt(|m.w|);
  }

  ghost function FirstMerge(keys: seq<nat>): MergeTrace
    requires |keys| >= 2
  {
    Extended(MergeTrace(keys, [0], [], []), 0, keys[0], keys[1])
  }

  /** One round of the merging loop on the array alone: take the lighter front twice. */
  method TakeTwo(a: array<SymFreq>, n: nat, next: nat, root0: nat, leaf0: nat, ghost x: nat, ghost y: nat)
    returns (root: nat, leaf: nat)
    requires root0 < next < leaf0 <= n <= a.Length && next <= 0xFFFF && x + y <= 0xFFFF
    requires Front(a[..], n, next, root0, leaf0).0 == x
    requires Front(a[..], n, next, Front(a[..], n, next, root0, leaf0).1, Front(a[..], n, next, root0, leaf0).2).0 == y
    requires CanTake(n, next, Front(a[..], n, next, root0, leaf0).1, Front(a[..], n, next, root0, leaf0).2)
    modifies a
    ensures var f := Front(old(a[..]), n, next, root0, leaf0);
            (y, root, leaf) == Front(old(a[..]), n, next, f.1, f.2)
    ensures Merged(old(a[..]), a[..], root0, root, next, x + y) && SameSyms(old(a[..]), a[..], n)
  {
    root, leaf := root0, leaf0;
    if leaf >= n || a[root].key < a[leaf].key {
      a[next] := a[next].(key := a[root].key);
      a[root] := a[root].(key := next);
      root := root + 1;
    } else {
      a[next] := a[next].(key := a[leaf].key);
      leaf := leaf + 1;
    }
    if leaf >= n || (root < next && a[root].key < a[leaf].key) {
      a[next] := a[next].(key := a[next].key + a[root].key);
      a[root] := a[root].(key := next);
      root := root + 1;
    } else {
      a[next] := a[next].(key := a[next].key + a[leaf].key);
      leaf := leaf + 1;
    }
  }

  ghost predicate CanTake(n: nat, next: nat, root: nat, leaf: nat) {
    root < next || leaf < n
  }

  /** The lighter of the two queue fronts, and the queues without it; a leaf wins a tie. */
  ghost function Front(a: seq<SymFreq>, n: nat, next: nat, root: nat, leaf: nat): (nat, nat, nat)
    requires next < n <= |a|
  {
    if leaf >= n || (root < next && a[root].key < a[leaf].key)
    then (a[if root < next then root else next].key, root + 1, leaf)
    else (a[leaf].key, root, leaf + 1)
  }

  method MergeNext(a: array<SymFreq>, n: nat, next: nat, root0: nat, leaf0: nat, ghost m: MergeTrace)
    returns (root: nat, leaf: nat, ghost m': MergeTrace)
    requires 1 <= next < n - 1 && n <= a.Length && n <= 0xFFFF
    requires |m.keys| == n && m.Valid() && Mass(m) && |m.w| == next && Sum(m.keys) <= 0xFFFF
    requires root0 == m.rc[next] && leaf0 == m.Lc(next)
    requires Holds(m, a[..])
    modifies a
    ensures m'.keys == m.keys && m'.Valid() && Mass(m') && |m'.w| == next + 1
    ensures root == m'.rc[next + 1] && leaf == m'.Lc(next + 1)
    ensures Holds(m', a[..]) && SameSyms(old(a[..]), a[..], n)
  {
    ghost var before := a[..];
    ghost var r, x, y := SmallestTwo(m, before);
    Extend(m, r, x, y);
    m' := Extended(m, r, x, y);
    WeightFits(m');
    root, leaf := TakeTwo(a, n, next, root0, leaf0, x, y);
    HoldsExtended(m, r, x, y, before, a[..]);
  }

  /** The two fronts taken in turn are the two smallest remaining items. */
  lemma SmallestTwo(m: MergeTrace, a: seq<SymFreq>) returns (r: nat, x: nat, y: nat)
    requires m.Valid() && 1 <= |m.w| < |m.keys| - 1 && Holds(m, a)
    ensures CanMerge(m, r, x, y)
    ensures var next, n := |m.w|, |m.keys|;
            && m.rc[next] < next < m.Lc(next) <= n
            && var f := Front(a, n, next, m.rc[next], m.Lc(next));
            && x == f.0 && CanTake(n, next, f.1, f.2)
            && (y, r, 2 * (next + 1) - r) == Front(a, n, next, f.1, f.2)
  {
    FrontsMerge(m, a);
    hide CanMerge, SumRange, Sum, Holds;
    var next, n := |m.w|, |m.keys|;
    assert m.ShapeAt(next - 1);
    var f := Front(a, n, next, m.rc[next], m.Lc(next));
    var g := Front(a, n, next, f.1, f.2);
    x, y, r := f.0, g.0, g.1;
  }

  lemma FrontsMerge(m: MergeTrace, a: seq<SymFreq>)
    requires m.Valid() && 1 <= |m.w| < |m.keys| - 1 && Holds(m, a)
    ensures var next, n := |m.w|, |m.keys|;
            && 0 <= m.Lc(next)
            && var f := Front(a, n, next, m.rc[next], m.Lc(next)); var g := Front(a, n, next, f.1, f.2);
            && CanMerge(m, g.1, f.0, g.0)
  {
    hide CanMerge, SumRange, Sum, m.WeightAt;
    var next, n := |m.w|, |m.keys|;
    var root, leaf := m.rc[next], m.Lc(next);
    assert m.ShapeAt(next - 1);
    assert m.GreedyAt(next - 1);
    var f := Front(a, n, next, root, leaf);
    var g := Front(a, n, next, f.1, f.2);
    if g.1 == root + 2 {
      TwoNodes(m);
    } else if g.1 == root + 1 {
      LeafAndNode(m, f.0, g.0);
    } else {
      TwoLeaves(m);
    }
  }

  lemma FirstMergeValid(keys: seq<nat>, a: seq<SymFreq>)
    requires 2 <= |keys| <= |a| && keys == Keys(a, |keys|)
    requires forall i :: 0 <= i < |keys| ==> keys[i] > 0
    requires forall i, j :: 0 <= i < j < |keys| ==> keys[i] <= keys[j]
    ensures FirstMerge(keys).Valid() && Mass(FirstMerge(keys))
    ensures |keys| <= Sum(keys) && keys[0] + keys[1] <= Sum(keys)
    ensures var m0 := MergeTrace(keys, [0], [], []); m0.Shape() && CanMerge(m0, 0, keys[0], keys[1]) && Holds(m0, a)
  {
    var m0 := MergeTrace(keys, [0], [], []);
    TwoLeaves(m0);
    Extend(m0, 0, keys[0], keys[1]);
    WeightFits(FirstMerge(keys));
    SumOfPositive(keys, 0, |keys|);
  }

  method MergeAll(a: array<SymFreq>, n: nat) returns (ghost m: MergeTrace)
    requires 2 <= n <= a.Length
    requires forall i :: 0 <= i < n ==> a[i].key > 0
    requires forall i, j :: 0 <= i < j < n ==> a[i].key <= a[j].key
    requires Sum(Keys(a[..], n)) <= 0xFFFF
    modifies a
    ensures m.Complete() && m.keys == old(Keys(a[..], n)) && m.w[n - 2] == Sum(m.keys)
    ensures Holds(m, a[..]) && SameSyms(old(a[..]), a[..], n)
  {
    hide Holds, Mass, Sum;
    ghost var keys := Keys(a[..], n);
    ghost var before := a[..];
    FirstMergeValid(keys, before);
    m := FirstMerge(keys);
    a[0] := a[0].(key := a[0].key + a[1].key);
    HoldsExtended(MergeTrace(keys, [0], [], []), 0, keys[0], keys[1], before, a[..]);
    var root, leaf, next := 0, 2, 1;
    while next < n - 1
      invariant 1 <= next <= n - 1 && m.keys == keys && m.Valid() && Mass(m) && |m.w| == next
      invariant root == m.rc[next] && leaf == m.Lc(next)
      invariant Holds(m, a[..]) && SameSyms(before, a[..], n)
    {
      root, leaf, m := MergeNext(a, n, next, root, leaf, m);
      next := next + 1;
    }
    MergedToOne(m);
  }

  lemma MergedToOne(m: MergeTrace)
    requires m.Valid() && Mass(m) && |m.keys| >= 2 && |m.w| == |m.keys| - 1
    ensures m.Complete() && m.w[|m.w| - 1] == Sum(m.keys)
  {
    assert m.ShapeAt(|m.w| - 1);
    SumOfOne(m.w, |m.w| - 1);
  }

  /** No 16-bit weight overflows: every node weighs at most what all keys weigh. */
  lemma WeightFits(m: MergeTrace)
    requires m.Valid() && Mass(m) && |m.w| > 0
    ensures m.w[|m.w| - 1] <= Sum(m.keys)
  {
    assert m.ShapeAt(|m.w| - 1);
    SumAtLeast(m.w, m.rc[|m.w|], |m.w|, |m.w| - 1);
  }

  // ---- phase 2: depths of the internal nodes ----

  lemma ParentUnique(m: MergeTrace, p: nat, q: nat, j: nat)
    requires m.Shape() && IsNodeChild(m, p, j) && IsNodeChild(m, q, j)
    ensures p == q
  {
    if p < q {
      RcMonotone(m, p + 1, q);
    } else if q < p {
      RcMonotone(m, q + 1, p);
    }
  }

  /** Above `from` the array holds depths, at and below it still links to parents. */
  ghost predicate DepthsFrom(m: MergeTrace, a: seq<SymFreq>, from: int)
    requires m.Complete() && |m.keys| <= |a|
  {
    var n := |m.keys|;
    && a[n - 2].key == 0
    && (forall j :: 0 <= j <= from && j < n - 2 ==> IsNodeChild(m, a[j].key, j))
    && (forall j :: 0 <= j < n - 1 && from < j ==> a[j].key <= n - 2 - j)
    && (forall p: nat, j: nat :: IsNodeChild(m, p, j) && from < j && p < n - 1 && j < n - 1 ==>
          a[j].key == a[p].key + 1)
  }

  lemma NodeParentLater(m: MergeTrace, p: nat, j: nat)
    requires m.Shape() && IsNodeChild(m, p, j)
    ensures j < p < |m.w|
  {
    assert m.ShapeAt(p);
  }

  lemma DepthsFromStep(m: MergeTrace, a: seq<SymFreq>, b: seq<SymFreq>, from: nat)
    requires m.Complete() && |m.keys| <= |a| && from < |m.keys| - 2 && DepthsFrom(m, a, from)
    requires |b| == |a| && IsNodeChild(m, a[from].key, from) && a[from].key < |a|
    requires b[from].key == a[a[from].key].key + 1
    requires forall j :: 0 <= j < |a| && j != from ==> b[j].key == a[j].key
    ensures DepthsFrom(m, b, from - 1)
  {
    var n := |m.keys|;
    NodeParentLater(m, a[from].key, from);
    forall p: nat, j: nat | IsNodeChild(m, p, j) && from - 1 < j && p < n - 1 && j < n - 1
      ensures b[j].key == b[p].key + 1
    {
      NodeParentLater(m, p, j);
      if j == from {
        ParentUnique(m, p, a[from].key, from);
      }
    }
  }

  /** Only the root is at depth 0 at first. */
  lemma RootDepth(m: MergeTrace, before: seq<SymFreq>, a: seq<SymFreq>)
    requires m.Complete() && 2 <= |m.keys| <= |before| && Holds(m, before)
             && a == before[|m.keys| - 2 := before[|m.keys| - 2].(key := 0)]
    ensures DepthsFrom(m, a, |m.keys| - 3)
  {
    var n := |m.keys|;
    forall p: nat, j: nat | IsNodeChild(m, p, j) && n - 3 < j && p < n - 1 && j < n - 1
      ensures false
    {
      NodeParentLater(m, p, j);
    }
  }

  /** A node's parent is replaced by its depth: one more than the parent's, which is already there. */
  method WriteDepth(a: array<SymFreq>, n: nat, next: nat, ghost m: MergeTrace, ghost before: seq<SymFreq>)
    requires next < n - 2 && n <= a.Length && n <= 0xFFFF && n == |m.keys| && m.Complete()
    requires DepthsFrom(m, a[..], next) && SameSyms(before, a[..], n)
    modifies a
    ensures DepthsFrom(m, a[..], next - 1) && SameSyms(before, a[..], n)
  {
    hide IsNodeChild;
    ghost var now := a[..];
    assert IsNodeChild(m, now[next].key, next);
    NodeParentLater(m, a[next].key, next);
    a[next] := a[next].(key := a[a[next].key].key + 1);
    DepthsFromStep(m, now, a[..], next);
  }

  method NodeDepths(a: array<SymFreq>, n: nat, ghost m: MergeTrace) returns (ghost d: seq<nat>)
    requires 2 <= n <= a.Length && n <= 0xFFFF && n == |m.keys| && m.Complete() && Holds(m, a[..])
    modifies a
    ensures Depths(m, d) && SameSyms(old(a[..]), a[..], n)
    ensures forall j :: 0 <= j < n - 1 ==> a[j].key == d[j] <= n - 2 - j
  {
    hide IsNodeChild;
    ghost var before := a[..];
    a[n - 2] := a[n - 2].(key := 0);
    RootDepth(m, before, a[..]);
    var next := n - 3;
    while next >= 0
      invariant -1 <= next <= n - 3 && SameSyms(before, a[..], n) && DepthsFrom(m, a[..], next)
    {
      WriteDepth(a, n, next, m, before);
      next := next - 1;
    }
    d := Keys(a[..], n - 1);
    hide SameSyms;
  }

  // ---- phase 3: depths of the leaves ----

  /** rc and Lc, extended by a node above the root whose only child is the root. */
  ghost function R(m: MergeTrace, t: nat): nat
    requires m.Complete() && t <= |m.keys|
  {
    if t == |m.keys| then t - 1 else m.rc[t]
  }

  ghost function L(m: MergeTrace, t: nat): (l: nat)
    requires m.Complete() && t <= |m.keys|
    ensures l <= |m.keys|
  {
    if t == |m.keys| then t else RcMonotone(m, t, |m.keys| - 1); m.Lc(t)
  }

  /** Level `depth` of the tree: the parents in [lo, hi) one level up, their children below lo. */
  ghost predicate Level(m: MergeTrace, d: seq<nat>, depth: nat, lo: nat, hi: nat)
    requires m.Complete() && Depths(m, d)
  {
    && lo <= hi <= |m.keys| && lo <= |d| && R(m, hi) == lo
    && (forall j :: lo <= j < hi && j < |d| ==> d[j] == depth - 1)
    && (forall j :: R(m, lo) <= j < lo ==> d[j] == depth)
    && (forall j :: 0 <= j < R(m, lo) && j < |d| ==> d[j] > depth)
  }

  lemma TopLevel(m: MergeTrace, d: seq<nat>)
    requires m.Complete() && Depths(m, d)
    ensures Level(m, d, 0, |m.keys| - 1, |m.keys|)
  {
    var n := |m.keys|;
    forall j | 0 <= j < n - 2
      ensures d[j] > 0
    {
      var p := FindNodeParent(m, n - 1, j);
    }
  }

  lemma NoLeafBeyond(m: MergeTrace, d: seq<nat>, a: seq<SymFreq>)
    requires m.Complete() && |m.keys| <= |a|
    ensures LensFrom(m, d, a, |m.keys|)
  {
    forall p: nat, i: nat | IsLeafChild(m, p, i)
      ensures i < |m.keys|
    {
      assert m.ShapeAt(p);
    }
  }

  lemma NextLevel(m: MergeTrace, d: seq<nat>, depth: nat, lo: nat, hi: nat)
    requires m.Complete() && Depths(m, d) && Level(m, d, depth, lo, hi) && hi > 0
    ensures R(m, lo) <= lo < hi && (lo > 0 ==> R(m, lo) < lo)
    ensures Level(m, d, depth + 1, R(m, lo), lo)
  {
    RcMonotone(m, lo, lo);
    if hi < |m.keys| {
      RcMonotone(m, hi, hi);
    }
    var r := R(m, lo);
    RcMonotone(m, r, lo);
    forall j | 0 <= j < r
      ensures j < R(m, r) ==> d[j] > depth + 1
      ensures R(m, r) <= j ==> d[j] == depth + 1
    {
      var p := FindNodeParent(m, lo, j);
      if j < R(m, r) {
        if p >= r {
          RcMonotone(m, r, p);
        }
      } else if p < r {
        RcMonotone(m, p + 1, r);
      }
    }
  }

  /** The leaves from `from` on already hold their code lengths. */
  ghost predicate LensFrom(m: MergeTrace, d: seq<nat>, a: seq<SymFreq>, from: int) {
    && |m.keys| <= |a|
    && (forall p: nat, i: nat :: IsLeafChild(m, p, i) && from <= i && p < |d| && i < |a| ==> a[i].key == d[p] + 1)
  }

  lemma LensFromStep(m: MergeTrace, d: seq<nat>, a: seq<SymFreq>, b: seq<SymFreq>, i: nat, depth: nat, lo: nat, hi: nat)
    requires m.Complete() && Depths(m, d) && Level(m, d, depth, lo, hi) && LensFrom(m, d, a, i + 1)
    requires |b| == |a| && L(m, lo) <= i < L(m, hi) && b[i].key == depth
    requires forall k :: 0 <= k < |a| && k != i ==> b[k].key == a[k].key
    ensures LensFrom(m, d, b, i)
  {
    forall p: nat, k: nat | IsLeafChild(m, p, k) && i <= k && p < |d| && k < |b|
      ensures b[k].key == d[p] + 1
    {
      if k == i {
        if p < lo {
          RcMonotone(m, p + 1, lo);
        } else if hi <= p {
          RcMonotone(m, hi, p);
        }
      }
    }
  }

  lemma LeavesOfLevel(m: MergeTrace, d: seq<nat>, depth: nat, lo: nat, hi: nat)
    requires m.Complete() && Depths(m, d) && Level(m, d, depth, lo, hi) && hi > 0
    ensures R(m, lo) <= L(m, lo) <= L(m, hi)
    ensures hi < |m.keys| ==> lo - R(m, lo) + L(m, hi) - L(m, lo) == 2 * (hi - lo)
    ensures hi == |m.keys| ==> lo - R(m, lo) + L(m, hi) - L(m, lo) == 1
    ensures L(m, lo) < L(m, hi) ==> 0 < depth <= |m.keys|
  {
    NextLevel(m, d, depth, lo, hi);
    RcMonotone(m, lo, if hi < |m.keys| then hi else hi - 1);
    if L(m, lo) < L(m, hi) {
      assert d[lo] == depth - 1;
      DepthBelow(m, d, lo);
    }
  }

  lemma {:induction false} DepthBelow(m: MergeTrace, d: seq<nat>, j: nat)
    requires m.Complete() && Depths(m, d) && j < |d|
    ensures d[j] <= |m.keys| - 2 - j
    decreases |d| - j
  {
    if j < |d| - 1 {
      var p := FindNodeParent(m, |m.keys| - 1, j);
      DepthBelow(m, d, p);
    }
  }

  /** Counts one level's internal nodes and writes its leaves' lengths over consumed entries. */
  method WriteLevel(a: array<SymFreq>, n: nat, avbl: nat, root0: int, next0: int, dpth: nat,
                    ghost m: MergeTrace, ghost d: seq<nat>, ghost lo: nat, ghost hi: nat)
    returns (used: nat, root: int, next: int)
    requires 2 <= n <= a.Length && n <= 0xFFFF && n == |m.keys| && m.Complete() && Depths(m, d)
    requires Level(m, d, dpth, lo, hi) && hi > 0 && root0 == lo - 1 && next0 == L(m, hi) - 1
    requires avbl == lo - R(m, lo) + L(m, hi) - L(m, lo)
    requires LensFrom(m, d, a[..], L(m, hi)) && forall j :: 0 <= j < lo ==> a[j].key == d[j]
    modifies a
    ensures used == lo - R(m, lo) && root == R(m, lo) - 1 && next == L(m, lo) - 1
    ensures LensFrom(m, d, a[..], L(m, lo)) && forall j :: 0 <= j < R(m, lo) ==> a[j].key == d[j]
    ensures SameSyms(old(a[..]), a[..], n)
  {
    LeavesOfLevel(m, d, dpth, lo, hi);
    NextLevel(m, d, dpth, lo, hi);
    ghost var before := a[..];
    used, root, next := 0, root0, next0;
    while root >= 0 && a[root].key == dpth
      invariant R(m, lo) - 1 <= root <= lo - 1 && used == lo - 1 - root
      decreases root
    {
      used, root := used + 1, root - 1;
    }
    var left := avbl;
    while left > used
      invariant L(m, lo) - 1 <= next <= L(m, hi) - 1 && left - used == next + 1 - L(m, lo)
      invariant LensFrom(m, d, a[..], next + 1) && forall j :: 0 <= j < R(m, lo) ==> a[j].key == d[j]
      invariant SameSyms(before, a[..], n)
    {
      ghost var now := a[..];
      a[next] := a[next].(key := dpth);
      LensFromStep(m, d, now, a[..], next, dpth, lo, hi);
      next, left := next - 1, left - 1;
    }
  }

  method LeafLengths(a: array<SymFreq>, n: nat, ghost m: MergeTrace, ghost d: seq<nat>)
    requires 2 <= n <= a.Length && n <= 0xFFFF && n == |m.keys| && m.Complete() && Depths(m, d)
    requires forall j :: 0 <= j < n - 1 ==> a[j].key == d[j]
    modifies a
    ensures LeafDepths(m, d, Keys(a[..], n)) && SameSyms(old(a[..]), a[..], n)
  {
    ghost var before := a[..];
    var avbl, dpth, root, next := 1, 0, n - 2, n - 1;
    ghost var lo: nat, hi: nat := n - 1, n;
    TopLevel(m, d);
    NoLeafBeyond(m, d, before);
    while avbl > 0
      invariant Level(m, d, dpth, lo, hi) && root == lo - 1 && next == L(m, hi) - 1
      invariant avbl == lo - R(m, lo) + L(m, hi) - L(m, lo) && (hi == 0 ==> avbl == 0)
      invariant LensFrom(m, d, a[..], L(m, hi)) && forall j :: 0 <= j < lo ==> a[j].key == d[j]
      invariant SameSyms(before, a[..], n)
      decreases hi
    {
      LeavesOfLevel(m, d, dpth, lo, hi);
      NextLevel(m, d, dpth, lo, hi);
      var used;
      used, root, next := WriteLevel(a, n, avbl, root, next, dpth, m, d, lo, hi);
      avbl := 2 * used;
      lo, hi := R(m, lo), lo;
      dpth := dpth + 1;
      if hi > 0 {
        LeavesOfLevel(m, d, dpth, lo, hi);
      }
    }
    if hi > 0 {
      LeavesOfLevel(m, d, dpth, lo, hi);
      NextLevel(m, d, dpth, lo, hi);
    }
  }

  /** The whole computation: keys in, optimal code lengths out, on the same array. */
  method CalculateMinimumRedundancy(a: array<SymFreq>, n: nat)
    returns (ghost m: MergeTrace, ghost d: seq<nat>)
    requires n <= a.Length
    requires forall i :: 0 <= i < n ==> a[i].key > 0
    requires forall i, j :: 0 <= i < j < n ==> a[i].key <= a[j].key
    requires Sum(Keys(a[..], n)) <= 0xFFFF
    modifies a
    ensures SameSyms(old(a[..]), a[..], n)
    ensures n == 1 ==> a[0].key == 1
    ensures n >= 2 ==> m.Complete() && m.keys == old(Keys(a[..], n)) && m.w[n - 2] == Sum(m.keys)
    ensures n >= 2 ==> Depths(m, d) && LeafDepths(m, d, Keys(a[..], n))
  {
    m, d := MergeTrace([], [0], [], []), [];
    if n == 0 {
      return;
    } else if n == 1 {
      a[0] := a[0].(key := 1);
      return;
    }
    SumOfPositive(Keys(a[..], n), 0, n);
    m := MergeAll(a, n);
    d := NodeDepths(a, n, m);
    LeafLengths(a, n, m, d);
  }
}
