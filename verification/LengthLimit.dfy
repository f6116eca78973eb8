/** tdefl_huffman_enforce_max_code_size: folding over-long code lengths back under a limit
    while keeping the code complete. A histogram num gives the number of codes per length. */
module LengthLimit {
  import opened Bits

  const MAX_SUPPORTED_CODE_SIZE := 32

  /** 2^b times the Kraft sum of the codes of length 1..l. */
  ghost function HistKraft(num: seq<nat>, l: nat, b: nat): nat
    requires l <= b && l < |num|
  {
    if l == 0 then 0 else HistKraft(num, l - 1, b) + num[l] * Pow2(b - l)
  }

  /** The number of codes with a length in lo+1..hi. */
  ghost function HistCount(num: seq<nat>, lo: nat, hi: nat): nat
    requires hi < |num|
  {
    if hi <= lo then 0 else HistCount(num, lo, hi - 1) + num[hi]
  }

  lemma {:induction false} HistKraftUpdate(num: seq<nat>, l: nat, b: nat, i: nat, v: nat)
    requires l <= b && l < |num| && 1 <= i < |num|
    ensures HistKraft(num[i := v], l, b) == HistKraft(num, l, b) + if i <= l
            then v * Pow2(b - i) - num[i] * Pow2(b - i) else 0
  {
    if l == 0 {
    } else {
      HistKraftUpdate(num, l - 1, b, i, v);
    }
  }

  lemma {:induction false} HistCountUpdate(num: seq<nat>, lo: nat, hi: nat, i: nat, v: nat)
    requires hi < |num| && i < |num|
    ensures HistCount(num[i := v], lo, hi) == HistCount(num, lo, hi) + if lo < i <= hi then v - num[i] else 0
  {
    if hi > lo {
      HistCountUpdate(num, lo, hi - 1, i, v);
    }
  }

  lemma {:induction false} HistCountSplit(num: seq<nat>, lo: nat, mid: nat, hi: nat)
    requires lo <= mid <= hi < |num|
    ensures HistCount(num, lo, hi) == HistCount(num, lo, mid) + HistCount(num, mid, hi)
  {
    if mid < hi {
      HistCountSplit(num, lo, mid, hi - 1);
    }
  }

  /** Lengths past `max` weigh little: each is worth at most half of a code of length max. */
  lemma {:induction false} LongCodesWeigh(num: seq<nat>, max: nat, hi: nat, b: nat)
    requires 1 <= max <= hi <= b && hi < |num|
    ensures HistKraft(num, max, b) <= HistKraft(num, hi, b)
    ensures HistKraft(num, hi, b) <= HistKraft(num, max, b) + HistCount(num, max, hi) * Pow2(b - max)
  {
    if max < hi {
      LongCodesWeigh(num, max, hi - 1, b);
      Pow2Monotone(b - hi, b - max);
      AddWeight(HistKraft(num, max, b), HistKraft(num, hi - 1, b), HistCount(num, max, hi - 1), num[hi], Pow2(b - hi),
                Pow2(b - max));
    }
  }

  lemma AddWeight(s: nat, h: nat, c: nat, n: nat, v: nat, u: nat)
    requires v <= u && h <= s + c * u
    ensures h + n * v <= s + (c + n) * u && n * v >= 0
  {
    assert n * v <= n * u;
    assert (c + n) * u == c * u + n * u;
  }

  lemma {:induction false} HistKraftScale(num: seq<nat>, l: nat, b: nat, e: nat)
    requires l <= b && l < |num|
    ensures HistKraft(num, l, b + e) == HistKraft(num, l, b) * Pow2(e)
  {
    if l == 0 {
    } else {
      HistKraftScale(num, l - 1, b, e);
      Pow2Sum(b - l, e);
      Scale(HistKraft(num, l - 1, b), num[l], Pow2(b - l), Pow2(e));
    }
  }

  lemma Scale(x: nat, n: nat, y: nat, u: nat)
    ensures x * u + n * (y * u) == (x + n * y) * u
  {
    assert n * (y * u) == (n * y) * u;
  }

  lemma {:induction false} LongCodesTake(num: seq<nat>, max: nat, hi: nat, b: nat)
    requires 1 <= max <= hi <= b && hi < |num| && HistCount(num, max, hi) > 0
    ensures HistKraft(num, max, b) < HistKraft(num, hi, b)
  {
    hide Pow2;
    if num[hi] > 0 {
      LongCodesWeigh(num, max, hi - 1, b);
      Positive(num[hi], Pow2(b - hi));
    } else {
      LongCodesTake(num, max, hi - 1, b);
    }
  }

  lemma Positive(x: nat, y: nat)
    requires x > 0 && y > 0
    ensures x * y > 0
  {
  }

  /** If there are longer codes, the codes up to max do not fill the code space. */
  lemma ShortCodesLeaveRoom(num: seq<nat>, max: nat)
    requires |num| == MAX_SUPPORTED_CODE_SIZE + 1 && 1 <= max < MAX_SUPPORTED_CODE_SIZE
    requires HistKraft(num, 32, 32) == Pow2(32) && HistCount(num, max, 32) > 0
    ensures HistKraft(num, max, max) < Pow2(max)
  {
    hide HistKraft, HistCount, Pow2;
    var e := 32 - max;
    LongCodesTake(num, max, 32, 32);
    HistKraftScale(num, max, max, e);
    Pow2Sum(max, e);
    if HistKraft(num, max, max) >= Pow2(max) {
      MulBoth(Pow2(max), Pow2(e), HistKraft(num, max, max), Pow2(e));
    }
  }

  /** The histogram after all longer codes were given length max. */
  ghost function Clamped(num: seq<nat>, max: nat): (r: seq<nat>)
    requires |num| == MAX_SUPPORTED_CODE_SIZE + 1 && max <= MAX_SUPPORTED_CODE_SIZE
    ensures |r| == |num|
  {
    num[max := num[max] + HistCount(num, max, 32)]
  }

  /** What clamping makes too much, in units of 2^-max. */
  ghost function Excess(num: seq<nat>, max: nat): int
    requires |num| == MAX_SUPPORTED_CODE_SIZE + 1 && max <= MAX_SUPPORTED_CODE_SIZE
  {
    HistKraft(Clamped(num, max), max, max) - Pow2(max)
  }

  lemma ExcessIs(num: seq<nat>, max: nat)
    requires |num| == MAX_SUPPORTED_CODE_SIZE + 1 && max <= MAX_SUPPORTED_CODE_SIZE
    ensures Excess(num, max) == HistKraft(Clamped(num, max), max, max) - Pow2(max)
  {
  }

  /** Clamping to max overfills the code space, but by no more than the number of codes at max. */
  lemma ClampExcess(num: seq<nat>, max: nat, clamped: seq<nat>)
    requires |num| == MAX_SUPPORTED_CODE_SIZE + 1 && 1 <= max < MAX_SUPPORTED_CODE_SIZE
    requires HistKraft(num, 32, 32) == Pow2(32)
    requires clamped == Clamped(num, max)
    ensures Pow2(max) <= HistKraft(clamped, max, max) <= Pow2(max) + clamped[max]
    ensures Pow2(max) < HistKraft(clamped, max, max) ==> HistKraft(clamped, max, max) < Pow2(max) + clamped[max]
    ensures HistCount(clamped, 0, max) == HistCount(num, 0, 32)
  {
    hide HistKraft, HistCount, Pow2;
    var m := HistCount(num, max, 32);
    ClampedKraft(num, max, m);
    ClampedCount(num, max);
    ShortCodesFit(num, max);
    if m > 0 {
      ShortCodesLeaveRoom(num, max);
    }
  }

  lemma ClampedCount(num: seq<nat>, max: nat)
    requires |num| == MAX_SUPPORTED_CODE_SIZE + 1 && 1 <= max < MAX_SUPPORTED_CODE_SIZE
    ensures HistCount(Clamped(num, max), 0, max) == HistCount(num, 0, 32)
  {
    hide HistCount;
    HistCountUpdate(num, 0, max, max, num[max] + HistCount(num, max, 32));
    HistCountSplit(num, 0, max, 32);
  }

  /** The codes up to max leave room for no more codes of length max than there are longer ones. */
  lemma ShortCodesFit(num: seq<nat>, max: nat)
    requires |num| == MAX_SUPPORTED_CODE_SIZE + 1 && 1 <= max < MAX_SUPPORTED_CODE_SIZE
    requires HistKraft(num, 32, 32) == Pow2(32)
    ensures HistKraft(num, max, max) <= Pow2(max) <= HistKraft(num, max, max) + HistCount(num, max, 32)
  {
    var e := 32 - max;
    LongCodesWeigh(num, max, 32, 32);
    HistKraftScale(num, max, max, e);
    Pow2Sum(max, e);
    Bracket(HistKraft(num, max, max), HistCount(num, max, 32), Pow2(max), Pow2(e));
  }

  lemma ClampedKraft(num: seq<nat>, max: nat, m: nat)
    requires 1 <= max < |num|
    ensures HistKraft(num[max := num[max] + m], max, max) == HistKraft(num, max, max) + m
  {
    HistKraftUpdate(num, max, max, max, num[max] + m);
    assert Pow2(0) == 1;
  }

  lemma Bracket(s: nat, m: nat, p: nat, u: nat)
    requires u > 0 && s * u <= p * u <= s * u + m * u
    ensures s <= p <= s + m
  {
    ScaleDown(s, p, u);
    assert s * u + m * u == (s + m) * u;
    ScaleDown(p, s + m, u);
  }

  lemma ScaleDown(x: nat, y: nat, u: nat)
    requires u > 0 && x * u <= y * u
    ensures x <= y
  {
    assert (y - x) * u == y * u - x * u;
  }

  /** If every code has length max, the Kraft sum is just their number. */
  lemma {:induction false} NothingShorter(num: seq<nat>, l: nat, max: nat)
    requires l < max < |num|
    requires forall i :: 1 <= i < max ==> num[i] == 0
    ensures HistKraft(num, l, max) == 0 && HistCount(num, 0, l) == 0
  {
    if l == 0 {
    } else {
      NothingShorter(num, l - 1, max);
    }
  }

  /** Lengthening one code of length i to i + 1 and giving its other half to a code of length max
      lowers the Kraft sum by one unit and keeps the number of codes. */
  lemma Demote(num: seq<nat>, i: nat, max: nat)
    requires 1 <= i < max < |num| && num[i] > 0 && num[max] > 0
    ensures var a := num[max := num[max] - 1];
            var b := a[i := a[i] - 1];
            var c := b[i + 1 := b[i + 1] + 2];
            && HistKraft(c, max, max) == HistKraft(num, max, max) - 1
            && HistCount(c, 0, max) == HistCount(num, 0, max)
            && c[max] >= num[max] - 1
  {
    var a := num[max := num[max] - 1];
    var b := a[i := a[i] - 1];
    var c := b[i + 1 := b[i + 1] + 2];
    HistCountUpdate(num, 0, max, max, num[max] - 1);
    HistCountUpdate(a, 0, max, i, a[i] - 1);
    HistCountUpdate(b, 0, max, i + 1, b[i + 1] + 2);
    KraftAdd(num, max, max, -1);
    KraftAdd(a, i, max, -1);
    KraftAdd(b, i + 1, max, 2);
    assert Pow2(0) == 1 && Pow2(max - i) == 2 * Pow2(max - i - 1);
  }

  /** Adding k codes of length i, k small. */
  lemma KraftAdd(num: seq<nat>, i: nat, max: nat, k: int)
    requires 1 <= i <= max < |num| && num[i] + k >= 0
    ensures k == -1 ==> HistKraft(num[i := num[i] + k], max, max) == HistKraft(num, max, max) - Pow2(max - i)
    ensures k == 2 ==> HistKraft(num[i := num[i] + k], max, max) == HistKraft(num, max, max) + 2 * Pow2(max - i)
  {
    HistKraftUpdate(num, max, max, i, num[i] + k);
    var n, u := num[i], Pow2(max - i);
    assert (n + k) * u == n * u + k * u;
  }

  lemma {:induction false} KraftAtMostCount(num: seq<nat>, l: nat, max: nat)
    requires 1 <= max && l <= max < |num|
    ensures HistKraft(num, l, max) <= HistCount(num, 0, l) * Pow2(max - 1)
  {
    if l == 0 {
    } else {
      KraftAtMostCount(num, l - 1, max);
      Pow2Monotone(max - l, max - 1);
      AddWeight(0, HistKraft(num, l - 1, max), HistCount(num, 0, l - 1), num[l], Pow2(max - l), Pow2(max - 1));
    }
  }

  /** Turns a complete code with lengths up to 32 into a complete code of as many codes with lengths up to maxSize. */
  method EnforceMaxCodeSize(num: array<nat>, codeListLen: nat, maxSize: nat)
    requires num.Length == MAX_SUPPORTED_CODE_SIZE + 1 && 1 <= maxSize <= 15
    requires HistCount(num[..], 0, 32) == codeListLen <= Pow2(maxSize)
    requires codeListLen >= 2 ==> HistKraft(num[..], 32, 32) == Pow2(32)
    modifies num
    ensures codeListLen <= 1 ==> num[..] == old(num[..])
    ensures codeListLen >= 2 ==> HistKraft(num[..], maxSize, maxSize) == Pow2(maxSize)
    ensures codeListLen >= 2 ==> HistCount(num[..], 0, maxSize) == codeListLen
    ensures HistCount(old(num[..]), maxSize, 32) == 0 ==> num[..] == old(num[..])
    ensures codeListLen >= 2 ==> Excess(old(num[..]), maxSize) >= 0
    ensures codeListLen >= 2 ==>
            num[..] == Demotions(Clamped(old(num[..]), maxSize), Excess(old(num[..]), maxSize), maxSize)
  {
    hide HistKraft, HistCount, Pow2, Clamped, Excess, Demoted;
    if codeListLen <= 1 {
      return;
    }
    ghost var before := num[..];
    ExcessIs(before, maxSize);
    Clamp(num, maxSize);
    ClampExcess(before, maxSize, num[..]);
    NothingToLimit(before, maxSize);
    var total := KraftTotal(num, maxSize, codeListLen);
    DemoteExcess(num, total, codeListLen, maxSize);
  }

  /** The last loop: a unit of excess less in every round. */
  method DemoteExcess(num: array<nat>, total0: u32, codeListLen: nat, maxSize: nat)
    requires 1 <= maxSize < num.Length && HistCount(num[..], 0, maxSize) == codeListLen <= Pow2(maxSize)
    requires total0 == HistKraft(num[..], maxSize, maxSize) && Pow2(maxSize) <= total0 <= Pow2(maxSize) + num[maxSize]
    modifies num
    ensures HistKraft(num[..], maxSize, maxSize) == Pow2(maxSize) && HistCount(num[..], 0, maxSize) == codeListLen
    ensures num[..] == Demotions(old(num[..]), total0 as int - Pow2(maxSize), maxSize)
  {
    hide HistKraft, HistCount, Pow2, Demoted;
    ghost var clamped, k: nat := num[..], 0;
    var total := total0;
    while total != Pow2(maxSize)
      invariant total == HistKraft(num[..], maxSize, maxSize) && HistCount(num[..], 0, maxSize) == codeListLen
      invariant Pow2(maxSize) <= total <= Pow2(maxSize) + num[maxSize]
      invariant k + total == total0 && num[..] == Demotions(clamped, k, maxSize)
      decreases total
    {
      ghost var now := num[..];
      ghost var i := DemoteLongest(num, maxSize);
      LongestIs(now, i, maxSize);
      total, k := total - 1, k + 1;
    }
  }

  /** One code of length max less, one of length i less, two of length i + 1 more. */
  function Demoted(num: seq<nat>, i: nat, max: nat): seq<nat>
    requires i + 1 < |num| && max < |num| && num[max] > 0 && i < max && num[i] > 0
  {
    var a := num[max := num[max] - 1];
    var b := a[i := a[i] - 1];
    b[i + 1 := b[i + 1] + 2]
  }

  /** The longest length up to i that has a code, or 0. */
  function LongestUpTo(num: seq<nat>, i: nat): (l: nat)
    requires i < |num|
    ensures l <= i && (forall k :: l < k <= i ==> num[k] == 0) && (l > 0 ==> num[l] > 0)
  {
    if i == 0 || num[i] > 0 then i else LongestUpTo(num, i - 1)
  }

  lemma LongestIs(num: seq<nat>, i: nat, max: nat)
    requires 1 <= i < max < |num| && num[i] > 0 && forall k :: i < k < max ==> num[k] == 0
    ensures LongestUpTo(num, max - 1) == i
  {
  }

  /** The histogram after k rounds of the loop. */
  function Demotions(num: seq<nat>, k: nat, max: nat): (r: seq<nat>)
    requires 0 < max < |num|
    ensures |r| == |num|
  {
    if k == 0 then num
    else
      var before := Demotions(num, k - 1, max);
      var i := LongestUpTo(before, max - 1);
      if i > 0 && before[max] > 0 then Demoted(before, i, max) else before
  }

  /** One round of the loop: there is always a shorter code to demote, and the longest of them is. */
  method DemoteLongest(num: array<nat>, maxSize: nat) returns (ghost i: nat)
    requires 1 <= maxSize < num.Length
    requires Pow2(maxSize) < HistKraft(num[..], maxSize, maxSize) <= Pow2(maxSize) + num[maxSize]
    requires HistCount(num[..], 0, maxSize) <= Pow2(maxSize)
    modifies num
    ensures HistKraft(num[..], maxSize, maxSize) == HistKraft(old(num[..]), maxSize, maxSize) - 1
    ensures HistCount(num[..], 0, maxSize) == HistCount(old(num[..]), 0, maxSize)
    ensures num[maxSize] >= old(num[maxSize]) - 1
    ensures 1 <= i < maxSize && old(num[i]) > 0 && (forall k :: i < k < maxSize ==> old(num[k]) == 0)
    ensures old(num[maxSize]) > 0 && num[..] == Demoted(old(num[..]), i, maxSize)
  {
    ghost var now := num[..];
    SomethingShorter(now, maxSize);
    num[maxSize] := num[maxSize] - 1;
    var j := maxSize - 1;
    while j > 0 && num[j] == 0
      invariant 0 <= j < maxSize && forall k :: j < k < maxSize ==> num[k] == now[k] == 0
    {
      j := j - 1;
    }
    Demote(now, j, maxSize);
    num[j] := num[j] - 1;
    num[j + 1] := num[j + 1] + 2;
    ghost var a := now[maxSize := now[maxSize] - 1];
    ghost var b := a[j := a[j] - 1];
    assert num[..] == b[j + 1 := b[j + 1] + 2];
    i := j;
  }

  /** A complete code that fits the limit already fills the code space exactly. */
  lemma NothingToLimit(num: seq<nat>, max: nat)
    requires |num| == MAX_SUPPORTED_CODE_SIZE + 1 && 1 <= max < MAX_SUPPORTED_CODE_SIZE
             && HistKraft(num, 32, 32) == Pow2(32)
    ensures HistCount(num, max, 32) == 0 ==>
              HistKraft(num, max, max) == Pow2(max) && Clamped(num, max) == num
  {
    hide HistKraft, HistCount, Pow2;
    ShortCodesFit(num, max);
  }

  lemma SomethingShorter(num: seq<nat>, max: nat)
    requires 1 <= max < |num| && HistCount(num, 0, max) <= Pow2(max) < HistKraft(num, max, max)
    ensures exists i :: 1 <= i < max && num[i] > 0
  {
    if forall i :: 1 <= i < max ==> num[i] == 0 {
      NothingShorter(num, max - 1, max);
      assert false;
    }
  }

  method Clamp(num: array<nat>, maxSize: nat)
    requires num.Length == MAX_SUPPORTED_CODE_SIZE + 1 && 1 <= maxSize <= 15
    modifies num
    ensures num[..] == Clamped(old(num[..]), maxSize)
  {
    ghost var before := num[..];
    var i := maxSize + 1;
    while i <= MAX_SUPPORTED_CODE_SIZE
      invariant maxSize + 1 <= i <= MAX_SUPPORTED_CODE_SIZE + 1
      invariant num[..] == before[maxSize := before[maxSize] + HistCount(before, maxSize, i - 1)]
    {
      num[maxSize] := num[maxSize] + num[i];
      i := i + 1;
    }
  }

  lemma TotalFits(num: seq<nat>, max: nat)
    requires 1 <= max <= 15 && max < |num| && HistCount(num, 0, max) <= Pow2(max)
    ensures HistKraft(num, max, max) <= 0x8000 * 0x4000
  {
    KraftAtMostCount(num, max, max);
    Pow2Monotone(max, 15);
    Pow2Monotone(max - 1, 14);
    assert Pow2(15) == 0x8000 && Pow2(14) == 0x4000;
    MulBoth(HistCount(num, 0, max), Pow2(max - 1), 0x8000, 0x4000);
  }

  lemma MulBoth(a: nat, b: nat, c: nat, d: nat)
    requires a <= c && b <= d
    ensures a * b <= c * d
  {
    assert a * b <= c * b <= c * d;
  }

  /** The 32-bit total never wraps. */
  method KraftTotal(num: array<nat>, maxSize: nat, codeListLen: nat) returns (total: u32)
    requires num.Length == MAX_SUPPORTED_CODE_SIZE + 1 && 1 <= maxSize <= 15
    requires HistCount(num[..], 0, maxSize) == codeListLen <= Pow2(maxSize)
    ensures total == HistKraft(num[..], maxSize, maxSize)
  {
    TotalFits(num[..], maxSize);
    total := 0;
    var i := maxSize;
    while i > 0
      invariant 0 <= i <= maxSize
      invariant total + HistKraft(num[..], i, maxSize) == HistKraft(num[..], maxSize, maxSize)
    {
      total := total + num[i] * Pow2(maxSize - i);
      i := i - 1;
    }
  }
}
