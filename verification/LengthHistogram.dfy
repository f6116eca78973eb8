/** How many codes there are of each length, and what that says about the lengths. */
module LengthHistogram {
  import opened Bits
  import opened CanonicalCode
  import HO = HuffmanOptimality
  import LL = LengthLimit

  ghost function HistOf(lens: seq<nat>): (h: seq<nat>)
    ensures |h| == 33 && forall l :: 0 <= l < 33 ==> h[l] == Count(lens, l)
  {
    seq(33, l requires 0 <= l < 33 => Count(lens, l))
  }

  lemma {:induction false} HistOfLengths(lens: seq<nat>, b: nat)
    requires b <= 32 && HO.AllAtMost(lens, b) && forall i :: 0 <= i < |lens| ==> lens[i] >= 1
    ensures LL.HistKraft(HistOf(lens), b, b) == HO.Kraft(lens, b)
    ensures LL.HistCount(HistOf(lens), 0, b) == |lens|
  {
    if |lens| == 0 {
      HistOfNothing(HistOf(lens), b, b);
    } else {
      var k := |lens| - 1;
      HistOfLengths(lens[..k], b);
      var h, h', l := HistOf(lens[..k]), HistOf(lens), lens[k];
      assert h' == h[l := h[l] + 1];
      LL.HistKraftUpdate(h, b, b, l, h[l] + 1);
      LL.HistCountUpdate(h, 0, b, l, h[l] + 1);
      OneMore(h[l], Pow2(b - l));
    }
  }

  lemma OneMore(n: nat, u: nat)
    ensures (n + 1) * u - n * u == u
  {
  }

  lemma {:induction false} HistOfNothing(h: seq<nat>, l: nat, b: nat)
    requires l <= b && l < |h| && forall i :: 0 <= i < |h| ==> h[i] == 0
    ensures LL.HistKraft(h, l, b) == 0 && LL.HistCount(h, 0, l) == 0
  {
    if l == 0 {
    } else {
      HistOfNothing(h, l - 1, b);
    }
  }

  lemma {:induction false} HistKraftIsKraft(num: seq<nat>, lens: seq<nat>, l: nat, b: nat)
    requires l <= b && l < |num| && forall i :: 1 <= i <= l ==> num[i] == Count(lens, i)
    ensures LL.HistKraft(num, l, b) == KraftUpTo(lens, l, b)
  {
    if l == 0 {
    } else {
      HistKraftIsKraft(num, lens, l - 1, b);
    }
  }

  lemma {:induction false} CountUpdate(lens: seq<nat>, s: nat, v: nat, l: nat)
    requires s < |lens|
    ensures Count(lens[s := v], l) == Count(lens, l) - (if lens[s] == l then 1 else 0) + if v == l then 1 else 0
  {
    var k := |lens| - 1;
    if s < k {
      CountUpdate(lens[..k], s, v, l);
      assert lens[s := v][..k] == lens[..k][s := v];
    } else {
      assert lens[s := v][..k] == lens[..k];
    }
  }

  lemma {:induction false} CountZeros(lens: seq<nat>, l: nat)
    requires l > 0 && forall s :: 0 <= s < |lens| ==> lens[s] == 0
    ensures Count(lens, l) == 0
  {
    if |lens| == 0 {
    } else {
      CountZeros(lens[..|lens| - 1], l);
    }
  }
}
