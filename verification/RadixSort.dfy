/** tdefl_radix_sort_syms: the two-buffer least-significant-digit radix sort that orders
    symbols by frequency before Huffman code lengths are computed. */
module RadixSort {
  import opened Bits

  datatype SymFreq = SymFreq(key: u16, sym: u16)

  const RADIX := 256

  function Digit(k: u16, pass: nat): (d: nat)
    requires pass < 2
    ensures d < RADIX
  {
    if pass == 0 then k % 256 else k / 256
  }

  /** The elements of s whose digit is d, in order. */
  function WithDigit(s: seq<SymFreq>, pass: nat, d: nat): seq<SymFreq>
    requires pass < 2
  {
    if |s| == 0 then []
    else
      var r := WithDigit(s[..|s| - 1], pass, d);
      if Digit(s[|s| - 1].key, pass) == d then r + [s[|s| - 1]] else r
  }

  /** Buckets 0..d of a distribution by one digit, concatenated. */
  function Buckets(s: seq<SymFreq>, pass: nat, d: nat): seq<SymFreq>
    requires pass < 2
  {
    if d == 0 then [] else Buckets(s, pass, d - 1) + WithDigit(s, pass, d - 1)
  }

  /** The elements of s whose key is k, in order. */
  function WithKey(s: seq<SymFreq>, k: u16): seq<SymFreq>
  {
    if |s| == 0 then []
    else
      var r := WithKey(s[..|s| - 1], k);
      if s[|s| - 1].key == k then r + [s[|s| - 1]] else r
  }

  ghost predicate Ascending(s: seq<SymFreq>)
  {
    forall i, j :: 0 <= i < j < |s| ==> s[i].key <= s[j].key
  }

  /** r is the stable ascending rearrangement of s. */
  ghost predicate StableSortOf(r: seq<SymFreq>, s: seq<SymFreq>)
  {
    && Ascending(r)
    && multiset(r) == multiset(s)
    && (forall k: u16 :: WithKey(r, k) == WithKey(s, k))
  }

  // ---- what one distribution pass does to a sequence ----

  lemma {:induction false} BucketsSnoc(s: seq<SymFreq>, x: SymFreq, pass: nat, d: nat)
    requires pass < 2
    ensures multiset(Buckets(s + [x], pass, d)) ==
            multiset(Buckets(s, pass, d)) + if Digit(x.key, pass) < d then multiset{x} else multiset{}
  {
    if d == 0 {
    } else {
      BucketsSnoc(s, x, pass, d - 1);
      assert (s + [x])[..|s|] == s;
    }
  }

  lemma {:induction false} BucketsPermute(s: seq<SymFreq>, pass: nat)
    requires pass < 2
    ensures multiset(Buckets(s, pass, RADIX)) == multiset(s)
    ensures |Buckets(s, pass, RADIX)| == |s|
  {
    if |s| == 0 {
      BucketsOfNothing(pass, RADIX);
    } else {
      var t, x := s[..|s| - 1], s[|s| - 1];
      BucketsPermute(t, pass);
      BucketsSnoc(t, x, pass, RADIX);
      assert s == t + [x];
    }
    assert |multiset(Buckets(s, pass, RADIX))| == |multiset(s)|;
  }

  lemma {:induction false} BucketsOfNothing(pass: nat, d: nat)
    requires pass < 2
    ensures Buckets([], pass, d) == []
  {
    if d == 0 {
    } else {
      BucketsOfNothing(pass, d - 1);
    }
  }

  lemma {:induction false} WithKeyAppend(a: seq<SymFreq>, b: seq<SymFreq>, k: u16)
    ensures WithKey(a + b, k) == WithKey(a, k) + WithKey(b, k)
  {
    if |b| == 0 {
      assert a + b == a;
    } else {
      assert (a + b)[..|a + b| - 1] == a + b[..|b| - 1];
      WithKeyAppend(a, b[..|b| - 1], k);
    }
  }

  lemma {:induction false} WithKeyOfDigit(s: seq<SymFreq>, pass: nat, d: nat, k: u16)
    requires pass < 2
    ensures WithKey(WithDigit(s, pass, d), k) == if Digit(k, pass) == d then WithKey(s, k) else []
  {
    if |s| == 0 {
    } else {
      var t, x := s[..|s| - 1], s[|s| - 1];
      WithKeyOfDigit(t, pass, d, k);
      if Digit(x.key, pass) == d {
        WithKeyAppend(WithDigit(t, pass, d), [x], k);
      }
    }
  }

  /** A pass never reorders elements with equal keys. */
  lemma {:induction false} BucketsStable(s: seq<SymFreq>, pass: nat, d: nat, k: u16)
    requires pass < 2
    ensures WithKey(Buckets(s, pass, d), k) == if Digit(k, pass) < d then WithKey(s, k) else []
  {
    if d == 0 {
    } else {
      BucketsStable(s, pass, d - 1, k);
      WithKeyAppend(Buckets(s, pass, d - 1), WithDigit(s, pass, d - 1), k);
      WithKeyOfDigit(s, pass, d - 1, k);
    }
  }

  // ---- two passes sort ----

  ghost predicate LowAscending(s: seq<SymFreq>)
  {
    forall i, j :: 0 <= i < j < |s| ==> Digit(s[i].key, 0) <= Digit(s[j].key, 0)
  }

  lemma {:induction false} WithDigitMembers(s: seq<SymFreq>, pass: nat, d: nat)
    requires pass < 2
    ensures forall x :: x in WithDigit(s, pass, d) <==> x in s && Digit(x.key, pass) == d
  {
    if |s| == 0 {
    } else {
      WithDigitMembers(s[..|s| - 1], pass, d);
      assert s == s[..|s| - 1] + [s[|s| - 1]];
    }
  }

  lemma {:induction false} LowPassAscending(s: seq<SymFreq>, d: nat)
    ensures LowAscending(Buckets(s, 0, d))
    ensures forall x :: x in Buckets(s, 0, d) ==> Digit(x.key, 0) < d
  {
    if d == 0 {
    } else {
      LowPassAscending(s, d - 1);
      WithDigitMembers(s, 0, d - 1);
      var a, b := Buckets(s, 0, d - 1), WithDigit(s, 0, d - 1);
      assert forall i :: 0 <= i < |a| ==> a[i] in a;
      assert forall i :: 0 <= i < |b| ==> b[i] in b;
    }
  }

  lemma {:induction false} HighDigitAscending(t: seq<SymFreq>, d: nat)
    requires LowAscending(t)
    ensures Ascending(WithDigit(t, 1, d))
  {
    if |t| == 0 {
    } else {
      var u, x := t[..|t| - 1], t[|t| - 1];
      HighDigitAscending(u, d);
      WithDigitMembers(u, 1, d);
      var w := WithDigit(u, 1, d);
      if Digit(x.key, 1) == d {
        forall i | 0 <= i < |w|
          ensures w[i].key <= x.key
        {
          assert w[i] in u;
        }
      }
    }
  }

  lemma {:induction false} HighPassAscending(t: seq<SymFreq>, d: nat)
    requires LowAscending(t)
    ensures Ascending(Buckets(t, 1, d))
    ensures forall x :: x in Buckets(t, 1, d) ==> Digit(x.key, 1) < d
  {
    if d == 0 {
    } else {
      HighPassAscending(t, d - 1);
      WithDigitMembers(t, 1, d - 1);
      HighDigitAscending(t, d - 1);
      var a, b := Buckets(t, 1, d - 1), WithDigit(t, 1, d - 1);
      forall i, j | 0 <= i < |a| && 0 <= j < |b|
        ensures a[i].key <= b[j].key
      {
        assert a[i] in a && b[j] in b;
      }
    }
  }

  /** Distributing by the low byte and then by the high byte is a stable sort. */
  lemma TwoPassesSort(s: seq<SymFreq>)
    ensures StableSortOf(Buckets(Buckets(s, 0, RADIX), 1, RADIX), s)
  {
    var t := Buckets(s, 0, RADIX);
    LowPassAscending(s, RADIX);
    HighPassAscending(t, RADIX);
    BucketsPermute(s, 0);
    BucketsPermute(t, 1);
    forall k: u16
      ensures WithKey(Buckets(t, 1, RADIX), k) == WithKey(s, k)
    {
      BucketsStable(s, 0, RADIX, k);
      BucketsStable(t, 1, RADIX, k);
    }
  }

  lemma SmallKeysKept(t: seq<SymFreq>, s: seq<SymFreq>)
    requires multiset(t) == multiset(s)
    requires forall i :: 0 <= i < |s| ==> s[i].key < 256
    ensures forall i :: 0 <= i < |t| ==> t[i].key < 256
  {
    forall i | 0 <= i < |t|
      ensures t[i].key < 256
    {
      assert t[i] in multiset(t);
      assert t[i] in s;
    }
  }

  /** One pass is enough when every high byte is zero. */
  lemma OnePassSorts(s: seq<SymFreq>)
    requires forall i :: 0 <= i < |s| ==> s[i].key < 256
    ensures StableSortOf(Buckets(s, 0, RADIX), s)
  {
    var t := Buckets(s, 0, RADIX);
    LowPassAscending(s, RADIX);
    BucketsPermute(s, 0);
    SmallKeysKept(t, s);
    SmallDigits(t);
    hide *;
    forall k: u16
      ensures WithKey(t, k) == WithKey(s, k)
    {
      DigitBound(k, 0);
      BucketsStable(s, 0, RADIX, k);
    }
    StableIs(t, s);
  }

  lemma StableIs(t: seq<SymFreq>, s: seq<SymFreq>)
    requires Ascending(t) && multiset(t) == multiset(s) && forall k: u16 :: WithKey(t, k) == WithKey(s, k)
    ensures StableSortOf(t, s)
  {
  }

  lemma DigitBound(k: u16, pass: nat)
    requires pass < 2
    ensures Digit(k, pass) < RADIX
  {
  }

  lemma SmallDigits(t: seq<SymFreq>)
    requires LowAscending(t) && forall i :: 0 <= i < |t| ==> t[i].key < 256
    ensures Ascending(t)
  {
    forall i, j | 0 <= i < j < |t|
      ensures t[i].key <= t[j].key
    {
      assert Digit(t[i].key, 0) == t[i].key && Digit(t[j].key, 0) == t[j].key;
    }
  }

  // ---- the algorithm ----

  lemma {:induction false} WithDigitPrefix(s: seq<SymFreq>, i: nat, pass: nat, d: nat)
    requires pass < 2 && i <= |s|
    ensures WithDigit(s[..i], pass, d) <= WithDigit(s, pass, d)
    decreases |s|
  {
    if i < |s| {
      WithDigitPrefix(s[..|s| - 1], i, pass, d);
      assert s[..|s| - 1][..i] == s[..i];
    } else {
      assert s[..i] == s;
    }
  }

  lemma {:induction false} BucketsPrefix(s: seq<SymFreq>, pass: nat, c: nat, d: nat)
    requires pass < 2 && c <= d
    ensures Buckets(s, pass, c) <= Buckets(s, pass, d)
  {
    if c < d {
      BucketsPrefix(s, pass, c, d - 1);
    }
  }

  /** Bucket v starts where the buckets before it end, and stays below the next one. */
  lemma BucketBounds(s: seq<SymFreq>, i: nat, pass: nat, v: nat)
    requires pass < 2 && i <= |s| && v < RADIX
    ensures |Buckets(s, pass, v)| + |WithDigit(s[..i], pass, v)| <= |Buckets(s, pass, v + 1)| <= |s|
  {
    WithDigitPrefix(s, i, pass, v);
    BucketsPrefix(s, pass, v + 1, RADIX);
    BucketsPermute(s, pass);
  }

  method Histogram(n: nat, syms: array<SymFreq>) returns (hist: array<nat>)
    requires n <= syms.Length
    ensures fresh(hist) && hist.Length == 2 * RADIX
    ensures forall p, v :: 0 <= p < 2 && 0 <= v < RADIX ==> hist[RADIX * p + v] == |WithDigit(syms[..n], p, v)|
  {
    hist := new nat[2 * RADIX](_ => 0);
    var i := 0;
    while i < n
      invariant 0 <= i <= n
      invariant forall p, v :: 0 <= p < 2 && 0 <= v < RADIX ==> hist[RADIX * p + v] == |WithDigit(syms[..i], p, v)|
    {
      var freq := syms[i].key;
      assert syms[..i + 1][..i] == syms[..i];
      hist[freq % 256] := hist[freq % 256] + 1;
      hist[256 + freq / 256] := hist[256 + freq / 256] + 1;
      i := i + 1;
    }
  }

  lemma NextBucket(s: seq<SymFreq>, pass: nat, v: nat)
    requires pass < 2
    ensures Buckets(s, pass, 0) == [] && |Buckets(s, pass, v + 1)| == |Buckets(s, pass, v)| + |WithDigit(s, pass, v)|
  {
    hide WithDigit;
  }

  method BucketOffsets(hist: array<nat>, pass: nat, ghost s: seq<SymFreq>) returns (offsets: array<nat>)
    requires pass < 2 && hist.Length == 2 * RADIX
    requires forall v :: 0 <= v < RADIX ==> hist[RADIX * pass + v] == |WithDigit(s, pass, v)|
    ensures fresh(offsets) && offsets.Length == RADIX
    ensures forall v :: 0 <= v < RADIX ==> offsets[v] == |Buckets(s, pass, v)|
  {
    hide Buckets, WithDigit;
    NextBucket(s, pass, 0);
    offsets := new nat[RADIX];
    var curOfs := 0;
    var v := 0;
    while v < RADIX
      invariant 0 <= v <= RADIX
      invariant curOfs == |Buckets(s, pass, v)|
      invariant forall u :: 0 <= u < v ==> offsets[u] == |Buckets(s, pass, u)|
    {
      NextBucket(s, pass, v);
      offsets[v] := curOfs;
      curOfs := curOfs + hist[RADIX * pass + v];
      v := v + 1;
    }
  }

  method Distribute(n: nat, cur: array<SymFreq>, next: array<SymFreq>, hist: array<nat>, pass: nat)
    requires pass < 2 && cur != next && n <= cur.Length && n <= next.Length && hist.Length == 2 * RADIX
    requires forall v :: 0 <= v < RADIX ==> hist[RADIX * pass + v] == |WithDigit(cur[..n], pass, v)|
    modifies next
    ensures next[..n] == Buckets(cur[..n], pass, RADIX)
  {
    ghost var s := cur[..n];
    var offsets := BucketOffsets(hist, pass, s);
    NonePlaced(s, pass, offsets[..], next[..]);
    var i := 0;
    while i < n
      invariant 0 <= i <= n && cur[..n] == s
      invariant AllBucketsPlaced(s, i, pass, offsets[..], next[..])
    {
      var d := Digit(cur[i].key, pass);
      ghost var out, ofs := next[..], offsets[..];
      PlacedStep(s, i, pass, ofs, out);
      next[offsets[d]] := cur[i];
      offsets[d] := offsets[d] + 1;
      assert next[..] == out[ofs[d] := s[i]] && offsets[..] == ofs[d := ofs[d] + 1];
      i := i + 1;
    }
    AllPlaced(s, pass, next[..], offsets[..], RADIX);
  }

  /** After i elements, bucket u holds its share of them and its offset points past them. */
  ghost predicate Placed(s: seq<SymFreq>, i: nat, pass: nat, u: nat, offset: nat, out: seq<SymFreq>)
    requires pass < 2 && i <= |s|
  {
    var start := |Buckets(s, pass, u)|;
    && offset == start + |WithDigit(s[..i], pass, u)| <= |out|
    && out[start..offset] == WithDigit(s[..i], pass, u)
  }

  ghost predicate AllBucketsPlaced(s: seq<SymFreq>, i: nat, pass: nat, offsets: seq<nat>, out: seq<SymFreq>)
    requires pass < 2 && i <= |s|
  {
    |offsets| == RADIX && forall u :: 0 <= u < RADIX ==> Placed(s, i, pass, u, offsets[u], out)
  }

  lemma NonePlaced(s: seq<SymFreq>, pass: nat, offsets: seq<nat>, out: seq<SymFreq>)
    requires pass < 2 && |s| <= |out| && |offsets| == RADIX
    requires forall v :: 0 <= v < RADIX ==> offsets[v] == |Buckets(s, pass, v)|
    ensures AllBucketsPlaced(s, 0, pass, offsets, out)
  {
    forall u | 0 <= u < RADIX
      ensures Placed(s, 0, pass, u, offsets[u], out)
    {
      assert s[..0] == [];
      BucketBounds(s, 0, pass, u);
    }
  }

  lemma DigitNext(s: seq<SymFreq>, i: nat, pass: nat, u: nat)
    requires pass < 2 && i < |s|
    ensures WithDigit(s[..i + 1], pass, u) ==
            if u == Digit(s[i].key, pass) then WithDigit(s[..i], pass, u) + [s[i]] else WithDigit(s[..i], pass, u)
  {
    assert s[..i + 1][..i] == s[..i];
  }

  /** The element's place is inside its own bucket. */
  lemma PlaceInRange(s: seq<SymFreq>, i: nat, pass: nat, offset: nat, out: seq<SymFreq>)
    requires pass < 2 && i < |s| <= |out| && Placed(s, i, pass, Digit(s[i].key, pass), offset, out)
    ensures var d := Digit(s[i].key, pass); |Buckets(s, pass, d)| <= offset < |Buckets(s, pass, d + 1)| <= |s|
  {
    hide Buckets, WithDigit, Digit;
    DigitNext(s, i, pass, Digit(s[i].key, pass));
    BucketBounds(s, i + 1, pass, Digit(s[i].key, pass));
  }

  /** The element's own bucket grows by it. */
  lemma PlacedHere(s: seq<SymFreq>, i: nat, pass: nat, offset: nat, out: seq<SymFreq>)
    requires pass < 2 && i < |s| && offset < |out| && Placed(s, i, pass, Digit(s[i].key, pass), offset, out)
    ensures Placed(s, i + 1, pass, Digit(s[i].key, pass), offset + 1, out[offset := s[i]])
  {
    hide Buckets, WithDigit, Digit;
    var d := Digit(s[i].key, pass);
    DigitNext(s, i, pass, d);
    var start := |Buckets(s, pass, d)|;
    assert out[offset := s[i]][start..offset + 1] == out[start..offset] + [s[i]];
  }

  /** Every other bucket stays as it is: it ends before, or starts behind, the bucket of digit d. */
  lemma PlacedElsewhere(s: seq<SymFreq>, i: nat, pass: nat, u: nat, offset: nat, out: seq<SymFreq>, k: nat)
    requires pass < 2 && i < |s| && k < |out| && u < RADIX && u != Digit(s[i].key, pass)
             && Placed(s, i, pass, u, offset, out)
    requires var d := Digit(s[i].key, pass); |Buckets(s, pass, d)| <= k < |Buckets(s, pass, d + 1)|
    ensures Placed(s, i + 1, pass, u, offset, out[k := s[i]])
  {
    hide Buckets, WithDigit, Digit;
    var d := Digit(s[i].key, pass);
    DigitNext(s, i, pass, u);
    BucketBounds(s, i, pass, u);
    if u < d {
      BucketsPrefix(s, pass, u + 1, d);
    } else {
      BucketsPrefix(s, pass, d + 1, u);
    }
    var start := |Buckets(s, pass, u)|;
    assert out[k := s[i]][start..offset] == out[start..offset];
  }

  /** Writing the next element at its bucket's offset leaves every other bucket alone. */
  lemma PlacedStep(s: seq<SymFreq>, i: nat, pass: nat, offsets: seq<nat>, out: seq<SymFreq>)
    requires pass < 2 && i < |s| <= |out| && AllBucketsPlaced(s, i, pass, offsets, out)
    ensures var d := Digit(s[i].key, pass);
            offsets[d] < |s| && AllBucketsPlaced(s, i + 1, pass, offsets[d := offsets[d] + 1], out[offsets[d] := s[i]])
  {
    hide Buckets, WithDigit, Digit, Placed;
    var d := Digit(s[i].key, pass);
    PlaceInRange(s, i, pass, offsets[d], out);
    var out', offsets' := out[offsets[d] := s[i]], offsets[d := offsets[d] + 1];
    forall u | 0 <= u < RADIX
      ensures Placed(s, i + 1, pass, u, offsets'[u], out')
    {
      if u == d {
        PlacedHere(s, i, pass, offsets[d], out);
      } else {
        PlacedElsewhere(s, i, pass, u, offsets[u], out, offsets[d]);
      }
    }
  }

  lemma {:induction false} AllPlaced(s: seq<SymFreq>, pass: nat, out: seq<SymFreq>, offsets: seq<nat>, v: nat)
    requires pass < 2 && v <= RADIX && AllBucketsPlaced(s, |s|, pass, offsets, out)
    ensures |Buckets(s, pass, v)| <= |out| && out[..|Buckets(s, pass, v)|] == Buckets(s, pass, v)
    ensures |Buckets(s, pass, RADIX)| == |s|
  {
    BucketsPermute(s, pass);
    if v == 0 {
    } else {
      AllPlaced(s, pass, out, offsets, v - 1);
      assert Placed(s, |s|, pass, v - 1, offsets[v - 1], out);
      assert s[..|s|] == s;
      var a, b := |Buckets(s, pass, v - 1)|, offsets[v - 1];
      assert out[..b] == out[..a] + out[a..b];
    }
  }

  lemma {:induction false} AllHighBytesZero(s: seq<SymFreq>)
    requires |WithDigit(s, 1, 0)| == |s|
    ensures forall i :: 0 <= i < |s| ==> s[i].key < 256
  {
    if |s| == 0 {
    } else {
      WithDigitLength(s[..|s| - 1]);
      AllHighBytesZero(s[..|s| - 1]);
    }
  }

  lemma {:induction false} WithDigitLength(s: seq<SymFreq>)
    ensures |WithDigit(s, 1, 0)| <= |s|
  {
    if |s| == 0 {
    } else {
      WithDigitLength(s[..|s| - 1]);
    }
  }

  /** Sorts syms0[..n] by key, using syms1 as the second buffer; sorted is whichever buffer holds the result. */
  method RadixSortSyms(n: nat, syms0: array<SymFreq>, syms1: array<SymFreq>) returns (sorted: array<SymFreq>)
    requires syms0 != syms1 && n <= syms0.Length && n <= syms1.Length
    modifies syms0, syms1
    ensures sorted == syms0 || sorted == syms1
    ensures StableSortOf(sorted[..n], old(syms0[..n]))
  {
    ghost var s := syms0[..n];
    var hist := Histogram(n, syms0);
    var totalPasses := 2;
    while totalPasses > 1 && n == hist[(totalPasses - 1) * RADIX]
      invariant 1 <= totalPasses <= 2
      invariant totalPasses == 1 ==> n == hist[RADIX]
    {
      totalPasses := totalPasses - 1;
    }
    var cur, next := syms0, syms1;
    var pass := 0;
    BucketsPermute(s, 0);
    while pass < totalPasses
      invariant 0 <= pass <= totalPasses
      invariant (cur == syms0 && next == syms1) || (cur == syms1 && next == syms0)
      invariant cur[..n] == (if pass == 0 then s else if pass == 1 then Buckets(s, 0, RADIX)
                             else Buckets(Buckets(s, 0, RADIX), 1, RADIX))
      invariant forall p, v :: 0 <= p < 2 && 0 <= v < RADIX ==> hist[RADIX * p + v] == |WithDigit(s, p, v)|
    {
      if pass == 1 {
        forall v | 0 <= v < RADIX
          ensures hist[RADIX * pass + v] == |WithDigit(cur[..n], pass, v)|
        {
          SameDigitCounts(cur[..n], s, 1, v);
        }
      }
      Distribute(n, cur, next, hist, pass);
      cur, next := next, cur;
      pass := pass + 1;
    }
    if totalPasses == 1 {
      assert hist[RADIX * 1 + 0] == |WithDigit(s, 1, 0)|;
      AllHighBytesZero(s);
      OnePassSorts(s);
    } else {
      TwoPassesSort(s);
    }
    sorted := cur;
  }

  /** Rearranging does not change how many elements have a digit. */
  lemma SameDigitCounts(t: seq<SymFreq>, s: seq<SymFreq>, pass: nat, v: nat)
    requires pass < 2 && multiset(t) == multiset(s)
    ensures |WithDigit(t, pass, v)| == |WithDigit(s, pass, v)|
  {
    WithDigitMultiset(t, pass, v);
    WithDigitMultiset(s, pass, v);
    assert multiset(WithDigit(t, pass, v)) == multiset(WithDigit(s, pass, v));
    assert |multiset(WithDigit(t, pass, v))| == |multiset(WithDigit(s, pass, v))|;
  }

  lemma {:induction false} WithDigitMultiset(s: seq<SymFreq>, pass: nat, v: nat)
    requires pass < 2
    ensures forall x :: multiset(WithDigit(s, pass, v))[x] == if Digit(x.key, pass) == v then multiset(s)[x] else 0
  {
    if |s| == 0 {
    } else {
      WithDigitMultiset(s[..|s| - 1], pass, v);
      assert s == s[..|s| - 1] + [s[|s| - 1]];
    }
  }
}
