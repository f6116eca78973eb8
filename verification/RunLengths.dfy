/** The tokens the compressor makes when it only looks for runs (TDEFL_RLE_MATCHES): a function of the data. */
module RunLengths {
  import opened Bits
  import opened LzTokens
  import W = Window

  /** How many of the bytes from p on, max at most, repeat the byte before p. */
  function RunLength(h: seq<byte>, p: nat, max: nat): (n: nat)
    requires 0 < p && p + max <= |h|
    ensures n <= max
    decreases max
  {
    if max == 0 || h[p] != h[p - 1] then 0 else 1 + RunLength(h, p + 1, max - 1)
  }

  /** The longest match at distance 1 is the run. */
  lemma {:induction false} RunIs(h: seq<byte>, p: nat, max: nat, len: nat)
    requires 0 < p && p + max <= |h| && len <= max && W.IsMatch(h, p, 1, len)
    requires len < max ==> h[p + len] != h[p - 1]
    ensures RunLength(h, p, max) == len
    decreases max
  {
    if len > 0 {
      MatchByte(h, p, len, 0);
      assert h[p..p + len][1..] == h[p + 1..p + len] && h[p - 1..p - 1 + len][1..] == h[p..p - 1 + len];
      RunIs(h, p + 1, max - 1, len - 1);
    }
  }

  lemma MatchByte(h: seq<byte>, p: nat, len: nat, i: nat)
    requires W.IsMatch(h, p, 1, len) && i < len
    ensures h[p + i] == h[p - 1 + i]
  {
    assert h[p - 1..p - 1 + len][i] == h[p..p + len][i];
  }

  lemma {:induction false} RunOfPrefix(h: seq<byte>, data: seq<byte>, p: nat, max: nat)
    requires 0 < p && p + max <= |h| && h <= data
    ensures RunLength(h, p, max) == RunLength(data, p, max)
    decreases max
  {
    if max > 0 {
      RunOfPrefix(h, data, p + 1, max - 1);
    }
  }

  lemma {:induction false} WholeRun(h: seq<byte>, p: nat, max: nat)
    requires 0 < p && p + max <= |h| && forall i :: p <= i < p + max ==> h[i] == h[p - 1]
    ensures RunLength(h, p, max) == max
    decreases max
  {
    if max > 0 {
      WholeRun(h, p + 1, max - 1);
    }
  }

  /** A run is sent as a match if it is long enough; the parser drops it at a position one past a multiple of the
      window. */
  predicate Worthwhile(p: nat, len: nat, filter: bool) {
    len >= MIN_MATCH_LEN && p % LZ_DICT_SIZE != 1 && !(filter && len <= 5)
  }

  /** The token at p, with this much lookahead. */
  function RunToken(h: seq<byte>, p: nat, ahead: nat, filter: bool): (t: Token)
    requires 0 < ahead <= MAX_MATCH_LEN && p + ahead <= |h|
    ensures 1 <= t.Size() <= ahead
  {
    if p > 0 && Worthwhile(p, RunLength(h, p, ahead), filter) then Match(RunLength(h, p, ahead), 1) else Literal(h[p])
  }

  lemma TokenOfPrefix(h: seq<byte>, data: seq<byte>, p: nat, ahead: nat, filter: bool)
    requires 0 < ahead <= MAX_MATCH_LEN && p + ahead <= |h| && h <= data
    ensures RunToken(h, p, ahead, filter) == RunToken(data, p, ahead, filter)
  {
    if p > 0 {
      RunOfPrefix(h, data, p, ahead);
    }
  }

  /** The lookahead at p once the window is topped up. */
  function Ahead(data: seq<byte>, p: nat): nat
    requires p <= |data|
  {
    if |data| - p <= MAX_MATCH_LEN then |data| - p else MAX_MATCH_LEN
  }

  /** The tokens for the data from p on. */
  function RunTokens(data: seq<byte>, p: nat, filter: bool): seq<Token>
    requires p <= |data|
    decreases |data| - p
  {
    if p == |data| then []
    else
      var t := RunToken(data, p, Ahead(data, p), filter);
      [t] + RunTokens(data, p + t.Size(), filter)
  }

  /** A token more, found in a prefix that has the whole lookahead. */
  lemma NextRun(data: seq<byte>, h: seq<byte>, p: nat, before: seq<Token>, filter: bool)
    requires p < |data| && p + Ahead(data, p) <= |h| && h <= data
    requires before + RunTokens(data, p, filter) == RunTokens(data, 0, filter)
    ensures var t := RunToken(h, p, Ahead(data, p), filter);
            && p + t.Size() <= |data|
            && before + [t] + RunTokens(data, p + t.Size(), filter) == RunTokens(data, 0, filter)
            && before + [t] == RunTokens(data, 0, filter)[..|before| + 1]
  {
    hide *;
    RunTokensStep(data, p, filter);
    TokenOfPrefix(h, data, p, Ahead(data, p), filter);
    var t := RunToken(data, p, Ahead(data, p), filter);
    Regroup(before, t, RunTokens(data, p + t.Size(), filter));
  }

  lemma RunTokensStep(data: seq<byte>, p: nat, filter: bool)
    requires p < |data|
    ensures p + Ahead(data, p) <= |data| && 0 < Ahead(data, p) <= MAX_MATCH_LEN
    ensures var t := RunToken(data, p, Ahead(data, p), filter);
            RunTokens(data, p, filter) == [t] + RunTokens(data, p + t.Size(), filter)
  {
  }

  lemma Regroup<T>(a: seq<T>, x: T, b: seq<T>)
    ensures a + [x] + b == a + ([x] + b) && (a + ([x] + b))[..|a| + 1] == a + [x]
  {
  }
}
