/** Canonical Huffman codes: section 3.2.2 of RFC 1951.
    A code is given by the code length of every symbol; 0 marks an unused symbol. */
module CanonicalCode {
  import opened Options
  import opened Bits

  /** How many symbols have code length l. */
  function Count(lens: seq<nat>, l: nat): nat
  {
    if |lens| == 0 then 0
    else Count(lens[..|lens| - 1], l) + if lens[|lens| - 1] == l then 1 else 0
  }

  /** The smallest code of length l: step 2 of section 3.2.2. */
  function FirstCode(lens: seq<nat>, l: nat): nat
  {
    if l <= 1 then 0 else 2 * (FirstCode(lens, l - 1) + Count(lens, l - 1))
  }

  /** The code of symbol s: codes of equal length are consecutive, in symbol order. */
  function Code(lens: seq<nat>, s: nat): nat
    requires s < |lens|
  {
    FirstCode(lens, lens[s]) + Count(lens[..s], lens[s])
  }

  /** The code of s as it travels: most significant bit first. */
  function CodeBits(lens: seq<nat>, s: nat): (r: seq<bool>)
    requires s < |lens|
    ensures |r| == lens[s]
  {
    MsbBits(Code(lens, s), lens[s])
  }

  /** 2^b times the Kraft sum over lengths 1..l. */
  function KraftUpTo(lens: seq<nat>, l: nat, b: nat): nat
    requires l <= b
  {
    if l == 0 then 0 else KraftUpTo(lens, l - 1, b) + Count(lens, l) * Pow2(b - l)
  }

  /** The lengths are at most b and can belong to a prefix code. */
  ghost predicate Decodable(lens: seq<nat>, b: nat) {
    (forall s :: 0 <= s < |lens| ==> lens[s] <= b) && KraftUpTo(lens, b, b) <= Pow2(b)
  }

  ghost predicate AtMostOne(lens: seq<nat>) {
    forall s, t :: 0 <= s < |lens| && 0 <= t < |lens| && lens[s] > 0 && lens[t] > 0 ==> s == t
  }

  /** The code uses up the code space, or has a single code or none. */
  ghost predicate Full(lens: seq<nat>, b: nat) {
    KraftUpTo(lens, b, b) == Pow2(b) || AtMostOne(lens)
  }

  /** What a strict decoder takes for the lengths of a code: neither overfull nor incomplete. */
  ghost predicate Accepted(lens: seq<nat>, b: nat) {
    Decodable(lens, b) && Full(lens, b)
  }

  lemma {:induction false} CountPrefix(lens: seq<nat>, s: nat, l: nat)
    requires s <= |lens|
    ensures Count(lens[..s], l) <= Count(lens, l)
    decreases |lens|
  {
    if s < |lens| {
      CountPrefix(lens[..|lens| - 1], s, l);
      assert lens[..|lens| - 1][..s] == lens[..s];
    } else {
      assert lens[..s] == lens;
    }
  }

  lemma CountBelow(lens: seq<nat>, s: nat, t: nat)
    requires s < t <= |lens|
    ensures Count(lens[..s], lens[s]) + 1 <= Count(lens[..t], lens[s])
  {
    CountPrefix(lens[..t], s + 1, lens[s]);
    assert lens[..t][..s + 1] == lens[..s + 1];
    assert lens[..s + 1][..s] == lens[..s];
  }

  lemma {:induction false} KraftMonotone(lens: seq<nat>, l: nat, k: nat, b: nat)
    requires l <= k <= b
    ensures KraftUpTo(lens, l, b) <= KraftUpTo(lens, k, b)
  {
    if l < k {
      KraftMonotone(lens, l, k - 1, b);
    }
  }

  /** The codes up to length l fill the code space from its bottom. */
  lemma {:induction false} CodesFillSpace(lens: seq<nat>, l: nat, b: nat)
    requires 1 <= l <= b
    ensures (FirstCode(lens, l) + Count(lens, l)) * Pow2(b - l) == KraftUpTo(lens, l, b)
  {
    if l > 1 {
      CodesFillSpace(lens, l - 1, b);
      DoubleAndAdd(FirstCode(lens, l - 1) + Count(lens, l - 1), Count(lens, l), Pow2(b - l));
    } else {
      assert KraftUpTo(lens, 1, b) == KraftUpTo(lens, 0, b) + Count(lens, 1) * Pow2(b - 1);
    }
  }

  lemma DoubleAndAdd(x: nat, y: nat, u: nat)
    ensures (2 * x + y) * u == x * (2 * u) + y * u
  {
  }

  lemma CodeFits(lens: seq<nat>, s: nat, b: nat)
    requires Decodable(lens, b) && s < |lens| && lens[s] > 0
    ensures Code(lens, s) < FirstCode(lens, lens[s]) + Count(lens, lens[s]) <= Pow2(lens[s])
  {
    var l := lens[s];
    CountBelow(lens, s, |lens|);
    assert lens[..|lens|] == lens;
    CodesFillSpace(lens, l, b);
    KraftMonotone(lens, l, b, b);
    Pow2Sum(l, b - l);
    ScaleDown(FirstCode(lens, l) + Count(lens, l), Pow2(l), Pow2(b - l));
  }

  lemma ScaleDown(x: nat, y: nat, u: nat)
    requires u > 0 && x * u <= y * u
    ensures x <= y
  {
    assert (y - x) * u == y * u - x * u;
  }

  /** Codes of length l + k start past every code of length l extended by k bits. */
  lemma {:induction false} LongerCodesAbove(lens: seq<nat>, l: nat, k: nat)
    requires l >= 1 && k >= 1
    ensures FirstCode(lens, l + k) >= (FirstCode(lens, l) + Count(lens, l)) * Pow2(k)
  {
    var x := FirstCode(lens, l) + Count(lens, l);
    NextFirst(lens, l + k - 1);
    ScaleUp(x, k);
    hide *;
    if k > 1 {
      LongerCodesAbove(lens, l, k - 1);
    } else {
      ScaleNone(x);
    }
  }

  lemma NextFirst(lens: seq<nat>, l: nat)
    requires l >= 1
    ensures FirstCode(lens, l + 1) == 2 * (FirstCode(lens, l) + Count(lens, l))
  {
    hide Count;
  }

  lemma ScaleUp(x: nat, k: nat)
    requires k >= 1
    ensures x * Pow2(k) == 2 * (x * Pow2(k - 1))
  {
  }

  lemma ScaleNone(x: nat)
    ensures x * Pow2(0) == x
  {
  }

  /** No code is a prefix of another. */
  lemma PrefixFree(lens: seq<nat>, b: nat, s: nat, t: nat)
    requires Decodable(lens, b) && s < |lens| && t < |lens| && lens[s] > 0 && lens[t] > 0
    requires CodeBits(lens, s) <= CodeBits(lens, t)
    ensures s == t
  {
    var k, n := lens[s], lens[t] - lens[s];
    CodeFits(lens, s, b);
    CodeFits(lens, t, b);
    if n == 0 {
      MsbInjective(Code(lens, s), Code(lens, t), k);
      if s < t {
        CountBelow(lens, s, t);
      } else if t < s {
        CountBelow(lens, t, s);
      }
    } else {
      LongerCodesAbove(lens, k, n);
      var x := FirstCode(lens, k) + Count(lens, k);
      Pow2Sum(k, n);
      ShrBounds(Code(lens, t), n, x, Pow2(k));
      MsbPrefix(Code(lens, t), k, n);
      MsbInjective(Code(lens, s), Shr(Code(lens, t), n), k);
    }
  }

  // ---- decoding ----

  ghost predicate CodeAt(lens: seq<nat>, s: nat, bits: seq<bool>, pos: nat) {
    && s < |lens| && lens[s] > 0 && pos + lens[s] <= |bits|
    && bits[pos..pos + lens[s]] == CodeBits(lens, s)
  }

  /** The symbol whose code starts at pos, if there is one. */
  ghost function DecodeSymbol(lens: seq<nat>, bits: seq<bool>, pos: nat): (r: Option<nat>)
    ensures r.Some? ==> CodeAt(lens, r.value, bits, pos)
  {
    if exists s: nat :: CodeAt(lens, s, bits, pos) then
      var s: nat :| CodeAt(lens, s, bits, pos);
      Some(s)
    else None
  }

  /** Decoding is unique: whatever follows, the code of s decodes to s. */
  lemma DecodeCode(lens: seq<nat>, b: nat, s: nat, bits: seq<bool>, pos: nat)
    requires Decodable(lens, b) && CodeAt(lens, s, bits, pos)
    ensures DecodeSymbol(lens, bits, pos) == Some(s)
  {
    var t := DecodeSymbol(lens, bits, pos).value;
    if lens[s] <= lens[t] {
      assert CodeBits(lens, s) == CodeBits(lens, t)[..lens[s]];
      PrefixFree(lens, b, s, t);
    } else {
      assert CodeBits(lens, t) == CodeBits(lens, s)[..lens[t]];
      PrefixFree(lens, b, t, s);
    }
  }
}
