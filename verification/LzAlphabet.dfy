/** The symbols matches are coded with: section 3.2.5 of RFC 1951.
    The compressor's lookup tables are given here in closed form. */
module LzAlphabet {
  import opened Bits
  import opened LzTokens

  const END_OF_BLOCK := 256
  const LITLEN_SYMBOLS := 288
  const DIST_SYMBOLS := 32

  /** Symbol and number of extra bits for a match of length m + 3. */
  function LenSym(m: byte): (s: nat)
    ensures 257 <= s <= 285
  {
    if m < 8 then 257 + m
    else if m < 16 then 265 + (m - 8) / 2
    else if m < 32 then 269 + (m - 16) / 4
    else if m < 64 then 273 + (m - 32) / 8
    else if m < 128 then 277 + (m - 64) / 16
    else if m < 255 then 281 + (m - 128) / 32
    else 285
  }

  function LenExtra(m: byte): (e: nat)
    ensures e <= 5
  {
    if m < 8 then 0 else if m < 16 then 1 else if m < 32 then 2 else if m < 64 then 3 else if m < 128 then 4
    else if m < 255 then 5 else 0
  }

  /** The table of section 3.2.5 as the decoder uses it. */
  function LenBase(s: nat): nat
    requires s >= 257
  {
    if s < 265 then s - 257 + 3
    else if s < 269 then 11 + 2 * (s - 265)
    else if s < 273 then 19 + 4 * (s - 269)
    else if s < 277 then 35 + 8 * (s - 273)
    else if s < 281 then 67 + 16 * (s - 277)
    else if s < 285 then 131 + 32 * (s - 281)
    else 258
  }

  function LenExtraOf(s: nat): (e: nat)
    ensures e <= 5
  {
    if s < 265 || s >= 285 then 0 else if s < 269 then 1 else if s < 273 then 2 else if s < 277 then 3
       else if s < 281 then 4 else 5
  }

  /** Symbol and number of extra bits for a match distance of d + 1. */
  function DistSym(d: nat): nat
  {
    if d < 4 then d else 2 + DistSym(d / 2)
  }

  function DistExtra(d: nat): nat
  {
    if d < 4 then 0 else 1 + DistExtra(d / 2)
  }

  function DistBase(s: nat): (b: nat)
    ensures b >= 1
  {
    if s < 4 then s + 1 else 2 * DistBase(s - 2) - 1
  }

  function DistExtraOf(s: nat): nat
  {
    if s < 4 then 0 else s / 2 - 1
  }

  /** Base plus extra bits gives back the length. */
  lemma LenRoundTrip(m: byte)
    ensures LenExtraOf(LenSym(m)) == LenExtra(m)
    ensures LenBase(LenSym(m)) + LowBits(m, LenExtra(m)) == m as int + MIN_MATCH_LEN
  {
    LowFive(m);
    LowFour(m);
    LowThree(m);
    LowTwo(m);
    LowOne(m);
  }

  lemma ModFour(m: nat)
    ensures m % 4 == m % 2 + 2 * (m / 2 % 2)
  {
  }

  lemma ModEight(m: nat)
    ensures m % 8 == m % 2 + 2 * (m / 2 % 4)
  {
  }

  lemma ModSixteen(m: nat)
    ensures m % 16 == m % 2 + 2 * (m / 2 % 8)
  {
  }

  lemma ModThirtyTwo(m: nat)
    ensures m % 32 == m % 2 + 2 * (m / 2 % 16)
  {
  }

  lemma LowOne(m: nat)
    ensures LowBits(m, 1) == m % 2
  {
    assert LowBits(m / 2, 0) == 0;
  }

  lemma LowTwo(m: nat)
    ensures LowBits(m, 2) == m % 4
  {
    LowOne(m / 2);
    ModFour(m);
  }

  lemma LowThree(m: nat)
    ensures LowBits(m, 3) == m % 8
  {
    LowTwo(m / 2);
    ModEight(m);
  }

  lemma LowFour(m: nat)
    ensures LowBits(m, 4) == m % 16
  {
    LowThree(m / 2);
    ModSixteen(m);
  }

  lemma LowFive(m: nat)
    ensures LowBits(m, 5) == m % 32
  {
    LowFour(m / 2);
    ModThirtyTwo(m);
  }

  lemma {:induction false} DistRoundTrip(d: nat)
    ensures DistExtraOf(DistSym(d)) == DistExtra(d)
    ensures DistBase(DistSym(d)) + LowBits(d, DistExtra(d)) == d + 1
    ensures d >= 2 ==> DistSym(d) >= 2
  {
    if d >= 4 {
      DistRoundTrip(d / 2);
    }
  }

  /** Distances up to 32768 need at most 13 extra bits and symbols below 30. */
  lemma DistFits(d: nat)
    requires d < LZ_DICT_SIZE
    ensures DistSym(d) < 30 && DistExtra(d) <= 13
  {
    DistFitsWithin(d, 13);
    assert Pow2(13) == 8192 by { assert Pow2(5) == 32 && Pow2(9) == 512; }
  }

  lemma {:induction false} DistFitsWithin(d: nat, k: nat)
    requires d < 4 * Pow2(k)
    ensures DistSym(d) < 4 + 2 * k && DistExtra(d) <= k
  {
    if k > 0 && d >= 4 {
      DistFitsWithin(d / 2, k - 1);
    }
  }

  // ---- the symbols a token is coded with ----

  function LitLenSym(t: Token): (s: nat)
    ensures s < 286 && s != END_OF_BLOCK
  {
    if t.Literal? then t.lit else LenSym((t.len - MIN_MATCH_LEN) % 256)
  }

  function MatchDistSym(t: Token): nat
    requires t.Match?
  {
    DistSym((t.dist - 1) % LZ_DICT_SIZE)
  }

  function LitLenCount(ts: seq<Token>, s: nat): nat
  {
    if |ts| == 0 then 0 else LitLenCount(ts[..|ts| - 1], s) + if LitLenSym(ts[|ts| - 1]) == s then 1 else 0
  }

  function DistCount(ts: seq<Token>, s: nat): nat
  {
    if |ts| == 0 then 0
    else DistCount(ts[..|ts| - 1], s) + if ts[|ts| - 1].Match? && MatchDistSym(ts[|ts| - 1]) == s then 1 else 0
  }

  lemma {:induction false} CountedIfUsed(ts: seq<Token>, i: nat)
    requires i < |ts|
    ensures LitLenCount(ts, LitLenSym(ts[i])) > 0
    ensures ts[i].Match? ==> DistCount(ts, MatchDistSym(ts[i])) > 0
  {
    if i < |ts| - 1 {
      CountedIfUsed(ts[..|ts| - 1], i);
    }
  }
}
