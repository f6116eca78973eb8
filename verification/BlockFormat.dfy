/** The bit strings of DEFLATE blocks, and proofs that the reference decoder reads them back. */
module BlockFormat {
  import opened Options
  import opened Bits
  import opened LzTokens
  import opened LzAlphabet
  import opened CanonicalCode
  import opened Inflater
  import HT = HuffmanTable

  const MAX_CODE_SIZE: nat := 15

  // ---- tokens ----

  function TokenBits(ll: seq<nat>, dl: seq<nat>, t: Token): seq<bool>
    requires Coded(ll, dl, t)
  {
    if t.Literal? then CodeBits(ll, t.lit)
    else
      var m, d := t.len - MIN_MATCH_LEN, t.dist - 1;
      CodeBits(ll, LenSym(m)) + (ToBits(m, LenExtra(m)) + (CodeBits(dl, DistSym(d)) + ToBits(d, DistExtra(d))))
  }

  /** Both tables have codes for the symbols of t. */
  ghost predicate Coded(ll: seq<nat>, dl: seq<nat>, t: Token) {
    && t.Valid() && LitLenSym(t) < |ll| && ll[LitLenSym(t)] > 0
    && (t.Match? ==> DistSym(t.dist - 1) < |dl| && dl[DistSym(t.dist - 1)] > 0)
  }

  ghost predicate AllCoded(ll: seq<nat>, dl: seq<nat>, ts: seq<Token>) {
    && END_OF_BLOCK < |ll| && ll[END_OF_BLOCK] > 0
    && forall i :: 0 <= i < |ts| ==> Coded(ll, dl, ts[i])
  }

  /** The tokens from k on, and the end-of-block symbol. */
  ghost function DataBits(ll: seq<nat>, dl: seq<nat>, ts: seq<Token>): seq<bool>
    requires AllCoded(ll, dl, ts)
  {
    if |ts| == 0 then CodeBits(ll, END_OF_BLOCK) else TokenBits(ll, dl, ts[0]) + DataBits(ll, dl, ts[1..])
  }

  ghost predicate Tables(ll: seq<nat>, dl: seq<nat>) {
    Accepted(ll, MAX_CODE_SIZE) && Accepted(dl, MAX_CODE_SIZE)
  }

  lemma SymbolAt(lens: seq<nat>, s: nat, bits: seq<bool>, pos: nat, b: nat)
    requires Decodable(lens, b) && s < |lens| && lens[s] > 0 && At(bits, pos, CodeBits(lens, s))
    ensures DecodeSymbol(lens, bits, pos) == Some(s)
  {
    DecodeCode(lens, b, s, bits, pos);
  }

  lemma AtFour(bits: seq<bool>, pos: nat, a: seq<bool>, b: seq<bool>, c: seq<bool>, d: seq<bool>)
    requires At(bits, pos, a + (b + (c + d)))
    ensures At(bits, pos, a) && At(bits, pos + |a|, b) && At(bits, pos + |a| + |b|, c)
            && At(bits, pos + |a| + |b| + |c|, d)
  {
    AtSplit(bits, pos, a, b + (c + d));
    AtSplit(bits, pos + |a|, b, c + d);
    AtSplit(bits, pos + |a| + |b|, c, d);
  }

  lemma DecodeMatchParts(dl: seq<nat>, bits: seq<bool>, pos: nat, s: nat, x: nat, t: nat, y: nat)
    requires 257 <= s <= 285 && t < 30 && ReadBits(bits, pos, LenExtraOf(s)) == Some(x)
    requires DecodeSymbol(dl, bits, pos + LenExtraOf(s)) == Some(t)
    requires ReadBits(bits, pos + LenExtraOf(s) + dl[t], DistExtraOf(t)) == Some(y)
    ensures DecodeMatch(dl, bits, pos, s) ==
            Some(MatchAt(pos + LenExtraOf(s) + dl[t] + DistExtraOf(t), LenBase(s) + x, DistBase(t) + y))
  {
    hide ReadBits, DecodeSymbol, LenBase, DistBase, LenExtraOf, DistExtraOf, CodeAt;
  }

  /** A match after its length symbol: length extra bits, distance code, distance extra bits. */
  lemma MatchTail(dl: seq<nat>, m: byte, d: nat, bits: seq<bool>, pos: nat)
    requires Decodable(dl, MAX_CODE_SIZE) && d < LZ_DICT_SIZE && DistSym(d) < |dl| && dl[DistSym(d)] > 0
    requires At(bits, pos, ToBits(m, LenExtra(m)))
    requires At(bits, pos + LenExtra(m), CodeBits(dl, DistSym(d)))
    requires At(bits, pos + LenExtra(m) + dl[DistSym(d)], ToBits(d, DistExtra(d)))
    ensures DecodeMatch(dl, bits, pos, LenSym(m)) ==
            Some(MatchAt(pos + LenExtra(m) + dl[DistSym(d)] + DistExtra(d), m as int + MIN_MATCH_LEN, d + 1))
  {
    hide *;
    LenRoundTrip(m);
    DistRoundTrip(d);
    DistFits(d);
    ReadBitsAt(bits, pos, m, LenExtra(m));
    SymbolAt(dl, DistSym(d), bits, pos + LenExtra(m), MAX_CODE_SIZE);
    ReadBitsAt(bits, pos + LenExtra(m) + dl[DistSym(d)], d, DistExtra(d));
    DecodeMatchParts(dl, bits, pos, LenSym(m), LowBits(m, LenExtra(m)), DistSym(d), LowBits(d, DistExtra(d)));
  }

  lemma MatchReadBack(ll: seq<nat>, dl: seq<nat>, t: Token, bits: seq<bool>, pos: nat)
    requires Tables(ll, dl) && Coded(ll, dl, t) && t.Match? && At(bits, pos, TokenBits(ll, dl, t))
    ensures var s := LenSym(t.len - MIN_MATCH_LEN);
            && DecodeSymbol(ll, bits, pos) == Some(s)
            && DecodeMatch(dl, bits, pos + ll[s], s) == Some(MatchAt(pos + |TokenBits(ll, dl, t)|, t.len, t.dist))
  {
    hide LenSym, LenExtra, DistSym, DistExtra, CodeBits, ToBits, DecodeMatch, DecodeSymbol, At, Decodable, Full;
    var m, d := t.len - MIN_MATCH_LEN, t.dist - 1;
    AtFour(bits, pos, CodeBits(ll, LenSym(m)), ToBits(m, LenExtra(m)), CodeBits(dl, DistSym(d)),
           ToBits(d, DistExtra(d)));
    SymbolAt(ll, LenSym(m), bits, pos, MAX_CODE_SIZE);
    MatchTail(dl, m, d, bits, pos + |CodeBits(ll, LenSym(m))|);
  }

  lemma DecodeLiteralStep(ll: seq<nat>, dl: seq<nat>, bits: seq<bool>, pos: nat, data: seq<byte>, s: byte)
    requires DecodeSymbol(ll, bits, pos) == Some(s as nat)
    ensures DecodeData(ll, dl, bits, pos, data) == DecodeData(ll, dl, bits, pos + ll[s], data + [s])
  {
    hide DecodeSymbol, DecodeMatch;
  }

  lemma DecodeMatchStep(ll: seq<nat>, dl: seq<nat>, bits: seq<bool>, pos: nat, data: seq<byte>, s: nat, m: MatchAt)
    requires DecodeSymbol(ll, bits, pos) == Some(s) && 257 <= s <= 285
    requires DecodeMatch(dl, bits, pos + ll[s], s) == Some(m) && m.dist <= |data|
    ensures m.dist >= 1
            && DecodeData(ll, dl, bits, pos, data) == DecodeData(ll, dl, bits, m.pos, Copy(data, m.len, m.dist))
  {
    hide DecodeSymbol, DecodeMatch, Copy;
  }

  lemma TokenReadBack(ll: seq<nat>, dl: seq<nat>, t: Token, bits: seq<bool>, pos: nat, data: seq<byte>)
    requires Tables(ll, dl) && Coded(ll, dl, t) && At(bits, pos, TokenBits(ll, dl, t)) && CanExpandOne(data, t)
    ensures DecodeData(ll, dl, bits, pos, data) ==
              DecodeData(ll, dl, bits, pos + |TokenBits(ll, dl, t)|, ExpandOne(data, t))
  {
    hide DecodeSymbol, DecodeMatch, DecodeData, Copy, LenSym, MsbBits, At, Decodable, Full;
    if t.Literal? {
      SymbolAt(ll, t.lit, bits, pos, MAX_CODE_SIZE);
      DecodeLiteralStep(ll, dl, bits, pos, data, t.lit);
    } else {
      MatchReadBack(ll, dl, t, bits, pos);
      var s := LenSym(t.len - MIN_MATCH_LEN);
      DecodeMatchStep(ll, dl, bits, pos, data, s, MatchAt(pos + |TokenBits(ll, dl, t)|, t.len, t.dist));
    }
  }

  lemma EndReadBack(ll: seq<nat>, dl: seq<nat>, bits: seq<bool>, pos: nat, data: seq<byte>)
    requires Tables(ll, dl) && AllCoded(ll, dl, []) && At(bits, pos, CodeBits(ll, END_OF_BLOCK))
    ensures DecodeData(ll, dl, bits, pos, data) == Some(Decoded(pos + |CodeBits(ll, END_OF_BLOCK)|, data))
  {
    SymbolAt(ll, END_OF_BLOCK, bits, pos, MAX_CODE_SIZE);
    hide DecodeSymbol;
  }

  /** Decoding the bits of a token sequence expands it. */
  lemma {:induction false} DataReadBack(ll: seq<nat>, dl: seq<nat>, ts: seq<Token>, bits: seq<bool>, pos: nat,
                                        data: seq<byte>)
    requires Tables(ll, dl) && AllCoded(ll, dl, ts) && At(bits, pos, DataBits(ll, dl, ts)) && CanExpand(data, ts)
    ensures DecodeData(ll, dl, bits, pos, data) == Some(Decoded(pos + |DataBits(ll, dl, ts)|, Expand(data, ts)))
    decreases |ts|
  {
    hide DecodeData, TokenBits, CodeBits, ExpandOne, Coded, At, Accepted;
    if |ts| == 0 {
      EndReadBack(ll, dl, bits, pos, data);
    } else {
      AtSplit(bits, pos, TokenBits(ll, dl, ts[0]), DataBits(ll, dl, ts[1..]));
      ExpandFront(data, ts);
      TokenReadBack(ll, dl, ts[0], bits, pos, data);
      DataReadBack(ll, dl, ts[1..], bits, pos + |TokenBits(ll, dl, ts[0])|, ExpandOne(data, ts[0]));
    }
  }

  lemma {:induction false} DataBitsSnoc(ll: seq<nat>, dl: seq<nat>, ts: seq<Token>, t: Token)
    requires AllCoded(ll, dl, ts) && Coded(ll, dl, t)
    ensures AllCoded(ll, dl, ts + [t])
    ensures SentBits(ll, dl, ts + [t]) == SentBits(ll, dl, ts) + TokenBits(ll, dl, t)
  {
    hide TokenBits, Coded;
    if |ts| == 0 {
      assert (ts + [t])[1..] == [];
    } else {
      DataBitsSnoc(ll, dl, ts[1..], t);
      assert (ts + [t])[1..] == ts[1..] + [t];
    }
  }

  /** The tokens without the end-of-block symbol: what has been sent part way through a block. */
  ghost function SentBits(ll: seq<nat>, dl: seq<nat>, ts: seq<Token>): seq<bool>
    requires AllCoded(ll, dl, ts)
  {
    if |ts| == 0 then [] else TokenBits(ll, dl, ts[0]) + SentBits(ll, dl, ts[1..])
  }

  lemma {:induction false} SentThenEnd(ll: seq<nat>, dl: seq<nat>, ts: seq<Token>)
    requires AllCoded(ll, dl, ts)
    ensures SentBits(ll, dl, ts) + CodeBits(ll, END_OF_BLOCK) == DataBits(ll, dl, ts)
  {
    if |ts| == 0 {
    } else {
      SentThenEnd(ll, dl, ts[1..]);
    }
  }

  // ---- trailing unused symbols do not matter ----

  lemma {:induction false} FirstCodeTrimmed(lens: seq<nat>, k: nat, l: nat)
    requires k <= |lens| && forall s :: k <= s < |lens| ==> lens[s] == 0
    ensures FirstCode(lens[..k], l) == FirstCode(lens, l)
  {
    if l > 1 {
      FirstCodeTrimmed(lens, k, l - 1);
      HT.CountTrimmed(lens, k, l - 1);
    }
  }

  lemma {:induction false} KraftTrimmed(lens: seq<nat>, k: nat, l: nat, b: nat)
    requires l <= b && k <= |lens| && forall s :: k <= s < |lens| ==> lens[s] == 0
    ensures KraftUpTo(lens[..k], l, b) == KraftUpTo(lens, l, b)
  {
    if l == 0 {
    } else {
      KraftTrimmed(lens, k, l - 1, b);
      HT.CountTrimmed(lens, k, l);
    }
  }

  lemma Trimmed(lens: seq<nat>, k: nat, b: nat)
    requires Accepted(lens, b) && k <= |lens| && forall s :: k <= s < |lens| ==> lens[s] == 0
    ensures Accepted(lens[..k], b)
    ensures forall s :: 0 <= s < k ==> CodeBits(lens[..k], s) == CodeBits(lens, s)
  {
    KraftTrimmed(lens, k, b, b);
    forall s | 0 <= s < k
      ensures CodeBits(lens[..k], s) == CodeBits(lens, s)
    {
      FirstCodeTrimmed(lens, k, lens[s]);
      assert lens[..k][..s] == lens[..s];
    }
  }

  lemma TokenTrimmed(ll: seq<nat>, dl: seq<nat>, k: nat, j: nat, t: Token)
    requires k <= |ll| && j <= |dl| && Coded(ll, dl, t)
    requires forall s :: k <= s < |ll| ==> ll[s] == 0
    requires forall s :: j <= s < |dl| ==> dl[s] == 0
    requires forall s :: 0 <= s < k ==> CodeBits(ll[..k], s) == CodeBits(ll, s)
    requires forall s :: 0 <= s < j ==> CodeBits(dl[..j], s) == CodeBits(dl, s)
    ensures Coded(ll[..k], dl[..j], t) && TokenBits(ll[..k], dl[..j], t) == TokenBits(ll, dl, t)
  {
    hide CodeBits, LenSym, DistSym;
  }

  lemma {:induction false} DataTrimmed(ll: seq<nat>, dl: seq<nat>, k: nat, j: nat, ts: seq<Token>)
    requires Tables(ll, dl) && k <= |ll| && j <= |dl| && END_OF_BLOCK < k && AllCoded(ll, dl, ts)
    requires forall s :: k <= s < |ll| ==> ll[s] == 0
    requires forall s :: j <= s < |dl| ==> dl[s] == 0
    ensures Tables(ll[..k], dl[..j]) && AllCoded(ll[..k], dl[..j], ts)
    ensures DataBits(ll[..k], dl[..j], ts) == DataBits(ll, dl, ts)
  {
    hide CodeBits, Coded, TokenBits, Accepted;
    Trimmed(ll, k, MAX_CODE_SIZE);
    Trimmed(dl, j, MAX_CODE_SIZE);
    forall i | 0 <= i < |ts|
      ensures Coded(ll[..k], dl[..j], ts[i])
    {
      TokenTrimmed(ll, dl, k, j, ts[i]);
    }
    if |ts| == 0 {
    } else {
      TokenTrimmed(ll, dl, k, j, ts[0]);
      DataTrimmed(ll, dl, k, j, ts[1..]);
    }
  }
}
