/** Stored, fixed and dynamic blocks: their bits, and that the reference decoder reads them back. */
module Blocks {
  import opened Options
  import opened Bits
  import opened LzTokens
  import opened LzAlphabet
  import opened CanonicalCode
  import opened Inflater
  import opened BlockFormat
  import DH = DynamicHeader
  import Rle = CodeLengthRle

  datatype Block = Stored(bytes: seq<byte>) | Fixed(tokens: seq<Token>)
    | Dynamic(header: DH.Header, tokens: seq<Token>) {
    ghost predicate Valid() {
      match this
      case Stored(bytes) => |bytes| <= 0xFFFF
      case Fixed(ts) => AllCoded(FixedLitLens(), FixedDistLens(), ts)
      case Dynamic(h, ts) => h.Valid() && Tables(LitLens(h), DistLens(h)) && AllCoded(LitLens(h), DistLens(h), ts)
    }

    /** The block can follow data, and what the data is after it. */
    ghost predicate Follows(data: seq<byte>) {
      Stored? || CanExpand(data, tokens)
    }

    ghost function After(data: seq<byte>): seq<byte>
      requires Follows(data)
    {
      if Stored? then data + bytes else Expand(data, tokens)
    }

    function Kind(): nat {
      match this case Stored(_) => 0 case Fixed(_) => 1 case Dynamic(_, _) => 2
    }
  }

  ghost function LitLens(h: DH.Header): seq<nat>
    requires h.Valid()
  {
    Rle.ApplyAll(h.ops)[..h.numLit]
  }

  ghost function DistLens(h: DH.Header): seq<nat>
    requires h.Valid()
  {
    Rle.ApplyAll(h.ops)[h.numLit..]
  }

  /** Zero bits up to the next byte boundary. */
  function Padding(pos: nat): (r: seq<bool>)
    ensures |r| < 8 && (pos + |r|) % 8 == 0
  {
    seq((8 - pos % 8) % 8, _ => false)
  }

  /** What follows the three header bits. */
  ghost function Body(b: Block, pos: nat): seq<bool>
    requires b.Valid()
  {
    match b
    case Stored(bytes) => Padding(pos) + (ToBits(|bytes|, 16) + (ToBits(0xFFFF - |bytes|, 16) + ByteBits(bytes)))
    case Fixed(ts) => DataBits(FixedLitLens(), FixedDistLens(), ts)
    case Dynamic(h, ts) => DH.HeaderBits(h) + DataBits(LitLens(h), DistLens(h), ts)
  }

  ghost function BlockBits(b: Block, last: bool, pos: nat): seq<bool>
    requires b.Valid()
  {
    ToBits(if last then 1 else 0, 1) + (ToBits(b.Kind(), 2) + Body(b, pos + 3))
  }

  // ---- the fixed code ----

  lemma {:induction false} CountFill(v: nat, n: nat, l: nat)
    ensures Count(Rle.Fill(v, n), l) == if v == l then n else 0
  {
    if n == 0 {
    } else {
      CountFill(v, n - 1, l);
      assert Rle.Fill(v, n)[..n - 1] == Rle.Fill(v, n - 1);
    }
  }

  lemma {:induction false} CountAppend(a: seq<nat>, b: seq<nat>, l: nat)
    ensures Count(a + b, l) == Count(a, l) + Count(b, l)
  {
    if |b| == 0 {
      assert a + b == a;
    } else {
      CountAppend(a, b[..|b| - 1], l);
      assert (a + b)[..|a + b| - 1] == a + b[..|b| - 1];
    }
  }

  lemma FixedLitCount(l: nat)
    ensures Count(FixedLitLens(), l) == if l == 7 then 24 else if l == 8 then 152 else if l == 9 then 112 else 0
  {
    var a, b, c, d := Rle.Fill(8, 144), Rle.Fill(9, 112), Rle.Fill(7, 24), Rle.Fill(8, 8);
    CountFill(8, 144, l);
    CountFill(9, 112, l);
    CountFill(7, 24, l);
    CountFill(8, 8, l);
    CountAppend(a, b, l);
    CountAppend(a + b, c, l);
    CountAppend(a + b + c, d, l);
  }

  lemma {:induction false} KraftOfCounts(lens: seq<nat>, l: nat, b: nat, c7: nat, c8: nat, c9: nat, c5: nat)
    requires l <= b && b >= 9
    requires forall i: nat ::
               1 <= i ==>
                 Count(lens, i) == if i == 5 then c5 else if i == 7 then c7 else if i == 8 then c8 else if i == 9
                 then c9 else 0
    ensures KraftUpTo(lens, l, b) == (if l >= 5 then c5 * Pow2(b - 5) else 0) + (if l >= 7 then c7 * Pow2(b - 7) else 0)
            + (if l >= 8 then c8 * Pow2(b - 8) else 0) + (if l >= 9 then c9 * Pow2(b - 9) else 0)
  {
    if l == 0 {
    } else {
      KraftOfCounts(lens, l - 1, b, c7, c8, c9, c5);
    }
  }

  lemma PowersToFifteen()
    ensures Pow2(6) == 64 && Pow2(7) == 128 && Pow2(8) == 256 && Pow2(10) == 1024 && Pow2(15) == 0x8000
  {
    assert Pow2(2) == 4;
    assert Pow2(4) == 16;
    assert Pow2(12) == 4096 by { assert Pow2(10) == 1024; }
    assert Pow2(14) == 16384;
  }

  lemma FixedLitTable()
    ensures Accepted(FixedLitLens(), 15)
  {
    forall l: nat | 1 <= l
      ensures Count(FixedLitLens(), l) == if l == 5 then 0 else if l == 7 then 24 else if l == 8 then 152
              else if l == 9 then 112 else 0
    {
      FixedLitCount(l);
    }
    assert forall s :: 0 <= s < |FixedLitLens()| ==> FixedLitLens()[s] <= 15;
    hide FixedLitLens, Count, Pow2;
    PowersToFifteen();
    KraftOfCounts(FixedLitLens(), 15, 15, 24, 152, 112, 0);
  }

  lemma FixedDistTable()
    ensures Accepted(FixedDistLens(), 15)
  {
    forall l: nat | 1 <= l
      ensures Count(FixedDistLens(), l) == if l == 5 then 32 else if l == 7 then 0 else if l == 8 then 0
              else if l == 9 then 0 else 0
    {
      CountFill(5, 32, l);
    }
    assert forall s :: 0 <= s < |FixedDistLens()| ==> FixedDistLens()[s] <= 15;
    hide FixedDistLens, Count, Pow2;
    PowersToFifteen();
    KraftOfCounts(FixedDistLens(), 15, 15, 0, 0, 0, 32);
  }

  /** The fixed code of section 3.2.6 is a complete prefix code. */
  lemma FixedTables()
    ensures Tables(FixedLitLens(), FixedDistLens())
  {
    FixedLitTable();
    FixedDistTable();
    hide FixedLitLens, FixedDistLens, Decodable;
  }

  lemma FixedCoded(ts: seq<Token>)
    requires forall i :: 0 <= i < |ts| ==> ts[i].Valid()
    ensures AllCoded(FixedLitLens(), FixedDistLens(), ts)
  {
    var ll := FixedLitLens();
    assert forall s :: 0 <= s < 288 ==> ll[s] > 0;
    forall i | 0 <= i < |ts|
      ensures Coded(ll, FixedDistLens(), ts[i])
    {
      if ts[i].Match? {
        DistFits(ts[i].dist - 1);
      }
    }
  }

  // ---- stored bytes ----

  lemma ByteBitsFront(v: byte, rest: seq<byte>)
    ensures ByteBits([v] + rest) == ToBits(v, 8) + ByteBits(rest)
  {
    ByteBitsAppend([v], rest);
    assert [v][..0] == [];
  }

  lemma ReadOneByte(bits: seq<bool>, pos: nat, n: nat, data: seq<byte>, v: byte)
    requires n > 0 && ReadBits(bits, pos, 8) == Some(v as nat)
    ensures ReadBytes(bits, pos, n, data) == ReadBytes(bits, pos + 8, n - 1, data + [v])
  {
    hide ReadBits;
  }

  lemma {:induction false} BytesReadBack(bytes: seq<byte>, bits: seq<bool>, pos: nat, data: seq<byte>)
    requires At(bits, pos, ByteBits(bytes))
    ensures ReadBytes(bits, pos, |bytes|, data) == Some(Decoded(pos + 8 * |bytes|, data + bytes))
    decreases |bytes|
  {
    if |bytes| == 0 {
      assert data + bytes == data;
    } else {
      hide *;
      var v, rest := bytes[0], bytes[1..];
      assert bytes == [v] + rest;
      ByteBitsFront(v, rest);
      AtSplit(bits, pos, ToBits(v, 8), ByteBits(rest));
      PowEight();
      ReadBitsAt(bits, pos, v, 8);
      ReadOneByte(bits, pos, |bytes|, data, v);
      BytesReadBack(rest, bits, pos + 8, data + [v]);
      JoinByte(data, v, rest);
    }
  }

  lemma JoinByte(data: seq<byte>, v: byte, rest: seq<byte>)
    ensures data + [v] + rest == data + ([v] + rest)
  {
  }

  lemma PaddedUp(pos: nat)
    ensures (pos + 7) / 8 * 8 == pos + |Padding(pos)|
  {
  }

  lemma AtStored(bits: seq<bool>, pos: nat, pad: seq<bool>, len: seq<bool>, inv: seq<bool>, rest: seq<bool>)
    requires At(bits, pos, pad + (len + (inv + rest)))
    ensures At(bits, pos + |pad|, len) && At(bits, pos + |pad| + |len|, inv)
            && At(bits, pos + |pad| + |len| + |inv|, rest)
  {
    hide At;
    AtSplit(bits, pos, pad, len + (inv + rest));
    AtSplit(bits, pos + |pad|, len, inv + rest);
    AtSplit(bits, pos + |pad| + |len|, inv, rest);
  }

  lemma StoredParts(bytes: seq<byte>, bits: seq<bool>, pos: nat)
    requires |bytes| <= 0xFFFF
    requires At(bits, pos, Padding(pos) + (ToBits(|bytes|, 16) + (ToBits(0xFFFF - |bytes|, 16) + ByteBits(bytes))))
    ensures var p := pos + |Padding(pos)|;
            && ReadBits(bits, p, 16) == Some(|bytes|) && ReadBits(bits, p + 16, 16) == Some(0xFFFF - |bytes|)
            && At(bits, p + 32, ByteBits(bytes))
  {
    hide *;
    var p := pos + |Padding(pos)|;
    AtStored(bits, pos, Padding(pos), ToBits(|bytes|, 16), ToBits(0xFFFF - |bytes|, 16), ByteBits(bytes));
    PowSixteen();
    ReadBitsAt(bits, p, |bytes|, 16);
    ReadBitsAt(bits, p + 16, 0xFFFF - |bytes|, 16);
  }

  lemma PowSixteen()
    ensures Pow2(16) == 0x1_0000
  {
    PowersToFifteen();
    assert Pow2(16) == 2 * Pow2(15);
  }

  lemma StoredReadBack(bytes: seq<byte>, bits: seq<bool>, pos: nat, data: seq<byte>)
    requires |bytes| <= 0xFFFF && At(bits, pos, Body(Stored(bytes), pos))
    ensures DecodeStored(bits, pos, data) == Some(Decoded(pos + |Body(Stored(bytes), pos)|, data + bytes))
  {
    hide At, ToBits, ByteBits, ReadBits, Padding, ReadBytes;
    PaddedUp(pos);
    StoredParts(bytes, bits, pos);
    BytesReadBack(bytes, bits, pos + |Padding(pos)| + 32, data);
  }

  // ---- whole blocks ----

  lemma FixedReadBack(ts: seq<Token>, bits: seq<bool>, pos: nat, data: seq<byte>)
    requires Fixed(ts).Valid() && CanExpand(data, ts) && At(bits, pos, Body(Fixed(ts), pos))
    ensures DecodeData(FixedLitLens(), FixedDistLens(), bits, pos, data) ==
            Some(Decoded(pos + |Body(Fixed(ts), pos)|, Expand(data, ts)))
  {
    hide DecodeData, DataBits, FixedLitLens, FixedDistLens, At, Expand, AllCoded, Tables;
    FixedTables();
    DataReadBack(FixedLitLens(), FixedDistLens(), ts, bits, pos, data);
  }

  lemma DynamicReadBack(h: DH.Header, ts: seq<Token>, bits: seq<bool>, pos: nat, data: seq<byte>)
    requires Dynamic(h, ts).Valid() && CanExpand(data, ts) && At(bits, pos, Body(Dynamic(h, ts), pos))
    ensures DecodeDynamic(bits, pos, data) == Some(Decoded(pos + |Body(Dynamic(h, ts), pos)|, Expand(data, ts)))
  {
    hide DecodeData, DataBits, At, DH.HeaderBits, DecodeHeader, Expand, AllCoded, Accepted, Rle.ApplyAll;
    AtSplit(bits, pos, DH.HeaderBits(h), DataBits(LitLens(h), DistLens(h), ts));
    DH.HeaderReadBack(h, bits, pos);
    DataReadBack(LitLens(h), DistLens(h), ts, bits, pos + |DH.HeaderBits(h)|, data);
  }

  lemma BodyReadBack(b: Block, bits: seq<bool>, pos: nat, data: seq<byte>)
    requires b.Valid() && b.Follows(data) && At(bits, pos, Body(b, pos))
    ensures var d := Some(Decoded(pos + |Body(b, pos)|, b.After(data)));
            && (b.Stored? ==> DecodeStored(bits, pos, data) == d)
            && (b.Fixed? ==> DecodeData(FixedLitLens(), FixedDistLens(), bits, pos, data) == d)
            && (b.Dynamic? ==> DecodeDynamic(bits, pos, data) == d)
  {
    hide DecodeStored, DecodeData, DecodeDynamic, Body, FixedLitLens, FixedDistLens, At, Expand;
    match b
    case Stored(bytes) => StoredReadBack(bytes, bits, pos, data);
    case Fixed(ts) => FixedReadBack(ts, bits, pos, data);
    case Dynamic(h, ts) => DynamicReadBack(h, ts, bits, pos, data);
  }

  lemma PowTwo()
    ensures Pow2(1) == 2 && Pow2(2) == 4
  {
  }

  /** The decoder reads a block back, whatever follows it. */
  lemma BlockReadBack(b: Block, last: bool, bits: seq<bool>, pos: nat, data: seq<byte>)
    requires b.Valid() && b.Follows(data) && At(bits, pos, BlockBits(b, last, pos))
    ensures DecodeBlock(bits, pos, data) == Some(BlockAt(pos + |BlockBits(b, last, pos)|, b.After(data), last))
  {
    hide DecodeStored, DecodeData, DecodeDynamic, At, ToBits, Body, ReadBits, FixedLitLens, FixedDistLens, Expand;
    var l := if last then 1 else 0;
    AtSplit(bits, pos, ToBits(l, 1), ToBits(b.Kind(), 2) + Body(b, pos + 3));
    AtSplit(bits, pos + 1, ToBits(b.Kind(), 2), Body(b, pos + 3));
    PowTwo();
    ReadBitsAt(bits, pos, l, 1);
    ReadBitsAt(bits, pos + 1, b.Kind(), 2);
    BodyReadBack(b, bits, pos + 3, data);
  }

  // ---- size of a fixed block ----

  lemma {:induction false} PayloadsAppend(a: seq<Token>, b: seq<Token>)
    ensures |Payloads(a + b)| == |Payloads(a)| + |Payloads(b)|
  {
    if |a| == 0 {
      assert a + b == b;
    } else {
      PayloadsAppend(a[1..], b);
      assert (a + b)[1..] == a[1..] + b;
    }
  }

  lemma {:induction false} LayoutSize(ts: seq<Token>)
    ensures 8 * |Layout(ts)| >= 8 * |Payloads(ts)| + |ts|
  {
    if |ts| > 8 {
      LayoutSize(ts[8..]);
      assert ts == ts[..8] + ts[8..];
      PayloadsAppend(ts[..8], ts[8..]);
    }
  }

  lemma FixedTokenSize(t: Token)
    requires Coded(FixedLitLens(), FixedDistLens(), t)
    ensures 8 * |TokenBits(FixedLitLens(), FixedDistLens(), t)| <= 80 * |Payload(t)| + 10
  {
    if t.Match? {
      DistFits(t.dist - 1);
    }
  }

  lemma {:induction false} FixedDataSize(ts: seq<Token>)
    requires AllCoded(FixedLitLens(), FixedDistLens(), ts)
    ensures 8 * |DataBits(FixedLitLens(), FixedDistLens(), ts)| <= 80 * |Payloads(ts)| + 10 * |ts| + 56
  {
    if |ts| == 0 {
    } else {
      hide FixedLitLens, FixedDistLens, TokenBits;
      FixedTokenSize(ts[0]);
      FixedDataSize(ts[1..]);
    }
  }

  /** A fixed block takes at most ten bits for every byte the tokens take in the buffer. */
  lemma FixedSize(ts: seq<Token>)
    requires Fixed(ts).Valid()
    ensures |Body(Fixed(ts), 0)| <= 10 * |Layout(ts)| + 7
  {
    hide Layout, Payloads, DataBits, FixedLitLens, FixedDistLens;
    LayoutSize(ts);
    FixedDataSize(ts);
  }
}
