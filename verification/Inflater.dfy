/** A reference decoder for the DEFLATE format, written from RFC 1951. It is the yardstick
    for the compressor and is not part of the modelled program. */
module Inflater {
  import opened Options
  import opened Bits
  import opened LzTokens
  import opened LzAlphabet
  import opened CanonicalCode
  import Rle = CodeLengthRle

  datatype Decoded = Decoded(pos: nat, data: seq<byte>)
  datatype MatchAt = MatchAt(pos: nat, len: nat, dist: nat)
  datatype LengthsAt = LengthsAt(pos: nat, lens: seq<nat>)
  datatype BlockAt = BlockAt(pos: nat, data: seq<byte>, last: bool)

  /** The bit string s stands at pos. */
  ghost predicate At(bits: seq<bool>, pos: nat, s: seq<bool>) {
    pos + |s| <= |bits| && bits[pos..pos + |s|] == s
  }

  lemma AtSplit(bits: seq<bool>, pos: nat, a: seq<bool>, b: seq<bool>)
    requires At(bits, pos, a + b)
    ensures At(bits, pos, a) && At(bits, pos + |a|, b)
  {
    var s := bits[pos..pos + |a + b|];
    assert s[..|a|] == a && s[|a|..] == b;
  }

  function ReadBits(bits: seq<bool>, pos: nat, n: nat): Option<nat> {
    if pos + n <= |bits| then Some(FromBits(bits[pos..pos + n])) else None
  }

  lemma ReadBitsAt(bits: seq<bool>, pos: nat, v: nat, n: nat)
    requires At(bits, pos, ToBits(v, n))
    ensures ReadBits(bits, pos, n) == Some(LowBits(v, n))
    ensures v < Pow2(n) ==> ReadBits(bits, pos, n) == Some(v)
  {
    ToBitsLow(v, n);
    if v < Pow2(n) {
      FromToBits(v, n);
    }
  }

  // ---- compressed data: section 3.2.3 ----

  /** The rest of a match after its length symbol s. */
  ghost function DecodeMatch(dl: seq<nat>, bits: seq<bool>, pos: nat, s: nat): (r: Option<MatchAt>)
    requires 257 <= s <= 285
    ensures r.Some? ==> r.value.pos >= pos && r.value.dist >= 1
  {
    match ReadBits(bits, pos, LenExtraOf(s))
    case None => None
    case Some(lenExtra) =>
      var p := pos + LenExtraOf(s);
      match DecodeSymbol(dl, bits, p)
      case None => None
      case Some(t) =>
        if t >= 30 then None
        else
          var q := p + dl[t];
          match ReadBits(bits, q, DistExtraOf(t))
          case None => None
          case Some(distExtra) => Some(MatchAt(q + DistExtraOf(t), LenBase(s) + lenExtra, DistBase(t) + distExtra))
  }

  ghost function DecodeData(ll: seq<nat>, dl: seq<nat>, bits: seq<bool>, pos: nat, data: seq<byte>): Option<Decoded>
    decreases |bits| - pos
  {
    match DecodeSymbol(ll, bits, pos)
    case None => None
    case Some(s) =>
      var p := pos + ll[s];
      if s < 256 then DecodeData(ll, dl, bits, p, data + [s])
      else if s == END_OF_BLOCK then Some(Decoded(p, data))
      else if s > 285 then None
      else
        match DecodeMatch(dl, bits, p, s)
        case None => None
        case Some(m) =>
          if m.dist > |data| then None else DecodeData(ll, dl, bits, m.pos, Copy(data, m.len, m.dist))
  }

  // ---- block formats: sections 3.2.4 to 3.2.7 ----

  ghost function DecodeStored(bits: seq<bool>, pos: nat, data: seq<byte>): Option<Decoded> {
    var p := (pos + 7) / 8 * 8;
    match ReadBits(bits, p, 16)
    case None => None
    case Some(len) =>
      if ReadBits(bits, p + 16, 16) != Some(0xFFFF - len) then None
      else ReadBytes(bits, p + 32, len, data)
  }

  ghost function ReadBytes(bits: seq<bool>, pos: nat, n: nat, data: seq<byte>): Option<Decoded>
    decreases n
  {
    if n == 0 then Some(Decoded(pos, data))
    else
      match ReadBits(bits, pos, 8)
      case None => None
      case Some(v) => ReadBytes(bits, pos + 8, n - 1, data + [v % 256])
  }

  /** The fixed code: section 3.2.6. */
  function FixedLitLens(): (r: seq<nat>)
    ensures |r| == 288
  {
    Rle.Fill(8, 144) + Rle.Fill(9, 112) + Rle.Fill(7, 24) + Rle.Fill(8, 8)
  }

  function FixedDistLens(): (r: seq<nat>)
    ensures |r| == 32
  {
    Rle.Fill(5, 32)
  }

  /** The order in which the lengths of the code length code are sent. */
  function ClOrder(i: nat): (o: nat)
    requires i < 19
    ensures o < 19
  {
    [16, 17, 18, 0, 8, 7, 9, 6, 10, 5, 11, 4, 12, 3, 13, 2, 14, 1, 15][i]
  }

  function ReadClLens(bits: seq<bool>, pos: nat, n: nat): (r: seq<nat>)
    requires n <= 19 && pos + 3 * n <= |bits|
    ensures |r| == 19
  {
    if n == 0 then Rle.Fill(0, 19)
    else ReadClLens(bits, pos, n - 1)[ClOrder(n - 1) := FromBits(bits[pos + 3 * (n - 1)..pos + 3 * n])]
  }

  ghost function DecodeLengths(cl: seq<nat>, bits: seq<bool>, pos: nat, n: nat, lens: seq<nat>): Option<LengthsAt>
    decreases |bits| - pos
  {
    if |lens| >= n then (if |lens| == n then Some(LengthsAt(pos, lens)) else None)
    else
      match DecodeSymbol(cl, bits, pos)
      case None => None
      case Some(s) =>
        var p := pos + cl[s];
        if s < 16 then DecodeLengths(cl, bits, p, n, lens + [s])
        else
          match ReadBits(bits, p, Rle.ExtraBits(s))
          case None => None
          case Some(e) =>
            var op := Rle.Repeat(s, e);
            if !Rle.CanApply(lens, op) then None
            else DecodeLengths(cl, bits, p + Rle.ExtraBits(s), n, Rle.Apply(lens, op))
  }

  /** The code lengths sent at the head of a dynamic block: n literal/length codes and m distance codes. */
  ghost function DecodeHeader(bits: seq<bool>, pos: nat): (r: Option<(nat, LengthsAt)>)
    ensures r.Some? ==> r.value.0 <= |r.value.1.lens|
  {
    match (ReadBits(bits, pos, 5), ReadBits(bits, pos + 5, 5), ReadBits(bits, pos + 10, 4))
    case (Some(hlit), Some(hdist), Some(hclen)) =>
      var p, n := pos + 14, hclen + 4;
      if n > 19 || p + 3 * n > |bits| || hlit + 257 > 286 then None
      else
        var cl := ReadClLens(bits, p, n);
        if !Accepted(cl, 7) then None
        else
          (match DecodeLengths(cl, bits, p + 3 * n, hlit + 257 + hdist + 1, [])
           case None => None
           case Some(l) => if |l.lens| < hlit + 257 then None else Some((hlit + 257, l)))
    case _ => None
  }

  ghost function DecodeDynamic(bits: seq<bool>, pos: nat, data: seq<byte>): Option<Decoded> {
    match DecodeHeader(bits, pos)
    case None => None
    case Some((n, l)) =>
      var ll, dl := l.lens[..n], l.lens[n..];
      if Accepted(ll, 15) && Accepted(dl, 15) then DecodeData(ll, dl, bits, l.pos, data) else None
  }

  /** One block: section 3.2.3. */
  ghost function DecodeBlock(bits: seq<bool>, pos: nat, data: seq<byte>): Option<BlockAt> {
    match (ReadBits(bits, pos, 1), ReadBits(bits, pos + 1, 2))
    case (Some(last), Some(kind)) =>
      var body :=
        if kind == 0 then DecodeStored(bits, pos + 3, data)
        else if kind == 1 then DecodeData(FixedLitLens(), FixedDistLens(), bits, pos + 3, data)
        else if kind == 2 then DecodeDynamic(bits, pos + 3, data)
        else None;
      (match body
       case None => None
       case Some(d) => Some(BlockAt(d.pos, d.data, last == 1)))
    case _ => None
  }

  /** A whole stream: blocks up to and including the last one. */
  ghost function Inflate(bits: seq<bool>, pos: nat, data: seq<byte>): Option<Decoded>
    decreases |bits| - pos
  {
    match DecodeBlock(bits, pos, data)
    case None => None
    case Some(b) =>
      if b.pos <= pos || b.pos > |bits| then None
      else if b.last then Some(Decoded(b.pos, b.data))
      else Inflate(bits, b.pos, b.data)
  }

  /** Exactly k blocks, none of them the last. */
  ghost function RunBlocks(bits: seq<bool>, pos: nat, data: seq<byte>, k: nat): Option<Decoded>
    decreases k
  {
    if k == 0 then Some(Decoded(pos, data))
    else
      match DecodeBlock(bits, pos, data)
      case None => None
      case Some(b) =>
        if b.pos <= pos || b.pos > |bits| || b.last then None else RunBlocks(bits, b.pos, b.data, k - 1)
  }

  lemma {:induction false} RunThenInflate(bits: seq<bool>, pos: nat, data: seq<byte>, k: nat)
    requires RunBlocks(bits, pos, data, k).Some?
    ensures var d := RunBlocks(bits, pos, data, k).value;
            Inflate(bits, pos, data) == Inflate(bits, d.pos, d.data)
    decreases k
  {
    hide DecodeBlock;
    if k == 0 {
    } else {
      var b := DecodeBlock(bits, pos, data).value;
      RunThenInflate(bits, b.pos, b.data, k - 1);
    }
  }

  lemma {:induction false} RunOneMore(bits: seq<bool>, pos: nat, data: seq<byte>, k: nat)
    requires RunBlocks(bits, pos, data, k).Some?
    ensures var d := RunBlocks(bits, pos, data, k).value;
            RunBlocks(bits, pos, data, k + 1) == RunBlocks(bits, d.pos, d.data, 1)
    decreases k
  {
    hide DecodeBlock;
    if k == 0 {
    } else {
      var b := DecodeBlock(bits, pos, data).value;
      RunOneMore(bits, b.pos, b.data, k - 1);
    }
  }
}
