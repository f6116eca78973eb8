/** The header of a dynamic block: section 3.2.7 of RFC 1951. */
module DynamicHeader {
  import opened Options
  import opened Bits
  import opened CanonicalCode
  import opened Inflater
  import Rle = CodeLengthRle
  import BF = BlockFormat

  const MAX_CL_SIZE: nat := 7

  // ---- instructions, read front to back ----

  ghost predicate CanApplyFrom(lens: seq<nat>, ops: seq<Rle.Op>)
    decreases |ops|
  {
    |ops| == 0 || (Rle.CanApply(lens, ops[0]) && CanApplyFrom(Rle.Apply(lens, ops[0]), ops[1..]))
  }

  ghost function ApplyFrom(lens: seq<nat>, ops: seq<Rle.Op>): seq<nat>
    requires CanApplyFrom(lens, ops)
    decreases |ops|
  {
    if |ops| == 0 then lens else ApplyFrom(Rle.Apply(lens, ops[0]), ops[1..])
  }

  lemma {:induction false} ApplyFromSnoc(lens: seq<nat>, ops: seq<Rle.Op>, op: Rle.Op)
    requires CanApplyFrom(lens, ops) && Rle.CanApply(ApplyFrom(lens, ops), op)
    ensures CanApplyFrom(lens, ops + [op]) && ApplyFrom(lens, ops + [op]) == Rle.Apply(ApplyFrom(lens, ops), op)
    decreases |ops|
  {
    if |ops| == 0 {
      assert (ops + [op])[1..] == [];
    } else {
      ApplyFromSnoc(Rle.Apply(lens, ops[0]), ops[1..], op);
      assert (ops + [op])[1..] == ops[1..] + [op];
    }
  }

  lemma {:induction false} ApplyAllIsFrom(ops: seq<Rle.Op>)
    requires Rle.CanApplyAll(ops)
    ensures CanApplyFrom([], ops) && ApplyFrom([], ops) == Rle.ApplyAll(ops)
  {
    if |ops| == 0 {
    } else {
      var k := |ops| - 1;
      ApplyAllIsFrom(ops[..k]);
      ApplyFromSnoc([], ops[..k], ops[k]);
      assert ops[..k] + [ops[k]] == ops;
    }
  }

  lemma {:induction false} ApplyGrows(lens: seq<nat>, ops: seq<Rle.Op>)
    requires CanApplyFrom(lens, ops)
    ensures |ApplyFrom(lens, ops)| >= |lens| + |ops|
    decreases |ops|
  {
    if |ops| == 0 {
    } else {
      ApplyGrows(Rle.Apply(lens, ops[0]), ops[1..]);
    }
  }

  // ---- their bits ----

  function OpBits(cl: seq<nat>, op: Rle.Op): seq<bool>
    requires op.Symbol() < |cl|
  {
    if op.Length? then CodeBits(cl, op.len) else CodeBits(cl, op.code) + ToBits(op.extra, Rle.ExtraBits(op.code))
  }

  ghost predicate OpsCoded(cl: seq<nat>, ops: seq<Rle.Op>) {
    |cl| == 19 && forall i :: 0 <= i < |ops| ==> ops[i].Symbol() < 19 && cl[ops[i].Symbol()] > 0
  }

  ghost function OpsBits(cl: seq<nat>, ops: seq<Rle.Op>): seq<bool>
    requires OpsCoded(cl, ops)
  {
    if |ops| == 0 then [] else OpBits(cl, ops[0]) + OpsBits(cl, ops[1..])
  }

  lemma CodedSnoc(cl: seq<nat>, ops: seq<Rle.Op>, op: Rle.Op)
    requires OpsCoded(cl, ops) && op.Symbol() < 19 && cl[op.Symbol()] > 0
    ensures OpsCoded(cl, ops + [op]) && (|ops| > 0 ==> OpsCoded(cl, ops[1..]))
  {
  }

  lemma OpsBitsFront(cl: seq<nat>, op: Rle.Op, rest: seq<Rle.Op>)
    requires OpsCoded(cl, [op] + rest)
    ensures op.Symbol() < |cl| && OpsCoded(cl, rest) && OpsBits(cl, [op] + rest) == OpBits(cl, op) + OpsBits(cl, rest)
  {
    var ops := [op] + rest;
    assert ops[0] == op && ops[1..] == rest;
    hide OpBits;
  }

  lemma {:induction false} OpsBitsSnoc(cl: seq<nat>, ops: seq<Rle.Op>, op: Rle.Op)
    requires OpsCoded(cl, ops) && op.Symbol() < 19 && cl[op.Symbol()] > 0
    ensures OpsCoded(cl, ops + [op]) && OpsBits(cl, ops + [op]) == OpsBits(cl, ops) + OpBits(cl, op)
  {
    CodedSnoc(cl, ops, op);
    if |ops| == 0 {
      assert ops + [op] == [op] + [];
      OpsBitsFront(cl, op, []);
      assert OpBits(cl, op) + [] == OpBits(cl, op);
      hide OpBits, OpsCoded;
    } else {
      hide *;
      OpsBitsSnoc(cl, ops[1..], op);
      assert ops == [ops[0]] + ops[1..] && ops + [op] == [ops[0]] + (ops[1..] + [op]);
      OpsBitsFront(cl, ops[0], ops[1..]);
      OpsBitsFront(cl, ops[0], ops[1..] + [op]);
    }
  }

  lemma OpReadBack(cl: seq<nat>, op: Rle.Op, bits: seq<bool>, pos: nat, n: nat, lens: seq<nat>)
    requires Decodable(cl, MAX_CL_SIZE) && |cl| == 19 && Rle.CanApply(lens, op) && cl[op.Symbol()] > 0
    requires |lens| < n && At(bits, pos, OpBits(cl, op))
    ensures DecodeLengths(cl, bits, pos, n, lens) ==
            DecodeLengths(cl, bits, pos + |OpBits(cl, op)|, n, Rle.Apply(lens, op))
  {
    hide CodeBits, ToBits, DecodeSymbol, Decodable, ReadBits, At;
    if op.Length? {
      BF.SymbolAt(cl, op.len, bits, pos, MAX_CL_SIZE);
    } else {
      AtSplit(bits, pos, CodeBits(cl, op.code), ToBits(op.extra, Rle.ExtraBits(op.code)));
      BF.SymbolAt(cl, op.code, bits, pos, MAX_CL_SIZE);
      ReadBitsAt(bits, pos + cl[op.code], op.extra, Rle.ExtraBits(op.code));
    }
  }

  /** Decoding the bits of the instructions carries them all out. */
  lemma {:induction false} OpsReadBack(cl: seq<nat>, ops: seq<Rle.Op>, bits: seq<bool>, pos: nat, lens: seq<nat>)
    requires Decodable(cl, MAX_CL_SIZE) && OpsCoded(cl, ops) && CanApplyFrom(lens, ops)
    requires At(bits, pos, OpsBits(cl, ops))
    ensures DecodeLengths(cl, bits, pos, |ApplyFrom(lens, ops)|, lens) ==
            Some(LengthsAt(pos + |OpsBits(cl, ops)|, ApplyFrom(lens, ops)))
    decreases |ops|
  {
    hide *;
    if |ops| == 0 {
      NoOpsLeft(cl, ops, bits, pos, lens);
    } else {
      FirstOp(ops, lens);
      CodedNext(cl, ops);
      AtSplit(bits, pos, OpBits(cl, ops[0]), OpsBits(cl, ops[1..]));
      ApplyGrows(lens, ops);
      OpReadBack(cl, ops[0], bits, pos, |ApplyFrom(lens, ops)|, lens);
      OpsReadBack(cl, ops[1..], bits, pos + |OpBits(cl, ops[0])|, Rle.Apply(lens, ops[0]));
    }
  }

  lemma NoOpsLeft(cl: seq<nat>, ops: seq<Rle.Op>, bits: seq<bool>, pos: nat, lens: seq<nat>)
    requires |ops| == 0 && OpsCoded(cl, ops) && CanApplyFrom(lens, ops)
    ensures ApplyFrom(lens, ops) == lens && OpsBits(cl, ops) == []
    ensures DecodeLengths(cl, bits, pos, |lens|, lens) == Some(LengthsAt(pos, lens))
  {
  }

  lemma FirstOp(ops: seq<Rle.Op>, lens: seq<nat>)
    requires |ops| > 0 && CanApplyFrom(lens, ops)
    ensures Rle.CanApply(lens, ops[0]) && CanApplyFrom(Rle.Apply(lens, ops[0]), ops[1..])
    ensures ApplyFrom(lens, ops) == ApplyFrom(Rle.Apply(lens, ops[0]), ops[1..])
  {
    hide Rle.Apply, Rle.CanApply;
  }

  lemma CodedNext(cl: seq<nat>, ops: seq<Rle.Op>)
    requires |ops| > 0 && OpsCoded(cl, ops)
    ensures |cl| == 19 && ops[0].Symbol() < |cl| && cl[ops[0].Symbol()] > 0 && OpsCoded(cl, ops[1..])
    ensures OpsBits(cl, ops) == OpBits(cl, ops[0]) + OpsBits(cl, ops[1..])
  {
    hide OpBits;
  }

  // ---- the lengths of the code length code ----

  function ClBits(cl: seq<nat>, n: nat): (r: seq<bool>)
    requires |cl| == 19 && n <= 19
    ensures |r| == 3 * n
  {
    if n == 0 then [] else ClBits(cl, n - 1) + ToBits(cl[ClOrder(n - 1)], 3)
  }

  function ClIndex(o: nat): (i: nat)
    requires o < 19
    ensures i < 19 && ClOrder(i) == o
  {
    if o < 16 then [3, 17, 15, 13, 11, 9, 7, 5, 4, 6, 8, 10, 12, 14, 16, 18][o] else o - 16
  }

  lemma ClOrderInjective(i: nat, j: nat)
    requires i < 19 && j < 19 && ClOrder(i) == ClOrder(j)
    ensures i == j
  {
    ClIndexBack(i);
    ClIndexBack(j);
    hide ClOrder, ClIndex;
  }

  lemma ClIndexBack(i: nat)
    requires i < 19
    ensures ClIndex(ClOrder(i)) == i
  {
  }

  lemma {:induction false} ClPrefixReadBack(cl: seq<nat>, n: nat, bits: seq<bool>, pos: nat)
    requires |cl| == 19 && n <= 19 && (forall i :: 0 <= i < 19 ==> cl[i] < 8) && At(bits, pos, ClBits(cl, n))
    ensures forall i :: 0 <= i < 19 ==> ReadClLens(bits, pos, n)[ClOrder(i)] == if i < n then cl[ClOrder(i)] else 0
  {
    hide ToBits, FromBits, At, ClOrder;
    if n == 0 {
    } else {
      AtSplit(bits, pos, ClBits(cl, n - 1), ToBits(cl[ClOrder(n - 1)], 3));
      ClPrefixReadBack(cl, n - 1, bits, pos);
      PowThree();
      ReadBitsAt(bits, pos + 3 * (n - 1), cl[ClOrder(n - 1)], 3);
      forall i | 0 <= i < 19
        ensures ReadClLens(bits, pos, n)[ClOrder(i)] == if i < n then cl[ClOrder(i)] else 0
      {
        if ClOrder(i) == ClOrder(n - 1) {
          ClOrderInjective(i, n - 1);
        }
      }
    }
  }

  lemma PowThree()
    ensures Pow2(3) == 8
  {
  }

  /** Lengths that are not sent are zero, so leaving off trailing zeros loses nothing. */
  lemma ClReadBack(cl: seq<nat>, n: nat, bits: seq<bool>, pos: nat)
    requires |cl| == 19 && n <= 19 && (forall i :: 0 <= i < 19 ==> cl[i] < 8) && At(bits, pos, ClBits(cl, n))
    requires forall i :: n <= i < 19 ==> cl[ClOrder(i)] == 0
    ensures ReadClLens(bits, pos, n) == cl
  {
    ClPrefixReadBack(cl, n, bits, pos);
    forall o | 0 <= o < 19
      ensures ReadClLens(bits, pos, n)[o] == cl[o]
    {
      assert ClOrder(ClIndex(o)) == o;
    }
  }

  // ---- the whole header ----

  datatype Header = Header(numLit: nat, numDist: nat, numCl: nat, cl: seq<nat>, ops: seq<Rle.Op>) {
    ghost predicate Valid() {
      && 257 <= numLit <= 286 && 1 <= numDist <= 30 && 4 <= numCl <= 19
      && Accepted(cl, MAX_CL_SIZE) && OpsCoded(cl, ops)
      && (forall i :: 0 <= i < 19 ==> cl[i] < 8)
      && (forall i :: numCl <= i < 19 ==> cl[ClOrder(i)] == 0)
      && Rle.CanApplyAll(ops) && |Rle.ApplyAll(ops)| == numLit + numDist
    }
  }

  ghost function HeaderBits(h: Header): seq<bool>
    requires h.Valid()
  {
    ToBits(h.numLit - 257, 5) +
      (ToBits(h.numDist - 1, 5) + (ToBits(h.numCl - 4, 4) + (ClBits(h.cl, h.numCl) + OpsBits(h.cl, h.ops))))
  }

  lemma AtInside(bits: seq<bool>, pos: nat, s: seq<bool>)
    requires At(bits, pos, s)
    ensures pos + |s| <= |bits|
  {
  }

  lemma FieldsReadBack(h: Header, bits: seq<bool>, pos: nat)
    requires h.Valid() && At(bits, pos, HeaderBits(h))
    ensures ReadBits(bits, pos, 5) == Some(h.numLit - 257)
    ensures ReadBits(bits, pos + 5, 5) == Some(h.numDist - 1)
    ensures ReadBits(bits, pos + 10, 4) == Some(h.numCl - 4)
    ensures pos + 14 + 3 * h.numCl <= |bits|
    ensures At(bits, pos + 14, ClBits(h.cl, h.numCl)) && At(bits, pos + 14 + 3 * h.numCl, OpsBits(h.cl, h.ops))
  {
    hide ToBits, ReadBits, At, ClBits, OpsBits, Decodable;
    PowFive();
    var tail := ToBits(h.numCl - 4, 4) + (ClBits(h.cl, h.numCl) + OpsBits(h.cl, h.ops));
    AtSplit(bits, pos, ToBits(h.numLit - 257, 5), ToBits(h.numDist - 1, 5) + tail);
    AtSplit(bits, pos + 5, ToBits(h.numDist - 1, 5), tail);
    AtSplit(bits, pos + 10, ToBits(h.numCl - 4, 4), ClBits(h.cl, h.numCl) + OpsBits(h.cl, h.ops));
    AtSplit(bits, pos + 14, ClBits(h.cl, h.numCl), OpsBits(h.cl, h.ops));
    AtInside(bits, pos + 14, ClBits(h.cl, h.numCl));
    ReadBitsAt(bits, pos, h.numLit - 257, 5);
    ReadBitsAt(bits, pos + 5, h.numDist - 1, 5);
    ReadBitsAt(bits, pos + 10, h.numCl - 4, 4);
  }

  lemma PowFive()
    ensures Pow2(5) == 32 && Pow2(4) == 16
  {
    assert Pow2(3) == 8;
  }

  lemma ValidFields(h: Header)
    requires h.Valid()
    ensures 257 <= h.numLit <= 286 && 1 <= h.numDist <= 30 && 4 <= h.numCl <= 19
    ensures Accepted(h.cl, MAX_CL_SIZE) && Decodable(h.cl, MAX_CL_SIZE) && OpsCoded(h.cl, h.ops) && |h.cl| == 19
    ensures (forall i :: 0 <= i < 19 ==> h.cl[i] < 8) && (forall i :: h.numCl <= i < 19 ==> h.cl[ClOrder(i)] == 0)
    ensures Rle.CanApplyAll(h.ops) && |Rle.ApplyAll(h.ops)| == h.numLit + h.numDist
  {
    hide Full, KraftUpTo, Rle.ApplyAll, Rle.CanApplyAll, ClOrder;
  }

  lemma HeaderLength(h: Header)
    requires h.Valid()
    ensures |HeaderBits(h)| == 14 + 3 * h.numCl + |OpsBits(h.cl, h.ops)|
  {
  }

  lemma DecodeHeaderParts(bits: seq<bool>, pos: nat, hlit: nat, hdist: nat, hclen: nat, cl: seq<nat>, l: LengthsAt)
    requires ReadBits(bits, pos, 5) == Some(hlit) && ReadBits(bits, pos + 5, 5) == Some(hdist)
    requires ReadBits(bits, pos + 10, 4) == Some(hclen) && hclen + 4 <= 19 && hlit + 257 <= 286
    requires pos + 14 + 3 * (hclen + 4) <= |bits| && ReadClLens(bits, pos + 14, hclen + 4) == cl
    requires Accepted(cl, MAX_CL_SIZE)
    requires DecodeLengths(cl, bits, pos + 14 + 3 * (hclen + 4), hlit + 257 + hdist + 1, []) == Some(l)
    requires |l.lens| == hlit + 257 + hdist + 1
    ensures DecodeHeader(bits, pos) == Some((hlit + 257, l))
  {
    hide ReadBits, ReadClLens, DecodeLengths;
  }

  /** The decoder recovers exactly the code lengths that were packed. */
  lemma HeaderReadBack(h: Header, bits: seq<bool>, pos: nat)
    requires h.Valid() && At(bits, pos, HeaderBits(h))
    ensures DecodeHeader(bits, pos) == Some((h.numLit, LengthsAt(pos + |HeaderBits(h)|, Rle.ApplyAll(h.ops))))
  {
    hide *;
    ValidFields(h);
    FieldsReadBack(h, bits, pos);
    HeaderLength(h);
    ClReadBack(h.cl, h.numCl, bits, pos + 14);
    ApplyAllIsFrom(h.ops);
    OpsReadBack(h.cl, h.ops, bits, pos + 14 + 3 * h.numCl, []);
    DecodeHeaderParts(bits, pos, h.numLit - 257, h.numDist - 1, h.numCl - 4, h.cl,
                      LengthsAt(pos + 14 + 3 * h.numCl + |OpsBits(h.cl, h.ops)|, Rle.ApplyAll(h.ops)));
  }
}
