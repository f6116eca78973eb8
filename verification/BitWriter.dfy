/** TDEFL_PUT_BITS: packing bit strings into bytes through a small accumulator. */
module BitWriter {
  import opened Bits

  /** A point in the output: the bits written up to it, whether they all fitted, and the whole bytes among them. */
  datatype Mark = Mark(bits: seq<bool>, fitted: bool, bytes: seq<byte>)

  class Writer {
    const out: array<byte>
    var outPos: nat
    var outEnd: nat
    var bitBuffer: nat
    var bitsIn: nat

    ghost predicate Valid()
      reads this
    {
      outPos <= outEnd <= out.Length && bitsIn < 8 && bitBuffer < Pow2(bitsIn)
    }

    /** Every bit put so far: those already in bytes and those still pending. */
    ghost function Written(): (r: seq<bool>)
      requires Valid()
      reads this, out
      ensures |r| == 8 * outPos + bitsIn
    {
      ByteBits(out[..outPos]) + ToBits(bitBuffer, bitsIn)
    }

    /** The bits not yet in whole bytes. */
    ghost function Tail(): seq<bool>
      reads this
    {
      ToBits(bitBuffer, bitsIn)
    }

    constructor (size: nat)
      ensures Valid() && Written() == [] && out.Length == size && outEnd == 0 && bitsIn == 0 && outPos == 0
      ensures fresh(out)
    {
      out := new byte[size];
      outPos, outEnd, bitBuffer, bitsIn := 0, 0, 0, 0;
    }

    /** Written(), while the accumulator may still hold whole bytes. */
    ghost function Pending(): (r: seq<bool>)
      requires outPos <= out.Length
      reads this, out
      ensures |r| == 8 * outPos + bitsIn
    {
      ByteBits(out[..outPos]) + ToBits(bitBuffer, bitsIn)
    }

    /** Appends the len bits of bits. Bytes that do not fit are dropped, and then outPos stays at outEnd. */
    method PutBits(bits: nat, len: nat)
      requires Valid() && len <= 16 && bits < Pow2(len)
      modifies this`outPos, this`bitBuffer, this`bitsIn, out
      ensures Valid() && bitsIn == (old(bitsIn) + len) % 8 && outPos >= old(outPos)
      ensures outPos < outEnd ==> old(outPos) < outEnd && Written() == old(Written()) + ToBits(bits, len)
      ensures old(outPos) < outEnd && |old(Written())| + len < 8 * outEnd ==> outPos < outEnd
      ensures out[..old(outPos)] == old(out[..outPos])
    {
      Accumulate(bits, len);
      DrainBytes();
    }

    ghost function Here(): Mark
      requires Valid()
      reads this, out
    {
      Mark(Written(), outPos < outEnd, out[..outPos])
    }

    /** The bits s were put since m: they are there unless the output is full, and it only gets full
        when they do not fit. Bytes written before m are as they were. */
    ghost predicate Since(m: Mark, s: seq<bool>)
      requires Valid()
      reads this, out
    {
      && bitsIn == (|m.bits| + |s|) % 8
      && (outPos < outEnd ==> m.fitted && Written() == m.bits + s)
      && (m.fitted && |m.bits| + |s| < 8 * outEnd ==> outPos < outEnd)
      && |m.bytes| <= outPos && out[..|m.bytes|] == m.bytes
    }

    lemma NothingSince()
      requires Valid()
      ensures Since(Here(), [])
    {
      assert Written() + [] == Written();
    }

    lemma SinceMeans(m: Mark, s: seq<bool>)
      requires Valid() && Since(m, s)
      ensures outPos < outEnd ==> Written() == m.bits + s
      ensures m.fitted && |m.bits| + |s| < 8 * outEnd ==> outPos < outEnd
    {
    }

    method Put(bits: nat, len: nat, ghost m: Mark, ghost s: seq<bool>)
      requires Valid() && len <= 16 && bits < Pow2(len) && Since(m, s)
      modifies this`outPos, this`bitBuffer, this`bitsIn, out
      ensures Valid() && bitsIn == (old(bitsIn) + len) % 8 && outPos >= old(outPos)
      ensures Since(m, s + ToBits(bits, len))
    {
      hide Pow2, ByteBits;
      KeepPrefix(out[..outPos], |m.bytes|);
      ghost var b := out[..outPos];
      PutBits(bits, len);
      KeepPrefix(out[..outPos], |b|);
      assert out[..|m.bytes|] == b[..|m.bytes|];
      AddMod(|m.bits| + |s|, len);
      Regroup(m.bits, s, ToBits(bits, len));
    }

    /** Going back to m: what was written since is forgotten. */
    method Restore(pos: nat, buffer: nat, n: nat, ghost m: Mark, ghost s: seq<bool>)
      requires Valid() && Since(m, s) && pos == |m.bytes| && pos < outEnd && n < 8 && buffer < Pow2(n)
      requires m.fitted && m.bits == ByteBits(m.bytes) + ToBits(buffer, n)
      modifies this`outPos, this`bitBuffer, this`bitsIn
      ensures Valid() && Since(m, []) && Written() == m.bits && outPos < outEnd && bitsIn == n
    {
      outPos, bitBuffer, bitsIn := pos, buffer, n;
      assert m.bits + [] == m.bits;
    }

    method Accumulate(bits: nat, len: nat)
      requires Valid() && bits < Pow2(len)
      modifies this`bitBuffer, this`bitsIn
      ensures bitsIn == old(bitsIn) + len && bitBuffer < Pow2(bitsIn)
      ensures Pending() == old(Written()) + ToBits(bits, len)
    {
      ToBitsAppend(bitBuffer, bitsIn, bits, len);
      BitOrShifted(bitBuffer, bits, bitsIn);
      ShlFits(bitBuffer, bitsIn, bits, len);
      bitBuffer := BitOr(bitBuffer, Shl(bits, bitsIn));
      bitsIn := bitsIn + len;
    }

    /** Moves whole bytes from the accumulator to the output. */
    method DrainBytes()
      requires outPos <= outEnd <= out.Length && bitBuffer < Pow2(bitsIn)
      modifies this`outPos, this`bitBuffer, this`bitsIn, out
      ensures Valid() && bitsIn == old(bitsIn) % 8 && outPos >= old(outPos)
      ensures outPos < outEnd ==> old(outPos) < outEnd && Written() == old(Pending())
      ensures old(outPos) < outEnd && |old(Pending())| < 8 * outEnd ==> outPos < outEnd
      ensures out[..old(outPos)] == old(out[..outPos])
    {
      ghost var all, start := Pending(), outPos;
      while bitsIn >= 8
        invariant start <= outPos <= outEnd <= out.Length && bitBuffer < Pow2(bitsIn)
        invariant bitsIn % 8 == old(bitsIn) % 8
        invariant outPos < outEnd ==> start < outEnd && Pending() == all
        invariant start < outEnd && |all| < 8 * outEnd ==> outPos < outEnd
        invariant out[..start] == old(out[..outPos])
      {
        DrainByte(start);
      }
    }

    method DrainByte(ghost start: nat)
      requires start <= outPos <= outEnd <= out.Length && bitBuffer < Pow2(bitsIn) && bitsIn >= 8
      modifies this`outPos, this`bitBuffer, this`bitsIn, out
      ensures old(outPos) <= outPos <= outEnd && bitBuffer < Pow2(bitsIn) && bitsIn == old(bitsIn) - 8
      ensures old(outPos) < outEnd ==> Pending() == old(Pending())
      ensures old(outPos) == outEnd ==> outPos == outEnd
      ensures out[..start] == old(out[..start])
    {
      SplitByte(bitBuffer, bitsIn);
      if outPos < outEnd {
        ghost var bytes := out[..outPos];
        out[outPos] := bitBuffer % 256;
        outPos := outPos + 1;
        MoveByte(out[..outPos], bytes, bitBuffer % 256, ToBits(bitBuffer / 256, bitsIn - 8));
      }
      bitBuffer := bitBuffer / 256;
      bitsIn := bitsIn - 8;
    }
  }

  lemma MoveByte(after: seq<byte>, before: seq<byte>, v: byte, rest: seq<bool>)
    requires after == before + [v]
    ensures ByteBits(after) + rest == ByteBits(before) + (ToBits(v, 8) + rest)
  {
    assert after[..|after| - 1] == before;
  }

  lemma SplitByte(v: nat, n: nat)
    requires 8 <= n && v < Pow2(n)
    ensures ToBits(v, n) == ToBits(v % 256, 8) + ToBits(v / 256, n - 8)
    ensures v / 256 < Pow2(n - 8)
  {
    PowEight();
    ShlEight(v / 256);
    ToBitsAppend(v % 256, 8, v / 256, n - 8);
    PowDown(n);
  }

  lemma ShlEight(v: nat)
    ensures Shl(v, 8) == 256 * v
  {
    assert Shl(v, 1) == 2 * v;
    assert Shl(v, 2) == 4 * v;
    assert Shl(v, 4) == 16 * v;
    assert Shl(v, 6) == 64 * v;
  }

  lemma PowDown(n: nat)
    requires n >= 8
    ensures Pow2(n) == 256 * Pow2(n - 8)
  {
    Pow2Sum(8, n - 8);
    PowEight();
  }

  lemma KeepPrefix(b: seq<byte>, k: nat)
    requires k <= |b|
    ensures b[..k] <= b
  {
  }

  lemma AddMod(a: nat, n: nat)
    ensures (a % 8 + n) % 8 == (a + n) % 8
  {
  }

  lemma Regroup(a: seq<bool>, b: seq<bool>, c: seq<bool>)
    ensures (a + b) + c == a + (b + c)
  {
  }
}
