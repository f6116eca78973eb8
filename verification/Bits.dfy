/** Fixed-width integers and bit strings.
    A bit string is a seq<bool> in the order the bits travel in a DEFLATE stream. */
module Bits {
  type byte = x: int | 0 <= x < 0x100
  type u16 = x: int | 0 <= x < 0x1_0000
  type u32 = x: int | 0 <= x < 0x1_0000_0000

  function Pow2(n: nat): (p: nat)
    ensures p >= 1
  {
    if n == 0 then 1 else 2 * Pow2(n - 1)
  }

  lemma Pow2Sum(a: nat, b: nat)
    ensures Pow2(a + b) == Pow2(a) * Pow2(b)
  {
    if a > 0 {
      Pow2Sum(a - 1, b);
    }
  }

  lemma Pow2Monotone(a: nat, b: nat)
    requires a <= b
    ensures Pow2(a) <= Pow2(b)
  {
    Pow2Sum(a, b - a);
    assert Pow2(a) * Pow2(b - a) >= Pow2(a) * 1;
  }

  lemma PowEight()
    ensures Pow2(8) == 256
  {
    assert Pow2(4) == 16;
  }

  /** The low n bits of v, least significant first: how plain integers are packed. */
  function ToBits(v: nat, n: nat): (r: seq<bool>)
    ensures |r| == n
  {
    if n == 0 then [] else [v % 2 == 1] + ToBits(v / 2, n - 1)
  }

  function FromBits(bs: seq<bool>): (v: nat)
    ensures v < Pow2(|bs|)
  {
    if |bs| == 0 then 0 else (if bs[0] then 1 else 0) + 2 * FromBits(bs[1..])
  }

  lemma {:induction false} FromToBits(v: nat, n: nat)
    requires v < Pow2(n)
    ensures FromBits(ToBits(v, n)) == v
  {
    if n == 0 {
    } else {
      FromToBits(v / 2, n - 1);
      assert ToBits(v, n)[1..] == ToBits(v / 2, n - 1);
    }
  }

  /** v shifted left by n. */
  function Shl(v: nat, n: nat): nat
  {
    if n == 0 then v else 2 * Shl(v, n - 1)
  }

  lemma {:induction false} ShlFits(v: nat, n: nat, w: nat, m: nat)
    requires v < Pow2(n) && w < Pow2(m)
    ensures v + Shl(w, n) < Pow2(n + m)
  {
    if n == 0 {
    } else {
      ShlFits(v / 2, n - 1, w, m);
    }
  }

  lemma {:induction false} ToBitsAppend(v: nat, n: nat, w: nat, m: nat)
    requires v < Pow2(n)
    ensures ToBits(v + Shl(w, n), n + m) == ToBits(v, n) + ToBits(w, m)
  {
    if n == 0 {
    } else {
      ToBitsAppend(v / 2, n - 1, w, m);
      assert (v + Shl(w, n)) / 2 == v / 2 + Shl(w, n - 1);
    }
  }

  /** v masked to its low n bits. */
  function LowBits(v: nat, n: nat): (r: nat)
    ensures r < Pow2(n)
  {
    if n == 0 then 0 else v % 2 + 2 * LowBits(v / 2, n - 1)
  }

  lemma {:induction false} ToBitsLow(v: nat, n: nat)
    ensures ToBits(LowBits(v, n), n) == ToBits(v, n) && FromBits(ToBits(v, n)) == LowBits(v, n)
  {
    if n == 0 {
    } else {
      ToBitsLow(v / 2, n - 1);
      assert LowBits(v, n) / 2 == LowBits(v / 2, n - 1);
      assert ToBits(v, n)[1..] == ToBits(v / 2, n - 1);
    }
  }

  /** The low n bits of v, most significant first: how Huffman codes are packed. */
  function MsbBits(v: nat, n: nat): (r: seq<bool>)
    ensures |r| == n
  {
    if n == 0 then [] else MsbBits(v / 2, n - 1) + [v % 2 == 1]
  }

  function Shr(v: nat, n: nat): nat
  {
    if n == 0 then v else Shr(v / 2, n - 1)
  }

  lemma {:induction false} ShrBounds(v: nat, n: nat, lo: nat, hi: nat)
    requires lo * Pow2(n) <= v < hi * Pow2(n)
    ensures lo <= Shr(v, n) < hi
  {
    if n == 0 {
    } else {
      assert lo * Pow2(n) == 2 * (lo * Pow2(n - 1)) && hi * Pow2(n) == 2 * (hi * Pow2(n - 1));
      ShrBounds(v / 2, n - 1, lo, hi);
    }
  }

  lemma {:induction false} ShrAdd(a: nat, w: nat, k: nat)
    ensures Shr(a + Shl(w, k), k) == Shr(a, k) + w
  {
    if k == 0 {
    } else {
      ShrAdd(a / 2, w, k - 1);
    }
  }

  lemma {:induction false} ShrNext(v: nat, n: nat)
    ensures Shr(v, n + 1) == Shr(v, n) / 2
  {
    if n == 0 {
    } else {
      ShrNext(v / 2, n - 1);
    }
  }

  lemma {:induction false} MsbInjective(v: nat, w: nat, n: nat)
    requires v < Pow2(n) && w < Pow2(n) && MsbBits(v, n) == MsbBits(w, n)
    ensures v == w
  {
    if n == 0 {
    } else {
      assert MsbBits(v, n)[n - 1] == (v % 2 == 1) && MsbBits(w, n)[n - 1] == (w % 2 == 1);
      assert MsbBits(v, n)[..n - 1] == MsbBits(v / 2, n - 1) && MsbBits(w, n)[..n - 1] == MsbBits(w / 2, n - 1);
      MsbInjective(v / 2, w / 2, n - 1);
    }
  }

  /** The first k of k + n bits are the bits of the value shifted right by n. */
  lemma {:induction false} MsbPrefix(v: nat, k: nat, n: nat)
    ensures MsbBits(v, k + n)[..k] == MsbBits(Shr(v, n), k)
  {
    if n == 0 {
    } else {
      MsbPrefix(v / 2, k, n - 1);
      assert MsbBits(v, k + n)[..k] == MsbBits(v / 2, k + n - 1)[..k];
    }
  }

  lemma {:induction false} MsbNext(v: nat, k: nat)
    ensures MsbBits(v, k + 1) == [Shr(v, k) % 2 == 1] + MsbBits(v, k)
  {
    if k == 0 {
    } else {
      MsbNext(v / 2, k - 1);
    }
  }

  function BitOr(a: nat, b: nat): nat
  {
    if a == 0 && b == 0 then 0
    else (if a % 2 == 1 || b % 2 == 1 then 1 else 0) + 2 * BitOr(a / 2, b / 2)
  }

  /** Or-ing in a value shifted past all bits of the other one is addition. */
  lemma {:induction false} BitOrShifted(a: nat, w: nat, n: nat)
    requires a < Pow2(n)
    ensures BitOr(a, Shl(w, n)) == a + Shl(w, n)
  {
    if n == 0 {
      BitOrZero(w);
    } else {
      BitOrShifted(a / 2, w, n - 1);
    }
  }

  lemma {:induction false} BitOrZero(b: nat)
    ensures BitOr(0, b) == b
  {
    if b == 0 {
    } else {
      BitOrZero(b / 2);
    }
  }

  function BitXor(a: nat, b: nat): nat
  {
    if a == 0 && b == 0 then 0
    else (if a % 2 != b % 2 then 1 else 0) + 2 * BitXor(a / 2, b / 2)
  }

  /** The bits of a byte stream: section 3.1.1 of RFC 1951. */
  function ByteBits(bs: seq<byte>): (r: seq<bool>)
    ensures |r| == 8 * |bs|
  {
    if |bs| == 0 then [] else ByteBits(bs[..|bs| - 1]) + ToBits(bs[|bs| - 1], 8)
  }

  lemma {:induction false} ByteBitsAppend(a: seq<byte>, b: seq<byte>)
    ensures ByteBits(a + b) == ByteBits(a) + ByteBits(b)
  {
    if |b| == 0 {
      assert a + b == a;
    } else {
      assert (a + b)[..|a + b| - 1] == a + b[..|b| - 1];
      ByteBitsAppend(a, b[..|b| - 1]);
    }
  }
}
