/** mz_adler32: the Adler-32 checksum of section 2.2 of RFC 1950, with the remainders deferred. */
module Adler32 {
  import opened Bits

  const BASE: nat := 65521
  const BLOCK_LEN: nat := 5552

  datatype Sums = Sums(s1: nat, s2: nat)

  /** The definition: both sums are reduced after every byte. */
  function Step(s: Sums, c: byte): Sums {
    var s1 := (s.s1 + c) % BASE;
    Sums(s1, (s.s2 + s1) % BASE)
  }

  function Adler(s: Sums, data: seq<byte>): (r: Sums)
    ensures |data| > 0 ==> r.s1 < BASE && r.s2 < BASE
  {
    if |data| == 0 then s else Step(Adler(s, data[..|data| - 1]), data[|data| - 1])
  }

  function Unpack(adler: u32): Sums {
    Sums(adler % 0x1_0000, adler / 0x1_0000)
  }

  /** Checksums compose: the checksum of a concatenation continues from that of the first part. */
  lemma {:induction false} Compose(s: Sums, a: seq<byte>, b: seq<byte>)
    ensures Adler(s, a + b) == Adler(Adler(s, a), b)
  {
    if |b| == 0 {
      assert a + b == a;
    } else {
      Compose(s, a, b[..|b| - 1]);
      assert (a + b)[..|a + b| - 1] == a + b[..|b| - 1];
    }
  }

  // ---- sums without remainders ----

  function Plain(s: Sums, data: seq<byte>): Sums
  {
    if |data| == 0 then s
    else var p := Plain(s, data[..|data| - 1]); Sums(p.s1 + data[|data| - 1], p.s2 + p.s1 + data[|data| - 1])
  }

  function Triangle(n: nat): nat {
    if n == 0 then 0 else Triangle(n - 1) + n
  }

  lemma {:induction false} TriangleIs(n: nat)
    ensures 2 * Triangle(n) == n * (n + 1)
  {
    if n == 0 {
    } else {
      TriangleIs(n - 1);
    }
  }

  lemma {:induction false} TriangleMonotone(n: nat, m: nat)
    requires n <= m
    ensures Triangle(n) <= Triangle(m)
  {
    if n < m {
      TriangleMonotone(n, m - 1);
    }
  }

  lemma {:induction false} PlainBounds(s: Sums, data: seq<byte>)
    ensures var p := Plain(s, data);
            p.s1 <= s.s1 + 255 * |data| && p.s2 <= s.s2 + |data| * s.s1 + 255 * Triangle(|data|)
  {
    if |data| == 0 {
    } else {
      PlainBounds(s, data[..|data| - 1]);
      OneMoreTimes(|data|, s.s1);
    }
  }

  lemma OneMoreTimes(n: nat, x: nat)
    requires n > 0
    ensures n * x == (n - 1) * x + x
  {
  }

  /** Reduced sums, or a seed's sums over less than a full block, never leave 32 bits. */
  predicate Bounded(s: Sums, n: nat) {
    (n <= BLOCK_LEN && s.s1 < BASE && s.s2 < BASE) || (n < BLOCK_LEN && s.s1 <= 0xFFFF && s.s2 <= 0xFFFF)
  }

  lemma NoOverflow(s: Sums, data: seq<byte>, n: nat)
    requires Bounded(s, n) && |data| <= n
    ensures Plain(s, data).s1 < 0x1_0000_0000 && Plain(s, data).s2 < 0x1_0000_0000
  {
    PlainBounds(s, data);
    TriangleMonotone(|data|, n);
    TimesMonotone(|data|, n, s.s1);
    if n < BLOCK_LEN {
      TriangleMonotone(n, 5551);
      TriangleIs(5551);
      TimesMonotone(n, 5551, s.s1);
    } else {
      TriangleIs(5552);
    }
  }

  lemma TimesMonotone(a: nat, b: nat, x: nat)
    requires a <= b
    ensures a * x <= b * x
  {
  }

  /** Reducing once at the end gives the sums reduced after every byte. */
  lemma {:induction false} DeferredRemainder(s: Sums, data: seq<byte>)
    requires |data| > 0
    ensures var p := Plain(s, data); Sums(p.s1 % BASE, p.s2 % BASE) == Adler(s, data)
  {
    var k := |data| - 1;
    var p := Plain(s, data[..k]);
    if k > 0 {
      DeferredRemainder(s, data[..k]);
    }
    StepRemainder(p, data[k]);
    if k > 0 {
      StepReduced(p, data[k]);
    }
  }

  lemma StepRemainder(p: Sums, c: byte)
    ensures Sums((p.s1 + c) % BASE, (p.s2 + p.s1 + c) % BASE) == Step(p, c)
  {
  }

  lemma StepReduced(p: Sums, c: byte)
    ensures Step(Sums(p.s1 % BASE, p.s2 % BASE), c) == Step(p, c)
  {
  }

  /** Reducing the seed first changes nothing, once there is a byte. */
  lemma {:induction false} SeedReduced(s: Sums, data: seq<byte>)
    requires |data| > 0
    ensures Adler(Sums(s.s1 % BASE, s.s2 % BASE), data) == Adler(s, data)
    decreases |data|
  {
    if |data| == 1 {
      StepReduced(s, data[0]);
      assert data[..0] == [];
    } else {
      SeedReduced(s, data[..|data| - 1]);
    }
  }

  lemma TakeBytes(data: seq<byte>, p: nat, i: nat)
    requires p + i < |data|
    ensures data[p..p + i + 1][..i] == data[p..p + i] && data[p..p + i + 1][i] == data[p + i]
  {
  }

  method AddByte(data: seq<byte>, p: nat, i: nat, n: nat, s1: u32, s2: u32, ghost s: Sums) returns (t1: u32, t2: u32)
    requires i < n && p + n <= |data| && Bounded(s, n) && Sums(s1, s2) == Plain(s, data[p..p + i])
    ensures Sums(t1, t2) == Plain(s, data[p..p + i + 1])
  {
    TakeBytes(data, p, i);
    NoOverflow(s, data[p..p + i + 1], n);
    t1 := s1 as int + data[p + i];
    t2 := s2 as int + t1;
  }

  /** The unrolled part of the loop. */
  method AddEight(data: seq<byte>, p: nat, i: nat, n: nat, s1: u32, s2: u32, ghost s: Sums) returns (t1: u32, t2: u32)
    requires i + 7 < n && p + n <= |data| && Bounded(s, n) && Sums(s1, s2) == Plain(s, data[p..p + i])
    ensures Sums(t1, t2) == Plain(s, data[p..p + i + 8])
  {
    hide Plain, Bounded;
    t1, t2 := AddByte(data, p, i, n, s1, s2, s);
    t1, t2 := AddByte(data, p, i + 1, n, t1, t2, s);
    t1, t2 := AddByte(data, p, i + 2, n, t1, t2, s);
    t1, t2 := AddByte(data, p, i + 3, n, t1, t2, s);
    t1, t2 := AddByte(data, p, i + 4, n, t1, t2, s);
    t1, t2 := AddByte(data, p, i + 5, n, t1, t2, s);
    t1, t2 := AddByte(data, p, i + 6, n, t1, t2, s);
    t1, t2 := AddByte(data, p, i + 7, n, t1, t2, s);
  }

  /** One block, eight bytes at a time and then the rest; no sum leaves 32 bits. */
  method AddBlock(data: seq<byte>, p: nat, n: nat, s1: u32, s2: u32) returns (t1: u32, t2: u32)
    requires p + n <= |data| && Bounded(Sums(s1, s2), n)
    ensures Sums(t1, t2) == Plain(Sums(s1, s2), data[p..p + n])
  {
    ghost var s := Sums(s1, s2);
    t1, t2 := s1, s2;
    var i := 0;
    assert data[p..p] == [];
    assert Plain(s, data[p..p]) == s;
    hide Plain, Bounded;
    while i + 7 < n
      invariant i <= n && Sums(t1, t2) == Plain(s, data[p..p + i])
    {
      t1, t2 := AddEight(data, p, i, n, t1, t2, s);
      i := i + 8;
    }
    while i < n
      invariant i <= n && Sums(t1, t2) == Plain(s, data[p..p + i])
    {
      t1, t2 := AddByte(data, p, i, n, t1, t2, s);
      i := i + 1;
    }
  }

  /** Continuing from (s1, s2) at p gives the checksum of all the data. */
  ghost predicate SameFrom(seed: Sums, data: seq<byte>, p: nat, s1: nat, s2: nat) {
    p <= |data| && Adler(Sums(s1, s2), data[p..]) == Adler(seed, data)
  }

  lemma BlockStep(seed: Sums, data: seq<byte>, p: nat, n: nat, s: Sums)
    requires p + n <= |data| && p < |data| && SameFrom(seed, data, p, s.s1, s.s2)
    ensures var t := Plain(s, data[p..p + n]); SameFrom(seed, data, p + n, t.s1 % BASE, t.s2 % BASE)
  {
    var block, rest := data[p..p + n], data[p + n..];
    assert data[p..] == block + rest;
    if n == 0 {
      SeedReduced(s, rest);
    } else {
      Compose(s, block, rest);
      DeferredRemainder(s, block);
    }
  }

  lemma BlocksLeft(left: nat)
    requires left % BLOCK_LEN == 0 && left > 0
    ensures left >= BLOCK_LEN && (left - BLOCK_LEN) % BLOCK_LEN == 0
  {
  }

  lemma AllAdded(seed: Sums, data: seq<byte>, s1: nat, s2: nat)
    requires SameFrom(seed, data, |data|, s1, s2)
    ensures Sums(s1, s2) == Adler(seed, data)
  {
    assert data[|data|..] == [];
  }

  lemma FirstBlock(n: nat)
    ensures (n - n % BLOCK_LEN) % BLOCK_LEN == 0 && n % BLOCK_LEN < BLOCK_LEN && n % BLOCK_LEN <= n
  {
  }

  method AddReduced(data: seq<byte>, p: nat, n: nat, s1: u32, s2: u32, ghost seed: Sums) returns (t1: u32, t2: u32)
    requires p + n <= |data| && p < |data| && Bounded(Sums(s1, s2), n) && SameFrom(seed, data, p, s1, s2)
    ensures t1 < BASE && t2 < BASE && SameFrom(seed, data, p + n, t1, t2)
  {
    t1, t2 := AddBlock(data, p, n, s1, s2);
    BlockStep(seed, data, p, n, Sums(s1, s2));
    t1, t2 := t1 % BASE, t2 % BASE;
  }

  /** mz_adler32, for any 32-bit seed; with no bytes the seed is returned as it is. */
  method Checksum(adler: u32, data: seq<byte>) returns (r: u32)
    ensures Unpack(r) == Adler(Unpack(adler), data)
  {
    hide Adler, Plain;
    var s1: u32, s2: u32 := adler % 0x1_0000, adler / 0x1_0000;
    FirstBlock(|data|);
    ghost var seed := Unpack(adler);
    var left: nat, blockLen: nat, p: nat := |data|, |data| % BLOCK_LEN, 0;
    assert data[0..] == data;
    while left > 0
      invariant p <= |data| && left == |data| - p
      invariant left > 0 ==> left >= blockLen && (left - blockLen) % BLOCK_LEN == 0
      invariant s1 <= 0xFFFF && s2 <= 0xFFFF && (left > 0 ==> Bounded(Sums(s1, s2), blockLen))
      invariant SameFrom(seed, data, p, s1, s2)
      decreases left, blockLen == 0
    {
      s1, s2 := AddReduced(data, p, blockLen, s1, s2, seed);
      left, p := left - blockLen, p + blockLen;
      blockLen := BLOCK_LEN;
      if left > 0 {
        BlocksLeft(left);
      }
    }
    AllAdded(seed, data, s1, s2);
    r := s2 * 0x1_0000 + s1;
  }
}
