/** The sliding window of the compressor: the wrapping dictionary with its mirrored start, the hash
    chains, tdefl_find_match and the run-length matcher. */
module Window {
  import opened Bits
  import opened LzTokens

  const MIRROR: nat := MAX_MATCH_LEN - 1
  const DICT_BYTES: nat := LZ_DICT_SIZE + MIRROR
  const HASH_SIZE: nat := 32768
  const HASH_BITS: nat := 15
  const HASH_SHIFT: nat := 5
  const U32: nat := 0x1_0000_0000

  /** Where byte p of the history is kept. */
  function Slot(p: nat): (s: nat)
    ensures s < LZ_DICT_SIZE
  {
    p % LZ_DICT_SIZE
  }

  /** Byte p of the history is in its slot, and in the mirror if it belongs there. */
  ghost predicate Kept(d: seq<byte>, h: seq<byte>, p: nat)
    requires |d| == DICT_BYTES && p < |h|
  {
    d[Slot(p)] == h[p] && (Slot(p) < MIRROR ==> d[LZ_DICT_SIZE + Slot(p)] == h[p])
  }

  /** The last 32768 bytes of the history are kept. */
  ghost predicate Holds(d: seq<byte>, h: seq<byte>) {
    |d| == DICT_BYTES && forall p: nat :: p < |h| <= p + LZ_DICT_SIZE ==> Kept(d, h, p)
  }

  lemma SlotsDiffer(p: nat, q: nat)
    requires p < q < p + LZ_DICT_SIZE
    ensures Slot(p) != Slot(q)
  {
  }

  function Written(d: seq<byte>, slot: nat, c: byte): (r: seq<byte>)
    requires |d| == DICT_BYTES && slot < LZ_DICT_SIZE
    ensures |r| == DICT_BYTES
  {
    if slot < MIRROR then d[slot := c][LZ_DICT_SIZE + slot := c] else d[slot := c]
  }

  lemma HoldsSnoc(d: seq<byte>, h: seq<byte>, c: byte)
    requires Holds(d, h)
    ensures Holds(Written(d, Slot(|h|), c), h + [c])
  {
    hide Slot;
    var d' := Written(d, Slot(|h|), c);
    forall p: nat | p < |h + [c]| <= p + LZ_DICT_SIZE
      ensures Kept(d', h + [c], p)
    {
      if p < |h| {
        SlotsDiffer(p, |h|);
        assert Kept(d, h, p);
      }
    }
  }

  lemma NextSlot(p: nat)
    ensures (Slot(p) + 1) % LZ_DICT_SIZE == Slot(p + 1)
  {
  }

  lemma SlotPlus(p: nat, k: nat)
    ensures Slot(p) + k < LZ_DICT_SIZE ==> Slot(p + k) == Slot(p) + k
    ensures LZ_DICT_SIZE <= Slot(p) + k < LZ_DICT_SIZE + LZ_DICT_SIZE ==> Slot(p + k) == Slot(p) + k - LZ_DICT_SIZE
  {
  }

  /** The wrapping window reads like the unbounded history, even across its end. */
  lemma ReadAcross(d: seq<byte>, h: seq<byte>, p: nat, k: nat)
    requires Holds(d, h) && p + k < |h| <= p + k + LZ_DICT_SIZE && Slot(p) + k < DICT_BYTES
    ensures d[Slot(p) + k] == h[p + k]
  {
    SlotPlus(p, k);
    assert Kept(d, h, p + k);
  }

  ghost predicate IsMatch(h: seq<byte>, p: nat, dist: nat, len: nat) {
    1 <= dist <= p && p + len <= |h| && h[p - dist..p - dist + len] == h[p..p + len]
  }

  class Window {
    const dict: array<byte>
    const next: array<u16>
    const hash: array<u16>
    var lookaheadPos: u32
    var lookaheadSize: nat
    var dictSize: nat
    ghost var history: seq<byte>

    ghost predicate Shape() {
      dict.Length == DICT_BYTES && next.Length == LZ_DICT_SIZE && hash.Length == HASH_SIZE && next != hash
      && dict as object != next && dict as object != hash
    }

    ghost function Repr(): set<object> {
      {this, dict, next, hash}
    }

    /** How far the parser has got; the bytes after it are the lookahead. */
    ghost function Pos(): int
      reads this
    {
      |history| - lookaheadSize
    }

    ghost predicate Filling()
      reads this, dict
    {
      && Shape() && Holds(dict[..], history)
      && lookaheadSize <= MAX_MATCH_LEN && lookaheadSize <= |history|
      && lookaheadPos == Pos() % U32
      && dictSize <= Pos()
    }

    ghost predicate Valid()
      reads this, dict
    {
      Filling() && dictSize + lookaheadSize <= LZ_DICT_SIZE
    }

    /** The dictionary and the chains start with arbitrary contents, cleared or not. */
    constructor ()
      ensures Valid() && history == [] && lookaheadSize == 0 && dictSize == 0 && fresh(Repr())
    {
      dict := new byte[DICT_BYTES];
      next := new u16[LZ_DICT_SIZE];
      hash := new u16[HASH_SIZE];
      lookaheadPos, lookaheadSize, dictSize := 0, 0, 0;
      history := [];
    }

    // ---- taking input ----

    /** Stores the next byte of input; the caller has counted it in lookaheadSize. */
    method Store(dstPos: nat, c: byte)
      requires Shape() && Holds(dict[..], history) && dstPos == Slot(|history|)
      modifies dict, this`history
      ensures history == old(history) + [c] && Holds(dict[..], history)
    {
      HoldsSnoc(dict[..], history, c);
      ghost var d := dict[..];
      dict[dstPos] := c;
      if dstPos < MIRROR {
        dict[LZ_DICT_SIZE + dstPos] := c;
      }
      assert dict[..] == Written(d, dstPos, c);
      history := history + [c];
    }

    /** Puts the trigram at insPos at the head of its hash chain. */
    method Chain(insPos: u32, h: nat)
      requires Shape() && h < HASH_SIZE
      modifies next, hash
    {
      next[insPos % LZ_DICT_SIZE] := hash[h];
      hash[h] := insPos % 0x1_0000;
    }

    function HashOf(prev: nat, c: byte): (h: nat)
      ensures h < HASH_SIZE
    {
      PowFifteen();
      LowBits(BitXor(Shl(prev, HASH_SHIFT), c), HASH_BITS)
    }

    /** The fast branch for one byte: the hash is carried on. */
    method RollOne(h: nat, dstPos: nat, insPos: u32, c: byte) returns (h': nat, dstPos': nat, insPos': u32)
      requires Shape() && Holds(dict[..], history) && dstPos == Slot(|history|)
      modifies dict, this`history, next, hash
      ensures history == old(history) + [c] && Holds(dict[..], history) && dstPos' == Slot(|history|)
    {
      hide Holds;
      Store(dstPos, c);
      h' := HashOf(h, c);
      Chain(insPos, h');
      NextSlot(|history| - 1);
      dstPos' := (dstPos + 1) % LZ_DICT_SIZE;
      insPos' := (insPos as int + 1) % U32;
    }

    method FillRolling(src: seq<byte>, n: nat)
      requires Filling() && n <= |src| && lookaheadSize + n <= MAX_MATCH_LEN
               && lookaheadSize + dictSize >= MIN_MATCH_LEN - 1
      modifies this`lookaheadSize, this`history, dict, next, hash
      ensures Filling() && history == old(history) + src[..n] && lookaheadSize == old(lookaheadSize) + n
    {
      hide Holds;
      var end := lookaheadPos as int + lookaheadSize;
      EndPos(|history|, lookaheadSize, lookaheadPos);
      var dstPos: nat, insPos: u32 := end % LZ_DICT_SIZE, (end - 2) % U32;
      var h: nat := BitXor(Shl(dict[insPos % LZ_DICT_SIZE], HASH_SHIFT), dict[(insPos as int + 1) % LZ_DICT_SIZE]);
      lookaheadSize := lookaheadSize + n;
      ghost var was := history;
      var i := 0;
      while i < n
        invariant i <= n && dstPos == Slot(|history|) && Holds(dict[..], history)
        invariant history == was + src[..i] && lookaheadSize == old(lookaheadSize) + n
      {
        h, dstPos, insPos := RollOne(h, dstPos, insPos, src[i]);
        i := i + 1;
      }
    }

    /** The branch for the start of the stream and the byte after a full flush. */
    method FillFirst(src: seq<byte>) returns (n: nat)
      requires Filling()
      modifies this`lookaheadSize, this`history, dict, next, hash
      ensures Filling() && n == Minimum(|src|, MAX_MATCH_LEN - old(lookaheadSize))
      ensures history == old(history) + src[..n] && lookaheadSize == old(lookaheadSize) + n
    {
      n := 0;
      ghost var was := history;
      while n < |src| && lookaheadSize < MAX_MATCH_LEN
        invariant n <= |src| && Filling() && history == was + src[..n] && lookaheadSize == old(lookaheadSize) + n
      {
        var c := src[n];
        var dstPos := (lookaheadPos as int + lookaheadSize) % LZ_DICT_SIZE;
        EndPos(|history|, lookaheadSize, lookaheadPos);
        Store(dstPos, c);
        lookaheadSize := lookaheadSize + 1;
        if lookaheadSize + dictSize >= MIN_MATCH_LEN {
          var insPos: u32 := (lookaheadPos as int + lookaheadSize - 3) % U32;
          var h :=
                BitXor(Shl(dict[insPos % LZ_DICT_SIZE], 2 * HASH_SHIFT),
                       Shl(dict[(insPos as int + 1) % LZ_DICT_SIZE], HASH_SHIFT));
          PowFifteen();
          Chain(insPos, LowBits(BitXor(h, c), HASH_BITS));
        }
        n := n + 1;
      }
    }

    /** Tops the lookahead up to 258 bytes, as far as there is input. */
    method Fill(src: seq<byte>) returns (n: nat)
      requires Valid()
      modifies this`lookaheadSize, this`history, this`dictSize, dict, next, hash
      ensures Valid() && n == Minimum(|src|, MAX_MATCH_LEN - old(lookaheadSize)) && history == old(history) + src[..n]
      ensures lookaheadSize == old(lookaheadSize) + n
      ensures dictSize == Minimum(LZ_DICT_SIZE - lookaheadSize, old(dictSize))
    {
      if lookaheadSize + dictSize >= MIN_MATCH_LEN - 1 {
        n := Minimum(|src|, MAX_MATCH_LEN - lookaheadSize);
        FillRolling(src, n);
      } else {
        n := FillFirst(src);
      }
      dictSize := Minimum(LZ_DICT_SIZE - lookaheadSize, dictSize);
    }

    // ---- looking for matches ----

    /** Whether the byte at p and its neighbour are the ones looked for. */
    method Probe(probePos: nat, maxDist: nat, len: nat, c0: byte, c1: byte)
      returns (stop: bool, hit: bool, probePos': nat, dist: nat)
      requires Shape() && probePos < LZ_DICT_SIZE && 1 <= len <= MIRROR
      ensures !stop ==> dist <= maxDist && probePos' == (lookaheadPos - dist) % LZ_DICT_SIZE
    {
      hit, probePos', dist := false, probePos, 0;
      var nextProbe := next[probePos];
      stop := nextProbe == 0;
      if !stop {
        dist := (lookaheadPos - nextProbe) % 0x1_0000;
        stop := dist > maxDist;
        if !stop {
          ProbeSlot(lookaheadPos, nextProbe);
          probePos' := nextProbe % LZ_DICT_SIZE;
          hit := dict[probePos' + len] == c0 && dict[probePos' + len - 1] == c1;
        }
      }
    }

    /** One round of three probes. */
    method ProbeThree(probePos: nat, maxDist: nat, len: nat, c0: byte, c1: byte)
      returns (stop: bool, hit: bool, probePos': nat, dist: nat)
      requires Shape() && probePos < LZ_DICT_SIZE && 1 <= len <= MIRROR
      ensures !stop ==> dist <= maxDist && probePos' == (lookaheadPos - dist) % LZ_DICT_SIZE
    {
      stop, hit, probePos', dist := Probe(probePos, maxDist, len, c0, c1);
      if !stop && !hit {
        stop, hit, probePos', dist := Probe(probePos', maxDist, len, c0, c1);
      }
      if !stop && !hit {
        stop, hit, probePos', dist := Probe(probePos', maxDist, len, c0, c1);
      }
    }

    /** How many bytes agree, of at most max. */
    method Compare(pos: nat, probePos: nat, max: nat, ghost dist: nat) returns (n: nat)
      requires Valid() && max <= lookaheadSize && pos == Slot(Pos()) && 1 <= dist <= dictSize
               && probePos == Slot(Pos() - dist)
      ensures n <= max && IsMatch(history, Pos(), dist, n)
      ensures n < max ==> history[Pos() - dist + n] != history[Pos() + n]
    {
      hide IsMatch;
      MatchNothing(history, Pos(), dist);
      n := 0;
      while n < max && dict[pos + n] == dict[probePos + n]
        invariant n <= max && IsMatch(history, Pos(), dist, n)
      {
        ReadBoth(dict[..], history, Pos(), dist, n);
        MatchOneMore(history, Pos(), dist, n);
        n := n + 1;
      }
      if n < max {
        ReadBoth(dict[..], history, Pos(), dist, n);
      }
    }

    /** tdefl_find_match: the best match found is at least one byte longer than len0, and it is genuine. */
    method FindMatch(maxDist: nat, maxMatchLen: nat, dist0: nat, len0: nat, maxProbes: nat)
      returns (dist: nat, len: nat)
      requires Valid() && maxDist == dictSize && maxMatchLen == lookaheadSize && 1 <= len0 <= MIRROR && maxProbes >= 1
      ensures (dist == dist0 && len == len0) ||
              (1 <= dist <= dictSize && len0 < len <= lookaheadSize && IsMatch(history, Pos(), dist, len))
    {
      dist, len := dist0, len0;
      var pos: nat := lookaheadPos % LZ_DICT_SIZE;
      var probePos: nat, probesLeft := pos, maxProbes;
      EndPos(Pos(), 0, lookaheadPos);
      var c0, c1 := dict[pos + len], dict[pos + len - 1];
      if maxMatchLen <= len {
        return;
      }
      while true
        invariant (dist == dist0 && len == len0) ||
                  (1 <= dist <= dictSize && len0 < len && IsMatch(history, Pos(), dist, len))
        invariant 1 <= len < maxMatchLen && probePos < LZ_DICT_SIZE && probesLeft >= 1
        decreases probesLeft
      {
        ghost var top := probesLeft;
        var hit, stop, d: nat := false, false, 0;
        while !hit
          invariant probePos < LZ_DICT_SIZE && 1 <= probesLeft <= top && (hit ==> probesLeft < top)
          invariant hit ==> d <= maxDist && probePos == (lookaheadPos - d) % LZ_DICT_SIZE
          decreases probesLeft
        {
          probesLeft := probesLeft - 1;
          if probesLeft == 0 {
            return;
          }
          stop, hit, probePos, d := ProbeThree(probePos, maxDist, len, c0, c1);
          if stop {
            return;
          }
        }
        if d == 0 {
          return;
        }
        BackSlot(Pos(), lookaheadPos, d);
        var probeLen := Compare(pos, probePos, maxMatchLen, d);
        if probeLen > len {
          dist, len := d, probeLen;
          if len == maxMatchLen {
            return;
          }
          c0, c1 := dict[pos + len], dict[pos + len - 1];
        }
      }
    }

    /** The matcher used when only runs are wanted: how often the last byte repeats. */
    method FindRun() returns (len: nat)
      requires Valid() && dictSize > 0
      ensures len <= lookaheadSize && IsMatch(history, Pos(), 1, len)
      ensures len < lookaheadSize ==> history[Pos() + len] != history[Pos() - 1]
    {
      RunStart();
      hide Valid, Shape, Holds, IsMatch, Slot;
      var pos: nat := lookaheadPos % LZ_DICT_SIZE;
      var c := dict[(pos - 1) % LZ_DICT_SIZE];
      len := 0;
      while len < lookaheadSize && dict[pos + len] == c
        invariant len <= lookaheadSize && IsMatch(history, Pos(), 1, len)
        invariant history[Pos() - 1 + len] == c
      {
        ReadAhead(len);
        MatchOneMore(history, Pos(), 1, len);
        len := len + 1;
      }
      if len < lookaheadSize {
        ReadAhead(len);
      }
    }

    /** The byte before the parser, and the empty match. */
    lemma RunStart()
      requires Valid() && dictSize > 0
      ensures dict.Length == DICT_BYTES && Pos() >= 1 && Pos() + lookaheadSize == |history|
              && lookaheadSize <= MAX_MATCH_LEN
      ensures dict[(lookaheadPos % LZ_DICT_SIZE - 1) % LZ_DICT_SIZE] == history[Pos() - 1]
              && IsMatch(history, Pos(), 1, 0)
    {
      var pos: nat := lookaheadPos % LZ_DICT_SIZE;
      EndPos(Pos(), 0, lookaheadPos);
      BackSlot(Pos(), pos, 1);
      ReadAcross(dict[..], history, Pos() - 1, 0);
    }

    /** What the window holds n bytes ahead of the parser. */
    lemma ReadAhead(n: nat)
      requires Valid() && n < lookaheadSize
      ensures Pos() + n < |history| && dict.Length == DICT_BYTES && lookaheadPos % LZ_DICT_SIZE + n < DICT_BYTES
      ensures dict[lookaheadPos % LZ_DICT_SIZE + n] == history[Pos() + n]
    {
      EndPos(Pos(), 0, lookaheadPos);
      ReadAcross(dict[..], history, Pos(), n);
    }

    /** Moves the parser forward. */
    method Advance(n: nat)
      requires Valid() && n <= lookaheadSize
      modifies this`lookaheadPos, this`lookaheadSize, this`dictSize
      ensures Valid() && lookaheadSize == old(lookaheadSize) - n && dictSize == Minimum(old(dictSize) + n, LZ_DICT_SIZE)
    {
      WrapAdd(Pos(), n);
      lookaheadPos := (lookaheadPos as int + n) % U32;
      lookaheadSize := lookaheadSize - n;
      dictSize := Minimum(dictSize + n, LZ_DICT_SIZE);
    }

    /** A full flush forgets the chains and the dictionary. */
    method Forget()
      requires Valid()
      modifies this`dictSize, next, hash
      ensures Valid() && dictSize == 0
    {
      ClearChain(hash);
      ClearChain(next);
      dictSize := 0;
    }
  }

  method ClearChain(a: array<u16>)
    modifies a
    ensures forall i :: 0 <= i < a.Length ==> a[i] == 0
  {
    var i := 0;
    while i < a.Length
      invariant 0 <= i <= a.Length && forall k :: 0 <= k < i ==> a[k] == 0
    {
      a[i] := 0;
      i := i + 1;
    }
  }

  lemma WrapAdd(p: nat, n: nat)
    ensures (p % U32 + n) % U32 == (p + n) % U32
  {
  }

  /** The 16-bit distance and the chain entry name the same slot. */
  lemma ProbeSlot(pos: nat, probe: nat)
    ensures probe % LZ_DICT_SIZE == (pos - (pos - probe) % 0x1_0000) % LZ_DICT_SIZE
  {
  }

  lemma BackSlot(p: nat, pos: nat, d: nat)
    requires d <= p && pos % LZ_DICT_SIZE == Slot(p)
    ensures (pos - d) % LZ_DICT_SIZE == Slot(p - d)
  {
  }

  lemma ReadBoth(d: seq<byte>, h: seq<byte>, p: nat, dist: nat, k: nat)
    requires Holds(d, h) && 1 <= dist <= p && p + k < |h| <= p - dist + LZ_DICT_SIZE && k < MAX_MATCH_LEN
    ensures Slot(p) + k < DICT_BYTES && Slot(p - dist) + k < DICT_BYTES
    ensures d[Slot(p) + k] == h[p + k] && d[Slot(p - dist) + k] == h[p - dist + k]
  {
    hide Slot;
    ReadAcross(d, h, p, k);
    ReadAcross(d, h, p - dist, k);
  }

  lemma MatchNothing(h: seq<byte>, p: nat, dist: nat)
    requires 1 <= dist <= p <= |h|
    ensures IsMatch(h, p, dist, 0)
  {
  }

  lemma MatchOneMore(h: seq<byte>, p: nat, dist: nat, k: nat)
    requires IsMatch(h, p, dist, k) && p + k < |h| && h[p - dist + k] == h[p + k]
    ensures IsMatch(h, p, dist, k + 1)
  {
    assert h[p - dist..p - dist + k + 1] == h[p - dist..p - dist + k] + [h[p - dist + k]];
    assert h[p..p + k + 1] == h[p..p + k] + [h[p + k]];
  }

  function Minimum(a: int, b: int): int {
    if a < b then a else b
  }

  lemma PowFifteen()
    ensures Pow2(15) == HASH_SIZE
  {
    assert Pow2(3) == 8;
    assert Pow2(6) == 64;
    assert Pow2(9) == 512;
    assert Pow2(12) == 4096;
  }

  /** The 32-bit position wraps without disturbing slots. */
  lemma EndPos(n: nat, size: nat, pos: nat)
    requires size <= n && pos == (n - size) % U32
    ensures (pos + size) % LZ_DICT_SIZE == Slot(n)
  {
  }
}
