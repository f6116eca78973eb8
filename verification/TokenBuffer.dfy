/** The compressor's token buffer: tdefl_record_literal, tdefl_record_match, and the
    closing of the last flag byte when a block is flushed. */
module TokenBuffer {
  import opened Bits
  import opened LzTokens
  import opened LzAlphabet

  const LZ_CODE_BUF_SIZE := 0x1_0000

  /** Bytes up to f are finished groups; the group with its flag byte at f holds the tokens of cur,
      whose flags are the top bits of that byte; the bits below them are stale. */
  ghost predicate Packed(b: seq<byte>, f: nat, c: nat, left: nat, full: seq<Token>, cur: seq<Token>) {
    && f < c <= |b| && 1 <= left <= 8
    && |full| % 8 == 0 && |cur| == 8 - left
    && b[..f] == Layout(full)
    && b[f + 1..c] == Payloads(cur)
    && Shr(b[f], left) == Flags(cur)
  }

  ghost predicate PackedTokens(b: seq<byte>, f: nat, c: nat, left: nat, ts: seq<Token>) {
    |ts| >= 8 - left >= 0 && Packed(b, f, c, left, FullGroups(ts, left), PartialGroup(ts, left))
  }

  /** The tokens of complete groups, and those of the group that still takes `left` tokens. */
  function FullGroups(ts: seq<Token>, left: nat): seq<Token>
    requires |ts| >= 8 - left >= 0
  {
    ts[..|ts| - (8 - left)]
  }

  function PartialGroup(ts: seq<Token>, left: nat): seq<Token>
    requires |ts| >= 8 - left >= 0
  {
    ts[|ts| - (8 - left)..]
  }

  lemma PackToken(b: seq<byte>, f: nat, c: nat, left: nat, ts: seq<Token>, t: Token)
    requires PackedTokens(b, f, c, left, ts) && c + |Payload(t)| < |b|
    ensures var b' := WithPayload(b, c, t)[f := NextFlags(b[f], t.Match?)]; var c' := c + |Payload(t)|;
            if left > 1 then PackedTokens(b', f, c', left - 1, ts + [t]) else PackedTokens(b', c', c' + 1, 8, ts + [t])
  {
    var full, cur := FullGroups(ts, left), PartialGroup(ts, left);
    assert full + cur == ts;
    if left > 1 {
      PackInside(b, f, c, left, full, cur, t);
      assert FullGroups(ts + [t], left - 1) == full && PartialGroup(ts + [t], left - 1) == cur + [t];
    } else {
      PackLast(b, f, c, full, cur, t);
      assert FullGroups(ts + [t], 8) == full + (cur + [t]) && PartialGroup(ts + [t], 8) == [];
    }
  }

  function NextFlags(v: byte, isMatch: bool): (r: byte)
  {
    if isMatch then v / 2 + 128 else v / 2
  }

  lemma TopFlag(left: nat)
    requires 1 <= left <= 8
    ensures Shl(Pow2(8 - left), left - 1) == 128
  {
    ShlPow(8 - left, left - 1);
    assert Pow2(7) == 128 by { assert Pow2(3) == 8; }
  }

  lemma {:induction false} ShlPow(a: nat, n: nat)
    ensures Shl(Pow2(a), n) == Pow2(a + n)
  {
    if n == 0 {
    } else {
      ShlPow(a, n - 1);
    }
  }

  lemma FlagsShift(v: byte, left: nat, cur: seq<Token>, t: Token)
    requires 1 <= left <= 8 && |cur| == 8 - left && Shr(v, left) == Flags(cur)
    ensures Shr(NextFlags(v, t.Match?), left - 1) == Flags(cur + [t])
  {
    FlagsSnoc(cur, t);
    if t.Match? {
      TopFlag(left);
      ShrAdd(v / 2, Pow2(8 - left), left - 1);
    }
  }

  /** b with the payload of t written at c. */
  function WithPayload(b: seq<byte>, c: nat, t: Token): seq<byte>
    requires c + |Payload(t)| <= |b|
  {
    b[..c] + Payload(t) + b[c + |Payload(t)|..]
  }

  /** Recording a token inside a group. */
  lemma PackInside(b: seq<byte>, f: nat, c: nat, left: nat, full: seq<Token>, cur: seq<Token>, t: Token)
    requires Packed(b, f, c, left, full, cur) && left > 1 && c + |Payload(t)| <= |b|
    ensures Packed(WithPayload(b, c, t)[f := NextFlags(b[f], t.Match?)], f, c + |Payload(t)|, left - 1, full, cur + [t])
  {
    FlagsShift(b[f], left, cur, t);
    PayloadsSnoc(cur, t);
    PackBytes(b, f, c, t, NextFlags(b[f], t.Match?));
  }

  lemma PackBytes(b: seq<byte>, f: nat, c: nat, t: Token, v: byte)
    requires f < c && c + |Payload(t)| <= |b|
    ensures var b' := WithPayload(b, c, t)[f := v]; var c' := c + |Payload(t)|;
            |b'| == |b| && b'[..f] == b[..f] && b'[f + 1..c'] == b[f + 1..c] + Payload(t) && b'[f] == v
  {
  }

  /** Recording the eighth token of a group claims a new flag byte, whatever it holds. */
  lemma PackLast(b: seq<byte>, f: nat, c: nat, full: seq<Token>, cur: seq<Token>, t: Token)
    requires Packed(b, f, c, 1, full, cur) && c + |Payload(t)| < |b|
    ensures var c' := c + |Payload(t)|;
            Packed(WithPayload(b, c, t)[f := NextFlags(b[f], t.Match?)], c', c' + 1, 8, full + (cur + [t]), [])
  {
    hide Layout, Payloads, Flags, Payload, NextFlags;
    var b', c' := WithPayload(b, c, t)[f := NextFlags(b[f], t.Match?)], c + |Payload(t)|;
    FlagsShift(b[f], 1, cur, t);
    PayloadsSnoc(cur, t);
    PackBytes(b, f, c, t, NextFlags(b[f], t.Match?));
    GroupBytes(b', f, c', full, cur + [t]);
    ByteShiftedOut(b'[c']);
    EmptyGroup();
  }

  lemma EmptyGroup()
    ensures Payloads([]) == [] && Flags([]) == 0
  {
  }

  lemma ByteShiftedOut(v: byte)
    ensures Shr(v, 8) == 0
  {
    assert Pow2(8) == 256 by { assert Pow2(4) == 16; }
    ShrBounds(v, 8, 0, 1);
  }

  lemma GroupBytes(b: seq<byte>, f: nat, c: nat, full: seq<Token>, g: seq<Token>)
    requires f < c <= |b| && |full| % 8 == 0 && 0 < |g| <= 8
    requires b[..f] == Layout(full) && b[f + 1..c] == Payloads(g) && b[f] == Flags(g)
    ensures b[..c] == Layout(full + g)
  {
    LayoutAppend(full, g);
    LayoutOfGroup(g);
    JoinBytes(b, f, c);
  }

  lemma JoinBytes(b: seq<byte>, f: nat, c: nat)
    requires f < c <= |b|
    ensures b[..c] == b[..f] + ([b[f]] + b[f + 1..c])
  {
  }

  lemma DistSymSmall(t: Token)
    requires t.Valid() && t.Match?
    ensures MatchDistSym(t) < 30
  {
    DistFits(t.dist - 1);
  }

  ghost predicate CountsMatch(count0: seq<u16>, count1: seq<u16>, ts: seq<Token>) {
    && |count0| == LITLEN_SYMBOLS && |count1| == LITLEN_SYMBOLS
    && (forall s :: 0 <= s < |count0| ==> count0[s] == LitLenCount(ts, s))
    && (forall s :: 0 <= s < |count1| ==> count1[s] == DistCount(ts, s))
  }

  lemma {:induction false} CountAtMost(ts: seq<Token>, s: nat)
    ensures LitLenCount(ts, s) <= |ts| && DistCount(ts, s) <= |ts|
  {
    if |ts| == 0 {
    } else {
      CountAtMost(ts[..|ts| - 1], s);
    }
  }

  class Buffer {
    const buf: array<byte>
    const count0: array<u16>
    const count1: array<u16>
    var codePos: nat
    var flagsPos: nat
    var numFlagsLeft: nat
    var totalLzBytes: nat
    ghost var tokens: seq<Token>

    ghost function Repr(): set<object> {
      {this, buf, count0, count1}
    }

    ghost predicate Valid()
      reads this, buf, count0, count1
    {
      && buf.Length == LZ_CODE_BUF_SIZE && buf as object != count0 && buf as object != count1 && count0 != count1
      && (forall i :: 0 <= i < |tokens| ==> tokens[i].Valid())
      && PackedTokens(buf[..], flagsPos, codePos, numFlagsLeft, tokens)
      && totalLzBytes == TotalSize(tokens)
      && CountsMatch(count0[..], count1[..], tokens)
    }

    constructor ()
      ensures Valid() && tokens == [] && fresh(Repr()) && codePos == 1
    {
      buf := new byte[LZ_CODE_BUF_SIZE];
      count0 := new u16[LITLEN_SYMBOLS](_ => 0);
      count1 := new u16[LITLEN_SYMBOLS](_ => 0);
      codePos, flagsPos, numFlagsLeft, totalLzBytes := 1, 0, 8, 0;
      tokens := [];
      new;
      ByteShiftedOut(buf[0]);
    }

    /** Starts the next block; the bytes of the last one stay in the buffer. */
    method Reset()
      requires buf.Length == LZ_CODE_BUF_SIZE && buf as object != count0 && buf as object != count1 && count0 != count1
      requires count0.Length == LITLEN_SYMBOLS && count1.Length == LITLEN_SYMBOLS
      modifies this, count0, count1
      ensures Valid() && tokens == [] && codePos == 1
    {
      ClearCounts(count0);
      ClearCounts(count1);
      codePos, flagsPos, numFlagsLeft, totalLzBytes := 1, 0, 8, 0;
      tokens := [];
      ByteShiftedOut(buf[0]);
    }

    /** No count can wrap: the buffer is too small for 65535 tokens. */
    lemma FewTokens()
      requires Valid()
      ensures 9 * |tokens| < 8 * codePos <= 8 * LZ_CODE_BUF_SIZE
    {
      LayoutAtLeast(FullGroups(tokens, numFlagsLeft));
      PayloadsBounds(PartialGroup(tokens, numFlagsLeft));
    }

    /** The buffer holds the layout of its tokens, and perhaps a flag byte that no token has claimed yet. */
    lemma LayoutLength()
      requires Valid()
      ensures codePos <= |Layout(tokens)| + 1
    {
      var full, cur := FullGroups(tokens, numFlagsLeft), PartialGroup(tokens, numFlagsLeft);
      assert tokens == full + cur;
      LayoutAppend(full, cur);
      if |cur| > 0 {
        LayoutOfGroup(cur);
      }
    }

    /** Stores the payload bytes and shifts the flag in. */
    method Store(t: Token)
      requires codePos + |Payload(t)| < buf.Length && flagsPos < codePos
      modifies buf
      ensures buf[..] == WithPayload(old(buf[..]), codePos, t)[flagsPos := NextFlags(old(buf[flagsPos]), t.Match?)]
    {
      var n := |Payload(t)|;
      forall i | 0 <= i < n {
        buf[codePos + i] := Payload(t)[i];
      }
      buf[flagsPos] := NextFlags(buf[flagsPos], t.Match?);
    }

    method Pack(t: Token)
      requires Valid() && codePos + |Payload(t)| < buf.Length
      modifies this`codePos, this`flagsPos, this`numFlagsLeft, buf
      ensures codePos <= old(codePos) + |Payload(t)| + 1
      ensures PackedTokens(buf[..], flagsPos, codePos, numFlagsLeft, tokens + [t])
    {
      PackToken(buf[..], flagsPos, codePos, numFlagsLeft, tokens, t);
      Store(t);
      codePos := codePos + |Payload(t)|;
      numFlagsLeft := numFlagsLeft - 1;
      if numFlagsLeft == 0 {
        numFlagsLeft := 8;
        flagsPos, codePos := codePos, codePos + 1;
      }
    }

    method RecordLiteral(lit: byte)
      requires Valid() && codePos + 1 < buf.Length
      modifies Repr()
      ensures Valid() && tokens == old(tokens) + [Literal(lit)] && codePos <= old(codePos) + 2
    {
      var t := Literal(lit);
      FewTokens();
      Pack(t);
      RecordCounts(t);
    }

    method RecordMatch(matchLen: nat, matchDist: nat)
      requires Valid() && codePos + 3 < buf.Length
      requires MIN_MATCH_LEN <= matchLen <= MAX_MATCH_LEN && 1 <= matchDist <= LZ_DICT_SIZE
      modifies Repr()
      ensures Valid() && tokens == old(tokens) + [Match(matchLen, matchDist)] && codePos <= old(codePos) + 4
    {
      var t := Match(matchLen, matchDist);
      FewTokens();
      Pack(t);
      RecordCounts(t);
    }

    /** The byte total and the two symbol histograms. */
    method RecordCounts(t: Token)
      requires t.Valid() && CountsMatch(count0[..], count1[..], tokens) && |tokens| < 0xFFFF
      requires totalLzBytes == TotalSize(tokens) && count0 != count1
      modifies this`totalLzBytes, this`tokens, count0, count1
      ensures tokens == old(tokens) + [t] && totalLzBytes == TotalSize(tokens)
      ensures CountsMatch(count0[..], count1[..], tokens)
    {
      hide LitLenSym, MatchDistSym;
      CountAtMost(tokens, LitLenSym(t));
      totalLzBytes := totalLzBytes + t.Size();
      count0[LitLenSym(t)] := count0[LitLenSym(t)] + 1;
      if t.Match? {
        CountAtMost(tokens, MatchDistSym(t));
        DistSymSmall(t);
        count1[MatchDistSym(t)] := count1[MatchDistSym(t)] + 1;
      }
      tokens := tokens + [t];
      assert tokens[..|tokens| - 1] == old(tokens);
    }

    /** Shifts the unused bits out of the last flag byte, or gives back a flag byte no token claimed:
        now the buffer is the layout of all tokens recorded. */
    method Close()
      requires Valid()
      modifies this`codePos, buf
      ensures codePos <= old(codePos) && buf[..codePos] == Layout(tokens)
      ensures flagsPos < buf.Length
    {
      ghost var full, cur := FullGroups(tokens, numFlagsLeft), PartialGroup(tokens, numFlagsLeft);
      ghost var b := buf[..];
      assert tokens == full + cur;
      buf[flagsPos] := ShiftByte(buf[flagsPos], numFlagsLeft);
      if numFlagsLeft == 8 {
        codePos := codePos - 1;
        assert cur == [] && tokens == full;
        assert buf[..codePos] == b[..flagsPos];
      } else {
        assert buf[..flagsPos] == b[..flagsPos] && buf[flagsPos + 1..codePos] == b[flagsPos + 1..codePos];
        GroupBytes(buf[..], flagsPos, codePos, full, cur);
      }
    }
  }

  function ShiftByte(v: byte, n: nat): (r: byte)
    ensures r == Shr(v, n)
  {
    ShrAtMost(v, n);
    Shr(v, n)
  }

  lemma {:induction false} ShrAtMost(v: nat, n: nat)
    ensures Shr(v, n) <= v
  {
    if n == 0 {
    } else {
      ShrAtMost(v / 2, n - 1);
    }
  }

  method ClearCounts(a: array<u16>)
    modifies a
    ensures forall i :: 0 <= i < a.Length ==> a[i] == 0
  {
    var i := 0;
    while i < a.Length
      invariant 0 <= i <= a.Length && forall k :: 0 <= k < i ==> a[k] == 0
    {
      a[i] := 0;
      i := i + 1;
    }
  }
}
