/** LZ77 tokens, what they expand to, and the flag-packed byte layout they are buffered in. */
module LzTokens {
  import opened Bits

  const MIN_MATCH_LEN := 3
  const MAX_MATCH_LEN := 258
  const LZ_DICT_SIZE := 32768

  datatype Token = Literal(lit: byte) | Match(len: nat, dist: nat) {
    predicate Valid() {
      Match? ==> MIN_MATCH_LEN <= len <= MAX_MATCH_LEN && 1 <= dist <= LZ_DICT_SIZE
    }

    /** How many bytes of data the token stands for. */
    function Size(): nat {
      if Literal? then 1 else len
    }
  }

  // ---- expansion: section 3.2.3 of RFC 1951 ----

  /** Appends len bytes, each a copy of the one dist back; source and copy may overlap. */
  function Copy(data: seq<byte>, len: nat, dist: nat): (r: seq<byte>)
    requires 1 <= dist <= |data|
    ensures |r| == |data| + len
  {
    if len == 0 then data
    else var d := Copy(data, len - 1, dist); d + [d[|d| - dist]]
  }

  predicate CanExpandOne(data: seq<byte>, t: Token) {
    t.Valid() && (t.Match? ==> t.dist <= |data|)
  }

  function ExpandOne(data: seq<byte>, t: Token): (r: seq<byte>)
    requires CanExpandOne(data, t)
    ensures |r| == |data| + t.Size()
  {
    if t.Literal? then data + [t.lit] else Copy(data, t.len, t.dist)
  }

  /** No token reaches back past the start of the data. */
  ghost predicate CanExpand(data: seq<byte>, ts: seq<Token>)
    decreases |ts|, 0
  {
    |ts| == 0 ||
    (CanExpand(data, ts[..|ts| - 1]) && CanExpandOne(Expand(data, ts[..|ts| - 1]), ts[|ts| - 1]))
  }

  ghost function Expand(data: seq<byte>, ts: seq<Token>): seq<byte>
    requires CanExpand(data, ts)
    decreases |ts|, 1
  {
    if |ts| == 0 then data else ExpandOne(Expand(data, ts[..|ts| - 1]), ts[|ts| - 1])
  }

  function TotalSize(ts: seq<Token>): nat
  {
    if |ts| == 0 then 0 else TotalSize(ts[..|ts| - 1]) + ts[|ts| - 1].Size()
  }

  lemma {:induction false} ExpandSize(data: seq<byte>, ts: seq<Token>)
    requires CanExpand(data, ts)
    ensures |Expand(data, ts)| == |data| + TotalSize(ts)
  {
    if |ts| == 0 {
    } else {
      ExpandSize(data, ts[..|ts| - 1]);
    }
  }

  lemma ExpandSnoc(data: seq<byte>, ts: seq<Token>, t: Token)
    requires CanExpand(data, ts) && CanExpandOne(Expand(data, ts), t)
    ensures CanExpand(data, ts + [t]) && Expand(data, ts + [t]) == ExpandOne(Expand(data, ts), t)
    ensures TotalSize(ts + [t]) == TotalSize(ts) + t.Size()
  {
    assert (ts + [t])[..|ts|] == ts;
  }

  lemma {:induction false} ExpandFront(data: seq<byte>, ts: seq<Token>)
    requires |ts| > 0 && CanExpand(data, ts)
    ensures CanExpandOne(data, ts[0]) && CanExpand(ExpandOne(data, ts[0]), ts[1..])
    ensures Expand(data, ts) == Expand(ExpandOne(data, ts[0]), ts[1..])
  {
    var k := |ts| - 1;
    if k == 0 {
      assert ts[..0] == [];
    } else {
      ExpandFront(data, ts[..k]);
      assert ts[..k][1..] == ts[1..][..k - 1];
    }
  }

  lemma TakeSlice(s: seq<byte>, a: nat, n: nat)
    requires n > 0 && a + n <= |s|
    ensures s[a..a + (n - 1)] == s[a..a + n][..n - 1]
  {
  }

  /** A match found in the data expands to that data. */
  lemma {:induction false} GenuineMatch(data: seq<byte>, p: nat, len: nat, dist: nat)
    requires 1 <= dist <= p && p + len <= |data|
    requires data[p - dist..p - dist + len] == data[p..p + len]
    ensures Copy(data[..p], len, dist) == data[..p + len]
  {
    if len == 0 {
    } else {
      var a, b := data[p - dist..p - dist + len], data[p..p + len];
      TakeSlice(data, p - dist, len);
      TakeSlice(data, p, len);
      GenuineMatch(data, p, len - 1, dist);
      var d := data[..p + len - 1];
      assert d[|d| - dist] == a[len - 1] && data[p + len - 1] == b[len - 1];
    }
  }

  // ---- byte layout: a flag byte, then the payloads of up to eight tokens ----

  function Payload(t: Token): (r: seq<byte>)
    ensures |r| == if t.Literal? then 1 else 3
  {
    if t.Literal? then [t.lit] else [(t.len - MIN_MATCH_LEN) % 256, (t.dist - 1) % 256, (t.dist - 1) / 256 % 256]
  }

  /** A valid match survives the three bytes it is packed into. */
  lemma PayloadKeepsMatch(t: Token)
    requires t.Valid() && t.Match?
    ensures Payload(t)[0] as int + MIN_MATCH_LEN == t.len
    ensures Payload(t)[1] as int + 256 * (Payload(t)[2] as int) + 1 == t.dist
  {
  }

  function Payloads(ts: seq<Token>): seq<byte>
  {
    if |ts| == 0 then [] else Payload(ts[0]) + Payloads(ts[1..])
  }

  /** Bit i is set when token i is a match. */
  function Flags(ts: seq<Token>): nat
  {
    if |ts| == 0 then 0 else (if ts[0].Match? then 1 else 0) + 2 * Flags(ts[1..])
  }

  lemma {:induction false} FlagsSnoc(ts: seq<Token>, t: Token)
    ensures Flags(ts + [t]) == Flags(ts) + if t.Match? then Pow2(|ts|) else 0
    ensures Flags(ts) < Pow2(|ts|)
  {
    if |ts| == 0 {
      assert (ts + [t])[1..] == [];
    } else {
      FlagsSnoc(ts[1..], t);
      assert (ts + [t])[1..] == ts[1..] + [t];
    }
  }

  lemma FlagsFit(ts: seq<Token>)
    requires |ts| <= 8
    ensures Flags(ts) < 256
  {
    FlagsSnoc(ts, Literal(0));
    Pow2Monotone(|ts|, 8);
    assert Pow2(8) == 256;
  }

  function FlagByte(ts: seq<Token>): (b: byte)
    requires |ts| <= 8
    ensures b as int == Flags(ts)
  {
    FlagsFit(ts);
    Flags(ts)
  }

  function Group(ts: seq<Token>): (g: seq<byte>)
    requires |ts| <= 8
  {
    [FlagByte(ts)] + Payloads(ts)
  }

  /** The first group of up to eight tokens, and what follows it. */
  function FirstGroup(ts: seq<Token>): seq<Token> {
    if |ts| <= 8 then ts else ts[..8]
  }

  function LaterGroups(ts: seq<Token>): seq<Token> {
    if |ts| <= 8 then [] else ts[8..]
  }

  function Layout(ts: seq<Token>): seq<byte>
    decreases |ts|
  {
    if |ts| == 0 then [] else Group(FirstGroup(ts)) + Layout(LaterGroups(ts))
  }

  lemma LayoutOfGroup(g: seq<Token>)
    requires 0 < |g| <= 8
    ensures Layout(g) == [FlagByte(g)] + Payloads(g)
  {
    assert Layout(g) == Group(g) + [];
  }

  lemma {:induction false} PayloadsSnoc(ts: seq<Token>, t: Token)
    ensures Payloads(ts + [t]) == Payloads(ts) + Payload(t)
  {
    if |ts| == 0 {
      assert (ts + [t])[1..] == [];
    } else {
      PayloadsSnoc(ts[1..], t);
      assert (ts + [t])[1..] == ts[1..] + [t];
    }
  }

  lemma LayoutStep(ts: seq<Token>)
    requires |ts| >= 8
    ensures Layout(ts) == Group(ts[..8]) + Layout(ts[8..])
  {
    if |ts| == 8 {
      assert ts[..8] == ts;
    }
  }

  lemma {:induction false} LayoutAppend(full: seq<Token>, last: seq<Token>)
    requires |full| % 8 == 0
    ensures Layout(full + last) == Layout(full) + Layout(last)
  {
    if |full| == 0 {
      assert full + last == last;
    } else {
      LayoutAppend(full[8..], last);
      LayoutAppendStep(full, last);
    }
  }

  lemma LayoutAppendStep(full: seq<Token>, last: seq<Token>)
    requires |full| >= 8
    requires Layout(full[8..] + last) == Layout(full[8..]) + Layout(last)
    ensures Layout(full + last) == Layout(full) + Layout(last)
  {
    SplitAtEight(full, last);
    LayoutStep(full);
    LayoutStep(full + last);
    Associate(Group(full[..8]), Layout(full[8..]), Layout(last));
  }

  lemma SplitAtEight(full: seq<Token>, last: seq<Token>)
    requires |full| >= 8
    ensures (full + last)[..8] == full[..8] && (full + last)[8..] == full[8..] + last
  {
  }

  lemma Associate(a: seq<byte>, b: seq<byte>, c: seq<byte>)
    ensures a + (b + c) == (a + b) + c
  {
  }

  lemma {:induction false} PayloadsBounds(ts: seq<Token>)
    ensures |ts| <= |Payloads(ts)| <= 3 * |ts|
  {
    if |ts| == 0 {
    } else {
      PayloadsBounds(ts[1..]);
    }
  }

  lemma {:induction false} LayoutAtLeast(ts: seq<Token>)
    ensures 8 * |Layout(ts)| >= 9 * |ts|
  {
    if |ts| > 8 {
      LayoutAtLeast(ts[8..]);
      PayloadsBounds(ts[..8]);
    } else if |ts| > 0 {
      PayloadsBounds(ts);
    }
  }

  // ---- reading the layout back ----

  /** The reader is inside a group: its flag register still holds n flags, of which those of g are real;
      the unread bytes are the payloads of g and then the groups of rest. */
  ghost predicate Reading(unread: seq<byte>, flags: nat, g: seq<Token>, rest: seq<Token>, n: nat) {
    && n <= 8
    && (|g| == n || (|g| < n && rest == []))
    && flags == Flags(g) + Pow2(n)
    && unread == Payloads(g) + Layout(rest)
  }

  lemma LayoutOpen(rest: seq<Token>)
    requires |rest| > 0
    ensures Layout(rest) == [FlagByte(FirstGroup(rest))] + (Payloads(FirstGroup(rest)) + Layout(LaterGroups(rest)))
  {
    var g, later := FirstGroup(rest), LaterGroups(rest);
    assert Layout(rest) == Group(g) + Layout(later);
    Associate([FlagByte(g)], Payloads(g), Layout(later));
  }

  lemma GroupSplit(ts: seq<Token>)
    ensures FirstGroup(ts) + LaterGroups(ts) == ts && |FirstGroup(ts)| <= 8
    ensures |FirstGroup(ts)| == 8 || (|FirstGroup(ts)| < 8 && LaterGroups(ts) == [])
  {
  }

  /** At a group boundary the next byte is the flag byte of the next group. */
  lemma OpenGroup(unread: seq<byte>, rest: seq<Token>)
    requires |rest| > 0 && unread == Layout(rest)
    ensures |unread| > 0
    ensures Reading(unread[1..], 256 + (unread[0] as int), FirstGroup(rest), LaterGroups(rest), 8)
  {
    GroupSplit(rest);
    LayoutOpen(rest);
    PowEight();
    Opened(unread, FlagByte(FirstGroup(rest)), FirstGroup(rest), LaterGroups(rest));
  }

  lemma Opened(unread: seq<byte>, f: byte, g: seq<Token>, later: seq<Token>)
    requires f as int == Flags(g) && Pow2(8) == 256 && |g| <= 8 && (|g| == 8 || later == [])
    requires unread == [f] + (Payloads(g) + Layout(later))
    ensures Reading(unread[1..], 256 + (unread[0] as int), g, later, 8)
  {
    DropFirst([f], Payloads(g) + Layout(later));
  }

  /** Inside a group the lowest flag tells what the next token is, and its payload comes next. */
  lemma ReadNext(unread: seq<byte>, flags: nat, g: seq<Token>, rest: seq<Token>, n: nat)
    requires Reading(unread, flags, g, rest, n) && |g| > 0
    ensures n > 0 && flags != 1 && (flags % 2 == 1 <==> g[0].Match?)
    ensures Payload(g[0]) <= unread
    ensures Reading(unread[|Payload(g[0])|..], flags / 2, g[1..], rest, n - 1)
  {
    Associate(Payload(g[0]), Payloads(g[1..]), Layout(rest));
    DropFirst(Payload(g[0]), Payloads(g[1..]) + Layout(rest));
    assert Flags(g) == (if g[0].Match? then 1 else 0) + 2 * Flags(g[1..]);
  }

  lemma DropFirst(a: seq<byte>, b: seq<byte>)
    ensures (a + b)[..|a|] == a && (a + b)[|a|..] == b && a <= a + b
  {
  }

  /** The register reads 1 exactly when the group is used up. */
  lemma GroupEnd(unread: seq<byte>, flags: nat, g: seq<Token>, rest: seq<Token>, n: nat)
    requires Reading(unread, flags, g, rest, n)
    ensures n == 0 ==> flags == 1 && g == [] && unread == Layout(rest)
    ensures n > 0 ==> flags != 1
    ensures |unread| == 0 <==> g == [] && rest == []
  {
    PayloadsBounds(g);
    LayoutAtLeast(rest);
  }
}
