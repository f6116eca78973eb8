/** json.cpp: the value type, the recursive-descent parser and the printer, as functions.
    Text is bytes; numbers are integers, or a decimal literal kept as it was read. */
module Json {
  import opened Bits

  type Bytes = seq<byte>

  const MAX_DEPTH: nat := 64
  const EXACT: int := 1_000_000_000_000_000

  datatype Value =
    | Null
    | Bool(b: bool)
    | Number(n: int)
    | Decimal(text: Bytes)
    | String(text: Bytes)
    | Array(items: seq<Value>)
    | Object(members: map<Bytes, Value>)

  /** Containers nest at most this deep. */
  ghost predicate DepthAtMost(v: Value, h: nat)
    decreases v
  {
    match v
    case Array(items) => h > 0 && forall i :: 0 <= i < |items| ==> DepthAtMost(items[i], h - 1)
    case Object(m) => h > 0 && forall k :: k in m ==> DepthAtMost(m[k], h - 1)
    case _ => true
  }

  /** Every number is an integer a double holds exactly and the printer writes out in full. */
  ghost predicate Exact(v: Value)
    decreases v
  {
    match v
    case Number(n) => -EXACT <= n <= EXACT
    case Decimal(_) => false
    case Array(items) => forall i :: 0 <= i < |items| ==> Exact(items[i])
    case Object(m) => forall k :: k in m ==> Exact(m[k])
    case _ => true
  }

  // ---- characters ----

  const QUOTE: byte := 34
  const BACKSLASH: byte := 92
  const SLASH: byte := 47
  const COMMA: byte := 44
  const COLON: byte := 58
  const OPEN_ARRAY: byte := 91
  const CLOSE_ARRAY: byte := 93
  const OPEN_OBJECT: byte := 123
  const CLOSE_OBJECT: byte := 125
  const MINUS: byte := 45
  const PLUS: byte := 43
  const DOT: byte := 46
  const NEWLINE: byte := 10
  const RETURN: byte := 13
  const TAB: byte := 9
  const SPACE: byte := 32
  const LETTER_N: byte := 110
  const LETTER_R: byte := 114
  const LETTER_T: byte := 116
  const LETTER_F: byte := 102
  const LETTER_U: byte := 117
  const LETTER_E: byte := 101
  const CAPITAL_E: byte := 69

  predicate IsDigit(c: byte) {
    48 <= c <= 57
  }

  predicate IsSpace(c: byte) {
    c == SPACE || c == TAB || c == NEWLINE || c == RETURN
  }

  function Peek(s: Bytes, pos: nat): byte {
    if pos < |s| then s[pos] else 0
  }

  function Next(s: Bytes, pos: nat): nat {
    if pos < |s| then pos + 1 else pos
  }

  function SkipLine(s: Bytes, pos: nat): (p: nat)
    requires pos <= |s|
    ensures pos <= p <= |s|
    decreases |s| - pos
  {
    if pos < |s| && s[pos] != NEWLINE then SkipLine(s, pos + 1) else pos
  }

  /** Blanks and // comments. */
  function SkipWs(s: Bytes, pos: nat): (p: nat)
    requires pos <= |s|
    ensures pos <= p <= |s|
    decreases |s| - pos
  {
    if pos < |s| && IsSpace(s[pos]) then SkipWs(s, pos + 1)
    else if pos + 1 < |s| && s[pos] == SLASH && s[pos + 1] == SLASH then SkipWs(s, SkipLine(s, pos + 2))
    else pos
  }

  // ---- strings ----

  function HexDigit(c: byte): int {
    if 48 <= c <= 57 then c - 48 else if 65 <= c <= 70 then c - 55 else if 97 <= c <= 102 then c - 87 else -1
  }

  function HexRun(s: Bytes, acc: nat): nat {
    if |s| == 0 || HexDigit(s[0]) < 0 then acc else HexRun(s[1..], acc * 16 + HexDigit(s[0]))
  }

  function SkipBlanks(s: Bytes): (r: Bytes) {
    if |s| > 0 && (s[0] == SPACE || 9 <= s[0] <= 13) then SkipBlanks(s[1..]) else s
  }

  /** strtoul in base 16 on four characters, as a 32-bit value: blanks, a sign and 0x are accepted. */
  function HexValue(s: Bytes): u32 {
    var t := SkipBlanks(s);
    var negative := |t| > 0 && t[0] == MINUS;
    var u := if |t| > 0 && (t[0] == MINUS || t[0] == PLUS) then t[1..] else t;
    var w := if |u| > 2 && u[0] == 48 && (u[1] == 120 || u[1] == 88) && HexDigit(u[2]) >= 0 then u[2..] else u;
    var v := HexRun(w, 0) % 0x1_0000_0000;
    if negative then (0x1_0000_0000 - v) % 0x1_0000_0000 else v
  }

  /** UTF-8 bytes of a code point; a lone surrogate becomes the replacement character. */
  function Utf8(code: u32): Bytes {
    var cp: u32 := if 0xD800 <= code <= 0xDFFF then 0xFFFD else code;
    if cp < 0x80 then [cp]
    else if cp < 0x800 then [0xC0 + cp / 64, 0x80 + cp % 64]
    else if cp < 0x1_0000 then [0xE0 + cp / 4096, 0x80 + cp / 64 % 64, 0x80 + cp % 64]
    else [BitOr(0xF0, cp / 0x4_0000) % 256, 0x80 + cp / 4096 % 64, 0x80 + cp / 64 % 64, 0x80 + cp % 64]
  }

  /** The characters a \\u escape at pos stands for, and the position of its last character. */
  function ParseUnicode(s: Bytes, pos: nat): (r: (Bytes, nat))
    requires pos < |s|
    ensures pos <= r.1 < |s|
  {
    if pos + 4 >= |s| then ([], pos)
    else
      var cp := HexValue(s[pos + 1..pos + 5]);
      var p := pos + 4;
      if 0xD800 <= cp <= 0xDBFF && p + 6 < |s| && s[p + 1] == BACKSLASH && s[p + 2] == LETTER_U then
        var low := HexValue(s[p + 3..p + 7]);
        if 0xDC00 <= low <= 0xDFFF then (Utf8(0x1_0000 + (cp as int - 0xD800) * 1024 + (low as int - 0xDC00)), p + 6)
        else (Utf8(cp), p)
      else (Utf8(cp), p)
  }

  /** The characters at pos, after a backslash, and the position of the last one read. */
  function ParseEscape(s: Bytes, pos: nat): (r: (Bytes, nat))
    requires pos < |s|
    ensures pos <= r.1 < |s|
  {
    if s[pos] == LETTER_N then ([NEWLINE], pos)
    else if s[pos] == LETTER_R then ([RETURN], pos)
    else if s[pos] == LETTER_T then ([TAB], pos)
    else if s[pos] == LETTER_U then ParseUnicode(s, pos)
    else ([s[pos]], pos)
  }

  /** Up to the closing quote, or the end. */
  function ParseChars(s: Bytes, pos: nat, acc: Bytes): (r: (Bytes, nat))
    requires pos <= |s|
    ensures pos <= r.1 <= |s|
    decreases |s| - pos
  {
    if pos == |s| || s[pos] == QUOTE then (acc, pos)
    else if s[pos] == BACKSLASH && pos + 1 < |s| then
      var (cs, p) := ParseEscape(s, pos + 1);
      ParseChars(s, p + 1, acc + cs)
    else ParseChars(s, pos + 1, acc + [s[pos]])
  }

  function ParseString(s: Bytes, pos: nat): (r: (Bytes, nat))
    requires pos <= |s|
    ensures pos <= r.1 <= |s|
  {
    var (text, p) := ParseChars(s, Next(s, pos), []);
    (text, Next(s, p))
  }

  // ---- numbers and words ----

  function SkipDigits(s: Bytes, pos: nat): (p: nat)
    requires pos <= |s|
    ensures pos <= p <= |s|
    decreases |s| - pos
  {
    if pos < |s| && IsDigit(s[pos]) then SkipDigits(s, pos + 1) else pos
  }

  function DigitsValue(s: Bytes): nat
    requires forall i :: 0 <= i < |s| ==> IsDigit(s[i])
  {
    if |s| == 0 then 0
    else
      var c := s[|s| - 1];
      assert IsDigit(c);
      10 * DigitsValue(s[..|s| - 1]) + (c as int - 48)
  }

  lemma {:induction false} SkippedDigits(s: Bytes, pos: nat)
    requires pos <= |s|
    ensures forall i :: pos <= i < SkipDigits(s, pos) ==> IsDigit(s[i])
    decreases |s| - pos
  {
    if pos < |s| && IsDigit(s[pos]) {
      SkippedDigits(s, pos + 1);
    }
  }

  function SkipFraction(s: Bytes, pos: nat): (p: nat)
    requires pos <= |s|
    ensures pos <= p <= |s|
  {
    if pos < |s| && s[pos] == DOT then SkipDigits(s, pos + 1) else pos
  }

  function SkipExponent(s: Bytes, pos: nat): (p: nat)
    requires pos <= |s|
    ensures pos <= p <= |s|
  {
    if pos < |s| && (s[pos] == LETTER_E || s[pos] == CAPITAL_E) then
      SkipDigits(s, if pos + 1 < |s| && (s[pos + 1] == PLUS || s[pos + 1] == MINUS) then pos + 2 else pos + 1)
    else pos
  }

  function ParseNumber(s: Bytes, pos: nat): (r: (Value, nat))
    requires pos < |s|
    ensures pos <= r.1 <= |s|
  {
    var start := if s[pos] == MINUS then pos + 1 else pos;
    var p := SkipDigits(s, start);
    var q := SkipExponent(s, SkipFraction(s, p));
    if q == p then
      SkippedDigits(s, start);
      var n: int := DigitsValue(s[start..p]);
      (Number(if s[pos] == MINUS then -n else n), p)
    else (Decimal(s[pos..q]), q)
  }

  /** Moves on by n, or to the end. */
  function Forward(s: Bytes, pos: nat, n: nat): (p: nat)
    requires pos <= |s|
    ensures pos <= p <= |s|
  {
    if pos + n <= |s| then pos + n else |s|
  }

  // ---- values ----

  function ParseValue(s: Bytes, pos: nat, depth: nat): (r: (Value, nat))
    requires pos <= |s|
    ensures pos <= r.1 <= |s|
    decreases |s| - pos, 1
  {
    var p := SkipWs(s, pos);
    var c := Peek(s, p);
    if p == |s| then (Null, p)
    else if c == QUOTE then var (text, q) := ParseString(s, p); (String(text), q)
    else if c == OPEN_OBJECT then ParseObject(s, p, depth)
    else if c == OPEN_ARRAY then ParseArray(s, p, depth)
    else if c == LETTER_T then (Bool(true), Forward(s, p, 4))
    else if c == LETTER_F then (Bool(false), Forward(s, p, 5))
    else if c == LETTER_N then (Null, Forward(s, p, 4))
    else if c == MINUS || IsDigit(c) then ParseNumber(s, p)
    else (Null, p)
  }

  function ParseArray(s: Bytes, pos: nat, depth: nat): (r: (Value, nat))
    requires pos < |s|
    ensures pos <= r.1 <= |s|
    decreases |s| - pos, 0
  {
    if depth >= MAX_DEPTH then (Null, pos)
    else
      var p := SkipWs(s, pos + 1);
      if Peek(s, p) == CLOSE_ARRAY then (Array([]), Next(s, p)) else ParseItems(s, p, depth + 1, [])
  }

  function ParseItems(s: Bytes, pos: nat, depth: nat, acc: seq<Value>): (r: (Value, nat))
    requires pos <= |s|
    ensures pos <= r.1 <= |s| && r.0.Array?
    decreases |s| - pos, 2
  {
    var (v, p) := ParseValue(s, pos, depth);
    var q := SkipWs(s, p);
    if Peek(s, q) == COMMA then ParseItems(s, q + 1, depth, acc + [v])
    else if Peek(s, q) == CLOSE_ARRAY then (Array(acc + [v]), q + 1)
    else (Array(acc + [v]), q)
  }

  function ParseObject(s: Bytes, pos: nat, depth: nat): (r: (Value, nat))
    requires pos < |s|
    ensures pos <= r.1 <= |s|
    decreases |s| - pos, 0
  {
    if depth >= MAX_DEPTH then (Null, pos)
    else
      var p := SkipWs(s, pos + 1);
      if Peek(s, p) == CLOSE_OBJECT then (Object(map[]), Next(s, p)) else ParseMembers(s, p, depth + 1, map[])
  }

  function ParseMembers(s: Bytes, pos: nat, depth: nat, acc: map<Bytes, Value>): (r: (Value, nat))
    requires pos <= |s|
    ensures pos <= r.1 <= |s| && r.0.Object?
    decreases |s| - pos, 2
  {
    var p := SkipWs(s, pos);
    if Peek(s, p) != QUOTE then (Object(acc), p)
    else
      var (key, q) := ParseString(s, p);
      var colon := SkipWs(s, q);
      var (v, t) := ParseValue(s, Next(s, colon), depth);
      var u := SkipWs(s, t);
      var members := acc[key := v];
      if Peek(s, u) == COMMA then ParseMembers(s, u + 1, depth, members)
      else if Peek(s, u) == CLOSE_OBJECT then (Object(members), u + 1)
      else (Object(members), u)
  }

  function Parse(s: Bytes): Value {
    ParseValue(s, 0, 0).0
  }

  // ---- printing ----

  function HexChar(n: nat): byte
    requires n < 16
  {
    if n < 10 then 48 + n else 55 + n
  }

  function Escape(c: byte): (r: Bytes)
    ensures |r| > 0
  {
    if c == QUOTE then [BACKSLASH, QUOTE]
    else if c == BACKSLASH then [BACKSLASH, BACKSLASH]
    else if c == NEWLINE then [BACKSLASH, LETTER_N]
    else if c == RETURN then [BACKSLASH, LETTER_R]
    else if c == TAB then [BACKSLASH, LETTER_T]
    else if c < 0x20 then [BACKSLASH, LETTER_U, 48, 48, HexChar(c / 16), HexChar(c % 16)]
    else [c]
  }

  function EscapeAll(text: Bytes): Bytes {
    if |text| == 0 then [] else Escape(text[0]) + EscapeAll(text[1..])
  }

  function Quoted(text: Bytes): Bytes {
    [QUOTE] + EscapeAll(text) + [QUOTE]
  }

  function Digits(n: nat): (r: Bytes)
    ensures |r| > 0 && forall i :: 0 <= i < |r| ==> IsDigit(r[i])
  {
    if n < 10 then [48 + n] else Digits(n / 10) + [48 + n % 10]
  }

  /** In which order the members of an object come out. The path, from the root down, tells equal objects in different
      places apart. */
  type Order = (seq<nat>, map<Bytes, Value>) -> seq<Bytes>

  ghost predicate OrderOk(order: Order) {
    forall path, m :: KeysInOrder(order(path, m), m)
  }

  /** Every key once. */
  ghost predicate KeysInOrder(ks: seq<Bytes>, m: map<Bytes, Value>) {
    (forall k :: k in ks <==> k in m) && forall i, j :: 0 <= i < j < |ks| ==> ks[i] != ks[j]
  }

  function NumberText(n: int): Bytes {
    if n < 0 then [MINUS] + Digits(-n) else Digits(n)
  }

  function StringifyAt(v: Value, path: seq<nat>, order: Order): Bytes
    decreases v, 2
  {
    match v
    case Null => [LETTER_N, LETTER_U, 108, 108]
    case Bool(b) => if b then [LETTER_T, LETTER_R, LETTER_U, LETTER_E] else [LETTER_F, 97, 108, 115, LETTER_E]
    case Number(n) => NumberText(n)
    case Decimal(text) => text
    case String(text) => Quoted(text)
    case Array(items) =>
      [OPEN_ARRAY] + (if |path| < MAX_DEPTH then PrintItems(v, 0, path, order) else []) + [CLOSE_ARRAY]
    case Object(m) =>
      [OPEN_OBJECT] + (if |path| < MAX_DEPTH then PrintMembers(v, order(path, m), 0, path, order)
                       else []) + [CLOSE_OBJECT]
  }

  /** The items from i on, separated by commas. */
  function PrintItems(v: Value, i: nat, path: seq<nat>, order: Order): Bytes
    requires v.Array? && i <= |v.items|
    decreases v, 1, |v.items| - i
  {
    if i == |v.items| then []
    else (if i > 0 then [COMMA]
          else []) + (StringifyAt(v.items[i], path + [i], order) + PrintItems(v, i + 1, path, order))
  }

  /** The members with the keys from i on, separated by commas. */
  function PrintMembers(v: Value, ks: seq<Bytes>, i: nat, path: seq<nat>, order: Order): Bytes
    requires v.Object? && i <= |ks|
    decreases v, 1, |ks| - i
  {
    if i == |ks| then []
    else (if i > 0 then [COMMA] else []) +
         ((if ks[i] in v.members then Quoted(ks[i]) + ([COLON] + StringifyAt(v.members[ks[i]], path + [i], order))
           else []) +
          PrintMembers(v, ks, i + 1, path, order))
  }

  function Stringify(v: Value, order: Order): Bytes {
    StringifyAt(v, [], order)
  }
}
