/** json.cpp as it runs: a parser that moves a position over the text, a printer that appends to its output,
    and the comparison of values. */
module JsonParser {
  import opened Bits
  import opened Json

  class Parser {
    const s: Bytes
    var pos: nat
    var depth: nat

    constructor (text: Bytes)
      ensures s == text && pos == 0 && depth == 0
    {
      s := text;
      pos := 0;
      depth := 0;
    }

    predicate Valid()
      reads this
    {
      pos <= |s|
    }

    method SkipBlank()
      requires Valid()
      modifies `pos
      ensures Valid() && pos == SkipWs(s, old(pos))
    {
      while true
        invariant Valid() && SkipWs(s, old(pos)) == SkipWs(s, pos)
        decreases |s| - pos
      {
        if pos < |s| && IsSpace(s[pos]) {
          pos := pos + 1;
        } else if pos + 1 < |s| && s[pos] == SLASH && s[pos + 1] == SLASH {
          pos := pos + 2;
          ghost var start := pos;
          while pos < |s| && s[pos] != NEWLINE
            invariant start <= pos && Valid() && SkipLine(s, start) == SkipLine(s, pos)
          {
            pos := pos + 1;
          }
        } else {
          return;
        }
      }
    }

    method Step()
      requires Valid()
      modifies `pos
      ensures Valid() && pos == Next(s, old(pos))
    {
      if pos < |s| {
        pos := pos + 1;
      }
    }

    method ReadUnicode() returns (cs: Bytes)
      requires pos < |s|
      modifies `pos
      ensures pos < |s| && (cs, pos) == ParseUnicode(s, old(pos))
    {
      cs := [];
      if pos + 4 < |s| {
        var cp := HexValue(s[pos + 1..pos + 5]);
        pos := pos + 4;
        if 0xD800 <= cp <= 0xDBFF && pos + 6 < |s| && s[pos + 1] == BACKSLASH && s[pos + 2] == LETTER_U {
          var low := HexValue(s[pos + 3..pos + 7]);
          if 0xDC00 <= low <= 0xDFFF {
            cp := 0x1_0000 + (cp as int - 0xD800) * 1024 + (low as int - 0xDC00);
            pos := pos + 6;
          }
        }
        cs := Utf8(cp);
      }
    }

    method ReadString() returns (text: Bytes)
      requires Valid()
      modifies `pos
      ensures Valid() && (text, pos) == ParseString(s, old(pos))
    {
      Step();
      text := [];
      ghost var start := pos;
      while pos < |s| && s[pos] != QUOTE
        invariant start <= pos && Valid() && ParseChars(s, start, []) == ParseChars(s, pos, text)
      {
        if s[pos] == BACKSLASH && pos + 1 < |s| {
          pos := pos + 1;
          if s[pos] == LETTER_N {
            text := text + [NEWLINE];
          } else if s[pos] == LETTER_R {
            text := text + [RETURN];
          } else if s[pos] == LETTER_T {
            text := text + [TAB];
          } else if s[pos] == LETTER_U {
            var cs := ReadUnicode();
            text := text + cs;
          } else {
            text := text + [s[pos]];
          }
        } else {
          text := text + [s[pos]];
        }
        pos := pos + 1;
      }
      Step();
    }

    method PassDigits()
      requires Valid()
      modifies `pos
      ensures Valid() && pos == SkipDigits(s, old(pos))
    {
      while pos < |s| && IsDigit(s[pos])
        invariant Valid() && SkipDigits(s, old(pos)) == SkipDigits(s, pos)
      {
        pos := pos + 1;
      }
    }

    method PassFraction()
      requires Valid()
      modifies `pos
      ensures Valid() && pos == SkipFraction(s, old(pos))
    {
      if pos < |s| && s[pos] == DOT {
        pos := pos + 1;
        PassDigits();
      }
    }

    method PassExponent()
      requires Valid()
      modifies `pos
      ensures Valid() && pos == SkipExponent(s, old(pos))
    {
      if pos < |s| && (s[pos] == LETTER_E || s[pos] == CAPITAL_E) {
        pos := pos + 1;
        if pos < |s| && (s[pos] == PLUS || s[pos] == MINUS) {
          pos := pos + 1;
        }
        PassDigits();
      }
    }

    method ReadNumber() returns (v: Value)
      requires pos < |s|
      modifies `pos
      ensures Valid() && (v, pos) == ParseNumber(s, old(pos))
    {
      hide SkipDigits, SkipFraction, SkipExponent, DigitsValue;
      var start := pos;
      if s[pos] == MINUS {
        pos := pos + 1;
      }
      var first := pos;
      PassDigits();
      var end := pos;
      PassFraction();
      PassExponent();
      if pos == end {
        SkippedDigits(s, first);
        var n: int := DigitsValue(s[first..end]);
        v := Number(if s[start] == MINUS then -n else n);
      } else {
        v := Decimal(s[start..pos]);
      }
    }

    method ReadValue() returns (v: Value)
      requires Valid()
      modifies `pos, `depth
      ensures Valid() && depth == old(depth) && (v, pos) == ParseValue(s, old(pos), depth)
      decreases |s| - pos, 1
    {
      SkipBlank();
      var c := Peek(s, pos);
      if pos == |s| {
        v := Null;
      } else if c == QUOTE {
        var text := ReadString();
        v := String(text);
      } else if c == OPEN_OBJECT {
        v := ReadObject();
      } else if c == OPEN_ARRAY {
        v := ReadArray();
      } else if c == LETTER_T {
        v := Bool(true);
        pos := if pos + 4 <= |s| then pos + 4 else |s|;
      } else if c == LETTER_F {
        v := Bool(false);
        pos := if pos + 5 <= |s| then pos + 5 else |s|;
      } else if c == LETTER_N {
        v := Null;
        pos := if pos + 4 <= |s| then pos + 4 else |s|;
      } else if c == MINUS || IsDigit(c) {
        v := ReadNumber();
      } else {
        v := Null;
      }
    }

    method ReadArray() returns (v: Value)
      requires pos < |s|
      modifies `pos, `depth
      ensures Valid() && depth == old(depth) && (v, pos) == ParseArray(s, old(pos), depth)
      decreases |s| - pos, 0
    {
      hide SkipWs, ParseValue;
      if depth >= MAX_DEPTH {
        return Null;
      }
      depth := depth + 1;
      Step();
      SkipBlank();
      if Peek(s, pos) == CLOSE_ARRAY {
        Step();
        depth := depth - 1;
        return Array([]);
      }
      var items: seq<Value> := [];
      var more := true;
      ghost var start := pos;
      while more
        invariant start <= pos && Valid() && depth == old(depth) + 1
        invariant if more then ParseItems(s, start, depth, []) == ParseItems(s, pos, depth, items)
                  else ParseItems(s, start, depth, []) == (Array(items), pos)
        decreases more, |s| - pos
      {
        var item := ReadValue();
        items := items + [item];
        SkipBlank();
        if Peek(s, pos) == COMMA {
          Step();
        } else {
          if Peek(s, pos) == CLOSE_ARRAY {
            Step();
          }
          more := false;
        }
      }
      depth := depth - 1;
      v := Array(items);
    }

    /** One member, and whether a comma promises another one. */
    method ReadMember(members: map<Bytes, Value>) returns (more: bool, all: map<Bytes, Value>)
      requires Valid()
      modifies `pos, `depth
      ensures Valid() && depth == old(depth) && pos >= old(pos) && (more ==> pos > old(pos))
      ensures ParseMembers(s, old(pos), depth, members) == if more then ParseMembers(s, pos, depth, all)
              else (Object(all), pos)
      decreases |s| - pos, 2
    {
      hide SkipWs, ParseString, ParseValue;
      all, more := members, false;
      SkipBlank();
      if Peek(s, pos) == QUOTE {
        var key := ReadString();
        SkipBlank();
        Step();
        var member := ReadValue();
        all := members[key := member];
        SkipBlank();
        if Peek(s, pos) == COMMA {
          Step();
          more := true;
        } else if Peek(s, pos) == CLOSE_OBJECT {
          Step();
        }
      }
    }

    method ReadObject() returns (v: Value)
      requires pos < |s|
      modifies `pos, `depth
      ensures Valid() && depth == old(depth) && (v, pos) == ParseObject(s, old(pos), depth)
      decreases |s| - pos, 0
    {
      hide SkipWs, ParseString, ParseValue;
      if depth >= MAX_DEPTH {
        return Null;
      }
      depth := depth + 1;
      Step();
      SkipBlank();
      if Peek(s, pos) == CLOSE_OBJECT {
        Step();
        depth := depth - 1;
        return Object(map[]);
      }
      var members: map<Bytes, Value> := map[];
      var more := true;
      ghost var start := pos;
      while more
        invariant start <= pos && Valid() && depth == old(depth) + 1
        invariant if more then ParseMembers(s, start, depth, map[]) == ParseMembers(s, pos, depth, members)
                  else ParseMembers(s, start, depth, map[]) == (Object(members), pos)
        decreases more, |s| - pos
      {
        more, members := ReadMember(members);
      }
      depth := depth - 1;
      v := Object(members);
    }
  }

  method ParseText(json: Bytes) returns (v: Value)
    ensures v == Parse(json)
  {
    var p := new Parser(json);
    v := p.ReadValue();
  }

  // ---- printing ----

  /** Appends the escaped text. */
  method EscapeInto(text: Bytes, prefix: Bytes) returns (out: Bytes)
    ensures out == prefix + Quoted(text)
  {
    out := prefix + [QUOTE];
    var i := 0;
    while i < |text|
      invariant i <= |text| && out + EscapeAll(text[i..]) == prefix + [QUOTE] + EscapeAll(text)
    {
      assert text[i..][1..] == text[i + 1..];
      var c := text[i];
      var e := Escape(c);
      assert out + (e + EscapeAll(text[i + 1..])) == (out + e) + EscapeAll(text[i + 1..]);
      out := out + e;
      i := i + 1;
    }
    assert out + [] == out;
    out := out + [QUOTE];
  }

  /** Appends the text of a value. */
  method PrintInto(v: Value, prefix: Bytes, path: seq<nat>, order: Order) returns (out: Bytes)
    ensures out == prefix + StringifyAt(v, path, order)
    decreases v, 2
  {
    hide PrintItems, PrintMembers, Quoted, NumberText;
    match v
    case Array(items) =>
      out := prefix + [OPEN_ARRAY];
      if |path| < MAX_DEPTH {
        out := PrintItemsInto(v, out, path, order);
      }
      out := out + [CLOSE_ARRAY];
      Bracketed(prefix, OPEN_ARRAY, if |path| < MAX_DEPTH then PrintItems(v, 0, path, order) else [], CLOSE_ARRAY);
    case Object(m) =>
      out := prefix + [OPEN_OBJECT];
      if |path| < MAX_DEPTH {
        out := PrintMembersInto(v, out, path, order);
      }
      out := out + [CLOSE_OBJECT];
      Bracketed(prefix, OPEN_OBJECT, if |path| < MAX_DEPTH then PrintMembers(v, order(path, m), 0, path, order) else [],
                CLOSE_OBJECT);
    case String(text) =>
      out := EscapeInto(text, prefix);
    case _ =>
      out := prefix + StringifyAt(v, path, order);
  }

  lemma Bracketed(prefix: Bytes, open: byte, body: Bytes, close: byte)
    ensures ((prefix + [open]) + body) + [close] == prefix + ([open] + body + [close])
    ensures (prefix + [open]) + [close] == prefix + ([open] + [] + [close])
  {
  }

  method PrintItemsInto(v: Value, prefix: Bytes, path: seq<nat>, order: Order) returns (out: Bytes)
    requires v.Array?
    ensures out == prefix + PrintItems(v, 0, path, order)
    decreases v, 1
  {
    out := prefix;
    var i := 0;
    while i < |v.items|
      invariant i <= |v.items| && out + PrintItems(v, i, path, order) == prefix + PrintItems(v, 0, path, order)
    {
      ghost var before, t, rest := out, StringifyAt(v.items[i], path + [i], order), PrintItems(v, i + 1, path, order);
      ghost var comma := if i > 0 then [COMMA] else [];
      if i > 0 {
        out := out + [COMMA];
      }
      out := PrintInto(v.items[i], out, path + [i], order);
      AppendTwo(before, comma, t, rest);
      i := i + 1;
    }
    assert out + [] == out;
  }

  lemma AppendTwo(before: Bytes, comma: Bytes, t: Bytes, rest: Bytes)
    ensures before + (comma + (t + rest)) == ((before + comma) + t) + rest
    ensures before + [] == before
  {
  }

  method PrintMembersInto(v: Value, prefix: Bytes, path: seq<nat>, order: Order) returns (out: Bytes)
    requires v.Object?
    ensures out == prefix + PrintMembers(v, order(path, v.members), 0, path, order)
    decreases v, 1
  {
    out := prefix;
    var ks := order(path, v.members);
    var i := 0;
    while i < |ks|
      invariant i <= |ks| && out + PrintMembers(v, ks, i, path, order) == prefix + PrintMembers(v, ks, 0, path, order)
    {
      ghost var before, rest := out, PrintMembers(v, ks, i + 1, path, order);
      ghost var comma := if i > 0 then [COMMA] else [];
      ghost var t :=
                  if ks[i] in v.members
                     then Quoted(ks[i]) + ([COLON] + StringifyAt(v.members[ks[i]], path + [i], order)) else [];
      if i > 0 {
        out := out + [COMMA];
      }
      if ks[i] in v.members {
        out := PrintMemberInto(v, ks[i], out, path + [i], order);
      }
      AppendTwo(before, comma, t, rest);
      i := i + 1;
    }
    assert out + [] == out;
  }

  method PrintMemberInto(v: Value, k: Bytes, prefix: Bytes, path: seq<nat>, order: Order) returns (out: Bytes)
    requires v.Object? && k in v.members
    ensures out == prefix + (Quoted(k) + ([COLON] + StringifyAt(v.members[k], path, order)))
    decreases v, 0
  {
    out := EscapeInto(k, prefix);
    out := out + [COLON];
    out := PrintInto(v.members[k], out, path, order);
  }

  // ---- comparison ----

  predicate DeepEqual(a: Value, b: Value)
    decreases a
  {
    match a
    case Null => b.Null?
    case Bool(x) => b.Bool? && x == b.b
    case Number(x) => b.Number? && x == b.n
    case Decimal(x) => b.Decimal? && x == b.text
    case String(x) => b.String? && x == b.text
    case Array(items) =>
      b.Array? && |items| == |b.items| && forall i :: 0 <= i < |items| ==> DeepEqual(items[i], b.items[i])
    case Object(m) =>
      b.Object? && |m| == |b.members| && forall k :: k in m ==> k in b.members && DeepEqual(m[k], b.members[k])
  }

  lemma SameKeys(m: map<Bytes, Value>, n: map<Bytes, Value>)
    requires |m| == |n| && forall k :: k in m ==> k in n
    ensures m.Keys == n.Keys
  {
    assert |m.Keys| == |n.Keys|;
    assert |n.Keys - m.Keys| == |n.Keys| - |m.Keys| by {
      assert m.Keys <= n.Keys;
      assert n.Keys == m.Keys + (n.Keys - m.Keys);
    }
  }

  /** Walking the members of one side only, with the sizes compared first, decides equality. */
  lemma {:induction false} DeepEqualIsEqual(a: Value, b: Value)
    ensures DeepEqual(a, b) <==> a == b
    decreases a
  {
    match a
    case Array(items) =>
      forall i | 0 <= i < |items| && b.Array? && |items| == |b.items|
        ensures DeepEqual(items[i], b.items[i]) <==> items[i] == b.items[i]
      {
        DeepEqualIsEqual(items[i], b.items[i]);
      }
    case Object(m) =>
      forall k | k in m && b.Object? && k in b.members
        ensures DeepEqual(m[k], b.members[k]) <==> m[k] == b.members[k]
      {
        DeepEqualIsEqual(m[k], b.members[k]);
      }
      if DeepEqual(a, b) {
        SameKeys(m, b.members);
        assert m == b.members;
      }
    case _ =>
  }
}
