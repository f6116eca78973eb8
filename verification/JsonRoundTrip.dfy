/** Parsing what the printer wrote gives the value back. */
module JsonRoundTrip {
  import opened Bits
  import opened Json

  /** The text t stands at pos. */
  ghost predicate At(s: Bytes, pos: nat, t: Bytes) {
    pos + |t| <= |s| && s[pos..pos + |t|] == t
  }

  lemma AtSplit(s: Bytes, pos: nat, a: Bytes, b: Bytes)
    requires At(s, pos, a + b)
    ensures At(s, pos, a) && At(s, pos + |a|, b)
  {
    var t := s[pos..pos + |a + b|];
    assert t[..|a|] == a && t[|a|..] == b;
  }

  lemma AtChar(s: Bytes, pos: nat, t: Bytes, i: nat)
    requires At(s, pos, t) && i < |t|
    ensures pos + i < |s| && s[pos + i] == t[i]
  {
    assert s[pos..pos + |t|][i] == s[pos + i];
  }

  /** The text of a value ends here: the end of input, or punctuation. */
  predicate Follow(s: Bytes, p: nat) {
    p >= |s| || s[p] == COMMA || s[p] == CLOSE_ARRAY || s[p] == CLOSE_OBJECT
  }

  // ---- strings ----

  lemma ControlHex(c: byte)
    requires c < 0x20
    ensures HexValue([48, 48, HexChar(c / 16), HexChar(c % 16)]) == c
  {
    var t := [48, 48, HexChar(c / 16), HexChar(c % 16)];
    assert SkipBlanks(t) == t;
    assert HexDigit(HexChar(c / 16)) == c / 16 && HexDigit(HexChar(c % 16)) == c % 16;
    assert t[1..] == [48, HexChar(c / 16), HexChar(c % 16)];
    assert t[1..][1..] == [HexChar(c / 16), HexChar(c % 16)];
    assert t[1..][1..][1..] == [HexChar(c % 16)];
    assert HexRun([], c) == c;
    assert HexRun([HexChar(c % 16)], c / 16) == c;
    assert HexRun([HexChar(c / 16), HexChar(c % 16)], 0) == c;
    assert HexRun(t[1..], 0) == c;
  }

  /** One escaped character is read as that character. */
  lemma CharRead(s: Bytes, pos: nat, c: byte, acc: Bytes)
    requires At(s, pos, Escape(c)) && pos + |Escape(c)| < |s|
    ensures ParseChars(s, pos, acc) == ParseChars(s, pos + |Escape(c)|, acc + [c])
  {
    var e := Escape(c);
    AtChar(s, pos, e, 0);
    if |e| > 1 {
      AtChar(s, pos, e, 1);
    }
    if |e| == 6 {
      AtChar(s, pos, e, 2);
      AtChar(s, pos, e, 3);
      AtChar(s, pos, e, 4);
      AtChar(s, pos, e, 5);
      ControlHex(c);
      assert s[pos + 2..pos + 6] == [48, 48, HexChar(c / 16), HexChar(c % 16)];
      ControlRead(s, pos + 1, c);
    }
    hide HexValue, Utf8;
  }

  lemma ControlRead(s: Bytes, pos: nat, c: byte)
    requires c < 0x20 && pos + 5 < |s| + 1 && pos + 4 < |s| && HexValue(s[pos + 1..pos + 5]) == c
    ensures ParseUnicode(s, pos) == ([c], pos + 4)
  {
    hide HexValue;
  }

  lemma EscapeFront(text: Bytes)
    requires |text| > 0
    ensures EscapeAll(text) + [QUOTE] == Escape(text[0]) + (EscapeAll(text[1..]) + [QUOTE])
  {
    hide Escape;
  }

  lemma {:induction false} CharsRead(s: Bytes, pos: nat, text: Bytes, acc: Bytes)
    requires At(s, pos, EscapeAll(text) + [QUOTE])
    ensures ParseChars(s, pos, acc) == (acc + text, pos + |EscapeAll(text)|)
    decreases |text|
  {
    hide *;
    if |text| == 0 {
      CharsEnd(s, pos, text, acc);
    } else {
      EscapeFront(text);
      CharsSplit(s, pos, text);
      CharRead(s, pos, text[0], acc);
      CharsRead(s, pos + |Escape(text[0])|, text[1..], acc + [text[0]]);
      assert acc + [text[0]] + text[1..] == acc + text;
      EscapeLength(text);
    }
  }

  lemma CharsEnd(s: Bytes, pos: nat, text: Bytes, acc: Bytes)
    requires |text| == 0 && At(s, pos, EscapeAll(text) + [QUOTE])
    ensures ParseChars(s, pos, acc) == (acc + text, pos + |EscapeAll(text)|)
  {
    AtChar(s, pos, EscapeAll(text) + [QUOTE], 0);
    assert acc + text == acc;
  }

  lemma CharsSplit(s: Bytes, pos: nat, text: Bytes)
    requires |text| > 0 && At(s, pos, EscapeAll(text) + [QUOTE])
    ensures At(s, pos, Escape(text[0])) && At(s, pos + |Escape(text[0])|, EscapeAll(text[1..]) + [QUOTE])
    ensures pos + |Escape(text[0])| < |s|
  {
    EscapeFront(text);
    AtSplit(s, pos, Escape(text[0]), EscapeAll(text[1..]) + [QUOTE]);
    hide Escape, EscapeAll;
  }

  lemma EscapeLength(text: Bytes)
    requires |text| > 0
    ensures |EscapeAll(text)| == |Escape(text[0])| + |EscapeAll(text[1..])|
  {
  }

  lemma StringRead(s: Bytes, pos: nat, text: Bytes)
    requires At(s, pos, Quoted(text))
    ensures ParseString(s, pos) == (text, pos + |Quoted(text)|)
  {
    var body := EscapeAll(text) + [QUOTE];
    assert Quoted(text) == [QUOTE] + body;
    AtSplit(s, pos, [QUOTE], body);
    CharsRead(s, pos + 1, text, []);
    assert [] + text == text;
    hide ParseChars, EscapeAll, At;
  }

  // ---- numbers ----

  lemma {:induction false} DigitsBack(n: nat)
    ensures DigitsValue(Digits(n)) == n
  {
    if n < 10 {
      assert [48 + n as byte][..0] == [];
      assert DigitsValue([]) == 0;
    } else {
      DigitsBack(n / 10);
      assert Digits(n)[..|Digits(n)| - 1] == Digits(n / 10);
    }
  }

  lemma {:induction false} SkipRun(s: Bytes, pos: nat, end: nat)
    requires pos <= end <= |s| && (forall i :: pos <= i < end ==> IsDigit(s[i])) && (end == |s| || !IsDigit(s[end]))
    ensures SkipDigits(s, pos) == end
    decreases end - pos
  {
    if pos < end {
      SkipRun(s, pos + 1, end);
    }
  }

  lemma NumberRead(s: Bytes, pos: nat, n: int)
    requires At(s, pos, NumberText(n)) && Follow(s, pos + |NumberText(n)|)
    ensures |NumberText(n)| > 0 && ParseNumber(s, pos) == (Number(n), pos + |NumberText(n)|)
  {
    var ds, start := Digits(if n < 0 then -n else n), if n < 0 then pos + 1 else pos;
    var end := pos + |NumberText(n)|;
    AtChar(s, pos, NumberText(n), 0);
    if n < 0 {
      AtSplit(s, pos, [MINUS], ds);
    }
    assert s[start..end] == ds;
    forall i | start <= i < end
      ensures IsDigit(s[i])
    {
      assert s[i] == ds[i - start];
      assert IsDigit(ds[i - start]);
    }
    SkipRun(s, start, end);
    DigitsBack(if n < 0 then -n else n);
    assert SkipExponent(s, SkipFraction(s, end)) == end;
    assert s[pos] == MINUS <==> n < 0 by {
      if n >= 0 {
        assert IsDigit(s[pos]);
      }
    }
    hide Digits, DigitsValue, SkipDigits, NumberText, At;
  }

  // ---- values ----

  /** The first character decides how a value is read, and none is a blank or a slash. */
  lemma FirstChar(v: Value, path: seq<nat>, order: Order)
    requires Exact(v)
    ensures var t := StringifyAt(v, path, order);
            && |t| > 0 && !IsSpace(t[0]) && t[0] != SLASH && t[0] != CLOSE_ARRAY && t[0] != CLOSE_OBJECT
            && t[0] != COMMA
            && match v
               case Null => t[0] == LETTER_N
               case Bool(b) => t[0] == if b then LETTER_T else LETTER_F
               case Number(n) => t[0] == MINUS || IsDigit(t[0])
               case Decimal(_) => false
               case String(_) => t[0] == QUOTE
               case Array(_) => t[0] == OPEN_ARRAY
               case Object(_) => t[0] == OPEN_OBJECT
  {
    if v.Number? && v.n >= 0 {
      assert IsDigit(Digits(v.n)[0]);
    }
  }

  lemma NoBlank(s: Bytes, pos: nat)
    requires pos <= |s| && (pos < |s| ==> !IsSpace(s[pos]) && s[pos] != SLASH)
    ensures SkipWs(s, pos) == pos
  {
  }

  lemma FollowNoBlank(s: Bytes, pos: nat)
    requires pos <= |s| && Follow(s, pos)
    ensures SkipWs(s, pos) == pos
  {
    NoBlank(s, pos);
  }

  /** Words and scalars. */
  lemma ScalarRead(v: Value, s: Bytes, pos: nat, depth: nat, path: seq<nat>, order: Order)
    requires Exact(v) && !v.Array? && !v.Object? && At(s, pos, StringifyAt(v, path, order))
             && Follow(s, pos + |StringifyAt(v, path, order)|)
    ensures ParseValue(s, pos, depth) == (v, pos + |StringifyAt(v, path, order)|)
  {
    var t := StringifyAt(v, path, order);
    FirstChar(v, path, order);
    AtChar(s, pos, t, 0);
    NoBlank(s, pos);
    match v
    case String(text) => StringRead(s, pos, text);
    case Number(n) => NumberRead(s, pos, n);
    case _ =>
    hide SkipWs, ParseString, ParseNumber, Quoted, NumberText, At;
  }

  /** What one level of nesting needs of its parts. */
  ghost predicate Readable(v: Value, depth: nat)
  {
    depth <= MAX_DEPTH && Exact(v) && DepthAtMost(v, MAX_DEPTH - depth)
  }

  lemma {:induction false} ValueRead(v: Value, s: Bytes, pos: nat, path: seq<nat>, order: Order)
    requires OrderOk(order) && Readable(v, |path|)
    requires At(s, pos, StringifyAt(v, path, order)) && Follow(s, pos + |StringifyAt(v, path, order)|)
    ensures ParseValue(s, pos, |path|) == (v, pos + |StringifyAt(v, path, order)|)
    decreases v, 2
  {
    if v.Array? {
      ArrayRead(v, s, pos, path, order);
    } else if v.Object? {
      ObjectRead(v, s, pos, path, order);
    } else {
      ScalarRead(v, s, pos, |path|, path, order);
    }
  }

  lemma ArrayOpen(s: Bytes, pos: nat, depth: nat)
    requires pos + 1 < |s| && s[pos] == OPEN_ARRAY && depth < MAX_DEPTH && !IsSpace(s[pos + 1]) && s[pos + 1] != SLASH
    ensures ParseValue(s, pos, depth) ==
            if s[pos + 1] == CLOSE_ARRAY then (Array([]), pos + 2) else ParseItems(s, pos + 1, depth + 1, [])
  {
    NoBlank(s, pos);
    NoBlank(s, pos + 1);
    hide ParseItems, SkipWs;
  }

  /** Items are readable one level down. */
  lemma PartsReadable(v: Value, depth: nat)
    requires Readable(v, depth)
    ensures Exact(v) && (v.Array? || v.Object? ==> depth < MAX_DEPTH)
    ensures v.Array? ==> forall i :: 0 <= i < |v.items| ==> Readable(v.items[i], depth + 1)
    ensures v.Object? ==> forall k :: k in v.members ==> Readable(v.members[k], depth + 1)
  {
  }

  lemma ArrayText(v: Value, path: seq<nat>, order: Order)
    requires v.Array? && |path| < MAX_DEPTH && Exact(v)
    ensures StringifyAt(v, path, order) ==
            [OPEN_ARRAY] + if |v.items| == 0 then [CLOSE_ARRAY] else ItemsText(v, 0, path, order)
    ensures |v.items| > 0 ==>
              |ItemsText(v, 0, path, order)| > 0 &&
              var c := ItemsText(v, 0, path, order)[0]; !IsSpace(c) && c != SLASH && c != CLOSE_ARRAY
  {
    hide Exact, IsSpace, DepthAtMost, PrintItems;
    Bracketed(v, path, order);
    if |v.items| > 0 {
      ItemsFront(v, 0, path, order);
      hide StringifyAt;
      var t, rest := StringifyAt(v.items[0], path + [0], order), PrintItems(v, 1, path, order);
      assert ([OPEN_ARRAY] + ([] + (t + rest))) + [CLOSE_ARRAY] == [OPEN_ARRAY] + (t + (rest + [CLOSE_ARRAY]));
    }
  }

  lemma Bracketed(v: Value, path: seq<nat>, order: Order)
    requires v.Array? && |path| < MAX_DEPTH
    ensures StringifyAt(v, path, order) == [OPEN_ARRAY] + PrintItems(v, 0, path, order) + [CLOSE_ARRAY]
    ensures |v.items| == 0 ==> PrintItems(v, 0, path, order) == []
  {
  }

  lemma {:induction false} ArrayRead(v: Value, s: Bytes, pos: nat, path: seq<nat>, order: Order)
    requires OrderOk(order) && Readable(v, |path|) && v.Array?
    requires At(s, pos, StringifyAt(v, path, order))
    ensures ParseValue(s, pos, |path|) == (v, pos + |StringifyAt(v, path, order)|)
    decreases v, 1, |v.items| + 1
  {
    hide *;
    PartsReadable(v, |path|);
    BodyAt(v, s, pos, path, order);
    ArrayOpen(s, pos, |path|);
    if |v.items| == 0 {
    } else {
      ItemsRead(v, 0, s, pos + 1, path, order);
      assert v.items[..0] == [];
    }
  }

  lemma BodyAt(v: Value, s: Bytes, pos: nat, path: seq<nat>, order: Order)
    requires v.Array? && |path| < MAX_DEPTH && Exact(v) && At(s, pos, StringifyAt(v, path, order))
    ensures pos + 1 < |s| && s[pos] == OPEN_ARRAY && !IsSpace(s[pos + 1]) && s[pos + 1] != SLASH
    ensures s[pos + 1] == CLOSE_ARRAY <==> |v.items| == 0
    ensures |v.items| > 0 ==> At(s, pos + 1, ItemsText(v, 0, path, order))
    ensures |StringifyAt(v, path, order)| == if |v.items| == 0 then 2 else 1 + |ItemsText(v, 0, path, order)|
  {
    hide StringifyAt, ItemsText, Exact, At, PrintItems, DepthAtMost;
    var body := if |v.items| == 0 then [CLOSE_ARRAY] else ItemsText(v, 0, path, order);
    ArrayText(v, path, order);
    BodyNotEmpty(v, path, order);
    AtChar(s, pos, [OPEN_ARRAY] + body, 0);
    AtSplit(s, pos, [OPEN_ARRAY], body);
    AtChar(s, pos + 1, body, 0);
  }

  lemma BodyNotEmpty(v: Value, path: seq<nat>, order: Order)
    requires v.Array?
    ensures |v.items| > 0 ==> |ItemsText(v, 0, path, order)| > 0
  {
  }

  /** The text of the items from i on, without the comma before it, starts with the item. */
  lemma ItemsFront(v: Value, i: nat, path: seq<nat>, order: Order)
    requires v.Array? && i < |v.items| && Exact(v)
    ensures var t := StringifyAt(v.items[i], path + [i], order);
            && |t| > 0 && !IsSpace(t[0]) && t[0] != SLASH && t[0] != CLOSE_ARRAY
            && PrintItems(v, i, path, order) == (if i > 0 then [COMMA]
                                                 else []) + (t + PrintItems(v, i + 1, path, order))
  {
    FirstChar(v.items[i], path + [i], order);
    hide StringifyAt;
  }

  /** The items from i on, after the comma. */
  function ItemsText(v: Value, i: nat, path: seq<nat>, order: Order): Bytes
    requires v.Array? && i < |v.items|
  {
    StringifyAt(v.items[i], path + [i], order) + (PrintItems(v, i + 1, path, order) + [CLOSE_ARRAY])
  }

  /** Where item i and what follows it stand. */
  lemma ItemParts(v: Value, i: nat, s: Bytes, pos: nat, path: seq<nat>, order: Order)
    requires v.Array? && i < |v.items| && At(s, pos, ItemsText(v, i, path, order))
    ensures var t := StringifyAt(v.items[i], path + [i], order); var p := pos + |t|;
            && At(s, pos, t) && p < |s| && Follow(s, p) && s[p] == (if i + 1 < |v.items| then COMMA else CLOSE_ARRAY)
            && (i + 1 < |v.items| ==> At(s, p + 1, ItemsText(v, i + 1, path, order)))
            && |ItemsText(v, i, path, order)| == |t| + 1 + (if i + 1 < |v.items|
                                                            then |ItemsText(v, i + 1, path, order)| else 0)
  {
    var t, tail := StringifyAt(v.items[i], path + [i], order), PrintItems(v, i + 1, path, order) + [CLOSE_ARRAY];
    ItemsTail(v, i, path, order);
    AtSplit(s, pos, t, tail);
    hide StringifyAt, PrintItems;
    AtChar(s, pos + |t|, tail, 0);
    if i + 1 < |v.items| {
      AtSplit(s, pos + |t|, [COMMA], ItemsText(v, i + 1, path, order));
    }
  }

  lemma ItemStep(s: Bytes, pos: nat, depth: nat, acc: seq<Value>, v: Value, p: nat)
    requires pos <= |s| && ParseValue(s, pos, depth) == (v, p) && p < |s| && Follow(s, p)
    ensures s[p] == COMMA ==> ParseItems(s, pos, depth, acc) == ParseItems(s, p + 1, depth, acc + [v])
    ensures s[p] == CLOSE_ARRAY ==> ParseItems(s, pos, depth, acc) == (Array(acc + [v]), p + 1)
  {
    FollowNoBlank(s, p);
    hide ParseValue, SkipWs;
  }

  lemma TakeMore(items: seq<Value>, i: nat)
    requires i < |items|
    ensures items[..i] + [items[i]] == items[..i + 1] && items[..|items|] == items
  {
  }

  lemma {:induction false} ItemsRead(v: Value, i: nat, s: Bytes, pos: nat, path: seq<nat>, order: Order)
    requires OrderOk(order) && v.Array? && i < |v.items| && forall k :: 0 <= k < |v.items| ==>
               Readable(v.items[k], |path| + 1)
    requires At(s, pos, ItemsText(v, i, path, order))
    ensures ParseItems(s, pos, |path| + 1, v.items[..i]) == (v, pos + |ItemsText(v, i, path, order)|)
    decreases v, 0, |v.items| - i
  {
    hide StringifyAt, PrintItems, OrderOk, Readable, ParseValue, ParseItems, At, ItemsText, Follow;
    ItemParts(v, i, s, pos, path, order);
    var p := pos + |StringifyAt(v.items[i], path + [i], order)|;
    ValueRead(v.items[i], s, pos, path + [i], order);
    ItemStep(s, pos, |path| + 1, v.items[..i], v.items[i], p);
    TakeMore(v.items, i);
    if i + 1 < |v.items| {
      ItemsRead(v, i + 1, s, p + 1, path, order);
    } else {
      assert v.items[..i + 1] == v.items[..|v.items|];
    }
  }

  lemma ItemsTail(v: Value, i: nat, path: seq<nat>, order: Order)
    requires v.Array? && i < |v.items|
    ensures var tail := PrintItems(v, i + 1, path, order) + [CLOSE_ARRAY];
            if i + 1 < |v.items| then tail == [COMMA] + ItemsText(v, i + 1, path, order) else tail == [CLOSE_ARRAY]
  {
    hide StringifyAt;
  }

  /** The members with the given keys. */
  function Restrict(m: map<Bytes, Value>, ks: seq<Bytes>): map<Bytes, Value> {
    map k | k in m && k in ks :: m[k]
  }

  ghost predicate KeysOf(m: map<Bytes, Value>, ks: seq<Bytes>) {
    forall k :: k in ks <==> k in m
  }

  /** The members with the keys from i on, after the comma. */
  function MembersText(v: Value, ks: seq<Bytes>, i: nat, path: seq<nat>, order: Order): Bytes
    requires v.Object? && i < |ks| && ks[i] in v.members
  {
    Quoted(ks[i]) +
      ([COLON] +
       (StringifyAt(v.members[ks[i]], path + [i], order) + (PrintMembers(v, ks, i + 1, path, order) + [CLOSE_OBJECT])))
  }

  lemma MembersTail(v: Value, ks: seq<Bytes>, i: nat, path: seq<nat>, order: Order)
    requires v.Object? && i < |ks| && (forall k :: k in ks ==> k in v.members)
    ensures var tail := PrintMembers(v, ks, i + 1, path, order) + [CLOSE_OBJECT];
            if i + 1 < |ks| then tail == [COMMA] + MembersText(v, ks, i + 1, path, order) else tail == [CLOSE_OBJECT]
  {
    hide StringifyAt, Quoted;
    if i + 1 < |ks| {
      assert ks[i + 1] in ks;
      var q, t, rest :=
            Quoted(ks[i + 1]), StringifyAt(v.members[ks[i + 1]], path + [i + 1], order),
            PrintMembers(v, ks, i + 2, path, order);
      JoinMember(q, [COLON], t, rest, [CLOSE_OBJECT]);
    }
  }

  lemma JoinMember(q: Bytes, c: Bytes, t: Bytes, rest: Bytes, close: Bytes)
    ensures ([COMMA] + ((q + (c + t)) + rest)) + close == [COMMA] + (q + (c + (t + (rest + close))))
    ensures ([] + ((q + (c + t)) + rest)) + close == q + (c + (t + (rest + close)))
  {
  }

  lemma MembersFront(v: Value, ks: seq<Bytes>, path: seq<nat>, order: Order)
    requires v.Object? && |ks| > 0 && (forall k :: k in ks ==> k in v.members)
    ensures ks[0] in v.members
            && PrintMembers(v, ks, 0, path, order) + [CLOSE_OBJECT] == MembersText(v, ks, 0, path, order)
  {
    hide StringifyAt, Quoted;
    assert ks[0] in ks;
    var q, t, rest :=
          Quoted(ks[0]), StringifyAt(v.members[ks[0]], path + [0], order), PrintMembers(v, ks, 1, path, order);
    JoinMember(q, [COLON], t, rest, [CLOSE_OBJECT]);
  }

  lemma RestrictMore(m: map<Bytes, Value>, ks: seq<Bytes>, i: nat)
    requires i < |ks| && ks[i] in m
    ensures Restrict(m, ks[..i])[ks[i] := m[ks[i]]] == Restrict(m, ks[..i + 1])
  {
    assert ks[..i + 1] == ks[..i] + [ks[i]];
  }

  lemma RestrictAll(m: map<Bytes, Value>, ks: seq<Bytes>)
    requires KeysOf(m, ks)
    ensures Restrict(m, ks[..|ks|]) == m
  {
    assert ks[..|ks|] == ks;
  }

  /** Where the parts of a member stand. */
  lemma MemberParts(v: Value, ks: seq<Bytes>, i: nat, s: Bytes, pos: nat, path: seq<nat>, order: Order)
    requires v.Object? && i < |ks| && ks[i] in v.members && At(s, pos, MembersText(v, ks, i, path, order))
    ensures var q := pos + |Quoted(ks[i])|; var t := StringifyAt(v.members[ks[i]], path + [i], order);
            && pos < q < |s| && s[pos] == QUOTE && s[q] == COLON && At(s, pos, Quoted(ks[i])) && At(s, q + 1, t)
            && At(s, q + 1 + |t|, PrintMembers(v, ks, i + 1, path, order) + [CLOSE_OBJECT])
            && pos + |MembersText(v, ks, i, path, order)| == q + 1 + |t| + |PrintMembers(v, ks, i + 1, path, order)| + 1
  {
    hide StringifyAt, PrintMembers, EscapeAll;
    var q, t, tail :=
          Quoted(ks[i]), StringifyAt(v.members[ks[i]], path + [i], order),
          PrintMembers(v, ks, i + 1, path, order) + [CLOSE_OBJECT];
    AtSplit(s, pos, q, [COLON] + (t + tail));
    AtSplit(s, pos + |q|, [COLON], t + tail);
    AtSplit(s, pos + |q| + 1, t, tail);
    AtChar(s, pos, q, 0);
    AtChar(s, pos + |q|, [COLON], 0);
  }

  lemma MemberStep(s: Bytes, pos: nat, depth: nat, acc: map<Bytes, Value>, key: Bytes, q: nat, v: Value, p: nat)
    requires pos < |s| && s[pos] == QUOTE && ParseString(s, pos) == (key, q) && pos <= q < |s| && s[q] == COLON
    requires ParseValue(s, q + 1, depth) == (v, p) && p < |s| && Follow(s, p)
    ensures s[p] == COMMA ==> ParseMembers(s, pos, depth, acc) == ParseMembers(s, p + 1, depth, acc[key := v])
    ensures s[p] == CLOSE_OBJECT ==> ParseMembers(s, pos, depth, acc) == (Object(acc[key := v]), p + 1)
  {
    hide ParseString, ParseValue, SkipWs, Follow;
    NoBlank(s, pos);
    NoBlank(s, q);
    FollowNoBlank(s, p);
  }

  lemma {:induction false} MembersRead(v: Value, ks: seq<Bytes>, i: nat, s: Bytes, pos: nat, path: seq<nat>,
                                       order: Order)
    requires OrderOk(order) && v.Object? && i < |ks| && KeysOf(v.members, ks) && ks[i] in v.members
    requires forall k :: k in v.members ==> Readable(v.members[k], |path| + 1)
    requires At(s, pos, MembersText(v, ks, i, path, order))
    ensures ParseMembers(s, pos, |path| + 1, Restrict(v.members, ks[..i])) ==
              (v, pos + |MembersText(v, ks, i, path, order)|)
    decreases v, 0, |ks| - i
  {
    hide StringifyAt, PrintMembers, OrderOk, Readable, Quoted, ParseString, ParseValue, ParseMembers, At, Restrict,
         MembersText, KeysOf;
    var key := ks[i];
    var q, t := pos + |Quoted(key)|, StringifyAt(v.members[key], path + [i], order);
    var p := q + 1 + |t|;
    MemberParts(v, ks, i, s, pos, path, order);
    TailAt(v, ks, i, s, p, path, order);
    StringRead(s, pos, key);
    ValueRead(v.members[key], s, q + 1, path + [i], order);
    MemberStep(s, pos, |path| + 1, Restrict(v.members, ks[..i]), key, q, v.members[key], p);
    RestrictMore(v.members, ks, i);
    if i + 1 < |ks| {
      MembersRead(v, ks, i + 1, s, p + 1, path, order);
    } else {
      assert ks[..i + 1] == ks[..|ks|];
      RestrictAll(v.members, ks);
    }
  }

  /** What stands behind member i. */
  lemma TailAt(v: Value, ks: seq<Bytes>, i: nat, s: Bytes, p: nat, path: seq<nat>, order: Order)
    requires v.Object? && i < |ks| && KeysOf(v.members, ks)
    requires At(s, p, PrintMembers(v, ks, i + 1, path, order) + [CLOSE_OBJECT])
    ensures p < |s| && Follow(s, p) && s[p] == if i + 1 < |ks| then COMMA else CLOSE_OBJECT
    ensures i + 1 < |ks| ==> ks[i + 1] in v.members && At(s, p + 1, MembersText(v, ks, i + 1, path, order))
    ensures |PrintMembers(v, ks, i + 1, path, order)| + 1 == if i + 1 < |ks|
            then 1 + |MembersText(v, ks, i + 1, path, order)| else 1
  {
    MembersTail(v, ks, i, path, order);
    var tail := PrintMembers(v, ks, i + 1, path, order) + [CLOSE_OBJECT];
    hide PrintMembers, MembersText;
    AtChar(s, p, tail, 0);
    if i + 1 < |ks| {
      assert ks[i + 1] in ks;
      AtSplit(s, p, [COMMA], MembersText(v, ks, i + 1, path, order));
    }
  }

  lemma ObjectOpen(s: Bytes, pos: nat, depth: nat)
    requires pos + 1 < |s| && s[pos] == OPEN_OBJECT && depth < MAX_DEPTH && !IsSpace(s[pos + 1]) && s[pos + 1] != SLASH
    ensures ParseValue(s, pos, depth) ==
            if s[pos + 1] == CLOSE_OBJECT then (Object(map[]), pos + 2) else ParseMembers(s, pos + 1, depth + 1, map[])
  {
    NoBlank(s, pos);
    NoBlank(s, pos + 1);
    hide ParseMembers, SkipWs;
  }

  lemma ObjectText(v: Value, ks: seq<Bytes>, path: seq<nat>, order: Order)
    requires v.Object? && |path| < MAX_DEPTH && ks == order(path, v.members) && KeysOf(v.members, ks)
    ensures |ks| > 0 ==> ks[0] in v.members
    ensures StringifyAt(v, path, order) == [OPEN_OBJECT] + if |ks| == 0 then [CLOSE_OBJECT]
            else MembersText(v, ks, 0, path, order)
    ensures |ks| > 0 ==> |MembersText(v, ks, 0, path, order)| > 0 && MembersText(v, ks, 0, path, order)[0] == QUOTE
  {
    if |ks| > 0 {
      MembersFront(v, ks, path, order);
      FirstIsQuote(v, ks, path, order);
      var m := PrintMembers(v, ks, 0, path, order);
      assert ([OPEN_OBJECT] + m) + [CLOSE_OBJECT] == [OPEN_OBJECT] + (m + [CLOSE_OBJECT]);
    }
    hide PrintMembers, MembersText;
  }

  lemma MembersAt(v: Value, ks: seq<Bytes>, s: Bytes, pos: nat, path: seq<nat>, order: Order)
    requires v.Object? && |path| < MAX_DEPTH && ks == order(path, v.members) && KeysOf(v.members, ks)
             && At(s, pos, StringifyAt(v, path, order))
    ensures pos + 1 < |s| && s[pos] == OPEN_OBJECT && !IsSpace(s[pos + 1]) && s[pos + 1] != SLASH
    ensures s[pos + 1] == CLOSE_OBJECT <==> |ks| == 0
    ensures |ks| > 0 ==> ks[0] in v.members && At(s, pos + 1, MembersText(v, ks, 0, path, order))
    ensures |StringifyAt(v, path, order)| == if |ks| == 0 then 2 else 1 + |MembersText(v, ks, 0, path, order)|
  {
    ObjectText(v, ks, path, order);
    var body := if |ks| == 0 then [CLOSE_OBJECT] else MembersText(v, ks, 0, path, order);
    hide StringifyAt, MembersText, KeysOf;
    AtChar(s, pos, [OPEN_OBJECT] + body, 0);
    AtSplit(s, pos, [OPEN_OBJECT], body);
    AtChar(s, pos + 1, body, 0);
  }

  lemma {:induction false} ObjectRead(v: Value, s: Bytes, pos: nat, path: seq<nat>, order: Order)
    requires OrderOk(order) && Readable(v, |path|) && v.Object?
    requires At(s, pos, StringifyAt(v, path, order))
    ensures ParseValue(s, pos, |path|) == (v, pos + |StringifyAt(v, path, order)|)
    decreases v, 1, 0
  {
    hide *;
    PartsReadable(v, |path|);
    var ks := order(path, v.members);
    OrderKeys(path, v.members, order);
    MembersAt(v, ks, s, pos, path, order);
    ObjectOpen(s, pos, |path|);
    if |ks| == 0 {
      NoKeys(v.members, ks);
    } else {
      MembersRead(v, ks, 0, s, pos + 1, path, order);
      RestrictNone(v.members, ks);
    }
  }

  lemma OrderKeys(path: seq<nat>, m: map<Bytes, Value>, order: Order)
    requires OrderOk(order)
    ensures KeysOf(m, order(path, m))
  {
    assert KeysInOrder(order(path, m), m);
  }

  lemma RestrictNone(m: map<Bytes, Value>, ks: seq<Bytes>)
    ensures Restrict(m, ks[..0]) == map[]
  {
  }

  lemma NoKeys(m: map<Bytes, Value>, ks: seq<Bytes>)
    requires KeysOf(m, ks) && |ks| == 0
    ensures m == map[]
  {
  }

  lemma FirstIsQuote(v: Value, ks: seq<Bytes>, path: seq<nat>, order: Order)
    requires v.Object? && |ks| > 0 && ks[0] in v.members
    ensures |MembersText(v, ks, 0, path, order)| > 0 && MembersText(v, ks, 0, path, order)[0] == QUOTE
  {
  }

  // ---- the round trip ----

  /** Parsing the printed text gives the value back, whatever order the members come out in, object by object. */
  lemma RoundTrip(v: Value, order: Order)
    requires OrderOk(order) && Exact(v) && DepthAtMost(v, MAX_DEPTH)
    ensures Parse(Stringify(v, order)) == v
  {
    var s := Stringify(v, order);
    assert s[0..0 + |s|] == s;
    ValueRead(v, s, 0, [], order);
    hide ParseValue, StringifyAt;
  }

  /** The parser never builds a value nested deeper than its limit. */
  lemma {:induction false} ParsedDepth(s: Bytes, pos: nat, depth: nat)
    requires pos <= |s| && depth <= MAX_DEPTH
    ensures DepthAtMost(ParseValue(s, pos, depth).0, MAX_DEPTH - depth)
    decreases |s| - pos, 1
  {
    hide SkipWs, ParseItems, ParseMembers, ParseString;
    var p := SkipWs(s, pos);
    if p < |s| && depth < MAX_DEPTH {
      var q := SkipWs(s, p + 1);
      if s[p] == OPEN_ARRAY {
        ItemsDepth(s, q, depth + 1, []);
      } else if s[p] == OPEN_OBJECT {
        MembersDepth(s, q, depth + 1, map[]);
      }
    }
  }

  lemma {:induction false} ItemsDepth(s: Bytes, pos: nat, depth: nat, acc: seq<Value>)
    requires pos <= |s| && 0 < depth <= MAX_DEPTH && forall i :: 0 <= i < |acc| ==>
               DepthAtMost(acc[i], MAX_DEPTH - depth)
    ensures DepthAtMost(ParseItems(s, pos, depth, acc).0, MAX_DEPTH - depth + 1)
    decreases |s| - pos, 2
  {
    hide ParseValue, SkipWs;
    ParsedDepth(s, pos, depth);
    var (v, p) := ParseValue(s, pos, depth);
    var q := SkipWs(s, p);
    if Peek(s, q) == COMMA {
      ItemsDepth(s, q + 1, depth, acc + [v]);
    }
  }

  lemma {:induction false} MembersDepth(s: Bytes, pos: nat, depth: nat, acc: map<Bytes, Value>)
    requires pos <= |s| && 0 < depth <= MAX_DEPTH && forall k :: k in acc ==> DepthAtMost(acc[k], MAX_DEPTH - depth)
    ensures DepthAtMost(ParseMembers(s, pos, depth, acc).0, MAX_DEPTH - depth + 1)
    decreases |s| - pos, 2
  {
    hide ParseValue, SkipWs, ParseString;
    var p := SkipWs(s, pos);
    if Peek(s, p) == QUOTE {
      var (key, q) := ParseString(s, p);
      var start := Next(s, SkipWs(s, q));
      ParsedDepth(s, start, depth);
      var (v, t) := ParseValue(s, start, depth);
      var u := SkipWs(s, t);
      if Peek(s, u) == COMMA {
        MembersDepth(s, u + 1, depth, acc[key := v]);
      }
    }
  }

  /** A value comes back exactly when it nests at most 64 containers deep. */
  lemma RoundTripIff(v: Value, order: Order)
    requires OrderOk(order) && Exact(v)
    ensures Parse(Stringify(v, order)) == v <==> DepthAtMost(v, MAX_DEPTH)
  {
    if DepthAtMost(v, MAX_DEPTH) {
      RoundTrip(v, order);
    }
    ParsedDepth(Stringify(v, order), 0, 0);
    hide ParseValue, Stringify;
  }
}
