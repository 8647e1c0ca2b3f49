/**
 Printing and parsing are inverse, whatever text follows the printed value.
 Injectivity and prefix-freeness of the canonical form are corollaries.
 */
module JsonRoundTrip {
  import opened Sorting
  import opened Json

  // ---------- numbers ----------

  lemma {:induction false} TakeDigitsReadsDigits(n: nat, rest: string)
    ensures TakeDigits(0, Digits(n) + rest) == TakeDigits(n, rest)
  {
    if n < 10 {
      assert ([DigitChar(n)] + rest)[1..] == rest;
    } else {
      var d := [DigitChar(n % 10)];
      assert Digits(n) + rest == Digits(n / 10) + (d + rest);
      TakeDigitsReadsDigits(n / 10, d + rest);
      assert (d + rest)[1..] == rest;
    }
  }

  lemma {:induction false} DigitsHead(n: nat)
    ensures Digits(n) != [] && IsDigit(Digits(n)[0])
    ensures Digits(n)[0] == '0' <==> n == 0
    ensures forall i :: 0 <= i < |Digits(n)| ==> IsDigit(Digits(n)[i])
  {
    if n >= 10 { DigitsHead(n / 10); }
  }

  /** The text after a number must not continue the number. */
  predicate NumberEnds(rest: string) {
    rest == [] || !(IsDigit(rest[0]) || rest[0] in ".eE")
  }

  lemma ParseIntReadsDecimal(n: int, rest: string)
    requires NumberEnds(rest)
    ensures Decimal(n) != [] && (Decimal(n)[0] == '-' || IsDigit(Decimal(n)[0]))
    ensures ParseInt(Decimal(n) + rest) == Ok(n, rest)
  {
    var m: nat := if n < 0 then -n else n;
    var t := Digits(m) + rest;
    DigitsHead(m);
    TakeDigitsReadsDigits(m, rest);
    assert t[0] == Digits(m)[0];
    assert TakeDigits(0, t) == TakeDigits(DigitVal(t[0]), t[1..]);
    if n < 0 {
      assert (Decimal(n) + rest)[1..] == t;
    } else if m == 0 {
      assert t[1..] == rest;
    }
  }

  // ---------- strings ----------

  lemma HexCharVal(d: nat)
    requires d < 16
    ensures IsHex(HexChar(d)) && HexVal(HexChar(d)) == d
  {}

  lemma HexDigitsSum(n: nat)
    requires n < 0x1_0000
    ensures n / 0x1000 < 16
    ensures n / 0x1000 * 0x1000 + n / 0x100 % 16 * 0x100 + n / 16 % 16 * 16 + n % 16 == n
  {
    var q, r := n / 16, n / 0x100;
    assert r == q / 16 && n / 0x1000 == r / 16;
    assert r == n / 0x1000 * 16 + r % 16 && q == r * 16 + q % 16 && n == q * 16 + n % 16;
  }

  lemma UnicodeAtReadsEscape(n: nat, t: string)
    requires n < 0x1_0000
    ensures UnicodeAt(UnicodeEscape(n) + t) == Ok(n, t)
  {
    var s := UnicodeEscape(n) + t;
    HexDigitsSum(n);
    var a, b, c, d := n / 0x1000, n / 0x100 % 16, n / 16 % 16, n % 16;
    HexCharVal(a);
    HexCharVal(b);
    HexCharVal(c);
    HexCharVal(d);
    assert s == ['\\', 'u', HexChar(a), HexChar(b), HexChar(c), HexChar(d)] + t;
    assert s[6..] == t;
  }

  lemma ParseCharReadsUnicode(c: char, t: string)
    requires c as int < 0x1_0000
    ensures ParseChar(UnicodeEscape(c as int) + t) == Ok(c, t)
  {
    UnicodeAtReadsEscape(c as int, t);
    var s := UnicodeEscape(c as int) + t;
    assert s[0] == '\\' && s[1] == 'u';
  }

  lemma ParseCharReadsPair(c: char, t: string)
    requires c as int >= 0x1_0000
    ensures var n := c as int - 0x1_0000;
      ParseChar(UnicodeEscape(0xD800 + n / 0x400) + UnicodeEscape(0xDC00 + n % 0x400) + t) == Ok(c, t)
  {
    var n := c as int - 0x1_0000;
    var h, l := 0xD800 + n / 0x400, 0xDC00 + n % 0x400;
    var lo := UnicodeEscape(l) + t;
    var s := UnicodeEscape(h) + lo;
    UnicodeAtReadsEscape(h, lo);
    UnicodeAtReadsEscape(l, t);
    assert s[0] == '\\' && s[1] == 'u';
    assert UnicodeEscape(h) + UnicodeEscape(l) + t == s;
    assert 0x1_0000 + (h - 0xD800) * 0x400 + (l - 0xDC00) == c as int;
  }

  lemma EscapeCharHead(ascii: bool, c: char)
    ensures EscapeChar(ascii, c) != [] && EscapeChar(ascii, c)[0] != '"'
    ensures forall i :: 0 <= i < |EscapeChar(ascii, c)| ==> EscapeChar(ascii, c)[i] >= ' '
  {}

  lemma ParseCharReadsEscape(ascii: bool, c: char, t: string)
    ensures ParseChar(EscapeChar(ascii, c) + t) == Ok(c, t)
  {
    var e := EscapeChar(ascii, c);
    var s := e + t;
    if e == [c] {
      assert s[1..] == t;
    } else if c in "\"\\\n\r\t\U{000C}\U{0008}" {
      assert s[2..] == t;
    } else if c as int < 0x1_0000 {
      ParseCharReadsUnicode(c, t);
    } else {
      ParseCharReadsPair(c, t);
    }
  }

  lemma Prepend(a: string, b: string, c: string, d: string)
    ensures a + b + c + d == a + (b + c + d)
  {}

  lemma {:induction false} ParseCharsReadsEscape(ascii: bool, s: string, t: string)
    ensures ParseChars(Escape(ascii, s) + "\"" + t) == Ok(s, t)
  {
    if s == [] {
      assert ("\"" + t)[1..] == t;
      assert Escape(ascii, s) + "\"" + t == "\"" + t;
    } else {
      var tail := Escape(ascii, s[1..]) + "\"" + t;
      ParseCharsReadsEscape(ascii, s[1..], t);
      ParseCharReadsEscape(ascii, s[0], tail);
      EscapeCharHead(ascii, s[0]);
      assert Escape(ascii, s) + "\"" + t == EscapeChar(ascii, s[0]) + tail by {
        Prepend(EscapeChar(ascii, s[0]), Escape(ascii, s[1..]), "\"", t);
      }
      assert s == [s[0]] + s[1..];
    }
  }

  /** A one-character opening, then the rest. */
  lemma Bracketed(open: string, inner: string, close: string, rest: string)
    requires |open| == 1
    ensures var s := open + inner + close + rest;
      s[0] == open[0] && s[1..] == inner + close + rest && s[1..] == inner + (close + rest)
  {}

  lemma ParseCharsReadsQuote(ascii: bool, s: string, t: string)
    ensures Quote(ascii, s) != [] && Quote(ascii, s)[0] == '"'
    ensures ParseChars((Quote(ascii, s) + t)[1..]) == Ok(s, t)
  {
    ParseCharsReadsEscape(ascii, s, t);
    Bracketed("\"", Escape(ascii, s), "\"", t);
  }

  // ---------- dicts ----------

  lemma {:induction false} PutFresh<T>(d: seq<KV<T>>, x: KV<T>)
    requires forall i :: 0 <= i < |d| ==> d[i].key != x.key
    ensures Put(d, x) == d + [x]
  {
    if d != [] {
      PutFresh(d[1..], x);
    }
  }

  lemma {:induction false} DictOfDistinct<T>(pairs: seq<KV<T>>)
    requires DistinctKeys(pairs)
    ensures DictOf(pairs) == pairs
  {
    if pairs != [] {
      var n := |pairs| - 1;
      DictOfDistinct(pairs[..n]);
      PutFresh(pairs[..n], pairs[n]);
      assert pairs == pairs[..n] + [pairs[n]];
    }
  }

  // ---------- values ----------

  /** Reading a printed v returns Plain(v) and stops exactly at its end. */
  ghost predicate RoundTrips(st: Style, v: Json) {
    forall rest :: (v.Int? ==> NumberEnds(rest)) ==>
      ParseValue(Print(st, v) + rest) == Ok(Plain(st, v), rest)
  }

  lemma PrintHead(st: Style, v: Json)
    ensures Print(st, v) != [] && !IsWs(Print(st, v)[0]) && Print(st, v)[0] != ']'
  {
    if v.Int? { ParseIntReadsDecimal(v.n, ""); }
  }

  lemma JoinHead(sep: string, parts: seq<string>)
    requires parts != [] && parts[0] != []
    ensures Join(sep, parts) != [] && Join(sep, parts)[0] == parts[0][0]
  {}

  lemma SkipSeparator(st: Style, u: string)
    requires u != [] && !IsWs(u[0])
    ensures var s := Comma(st) + u; s[0] == ',' && SkipWs(s[1..]) == u
    ensures var s := Colon(st) + u; s[0] == ':' && SkipWs(s[1..]) == u
  {
    assert SkipWs(u) == u;
    var w := " " + u;
    assert w[1..] == u;
    assert (Comma(st) + u)[1..] == if st.spaced then w else u;
    assert (Colon(st) + u)[1..] == if st.spaced then w else u;
  }

  lemma JoinSplit(sep: string, parts: seq<string>, end: string)
    requires |parts| >= 2
    ensures Join(sep, parts) + end == parts[0] + (sep + (Join(sep, parts[1..]) + end))
  {}

  lemma ParseItemsLast(st: Style, v: Json, rest: string)
    requires RoundTrips(st, v)
    ensures ParseItems(Print(st, v) + ("]" + rest)) == Ok([Plain(st, v)], rest)
  {
    var t := "]" + rest;
    assert ParseValue(Print(st, v) + t) == Ok(Plain(st, v), t);
    assert t[1..] == rest;
  }

  lemma ParseItemsMore(st: Style, v: Json, u: string, vs: seq<Json>, rest: string)
    requires RoundTrips(st, v)
    requires u != [] && !IsWs(u[0]) && ParseItems(u) == Ok(vs, rest)
    ensures ParseItems(Print(st, v) + (Comma(st) + u)) == Ok([Plain(st, v)] + vs, rest)
  {
    var t := Comma(st) + u;
    assert ParseValue(Print(st, v) + t) == Ok(Plain(st, v), t);
    SkipSeparator(st, u);
  }

  lemma {:induction false} ParseItemsReadsItems(st: Style, vs: seq<Json>, rest: string)
    requires vs != [] && forall i :: 0 <= i < |vs| ==> RoundTrips(st, vs[i])
    ensures ParseItems(Join(Comma(st), PrintItems(st, vs)) + ("]" + rest)) == Ok(PlainItems(st, vs), rest)
  {
    var parts := PrintItems(st, vs);
    if |vs| == 1 {
      ParseItemsLast(st, vs[0], rest);
      assert PlainItems(st, vs) == [Plain(st, vs[0])];
    } else {
      var u := Join(Comma(st), PrintItems(st, vs[1..])) + ("]" + rest);
      ParseItemsReadsItems(st, vs[1..], rest);
      PrintHead(st, vs[1]);
      JoinHead(Comma(st), PrintItems(st, vs[1..]));
      ParseItemsMore(st, vs[0], u, PlainItems(st, vs[1..]), rest);
      assert parts[1..] == PrintItems(st, vs[1..]);
      JoinSplit(Comma(st), parts, "]" + rest);
      assert PlainItems(st, vs) == [Plain(st, vs[0])] + PlainItems(st, vs[1..]);
    }
  }

  function MemberText(st: Style, f: KV<Json>): string {
    Quote(st.ascii, f.key) + Colon(st) + Print(st, f.val)
  }

  lemma Regroup(a: string, b: string, c: string, d: string)
    ensures a + b + c + d == a + (b + (c + d))
    ensures a != [] ==> (a + (b + (c + d)))[0] == a[0] && (a + b + c + d)[0] == a[0]
  {}

  lemma ParseMemberReadsMember(st: Style, f: KV<Json>, t: string)
    requires RoundTrips(st, f.val) && NumberEnds(t)
    ensures ParseMember(MemberText(st, f) + t) == Ok(KV(f.key, Plain(st, f.val)), t)
  {
    var p := Print(st, f.val) + t;
    PrintHead(st, f.val);
    Regroup(Quote(st.ascii, f.key), Colon(st), Print(st, f.val), t);
    ParseCharsReadsQuote(st.ascii, f.key, Colon(st) + p);
    SkipSeparator(st, p);
    assert ParseValue(p) == Ok(Plain(st, f.val), t);
  }

  lemma ParseMembersLast(st: Style, f: KV<Json>, rest: string)
    requires RoundTrips(st, f.val)
    ensures ParseMembers(MemberText(st, f) + ("}" + rest)) == Ok([KV(f.key, Plain(st, f.val))], rest)
  {
    var t := "}" + rest;
    ParseMemberReadsMember(st, f, t);
    assert t[1..] == rest;
  }

  lemma ParseMembersMore(st: Style, f: KV<Json>, u: string, kvs: seq<KV<Json>>, rest: string)
    requires RoundTrips(st, f.val)
    requires u != [] && !IsWs(u[0]) && ParseMembers(u) == Ok(kvs, rest)
    ensures ParseMembers(MemberText(st, f) + (Comma(st) + u)) == Ok([KV(f.key, Plain(st, f.val))] + kvs, rest)
  {
    ParseMemberReadsMember(st, f, Comma(st) + u);
    SkipSeparator(st, u);
    ParseMembersFrom(MemberText(st, f) + (Comma(st) + u), KV(f.key, Plain(st, f.val)), Comma(st) + u, u, kvs, rest);
  }

  lemma ParseMembersFrom(s: string, kv: KV<Json>, t: string, u: string, kvs: seq<KV<Json>>, rest: string)
    requires ParseMember(s) == Ok(kv, t) && t != [] && t[0] == ',' && SkipWs(t[1..]) == u
    requires ParseMembers(u) == Ok(kvs, rest)
    ensures ParseMembers(s) == Ok([kv] + kvs, rest)
  {
    assert SkipWs(t) == t;
  }

  function MembersText(st: Style, fs: seq<KV<Json>>): string {
    Join(Comma(st), Members(st, PrintVals(st, fs)))
  }

  lemma MembersTextSplit(st: Style, fs: seq<KV<Json>>, end: string)
    requires |fs| >= 2
    ensures var u := MembersText(st, fs[1..]) + end;
      u != [] && u[0] == '"' && MembersText(st, fs) + end == MemberText(st, fs[0]) + (Comma(st) + u)
  {
    var parts := Members(st, PrintVals(st, fs));
    MembersTexts(st, fs);
    assert parts[1] == MemberText(st, fs[1]);
    JoinHead(Comma(st), parts[1..]);
    JoinSplit(Comma(st), parts, end);
  }

  lemma PlainValsHead(st: Style, fs: seq<KV<Json>>)
    requires fs != []
    ensures PlainVals(st, fs) == [KV(fs[0].key, Plain(st, fs[0].val))] + PlainVals(st, fs[1..])
  {}

  lemma OneText(st: Style, fs: seq<KV<Json>>)
    requires |fs| == 1
    ensures MembersText(st, fs) == MemberText(st, fs[0])
    ensures PlainVals(st, fs) == [KV(fs[0].key, Plain(st, fs[0].val))]
  {
    MembersTexts(st, fs);
  }

  lemma MembersTexts(st: Style, fs: seq<KV<Json>>)
    ensures var parts := Members(st, PrintVals(st, fs));
      && forall i :: 0 <= i < |fs| ==> parts[i] == MemberText(st, fs[i])
    ensures fs != [] ==> Members(st, PrintVals(st, fs))[1..] == Members(st, PrintVals(st, fs[1..]))
  {}

  lemma {:induction false} ParseMembersReadsMembers(st: Style, fs: seq<KV<Json>>, rest: string)
    requires fs != [] && forall i :: 0 <= i < |fs| ==> RoundTrips(st, fs[i].val)
    ensures ParseMembers(MembersText(st, fs) + ("}" + rest)) == Ok(PlainVals(st, fs), rest)
  {
    if |fs| == 1 {
      ParseMembersLast(st, fs[0], rest);
      OneText(st, fs);
    } else {
      var u := MembersText(st, fs[1..]) + ("}" + rest);
      MembersTextSplit(st, fs, "}" + rest);
      ParseMembersReadsMembers(st, fs[1..], rest);
      ParseMembersMore(st, fs[0], u, PlainVals(st, fs[1..]), rest);
      PlainValsHead(st, fs);
    }
  }

  lemma SortedVals(st: Style, fs: seq<KV<Json>>)
    ensures Sort(PrintVals(st, fs)) == PrintVals(st, Sort(fs))
    ensures Sort(PlainVals(st, fs)) == PlainVals(st, Sort(fs))
  {
    var p := v => Print(st, v);
    var q := v => Plain(st, v);
    assert PrintVals(st, fs) == MapVal(p, fs) && PlainVals(st, fs) == MapVal(q, fs);
    SortMapVal(p, fs);
    SortMapVal(q, fs);
    assert PrintVals(st, Sort(fs)) == MapVal(p, Sort(fs)) && PlainVals(st, Sort(fs)) == MapVal(q, Sort(fs));
  }

  lemma ParseValueReadsArr(st: Style, items: seq<Json>, rest: string)
    requires forall i :: 0 <= i < |items| ==> RoundTrips(st, items[i])
    ensures ParseValue(Print(st, Arr(items)) + rest) == Ok(Plain(st, Arr(items)), rest)
  {
    var u := Join(Comma(st), PrintItems(st, items)) + ("]" + rest);
    Bracketed("[", Join(Comma(st), PrintItems(st, items)), "]", rest);
    if items == [] {
      assert u == "]" + rest && u[1..] == rest;
    } else {
      PrintHead(st, items[0]);
      JoinHead(Comma(st), PrintItems(st, items));
      ParseItemsReadsItems(st, items, rest);
    }
  }

  lemma ParseObject(s: string, u: string, kvs: seq<KV<Json>>, rest: string)
    requires s != [] && s[0] == '{' && s[1..] == u
    requires u != [] && u[0] == '"' && ParseMembers(u) == Ok(kvs, rest)
    ensures ParseValue(s) == Ok(Obj(DictOf(kvs)), rest)
  {}

  lemma ParseValueReadsSorted(st: Style, fs: seq<KV<Json>>, rest: string)
    requires DistinctKeys(fs)
    requires forall i :: 0 <= i < |fs| ==> RoundTrips(st, fs[i].val)
    ensures ParseValue("{" + Join(Comma(st), Members(st, PrintVals(st, fs))) + "}" + rest) ==
      Ok(Obj(PlainVals(st, fs)), rest)
  {
    var parts := Members(st, PrintVals(st, fs));
    var u := Join(Comma(st), parts) + ("}" + rest);
    Bracketed("{", Join(Comma(st), parts), "}", rest);
    if fs == [] {
      assert u == "}" + rest && u[1..] == rest;
    } else {
      MembersTexts(st, fs);
      JoinHead(Comma(st), parts);
      ParseMembersReadsMembers(st, fs, rest);
      DictOfDistinct(PlainVals(st, fs));
      ParseObject("{" + Join(Comma(st), parts) + "}" + rest, u, PlainVals(st, fs), rest);
    }
  }

  lemma ParseValueReadsObj(st: Style, fields: seq<KV<Json>>, rest: string)
    requires DistinctKeys(fields)
    requires forall i :: 0 <= i < |fields| ==> RoundTrips(st, fields[i].val)
    ensures ParseValue(Print(st, Obj(fields)) + rest) == Ok(Plain(st, Obj(fields)), rest)
  {
    var fs := Sort(fields);
    SortedVals(st, fields);
    SortIsPermutation(fields);
    SortDistinct(fields);
    forall i | 0 <= i < |fs| ensures RoundTrips(st, fs[i].val) {
      assert fs[i] in fields;
    }
    ParseValueReadsSorted(st, fs, rest);
  }

  /**
   `json.loads` after `json.dumps`, in every style: the value comes back with hook leaves
   as strings and members in key order, and the text that follows is left untouched.
   */
  lemma {:induction false} ParsePrint(st: Style, v: Json)
    requires WellFormed(v)
    ensures RoundTrips(st, v)
  {
    match v
    case Arr(items) =>
      forall i | 0 <= i < |items| ensures RoundTrips(st, items[i]) { ParsePrint(st, items[i]); }
      forall rest { ParseValueReadsArr(st, items, rest); }
    case Obj(fields) =>
      forall i | 0 <= i < |fields| ensures RoundTrips(st, fields[i].val) { ParsePrint(st, fields[i].val); }
      forall rest { ParseValueReadsObj(st, fields, rest); }
    case _ =>
      forall rest | v.Int? ==> NumberEnds(rest)
        ensures ParseValue(Print(st, v) + rest) == Ok(Plain(st, v), rest)
      {
        ParseScalar(st, v, rest);
      }
  }

  lemma ParseWord(word: string, v: Json, rest: string)
    requires (word, v) in [("null", Json.Null), ("true", Bool(true)), ("false", Bool(false))]
    ensures ParseValue(word + rest) == Ok(v, rest)
  {
    var s := word + rest;
    assert s[..|word|] == word && s[|word|..] == rest;
    assert s[0] == word[0];
  }

  lemma ParseScalar(st: Style, v: Json, rest: string)
    requires !v.Arr? && !v.Obj? && (v.Int? ==> NumberEnds(rest))
    ensures ParseValue(Print(st, v) + rest) == Ok(Plain(st, v), rest)
  {
    match v
    case Null => ParseWord("null", Json.Null, rest);
    case Bool(b) => ParseWord(if b then "true" else "false", v, rest);
    case Int(n) => ParseIntReadsDecimal(n, rest);
    case Str(t) => ParseCharsReadsQuote(st.ascii, t, rest);
    case Opaque(_, _) => ParseCharsReadsQuote(st.ascii, Leaf(st, v), rest);
  }

  lemma LoadsPrint(st: Style, v: Json)
    requires WellFormed(v)
    ensures Loads(Print(st, v)) == Ok(Plain(st, v), "")
  {
    ParsePrint(st, v);
    PrintHead(st, v);
    assert Print(st, v) + "" == Print(st, v);
  }

  // ---------- corollaries ----------

  /** Equal text means equal values, up to member order and the text of hook leaves; and conversely. */
  lemma PrintInjective(st: Style, v: Json, w: Json)
    requires WellFormed(v) && WellFormed(w)
    ensures Print(st, v) == Print(st, w) <==> Plain(st, v) == Plain(st, w)
  {
    LoadsPrint(st, v);
    LoadsPrint(st, w);
    if Plain(st, v) == Plain(st, w) {
      PrintPlain(st, v);
      PrintPlain(st, w);
    }
  }

  /** No printed object is a proper prefix of another: a concatenation splits one way only. */
  lemma PrintPrefixFree(st: Style, v: Json, w: Json, x: string, y: string)
    requires WellFormed(v) && WellFormed(w) && v.Obj? && w.Obj?
    ensures Print(st, v) + x == Print(st, w) + y <==> Plain(st, v) == Plain(st, w) && x == y
  {
    ParsePrint(st, v);
    ParsePrint(st, w);
    assert ParseValue(Print(st, v) + x) == Ok(Plain(st, v), x);
    assert ParseValue(Print(st, w) + y) == Ok(Plain(st, w), y);
    PrintInjective(st, v, w);
  }

  lemma {:induction false} PlainWellFormed(st: Style, v: Json)
    requires WellFormed(v)
    ensures WellFormed(Plain(st, v))
  {
    match v
    case Arr(items) =>
      forall i | 0 <= i < |items| ensures WellFormed(PlainItems(st, items)[i]) { PlainWellFormed(st, items[i]); }
    case Obj(fields) =>
      SortedVals(st, fields);
      SortIsPermutation(fields);
      SortDistinct(fields);
      var fs := Sort(fields);
      forall i | 0 <= i < |fs| ensures WellFormed(PlainVals(st, fs)[i].val) {
        assert fs[i] in fields;
        var j :| 0 <= j < |fields| && fields[j] == fs[i];
        PlainWellFormed(st, fields[j].val);
      }
    case _ =>
  }

  /** A value that was read back prints as before, in any style that renders hook leaves the same way. */
  lemma {:induction false} PrintPlainIn(st: Style, st': Style, v: Json)
    requires WellFormed(v) && st.shown == st'.shown
    ensures Print(st', Plain(st, v)) == Print(st', v)
    ensures Plain(st', Plain(st, v)) == Plain(st', v)
  {
    match v
    case Arr(items) =>
      forall i | 0 <= i < |items|
        ensures Print(st', Plain(st, items[i])) == Print(st', items[i])
        ensures Plain(st', Plain(st, items[i])) == Plain(st', items[i])
      {
        PrintPlainIn(st, st', items[i]);
      }
      assert PrintItems(st', PlainItems(st, items)) == PrintItems(st', items);
      assert PlainItems(st', PlainItems(st, items)) == PlainItems(st', items);
    case Obj(fields) =>
      var fs := Sort(fields);
      SortedVals(st, fields);
      SortedVals(st', fields);
      SortIsPermutation(fields);
      SortSorts(fields);
      forall i | 0 <= i < |fs|
        ensures Print(st', Plain(st, fs[i].val)) == Print(st', fs[i].val)
        ensures Plain(st', Plain(st, fs[i].val)) == Plain(st', fs[i].val)
      {
        assert fs[i] in fields;
        var j :| 0 <= j < |fields| && fields[j] == fs[i];
        PrintPlainIn(st, st', fields[j].val);
      }
      var ps := PlainVals(st, fs);
      SortFixesSorted(ps);
      SortedVals(st', ps);
      assert PrintVals(st', ps) == PrintVals(st', fs);
      assert PlainVals(st', ps) == PlainVals(st', fs);
    case _ =>
  }

  lemma PrintPlain(st: Style, v: Json)
    requires WellFormed(v)
    ensures Print(st, Plain(st, v)) == Print(st, v)
  {
    PrintPlainIn(st, st, v);
  }

  // ---------- no control characters ----------

  ghost predicate NoControl(s: string) { forall i :: 0 <= i < |s| ==> s[i] >= ' ' }

  lemma {:induction false} EscapeNoControl(ascii: bool, s: string)
    ensures NoControl(Escape(ascii, s))
  {
    if s != [] {
      EscapeNoControl(ascii, s[1..]);
      EscapeCharHead(ascii, s[0]);
    }
  }

  lemma {:induction false} JoinNoControl(sep: string, parts: seq<string>)
    requires NoControl(sep) && forall i :: 0 <= i < |parts| ==> NoControl(parts[i])
    ensures NoControl(Join(sep, parts))
  {
    if |parts| >= 2 { JoinNoControl(sep, parts[1..]); }
  }

  lemma MembersNoControl(st: Style, fs: seq<KV<Json>>)
    requires forall i :: 0 <= i < |fs| ==> NoControl(Print(st, fs[i].val))
    ensures NoControl(Join(Comma(st), Members(st, PrintVals(st, fs))))
  {
    MembersTexts(st, fs);
    var parts := Members(st, PrintVals(st, fs));
    forall i | 0 <= i < |fs| ensures NoControl(parts[i]) {
      EscapeNoControl(st.ascii, fs[i].key);
      assert NoControl(Print(st, fs[i].val));
    }
    JoinNoControl(Comma(st), parts);
  }

  lemma ObjNoControl(st: Style, fields: seq<KV<Json>>)
    requires forall i :: 0 <= i < |fields| ==> NoControl(Print(st, fields[i].val))
    ensures NoControl(Print(st, Obj(fields)))
  {
    var fs := Sort(fields);
    SortedVals(st, fields);
    SortIsPermutation(fields);
    forall i | 0 <= i < |fs| ensures NoControl(Print(st, fs[i].val)) {
      assert fs[i] in fields;
    }
    MembersNoControl(st, fs);
  }

  /** JSON text is one line: it holds no line break and no other control character. */
  lemma {:induction false} PrintNoControl(st: Style, v: Json)
    ensures NoControl(Print(st, v))
  {
    match v
    case Int(n) => DigitsHead(if n < 0 then -n else n);
    case Str(s) => EscapeNoControl(st.ascii, s);
    case Opaque(_, _) => EscapeNoControl(st.ascii, Leaf(st, v));
    case Arr(items) =>
      forall i | 0 <= i < |items| ensures NoControl(Print(st, items[i])) { PrintNoControl(st, items[i]); }
      JoinNoControl(Comma(st), PrintItems(st, items));
    case Obj(fields) =>
      forall i | 0 <= i < |fields| ensures NoControl(Print(st, fields[i].val)) { PrintNoControl(st, fields[i].val); }
      ObjNoControl(st, fields);
    case _ =>
  }
}
