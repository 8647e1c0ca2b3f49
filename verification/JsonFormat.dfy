/** The written form itself: order of members, escapes, separators, and which column orders the rows. */
module JsonFormat {
  import opened Wrappers
  import opened Sorting
  import opened Json
  import opened JsonRoundTrip
  import opened Jsonl

  // ---------- members ----------

  lemma DistinctDetermines<T>(xs: seq<KV<T>>)
    requires DistinctKeys(xs)
    ensures KeyDetermined(xs)
  {}

  /** A dict is written alike in whatever order its members come. */
  lemma MemberOrderIrrelevant(st: Style, fs: seq<KV<Json>>, gs: seq<KV<Json>>)
    requires DistinctKeys(fs) && multiset(fs) == multiset(gs)
    ensures Print(st, Obj(fs)) == Print(st, Obj(gs))
  {
    DistinctDetermines(fs);
    SortOrderIndependent(fs, gs);
    SortedVals(st, fs);
    SortedVals(st, gs);
  }

  /** Read from the left, the members of a written dict are its members, with keys in order. */
  lemma MembersInKeyOrder(st: Style, fs: seq<KV<Json>>)
    requires WellFormed(Obj(fs))
    ensures var r := Loads(Print(st, Obj(fs)));
      && r.Ok? && r.val.Obj? && Sorted(r.val.fields)
      && multiset(r.val.fields) == multiset(PlainVals(st, fs))
  {
    LoadsPrint(st, Obj(fs));
    SortSorts(PlainVals(st, fs));
    SortIsPermutation(PlainVals(st, fs));
  }

  // ---------- known texts ----------

  lemma PrintOne(st: Style, v: Json)
    ensures Print(st, Arr([v])) == "[" + Print(st, v) + "]"
    ensures Print(st, Arr([])) == "[]" && Print(st, Obj([])) == "{}"
  {
    assert PrintItems(st, [v]) == [Print(st, v)];
  }

  lemma PrintTwo(st: Style, v: Json, w: Json)
    ensures Print(st, Arr([v, w])) == "[" + (Print(st, v) + Comma(st) + Print(st, w)) + "]"
  {
    var parts := PrintItems(st, [v, w]);
    assert parts == [Print(st, v), Print(st, w)] && parts[1..] == [Print(st, w)];
    assert Join(Comma(st), parts[1..]) == Print(st, w);
    assert Join(Comma(st), parts) == Print(st, v) + Comma(st) + Print(st, w);
  }

  lemma PrintPair(st: Style, f: KV<Json>)
    ensures Print(st, Obj([f])) == "{" + (Quote(st.ascii, f.key) + Colon(st) + Print(st, f.val)) + "}"
  {
    var kv := KV(f.key, Print(st, f.val));
    assert PrintVals(st, [f]) == [kv] && [kv][1..] == [];
    assert Sort([kv]) == [kv];
    var part := Quote(st.ascii, f.key) + Colon(st) + Print(st, f.val);
    assert Members(st, [kv]) == [part];
    assert Join(Comma(st), [part]) == part;
    assert Print(st, Obj([f])) == "{" + Join(Comma(st), Members(st, Sort(PrintVals(st, [f])))) + "}";
  }

  lemma EscapeCons(ascii: bool, c: char, s: string)
    ensures Escape(ascii, [c] + s) == EscapeChar(ascii, c) + Escape(ascii, s)
  {
    assert ([c] + s)[1..] == s;
  }

  /** The scalars and the separators of the three styles. */
  lemma KnownTexts()
    ensures Print(CANONICAL, Null) == "null"
    ensures Print(CANONICAL, Bool(true)) == "true" && Print(CANONICAL, Bool(false)) == "false"
    ensures Print(CANONICAL, Int(0)) == "0" && Print(CANONICAL, Int(-7)) == "-7" && Print(CANONICAL, Int(42)) == "42"
    ensures Print(CANONICAL, Arr([Null, Int(0)])) == "[null,0]"
    ensures Print(ROW_KEY, Arr([Null, Int(0)])) == "[null, 0]"
    ensures Print(EVIDENCE, Arr([Null, Int(0)])) == "[null,0]"
    ensures Print(CANONICAL, Obj([KV("", Null)])) == "{\"\":null}"
    ensures Print(ROW_KEY, Obj([KV("", Null)])) == "{\"\": null}"
    ensures Print(EVIDENCE, Obj([KV("", Null)])) == "{\"\":null}"
  {
    PrintTwo(CANONICAL, Null, Int(0));
    PrintTwo(ROW_KEY, Null, Int(0));
    PrintTwo(EVIDENCE, Null, Int(0));
    PrintPair(CANONICAL, KV("", Null));
    PrintPair(ROW_KEY, KV("", Null));
    PrintPair(EVIDENCE, KV("", Null));
    assert Digits(42) == Digits(4) + ['2'];
  }

  /** The short escapes and the control characters, whatever `ensure_ascii` says. */
  lemma KnownEscapes(ascii: bool)
    ensures EscapeChar(ascii, '"') == "\\\"" && EscapeChar(ascii, '\\') == "\\\\" && EscapeChar(ascii, '/') == "/"
    ensures EscapeChar(ascii, '\n') == "\\n" && EscapeChar(ascii, '\r') == "\\r" && EscapeChar(ascii, '\t') == "\\t"
    ensures EscapeChar(ascii, '\U{0008}') == "\\b" && EscapeChar(ascii, '\U{000C}') == "\\f"
    ensures EscapeChar(ascii, '\U{001F}') == "\\u001f" && EscapeChar(ascii, '~') == "~"
  {}

  /** What `ensure_ascii` changes: four hex digits, and a surrogate pair beyond the basic plane. */
  lemma KnownWideEscapes()
    ensures EscapeChar(false, '\U{00E9}') == ['\U{00E9}'] && EscapeChar(true, '\U{00E9}') == "\\u00e9"
    ensures EscapeChar(false, '\U{007F}') == ['\U{007F}'] && EscapeChar(true, '\U{007F}') == "\\u007f"
  {}

  lemma KnownSurrogates()
    ensures EscapeChar(false, '\U{1F600}') == ['\U{1F600}'] && EscapeChar(true, '\U{1F600}') == "\\ud83d\\ude00"
  {
    var n := 0xF600;
    assert '\U{1F600}' as int - 0x1_0000 == n && 0xD800 + n / 0x400 == 0xD83D && 0xDC00 + n % 0x400 == 0xDE00;
    assert Hex4(0xD83D) == "d83d" && Hex4(0xDE00) == "de00";
  }

  /** Hook leaves: the exporter writes its own text for them, the evidence store their `str()`. */
  lemma KnownLeaves(wire: string, shown: string)
    ensures Print(CANONICAL, Opaque(wire, shown)) == Print(CANONICAL, Str(wire))
    ensures Print(ROW_KEY, Opaque(wire, shown)) == Print(ROW_KEY, Str(wire))
    ensures Print(EVIDENCE, Opaque(wire, shown)) == Print(EVIDENCE, Str(shown))
  {}

  // ---------- rows ----------

  /** What orders a row: the first of five columns it has, by `str()`, or else its text. */
  lemma RowKeyMeaning(show: Json -> string, fields: seq<KV<Json>>)
    ensures var key := RowKey(show, Obj(fields));
      if Lookup(fields, "event_id").Some? then key == show(Lookup(fields, "event_id").value)
      else if Lookup(fields, "event_uuid").Some? then key == show(Lookup(fields, "event_uuid").value)
      else if Lookup(fields, "id").Some? then key == show(Lookup(fields, "id").value)
      else if Lookup(fields, "node_id").Some? then key == show(Lookup(fields, "node_id").value)
      else if Lookup(fields, "project_id").Some? then key == show(Lookup(fields, "project_id").value)
      else key == Print(Style(true, true, false), Obj(fields))
  {
    var c := ID_COLUMNS;
    assert c[1..][0] == "event_uuid" && c[1..][1..][0] == "id" && c[1..][1..][1..][0] == "node_id";
    assert c[1..][1..][1..][1..][0] == "project_id" && c[1..][1..][1..][1..][1..] == [];
    FirstOfCons(fields, c);
    FirstOfCons(fields, c[1..]);
    FirstOfCons(fields, c[1..][1..]);
    FirstOfCons(fields, c[1..][1..][1..]);
    FirstOfCons(fields, c[1..][1..][1..][1..]);
    assert FirstOf(fields, []).None?;
  }

  lemma FirstOfCons(fields: seq<KV<Json>>, cols: seq<string>)
    requires cols != []
    ensures FirstOf(fields, cols) ==
      if Lookup(fields, cols[0]).Some? then Lookup(fields, cols[0]) else FirstOf(fields, cols[1..])
  {}

  /** A line ends at a line feed, a carriage return, the two together, or the end; nothing else ends one. */
  lemma LineEnds(line: string, end: string, rest: string)
    requires '\n' !in line && '\r' !in line
    requires end in ["\n", "\r\n", "\r"] && (end == "\r" ==> rest == [] || rest[0] != '\n')
    ensures SplitLines(line + (end + rest)) == [line] + SplitLines(rest)
  {
    var tail := end + rest;
    TakeUntil(line, tail);
    assert tail[0] == end[0] && tail[|end|..] == rest;
    assert line + tail != [];
  }

  lemma LastLine(line: string)
    requires '\n' !in line && '\r' !in line && line != []
    ensures SplitLines(line) == [line]
  {
    TakeUntil(line, "");
    assert line + "" == line && SplitLines("") == [];
  }

  lemma {:induction false} TakeUntil(line: string, tail: string)
    requires '\n' !in line && '\r' !in line
    requires tail == [] || tail[0] == '\n' || tail[0] == '\r'
    ensures TakeLine(line + tail) == (line, TakeLine(tail).1) && TakeLine(tail).0 == ""
  {
    if line == [] {
      assert line + tail == tail;
    } else {
      assert (line + tail)[0] == line[0] && (line + tail)[1..] == line[1..] + tail;
      TakeUntil(line[1..], tail);
      assert line == [line[0]] + line[1..];
    }
  }

  /** Blank lines are skipped, wherever they stand. */
  lemma {:induction false} BlankLinesSkipped(before: seq<string>, blank: string, after: seq<string>)
    requires forall i :: 0 <= i < |blank| ==> blank[i] in " \t\n\r\U{000B}\U{000C}"
    ensures ParseLines(before + [blank] + after) == ParseLines(before + after)
  {
    if after == [] {
      assert before + [blank] + [] == before + [blank] && before + [] == before;
      assert (before + [blank])[..|before|] == before;
    } else {
      var n := |after| - 1;
      BlankLinesSkipped(before, blank, after[..n]);
      assert (before + [blank] + after)[..|before| + 1 + n] == before + [blank] + after[..n];
      assert (before + after)[..|before| + n] == before + after[..n];
    }
  }
}
