/**
 A schema slice: rows sorted by key, one canonical JSON object a line
 (`_render_schema_jsonl`), and the importer's line-by-line reader (`_parse_jsonl`).
 `show` is Python's `str()`, which decides the order of rows that have an id column.
 */
module Jsonl {
  import opened Wrappers
  import opened Sorting
  import opened Json
  import opened JsonRoundTrip

  // ---------- rows and their sort key ----------

  ghost predicate IsRow(row: Json) { row.Obj? && WellFormed(row) }
  ghost predicate AllRows(rows: seq<Json>) { forall i :: 0 <= i < |rows| ==> IsRow(rows[i]) }

  function Lookup<T>(fields: seq<KV<T>>, key: string): Option<T> {
    if fields == [] then None
    else if fields[0].key == key then Some(fields[0].val)
    else Lookup(fields[1..], key)
  }

  const ID_COLUMNS: seq<string> := ["event_id", "event_uuid", "id", "node_id", "project_id"]

  /** The first of the given columns the row has. */
  function FirstOf(fields: seq<KV<Json>>, cols: seq<string>): Option<Json> {
    if cols == [] then None
    else if Lookup(fields, cols[0]).Some? then Lookup(fields, cols[0])
    else FirstOf(fields, cols[1..])
  }

  function RowKey(show: Json -> string, row: Json): string
    requires row.Obj?
  {
    match FirstOf(row.fields, ID_COLUMNS)
    case Some(id) => show(id)
    case None => Print(ROW_KEY, row)
  }

  function Keyed(show: Json -> string, rows: seq<Json>): (r: seq<KV<Json>>)
    requires forall i :: 0 <= i < |rows| ==> rows[i].Obj?
    ensures |r| == |rows|
    ensures forall i :: 0 <= i < |r| ==> r[i] == KV(RowKey(show, rows[i]), rows[i])
  {
    seq(|rows|, i requires 0 <= i < |rows| => KV(RowKey(show, rows[i]), rows[i]))
  }

  function Vals<T>(kvs: seq<KV<T>>): (r: seq<T>)
    ensures |r| == |kvs|
    ensures forall i :: 0 <= i < |r| ==> r[i] == kvs[i].val
  {
    seq(|kvs|, i requires 0 <= i < |kvs| => kvs[i].val)
  }

  /** `sorted(rows, key=_row_sort_key)`. */
  function SortRows(show: Json -> string, rows: seq<Json>): seq<Json>
    requires forall i :: 0 <= i < |rows| ==> rows[i].Obj?
  {
    Vals(Sort(Keyed(show, rows)))
  }

  // ---------- rendering ----------

  function RenderLines(rows: seq<Json>): string {
    if rows == [] then "" else Print(CANONICAL, rows[0]) + "\n" + RenderLines(rows[1..])
  }

  lemma {:induction false} RenderLinesSnoc(rows: seq<Json>, row: Json)
    ensures RenderLines(rows + [row]) == RenderLines(rows) + Print(CANONICAL, row) + "\n"
  {
    if rows == [] {
      assert [] + [row] == [row];
    } else {
      assert (rows + [row])[1..] == rows[1..] + [row];
      RenderLinesSnoc(rows[1..], row);
    }
  }

  method RenderSchemaJsonl(show: Json -> string, rows: seq<Json>) returns (buf: string)
    requires AllRows(rows)
    ensures buf == RenderLines(SortRows(show, rows))
  {
    var sortedRows := SortRows(show, rows);
    buf := "";
    for i := 0 to |sortedRows|
      invariant buf == RenderLines(sortedRows[..i])
    {
      RenderLinesSnoc(sortedRows[..i], sortedRows[i]);
      assert sortedRows[..i + 1] == sortedRows[..i] + [sortedRows[i]];
      buf := buf + Print(CANONICAL, sortedRows[i]);
      buf := buf + "\n";
    }
    assert sortedRows[..|sortedRows|] == sortedRows;
  }

  // ---------- reading ----------

  /** Up to the first "\n", "\r" or "\r\n", and what follows it. */
  function TakeLine(s: string): (r: (string, string))
    ensures s != [] ==> |r.1| < |s|
  {
    if s == [] then ("", "")
    else if s[0] == '\n' then ("", s[1..])
    else if s[0] == '\r' then ("", if |s| > 1 && s[1] == '\n' then s[2..] else s[1..])
    else
      var (line, rest) := TakeLine(s[1..]);
      ([s[0]] + line, rest)
  }

  /** `bytes.splitlines()`: only line feed and carriage return end a line. */
  function SplitLines(s: string): seq<string>
    decreases |s|
  {
    if s == [] then [] else [TakeLine(s).0] + SplitLines(TakeLine(s).1)
  }

  /** `not line.strip()`: nothing but ASCII white space. */
  predicate IsBlank(line: string) {
    forall i :: 0 <= i < |line| ==> line[i] in " \t\n\r\U{000B}\U{000C}"
  }

  /** None when some line is not JSON: `json.loads` raises. */
  function ParseLines(lines: seq<string>): Option<seq<Json>> {
    if lines == [] then Some([])
    else
      var n := |lines| - 1;
      match ParseLines(lines[..n])
      case None => None
      case Some(rows) =>
        if IsBlank(lines[n]) then Some(rows)
        else
          match Loads(lines[n])
          case Fail => None
          case Ok(v, _) => Some(rows + [v])
  }

  lemma {:induction false} ParseLinesStops(lines: seq<string>, n: nat)
    requires n <= |lines| && ParseLines(lines[..n]).None?
    ensures ParseLines(lines).None?
    decreases |lines| - n
  {
    if n < |lines| {
      assert lines[..n + 1][..n] == lines[..n];
      ParseLinesStops(lines, n + 1);
    } else {
      assert lines[..n] == lines;
    }
  }

  method ParseJsonl(blob: string) returns (r: Option<seq<Json>>)
    ensures r == ParseLines(SplitLines(blob))
  {
    var lines := SplitLines(blob);
    var rows: seq<Json> := [];
    for i := 0 to |lines|
      invariant ParseLines(lines[..i]) == Some(rows)
    {
      assert lines[..i + 1][..i] == lines[..i];
      if !IsBlank(lines[i]) {
        match Loads(lines[i]) {
          case Fail =>
            ParseLinesStops(lines, i + 1);
            return None;
          case Ok(v, _) =>
            rows := rows + [v];
        }
      }
    }
    assert lines[..|lines|] == lines;
    return Some(rows);
  }

  // ---------- a rendered slice reads back ----------

  function PlainRows(rows: seq<Json>): (r: seq<Json>)
    ensures |r| == |rows|
    ensures forall i :: 0 <= i < |r| ==> r[i] == Plain(CANONICAL, rows[i])
  {
    PlainItems(CANONICAL, rows)
  }

  function Texts(rows: seq<Json>): (r: seq<string>)
    ensures |r| == |rows|
    ensures forall i :: 0 <= i < |r| ==> r[i] == Print(CANONICAL, rows[i])
  {
    PrintItems(CANONICAL, rows)
  }

  lemma {:induction false} TakeLineWhole(line: string, rest: string)
    requires NoControl(line)
    ensures TakeLine(line + "\n" + rest) == (line, rest)
  {
    var s := line + "\n" + rest;
    if line == [] {
      assert s[1..] == rest;
    } else {
      assert s[1..] == line[1..] + "\n" + rest;
      TakeLineWhole(line[1..], rest);
      assert line == [line[0]] + line[1..];
    }
  }

  /** Line splitting is exact: the lines of a slice are the texts of its rows. */
  lemma {:induction false} SplitRendered(rows: seq<Json>)
    ensures SplitLines(RenderLines(rows)) == Texts(rows)
  {
    if rows != [] {
      PrintNoControl(CANONICAL, rows[0]);
      TakeLineWhole(Print(CANONICAL, rows[0]), RenderLines(rows[1..]));
      SplitRendered(rows[1..]);
      assert Texts(rows) == [Print(CANONICAL, rows[0])] + Texts(rows[1..]);
    }
  }

  lemma RowTextReads(row: Json)
    requires IsRow(row)
    ensures !IsBlank(Print(CANONICAL, row))
    ensures Loads(Print(CANONICAL, row)) == Ok(Plain(CANONICAL, row), "")
  {
    LoadsPrint(CANONICAL, row);
    assert Print(CANONICAL, row)[0] == '{';
  }

  lemma {:induction false} ParseLinesAll(lines: seq<string>, vs: seq<Json>)
    requires |lines| == |vs|
    requires forall i :: 0 <= i < |lines| ==> !IsBlank(lines[i]) && Loads(lines[i]) == Ok(vs[i], "")
    ensures ParseLines(lines) == Some(vs)
  {
    if lines != [] {
      var n := |lines| - 1;
      ParseLinesAll(lines[..n], vs[..n]);
      assert Loads(lines[n]) == Ok(vs[n], "");
      assert vs == vs[..n] + [vs[n]];
    }
  }

  lemma ParseTexts(rows: seq<Json>)
    requires AllRows(rows)
    ensures ParseLines(Texts(rows)) == Some(PlainRows(rows))
  {
    forall i | 0 <= i < |rows|
      ensures !IsBlank(Texts(rows)[i]) && Loads(Texts(rows)[i]) == Ok(PlainRows(rows)[i], "")
    {
      assert IsRow(rows[i]);
      RowTextReads(rows[i]);
    }
    ParseLinesAll(Texts(rows), PlainRows(rows));
  }

  /** Parsing a rendered slice yields its rows in sort-key order, hook leaves as strings. */
  lemma ParseRendered(show: Json -> string, rows: seq<Json>)
    requires AllRows(rows)
    ensures ParseLines(SplitLines(RenderLines(SortRows(show, rows)))) == Some(PlainRows(SortRows(show, rows)))
  {
    SortRowsFacts(show, rows);
    SplitRendered(SortRows(show, rows));
    ParseTexts(SortRows(show, rows));
  }

  lemma SortRowsFacts(show: Json -> string, rows: seq<Json>)
    requires AllRows(rows)
    ensures AllRows(SortRows(show, rows))
    ensures multiset(SortRows(show, rows)) == multiset(rows)
    ensures Keyed(show, SortRows(show, rows)) == Sort(Keyed(show, rows))
    ensures Sorted(Keyed(show, SortRows(show, rows)))
  {
    var kvs := Keyed(show, rows);
    SortIsPermutation(kvs);
    SortSorts(kvs);
    var val := (kv: KV<Json>) => kv.val;
    MapPermutation(val, Sort(kvs), kvs);
    assert Map(val, kvs) == rows && Map(val, Sort(kvs)) == SortRows(show, rows);
    forall i | 0 <= i < |Sort(kvs)|
      ensures Sort(kvs)[i].val in rows && Sort(kvs)[i].key == RowKey(show, Sort(kvs)[i].val)
    {
      assert Sort(kvs)[i] in kvs;
    }
  }

  // ---------- rendering what was read ----------

  lemma PlainRowsFacts(rows: seq<Json>)
    requires AllRows(rows)
    ensures AllRows(PlainRows(rows))
    ensures RenderLines(PlainRows(rows)) == RenderLines(rows)
    ensures PlainRows(PlainRows(rows)) == PlainRows(rows)
  {
    forall i | 0 <= i < |rows|
      ensures IsRow(Plain(CANONICAL, rows[i]))
      ensures Print(CANONICAL, Plain(CANONICAL, rows[i])) == Print(CANONICAL, rows[i])
      ensures Plain(CANONICAL, Plain(CANONICAL, rows[i])) == Plain(CANONICAL, rows[i])
    {
      PlainWellFormed(CANONICAL, rows[i]);
      PrintPlainIn(CANONICAL, CANONICAL, rows[i]);
    }
    RenderLinesOfTexts(PlainRows(rows), rows);
  }

  lemma {:induction false} RenderLinesOfTexts(rows: seq<Json>, rows': seq<Json>)
    requires Texts(rows) == Texts(rows')
    ensures RenderLines(rows) == RenderLines(rows')
  {
    assert |rows| == |Texts(rows)| == |rows'|;
    if rows != [] {
      assert Texts(rows)[0] == Texts(rows')[0];
      assert Texts(rows)[1..] == Texts(rows[1..]) && Texts(rows')[1..] == Texts(rows'[1..]);
      RenderLinesOfTexts(rows[1..], rows'[1..]);
    }
  }

  lemma SortRowsFixesSorted(show: Json -> string, rows: seq<Json>)
    requires AllRows(rows) && Sorted(Keyed(show, rows))
    ensures SortRows(show, rows) == rows
  {
    SortFixesSorted(Keyed(show, rows));
  }

  /**
   Exporting what was imported gives the same bytes exactly when the sort keys of the
   imported rows, in the order of the file, do not decrease.
   */
  lemma ReRenderIff(show: Json -> string, rows: seq<Json>)
    requires AllRows(rows)
    ensures var s := SortRows(show, rows);
      AllRows(s) && AllRows(PlainRows(s)) &&
      (RenderLines(SortRows(show, PlainRows(s))) == RenderLines(s) <==> Sorted(Keyed(show, PlainRows(s))))
  {
    var s := SortRows(show, rows);
    SortRowsFacts(show, rows);
    PlainRowsFacts(s);
    var p := PlainRows(s);
    var q := SortRows(show, p);
    SortRowsFacts(show, p);
    if Sorted(Keyed(show, p)) {
      SortRowsFixesSorted(show, p);
    }
    if RenderLines(q) == RenderLines(s) {
      SameTextSameRows(q, p);
      PlainPermutation(q, p);
    }
  }

  lemma SameTextSameRows(q: seq<Json>, p: seq<Json>)
    requires AllRows(q) && AllRows(p) && RenderLines(q) == RenderLines(p)
    ensures PlainRows(q) == PlainRows(p)
  {
    SplitRendered(q);
    SplitRendered(p);
    ParseTexts(q);
    ParseTexts(p);
  }

  lemma PlainPermutation(q: seq<Json>, p: seq<Json>)
    requires multiset(q) == multiset(p) && PlainRows(p) == p
    ensures PlainRows(q) == q
  {
    SameMultiset(q, p);
    forall i | 0 <= i < |q| ensures Plain(CANONICAL, q[i]) == q[i] {
      assert q[i] in p;
      var j :| 0 <= j < |p| && p[j] == q[i];
      assert PlainRows(p)[j] == p[j];
    }
  }

  // ---------- when the keys survive ----------

  predicate IsScalar(v: Json) { v.Null? || v.Bool? || v.Int? || v.Str? }

  /** The id that orders the row is a string, int, bool or null, or the row has no id column. */
  predicate ScalarId(row: Json)
    requires row.Obj?
  {
    FirstOf(row.fields, ID_COLUMNS).Some? ==> IsScalar(FirstOf(row.fields, ID_COLUMNS).value)
  }

  lemma {:induction false} LookupIn<T>(fields: seq<KV<T>>, key: string)
    requires DistinctKeys(fields)
    ensures forall v :: Lookup(fields, key) == Some(v) ==> KV(key, v) in fields
    ensures forall v :: KV(key, v) in fields ==> Lookup(fields, key) == Some(v)
  {
    if fields != [] {
      LookupIn(fields[1..], key);
      assert fields == [fields[0]] + fields[1..];
      forall v | KV(key, v) in fields ensures Lookup(fields, key) == Some(v) {
        if KV(key, v) != fields[0] {
          assert KV(key, v) in fields[1..];
          var j :| 0 <= j < |fields[1..]| && fields[1..][j] == KV(key, v);
          assert fields[j + 1].key == key;
        }
      }
    }
  }

  /** Sorting a dict changes no lookup. */
  lemma LookupSorted<T>(fields: seq<KV<T>>, key: string)
    requires DistinctKeys(fields)
    ensures Lookup(Sort(fields), key) == Lookup(fields, key)
  {
    var ps := Sort(fields);
    SortDistinct(fields);
    SortIsPermutation(fields);
    LookupIn(fields, key);
    LookupIn(ps, key);
    if Lookup(ps, key).Some? {
      assert KV(key, Lookup(ps, key).value) in fields;
    }
    if Lookup(fields, key).Some? {
      assert KV(key, Lookup(fields, key).value) in ps;
    }
  }

  /** A column of a row that was read back is the column of the row, read back. */
  lemma LookupPlain(st: Style, fields: seq<KV<Json>>, key: string)
    requires DistinctKeys(fields)
    ensures Plain(st, Obj(fields)).Obj?
    ensures var o := Lookup(fields, key);
      Lookup(Plain(st, Obj(fields)).fields, key) == if o.Some? then Some(Plain(st, o.value)) else None
  {
    var ps := PlainVals(st, fields);
    LookupSorted(ps, key);
    LookupIn(fields, key);
    LookupIn(ps, key);
    var o := Lookup(fields, key);
    if Lookup(ps, key).Some? {
      var v := Lookup(ps, key).value;
      var j :| 0 <= j < |ps| && ps[j] == KV(key, v);
      assert fields[j] == KV(key, fields[j].val);
      assert o == Some(fields[j].val);
    }
    if o.Some? {
      var j :| 0 <= j < |fields| && fields[j] == KV(key, o.value);
      assert ps[j] == KV(key, Plain(st, o.value));
      assert ps[j] in ps;
    }
  }

  lemma {:induction false} FirstOfPlain(fields: seq<KV<Json>>, cols: seq<string>)
    requires DistinctKeys(fields)
    ensures Plain(CANONICAL, Obj(fields)).Obj?
    ensures var o := FirstOf(fields, cols);
      FirstOf(Plain(CANONICAL, Obj(fields)).fields, cols) == if o.Some? then Some(Plain(CANONICAL, o.value)) else None
  {
    if cols != [] {
      LookupPlain(CANONICAL, fields, cols[0]);
      FirstOfPlain(fields, cols[1..]);
    }
  }

  lemma RowKeyPlain(show: Json -> string, row: Json)
    requires IsRow(row) && ScalarId(row)
    ensures Plain(CANONICAL, row).Obj? && RowKey(show, Plain(CANONICAL, row)) == RowKey(show, row)
  {
    FirstOfPlain(row.fields, ID_COLUMNS);
    PrintPlainIn(CANONICAL, ROW_KEY, row);
  }

  /** Scalar ids, or none: rendering the parsed slice reproduces the bytes. */
  lemma ScalarIdsReRender(show: Json -> string, rows: seq<Json>)
    requires AllRows(rows) && forall i :: 0 <= i < |rows| ==> ScalarId(rows[i])
    ensures var s := SortRows(show, rows);
      AllRows(PlainRows(s)) && SortRows(show, PlainRows(s)) == PlainRows(s)
      && RenderLines(PlainRows(s)) == RenderLines(s)
  {
    var s := SortRows(show, rows);
    SortRowsFacts(show, rows);
    SameMultiset(s, rows);
    PlainRowsFacts(s);
    forall i | 0 <= i < |s| ensures RowKey(show, PlainRows(s)[i]) == RowKey(show, s[i]) {
      assert s[i] in rows;
      RowKeyPlain(show, s[i]);
    }
    var ks, kp := Keyed(show, s), Keyed(show, PlainRows(s));
    forall i, j | 0 <= i < j < |kp| ensures StrLe(kp[i].key, kp[j].key) {
      assert StrLe(ks[i].key, ks[j].key);
    }
    SortRowsFixesSorted(show, PlainRows(s));
  }

  function OneId(id: Json): Json { Obj([KV("id", id)]) }

  /**
   Datetime or bytes ids break it: two rows whose ids `str()` orders one way and whose
   exported texts go the other way change places on the second export.
   */
  lemma OpaqueIdsReorder(show: Json -> string, e: Json, l: Json)
    requires e.Opaque? && l.Opaque?
    requires show(e) == e.shown && show(l) == l.shown
    requires show(Str(e.wire)) == e.wire && show(Str(l.wire)) == l.wire
    requires !StrLe(e.shown, l.shown) && !StrLe(l.wire, e.wire)
    ensures var s := SortRows(show, [OneId(e), OneId(l)]);
      AllRows(PlainRows(s)) && RenderLines(SortRows(show, PlainRows(s))) != RenderLines(s)
  {
    var rows := [OneId(e), OneId(l)];
    OneIdRow(e);
    OneIdRow(l);
    ReRenderIff(show, rows);
    TwoIdsSwap(show, e, l);
    TwoIdsFall(show, PlainRows([OneId(l), OneId(e)]), l.wire, e.wire);
  }

  /** Two rows whose ids come in falling order. */
  lemma TwoIdsFall(show: Json -> string, rows: seq<Json>, a: string, b: string)
    requires |rows| == 2 && rows[0] == OneId(Str(a)) && rows[1] == OneId(Str(b))
    requires show(Str(a)) == a && show(Str(b)) == b && !StrLe(a, b)
    ensures !Sorted(Keyed(show, rows))
  {
    OneIdKey(show, Str(a));
    OneIdKey(show, Str(b));
    var p := Keyed(show, rows);
    assert p[0].key == a && p[1].key == b;
  }

  lemma TwoIdsSwap(show: Json -> string, e: Json, l: Json)
    requires !StrLe(show(e), show(l))
    ensures SortRows(show, [OneId(e), OneId(l)]) == [OneId(l), OneId(e)]
  {
    var rows := [OneId(e), OneId(l)];
    OneIdKey(show, e);
    OneIdKey(show, l);
    var x, y := KV(show(e), rows[0]), KV(show(l), rows[1]);
    assert Keyed(show, rows) == [x, y];
    SortSwapsPair(x, y);
    assert Vals([y, x]) == [OneId(l), OneId(e)];
  }

  lemma OneIdRow(id: Json)
    requires id.Opaque?
    ensures IsRow(OneId(id))
    ensures Plain(CANONICAL, OneId(id)) == OneId(Str(id.wire))
  {
    var ps := PlainVals(CANONICAL, [KV("id", id)]);
    assert ps == [KV("id", Str(id.wire))];
    SortFixesSorted(ps);
  }

  /** Such a pair, as `str()` and base64 write them: the bytes 0x61 and 0xC3. */
  lemma BytesThatReorder()
    ensures !StrLe("b'a'", "b'\\xc3'") && !StrLe("ww==", "YQ==")
  {
    DifferAt("b'a'", "b'\\xc3'", 2);
    DifferAt("ww==", "YQ==", 0);
  }

  lemma OneIdKey(show: Json -> string, id: Json)
    ensures RowKey(show, OneId(id)) == show(id)
  {
    var fields := [KV("id", id)];
    assert Lookup(fields, "event_id").None? && Lookup(fields, "event_uuid").None?;
    assert Lookup(fields, "id") == Some(id);
    var c := ID_COLUMNS;
    assert FirstOf(fields, c) == FirstOf(fields, c[1..]) == FirstOf(fields, c[1..][1..]) == Some(id);
  }

  lemma {:induction false} DifferAt(a: string, b: string, i: nat)
    requires i < |a| && i < |b| && a[i] != b[i]
    requires forall k :: 0 <= k < i ==> a[k] == b[k]
    ensures StrLe(a, b) <==> a[i] < b[i]
  {
    if i > 0 { DifferAt(a[1..], b[1..], i - 1); }
  }

  // ---------- reader order and row counts ----------

  /** Rows that share a sort key are the same row. */
  ghost predicate KeysDecide(show: Json -> string, rows: seq<Json>)
    requires forall i :: 0 <= i < |rows| ==> rows[i].Obj?
  {
    KeyDetermined(Keyed(show, rows))
  }

  /** Whatever order the reader returns the rows in, the slice is the same. */
  lemma SortRowsOrderIndependent(show: Json -> string, xs: seq<Json>, ys: seq<Json>)
    requires AllRows(xs) && KeysDecide(show, xs) && multiset(xs) == multiset(ys)
    ensures AllRows(ys) && SortRows(show, xs) == SortRows(show, ys)
  {
    SameMultiset(xs, ys);
    forall i | 0 <= i < |ys| ensures IsRow(ys[i]) { assert ys[i] in xs; }
    var keyed := (row: Json) => if row.Obj? then KV(RowKey(show, row), row) else KV("", row);
    assert Keyed(show, xs) == Map(keyed, xs) && Keyed(show, ys) == Map(keyed, ys);
    MapPermutation(keyed, xs, ys);
    SortOrderIndependent(Keyed(show, xs), Keyed(show, ys));
  }

  function CountNewlines(s: string): nat {
    if s == [] then 0 else (if s[0] == '\n' then 1 else 0) + CountNewlines(s[1..])
  }

  lemma {:induction false} CountNewlinesLine(line: string, rest: string)
    requires NoControl(line)
    ensures CountNewlines(line + "\n" + rest) == 1 + CountNewlines(rest)
  {
    var s := line + "\n" + rest;
    if line == [] {
      assert s[1..] == rest;
    } else {
      assert s[1..] == line[1..] + "\n" + rest;
      CountNewlinesLine(line[1..], rest);
    }
  }

  /** `payload.count(b"\n")`, the manifest's row count, is the number of rows. */
  lemma {:induction false} NewlinesCountRows(rows: seq<Json>)
    ensures CountNewlines(RenderLines(rows)) == |rows|
  {
    if rows != [] {
      PrintNoControl(CANONICAL, rows[0]);
      CountNewlinesLine(Print(CANONICAL, rows[0]), RenderLines(rows[1..]));
      NewlinesCountRows(rows[1..]);
    }
  }
}
