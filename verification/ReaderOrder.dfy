/**
 What the order in which a reader returns its rows can do to a slice.  Rows that share a sort
 key keep the reader's order, so they show it unless their texts are equal.
 */
module ReaderOrder {
  import opened Wrappers
  import opened Sorting
  import opened Json
  import opened JsonRoundTrip
  import opened Jsonl
  import opened Export

  // ---------- sorting is stable ----------

  lemma {:induction false} NamedInsert<T>(x: KV<T>, xs: seq<KV<T>>, name: string)
    ensures Named(Insert(x, xs), name) == Named([x] + xs, name)
  {
    if xs != [] && !StrLe(x.key, xs[0].key) {
      NamedInsert(x, xs[1..], name);
      StrLeRefl(x.key);
      NamedCons(x, xs, name);
      NamedCons(x, xs[1..], name);
      NamedCons(xs[0], Insert(x, xs[1..]), name);
    }
  }

  lemma NamedCons<T>(x: KV<T>, xs: seq<KV<T>>, name: string)
    ensures Named([x] + xs, name) == if x.key == name then [x] + Named(xs, name) else Named(xs, name)
  {
    assert ([x] + xs)[1..] == xs;
    assert [] + Named(xs, name) == Named(xs, name);
  }

  /** Entries of one key keep their order. */
  lemma {:induction false} SortKeepsNamed<T>(xs: seq<KV<T>>, name: string)
    ensures Named(Sort(xs), name) == Named(xs, name)
  {
    if xs != [] {
      SortKeepsNamed(xs[1..], name);
      NamedInsert(xs[0], Sort(xs[1..]), name);
      NamedCons(xs[0], Sort(xs[1..]), name);
    }
  }

  // ---------- keys and texts ----------

  /** The sort key of each row, with the line it is written as. */
  function KeyTexts(show: Json -> string, rows: seq<Json>): (r: seq<KV<string>>)
    requires forall i :: 0 <= i < |rows| ==> rows[i].Obj?
    ensures |r| == |rows|
    ensures forall i :: 0 <= i < |r| ==> r[i] == KV(RowKey(show, rows[i]), Print(CANONICAL, rows[i]))
  {
    seq(|rows|, i requires 0 <= i < |rows| => KV(RowKey(show, rows[i]), Print(CANONICAL, rows[i])))
  }

  /** Rows that share a sort key are written as the same line. */
  ghost predicate TextsDecide(show: Json -> string, rows: seq<Json>)
    requires forall i :: 0 <= i < |rows| ==> rows[i].Obj?
  {
    KeyDetermined(KeyTexts(show, rows))
  }

  lemma SortedKeyTexts(show: Json -> string, rows: seq<Json>)
    requires AllRows(rows)
    ensures AllRows(SortRows(show, rows))
    ensures KeyTexts(show, SortRows(show, rows)) == Sort(KeyTexts(show, rows))
  {
    SortRowsFacts(show, rows);
    var text := (row: Json) => Print(CANONICAL, row);
    var s := SortRows(show, rows);
    assert MapVal(text, Keyed(show, rows)) == KeyTexts(show, rows);
    assert MapVal(text, Keyed(show, s)) == KeyTexts(show, s);
    SortMapVal(text, Keyed(show, rows));
  }

  lemma PermutedRows(xs: seq<Json>, ys: seq<Json>)
    requires AllRows(xs) && multiset(xs) == multiset(ys)
    ensures AllRows(ys)
  {
    SameMultiset(xs, ys);
    forall i | 0 <= i < |ys| ensures IsRow(ys[i]) { assert ys[i] in xs; }
  }

  lemma PermutedKeyTexts(show: Json -> string, xs: seq<Json>, ys: seq<Json>)
    requires AllRows(xs) && AllRows(ys) && multiset(xs) == multiset(ys)
    ensures multiset(KeyTexts(show, xs)) == multiset(KeyTexts(show, ys))
    ensures multiset(Keyed(show, xs)) == multiset(Keyed(show, ys))
  {
    var texts := (row: Json) => if row.Obj? then KV(RowKey(show, row), Print(CANONICAL, row)) else KV("", "");
    assert KeyTexts(show, xs) == Map(texts, xs) && KeyTexts(show, ys) == Map(texts, ys);
    MapPermutation(texts, xs, ys);
    var keyed := (row: Json) => if row.Obj? then KV(RowKey(show, row), row) else KV("", row);
    assert Keyed(show, xs) == Map(keyed, xs) && Keyed(show, ys) == Map(keyed, ys);
    MapPermutation(keyed, xs, ys);
  }

  /** Whatever the order, the keys come out in the same order. */
  lemma SameSortedKeys(show: Json -> string, xs: seq<Json>, ys: seq<Json>)
    requires AllRows(xs) && AllRows(ys) && multiset(xs) == multiset(ys)
    ensures |Sort(KeyTexts(show, xs))| == |Sort(KeyTexts(show, ys))|
    ensures forall i :: 0 <= i < |Sort(KeyTexts(show, xs))| ==>
      Sort(KeyTexts(show, xs))[i].key == Sort(KeyTexts(show, ys))[i].key
  {
    var none := (text: string) => 0;
    var kx, ky := MapVal(none, KeyTexts(show, xs)), MapVal(none, KeyTexts(show, ys));
    PermutedKeyTexts(show, xs, ys);
    MapValPermutation(none, KeyTexts(show, xs), KeyTexts(show, ys));
    SortOrderIndependent(kx, ky);
    SortMapVal(none, KeyTexts(show, xs));
    SortMapVal(none, KeyTexts(show, ys));
    var sx, sy := Sort(KeyTexts(show, xs)), Sort(KeyTexts(show, ys));
    assert MapVal(none, sx) == MapVal(none, sy);
    assert |sx| == |MapVal(none, sx)| == |sy|;
    forall i | 0 <= i < |sx| ensures sx[i].key == sy[i].key {
      assert MapVal(none, sx)[i].key == MapVal(none, sy)[i].key;
    }
  }

  lemma MapValPermutation<T, U>(f: T -> U, xs: seq<KV<T>>, ys: seq<KV<T>>)
    requires multiset(xs) == multiset(ys)
    ensures multiset(MapVal(f, xs)) == multiset(MapVal(f, ys))
  {
    var g := (kv: KV<T>) => KV(kv.key, f(kv.val));
    assert MapVal(f, xs) == Map(g, xs) && MapVal(f, ys) == Map(g, ys);
    MapPermutation(g, xs, ys);
  }

  // ---------- the exact condition ----------

  lemma SameTextsSameKeyTexts(show: Json -> string, xs: seq<Json>, ys: seq<Json>)
    requires AllRows(xs) && AllRows(ys) && |xs| == |ys| && Texts(xs) == Texts(ys)
    requires forall i :: 0 <= i < |xs| ==> RowKey(show, xs[i]) == RowKey(show, ys[i])
    ensures KeyTexts(show, xs) == KeyTexts(show, ys)
  {
    forall i | 0 <= i < |xs| ensures KeyTexts(show, xs)[i] == KeyTexts(show, ys)[i] {
      assert Texts(xs)[i] == Texts(ys)[i];
    }
  }

  lemma SameKeyTextsSameTexts(show: Json -> string, xs: seq<Json>, ys: seq<Json>)
    requires AllRows(xs) && AllRows(ys) && KeyTexts(show, xs) == KeyTexts(show, ys)
    ensures Texts(xs) == Texts(ys)
  {
    assert |xs| == |KeyTexts(show, xs)| == |ys|;
    forall i | 0 <= i < |xs| ensures Texts(xs)[i] == Texts(ys)[i] {
      assert KeyTexts(show, xs)[i].val == KeyTexts(show, ys)[i].val;
    }
  }

  lemma SortedRowKeys(show: Json -> string, xs: seq<Json>, ys: seq<Json>)
    requires AllRows(xs) && AllRows(ys) && multiset(xs) == multiset(ys)
    ensures var sx, sy := SortRows(show, xs), SortRows(show, ys);
      && AllRows(sx) && AllRows(sy) && |sx| == |sy|
      && forall i :: 0 <= i < |sx| ==> RowKey(show, sx[i]) == RowKey(show, sy[i])
  {
    var sx, sy := SortRows(show, xs), SortRows(show, ys);
    SortedKeyTexts(show, xs);
    SortedKeyTexts(show, ys);
    SameSortedKeys(show, xs, ys);
    assert |sx| == |KeyTexts(show, sx)| && |sy| == |KeyTexts(show, sy)|;
    forall i | 0 <= i < |sx| ensures RowKey(show, sx[i]) == RowKey(show, sy[i]) {
      assert KeyTexts(show, sx)[i].key == KeyTexts(show, sy)[i].key;
    }
  }

  /** Two orders of the same rows give the same bytes exactly when they give the same keyed lines. */
  lemma SameBytesIff(show: Json -> string, xs: seq<Json>, ys: seq<Json>)
    requires AllRows(xs) && AllRows(ys) && multiset(xs) == multiset(ys)
    ensures RenderLines(SortRows(show, xs)) == RenderLines(SortRows(show, ys)) <==>
      Sort(KeyTexts(show, xs)) == Sort(KeyTexts(show, ys))
  {
    var sx, sy := SortRows(show, xs), SortRows(show, ys);
    SortedRowKeys(show, xs, ys);
    SortedKeyTexts(show, xs);
    SortedKeyTexts(show, ys);
    if RenderLines(sx) == RenderLines(sy) {
      SplitRendered(sx);
      SplitRendered(sy);
      SameTextsSameKeyTexts(show, sx, sy);
    }
    if KeyTexts(show, sx) == KeyTexts(show, sy) {
      SameKeyTextsSameTexts(show, sx, sy);
      RenderLinesOfTexts(sx, sy);
    }
  }

  /** The reader puts row i first. */
  function InFront(rows: seq<Json>, i: nat): seq<Json>
    requires i < |rows|
  {
    [rows[i]] + RemoveAt(rows, i)
  }

  lemma InFrontShows(show: Json -> string, rows: seq<Json>, i: nat)
    requires AllRows(rows) && i < |rows|
    ensures multiset(InFront(rows, i)) == multiset(rows) && AllRows(InFront(rows, i))
    ensures var named := Named(Sort(KeyTexts(show, InFront(rows, i))), RowKey(show, rows[i]));
      named != [] && named[0] == KeyTexts(show, rows)[i]
  {
    var ys := InFront(rows, i);
    RemoveAtMultiset(rows, i);
    assert rows[i] in multiset(rows);
    PermutedRows(rows, ys);
    SortKeepsNamed(KeyTexts(show, ys), RowKey(show, rows[i]));
  }

  /** Every order in which the reader may return these rows gives these bytes. */
  ghost predicate AnyOrderGives(show: Json -> string, rows: seq<Json>, bytes: string) {
    forall ys :: AllRows(ys) && multiset(ys) == multiset(rows) ==> RenderLines(SortRows(show, ys)) == bytes
  }

  /**
   Re-sorting makes a slice independent of the reader's order exactly when rows that share a
   sort key are written as the same line.
   */
  lemma ReaderOrderIff(show: Json -> string, rows: seq<Json>)
    requires AllRows(rows)
    ensures AnyOrderGives(show, rows, RenderLines(SortRows(show, rows))) <==> TextsDecide(show, rows)
  {
    var bytes := RenderLines(SortRows(show, rows));
    if TextsDecide(show, rows) {
      forall ys | AllRows(ys) && multiset(ys) == multiset(rows) ensures RenderLines(SortRows(show, ys)) == bytes {
        PermutedKeyTexts(show, rows, ys);
        SortOrderIndependent(KeyTexts(show, rows), KeyTexts(show, ys));
        SameBytesIff(show, rows, ys);
      }
    }
    if AnyOrderGives(show, rows, bytes) {
      var kts := KeyTexts(show, rows);
      forall i, j | 0 <= i < |kts| && 0 <= j < |kts| && kts[i].key == kts[j].key ensures kts[i] == kts[j] {
        InFrontShows(show, rows, i);
        InFrontShows(show, rows, j);
        SameBytesIff(show, InFront(rows, i), InFront(rows, j));
      }
    }
  }

  /**
   What a slice needs for its re-export to be identical: read back, rows that share a sort key
   are the same line, and the keys of the rows, in the order of the file, do not decrease.
   */
  ghost predicate RereadsSame(show: Json -> string, rows: seq<Json>)
    requires AllRows(rows)
  {
    AllRows(PlainRows(SortRows(show, rows))) &&
    Sorted(Keyed(show, PlainRows(SortRows(show, rows)))) && TextsDecide(show, PlainRows(SortRows(show, rows)))
  }

  lemma {:induction false} ReRenderAnyOrderIff(show: Json -> string, rows: seq<Json>)
    requires AllRows(rows)
    ensures AnyOrderGives(show, PlainRows(SortRows(show, rows)), RenderLines(SortRows(show, rows))) <==>
      RereadsSame(show, rows)
  {
    var p := PlainRows(SortRows(show, rows));
    ReRenderIff(show, rows);
    ReaderOrderIff(show, p);
    if AnyOrderGives(show, p, RenderLines(SortRows(show, rows))) {
      assert RenderLines(SortRows(show, p)) == RenderLines(SortRows(show, rows));
    }
  }

  /** Two rows with one sort key and different lines: the two orders of the reader give different bytes. */
  lemma TiedRowsReorder(show: Json -> string, x: Json, y: Json)
    requires IsRow(x) && IsRow(y) && RowKey(show, x) == RowKey(show, y)
    requires Print(CANONICAL, x) != Print(CANONICAL, y)
    ensures AllRows([x, y]) && AllRows([y, x])
    ensures RenderLines(SortRows(show, [x, y])) != RenderLines(SortRows(show, [y, x]))
  {
    var xs, ys := [x, y], [y, x];
    Swapped(x, y);
    SameBytesIff(show, xs, ys);
    FirstNamed(KeyTexts(show, xs));
    FirstNamed(KeyTexts(show, ys));
    SortKeepsNamed(KeyTexts(show, xs), RowKey(show, x));
    SortKeepsNamed(KeyTexts(show, ys), RowKey(show, x));
  }

  lemma Swapped<T>(x: T, y: T)
    ensures multiset([x, y]) == multiset([y, x])
  {}

  lemma FirstNamed<T>(xs: seq<KV<T>>)
    requires xs != []
    ensures Named(xs, xs[0].key) != [] && Named(xs, xs[0].key)[0] == xs[0]
  {}

  /** Such a pair: rows of two tables of one schema that share an id. */
  lemma SharedIdReorders(show: Json -> string, id: Json, s: string, t: string)
    requires IsScalar(id) && s != t
    ensures var x, y := Obj([KV("id", id), KV("name", Str(s))]), Obj([KV("id", id), KV("name", Str(t))]);
      && AllRows([x, y]) && AllRows([y, x])
      && RenderLines(SortRows(show, [x, y])) != RenderLines(SortRows(show, [y, x]))
  {
    var x, y := Obj([KV("id", id), KV("name", Str(s))]), Obj([KV("id", id), KV("name", Str(t))]);
    NamedRow(show, id, s);
    NamedRow(show, id, t);
    PrintInjective(CANONICAL, x, y);
    LookupPlain(CANONICAL, x.fields, "name");
    LookupPlain(CANONICAL, y.fields, "name");
    TiedRowsReorder(show, x, y);
  }

  lemma NamedRow(show: Json -> string, id: Json, s: string)
    requires IsScalar(id)
    ensures var x := Obj([KV("id", id), KV("name", Str(s))]);
      IsRow(x) && RowKey(show, x) == show(id) && Lookup(x.fields, "name") == Some(Str(s))
  {
    var fields := [KV("id", id), KV("name", Str(s))];
    LookupPair(fields, "event_id");
    LookupPair(fields, "event_uuid");
    LookupPair(fields, "id");
    LookupPair(fields, "name");
    var c := ID_COLUMNS;
    assert FirstOf(fields, c) == FirstOf(fields, c[1..]) == FirstOf(fields, c[1..][1..]) == Some(id);
  }

  lemma LookupPair<T>(fields: seq<KV<T>>, key: string)
    requires |fields| == 2
    ensures Lookup(fields, key) ==
      if fields[0].key == key then Some(fields[0].val)
      else if fields[1].key == key then Some(fields[1].val) else None
  {
    var tail := fields[1..];
    assert tail[0] == fields[1] && tail[1..] == [];
    assert Lookup(tail[1..], key).None?;
    assert Lookup(tail, key) == if fields[1].key == key then Some(fields[1].val) else None;
  }
}
