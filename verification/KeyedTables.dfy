/**
 Rows that went through a table keyed by primary key, and what a reader of the table can
 give back: its values, each once, in any order.
 */
module KeyedTables {
  import opened Wrappers
  import opened Sorting
  import opened Json
  import opened JsonRoundTrip
  import opened Jsonl
  import opened ReaderOrder
  import opened Import
  import opened ImportSafety

  /** Each row under its primary key. */
  function Entries(pk: Json -> string, rows: seq<Json>): (r: seq<KV<Json>>)
    ensures |r| == |rows|
    ensures forall i :: 0 <= i < |r| ==> r[i] == KV(pk(rows[i]), rows[i])
  {
    seq(|rows|, i requires 0 <= i < |rows| => KV(pk(rows[i]), rows[i]))
  }

  /** No two rows share a primary key, not even equal ones. */
  ghost predicate DistinctPks(pk: Json -> string, rows: seq<Json>) { DistinctKeys(Entries(pk, rows)) }

  /** The entries of the table, each once. */
  ghost predicate EntriesOf(entries: seq<KV<Json>>, t: map<string, Json>) {
    && DistinctKeys(entries)
    && (forall i :: 0 <= i < |entries| ==> entries[i].key in t && t[entries[i].key] == entries[i].val)
    && (forall k :: k in t ==> KV(k, t[k]) in entries)
  }

  /** The rows are the table's values, in some order. */
  ghost predicate ReadsTable(rows: seq<Json>, t: map<string, Json>) {
    exists entries :: EntriesOf(entries, t) && Vals(entries) == rows
  }

  // ---------- listings ----------

  /** A table can be read. */
  lemma {:induction false} SomeListing(t: map<string, Json>) returns (entries: seq<KV<Json>>)
    ensures EntriesOf(entries, t)
    decreases |t|
  {
    if t == map[] {
      entries := [];
    } else {
      var k :| k in t;
      var rest := t - {k};
      assert |rest| < |t| by { assert rest.Keys == t.Keys - {k} && |rest.Keys| < |t.Keys|; }
      var init := SomeListing(rest);
      entries := init + [KV(k, t[k])];
      forall j | j in t ensures KV(j, t[j]) in entries {
        if j != k { assert KV(j, rest[j]) in init; }
      }
    }
  }

  /** Each entry of a listing occurs once, and those are the entries of the other. */
  lemma SameEntries(xs: seq<KV<Json>>, ys: seq<KV<Json>>, t: map<string, Json>)
    requires EntriesOf(xs, t) && EntriesOf(ys, t)
    ensures multiset(xs) == multiset(ys)
  {
    forall e ensures multiset(xs)[e] == multiset(ys)[e] {
      OccursOnce(xs, e);
      OccursOnce(ys, e);
      if e in xs { assert e.key in t && e == KV(e.key, t[e.key]) && e in ys; }
      if e in ys { assert e.key in t && e == KV(e.key, t[e.key]) && e in xs; }
    }
  }

  lemma {:induction false} OccursOnce<T>(xs: seq<KV<T>>, e: KV<T>)
    requires DistinctKeys(xs)
    ensures multiset(xs)[e] == if e in xs then 1 else 0
  {
    if xs != [] {
      TailMultiset(xs);
      assert DistinctKeys(xs[1..]);
      OccursOnce(xs[1..], e);
      assert xs == [xs[0]] + xs[1..];
    }
  }

  lemma ListingPermutes(xs: seq<KV<Json>>, ys: seq<KV<Json>>, t: map<string, Json>)
    requires EntriesOf(xs, t) && multiset(xs) == multiset(ys)
    ensures EntriesOf(ys, t)
  {
    DistinctPermutes(xs, ys);
    SameMultiset(xs, ys);
    forall i | 0 <= i < |ys| ensures ys[i].key in t && t[ys[i].key] == ys[i].val { assert ys[i] in xs; }
  }

  // ---------- a table made of rows ----------

  /** Rows with distinct keys are a reading of the table they make. */
  lemma RowsAreListed(pk: Json -> string, rows: seq<Json>)
    requires DistinctPks(pk, rows)
    ensures EntriesOf(Entries(pk, rows), Upsert(pk, map[], rows))
  {
    var es, t := Entries(pk, rows), Upsert(pk, map[], rows);
    forall i | 0 <= i < |es| ensures es[i].key in t && t[es[i].key] == es[i].val {
      UpsertLastWins(pk, map[], rows, es[i].key);
      var k :| LastWithKey(pk, rows, es[i].key, k) && t[es[i].key] == rows[k];
      assert es[k].key == es[i].key;
    }
    forall k | k in t ensures KV(k, t[k]) in es {
      UpsertLastWins(pk, map[], rows, k);
      var i :| LastWithKey(pk, rows, k, i) && t[k] == rows[i];
      assert es[i] == KV(k, t[k]);
    }
  }

  /** A reading of that table is the rows, in another order. */
  lemma ReadingPermutes(pk: Json -> string, rows: seq<Json>, ys: seq<Json>)
    requires DistinctPks(pk, rows) && ReadsTable(ys, Upsert(pk, map[], rows))
    ensures multiset(ys) == multiset(rows)
  {
    var t := Upsert(pk, map[], rows);
    var es: seq<KV<Json>> :| EntriesOf(es, t) && Vals(es) == ys;
    RowsAreListed(pk, rows);
    SameVals(es, Entries(pk, rows), t);
    assert Vals(Entries(pk, rows)) == rows;
  }

  lemma SameVals(xs: seq<KV<Json>>, ys: seq<KV<Json>>, t: map<string, Json>)
    requires EntriesOf(xs, t) && EntriesOf(ys, t)
    ensures multiset(Vals(xs)) == multiset(Vals(ys))
  {
    SameEntries(xs, ys, t);
    var val := (e: KV<Json>) => e.val;
    MapPermutation(val, xs, ys);
    assert Map(val, xs) == Vals(xs) && Map(val, ys) == Vals(ys);
  }

  /** Every order of the rows is a reading of it. */
  lemma PermutationReads(pk: Json -> string, rows: seq<Json>, ys: seq<Json>)
    requires DistinctPks(pk, rows) && multiset(ys) == multiset(rows)
    ensures ReadsTable(ys, Upsert(pk, map[], rows))
  {
    RowsAreListed(pk, rows);
    var keyed := (row: Json) => KV(pk(row), row);
    MapPermutation(keyed, ys, rows);
    assert Map(keyed, ys) == Entries(pk, ys) && Map(keyed, rows) == Entries(pk, rows);
    ListingPermutes(Entries(pk, rows), Entries(pk, ys), Upsert(pk, map[], rows));
    assert Vals(Entries(pk, ys)) == ys;
  }

  predicate HasKey<T(==)>(xs: seq<KV<T>>, key: string) { exists i :: 0 <= i < |xs| && xs[i].key == key }

  lemma KeyRemains<T>(xs: seq<KV<T>>, j: nat, m: nat)
    requires j < |xs| && m < |xs| && m != j
    ensures HasKey(RemoveAt(xs, j), xs[m].key)
  {
    assert RemoveAt(xs, j)[if m < j then m else m - 1] == xs[m];
  }

  /** Entries with distinct keys among the keys of others are no more than those. */
  lemma {:induction false} KeysFit<T, U>(xs: seq<KV<T>>, ys: seq<KV<U>>)
    requires DistinctKeys(xs) && forall i :: 0 <= i < |xs| ==> HasKey(ys, xs[i].key)
    ensures |xs| <= |ys|
  {
    if xs != [] {
      var j :| 0 <= j < |ys| && ys[j].key == xs[0].key;
      forall i | 0 <= i < |xs[1..]| ensures HasKey(RemoveAt(ys, j), xs[1..][i].key) {
        assert xs[1..][i] == xs[i + 1];
        var m :| 0 <= m < |ys| && ys[m].key == xs[i + 1].key;
        KeyRemains(ys, j, m);
      }
      KeysFit(xs[1..], RemoveAt(ys, j));
    }
  }

  lemma TableKeyIsPk(pk: Json -> string, rows: seq<Json>, key: string)
    requires key in Upsert(pk, map[], rows)
    ensures HasKey(Entries(pk, rows), key)
  {
    UpsertLastWins(pk, map[], rows, key);
    var m :| LastWithKey(pk, rows, key, m);
    assert Entries(pk, rows)[m].key == key;
  }

  /** Two rows under one primary key: every reader of the table gets fewer rows than were written. */
  lemma SharedPkLosesRow(pk: Json -> string, rows: seq<Json>, ys: seq<Json>)
    requires !DistinctPks(pk, rows) && ReadsTable(ys, Upsert(pk, map[], rows))
    ensures |ys| < |rows|
  {
    var es: seq<KV<Json>> :| EntriesOf(es, Upsert(pk, map[], rows)) && Vals(es) == ys;
    var all := Entries(pk, rows);
    var i, j :| 0 <= i < j < |all| && all[i].key == all[j].key;
    forall n | 0 <= n < |es| ensures HasKey(all, es[n].key) { TableKeyIsPk(pk, rows, es[n].key); }
    SharedKeyFits(es, all, i, j);
  }

  lemma SharedKeyFits<T, U>(xs: seq<KV<T>>, ys: seq<KV<U>>, i: nat, j: nat)
    requires DistinctKeys(xs) && forall n :: 0 <= n < |xs| ==> HasKey(ys, xs[n].key)
    requires i < j < |ys| && ys[i].key == ys[j].key
    ensures |xs| < |ys|
  {
    forall n | 0 <= n < |xs| ensures HasKey(RemoveAt(ys, i), xs[n].key) {
      var m :| 0 <= m < |ys| && ys[m].key == xs[n].key;
      KeyRemains(ys, i, if m == i then j else m);
    }
    KeysFit(xs, RemoveAt(ys, i));
  }

  // ---------- a slice, through a table ----------

  /** Every reader of the table re-exports the slice as these bytes. */
  ghost predicate ReadsBackAs(show: Json -> string, t: map<string, Json>, bytes: string) {
    forall ys :: AllRows(ys) && ReadsTable(ys, t) ==> RenderLines(SortRows(show, ys)) == bytes
  }

  lemma TableHoldsRows(pk: Json -> string, rows: seq<Json>, ys: seq<Json>)
    requires AllRows(rows) && ReadsTable(ys, Upsert(pk, map[], rows))
    ensures AllRows(ys)
  {
    var t := Upsert(pk, map[], rows);
    var es: seq<KV<Json>> :| EntriesOf(es, t) && Vals(es) == ys;
    forall i | 0 <= i < |ys| ensures IsRow(ys[i]) {
      UpsertLastWins(pk, map[], rows, es[i].key);
      var k :| LastWithKey(pk, rows, es[i].key, k) && t[es[i].key] == rows[k];
      assert ys[i] == rows[k];
    }
  }

  /** As many rows as the bytes have lines. */
  lemma RowsOfBytes(show: Json -> string, xs: seq<Json>, ys: seq<Json>)
    requires AllRows(xs) && AllRows(ys) && RenderLines(SortRows(show, xs)) == RenderLines(SortRows(show, ys))
    ensures |xs| == |ys|
  {
    NewlinesCountRows(SortRows(show, xs));
    NewlinesCountRows(SortRows(show, ys));
    SortRowsFacts(show, xs);
    SortRowsFacts(show, ys);
    SameMultiset(SortRows(show, xs), xs);
    SameMultiset(SortRows(show, ys), ys);
  }

  /**
   A slice, imported into an empty keyed table and read back in any order, is re-exported
   identically exactly when no two imported rows share a primary key, rows that share a sort
   key are the same line, and the sort keys of the imported rows do not decrease.
   */
  lemma SliceReadsBackIff(pk: Json -> string, show: Json -> string, rows: seq<Json>)
    requires AllRows(rows)
    ensures var imported := PlainRows(SortRows(show, rows));
      ReadsBackAs(show, Upsert(pk, map[], imported), RenderLines(SortRows(show, rows))) <==>
        DistinctPks(pk, imported) && RereadsSame(show, rows)
  {
    var imported, bytes := PlainRows(SortRows(show, rows)), RenderLines(SortRows(show, rows));
    var t := Upsert(pk, map[], imported);
    SortRowsFacts(show, rows);
    PlainRowsFacts(SortRows(show, rows));
    ReRenderAnyOrderIff(show, rows);
    if DistinctPks(pk, imported) {
      TableGivesAnyOrder(pk, show, imported, bytes);
    } else {
      var es := SomeListing(t);
      SharedPkLosesRow(pk, imported, Vals(es));
      TableHoldsRows(pk, imported, Vals(es));
      if RenderLines(SortRows(show, Vals(es))) == bytes {
        RowsOfBytes(show, Vals(es), rows);
        SameMultiset(SortRows(show, rows), rows);
      }
    }
  }

  lemma TableGivesAnyOrder(pk: Json -> string, show: Json -> string, imported: seq<Json>, bytes: string)
    requires AllRows(imported) && DistinctPks(pk, imported)
    ensures ReadsBackAs(show, Upsert(pk, map[], imported), bytes) <==> AnyOrderGives(show, imported, bytes)
  {
    if ReadsBackAs(show, Upsert(pk, map[], imported), bytes) {
      forall ys | AllRows(ys) && multiset(ys) == multiset(imported) ensures RenderLines(SortRows(show, ys)) == bytes {
        PermutationReads(pk, imported, ys);
      }
    }
    if AnyOrderGives(show, imported, bytes) {
      forall ys | AllRows(ys) && ReadsTable(ys, Upsert(pk, map[], imported))
        ensures RenderLines(SortRows(show, ys)) == bytes
      {
        ReadingPermutes(pk, imported, ys);
      }
    }
  }
}
