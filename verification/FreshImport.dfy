/**
 The round trip through a destination: export, import into a store with empty tables, read the
 store in any order, export again.
 */
module FreshImport {
  import opened Wrappers
  import opened Sorting
  import opened Json
  import opened JsonRoundTrip
  import opened Jsonl
  import opened Export
  import opened ReaderOrder
  import opened Import
  import opened ImportSafety
  import opened ImportRuns
  import opened KeyedTables
  import opened ArchiveRoundTrip

  /** The tables of these schemas are empty. */
  ghost predicate Fresh(s: Store, schemas: seq<string>) {
    forall x :: x in schemas ==> Table(s, x) == map[]
  }

  /** A reader over the store: the values of each table and the auxiliary state, in whatever order. */
  ghost predicate ReadsStore(rel: Release, st: State, store: Store) {
    && ValidState(rel, st)
    && (forall x :: x in rel.schemas ==> ReadsTable(st.slices[x], Table(store, x)))
    && store.yaml == Some(st.bundleYaml)
    && store.license == Some(st.license)
    && store.charters.Some? && multiset(st.charters) == multiset(store.charters.value)
    && store.refs.Some? && multiset(Strs(st.vaultRefs)) == multiset(store.refs.value)
  }

  // ---------- what an import leaves in a fresh store ----------

  lemma {:induction false} OtherTablesStay(pk: Json -> string, s: Store, calls: seq<Call>, schema: string)
    requires forall i :: 0 <= i < |calls| ==> calls[i].WriteRows? ==> calls[i].schema != schema
    ensures Table(ApplyAll(pk, s, calls), schema) == Table(s, schema)
    decreases calls
  {
    if calls != [] {
      assert Table(Apply(pk, s, calls[0]), schema) == Table(s, schema);
      OtherTablesStay(pk, Apply(pk, s, calls[0]), calls[1..], schema);
    }
  }

  /** One write for a schema among others: its table is that write's. */
  lemma {:induction false} TableOfWrite(pk: Json -> string, s: Store, calls: seq<Call>, i: nat)
    requires i < |calls| && calls[i].WriteRows?
    requires forall j :: 0 <= j < |calls| && j != i && calls[j].WriteRows? ==> calls[j].schema != calls[i].schema
    ensures Table(ApplyAll(pk, s, calls), calls[i].schema) == Upsert(pk, Table(s, calls[i].schema), calls[i].rows)
    decreases calls
  {
    if i == 0 {
      forall j | 0 <= j < |calls[1..]| && calls[1..][j].WriteRows? ensures calls[1..][j].schema != calls[0].schema {
        assert calls[1..][j] == calls[j + 1];
      }
      OtherTablesStay(pk, Apply(pk, s, calls[0]), calls[1..], calls[0].schema);
    } else {
      assert calls[i] == calls[1..][i - 1];
      forall j | 0 <= j < |calls[1..]| && j != i - 1 && calls[1..][j].WriteRows?
        ensures calls[1..][j].schema != calls[1..][i - 1].schema
      {
        assert calls[1..][j] == calls[j + 1];
      }
      TableOfWrite(pk, Apply(pk, s, calls[0]), calls[1..], i - 1);
    }
  }

  lemma AuxLeaves(pk: Json -> string, s: Store, yaml: string, license: Json, charters: seq<KV<string>>, refs: seq<Json>)
    ensures var calls := [WriteYaml(yaml), WriteLicense(license), WriteCharters(charters), WriteRefs(refs)];
      ApplyAll(pk, s, calls + [Replay])
      == Store(s.tables, Some(yaml), Some(license), Some(charters), Some(refs))
  {
    var a, b, c, d := WriteYaml(yaml), WriteLicense(license), WriteCharters(charters), WriteRefs(refs);
    ApplyFour(pk, s, a, b, c, d);
    ApplyAllSnoc(pk, s, [a, b, c, d], Replay);
  }

  lemma ApplyFour(pk: Json -> string, s: Store, a: Call, b: Call, c: Call, d: Call)
    ensures ApplyAll(pk, s, [a, b, c, d]) == Apply(pk, Apply(pk, Apply(pk, Apply(pk, s, a), b), c), d)
  {
    assert [a, b, c] + [d] == [a, b, c, d] && [a, b] + [c] == [a, b, c] && [a] + [b] == [a, b] && [] + [a] == [a];
    ApplyAllSnoc(pk, s, [a, b, c], d);
    ApplyAllSnoc(pk, s, [a, b], c);
    ApplyAllSnoc(pk, s, [a], b);
    ApplyAllSnoc(pk, s, [], a);
    assert ApplyAll(pk, s, []) == s;
  }

  /** The store after the import of an exported state. */
  ghost predicate Imported(rel: Release, run: Run, st: State, pk: Json -> string, store: Store)
    requires ValidState(rel, st)
  {
    && (forall x :: x in rel.schemas ==> Table(store, x) == Upsert(pk, map[], ImportedRows(run, st, x)))
    && store.yaml == Some(st.bundleYaml)
    && store.license == Some(Plain(CANONICAL, st.license))
    && store.charters.Some? && multiset(store.charters.value) == multiset(st.charters)
    && store.refs == Some(Strs(SortStrings(st.vaultRefs)))
  }

  lemma SlicesLeave(rel: Release, run: Run, st: State, pk: Json -> string, s: Store, x: string)
    requires ValidRelease(rel) && ValidState(rel, st) && Fresh(s, rel.schemas) && x in rel.schemas
    ensures Table(ApplyAll(pk, s, SliceCalls(run, st, rel.schemas)), x) == Upsert(pk, map[], ImportedRows(run, st, x))
  {
    var i :| 0 <= i < |rel.schemas| && rel.schemas[i] == x;
    TableOfWrite(pk, s, SliceCalls(run, st, rel.schemas), i);
  }

  /** A run that imports an exported state completely, into empty tables. */
  lemma ImportLeaves(rel: Release, run: Run, st: State, host: Host, pk: Json -> string, s: Store)
    requires ValidRelease(rel) && ValidState(rel, st) && Matches(run, host) && Fresh(s, rel.schemas)
    ensures CleanRun(rel, host, ArchiveOf(rel, run, st)).1.Done?
    ensures Imported(rel, run, st, pk, ApplyAll(pk, s, CleanRun(rel, host, ArchiveOf(rel, run, st)).0))
  {
    ExportIsAccepted(rel, run, st, host, NeverRaises, 0);
    var slices := ApplyAll(pk, s, SliceCalls(run, st, rel.schemas));
    ApplyAllAppend(pk, s, SliceCalls(run, st, rel.schemas), AuxPlanned(rel, run, st) + [Replay]);
    AuxLeaves(pk, slices, st.bundleYaml, Plain(CANONICAL, st.license), Charters(ArchiveOf(rel, run, st)),
              Strs(SortStrings(st.vaultRefs)));
    ChartersRead(rel, run, st);
    forall x | x in rel.schemas
      ensures Table(slices, x) == Upsert(pk, map[], ImportedRows(run, st, x))
    {
      SlicesLeave(rel, run, st, pk, s, x);
    }
  }

  // ---------- reading it back ----------

  /** Every reader of the store exports the archive again. */
  ghost predicate ReExportsAlways(rel: Release, run: Run, st: State, store: Store)
    requires ValidState(rel, st)
  {
    forall st' :: ReadsStore(rel, st', store) && st'.integrity == st.integrity ==>
      ArchiveOf(rel, run, st') == ArchiveOf(rel, run, st)
  }

  /** What a slice must meet: distinct primary keys, and what re-sorting needs. */
  ghost predicate SliceSurvives(rel: Release, run: Run, st: State, pk: Json -> string, x: string)
    requires ValidState(rel, st) && x in rel.schemas
  {
    DistinctPks(pk, ImportedRows(run, st, x)) && RereadsSame(run.show, st.slices[x])
  }

  lemma ReaderReExports(rel: Release, run: Run, st: State, pk: Json -> string, store: Store, st': State)
    requires ValidRelease(rel) && ValidState(rel, st) && Imported(rel, run, st, pk, store)
    requires forall x :: x in rel.schemas ==> SliceSurvives(rel, run, st, pk, x)
    requires ReadsStore(rel, st', store) && st'.integrity == st.integrity
    ensures ArchiveOf(rel, run, st') == ArchiveOf(rel, run, st)
  {
    forall i | 0 <= i < |rel.schemas|
      ensures SchemaFiles(run, st', rel.schemas)[i] == SchemaFiles(run, st, rel.schemas)[i]
    {
      var x := rel.schemas[i];
      assert x in rel.schemas && SliceSurvives(rel, run, st, pk, x);
      SliceReadsBackIff(pk, run.show, st.slices[x]);
      assert ReadsTable(st'.slices[x], Table(store, x)) && AllRows(st'.slices[x]);
    }
    assert SchemaFiles(run, st', rel.schemas) == SchemaFiles(run, st, rel.schemas);
    RefsSame(st.vaultRefs, st'.vaultRefs);
    StagedSame(rel, run, st, st');
  }

  /** Some reader of the store. */
  lemma SomeReader(rel: Release, run: Run, st: State, pk: Json -> string, store: Store) returns (st': State)
    requires ValidRelease(rel) && ValidState(rel, st) && Imported(rel, run, st, pk, store)
    ensures ReadsStore(rel, st', store) && st'.integrity == st.integrity
  {
    var slices: map<string, seq<Json>> := map[];
    for i := 0 to |rel.schemas|
      invariant forall k :: 0 <= k < i ==> rel.schemas[k] in slices
      invariant forall k :: 0 <= k < i ==> TableRead(store, rel.schemas[k], slices[rel.schemas[k]])
    {
      var x := rel.schemas[i];
      assert x in rel.schemas;
      var rows := ReadOne(run, st, pk, store, x);
      slices := slices[x := rows];
    }
    st' := State(slices, st.bundleYaml, Plain(CANONICAL, st.license), st.charters, SortStrings(st.vaultRefs),
      st.integrity);
    PlainWellFormed(CANONICAL, st.license);
    forall x | x in rel.schemas ensures x in slices && TableRead(store, x, slices[x]) {
      var i :| 0 <= i < |rel.schemas| && rel.schemas[i] == x;
    }
  }

  ghost predicate TableRead(store: Store, x: string, rows: seq<Json>) {
    AllRows(rows) && ReadsTable(rows, Table(store, x))
  }

  lemma ReadOne(run: Run, st: State, pk: Json -> string, store: Store, x: string) returns (rows: seq<Json>)
    requires x in st.slices && AllRows(st.slices[x])
    requires Table(store, x) == Upsert(pk, map[], ImportedRows(run, st, x))
    ensures TableRead(store, x, rows)
  {
    var entries := SomeListing(Table(store, x));
    rows := Vals(entries);
    SortRowsFacts(run.show, st.slices[x]);
    PlainRowsFacts(SortRows(run.show, st.slices[x]));
    TableHoldsRows(pk, ImportedRows(run, st, x), rows);
  }

  /** A reader may return one table in any other way. */
  lemma AnotherReader(rel: Release, st: State, store: Store, x: string, ys: seq<Json>)
    requires ReadsStore(rel, st, store) && AllRows(ys) && ReadsTable(ys, Table(store, x))
    ensures ReadsStore(rel, st.(slices := st.slices[x := ys]), store)
  {}

  lemma ReadingReExports(rel: Release, run: Run, st: State, store: Store, st': State, x: string)
    requires ValidRelease(rel) && ValidState(rel, st) && ReExportsAlways(rel, run, st, store) && x in rel.schemas
    requires ReadsStore(rel, st', store) && st'.integrity == st.integrity
    ensures RenderLines(SortRows(run.show, st'.slices[x])) == RenderLines(SortRows(run.show, st.slices[x]))
  {
    SameArchiveSameSlice(rel, run, st, st', x);
  }

  /** If every reader re-exports the archive, each table gives its slice back. */
  lemma EverySliceSurvives(rel: Release, run: Run, st: State, pk: Json -> string, store: Store, x: string)
    requires ValidRelease(rel) && ValidState(rel, st) && Imported(rel, run, st, pk, store)
    requires ReExportsAlways(rel, run, st, store) && x in rel.schemas
    ensures SliceSurvives(rel, run, st, pk, x)
  {
    var st0 := SomeReader(rel, run, st, pk, store);
    var bytes := RenderLines(SortRows(run.show, st.slices[x]));
    forall ys | AllRows(ys) && ReadsTable(ys, Table(store, x)) ensures RenderLines(SortRows(run.show, ys)) == bytes {
      AnotherReader(rel, st0, store, x, ys);
      ReadingReExports(rel, run, st, store, st0.(slices := st0.slices[x := ys]), x);
    }
    SliceReadsBackIff(pk, run.show, st.slices[x]);
  }

  /**
   The promise of the importer, exactly: once an exported state was imported into empty tables,
   every reader of the destination re-exports the identical archive if and only if, in every
   slice, no two imported rows share a primary key, rows that share a sort key are the same
   line, and the sort keys of the imported rows do not decrease in the order of the file.
   */
  lemma FreshRoundTripIff(rel: Release, run: Run, st: State, pk: Json -> string, store: Store)
    requires ValidRelease(rel) && ValidState(rel, st) && Imported(rel, run, st, pk, store)
    ensures ReExportsAlways(rel, run, st, store) <==>
      forall x :: x in rel.schemas ==> SliceSurvives(rel, run, st, pk, x)
  {
    if forall x :: x in rel.schemas ==> SliceSurvives(rel, run, st, pk, x) {
      forall st' | ReadsStore(rel, st', store) && st'.integrity == st.integrity
        ensures ArchiveOf(rel, run, st') == ArchiveOf(rel, run, st)
      {
        ReaderReExports(rel, run, st, pk, store, st');
      }
    }
    if ReExportsAlways(rel, run, st, store) {
      forall x | x in rel.schemas ensures SliceSurvives(rel, run, st, pk, x) {
        EverySliceSurvives(rel, run, st, pk, store, x);
      }
    }
  }

  /** Importing an exported archive into a destination with empty tables. */
  method ImportExported(rel: Release, run: Run, st: State, host: Host, dest: Dest) returns (r: Result<Report>)
    requires ValidRelease(rel) && ValidState(rel, st) && Matches(run, host) && Fresh(dest.store, rel.schemas)
    modifies dest
    ensures r.Done? ==> Imported(rel, run, st, dest.pk, dest.store)
    ensures r.Done? ==>
      (ReExportsAlways(rel, run, st, dest.store) <==>
         forall x :: x in rel.schemas ==> SliceSurvives(rel, run, st, dest.pk, x))
  {
    ghost var kept;
    ImportLeaves(rel, run, st, host, dest.pk, dest.store);
    r, kept := ImportOnce(rel, host, ArchiveOf(rel, run, st), dest);
    if r.Done? { FreshRoundTripIff(rel, run, st, dest.pk, dest.store); }
  }

  /** Scalar ids, or none, that tell rows apart: then only the primary keys are left to ask for. */
  lemma StableKeysSurvive(rel: Release, run: Run, st: State, pk: Json -> string, x: string)
    requires ValidState(rel, st) && StableKeys(rel, run, st) && x in rel.schemas
    ensures SliceSurvives(rel, run, st, pk, x) <==> DistinctPks(pk, ImportedRows(run, st, x))
  {
    var rows := st.slices[x];
    SortRowsFacts(run.show, rows);
    ScalarIdsReRender(run.show, rows);
    ReRenderIff(run.show, rows);
    KeysDecidePlain(run.show, rows);
    EqualRowsEqualTexts(run.show, PlainRows(SortRows(run.show, rows)));
  }

  lemma EqualRowsEqualTexts(show: Json -> string, rows: seq<Json>)
    requires AllRows(rows) && KeysDecide(show, rows)
    ensures TextsDecide(show, rows)
  {
    var texts := KeyTexts(show, rows);
    forall i, j | 0 <= i < |texts| && 0 <= j < |texts| && texts[i].key == texts[j].key ensures texts[i] == texts[j] {
      assert Keyed(show, rows)[i] == Keyed(show, rows)[j];
    }
  }

  /**
   A replay that reports a break is an error, and yet the store holds every row of every slice
   and the whole auxiliary state.
   */
  lemma BrokenReplayLeavesRows(rel: Release, run: Run, st: State, host: Host, pk: Json -> string, s: Store)
    requires ValidRelease(rel) && ValidState(rel, st) && Matches(run, host) && Fresh(s, rel.schemas)
    ensures var run' := ImportRun(rel, host, ArchiveOf(rel, run, st), false, NeverRaises, 0, false);
      run'.1 == Failed(AuditChainBreak) && Imported(rel, run, st, pk, ApplyAll(pk, s, Kept(NeverRaises, 0, run'.0)))
  {
    ImportLeaves(rel, run, st, host, pk, s);
    BrokenReplayKeepsWrites(rel, host, ArchiveOf(rel, run, st), NeverRaises, 0);
  }
}
