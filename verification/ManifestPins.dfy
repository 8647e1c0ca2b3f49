/** What the manifest of an exported archive says about every member of it, as the importer reads it. */
module ManifestPins {
  import opened Wrappers
  import opened Sorting
  import opened Json
  import opened JsonRoundTrip
  import opened Jsonl
  import opened Export
  import opened Import
  import opened ArchiveRoundTrip

  /** The fields the importer reads from the archive's manifest. */
  ghost predicate ManifestReads(archive: Archive, fields: seq<KV<Json>>) {
    exists text :: GetMember(archive, "MANIFEST.json") == Some(text) && Loads(text) == Ok(Obj(fields), "")
  }

  function FieldsOf(rel: Release, run: Run, st: State): seq<KV<Json>>
    requires SlicesReady(st, rel.schemas)
  {
    var m := Plain(CANONICAL, ManifestOf(rel, run, Staged(rel, run, st)));
    if m.Obj? then m.fields else []
  }

  lemma ArchiveManifest(rel: Release, run: Run, st: State)
    requires ValidRelease(rel) && ValidState(rel, st)
    ensures Plain(CANONICAL, ManifestOf(rel, run, Staged(rel, run, st))) == Obj(FieldsOf(rel, run, st))
    ensures ManifestReads(ArchiveOf(rel, run, st), FieldsOf(rel, run, st))
  {
    var staged := Staged(rel, run, st);
    var m := ManifestOf(rel, run, staged);
    ManifestWellFormed(rel, run, ByRegistry(rel.schemas, SliceEntries(staged)), Sort(AuxEntries(run.sha, staged)));
    ArchiveHeads(rel, run, st);
    LoadsPrint(CANONICAL, m);
    assert GetMember(ArchiveOf(rel, run, st), "MANIFEST.json") == Some(Print(CANONICAL, m));
  }

  // ---------- files that are no slice ----------

  lemma {:induction false} AuxEntriesAre(sha: string -> string, staged: seq<KV<string>>, e: KV<string>)
    ensures e in AuxEntries(sha, staged) <==>
      exists f :: f in staged && !IsSchemaPath(f.key) && e == KV(f.key, sha(f.val))
  {
    if staged != [] {
      var n := |staged| - 1;
      AuxEntriesAre(sha, staged[..n], e);
      assert staged == staged[..n] + [staged[n]];
      if f :| f in staged && !IsSchemaPath(f.key) && e == KV(f.key, sha(f.val)) {
        assert f in staged[..n] || f == staged[n];
      }
      if f :| f in staged[..n] && !IsSchemaPath(f.key) && e == KV(f.key, sha(f.val)) { assert f in staged; }
    }
  }

  lemma PlainPairs(es: seq<KV<string>>)
    ensures Plain(CANONICAL, Arr(AuxJsons(es))) == Arr(AuxJsons(es))
  {
    var items := AuxJsons(es);
    forall i | 0 <= i < |items| ensures PlainItems(CANONICAL, items)[i] == items[i] {
      var pair := [Str(es[i].key), Str(es[i].val)];
      assert PlainItems(CANONICAL, pair) == pair;
    }
    assert PlainItems(CANONICAL, items) == items;
  }

  /** The listed auxiliary files: path and hash of every staged file that is no slice, by path. */
  lemma AuxField(rel: Release, run: Run, st: State)
    requires ValidRelease(rel) && ValidState(rel, st)
    ensures Field(FieldsOf(rel, run, st), "auxiliary_files", Arr([]))
      == Arr(AuxJsons(Sort(AuxEntries(run.sha, Staged(rel, run, st)))))
  {
    var staged := Staged(rel, run, st);
    var es := Sort(AuxEntries(run.sha, staged));
    ArchiveManifest(rel, run, st);
    PlainPairs(es);
    ManifestField(rel, run, staged, "auxiliary_files", Arr(AuxJsons(es)), Arr([]));
  }

  // ---------- slices ----------

  lemma SlicesField(rel: Release, run: Run, st: State)
    requires ValidRelease(rel) && ValidState(rel, st)
    ensures Field(FieldsOf(rel, run, st), "schemas", Arr([]))
      == Arr(PlainItems(CANONICAL, SliceJsons(run.sha, SliceContents(run, st, rel.schemas))))
  {
    ManifestSlices(rel, run, st);
    ArchiveManifest(rel, run, st);
    ManifestSlicesField(rel, run, Staged(rel, run, st), SliceContents(run, st, rel.schemas));
  }

  /** The entry says whose slice it is, its hash, its size and its rows. */
  ghost predicate SliceEntry(sha: string -> string, v: Json, schema: string, content: string, rows: nat) {
    && v.Obj?
    && Lookup(v.fields, "schema") == Some(Str(schema))
    && Lookup(v.fields, "content_sha256") == Some(Str(sha(content)))
    && Lookup(v.fields, "bytes_size") == Some(Int(|content|))
    && Lookup(v.fields, "row_count") == Some(Int(rows))
  }

  lemma SliceEntryReads(sha: string -> string, schema: string, content: string)
    ensures var v := Plain(CANONICAL, SliceJson(sha, KV(schema, content)));
      SliceEntry(sha, v, schema, content, CountNewlines(content))
  {
    var fs := SliceJson(sha, KV(schema, content)).fields;
    assert DistinctKeys(fs);
    forall i | 0 <= i < 4 ensures Lookup(fs, fs[i].key) == Some(fs[i].val) {
      LookupIn(fs, fs[i].key);
      assert fs[i] in fs;
    }
    assert fs[0].key == "schema" && fs[1].key == "row_count";
    assert fs[2].key == "content_sha256" && fs[3].key == "bytes_size";
    LookupPlain(CANONICAL, fs, "schema");
    LookupPlain(CANONICAL, fs, "row_count");
    LookupPlain(CANONICAL, fs, "content_sha256");
    LookupPlain(CANONICAL, fs, "bytes_size");
  }

  // ---------- every member ----------

  /** The member is the slice of the i-th schema, and the manifest's i-th entry is about it. */
  ghost predicate ListedSlice(rel: Release, run: Run, st: State, m: KV<string>, i: int)
    requires ValidState(rel, st)
  {
    && 0 <= i < |rel.schemas| && m.key == "schemas/" + rel.schemas[i] + ".jsonl"
    && var v := Field(FieldsOf(rel, run, st), "schemas", Arr([]));
      && v.Arr? && |v.items| == |rel.schemas|
      && rel.schemas[i] in rel.schemas
      && SliceEntry(run.sha, v.items[i], rel.schemas[i], m.val, |st.slices[rel.schemas[i]]|)
  }

  /** The manifest lists path and hash of the member among the other files. */
  ghost predicate ListedAux(rel: Release, run: Run, st: State, m: KV<string>)
    requires ValidState(rel, st)
  {
    var v := Field(FieldsOf(rel, run, st), "auxiliary_files", Arr([]));
    v.Arr? && Arr([Str(m.key), Str(run.sha(m.val))]) in v.items
  }

  lemma SliceIsListed(rel: Release, run: Run, st: State, i: nat)
    requires ValidRelease(rel) && ValidState(rel, st) && i < |rel.schemas|
    ensures ListedSlice(rel, run, st, SchemaFiles(run, st, rel.schemas)[i], i)
  {
    var x := rel.schemas[i];
    assert x in rel.schemas;
    var e := SliceContents(run, st, rel.schemas)[i];
    SlicesField(rel, run, st);
    SliceEntryReads(run.sha, x, e.val);
    NewlinesCountRows(SortRows(run.show, st.slices[x]));
    SortRowsFacts(run.show, st.slices[x]);
    SameMultiset(SortRows(run.show, st.slices[x]), st.slices[x]);
  }

  lemma AuxIsListed(rel: Release, run: Run, st: State, m: KV<string>)
    requires ValidRelease(rel) && ValidState(rel, st) && m in Staged(rel, run, st) && !IsSchemaPath(m.key)
    ensures ListedAux(rel, run, st, m)
  {
    var es := AuxEntries(run.sha, Staged(rel, run, st));
    var e := KV(m.key, run.sha(m.val));
    AuxField(rel, run, st);
    AuxEntriesAre(run.sha, Staged(rel, run, st), e);
    SortIsPermutation(es);
    SameMultiset(Sort(es), es);
    var i :| 0 <= i < |Sort(es)| && Sort(es)[i] == e;
    assert AuxJsons(Sort(es))[i] == Arr([Str(m.key), Str(run.sha(m.val))]);
  }

  lemma StagedKinds(rel: Release, run: Run, st: State, m: KV<string>)
    requires ValidRelease(rel) && ValidState(rel, st) && m in Staged(rel, run, st)
    ensures m in SchemaFiles(run, st, rel.schemas) || !IsSchemaPath(m.key)
  {
    SortDistinct(st.charters);
    CharterFilesKeys(Sort(st.charters));
    BundleFilesKeys(st);
    TailFilesKeys(st);
    SchemaPathStart(m.key);
    if m !in SchemaFiles(run, st, rel.schemas) {
      assert m in BundleFiles(st) || m in CharterFiles(Sort(st.charters)) || m in TailFiles(st);
    }
  }

  /**
   Every member behind manifest and signature is recorded in the manifest with the hash of its
   content: a slice in its schema's entry, with its size and number of rows, any other file
   under its path.
   */
  lemma ManifestCovers(rel: Release, run: Run, st: State, k: nat)
    requires ValidRelease(rel) && ValidState(rel, st) && 2 <= k < |ArchiveOf(rel, run, st)|
    ensures ManifestReads(ArchiveOf(rel, run, st), FieldsOf(rel, run, st))
    ensures var m := ArchiveOf(rel, run, st)[k];
      ListedAux(rel, run, st, m) || exists i :: ListedSlice(rel, run, st, m, i)
  {
    var staged := Staged(rel, run, st);
    ArchiveManifest(rel, run, st);
    SortIsPermutation(staged);
    SameMultiset(Sort(staged), staged);
    var m := Sort(staged)[k - 2];
    assert ArchiveOf(rel, run, st)[k] == m && m in staged;
    StagedKinds(rel, run, st, m);
    if m in SchemaFiles(run, st, rel.schemas) {
      var i :| 0 <= i < |rel.schemas| && SchemaFiles(run, st, rel.schemas)[i] == m;
      SliceIsListed(rel, run, st, i);
    } else {
      AuxIsListed(rel, run, st, m);
    }
  }

  /** And nothing else is listed among the other files. */
  lemma OnlyMembersListed(rel: Release, run: Run, st: State, v: Json)
    requires ValidRelease(rel) && ValidState(rel, st)
    requires var aux := Field(FieldsOf(rel, run, st), "auxiliary_files", Arr([])); aux.Arr? && v in aux.items
    ensures exists path, content ::
      GetMember(ArchiveOf(rel, run, st), path) == Some(content) && v == Arr([Str(path), Str(run.sha(content))])
  {
    var es := AuxEntries(run.sha, Staged(rel, run, st));
    AuxField(rel, run, st);
    var i :| 0 <= i < |Sort(es)| && AuxJsons(Sort(es))[i] == v;
    SortIsPermutation(es);
    SameMultiset(Sort(es), es);
    assert Sort(es)[i] in es;
    AuxEntriesAre(run.sha, Staged(rel, run, st), Sort(es)[i]);
    var f :| f in Staged(rel, run, st) && !IsSchemaPath(f.key) && Sort(es)[i] == KV(f.key, run.sha(f.val));
    StagedMember(rel, run, st, f);
  }

  /** The rest of the manifest is its version, the current release and what the run was given. */
  lemma ManifestSays(rel: Release, run: Run, st: State, key: string, v: Json, default: Json)
    requires ValidRelease(rel) && ValidState(rel, st)
    requires KV(key, v) in [
      KV("manifest_version", Int(1)), KV("spine_version", Str(rel.current)),
      KV("bundle_id", Str(run.bundleId)), KV("generated_at", Str(run.generatedAt)),
      KV("subsystem_versions", rel.subsystems), KV("signing_key_fingerprint", Str(run.fingerprint)),
      KV("source_hub_id", if run.sourceHub.Some? then Str(run.sourceHub.value) else Null), KV("notes", Str(run.notes))]
    ensures Field(FieldsOf(rel, run, st), key, default) == Plain(CANONICAL, v)
  {
    var fs := ManifestOf(rel, run, Staged(rel, run, st)).fields;
    assert fs[0] in fs && fs[1] in fs && fs[2] in fs && fs[3] in fs;
    assert fs[6] in fs && fs[7] in fs && fs[8] in fs && fs[9] in fs;
    ArchiveManifest(rel, run, st);
    ManifestField(rel, run, Staged(rel, run, st), key, v, default);
  }

  /** The integrity report is in the archive as it was read. */
  lemma IntegrityIsThere(rel: Release, run: Run, st: State)
    requires ValidRelease(rel) && ValidState(rel, st)
    ensures GetMember(ArchiveOf(rel, run, st), "audit_chain_integrity.json") == Some(Print(CANONICAL, st.integrity))
  {
    assert TailFiles(st)[1] in TailFiles(st);
    StagedMember(rel, run, st, TailFiles(st)[1]);
  }

  /** Bundle, license and charters are in the archive under their names, as they were read. */
  lemma FilesAreThere(rel: Release, run: Run, st: State, charter: KV<string>)
    requires ValidRelease(rel) && ValidState(rel, st)
    ensures GetMember(ArchiveOf(rel, run, st), "bundle/org.yaml") == Some(st.bundleYaml)
    ensures GetMember(ArchiveOf(rel, run, st), "bundle/license.json") == Some(Print(CANONICAL, st.license))
    ensures charter in st.charters ==>
      GetMember(ArchiveOf(rel, run, st), "charters/" + charter.key + ".md") == Some(charter.val)
  {
    AuxMembers(rel, run, st);
    if charter in st.charters {
      var cs := Sort(st.charters);
      SortIsPermutation(st.charters);
      SameMultiset(cs, st.charters);
      var i :| 0 <= i < |cs| && cs[i] == charter;
      assert CharterFiles(cs)[i] in CharterFiles(cs);
      assert CharterFiles(cs)[i] == KV("charters/" + charter.key + ".md", charter.val);
      StagedMember(rel, run, st, CharterFiles(cs)[i]);
    }
  }

  /** The vault paths are in the archive, in the order of RefsSorted. */
  lemma RefsAreThere(rel: Release, run: Run, st: State)
    requires ValidRelease(rel) && ValidState(rel, st)
    ensures GetMember(ArchiveOf(rel, run, st), "vault_refs.json") == Some(Print(CANONICAL, RefsJson(st.vaultRefs)))
    ensures RefsReadAs(Print(CANONICAL, RefsJson(st.vaultRefs)), SortStrings(st.vaultRefs))
  {
    AuxMembers(rel, run, st);
    RefsRead(st.vaultRefs);
  }

  ghost predicate RefsReadAs(text: string, refs: seq<string>) {
    Loads(text).Ok? && Loads(text).val.Obj? && Field(Loads(text).val.fields, "paths", Arr([])) == Arr(Strs(refs))
  }

  /** Each path as often as it was read, in order. */
  lemma RefsSorted(refs: seq<string>)
    ensures var r := SortStrings(refs);
      multiset(r) == multiset(refs) && forall i, j :: 0 <= i < j < |r| ==> StrLe(r[i], r[j])
  {
    var kvs := seq(|refs|, i requires 0 <= i < |refs| => KV(refs[i], refs[i]));
    RefsCount(refs);
    SortSorts(kvs);
    SortIsPermutation(kvs);
    SameMultiset(Sort(kvs), kvs);
    forall i | 0 <= i < |kvs| ensures Sort(kvs)[i].val == Sort(kvs)[i].key {
      assert Sort(kvs)[i] in kvs;
    }
  }

  /** Manifest first, its signature second, then every other member by path. */
  lemma ArchiveOrder(rel: Release, run: Run, st: State)
    requires ValidRelease(rel) && ValidState(rel, st)
    ensures var archive := ArchiveOf(rel, run, st);
      && |archive| >= 2
      && archive[0].key == "MANIFEST.json"
      && archive[1] == KV("MANIFEST.sig", run.sign(archive[0].val) + "\n")
      && Sorted(archive[2..])
  {
    SortSorts(Staged(rel, run, st));
    assert ArchiveOf(rel, run, st)[2..] == Sort(Staged(rel, run, st));
  }
}
