/**
 Export, import, export again: an exported archive passes every check of the importer,
 and exporting what was imported gives the same members.
 */
module ArchiveRoundTrip {
  import opened Wrappers
  import opened Sorting
  import opened Json
  import opened JsonRoundTrip
  import opened Jsonl
  import opened Export
  import opened Import
  import opened ImportSafety
  import opened Versions

  /** The importing host trusts the exporting signer, hashes alike, and `str()` of a string is the string. */
  ghost predicate Matches(run: Run, host: Host) {
    && host.show == run.show
    && host.sha == run.sha
    && (forall s :: host.show(Str(s)) == s)
    && (forall text :: Trusts(run, host, text))
  }

  ghost predicate Trusts(run: Run, host: Host, text: string) {
    var d := host.decode(Strip(run.sign(text) + "\n"));
    d.Some? && host.verify(text, d.value, run.fingerprint)
  }

  // ---------- member names ----------

  lemma SchemaPathInjective(a: string, b: string)
    requires SchemaPath(a) == SchemaPath(b)
    ensures a == b
  {
    assert SchemaPath(a)[8..|SchemaPath(a)| - 6] == a;
    assert SchemaPath(b)[8..|SchemaPath(b)| - 6] == b;
  }

  lemma CharterPathInjective(a: string, b: string)
    requires CharterPath(a) == CharterPath(b)
    ensures a == b
  {
    assert CharterPath(a)[9..|CharterPath(a)| - 3] == a;
    assert CharterPath(b)[9..|CharterPath(b)| - 3] == b;
  }

  /** All keys of the entries start with c. */
  ghost predicate KeysStart<T>(xs: seq<KV<T>>, c: char) {
    forall i :: 0 <= i < |xs| ==> xs[i].key != [] && xs[i].key[0] == c
  }

  lemma SchemaFilesKeys(run: Run, st: State, schemas: seq<string>)
    requires SlicesReady(st, schemas) && DistinctStrings(schemas)
    ensures var fs := SchemaFiles(run, st, schemas); KeysStart(fs, 's') && DistinctKeys(fs)
  {
    var fs := SchemaFiles(run, st, schemas);
    forall i, j | 0 <= i < j < |fs| ensures fs[i].key != fs[j].key {
      if fs[i].key == fs[j].key { SchemaPathInjective(schemas[i], schemas[j]); }
    }
  }

  lemma CharterFilesKeys(cs: seq<KV<string>>)
    requires DistinctKeys(cs)
    ensures KeysStart(CharterFiles(cs), 'c') && DistinctKeys(CharterFiles(cs))
  {
    var fs := CharterFiles(cs);
    forall i, j | 0 <= i < j < |fs| ensures fs[i].key != fs[j].key {
      if fs[i].key == fs[j].key { CharterPathInjective(cs[i].key, cs[j].key); }
    }
  }

  lemma BundleFilesKeys(st: State)
    ensures KeysStart(BundleFiles(st), 'b') && DistinctKeys(BundleFiles(st))
  {
    assert "bundle/org.yaml"[7] != "bundle/license.json"[7];
  }

  lemma TailFilesKeys(st: State)
    ensures DistinctKeys(TailFiles(st)) && TailFiles(st)[0].key[0] == 'v' && TailFiles(st)[1].key[0] == 'a'
  {}

  lemma StagedDistinct(rel: Release, run: Run, st: State)
    requires ValidRelease(rel) && ValidState(rel, st)
    ensures DistinctKeys(Staged(rel, run, st))
    ensures var staged := Staged(rel, run, st);
      forall i :: 0 <= i < |staged| ==> staged[i].key != [] && staged[i].key[0] != 'M'
  {
    var a, b, c, d := SchemaFiles(run, st, rel.schemas), BundleFiles(st), CharterFiles(Sort(st.charters)),
      TailFiles(st);
    SchemaFilesKeys(run, st, rel.schemas);
    SortDistinct(st.charters);
    CharterFilesKeys(Sort(st.charters));
    BundleFilesKeys(st);
    TailFilesKeys(st);
    DistinctAppend(a, b);
    DistinctAppend(a + b, c);
    DistinctAppend(a + b + c, d);
  }

  lemma HeadsKeys(run: Run, text: string)
    ensures KeysStart(Heads(run, text), 'M') && DistinctKeys(Heads(run, text))
  {
    assert |Heads(run, text)[0].key| == 13 && |Heads(run, text)[1].key| == 12;
  }

  lemma HeadsDistinct(heads: seq<KV<string>>, staged: seq<KV<string>>)
    requires KeysStart(heads, 'M') && DistinctKeys(heads)
    requires DistinctKeys(staged) && forall i :: 0 <= i < |staged| ==> staged[i].key != [] && staged[i].key[0] != 'M'
    ensures DistinctKeys(heads + Sort(staged))
  {
    SortDistinct(staged);
    SortIsPermutation(staged);
    forall i, j | 0 <= i < |heads| && 0 <= j < |staged| ensures heads[i].key != Sort(staged)[j].key {
      assert Sort(staged)[j] in staged;
    }
    DistinctAppend(heads, Sort(staged));
  }

  lemma ArchiveDistinct(rel: Release, run: Run, st: State)
    requires ValidRelease(rel) && ValidState(rel, st)
    ensures DistinctKeys(ArchiveOf(rel, run, st))
  {
    StagedDistinct(rel, run, st);
    var text := Print(CANONICAL, ManifestOf(rel, run, Staged(rel, run, st)));
    HeadsKeys(run, text);
    HeadsDistinct(Heads(run, text), Staged(rel, run, st));
  }

  lemma {:induction false} GetMemberIn(archive: Archive, f: KV<string>)
    requires DistinctKeys(archive) && f in archive
    ensures GetMember(archive, f.key) == Some(f.val)
  {
    var n := |archive| - 1;
    if archive[n].key != f.key {
      var i :| 0 <= i < |archive| && archive[i] == f;
      assert archive[..n][i] == f;
      GetMemberIn(archive[..n], f);
    } else {
      var i :| 0 <= i < |archive| && archive[i] == f;
    }
  }

  lemma StagedMember(rel: Release, run: Run, st: State, f: KV<string>)
    requires ValidRelease(rel) && ValidState(rel, st) && f in Staged(rel, run, st)
    ensures GetMember(ArchiveOf(rel, run, st), f.key) == Some(f.val)
  {
    ArchiveDistinct(rel, run, st);
    SortIsPermutation(Staged(rel, run, st));
    assert f in Sort(Staged(rel, run, st));
    GetMemberIn(ArchiveOf(rel, run, st), f);
  }

  // ---------- the manifest ----------

  lemma {:induction false} SliceEntriesAppend(xs: seq<KV<string>>, ys: seq<KV<string>>)
    ensures SliceEntries(xs + ys) == SliceEntries(xs) + SliceEntries(ys)
  {
    if ys == [] {
      assert xs + ys == xs;
    } else {
      var n := |ys| - 1;
      assert (xs + ys)[..|xs| + n] == xs + ys[..n];
      SliceEntriesAppend(xs, ys[..n]);
    }
  }

  lemma SchemaPathStart(path: string)
    ensures IsSchemaPath(path) ==> path != [] && path[0] == 's'
  {
    if IsSchemaPath(path) { assert path[..8][0] == 's'; }
  }

  lemma {:induction false} NoSliceEntries(xs: seq<KV<string>>)
    requires forall i :: 0 <= i < |xs| ==> xs[i].key != [] && xs[i].key[0] != 's'
    ensures SliceEntries(xs) == []
  {
    if xs != [] {
      SchemaPathStart(xs[|xs| - 1].key);
      NoSliceEntries(xs[..|xs| - 1]);
    }
  }

  /** The slices of the archive by schema name. */
  function SliceContents(run: Run, st: State, schemas: seq<string>): (r: seq<KV<string>>)
    requires SlicesReady(st, schemas)
    ensures |r| == |schemas|
  {
    seq(|schemas|, i requires 0 <= i < |schemas| =>
      KV(schemas[i], RenderLines(SortRows(run.show, st.slices[schemas[i]]))))
  }

  lemma SchemaPathParts(schema: string)
    ensures IsSchemaPath(SchemaPath(schema)) && Middle(SchemaPath(schema), 8, 6) == schema
  {
    var p := SchemaPath(schema);
    assert p[..8] == "schemas/" && p[|p| - 6..] == ".jsonl" && p[8..|p| - 6] == schema;
  }

  lemma {:induction false} SliceEntriesOf(fs: seq<KV<string>>, es: seq<KV<string>>)
    requires |fs| == |es| && forall i :: 0 <= i < |fs| ==> fs[i] == KV(SchemaPath(es[i].key), es[i].val)
    ensures SliceEntries(fs) == es
  {
    if fs != [] {
      var n := |fs| - 1;
      SliceEntriesOf(fs[..n], es[..n]);
      SchemaPathParts(es[n].key);
      assert es == es[..n] + [es[n]];
    }
  }

  lemma {:induction false} NamedFinds<T>(xs: seq<KV<T>>, name: string, i: nat)
    requires i < |xs| && xs[i].key == name && DistinctKeys(xs)
    ensures Named(xs, name) == [xs[i]]
  {
    if i == 0 {
      NamedMisses(xs[1..], name);
    } else {
      NamedFinds(xs[1..], name, i - 1);
    }
  }

  lemma {:induction false} NamedMisses<T>(xs: seq<KV<T>>, name: string)
    requires forall i :: 0 <= i < |xs| ==> xs[i].key != name
    ensures Named(xs, name) == []
  {
    if xs != [] { NamedMisses(xs[1..], name); }
  }

  lemma {:induction false} ByRegistryKeeps<T>(names: seq<string>, xs: seq<KV<T>>, k: nat)
    requires k <= |names| == |xs| && DistinctKeys(xs)
    requires forall i :: 0 <= i < |xs| ==> xs[i].key == names[i]
    ensures ByRegistry(names[k..], xs) == xs[k..]
    decreases |names| - k
  {
    if k < |names| {
      NamedFinds(xs, names[k], k);
      ByRegistryKeeps(names, xs, k + 1);
      assert names[k..][1..] == names[k + 1..];
    }
  }

  lemma ManifestSlices(rel: Release, run: Run, st: State)
    requires ValidRelease(rel) && ValidState(rel, st)
    ensures ByRegistry(rel.schemas, SliceEntries(Staged(rel, run, st))) == SliceContents(run, st, rel.schemas)
    ensures DistinctKeys(SliceContents(run, st, rel.schemas))
  {
    var a, b, c, d := SchemaFiles(run, st, rel.schemas), BundleFiles(st), CharterFiles(Sort(st.charters)),
      TailFiles(st);
    SortDistinct(st.charters);
    CharterFilesKeys(Sort(st.charters));
    BundleFilesKeys(st);
    TailFilesKeys(st);
    NoSliceEntries(b);
    NoSliceEntries(c);
    NoSliceEntries(d);
    SliceEntriesAppend(a, b);
    SliceEntriesAppend(a + b, c);
    SliceEntriesAppend(a + b + c, d);
    var es := SliceContents(run, st, rel.schemas);
    SliceEntriesOf(a, es);
    assert SliceEntries(Staged(rel, run, st)) == es;
    ByRegistryKeeps(rel.schemas, es, 0);
    assert rel.schemas[0..] == rel.schemas && es[0..] == es;
  }

  lemma ManifestKeysDistinct(rel: Release, run: Run, slices: seq<KV<string>>, aux: seq<KV<string>>)
    ensures DistinctKeys(ManifestFields(rel, run, slices, aux))
  {}

  lemma SliceJsonWellFormed(sha: string -> string, e: KV<string>)
    ensures WellFormed(SliceJson(sha, e))
    ensures Lookup(SliceJson(sha, e).fields, "schema") == Some(Str(e.key))
    ensures Lookup(SliceJson(sha, e).fields, "content_sha256") == Some(Str(sha(e.val)))
    ensures Lookup(SliceJson(sha, e).fields, "row_count") == Some(Int(CountNewlines(e.val)))
  {
    var fs := SliceJson(sha, e).fields;
    assert DistinctKeys(fs);
    LookupIn(fs, "schema");
    LookupIn(fs, "content_sha256");
    LookupIn(fs, "row_count");
    assert fs[0] in fs && fs[1] in fs && fs[2] in fs;
  }

  lemma ManifestWellFormed(rel: Release, run: Run, slices: seq<KV<string>>, aux: seq<KV<string>>)
    requires WellFormed(rel.subsystems)
    ensures WellFormed(Obj(ManifestFields(rel, run, slices, aux)))
  {
    var fs := ManifestFields(rel, run, slices, aux);
    ManifestKeysDistinct(rel, run, slices, aux);
    forall i | 0 <= i < |slices| ensures WellFormed(SliceJsons(run.sha, slices)[i]) {
      SliceJsonWellFormed(run.sha, slices[i]);
    }
    assert WellFormed(Arr(SliceJsons(run.sha, slices)));
    forall i | 0 <= i < |aux| ensures WellFormed(AuxJsons(aux)[i]) {}
    assert WellFormed(Arr(AuxJsons(aux)));
    forall i | 0 <= i < |fs| ensures WellFormed(fs[i].val) {}
  }

  /** A field of the manifest as the importer reads it. */
  lemma ManifestField(rel: Release, run: Run, staged: seq<KV<string>>, key: string, v: Json, default: Json)
    requires WellFormed(rel.subsystems) && KV(key, v) in ManifestOf(rel, run, staged).fields
    ensures var m := ManifestOf(rel, run, staged);
      Plain(CANONICAL, m).Obj? && Field(Plain(CANONICAL, m).fields, key, default) == Plain(CANONICAL, v)
  {
    var fs := ManifestOf(rel, run, staged).fields;
    ManifestKeysDistinct(rel, run, ByRegistry(rel.schemas, SliceEntries(staged)), Sort(AuxEntries(run.sha, staged)));
    LookupPlain(CANONICAL, fs, key);
    LookupIn(fs, key);
  }

  lemma ManifestScalars(rel: Release, run: Run, staged: seq<KV<string>>)
    requires WellFormed(rel.subsystems)
    ensures var m := Plain(CANONICAL, ManifestOf(rel, run, staged));
      && m.Obj?
      && Field(m.fields, "manifest_version", Int(-1)) == Int(MANIFEST_VERSION)
      && Field(m.fields, "spine_version", Str("")) == Str(rel.current)
      && Field(m.fields, "signing_key_fingerprint", Str("")) == Str(run.fingerprint)
  {
    var fs := ManifestOf(rel, run, staged).fields;
    assert fs[0] in fs && fs[1] in fs && fs[7] in fs;
    ManifestField(rel, run, staged, "manifest_version", Int(MANIFEST_VERSION), Int(-1));
    ManifestField(rel, run, staged, "spine_version", Str(rel.current), Str(""));
    ManifestField(rel, run, staged, "signing_key_fingerprint", Str(run.fingerprint), Str(""));
  }

  lemma ManifestSlicesField(rel: Release, run: Run, staged: seq<KV<string>>, es: seq<KV<string>>)
    requires WellFormed(rel.subsystems) && es == ByRegistry(rel.schemas, SliceEntries(staged))
    ensures var m := Plain(CANONICAL, ManifestOf(rel, run, staged));
      m.Obj? && Field(m.fields, "schemas", Arr([])) == Arr(PlainItems(CANONICAL, SliceJsons(run.sha, es)))
  {
    var fs := ManifestOf(rel, run, staged).fields;
    assert fs[4] in fs;
    ManifestField(rel, run, staged, "schemas", Arr(SliceJsons(run.sha, es)), Arr([]));
  }

  /** The chain of checks, from the values it looks at. */
  lemma CheckManifestAccepts(rel: Release, host: Host, archive: Archive, text: string, sig: string, fp: string,
                             fields: seq<KV<Json>>)
    requires GetMember(archive, "MANIFEST.json") == Some(text) && GetMember(archive, "MANIFEST.sig") == Some(sig)
    requires Loads(text) == Ok(Obj(fields), "")
    requires host.decode(Strip(sig)).Some? && host.verify(text, host.decode(Strip(sig)).value, fp)
    requires Field(fields, "manifest_version", Int(-1)) == Int(MANIFEST_VERSION)
    requires host.show(Field(fields, "signing_key_fingerprint", Str(""))) == fp
    requires host.show(Field(fields, "spine_version", Str(""))) == rel.current && rel.current in rel.versions
      && rel.window >= 0
    ensures CheckManifest(rel, host, archive) == Done(fields)
  {
    IndexOfMember(rel.versions, rel.current);
    assert VersionGap(rel.versions, rel.current, rel.current) == Some(0);
  }

  lemma ArchiveHeads(rel: Release, run: Run, st: State)
    requires ValidRelease(rel) && ValidState(rel, st)
    ensures var text := Print(CANONICAL, ManifestOf(rel, run, Staged(rel, run, st)));
      && GetMember(ArchiveOf(rel, run, st), "MANIFEST.json") == Some(text)
      && GetMember(ArchiveOf(rel, run, st), "MANIFEST.sig") == Some(run.sign(text) + "\n")
  {
    var archive := ArchiveOf(rel, run, st);
    ArchiveDistinct(rel, run, st);
    assert archive[0] in archive && archive[1] in archive;
    GetMemberIn(archive, archive[0]);
    GetMemberIn(archive, archive[1]);
  }

  lemma SignedManifestAccepted(rel: Release, run: Run, host: Host, archive: Archive, m: Json)
    requires ValidRelease(rel) && Matches(run, host) && WellFormed(m)
    requires GetMember(archive, "MANIFEST.json") == Some(Print(CANONICAL, m))
    requires GetMember(archive, "MANIFEST.sig") == Some(run.sign(Print(CANONICAL, m)) + "\n")
    requires Plain(CANONICAL, m).Obj?
    requires Field(Plain(CANONICAL, m).fields, "manifest_version", Int(-1)) == Int(MANIFEST_VERSION)
    requires Field(Plain(CANONICAL, m).fields, "spine_version", Str("")) == Str(rel.current)
    requires Field(Plain(CANONICAL, m).fields, "signing_key_fingerprint", Str("")) == Str(run.fingerprint)
    ensures CheckManifest(rel, host, archive) == Done(Plain(CANONICAL, m).fields)
  {
    var text := Print(CANONICAL, m);
    LoadsPrint(CANONICAL, m);
    assert Trusts(run, host, text);
    CheckManifestAccepts(rel, host, archive, text, run.sign(text) + "\n", run.fingerprint, Plain(CANONICAL, m).fields);
  }

  lemma ManifestAccepted(rel: Release, run: Run, st: State, host: Host)
    requires ValidRelease(rel) && ValidState(rel, st) && Matches(run, host)
    ensures var m := ManifestOf(rel, run, Staged(rel, run, st));
      Plain(CANONICAL, m).Obj? && CheckManifest(rel, host, ArchiveOf(rel, run, st)) == Done(Plain(CANONICAL, m).fields)
  {
    var staged := Staged(rel, run, st);
    ArchiveHeads(rel, run, st);
    ManifestWellFormed(rel, run, ByRegistry(rel.schemas, SliceEntries(staged)), Sort(AuxEntries(run.sha, staged)));
    ManifestScalars(rel, run, staged);
    SignedManifestAccepted(rel, run, host, ArchiveOf(rel, run, st), ManifestOf(rel, run, staged));
  }

  // ---------- the slices ----------

  lemma {:induction false} LookupPut<T>(d: seq<KV<T>>, x: KV<T>, key: string)
    ensures Lookup(Put(d, x), key) == if key == x.key then Some(x.val) else Lookup(d, key)
  {
    if d != [] { LookupPut(d[1..], x, key); }
  }

  lemma PlainSlice(sha: string -> string, e: KV<string>)
    ensures var v := Plain(CANONICAL, SliceJson(sha, e));
      v.Obj? && Lookup(v.fields, "schema") == Some(Str(e.key))
        && Lookup(v.fields, "content_sha256") == Some(Str(sha(e.val)))
  {
    var fields := SliceJson(sha, e).fields;
    SliceJsonWellFormed(sha, e);
    LookupPlain(CANONICAL, fields, "schema");
    LookupPlain(CANONICAL, fields, "content_sha256");
  }

  lemma {:induction false} TableOfSlices(sha: string -> string, es: seq<KV<string>>)
    requires DistinctKeys(es)
    ensures SliceTable(PlainItems(CANONICAL, SliceJsons(sha, es))).Some?
    ensures var t := SliceTable(PlainItems(CANONICAL, SliceJsons(sha, es))).value;
      forall i :: 0 <= i < |es| ==>
        Lookup(t, es[i].key).Some? && Lookup(Lookup(t, es[i].key).value, "content_sha256") == Some(Str(sha(es[i].val)))
  {
    if es != [] {
      var n := |es| - 1;
      var items := PlainItems(CANONICAL, SliceJsons(sha, es));
      TableOfSlices(sha, es[..n]);
      assert items[..n] == PlainItems(CANONICAL, SliceJsons(sha, es[..n]));
      var t := SliceTable(items[..n]).value;
      PlainSlice(sha, es[n]);
      var x := KV(es[n].key, items[n].fields);
      assert SliceTable(items) == Some(Put(t, x));
      forall i | 0 <= i < |es|
        ensures Lookup(Put(t, x), es[i].key).Some?
        ensures Lookup(Lookup(Put(t, x), es[i].key).value, "content_sha256") == Some(Str(sha(es[i].val)))
      {
        LookupPut(t, x, es[i].key);
        if i < n { assert es[..n][i] == es[i]; }
      }
    }
  }

  /** The rows the importer hands over for a schema: in file order, hook leaves as strings. */
  function ImportedRows(run: Run, st: State, schema: string): seq<Json>
    requires schema in st.slices && AllRows(st.slices[schema])
  {
    PlainRows(SortRows(run.show, st.slices[schema]))
  }

  lemma SliceAccepted(rel: Release, run: Run, st: State, host: Host, t: Infos, i: nat)
    requires ValidRelease(rel) && ValidState(rel, st) && host.sha == run.sha && i < |rel.schemas|
    requires var e := SliceContents(run, st, rel.schemas)[i];
      Lookup(t, e.key).Some? && Lookup(Lookup(t, e.key).value, "content_sha256") == Some(Str(run.sha(e.val)))
    ensures rel.schemas[i] in rel.schemas
    ensures CheckSlice(host, ArchiveOf(rel, run, st), t, rel.schemas[i]) == Done(ImportedRows(run, st, rel.schemas[i]))
  {
    var schema := rel.schemas[i];
    assert schema in rel.schemas;
    var f := SchemaFiles(run, st, rel.schemas)[i];
    assert f in SchemaFiles(run, st, rel.schemas);
    assert f in Staged(rel, run, st);
    StagedMember(rel, run, st, f);
    ParseRendered(run.show, st.slices[schema]);
  }

  /** One write per slice. */
  function SliceCalls(run: Run, st: State, schemas: seq<string>): (r: seq<Call>)
    requires SlicesReady(st, schemas)
    ensures |r| == |schemas|
  {
    seq(|schemas|, i requires 0 <= i < |schemas| => WriteRows(schemas[i], ImportedRows(run, st, schemas[i])))
  }

  function SliceCounts(st: State, schemas: seq<string>): (r: seq<KV<nat>>)
    requires SlicesReady(st, schemas)
    ensures |r| == |schemas|
  {
    seq(|schemas|, i requires 0 <= i < |schemas| => KV(schemas[i], |st.slices[schemas[i]]|))
  }

  lemma {:induction false} SlicesAccepted(host: Host, archive: Archive, t: Infos, schemas: seq<string>,
                                          calls: seq<Call>, counts: seq<KV<nat>>, raises: nat -> bool, base: nat)
    requires |calls| == |counts| == |schemas|
    requires forall i :: 0 <= i < |schemas| ==>
      && calls[i].WriteRows? && calls[i].schema == schemas[i] && counts[i] == KV(schemas[i], |calls[i].rows|)
      && CheckSlice(host, archive, t, schemas[i]) == Done(calls[i].rows)
    requires Passes(raises, base, |schemas|)
    ensures Slices(host, archive, t, schemas, false, raises, base) == Progress(calls, counts, None)
  {
    if schemas != [] {
      var n := |schemas| - 1;
      SlicesAccepted(host, archive, t, schemas[..n], calls[..n], counts[..n], raises, base);
      assert !raises(base + n);
      assert calls == calls[..n] + [calls[n]] && counts == counts[..n] + [counts[n]];
    }
  }

  // ---------- the auxiliary files ----------

  function CharterEntry(f: KV<string>): seq<KV<string>> {
    if IsCharterPath(f.key) then [KV(Middle(f.key, 9, 3), f.val)] else []
  }

  lemma CharterPathParts(role: string)
    ensures IsCharterPath(CharterPath(role)) && Middle(CharterPath(role), 9, 3) == role
  {
    var p := CharterPath(role);
    assert p[..9] == "charters/" && p[|p| - 3..] == ".md" && p[9..|p| - 3] == role;
  }

  lemma {:induction false} CharterEntriesOfFiles(cs: seq<KV<string>>)
    ensures FlatMap(CharterEntry, CharterFiles(cs)) == cs
  {
    if cs != [] {
      CharterPathParts(cs[0].key);
      assert CharterFiles(cs)[1..] == CharterFiles(cs[1..]);
      CharterEntriesOfFiles(cs[1..]);
    }
  }

  lemma CharterPathStart(path: string)
    ensures IsCharterPath(path) ==> path != [] && path[0] == 'c'
  {
    if IsCharterPath(path) { assert path[..9][0] == 'c'; }
  }

  lemma {:induction false} NoCharterEntries(xs: seq<KV<string>>)
    requires forall i :: 0 <= i < |xs| ==> xs[i].key != [] && xs[i].key[0] != 'c'
    ensures FlatMap(CharterEntry, xs) == []
  {
    if xs != [] {
      CharterPathStart(xs[0].key);
      NoCharterEntries(xs[1..]);
    }
  }

  /** Without repeated roles, the dict of charters lists the charter members in archive order. */
  lemma {:induction false} ChartersAreEntries(archive: Archive)
    requires DistinctKeys(FlatMap(CharterEntry, archive))
    ensures Charters(archive) == FlatMap(CharterEntry, archive)
  {
    if archive != [] {
      var n := |archive| - 1;
      var d, e := FlatMap(CharterEntry, archive[..n]), CharterEntry(archive[n]);
      CharterEntriesSnoc(archive);
      DistinctParts(d, e);
      ChartersAreEntries(archive[..n]);
      if e != [] { PutFresh(d, e[0]); }
    }
  }

  lemma CharterEntriesSnoc(archive: Archive)
    requires archive != []
    ensures var n := |archive| - 1;
      FlatMap(CharterEntry, archive) == FlatMap(CharterEntry, archive[..n]) + CharterEntry(archive[n])
  {
    FlatMapSnoc(CharterEntry, archive);
  }

  lemma DistinctParts<T>(d: seq<KV<T>>, e: seq<KV<T>>)
    requires DistinctKeys(d + e)
    ensures DistinctKeys(d)
    ensures e != [] ==> forall i :: 0 <= i < |d| ==> d[i].key != e[0].key
  {
    var both := d + e;
    forall i, j | 0 <= i < j < |d| ensures d[i].key != d[j].key {
      assert both[i] == d[i] && both[j] == d[j];
    }
    if e != [] {
      forall i | 0 <= i < |d| ensures d[i].key != e[0].key {
        assert both[i] == d[i] && both[|d|] == e[0];
      }
    }
  }

  lemma StagedCharters(rel: Release, run: Run, st: State)
    requires ValidRelease(rel) && ValidState(rel, st)
    ensures FlatMap(CharterEntry, Staged(rel, run, st)) == Sort(st.charters)
  {
    var cs := Sort(st.charters);
    var a, b, c, d := SchemaFiles(run, st, rel.schemas), BundleFiles(st), CharterFiles(cs), TailFiles(st);
    SchemaFilesKeys(run, st, rel.schemas);
    BundleFilesKeys(st);
    TailFilesKeys(st);
    NoCharterEntries(a);
    NoCharterEntries(b);
    NoCharterEntries(d);
    CharterEntriesOfFiles(cs);
    OnlyThird(a, b, c, d);
  }

  lemma OnlyThird(a: seq<KV<string>>, b: seq<KV<string>>, c: seq<KV<string>>, d: seq<KV<string>>)
    requires FlatMap(CharterEntry, a) == [] && FlatMap(CharterEntry, b) == [] && FlatMap(CharterEntry, d) == []
    ensures FlatMap(CharterEntry, a + b + c + d) == FlatMap(CharterEntry, c)
  {
    FlatMapAppend(CharterEntry, a, b);
    FlatMapAppend(CharterEntry, a + b, c);
    FlatMapAppend(CharterEntry, a + b + c, d);
  }

  lemma ChartersOfArchive(heads: seq<KV<string>>, staged: seq<KV<string>>, cs: seq<KV<string>>)
    requires FlatMap(CharterEntry, heads) == [] && FlatMap(CharterEntry, staged) == cs && DistinctKeys(cs)
    ensures multiset(Charters(heads + Sort(staged))) == multiset(cs)
  {
    SortIsPermutation(staged);
    FlatMapPermutation(CharterEntry, Sort(staged), staged);
    FlatMapAppend(CharterEntry, heads, Sort(staged));
    var entries := FlatMap(CharterEntry, heads + Sort(staged));
    assert entries == FlatMap(CharterEntry, Sort(staged));
    DistinctPermutes(cs, entries);
    ChartersAreEntries(heads + Sort(staged));
  }

  lemma ChartersRead(rel: Release, run: Run, st: State)
    requires ValidRelease(rel) && ValidState(rel, st)
    ensures multiset(Charters(ArchiveOf(rel, run, st))) == multiset(st.charters)
  {
    SortDistinct(st.charters);
    SortIsPermutation(st.charters);
    StagedCharters(rel, run, st);
    ChartersBehindHeads(run, Print(CANONICAL, ManifestOf(rel, run, Staged(rel, run, st))), Staged(rel, run, st),
      Sort(st.charters));
  }

  lemma ChartersBehindHeads(run: Run, text: string, staged: seq<KV<string>>, cs: seq<KV<string>>)
    requires FlatMap(CharterEntry, staged) == cs && DistinctKeys(cs)
    ensures multiset(Charters(Heads(run, text) + Sort(staged))) == multiset(cs)
  {
    HeadsKeys(run, text);
    NoCharterEntries(Heads(run, text));
    ChartersOfArchive(Heads(run, text), staged, cs);
  }

  lemma RefsRead(refs: seq<string>)
    ensures Loads(Print(CANONICAL, RefsJson(refs))).Ok?
    ensures var v := Loads(Print(CANONICAL, RefsJson(refs))).val;
      v.Obj? && Field(v.fields, "paths", Arr([])) == Arr(Strs(SortStrings(refs)))
  {
    var items := Strs(SortStrings(refs));
    var fs := [KV("paths", Arr(items))];
    assert WellFormed(Arr(items));
    assert DistinctKeys(fs);
    LoadsPrint(CANONICAL, Obj(fs));
    LookupPlain(CANONICAL, fs, "paths");
    LookupIn(fs, "paths");
    assert fs[0] in fs;
    assert PlainItems(CANONICAL, items) == items;
  }

  function AuxPlanned(rel: Release, run: Run, st: State): seq<Call>
    requires SlicesReady(st, rel.schemas)
  {
    [WriteYaml(st.bundleYaml), WriteLicense(Plain(CANONICAL, st.license)),
     WriteCharters(Charters(ArchiveOf(rel, run, st))), WriteRefs(Strs(SortStrings(st.vaultRefs)))]
  }

  lemma AuxAccepted(rel: Release, run: Run, st: State)
    requires ValidRelease(rel) && ValidState(rel, st)
    ensures AuxCalls(ArchiveOf(rel, run, st)) == Done(AuxPlanned(rel, run, st))
  {
    AuxMembers(rel, run, st);
    LoadsPrint(CANONICAL, st.license);
    RefsRead(st.vaultRefs);
    AuxCallsFrom(ArchiveOf(rel, run, st), st.bundleYaml, Print(CANONICAL, st.license), Plain(CANONICAL, st.license),
                 Print(CANONICAL, RefsJson(st.vaultRefs)), Strs(SortStrings(st.vaultRefs)));
  }

  lemma AuxMembers(rel: Release, run: Run, st: State)
    requires ValidRelease(rel) && ValidState(rel, st)
    ensures var archive := ArchiveOf(rel, run, st);
      && GetMember(archive, "bundle/org.yaml") == Some(st.bundleYaml)
      && GetMember(archive, "bundle/license.json") == Some(Print(CANONICAL, st.license))
      && GetMember(archive, "vault_refs.json") == Some(Print(CANONICAL, RefsJson(st.vaultRefs)))
  {
    var b, d := BundleFiles(st), TailFiles(st);
    assert b[0] in b && b[1] in b && d[0] in d;
    StagedMember(rel, run, st, b[0]);
    StagedMember(rel, run, st, b[1]);
    StagedMember(rel, run, st, d[0]);
  }

  lemma AuxCallsFrom(archive: Archive, yaml: string, license: string, envelope: Json, refs: string, paths: seq<Json>)
    requires GetMember(archive, "bundle/org.yaml") == Some(yaml)
    requires GetMember(archive, "bundle/license.json") == Some(license) && Loads(license) == Ok(envelope, "")
    requires GetMember(archive, "vault_refs.json") == Some(refs) && Loads(refs).Ok? && Loads(refs).val.Obj?
    requires Field(Loads(refs).val.fields, "paths", Arr([])) == Arr(paths)
    ensures AuxCalls(archive) ==
      Done([WriteYaml(yaml), WriteLicense(envelope), WriteCharters(Charters(archive)), WriteRefs(paths)])
  {}

  // ---------- the theorems ----------

  /** The slice table the importer builds. */
  lemma TableBuilt(rel: Release, run: Run, st: State, host: Host)
    requires ValidRelease(rel) && ValidState(rel, st) && Matches(run, host)
    ensures var es := SliceContents(run, st, rel.schemas);
      VerifiedTable(rel, host, ArchiveOf(rel, run, st)) == SliceTable(PlainItems(CANONICAL, SliceJsons(run.sha, es)))
  {
    ManifestAccepted(rel, run, st, host);
    ManifestSlices(rel, run, st);
    var es := SliceContents(run, st, rel.schemas);
    ManifestSlicesField(rel, run, Staged(rel, run, st), es);
    TableFrom(rel, host, ArchiveOf(rel, run, st), Plain(CANONICAL, ManifestOf(rel, run, Staged(rel, run, st))).fields,
              PlainItems(CANONICAL, SliceJsons(run.sha, es)));
  }

  lemma TableFrom(rel: Release, host: Host, archive: Archive, fields: seq<KV<Json>>, items: seq<Json>)
    requires CheckManifest(rel, host, archive) == Done(fields) && Field(fields, "schemas", Arr([])) == Arr(items)
    ensures VerifiedTable(rel, host, archive) == SliceTable(items)
  {}

  /** What the importer finds in each slice. */
  lemma TableAccepted(rel: Release, run: Run, st: State, host: Host)
    requires ValidRelease(rel) && ValidState(rel, st) && Matches(run, host)
    ensures VerifiedTable(rel, host, ArchiveOf(rel, run, st)).Some?
    ensures var t := VerifiedTable(rel, host, ArchiveOf(rel, run, st)).value;
      forall i :: 0 <= i < |rel.schemas| ==>
        rel.schemas[i] in rel.schemas && CheckSlice(host, ArchiveOf(rel, run, st), t, rel.schemas[i]) ==
          Done(ImportedRows(run, st, rel.schemas[i]))
  {
    var es := SliceContents(run, st, rel.schemas);
    TableBuilt(rel, run, st, host);
    ManifestSlices(rel, run, st);
    TableOfSlices(run.sha, es);
    var t := VerifiedTable(rel, host, ArchiveOf(rel, run, st)).value;
    forall i | 0 <= i < |rel.schemas|
      ensures rel.schemas[i] in rel.schemas
      ensures CheckSlice(host, ArchiveOf(rel, run, st), t, rel.schemas[i]) ==
        Done(ImportedRows(run, st, rel.schemas[i]))
    {
      assert Lookup(t, es[i].key).Some?;
      SliceAccepted(rel, run, st, host, t, i);
    }
  }

  /**
   An exported archive passes every check: with a matching signer and a destination that
   does not raise, the import writes every slice, in order, reports as many rows as were
   exported, and then writes the auxiliary state.
   */
  lemma ExportIsAccepted(rel: Release, run: Run, st: State, host: Host, raises: nat -> bool, base: nat)
    requires ValidRelease(rel) && ValidState(rel, st) && Matches(run, host)
    requires Passes(raises, base, |rel.schemas| + 5)
    ensures ImportRun(rel, host, ArchiveOf(rel, run, st), false, raises, base, true) ==
      (SliceCalls(run, st, rel.schemas) + (AuxPlanned(rel, run, st) + [Replay]),
       Done(Report(false, SliceCounts(st, rel.schemas), |st.charters|, |st.vaultRefs|, Some(true))))
  {
    var archive := ArchiveOf(rel, run, st);
    TableAccepted(rel, run, st, host);
    var t := VerifiedTable(rel, host, archive).value;
    var calls, counts := SliceCalls(run, st, rel.schemas), SliceCounts(st, rel.schemas);
    forall i | 0 <= i < |rel.schemas| ensures counts[i] == KV(rel.schemas[i], |calls[i].rows|) {
      SortRowsFacts(run.show, st.slices[rel.schemas[i]]);
      SameMultiset(SortRows(run.show, st.slices[rel.schemas[i]]), st.slices[rel.schemas[i]]);
    }
    SlicesAccepted(host, archive, t, rel.schemas, calls, counts, raises, base);
    AuxAccepted(rel, run, st);
    ChartersRead(rel, run, st);
    SameMultiset(Charters(archive), st.charters);
    RefsCount(st.vaultRefs);
    FinishAccepted(calls, counts, AuxPlanned(rel, run, st), archive, raises, base);
    ImportRunOf(rel, host, archive, raises, base);
  }

  lemma ImportRunOf(rel: Release, host: Host, archive: Archive, raises: nat -> bool, base: nat)
    requires VerifiedTable(rel, host, archive).Some?
    ensures ImportRun(rel, host, archive, false, raises, base, true) ==
      Finish(Slices(host, archive, VerifiedTable(rel, host, archive).value, rel.schemas, false, raises, base),
             AuxCalls(archive), archive, false, raises, base, true)
  {}

  lemma RefsCount(refs: seq<string>)
    ensures |SortStrings(refs)| == |refs|
    ensures multiset(SortStrings(refs)) == multiset(refs)
  {
    var kvs := seq(|refs|, i requires 0 <= i < |refs| => KV(refs[i], refs[i]));
    SortIsPermutation(kvs);
    var val := (kv: KV<string>) => kv.val;
    MapPermutation(val, Sort(kvs), kvs);
    assert Map(val, kvs) == refs && Map(val, Sort(kvs)) == SortStrings(refs);
    SameMultiset(SortStrings(refs), refs);
  }

  lemma FinishAccepted(calls: seq<Call>, counts: seq<KV<nat>>, planned: seq<Call>, archive: Archive,
                       raises: nat -> bool, base: nat)
    requires |planned| == 4 && planned[3].WriteRefs? && Passes(raises, base, |calls| + 5)
    ensures Finish(Progress(calls, counts, None), Done(planned), archive, false, raises, base, true) ==
      (calls + (planned + [Replay]), Done(Report(false, counts, |Charters(archive)|, |planned[3].paths|, Some(true))))
  {
    var b := base + |calls|;
    assert Passes(raises, b, 4);
    assert !raises(b + 4);
  }

  /** The row count the manifest records for a slice is the number of rows imported from it. */
  lemma ManifestCountsRows(rel: Release, run: Run, st: State, i: nat)
    requires ValidRelease(rel) && ValidState(rel, st) && i < |rel.schemas|
    ensures rel.schemas[i] in rel.schemas
    ensures var e := SliceContents(run, st, rel.schemas)[i];
      Lookup(SliceJson(run.sha, e).fields, "row_count") == Some(Int(|ImportedRows(run, st, rel.schemas[i])|))
  {
    var e := SliceContents(run, st, rel.schemas)[i];
    SliceJsonWellFormed(run.sha, e);
    NewlinesCountRows(SortRows(run.show, st.slices[rel.schemas[i]]));
  }

  /** A reader over the destination of these calls: same content, in whatever order it comes. */
  ghost predicate Reads(rel: Release, st: State, calls: seq<Call>) {
    var n := |rel.schemas|;
    && |calls| == n + 5
    && (forall i :: 0 <= i < n ==> ReadsSlice(st, calls[i]))
    && calls[n] == WriteYaml(st.bundleYaml)
    && calls[n + 1] == WriteLicense(st.license)
    && calls[n + 2].WriteCharters? && multiset(st.charters) == multiset(calls[n + 2].charters)
    && calls[n + 3].WriteRefs? && multiset(Strs(st.vaultRefs)) == multiset(calls[n + 3].paths)
  }

  ghost predicate ReadsSlice(st: State, c: Call) {
    c.WriteRows? && c.schema in st.slices && multiset(st.slices[c.schema]) == multiset(c.rows)
  }

  /** Within every slice, ids are scalars or absent and sort keys tell rows apart. */
  ghost predicate StableKeys(rel: Release, run: Run, st: State)
    requires ValidState(rel, st)
  {
    forall s :: s in rel.schemas ==>
      && KeysDecide(run.show, st.slices[s])
      && forall i :: 0 <= i < |st.slices[s]| ==> ScalarId(st.slices[s][i])
  }

  lemma ImportedSliceSame(show: Json -> string, rows: seq<Json>, rows': seq<Json>)
    requires AllRows(rows) && KeysDecide(show, rows)
    requires forall i :: 0 <= i < |rows| ==> ScalarId(rows[i])
    requires multiset(rows') == multiset(PlainRows(SortRows(show, rows)))
    ensures AllRows(rows')
    ensures RenderLines(SortRows(show, rows')) == RenderLines(SortRows(show, rows))
  {
    SortRowsFacts(show, rows);
    ScalarIdsReRender(show, rows);
    KeysDecidePlain(show, rows);
    SortRowsOrderIndependent(show, PlainRows(SortRows(show, rows)), rows');
  }

  lemma KeysDecidePlain(show: Json -> string, rows: seq<Json>)
    requires AllRows(rows) && KeysDecide(show, rows)
    requires forall i :: 0 <= i < |rows| ==> ScalarId(rows[i])
    ensures AllRows(PlainRows(SortRows(show, rows))) && KeysDecide(show, PlainRows(SortRows(show, rows)))
  {
    var s := SortRows(show, rows);
    var p := PlainRows(s);
    SortRowsFacts(show, rows);
    PlainRowsFacts(s);
    KeyDeterminedPermutes(Sort(Keyed(show, rows)), Keyed(show, s)) by {
      SortIsPermutation(Keyed(show, rows));
      KeyDeterminedPermutes(Keyed(show, rows), Sort(Keyed(show, rows)));
    }
    SameMultiset(s, rows);
    forall i, j | 0 <= i < |p| && 0 <= j < |p| && Keyed(show, p)[i].key == Keyed(show, p)[j].key
      ensures Keyed(show, p)[i] == Keyed(show, p)[j]
    {
      assert s[i] in rows && s[j] in rows;
      RowKeyPlain(show, s[i]);
      RowKeyPlain(show, s[j]);
      assert Keyed(show, s)[i] == Keyed(show, s)[j];
    }
  }

  lemma RefsSame(refs: seq<string>, refs': seq<string>)
    requires multiset(Strs(refs')) == multiset(Strs(SortStrings(refs)))
    ensures SortStrings(refs') == SortStrings(refs)
  {
    RefsCount(refs);
    var text := (v: Json) => if v.Str? then v.s else "";
    MapPermutation(text, Strs(refs'), Strs(SortStrings(refs)));
    assert Map(text, Strs(refs')) == refs' && Map(text, Strs(SortStrings(refs))) == SortStrings(refs);
    var pair := (x: string) => KV(x, x);
    var xs, ys := Map(pair, refs'), Map(pair, refs);
    assert xs == seq(|refs'|, i requires 0 <= i < |refs'| => KV(refs'[i], refs'[i]));
    assert ys == seq(|refs|, i requires 0 <= i < |refs| => KV(refs[i], refs[i]));
    MapPermutation(pair, refs', refs);
    SortOrderIndependent(xs, ys);
  }

  lemma StagedSame(rel: Release, run: Run, st: State, st': State)
    requires ValidRelease(rel) && ValidState(rel, st) && ValidState(rel, st')
    requires SchemaFiles(run, st', rel.schemas) == SchemaFiles(run, st, rel.schemas)
    requires st'.bundleYaml == st.bundleYaml && st'.license == Plain(CANONICAL, st.license)
    requires multiset(st'.charters) == multiset(st.charters)
    requires SortStrings(st'.vaultRefs) == SortStrings(st.vaultRefs)
    requires st'.integrity == st.integrity
    ensures ArchiveOf(rel, run, st') == ArchiveOf(rel, run, st)
  {
    PrintPlain(CANONICAL, st.license);
    SortOrderIndependent(st'.charters, st.charters);
  }

  /**
   The round trip: export, import, export again with the same time, identifiers, notes and
   integrity report gives the same members in the same order with the same content,
   in whatever order the second reader returns rows, charters and vault references.
   */
  lemma ExportImportExport(rel: Release, run: Run, st: State, host: Host, st': State, raises: nat -> bool, base: nat)
    requires ValidRelease(rel) && ValidState(rel, st) && ValidState(rel, st') && Matches(run, host)
    requires Passes(raises, base, |rel.schemas| + 5)
    requires StableKeys(rel, run, st)
    requires st'.integrity == st.integrity
    requires Reads(rel, st', ImportRun(rel, host, ArchiveOf(rel, run, st), false, raises, base, true).0)
    ensures ArchiveOf(rel, run, st') == ArchiveOf(rel, run, st)
  {
    ExportIsAccepted(rel, run, st, host, raises, base);
    var calls := SliceCalls(run, st, rel.schemas) + (AuxPlanned(rel, run, st) + [Replay]);
    var n := |rel.schemas|;
    forall i | 0 <= i < n
      ensures SchemaFiles(run, st', rel.schemas)[i] == SchemaFiles(run, st, rel.schemas)[i]
    {
      var s := rel.schemas[i];
      assert s in rel.schemas;
      assert calls[i] == SliceCalls(run, st, rel.schemas)[i];
      assert ReadsSlice(st', calls[i]);
      ImportedSliceSame(run.show, st.slices[s], st'.slices[s]);
    }
    assert SchemaFiles(run, st', rel.schemas) == SchemaFiles(run, st, rel.schemas);
    var aux := AuxPlanned(rel, run, st);
    assert calls[n] == aux[0] && calls[n + 1] == aux[1] && calls[n + 2] == aux[2] && calls[n + 3] == aux[3];
    ChartersRead(rel, run, st);
    RefsSame(st.vaultRefs, st'.vaultRefs);
    StagedSame(rel, run, st, st');
  }

  /**
   Without the conditions on the keys: re-exporting the slices in file order reproduces the
   archive exactly when, in every slice, the sort keys of the imported rows do not decrease.
   */
  lemma ReExportIff(rel: Release, run: Run, st: State, st': State)
    requires ValidRelease(rel) && ValidState(rel, st) && ValidState(rel, st')
    requires forall s :: s in rel.schemas ==> st'.slices[s] == ImportedRows(run, st, s)
    requires st'.bundleYaml == st.bundleYaml && st'.license == Plain(CANONICAL, st.license)
    requires multiset(st'.charters) == multiset(st.charters)
    requires SortStrings(st'.vaultRefs) == SortStrings(st.vaultRefs)
    requires st'.integrity == st.integrity
    ensures ArchiveOf(rel, run, st') == ArchiveOf(rel, run, st) <==>
      forall s :: s in rel.schemas ==> Sorted(Keyed(run.show, ImportedRows(run, st, s)))
  {
    forall s | s in rel.schemas
      ensures RenderLines(SortRows(run.show, st'.slices[s])) == RenderLines(SortRows(run.show, st.slices[s]))
        <==> Sorted(Keyed(run.show, ImportedRows(run, st, s)))
    {
      ReRenderIff(run.show, st.slices[s]);
    }
    if forall s :: s in rel.schemas ==> Sorted(Keyed(run.show, ImportedRows(run, st, s))) {
      assert SchemaFiles(run, st', rel.schemas) == SchemaFiles(run, st, rel.schemas);
      StagedSame(rel, run, st, st');
    }
    if ArchiveOf(rel, run, st') == ArchiveOf(rel, run, st) {
      forall s | s in rel.schemas
        ensures RenderLines(SortRows(run.show, st'.slices[s])) == RenderLines(SortRows(run.show, st.slices[s]))
      {
        SameArchiveSameSlice(rel, run, st, st', s);
      }
    }
  }

  lemma SameArchiveSameSlice(rel: Release, run: Run, st: State, st': State, s: string)
    requires ValidRelease(rel) && ValidState(rel, st) && ValidState(rel, st') && s in rel.schemas
    requires ArchiveOf(rel, run, st') == ArchiveOf(rel, run, st)
    ensures RenderLines(SortRows(run.show, st'.slices[s])) == RenderLines(SortRows(run.show, st.slices[s]))
  {
    var i :| 0 <= i < |rel.schemas| && rel.schemas[i] == s;
    var f, f' := SchemaFiles(run, st, rel.schemas)[i], SchemaFiles(run, st', rel.schemas)[i];
    assert f in SchemaFiles(run, st, rel.schemas) && f' in SchemaFiles(run, st', rel.schemas);
    StagedMember(rel, run, st, f);
    StagedMember(rel, run, st', f');
  }
}
