/**
 `export_state`: the archive as a sequence of (member name, content) pairs.
 SHA-256 and the signature are parameters; tar layout and member times are left out.
 */
module Export {
  import opened Wrappers
  import opened Sorting
  import opened Json
  import opened Jsonl

  /** The constants a build ships with (`SCHEMA_SLICES` and the version registry). */
  datatype Release = Release(
    schemas: seq<string>,
    versions: seq<string>,
    current: string,
    window: int,
    subsystems: Json)

  /** Members in order: name and content. */
  type Archive = seq<KV<string>>

  const MANIFEST_VERSION := 1

  const SCHEMA_SLICES: seq<string> := [
    "spine_lifecycle", "spine_audit", "spine_kg", "spine_memory", "spine_federation", "spine_evidence",
    "spine_learning", "spine_devops", "spine_license", "spine_workitem", "spine_hub", "spine_identity"]

  const SUPPORTED_VERSIONS: seq<string> := ["1.0", "1.1", "1.2", "1.3"]

  /** The build under study; the subsystem registry is printed into the manifest as it is. */
  function Spine10(subsystems: Json): Release {
    Release(SCHEMA_SLICES, SUPPORTED_VERSIONS, "1.0", 2, subsystems)
  }

  lemma Spine10Valid(subsystems: Json)
    requires WellFormed(subsystems)
    ensures ValidRelease(Spine10(subsystems))
  {
    var t: seq<string> := SCHEMA_SLICES;
    assert forall i :: 0 <= i < 12 ==> |t[i]| >= 8;
    assert SUPPORTED_VERSIONS[0] == "1.0";
  }

  /** What the reader returns: rows per schema and the auxiliary state. */
  datatype State = State(
    slices: map<string, seq<Json>>,
    bundleYaml: string,
    license: Json,
    charters: seq<KV<string>>,
    vaultRefs: seq<string>,
    integrity: Json)

  /** Arguments of one run; sign returns the base64 text of the signature. */
  datatype Run = Run(
    show: Json -> string,
    sha: string -> string,
    sign: string -> string,
    fingerprint: string,
    bundleId: string,
    generatedAt: string,
    sourceHub: Option<string>,
    notes: string)

  ghost predicate DistinctStrings(xs: seq<string>) {
    forall i, j :: 0 <= i < j < |xs| ==> xs[i] != xs[j]
  }

  ghost predicate ValidRelease(rel: Release) {
    && DistinctStrings(rel.schemas)
    && WellFormed(rel.subsystems)
    && rel.current in rel.versions
    && rel.window >= 0
  }

  ghost predicate SlicesReady(st: State, schemas: seq<string>) {
    forall s :: s in schemas ==> s in st.slices && AllRows(st.slices[s])
  }

  ghost predicate ValidState(rel: Release, st: State) {
    && SlicesReady(st, rel.schemas)
    && WellFormed(st.license)
    && DistinctKeys(st.charters)
    && WellFormed(st.integrity)
  }

  // ---------- staging ----------

  function SchemaPath(schema: string): string { "schemas/" + schema + ".jsonl" }
  function CharterPath(role: string): string { "charters/" + role + ".md" }

  function SchemaFiles(run: Run, st: State, schemas: seq<string>): (r: seq<KV<string>>)
    requires SlicesReady(st, schemas)
    ensures |r| == |schemas|
  {
    seq(|schemas|, i requires 0 <= i < |schemas| =>
      KV(SchemaPath(schemas[i]), RenderLines(SortRows(run.show, st.slices[schemas[i]]))))
  }

  function CharterFiles(charters: seq<KV<string>>): (r: seq<KV<string>>)
    ensures |r| == |charters|
  {
    seq(|charters|, i requires 0 <= i < |charters| => KV(CharterPath(charters[i].key), charters[i].val))
  }

  /** `sorted(reader.fetch_vault_refs())`. */
  function SortStrings(xs: seq<string>): seq<string> {
    Vals(Sort(seq(|xs|, i requires 0 <= i < |xs| => KV(xs[i], xs[i]))))
  }

  function Strs(xs: seq<string>): (r: seq<Json>)
    ensures |r| == |xs|
    ensures forall i :: 0 <= i < |r| ==> r[i] == Str(xs[i])
  {
    seq(|xs|, i requires 0 <= i < |xs| => Str(xs[i]))
  }

  function RefsJson(refs: seq<string>): Json { Obj([KV("paths", Arr(Strs(SortStrings(refs))))]) }

  function BundleFiles(st: State): seq<KV<string>> {
    [KV("bundle/org.yaml", st.bundleYaml), KV("bundle/license.json", Print(CANONICAL, st.license))]
  }

  function TailFiles(st: State): seq<KV<string>> {
    [KV("vault_refs.json", Print(CANONICAL, RefsJson(st.vaultRefs))),
     KV("audit_chain_integrity.json", Print(CANONICAL, st.integrity))]
  }

  function Staged(rel: Release, run: Run, st: State): seq<KV<string>>
    requires SlicesReady(st, rel.schemas)
  {
    SchemaFiles(run, st, rel.schemas) + BundleFiles(st) + CharterFiles(Sort(st.charters)) + TailFiles(st)
  }

  method StageSchemas(schemas: seq<string>, run: Run, st: State) returns (staged: seq<KV<string>>)
    requires SlicesReady(st, schemas)
    ensures staged == SchemaFiles(run, st, schemas)
  {
    staged := [];
    for i := 0 to |schemas|
      invariant staged == SchemaFiles(run, st, schemas)[..i]
    {
      var schema := schemas[i];
      assert schema in schemas;
      var payload := RenderSchemaJsonl(run.show, st.slices[schema]);
      staged := staged + [KV(SchemaPath(schema), payload)];
    }
  }

  method StageCharters(staged: seq<KV<string>>, charters: seq<KV<string>>) returns (r: seq<KV<string>>)
    ensures r == staged + CharterFiles(charters)
  {
    r := staged;
    for i := 0 to |charters|
      invariant r == staged + CharterFiles(charters)[..i]
    {
      r := r + [KV(CharterPath(charters[i].key), charters[i].val)];
    }
  }

  method StageAll(rel: Release, run: Run, st: State) returns (staged: seq<KV<string>>)
    requires ValidState(rel, st)
    ensures staged == Staged(rel, run, st)
  {
    var schemas := StageSchemas(rel.schemas, run, st);
    staged := schemas + [KV("bundle/org.yaml", st.bundleYaml)];
    staged := staged + [KV("bundle/license.json", Print(CANONICAL, st.license))];
    assert staged == schemas + BundleFiles(st);
    var charters := StageCharters(staged, Sort(st.charters));
    staged := charters + [KV("vault_refs.json", Print(CANONICAL, RefsJson(st.vaultRefs)))];
    staged := staged + [KV("audit_chain_integrity.json", Print(CANONICAL, st.integrity))];
    assert staged == charters + TailFiles(st);
  }

  // ---------- manifest ----------

  predicate EndsWith(s: string, p: string) { |p| <= |s| && s[|s| - |p|..] == p }

  predicate IsSchemaPath(path: string) { StartsWith(path, "schemas/") && EndsWith(path, ".jsonl") }

  /** The text between a prefix of n and a suffix of m characters, as slicing with -m does. */
  function Middle(s: string, n: nat, m: nat): string
    requires n <= |s| && m <= |s|
  {
    if n <= |s| - m then s[n..|s| - m] else ""
  }

  /** The staged slices, by schema name. */
  function SliceEntries(staged: seq<KV<string>>): seq<KV<string>> {
    if staged == [] then []
    else
      var n := |staged| - 1;
      var f := staged[n];
      SliceEntries(staged[..n]) + (if IsSchemaPath(f.key) then [KV(Middle(f.key, 8, 6), f.val)] else [])
  }

  /** Every other staged file with its hash. */
  function AuxEntries(sha: string -> string, staged: seq<KV<string>>): seq<KV<string>> {
    if staged == [] then []
    else
      var n := |staged| - 1;
      var f := staged[n];
      AuxEntries(sha, staged[..n]) + (if IsSchemaPath(f.key) then [] else [KV(f.key, sha(f.val))])
  }

  function Named<T>(xs: seq<KV<T>>, name: string): seq<KV<T>> {
    if xs == [] then [] else (if xs[0].key == name then [xs[0]] else []) + Named(xs[1..], name)
  }

  /** A stable sort by position in names. */
  function ByRegistry<T>(names: seq<string>, xs: seq<KV<T>>): seq<KV<T>> {
    if names == [] then [] else Named(xs, names[0]) + ByRegistry(names[1..], xs)
  }

  function SliceJson(sha: string -> string, e: KV<string>): Json {
    Obj([KV("schema", Str(e.key)), KV("row_count", Int(CountNewlines(e.val))),
         KV("content_sha256", Str(sha(e.val))), KV("bytes_size", Int(|e.val|))])
  }

  function SliceJsons(sha: string -> string, es: seq<KV<string>>): (r: seq<Json>)
    ensures |r| == |es|
    ensures forall i :: 0 <= i < |r| ==> r[i] == SliceJson(sha, es[i])
  {
    seq(|es|, i requires 0 <= i < |es| => SliceJson(sha, es[i]))
  }

  function AuxJsons(es: seq<KV<string>>): (r: seq<Json>)
    ensures |r| == |es|
    ensures forall i :: 0 <= i < |r| ==> r[i] == Arr([Str(es[i].key), Str(es[i].val)])
  {
    seq(|es|, i requires 0 <= i < |es| => Arr([Str(es[i].key), Str(es[i].val)]))
  }

  /** `_manifest_to_dict`; slices are (name, content) pairs, aux are (path, hash) pairs. */
  function ManifestFields(rel: Release, run: Run, slices: seq<KV<string>>, aux: seq<KV<string>>): seq<KV<Json>> {
    [KV("manifest_version", Int(MANIFEST_VERSION)),
     KV("spine_version", Str(rel.current)),
     KV("bundle_id", Str(run.bundleId)),
     KV("generated_at", Str(run.generatedAt)),
     KV("schemas", Arr(SliceJsons(run.sha, slices))),
     KV("auxiliary_files", Arr(AuxJsons(aux))),
     KV("subsystem_versions", rel.subsystems),
     KV("signing_key_fingerprint", Str(run.fingerprint)),
     KV("source_hub_id", match run.sourceHub case None => Null case Some(h) => Str(h)),
     KV("notes", Str(run.notes))]
  }

  function ManifestOf(rel: Release, run: Run, staged: seq<KV<string>>): Json {
    Obj(ManifestFields(rel, run, ByRegistry(rel.schemas, SliceEntries(staged)), Sort(AuxEntries(run.sha, staged))))
  }

  method BuildManifest(rel: Release, run: Run, staged: seq<KV<string>>) returns (manifest: Json)
    ensures manifest == ManifestOf(rel, run, staged)
  {
    var slices: seq<KV<string>> := [];
    var aux: seq<KV<string>> := [];
    for i := 0 to |staged|
      invariant slices == SliceEntries(staged[..i])
      invariant aux == AuxEntries(run.sha, staged[..i])
    {
      var sf := staged[i];
      assert staged[..i + 1][..i] == staged[..i];
      if IsSchemaPath(sf.key) {
        slices := slices + [KV(Middle(sf.key, 8, 6), sf.val)];
      } else {
        aux := aux + [KV(sf.key, run.sha(sf.val))];
      }
    }
    assert staged[..|staged|] == staged;
    manifest := Obj(ManifestFields(rel, run, ByRegistry(rel.schemas, slices), Sort(aux)));
  }

  // ---------- archive ----------

  /** The manifest and its signature lead the archive. */
  function Heads(run: Run, text: string): seq<KV<string>> {
    [KV("MANIFEST.json", text), KV("MANIFEST.sig", run.sign(text) + "\n")]
  }

  function ArchiveOf(rel: Release, run: Run, st: State): seq<KV<string>>
    requires SlicesReady(st, rel.schemas)
  {
    var staged := Staged(rel, run, st);
    Heads(run, Print(CANONICAL, ManifestOf(rel, run, staged))) + Sort(staged)
  }

  method ExportState(rel: Release, run: Run, st: State) returns (archive: seq<KV<string>>)
    requires ValidState(rel, st)
    ensures archive == ArchiveOf(rel, run, st)
  {
    var staged := StageAll(rel, run, st);
    var manifest := BuildManifest(rel, run, staged);
    var text := Print(CANONICAL, manifest);
    archive := [KV("MANIFEST.json", text), KV("MANIFEST.sig", run.sign(text) + "\n")];
    archive := archive + Sort(staged);
  }
}
