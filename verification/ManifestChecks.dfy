/** The compatibility window: from which releases an archive is imported, by places in the list of releases. */
module ManifestChecks {
  import opened Wrappers
  import opened Sorting
  import opened Json
  import opened Jsonl
  import opened Export
  import opened Import
  import opened ImportSafety
  import opened ImportRuns
  import opened Versions
  import opened ArchiveRoundTrip

  /** The release stands at place i of the list. */
  ghost predicate StandsAt(versions: seq<string>, v: string, i: int) {
    0 <= i < |versions| && versions[i] == v && forall k :: 0 <= k < i ==> versions[k] != v
  }

  /** The release the manifest names. */
  function SourceVersion(host: Host, fields: seq<KV<Json>>): string {
    host.show(Field(fields, "spine_version", Str("")))
  }

  /** The manifest can be read, is of the supported manifest version, and its signature is accepted. */
  ghost predicate Signed(host: Host, archive: Archive, text: string, signature: string, fields: seq<KV<Json>>) {
    && Readable(host, archive, text, signature, fields)
    && Field(fields, "manifest_version", Int(-1)) in [Int(1), Bool(true)]
    && host.verify(text, signature, host.show(Field(fields, "signing_key_fingerprint", Str(""))))
  }

  ghost predicate BothStand(rel: Release, host: Host, fields: seq<KV<Json>>, i: int, j: int) {
    StandsAt(rel.versions, SourceVersion(host, fields), i) && StandsAt(rel.versions, rel.current, j)
  }

  /** The source release is the current one or older, by no more than the window. */
  ghost predicate WithinWindow(rel: Release, host: Host, fields: seq<KV<Json>>) {
    exists i, j :: BothStand(rel, host, fields, i, j) && i <= j <= i + rel.window
  }

  lemma OnePlace(versions: seq<string>, v: string)
    ensures forall i, k :: StandsAt(versions, v, i) && StandsAt(versions, v, k) ==> i == k
    ensures v in versions <==> exists i :: StandsAt(versions, v, i)
  {
    if v in versions {
      assert StandsAt(versions, v, IndexOf(versions, v).value);
    }
  }

  /**
   Behind an accepted signature: the archive is refused as newer exactly when its release
   stands behind the current one, as unsupported exactly when one of the two is unknown or the
   current one is further ahead than the window, and accepted exactly within the window.
   */
  lemma WindowIff(rel: Release, host: Host, archive: Archive, text: string, signature: string, fields: seq<KV<Json>>)
    requires Signed(host, archive, text, signature, fields)
    ensures CheckManifest(rel, host, archive) == Failed(NewerSourceVersion) <==>
      exists i, j :: BothStand(rel, host, fields, i, j) && i > j
    ensures CheckManifest(rel, host, archive) == Failed(UnsupportedSourceVersion) <==>
      || SourceVersion(host, fields) !in rel.versions
      || rel.current !in rel.versions
      || exists i, j :: BothStand(rel, host, fields, i, j) && i <= j && j > i + rel.window
    ensures CheckManifest(rel, host, archive) == Result.Done(fields) <==> WithinWindow(rel, host, fields)
  {
    Gap(rel, host, archive, text, signature, fields);
    var src := SourceVersion(host, fields);
    OnePlace(rel.versions, src);
    OnePlace(rel.versions, rel.current);
    if src in rel.versions && rel.current in rel.versions {
      var i, j := IndexOf(rel.versions, src).value, IndexOf(rel.versions, rel.current).value;
      assert BothStand(rel, host, fields, i, j);
    }
  }

  lemma Gap(rel: Release, host: Host, archive: Archive, text: string, signature: string, fields: seq<KV<Json>>)
    requires Signed(host, archive, text, signature, fields)
    ensures CheckManifest(rel, host, archive) ==
      match VersionGap(rel.versions, SourceVersion(host, fields), rel.current)
      case None => Failed(UnsupportedSourceVersion)
      case Some(gap) =>
        if gap < 0 then Failed(NewerSourceVersion)
        else if gap > rel.window then Failed(UnsupportedSourceVersion)
        else Result.Done(fields)
  {}

  lemma AcceptedIsRead(rel: Release, host: Host, archive: Archive) returns (text: string, signature: string)
    requires CheckManifest(rel, host, archive).Done?
    ensures Signed(host, archive, text, signature, CheckManifest(rel, host, archive).value)
  {
    text := GetMember(archive, "MANIFEST.json").value;
    signature := host.decode(Strip(GetMember(archive, "MANIFEST.sig").value)).value;
  }

  lemma RunIsAccepted(rel: Release, host: Host, archive: Archive, dry: bool, raises: nat -> bool, base: nat,
                      replayOk: bool)
    requires var run := ImportRun(rel, host, archive, dry, raises, base, replayOk); run.0 != [] || run.1.Done?
    ensures CheckManifest(rel, host, archive).Done?
  {}

  /** Whatever a run did, dry or not, it did behind an accepted signature and within the window. */
  lemma OnlyWithinWindow(rel: Release, host: Host, archive: Archive, dry: bool, raises: nat -> bool, base: nat,
                         replayOk: bool)
    requires var run := ImportRun(rel, host, archive, dry, raises, base, replayOk); run.0 != [] || run.1.Done?
    ensures exists text, signature, fields ::
      Signed(host, archive, text, signature, fields) && WithinWindow(rel, host, fields)
  {
    RunIsAccepted(rel, host, archive, dry, raises, base, replayOk);
    var text, signature := AcceptedIsRead(rel, host, archive);
    WindowIff(rel, host, archive, text, signature, CheckManifest(rel, host, archive).value);
  }

  // ---------- reading the archive ----------

  /** Of several members of one name the last is read. */
  lemma {:induction false} GetMemberIsLast(archive: Archive, name: string)
    ensures GetMember(archive, name).None? <==> forall i :: 0 <= i < |archive| ==> archive[i].key != name
    ensures GetMember(archive, name).Some? ==>
      exists i :: LastMember(archive, name, i) && GetMember(archive, name).value == archive[i].val
  {
    if archive != [] {
      var n := |archive| - 1;
      if archive[n].key == name {
        assert LastMember(archive, name, n);
      } else {
        GetMemberIsLast(archive[..n], name);
        if i :| LastMember(archive[..n], name, i) && GetMember(archive, name) == Some(archive[..n][i].val) {
          assert LastMember(archive, name, i);
        }
      }
    }
  }

  ghost predicate LastMember(archive: Archive, name: string, i: int) {
    0 <= i < |archive| && archive[i].key == name && forall j :: i < j < |archive| ==> archive[j].key != name
  }

  /** Of several manifest entries for one schema the last counts. */
  lemma {:induction false} LastEntryCounts(items: seq<Json>, schema: string)
    requires SliceTable(items).Some?
    ensures var info := Lookup(SliceTable(items).value, schema);
      && (info.None? <==> forall i :: 0 <= i < |items| ==> !EntryFor(items, schema, i))
      && (info.Some? ==> exists i :: LastEntry(items, schema, i) && items[i] == Obj(info.value))
  {
    if items != [] {
      var n := |items| - 1;
      LastEntryCounts(items[..n], schema);
      forall i | 0 <= i < n ensures EntryFor(items[..n], schema, i) <==> EntryFor(items, schema, i) {}
      if EntryFor(items, schema, n) {
        LookupPut(SliceTable(items[..n]).value, KV(schema, items[n].fields), schema);
        assert LastEntry(items, schema, n);
      } else {
        OtherEntry(items, schema);
        var info := Lookup(SliceTable(items[..n]).value, schema);
        if i :| info.Some? && LastEntry(items[..n], schema, i) && items[..n][i] == Obj(info.value) {
          assert LastEntry(items, schema, i);
        }
      }
    }
  }

  lemma OtherEntry(items: seq<Json>, schema: string)
    requires items != [] && SliceTable(items).Some? && !EntryFor(items, schema, |items| - 1)
    ensures Lookup(SliceTable(items).value, schema) == Lookup(SliceTable(items[..|items| - 1]).value, schema)
  {
    var n := |items| - 1;
    var v := Lookup(items[n].fields, "schema").value;
    if v.Str? { LookupPut(SliceTable(items[..n]).value, KV(v.s, items[n].fields), schema); }
  }

  ghost predicate EntryFor(items: seq<Json>, schema: string, i: int) {
    0 <= i < |items| && items[i].Obj? && Lookup(items[i].fields, "schema") == Some(Str(schema))
  }

  ghost predicate LastEntry(items: seq<Json>, schema: string, i: int) {
    EntryFor(items, schema, i) && forall j :: i < j < |items| ==> !EntryFor(items, schema, j)
  }

  predicate IsPad(s: string) { forall i :: 0 <= i < |s| ==> s[i] in " \t\n\r\U{000B}\U{000C}" }

  /** Stripping takes white space off both ends and nothing else. */
  lemma {:induction false} StripMeaning(a: string, core: string, b: string)
    requires IsPad(a) && IsPad(b)
    requires core != [] && core[0] !in " \t\n\r\U{000B}\U{000C}" && core[|core| - 1] !in " \t\n\r\U{000B}\U{000C}"
    ensures Strip(a + core + b) == core
  {
    if a != [] {
      assert (a + core + b)[0] == a[0] && (a + core + b)[1..] == a[1..] + core + b;
      StripMeaning(a[1..], core, b);
    } else {
      assert a + core + b == core + b;
      StripEnd(core, b);
    }
  }

  lemma {:induction false} StripEnd(core: string, b: string)
    requires IsPad(b) && core != [] && core[|core| - 1] !in " \t\n\r\U{000B}\U{000C}"
    ensures StripRight(core + b) == core
  {
    if b == [] {
      assert core + b == core;
    } else {
      var n := |b| - 1;
      assert (core + b)[|core + b| - 1] == b[n] && (core + b)[..|core + b| - 1] == core + b[..n];
      StripEnd(core, b[..n]);
    }
  }

  // ---------- what an error says ----------

  /** The slice of that schema is there, and does not hash to what the manifest records. */
  ghost predicate HashDiffers(host: Host, archive: Archive, t: Infos, schema: string) {
    exists info, payload, recorded ::
      && Lookup(t, schema) == Some(info)
      && GetMember(archive, "schemas/" + schema + ".jsonl") == Some(payload)
      && Lookup(info, "content_sha256") == Some(recorded) && recorded != Str(host.sha(payload))
  }

  lemma CheckSliceTells(host: Host, archive: Archive, t: Infos, schema: string)
    ensures CheckSlice(host, archive, t, schema) == Failed(SliceHashMismatch(schema)) ==>
      HashDiffers(host, archive, t, schema)
    ensures CheckSlice(host, archive, t, schema).Failed? ==>
      CheckSlice(host, archive, t, schema).error in
        [SliceMissing(schema), SliceMissing("schemas/" + schema + ".jsonl"), SliceHashMismatch(schema), Uncaught]
    ensures CheckSlice(host, archive, t, schema) == Failed(SliceMissing(schema)) && schema != SchemaPath(schema) ==>
      Lookup(t, schema).None?
  {
    if CheckSlice(host, archive, t, schema) == Failed(SliceHashMismatch(schema)) {
      var info := Lookup(t, schema).value;
      var payload := GetMember(archive, SchemaPath(schema)).value;
      assert Lookup(info, "content_sha256").Some?;
      assert SchemaPath(schema) == "schemas/" + schema + ".jsonl";
    }
  }

  /** The error of the loop over the slices names what went wrong: a slice that differs, or the write that raised. */
  lemma {:induction false} SliceErrorTells(host: Host, archive: Archive, t: Infos, schemas: seq<string>,
                                           raises: nat -> bool, base: nat, x: string)
    ensures var p := Slices(host, archive, t, schemas, false, raises, base);
      && (p.error == Some(SliceHashMismatch(x)) ==> x in schemas && HashDiffers(host, archive, t, x))
      && (p.error == Some(DestWriteFailed(x)) ==>
            && x in schemas && p.calls != [] && raises(base + |p.calls| - 1)
            && p.calls[|p.calls| - 1].WriteRows? && p.calls[|p.calls| - 1].schema == x)
  {
    if schemas != [] {
      var n := |schemas| - 1;
      SliceErrorTells(host, archive, t, schemas[..n], raises, base, x);
      CheckSliceTells(host, archive, t, schemas[n]);
      assert schemas[n] in schemas;
    }
  }
}
