/** What an import can and cannot have done, wherever it stops. */
module ImportSafety {
  import opened Wrappers
  import opened Sorting
  import opened Json
  import opened Jsonl
  import opened Export
  import opened Import

  /** The slice table of the verified manifest. */
  function VerifiedTable(rel: Release, host: Host, archive: Archive): Option<Infos> {
    match Opened(rel, host, archive)
    case Failed(_) => None
    case Done(t) => Some(t)
  }

  /** The manifest text carries a signature the verifier accepts. */
  ghost predicate SignatureAccepted(host: Host, archive: Archive) {
    exists text, sig, signature, fields, rest ::
      && GetMember(archive, "MANIFEST.json") == Some(text)
      && GetMember(archive, "MANIFEST.sig") == Some(sig)
      && host.decode(Strip(sig)) == Some(signature)
      && Loads(text) == Ok(Obj(fields), rest)
      && host.verify(text, signature, host.show(Field(fields, "signing_key_fingerprint", Str(""))))
  }

  lemma AcceptedIsSigned(rel: Release, host: Host, archive: Archive)
    requires CheckManifest(rel, host, archive).Done?
    ensures SignatureAccepted(host, archive)
  {
    var text := GetMember(archive, "MANIFEST.json").value;
    var sig := GetMember(archive, "MANIFEST.sig").value;
    var signature := host.decode(Strip(sig)).value;
    var fields := CheckManifest(rel, host, archive).value;
    assert Loads(text) == Ok(Obj(fields), Loads(text).rest);
    assert host.verify(text, signature, host.show(Field(fields, "signing_key_fingerprint", Str(""))));
  }

  /** The destination is called only in a real run, and only after the manifest was verified. */
  lemma NothingWrittenBeforeVerification(rel: Release, host: Host, archive: Archive, dry: bool,
                                         raises: nat -> bool, base: nat, replayOk: bool)
    requires ImportRun(rel, host, archive, dry, raises, base, replayOk).0 != []
    ensures !dry && SignatureAccepted(host, archive) && VerifiedTable(rel, host, archive).Some?
  {
    AcceptedIsSigned(rel, host, archive);
    if dry {
      SlicesDryMakesNoCall(host, archive, VerifiedTable(rel, host, archive).value, rel.schemas, raises, base);
    }
  }

  /** Rows is what the slice of that schema holds, and the slice hashes to the manifest's value. */
  ghost predicate SliceHolds(host: Host, archive: Archive, t: Infos, schema: string, rows: seq<Json>) {
    exists info, payload ::
      && Lookup(t, schema) == Some(info)
      && GetMember(archive, SchemaPath(schema)) == Some(payload)
      && Lookup(info, "content_sha256") == Some(Str(host.sha(payload)))
      && ParseLines(SplitLines(payload)) == Some(rows)
  }

  lemma CheckSliceHolds(host: Host, archive: Archive, t: Infos, schema: string)
    requires CheckSlice(host, archive, t, schema).Done?
    ensures SliceHolds(host, archive, t, schema, CheckSlice(host, archive, t, schema).value)
  {
    var info := Lookup(t, schema).value;
    var payload := GetMember(archive, SchemaPath(schema)).value;
    assert Lookup(info, "content_sha256") == Some(Str(host.sha(payload)));
  }

  /** Call i writes slice i of the list. */
  ghost predicate WritesSlice(host: Host, archive: Archive, t: Infos, schemas: seq<string>, calls: seq<Call>, i: nat)
    requires i < |calls| && i < |schemas|
  {
    && calls[i].WriteRows?
    && calls[i].schema == schemas[i]
    && SliceHolds(host, archive, t, schemas[i], calls[i].rows)
  }

  lemma {:induction false} SlicesWritePrefix(host: Host, archive: Archive, t: Infos, schemas: seq<string>,
                                             raises: nat -> bool, base: nat)
    ensures var p := Slices(host, archive, t, schemas, false, raises, base);
      && |p.calls| <= |schemas|
      && (forall i :: 0 <= i < |p.calls| ==> WritesSlice(host, archive, t, schemas, p.calls, i))
      && (p.error.None? ==> |p.calls| == |schemas| && Passes(raises, base, |schemas|))
      && (p.error.None? ==> forall i :: 0 <= i < |schemas| ==> CheckSlice(host, archive, t, schemas[i]).Done?)
  {
    if schemas != [] {
      var n := |schemas| - 1;
      SlicesWritePrefix(host, archive, t, schemas[..n], raises, base);
      var q := Slices(host, archive, t, schemas[..n], false, raises, base);
      var p := Slices(host, archive, t, schemas, false, raises, base);
      forall i | 0 <= i < |p.calls| ensures WritesSlice(host, archive, t, schemas, p.calls, i) {
        if i < |q.calls| {
          assert WritesSlice(host, archive, t, schemas[..n], q.calls, i);
        } else {
          CheckSliceHolds(host, archive, t, schemas[n]);
        }
      }
      if p.error.None? {
        forall i | 0 <= i < |schemas| ensures CheckSlice(host, archive, t, schemas[i]).Done? {
          if i < n { assert CheckSlice(host, archive, t, schemas[..n][i]).Done?; }
        }
      }
    }
  }

  lemma {:induction false} AttemptedIsPrefix(raises: nat -> bool, base: nat, calls: seq<Call>)
    ensures Attempted(raises, base, calls) <= calls
    decreases calls
  {
    if calls != [] { AttemptedIsPrefix(raises, base + 1, calls[1..]); }
  }

  /**
   Wherever a real run stops, the calls are a prefix of: one write per slice in registry
   order, each of rows whose slice matched the verified manifest, then the four auxiliary
   writes and the replay, none of which is reached unless every slice write succeeded.
   */
  lemma ImportWritesPrefix(rel: Release, host: Host, archive: Archive,
                           raises: nat -> bool, base: nat, replayOk: bool)
    ensures var run := ImportRun(rel, host, archive, false, raises, base, replayOk);
      var n := |rel.schemas|;
      run.0 != [] ==>
        && VerifiedTable(rel, host, archive).Some?
        && (forall i :: 0 <= i < |run.0| && i < n ==>
              WritesSlice(host, archive, VerifiedTable(rel, host, archive).value, rel.schemas, run.0, i))
        && (|run.0| > n ==>
              && Passes(raises, base, n)
              && (forall i :: 0 <= i < n ==>
                    CheckSlice(host, archive, VerifiedTable(rel, host, archive).value, rel.schemas[i]).Done?)
              && AuxCalls(archive).Done?
              && run.0[n..] <= AuxCalls(archive).value + [Replay])
    ensures var run := ImportRun(rel, host, archive, false, raises, base, replayOk);
      run.1.Done? ==> |run.0| == |rel.schemas| + 5 && Passes(raises, base, |run.0|) && replayOk
  {
    var run := ImportRun(rel, host, archive, false, raises, base, replayOk);
    if run.0 != [] || run.1.Done? {
      var t := VerifiedTable(rel, host, archive).value;
      var p := Slices(host, archive, t, rel.schemas, false, raises, base);
      SlicesWritePrefix(host, archive, t, rel.schemas, raises, base);
      FinishCalls(p, AuxCalls(archive), archive, raises, base, replayOk);
      var n := |rel.schemas|;
      forall i | 0 <= i < |run.0| && i < n
        ensures WritesSlice(host, archive, t, rel.schemas, run.0, i)
      {
        assert i < |p.calls|;
        assert WritesSlice(host, archive, t, rel.schemas, p.calls, i);
      }
    }
  }

  lemma FinishCalls(p: Progress, aux: Result<seq<Call>>, archive: Archive, raises: nat -> bool, base: nat,
                    replayOk: bool)
    requires aux.Done? ==> |aux.value| == 4 && aux.value[3].WriteRefs?
    ensures var run := Finish(p, aux, archive, false, raises, base, replayOk);
      && p.calls <= run.0
      && (p.error.Some? ==> run.0 == p.calls && run.1.Failed?)
      && (|run.0| > |p.calls| ==> aux.Done? && run.0[|p.calls|..] <= aux.value + [Replay])
      && (run.1.Done? ==> |run.0| == |p.calls| + 5 && replayOk && Passes(raises, base + |p.calls|, 5))
  {
    if p.error.None? && aux.Done? {
      var b := base + |p.calls|;
      AttemptedIsPrefix(raises, b, aux.value);
      var made := AuxPhase(raises, b, aux.value, replayOk).0;
      assert made <= aux.value + [Replay];
      assert (p.calls + made)[|p.calls|..] == made;
    }
  }

  ghost predicate Injective(f: string -> string) {
    forall x, y :: f(x) == f(y) ==> x == y
  }

  /**
   With a collision-free hash, the manifest decides the rows: two archives with the same
   MANIFEST.json write the same rows for every slice both of them reach.
   */
  lemma ManifestDecidesRows(rel: Release, host: Host, a: Archive, b: Archive,
                            ra: nat -> bool, rb: nat -> bool, oka: bool, okb: bool, i: nat)
    requires Injective(host.sha)
    requires GetMember(a, "MANIFEST.json") == GetMember(b, "MANIFEST.json")
    requires i < |rel.schemas|
    requires i < |ImportRun(rel, host, a, false, ra, 0, oka).0|
    requires i < |ImportRun(rel, host, b, false, rb, 0, okb).0|
    ensures ImportRun(rel, host, a, false, ra, 0, oka).0[i] == ImportRun(rel, host, b, false, rb, 0, okb).0[i]
  {
    ImportWritesPrefix(rel, host, a, ra, 0, oka);
    ImportWritesPrefix(rel, host, b, rb, 0, okb);
    SameManifestSameTable(rel, host, a, b);
    var t := VerifiedTable(rel, host, a).value;
    var ca, cb := ImportRun(rel, host, a, false, ra, 0, oka).0, ImportRun(rel, host, b, false, rb, 0, okb).0;
    assert WritesSlice(host, a, t, rel.schemas, ca, i);
    assert WritesSlice(host, b, t, rel.schemas, cb, i);
    SameHashSameRows(host, a, b, t, rel.schemas[i], ca[i].rows, cb[i].rows);
  }

  lemma SameManifestSameTable(rel: Release, host: Host, a: Archive, b: Archive)
    requires GetMember(a, "MANIFEST.json") == GetMember(b, "MANIFEST.json")
    requires VerifiedTable(rel, host, a).Some? && VerifiedTable(rel, host, b).Some?
    ensures VerifiedTable(rel, host, a) == VerifiedTable(rel, host, b)
  {}

  lemma SameHashSameRows(host: Host, a: Archive, b: Archive, t: Infos, schema: string,
                         xs: seq<Json>, ys: seq<Json>)
    requires Injective(host.sha)
    requires SliceHolds(host, a, t, schema, xs) && SliceHolds(host, b, t, schema, ys)
    ensures xs == ys
  {
    var info, p :| Lookup(t, schema) == Some(info) && GetMember(a, SchemaPath(schema)) == Some(p)
      && Lookup(info, "content_sha256") == Some(Str(host.sha(p))) && ParseLines(SplitLines(p)) == Some(xs);
    var info', q :| Lookup(t, schema) == Some(info') && GetMember(b, SchemaPath(schema)) == Some(q)
      && Lookup(info', "content_sha256") == Some(Str(host.sha(q))) && ParseLines(SplitLines(q)) == Some(ys);
    assert host.sha(p) == host.sha(q);
  }

  // ---------- importing again ----------

  /** The two calls write the same place of the store. */
  predicate SameTarget(c: Call, d: Call) {
    match c
    case WriteRows(s, _) => d.WriteRows? && d.schema == s
    case WriteYaml(_) => d.WriteYaml?
    case WriteLicense(_) => d.WriteLicense?
    case WriteCharters(_) => d.WriteCharters?
    case WriteRefs(_) => d.WriteRefs?
    case Replay => d.Replay?
  }

  ghost predicate DistinctTargets(calls: seq<Call>) {
    forall i, j :: 0 <= i < j < |calls| ==> !SameTarget(calls[i], calls[j])
  }

  lemma {:induction false} UpsertMerges(pk: Json -> string, t: map<string, Json>, rows: seq<Json>)
    ensures Upsert(pk, t, rows) == t + Upsert(pk, map[], rows)
    decreases rows
  {
    if rows != [] {
      var k, row := pk(rows[0]), rows[0];
      UpsertMerges(pk, t[k := row], rows[1..]);
      UpsertMerges(pk, map[k := row], rows[1..]);
      assert map[][k := row] == map[k := row];
      var r := Upsert(pk, map[], rows[1..]);
      assert t[k := row] + r == t + (map[k := row] + r);
    }
  }

  ghost predicate LastWithKey(pk: Json -> string, rows: seq<Json>, key: string, i: int) {
    0 <= i < |rows| && pk(rows[i]) == key && forall j :: i < j < |rows| ==> pk(rows[j]) != key
  }

  /** The last row with a key is the one the table holds; other keys are left alone. */
  lemma {:induction false} UpsertLastWins(pk: Json -> string, t: map<string, Json>, rows: seq<Json>, key: string)
    ensures var u := Upsert(pk, t, rows);
      if exists i :: 0 <= i < |rows| && pk(rows[i]) == key
      then key in u && exists i :: LastWithKey(pk, rows, key, i) && u[key] == rows[i]
      else (key in u <==> key in t) && (key in t ==> u[key] == t[key])
    decreases rows
  {
    if rows != [] {
      var t', rest := t[pk(rows[0]) := rows[0]], rows[1..];
      UpsertLastWins(pk, t', rest, key);
      var u := Upsert(pk, t, rows);
      if i :| 0 <= i < |rest| && pk(rest[i]) == key {
        var k :| LastWithKey(pk, rest, key, k) && u[key] == rest[k];
        assert rows[k + 1] == rest[k] && rows[i + 1] == rest[i];
        forall j | k + 1 < j < |rows| ensures pk(rows[j]) != key { assert rows[j] == rest[j - 1]; }
        assert LastWithKey(pk, rows, key, k + 1);
      } else {
        forall j | 0 < j < |rows| ensures pk(rows[j]) != key { assert rows[j] == rest[j - 1]; }
        if pk(rows[0]) == key { assert LastWithKey(pk, rows, key, 0); }
      }
    }
  }

  lemma ApplyTwice(pk: Json -> string, s: Store, c: Call)
    ensures Apply(pk, Apply(pk, s, c), c) == Apply(pk, s, c)
  {
    if c.WriteRows? {
      var t := Table(s, c.schema);
      var u := Upsert(pk, t, c.rows);
      UpsertMerges(pk, t, c.rows);
      UpsertMerges(pk, u, c.rows);
      assert u + Upsert(pk, map[], c.rows) == u;
      var once := Apply(pk, s, c);
      assert Table(once, c.schema) == u;
      assert once.tables[c.schema := u] == once.tables;
    }
  }

  lemma ApplyCommutes(pk: Json -> string, s: Store, c: Call, d: Call)
    requires !SameTarget(c, d)
    ensures Apply(pk, Apply(pk, s, c), d) == Apply(pk, Apply(pk, s, d), c)
  {
    if c.WriteRows? && d.WriteRows? {
      var u, v := Upsert(pk, Table(s, c.schema), c.rows), Upsert(pk, Table(s, d.schema), d.rows);
      assert Table(Apply(pk, s, c), d.schema) == Table(s, d.schema);
      assert Table(Apply(pk, s, d), c.schema) == Table(s, c.schema);
      assert s.tables[c.schema := u][d.schema := v] == s.tables[d.schema := v][c.schema := u];
    }
  }

  lemma {:induction false} ApplyAllAbsorbs(pk: Json -> string, s: Store, c: Call, calls: seq<Call>)
    requires DistinctTargets(calls) && c in calls
    ensures ApplyAll(pk, Apply(pk, s, c), calls) == ApplyAll(pk, s, calls)
    decreases calls
  {
    var d := calls[0];
    if d == c {
      ApplyTwice(pk, s, c);
    } else {
      assert c in calls[1..];
      var i :| 0 <= i < |calls[1..]| && calls[1..][i] == c;
      assert !SameTarget(calls[0], calls[i + 1]);
      ApplyCommutes(pk, s, d, c);
      ApplyAllAbsorbs(pk, Apply(pk, s, d), c, calls[1..]);
    }
  }

  /** Importing after the same import got k calls far leaves the state of one import. */
  lemma {:induction false} ReimportIsNoOp(pk: Json -> string, s: Store, calls: seq<Call>, k: nat)
    requires DistinctTargets(calls) && k <= |calls|
    ensures ApplyAll(pk, ApplyAll(pk, s, calls[..k]), calls) == ApplyAll(pk, s, calls)
  {
    if k > 0 {
      assert calls[..k] == calls[..k - 1] + [calls[k - 1]];
      ApplyAllSnoc(pk, s, calls[..k - 1], calls[k - 1]);
      ApplyAllAbsorbs(pk, ApplyAll(pk, s, calls[..k - 1]), calls[k - 1], calls);
      ReimportIsNoOp(pk, s, calls, k - 1);
    }
  }

  lemma CallsHaveDistinctTargets(rel: Release, host: Host, archive: Archive,
                                 raises: nat -> bool, base: nat, replayOk: bool)
    requires DistinctStrings(rel.schemas)
    ensures DistinctTargets(ImportRun(rel, host, archive, false, raises, base, replayOk).0)
  {
    var calls := ImportRun(rel, host, archive, false, raises, base, replayOk).0;
    ImportWritesPrefix(rel, host, archive, raises, base, replayOk);
    if |calls| > |rel.schemas| { AuxShape(archive); }
    forall i | 0 <= i < |calls| && i < |rel.schemas| ensures calls[i].WriteRows? && calls[i].schema == rel.schemas[i] {
      assert WritesSlice(host, archive, VerifiedTable(rel, host, archive).value, rel.schemas, calls, i);
    }
    PlacesAreDistinct(rel.schemas, calls, if |calls| > |rel.schemas| then AuxCalls(archive).value else []);
  }

  lemma PlacesAreDistinct(schemas: seq<string>, calls: seq<Call>, aux: seq<Call>)
    requires DistinctStrings(schemas)
    requires forall i :: 0 <= i < |calls| && i < |schemas| ==> calls[i].WriteRows? && calls[i].schema == schemas[i]
    requires |calls| > |schemas| ==>
      && |aux| == 4 && aux[0].WriteYaml? && aux[1].WriteLicense? && aux[2].WriteCharters? && aux[3].WriteRefs?
      && calls[|schemas|..] <= aux + [Replay]
    ensures DistinctTargets(calls)
  {
    var n := |schemas|;
    forall i, j | 0 <= i < j < |calls| ensures !SameTarget(calls[i], calls[j]) {
      if j >= n {
        var planned := aux + [Replay];
        assert calls[j] == calls[n..][j - n] == planned[j - n];
        if i >= n { assert calls[i] == calls[n..][i - n] == planned[i - n]; }
      }
    }
  }

  lemma AuxShape(archive: Archive)
    requires AuxCalls(archive).Done?
    ensures var a := AuxCalls(archive).value;
      |a| == 4 && a[0].WriteYaml? && a[1].WriteLicense? && a[2].WriteCharters? && a[3].WriteRefs?
  {}
}
