/** Failed runs, repeated runs and retries: what one destination holds after any of them. */
module ImportRuns {
  import opened Wrappers
  import opened Sorting
  import opened Json
  import opened JsonRoundTrip
  import opened Jsonl
  import opened Export
  import opened Import
  import opened ImportSafety

  // ---------- one archive, any run ----------

  predicate NeverRaises(n: nat) { false }

  /** The real run in which no call raises and the replay reports no break. */
  function CleanRun(rel: Release, host: Host, archive: Archive): (seq<Call>, Result<Report>) {
    ImportRun(rel, host, archive, false, NeverRaises, 0, true)
  }

  lemma {:induction false} SlicesFollow(host: Host, archive: Archive, t: Infos, schemas: seq<string>,
                                        raises: nat -> bool, base: nat)
    ensures var p := Slices(host, archive, t, schemas, false, raises, base);
      var d := Slices(host, archive, t, schemas, false, NeverRaises, 0);
      p.calls <= d.calls && (p.error.None? ==> p == d)
  {
    if schemas != [] { SlicesFollow(host, archive, t, schemas[..|schemas| - 1], raises, base); }
  }

  lemma FinishFollows(p: Progress, d: Progress, aux: Result<seq<Call>>, archive: Archive,
                      raises: nat -> bool, base: nat, replayOk: bool)
    requires aux.Done? ==> |aux.value| == 4 && aux.value[3].WriteRefs?
    requires p.calls <= d.calls && (p.error.None? ==> p == d)
    ensures var run := Finish(p, aux, archive, false, raises, base, replayOk);
      var clean := Finish(d, aux, archive, false, NeverRaises, 0, true);
      run.0 <= clean.0 && (run.1.Done? ==> run == clean)
  {
    if p.error.None? && aux.Done? {
      AttemptedIsPrefix(raises, base + |p.calls|, aux.value);
      var made := AuxPhase(raises, base + |p.calls|, aux.value, replayOk).0;
      assert made <= aux.value + [Replay];
      assert p.calls + made <= p.calls + (aux.value + [Replay]);
    }
  }

  /**
   Whatever raises and wherever it starts, a run makes a prefix of the clean run's calls; if it
   succeeds it is the clean run.
   */
  lemma RunFollowsClean(rel: Release, host: Host, archive: Archive, raises: nat -> bool, base: nat, replayOk: bool)
    ensures var run := ImportRun(rel, host, archive, false, raises, base, replayOk);
      run.0 <= CleanRun(rel, host, archive).0 && (run.1.Done? ==> run == CleanRun(rel, host, archive))
  {
    if VerifiedTable(rel, host, archive).Some? {
      var t := VerifiedTable(rel, host, archive).value;
      SlicesFollow(host, archive, t, rel.schemas, raises, base);
      FinishFollows(Slices(host, archive, t, rel.schemas, false, raises, base),
                    Slices(host, archive, t, rel.schemas, false, NeverRaises, 0), AuxCalls(archive), archive, raises,
                      base, replayOk);
    }
  }

  // ---------- only the last call of a run can raise ----------

  lemma {:induction false} SlicesStopAtRaise(host: Host, archive: Archive, t: Infos, schemas: seq<string>,
                                             raises: nat -> bool, base: nat)
    ensures var p := Slices(host, archive, t, schemas, false, raises, base);
      && (p.calls != [] ==> Passes(raises, base, |p.calls| - 1))
      && (p.error.None? ==> Passes(raises, base, |p.calls|))
  {
    if schemas != [] { SlicesStopAtRaise(host, archive, t, schemas[..|schemas| - 1], raises, base); }
  }

  lemma {:induction false} AttemptedStopAtRaise(raises: nat -> bool, base: nat, calls: seq<Call>)
    ensures var made := Attempted(raises, base, calls);
      made != [] ==> Passes(raises, base, |made| - 1)
    decreases calls
  {
    if calls != [] && !raises(base) { AttemptedStopAtRaise(raises, base + 1, calls[1..]); }
  }

  lemma AuxStopsAtRaise(raises: nat -> bool, base: nat, planned: seq<Call>, replayOk: bool)
    ensures var made := AuxPhase(raises, base, planned, replayOk).0;
      made != [] ==> Passes(raises, base, |made| - 1)
  {
    AttemptedStopAtRaise(raises, base, planned);
  }

  lemma RunStopsAtRaise(rel: Release, host: Host, archive: Archive, raises: nat -> bool, base: nat, replayOk: bool)
    ensures var calls := ImportRun(rel, host, archive, false, raises, base, replayOk).0;
      calls != [] ==> Passes(raises, base, |calls| - 1)
  {
    if VerifiedTable(rel, host, archive).Some? {
      var t := VerifiedTable(rel, host, archive).value;
      SlicesStopAtRaise(host, archive, t, rel.schemas, raises, base);
      FinishStopsAtRaise(Slices(host, archive, t, rel.schemas, false, raises, base), AuxCalls(archive), archive,
        raises, base, replayOk);
    }
  }

  /** What the run calls behind the slices. */
  function AuxMade(p: Progress, aux: Result<seq<Call>>, raises: nat -> bool, base: nat, replayOk: bool): seq<Call> {
    if p.error.None? && aux.Done? then AuxPhase(raises, base + |p.calls|, aux.value, replayOk).0 else []
  }

  lemma FinishMakes(p: Progress, aux: Result<seq<Call>>, archive: Archive, raises: nat -> bool, base: nat,
                    replayOk: bool)
    requires aux.Done? ==> |aux.value| == 4 && aux.value[3].WriteRefs?
    ensures Finish(p, aux, archive, false, raises, base, replayOk).0 ==
      p.calls + AuxMade(p, aux, raises, base, replayOk)
  {
    assert p.calls + [] == p.calls;
  }

  lemma FinishStopsAtRaise(p: Progress, aux: Result<seq<Call>>, archive: Archive, raises: nat -> bool, base: nat,
                           replayOk: bool)
    requires aux.Done? ==> |aux.value| == 4 && aux.value[3].WriteRefs?
    requires (p.calls != [] ==> Passes(raises, base, |p.calls| - 1))
      && (p.error.None? ==> Passes(raises, base, |p.calls|))
    ensures var calls := Finish(p, aux, archive, false, raises, base, replayOk).0;
      calls != [] ==> Passes(raises, base, |calls| - 1)
  {
    FinishMakes(p, aux, archive, raises, base, replayOk);
    if p.error.None? && aux.Done? { AuxStopsAtRaise(raises, base + |p.calls|, aux.value, replayOk); }
  }

  /** Where only the last call can raise, what is kept is all of them or all but that one. */
  lemma KeptButLast(raises: nat -> bool, base: nat, calls: seq<Call>)
    requires calls != [] ==> Passes(raises, base, |calls| - 1)
    ensures Kept(raises, base, calls) ==
      if calls != [] && raises(base + |calls| - 1) then calls[..|calls| - 1] else calls
  {
    if calls != [] {
      var n := |calls| - 1;
      KeptAll(raises, base, calls[..n]);
      assert calls == calls[..n] + [calls[n]];
      assert calls[..n] + [] == calls[..n];
    }
  }

  // ---------- importing twice ----------

  /** What a run leaves of its calls is a prefix of the clean run's; all of them, if it succeeds. */
  lemma KeptFollowsClean(rel: Release, host: Host, archive: Archive, raises: nat -> bool, base: nat, replayOk: bool)
    ensures var run := ImportRun(rel, host, archive, false, raises, base, replayOk);
      && Kept(raises, base, run.0) <= CleanRun(rel, host, archive).0
      && (run.1.Done? ==> Kept(raises, base, run.0) == CleanRun(rel, host, archive).0)
  {
    var run := ImportRun(rel, host, archive, false, raises, base, replayOk);
    RunFollowsClean(rel, host, archive, raises, base, replayOk);
    RunStopsAtRaise(rel, host, archive, raises, base, replayOk);
    KeptButLast(raises, base, run.0);
    if run.1.Done? {
      ImportWritesPrefix(rel, host, archive, raises, base, replayOk);
      KeptAll(raises, base, run.0);
    }
  }

  /** Behind any part of the clean run, all of it leaves what it leaves alone. */
  lemma CleanRunHeals(rel: Release, host: Host, archive: Archive, pk: Json -> string, s: Store, kept: seq<Call>)
    requires DistinctStrings(rel.schemas) && kept <= CleanRun(rel, host, archive).0
    ensures ApplyAll(pk, ApplyAll(pk, s, kept), CleanRun(rel, host, archive).0) ==
      ApplyAll(pk, s, CleanRun(rel, host, archive).0)
  {
    CallsHaveDistinctTargets(rel, host, archive, NeverRaises, 0, true);
    PrefixHeals(pk, s, kept, CleanRun(rel, host, archive).0);
  }

  lemma PrefixHeals(pk: Json -> string, s: Store, kept: seq<Call>, calls: seq<Call>)
    requires DistinctTargets(calls) && kept <= calls
    ensures ApplyAll(pk, ApplyAll(pk, s, kept), calls) == ApplyAll(pk, s, calls)
  {
    ReimportIsNoOp(pk, s, calls, |kept|);
    assert kept == calls[..|kept|];
  }

  /** Two successful runs of one archive, whatever calls came before either: one run, and the second changes nothing. */
  lemma SecondImportSameState(rel: Release, host: Host, archive: Archive, pk: Json -> string, s: Store,
                              raises: nat -> bool, base: nat, replayOk: bool,
                              raises': nat -> bool, base': nat, replayOk': bool)
    requires DistinctStrings(rel.schemas)
    requires ImportRun(rel, host, archive, false, raises, base, replayOk).1.Done?
    requires ImportRun(rel, host, archive, false, raises', base', replayOk').1.Done?
    ensures var first := ImportRun(rel, host, archive, false, raises, base, replayOk);
      var second := ImportRun(rel, host, archive, false, raises', base', replayOk');
      first == second && ApplyAll(pk, ApplyAll(pk, s, first.0), second.0) == ApplyAll(pk, s, first.0)
  {
    RunFollowsClean(rel, host, archive, raises, base, replayOk);
    RunFollowsClean(rel, host, archive, raises', base', replayOk');
    CleanRunHeals(rel, host, archive, pk, s, CleanRun(rel, host, archive).0);
  }

  /** One real run, told by the clean run. */
  method ImportOnce(rel: Release, host: Host, archive: Archive, dest: Dest)
    returns (r: Result<Report>, ghost kept: seq<Call>)
    modifies dest
    ensures dest.store == ApplyAll(dest.pk, old(dest.store), kept) && kept <= CleanRun(rel, host, archive).0
    ensures r.Done? ==> (kept, r) == CleanRun(rel, host, archive)
  {
    ghost var base := |dest.calls|;
    r := ImportState(rel, host, archive, dest, false);
    RunFollowsClean(rel, host, archive, dest.raises, base, dest.replayOk);
    KeptFollowsClean(rel, host, archive, dest.raises, base, dest.replayOk);
    kept := Kept(dest.raises, base, ImportRun(rel, host, archive, false, dest.raises, base, dest.replayOk).0);
  }

  /**
   Importing the same archive twice into one destination; between is the store after the first
   run.  If both succeed the second changes nothing; wherever the first stopped, a second that
   succeeds leaves what one successful import leaves.
   */
  method ImportTwice(rel: Release, host: Host, archive: Archive, dest: Dest)
    returns (first: Result<Report>, second: Result<Report>, ghost between: Store)
    requires DistinctStrings(rel.schemas)
    modifies dest
    ensures first.Done? && second.Done? ==> first == second && dest.store == between
    ensures second.Done? ==> dest.store == ApplyAll(dest.pk, old(dest.store), CleanRun(rel, host, archive).0)
  {
    ghost var kept, kept';
    ghost var s := dest.store;
    first, kept := ImportOnce(rel, host, archive, dest);
    between := dest.store;
    second, kept' := ImportOnce(rel, host, archive, dest);
    CleanRunHeals(rel, host, archive, dest.pk, s, kept);
  }

  // ---------- what a failed run leaves ----------

  /** A replay that reports a break fails the run, and leaves everything a successful run writes. */
  lemma BrokenReplayKeepsWrites(rel: Release, host: Host, archive: Archive, raises: nat -> bool, base: nat)
    requires ImportRun(rel, host, archive, false, raises, base, true).1.Done?
    ensures var calls := ImportRun(rel, host, archive, false, raises, base, true).0;
      && ImportRun(rel, host, archive, false, raises, base, false) == (calls, Failed(AuditChainBreak))
      && Kept(raises, base, calls) == calls
  {
    ImportWritesPrefix(rel, host, archive, raises, base, true);
    KeptAll(raises, base, ImportRun(rel, host, archive, false, raises, base, true).0);
  }

  predicate WritesNothing(c: Call) { c.Replay? || (c.WriteRows? && c.rows == []) }

  /** The two stores answer every read alike. */
  ghost predicate SameContent(s: Store, t: Store) {
    && (forall schema :: Table(s, schema) == Table(t, schema))
    && s.yaml == t.yaml && s.license == t.license && s.charters == t.charters && s.refs == t.refs
  }

  const NOTHING := Store(map[], None, None, None, None)

  lemma {:induction false} NothingWritten(pk: Json -> string, s: Store, calls: seq<Call>)
    requires forall c :: c in calls ==> WritesNothing(c)
    ensures SameContent(ApplyAll(pk, s, calls), s)
    decreases calls
  {
    if calls != [] {
      assert WritesNothing(calls[0]);
      NothingWritten(pk, Apply(pk, s, calls[0]), calls[1..]);
    }
  }

  lemma {:induction false} UpsertKeepsKeys(pk: Json -> string, t: map<string, Json>, rows: seq<Json>)
    ensures t.Keys <= Upsert(pk, t, rows).Keys
    ensures rows != [] ==> Upsert(pk, t, rows) != map[]
    decreases rows
  {
    if rows != [] {
      UpsertKeepsKeys(pk, t[pk(rows[0]) := rows[0]], rows[1..]);
      assert pk(rows[0]) in Upsert(pk, t, rows);
    }
  }

  /** What is there stays there. */
  lemma SomethingStays(pk: Json -> string, s: Store, c: Call)
    requires !SameContent(s, NOTHING) || !WritesNothing(c)
    ensures !SameContent(Apply(pk, s, c), NOTHING)
  {
    if c.WriteRows? {
      UpsertKeepsKeys(pk, Table(s, c.schema), c.rows);
      assert Table(Apply(pk, s, c), c.schema) == Upsert(pk, Table(s, c.schema), c.rows);
    }
  }

  lemma {:induction false} SomethingWritten(pk: Json -> string, s: Store, calls: seq<Call>)
    requires !SameContent(s, NOTHING) || exists c :: c in calls && !WritesNothing(c)
    ensures !SameContent(ApplyAll(pk, s, calls), NOTHING)
    decreases calls
  {
    if calls != [] {
      if !SameContent(s, NOTHING) || !WritesNothing(calls[0]) {
        SomethingStays(pk, s, calls[0]);
      } else {
        var c :| c in calls && !WritesNothing(c);
        assert c in calls[1..];
      }
      SomethingWritten(pk, Apply(pk, s, calls[0]), calls[1..]);
    }
  }

  ghost predicate LeavesEveryStore(pk: Json -> string, calls: seq<Call>) {
    forall s :: SameContent(ApplyAll(pk, s, calls), s)
  }

  predicate NoneWrites(calls: seq<Call>) {
    calls == [] || (NoneWrites(calls[..|calls| - 1]) && WritesNothing(calls[|calls| - 1]))
  }

  lemma {:induction false} NoneWritesIff(calls: seq<Call>)
    ensures NoneWrites(calls) <==> forall c :: c in calls ==> WritesNothing(c)
  {
    if calls != [] {
      var n := |calls| - 1;
      NoneWritesIff(calls[..n]);
      assert calls == calls[..n] + [calls[n]];
    }
  }

  /** Calls leave every store as it was exactly when each of them writes nothing. */
  lemma UnchangedIff(pk: Json -> string, calls: seq<Call>)
    ensures LeavesEveryStore(pk, calls) <==> NoneWrites(calls)
  {
    NoneWritesIff(calls);
    if NoneWrites(calls) {
      forall s ensures SameContent(ApplyAll(pk, s, calls), s) { NothingWritten(pk, s, calls); }
    } else {
      SomethingWritten(pk, NOTHING, calls);
    }
  }

  /** A real run past the manifest is the loop over the slices and what follows it. */
  lemma RunIsFinish(rel: Release, host: Host, archive: Archive, t: Infos,
                    raises: nat -> bool, base: nat, replayOk: bool)
    requires Opened(rel, host, archive) == Result.Done(t)
    ensures var p := Slices(host, archive, t, rel.schemas, false, raises, base);
      && ImportRun(rel, host, archive, false, raises, base, replayOk)
           == Finish(p, AuxCalls(archive), archive, false, raises, base, replayOk)
      && (p.error.None? ==> |p.calls| == |rel.schemas|)
  {
    SlicesCount(host, archive, t, rel.schemas, raises, base);
  }

  /**
   Nothing is rolled back.  A real run past the manifest (see RunIsFinish; p is its loop over
   the slices) leaves every store as it was exactly when the slices it wrote were empty and it
   stopped before the first auxiliary write came through: at a slice, at an unreadable
   auxiliary file, or at that write.
   */
  lemma LeavesNothingIff(pk: Json -> string, p: Progress, aux: Result<seq<Call>>, archive: Archive,
                         raises: nat -> bool, base: nat, replayOk: bool)
    requires aux.Done? ==> |aux.value| == 4 && aux.value[0].WriteYaml? && aux.value[3].WriteRefs?
    ensures LeavesEveryStore(pk, Kept(raises, base, Finish(p, aux, archive, false, raises, base, replayOk).0)) <==>
      NoneWrites(Kept(raises, base, p.calls)) && (p.error.Some? || aux.Failed? || raises(base + |p.calls|))
  {
    UnchangedIff(pk, Kept(raises, base, Finish(p, aux, archive, false, raises, base, replayOk).0));
    FinishMakes(p, aux, archive, raises, base, replayOk);
    CallsWriteNothingIff(p, aux, raises, base, replayOk);
  }

  lemma CallsWriteNothingIff(p: Progress, aux: Result<seq<Call>>, raises: nat -> bool, base: nat, replayOk: bool)
    requires aux.Done? ==> |aux.value| == 4 && aux.value[0].WriteYaml?
    ensures NoneWrites(Kept(raises, base, p.calls + AuxMade(p, aux, raises, base, replayOk))) <==>
      NoneWrites(Kept(raises, base, p.calls)) && (p.error.Some? || aux.Failed? || raises(base + |p.calls|))
  {
    var made := AuxMade(p, aux, raises, base, replayOk);
    AuxMadeWrites(p, aux, raises, base, replayOk);
    SplitKept(raises, base, p.calls, made);
  }

  lemma SplitKept(raises: nat -> bool, base: nat, xs: seq<Call>, ys: seq<Call>)
    ensures NoneWrites(Kept(raises, base, xs + ys)) <==>
      NoneWrites(Kept(raises, base, xs)) && NoneWrites(Kept(raises, base + |xs|, ys))
  {
    KeptAppend(raises, base, xs, ys);
    SplitWrites(Kept(raises, base, xs), Kept(raises, base + |xs|, ys));
  }

  lemma {:induction false} SlicesCount(host: Host, archive: Archive, t: Infos, schemas: seq<string>,
                                       raises: nat -> bool, base: nat)
    ensures var p := Slices(host, archive, t, schemas, false, raises, base);
      p.error.None? ==> |p.calls| == |schemas|
  {
    if schemas != [] { SlicesCount(host, archive, t, schemas[..|schemas| - 1], raises, base); }
  }

  lemma SplitWrites(xs: seq<Call>, ys: seq<Call>)
    ensures NoneWrites(xs + ys) <==> NoneWrites(xs) && NoneWrites(ys)
  {
    NoneWritesIff(xs);
    NoneWritesIff(ys);
    NoneWritesIff(xs + ys);
    forall c ensures c in xs || c in ys ==> c in xs + ys {}
  }

  lemma AuxMadeWrites(p: Progress, aux: Result<seq<Call>>, raises: nat -> bool, base: nat, replayOk: bool)
    requires aux.Done? ==> |aux.value| == 4 && aux.value[0].WriteYaml?
    ensures NoneWrites(Kept(raises, base + |p.calls|, AuxMade(p, aux, raises, base, replayOk))) <==>
      p.error.Some? || aux.Failed? || raises(base + |p.calls|)
  {
    NoneWritesIff(Kept(raises, base + |p.calls|, AuxMade(p, aux, raises, base, replayOk)));
    if p.error.None? && aux.Done? { AuxKeepsYaml(raises, base + |p.calls|, aux.value, replayOk); }
  }

  /** The first auxiliary write is kept unless it raises, and then nothing is. */
  lemma AuxKeepsYaml(raises: nat -> bool, base: nat, planned: seq<Call>, replayOk: bool)
    requires |planned| == 4
    ensures var kept := Kept(raises, base, AuxPhase(raises, base, planned, replayOk).0);
      if raises(base) then kept == [] else planned[0] in kept
  {
    var made := AuxPhase(raises, base, planned, replayOk).0;
    AuxStopsAtRaise(raises, base, planned, replayOk);
    KeptButLast(raises, base, made);
    if raises(base) {
      assert !Passes(raises, base, 4);
      assert made == [planned[0]];
    } else {
      AttemptedIsPrefix(raises, base, planned);
      assert made[0] == planned[0];
      if |made| == 1 { assert !raises(base + |made| - 1); }
      assert Kept(raises, base, made)[0] == planned[0];
    }
  }

  // ---------- dry runs ----------

  lemma {:induction false} DrySlices(host: Host, archive: Archive, t: Infos, schemas: seq<string>,
                                     raises: nat -> bool, base: nat)
    ensures var p := Slices(host, archive, t, schemas, true, raises, base);
      var d := Slices(host, archive, t, schemas, false, NeverRaises, 0);
      p.calls == [] && p.error == d.error && p.counts == d.counts
  {
    if schemas != [] { DrySlices(host, archive, t, schemas[..|schemas| - 1], raises, base); }
  }

  /**
   A dry run calls nothing, and finds what a real run finds where nothing raises: the same error,
   or the same counts.
   */
  lemma DryRunPredicts(rel: Release, host: Host, archive: Archive, raises: nat -> bool, base: nat, replayOk: bool)
    ensures var dry := ImportRun(rel, host, archive, true, raises, base, replayOk);
      var clean := CleanRun(rel, host, archive).1;
      && dry.0 == []
      && (clean.Failed? ==> dry.1 == clean)
      && (clean.Done? ==> dry.1 == Result.Done(clean.value.(dryRun := true, auditOk := None)) && !clean.value.dryRun)
  {
    if Opened(rel, host, archive).Done? {
      var t := Opened(rel, host, archive).value;
      DrySlices(host, archive, t, rel.schemas, raises, base);
      DryFinish(Slices(host, archive, t, rel.schemas, true, raises, base),
                Slices(host, archive, t, rel.schemas, false, NeverRaises, 0),
                AuxCalls(archive), archive, raises, base, replayOk);
    }
  }

  lemma DryFinish(p: Progress, d: Progress, aux: Result<seq<Call>>, archive: Archive, raises: nat -> bool, base: nat,
                  replayOk: bool)
    requires aux.Done? ==> |aux.value| == 4 && aux.value[3].WriteRefs?
    requires p.calls == [] && p.error == d.error && p.counts == d.counts
    ensures var dry := Finish(p, aux, archive, true, raises, base, replayOk);
      var clean := Finish(d, aux, archive, false, NeverRaises, 0, true).1;
      && dry.0 == []
      && (clean.Failed? ==> dry.1 == clean)
      && (clean.Done? ==> dry.1 == Result.Done(clean.value.(dryRun := true, auditOk := None)) && !clean.value.dryRun)
  {}

  // ---------- the order of the checks ----------

  /** The manifest can be read, with these fields, and so can its signature. */
  ghost predicate Readable(host: Host, archive: Archive, text: string, signature: string, fields: seq<KV<Json>>) {
    && GetMember(archive, "MANIFEST.json") == Some(text)
    && Loads(text).Ok? && Loads(text).val == Obj(fields)
    && GetMember(archive, "MANIFEST.sig").Some?
    && host.decode(Strip(GetMember(archive, "MANIFEST.sig").value)) == Some(signature)
  }

  /** The signature is refused exactly behind a readable manifest of the supported manifest version. */
  lemma SignatureRefusedIff(rel: Release, host: Host, archive: Archive)
    ensures CheckManifest(rel, host, archive) == Failed(SignatureRefused) <==>
      exists text, signature, fields ::
        && Readable(host, archive, text, signature, fields)
        && ToInt(Field(fields, "manifest_version", Int(-1))) == Some(MANIFEST_VERSION)
        && !host.verify(text, signature, host.show(Field(fields, "signing_key_fingerprint", Str(""))))
  {
    if CheckManifest(rel, host, archive) == Failed(SignatureRefused) {
      var text := GetMember(archive, "MANIFEST.json").value;
      var signature := host.decode(Strip(GetMember(archive, "MANIFEST.sig").value)).value;
      assert Readable(host, archive, text, signature, Loads(text).val.fields);
    }
  }

  /** A manifest of another version is reported as that, whatever its signature is worth. */
  lemma VersionHidesSignature(rel: Release, host: Host, archive: Archive, text: string, signature: string,
                              fields: seq<KV<Json>>, version: int)
    requires Readable(host, archive, text, signature, fields) && version != MANIFEST_VERSION
    requires ToInt(Field(fields, "manifest_version", Int(-1))) == Some(version)
    ensures CheckManifest(rel, host, archive) == Failed(ManifestVersionMismatch)
  {}
}
