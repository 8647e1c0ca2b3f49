/**
 `import_state`: the fixed chain of checks, then one write per schema slice, the
 auxiliary writes, and the audit replay.  The destination may raise at any call.
 */
module Import {
  import opened Wrappers
  import opened Sorting
  import opened Json
  import opened JsonRoundTrip
  import opened Jsonl
  import opened Export
  import opened Versions

  /** Uncaught stands for a Python exception that is not an `ImportError`. */
  datatype ImportError =
    | ManifestMalformed
    | SignatureMissing
    | ManifestVersionMismatch
    | SignatureRefused
    | UnsupportedSourceVersion
    | NewerSourceVersion
    | SliceMissing(name: string)
    | SliceHashMismatch(schema: string)
    | DestWriteFailed(what: string)
    | AuditChainBreak
    | Uncaught

  /** The manifest's slice entries by schema. */
  type Infos = seq<KV<seq<KV<Json>>>>

  datatype Result<T> = Done(value: T) | Failed(error: ImportError)

  /** verify(manifest text, signature, fingerprint) also compares the fingerprint. */
  datatype Host = Host(
    show: Json -> string,
    sha: string -> string,
    decode: string -> Option<string>,
    verify: (string, string, string) -> bool)

  // ---------- the destination ----------

  datatype Call =
    | WriteRows(schema: string, rows: seq<Json>)
    | WriteYaml(text: string)
    | WriteLicense(envelope: Json)
    | WriteCharters(charters: seq<KV<string>>)
    | WriteRefs(paths: seq<Json>)
    | Replay

  /** Tables keyed by primary key, and the auxiliary state. */
  datatype Store = Store(
    tables: map<string, map<string, Json>>,
    yaml: Option<string>,
    license: Option<Json>,
    charters: Option<seq<KV<string>>>,
    refs: Option<seq<Json>>)

  function Upsert(pk: Json -> string, t: map<string, Json>, rows: seq<Json>): map<string, Json>
    decreases rows
  {
    if rows == [] then t else Upsert(pk, t[pk(rows[0]) := rows[0]], rows[1..])
  }

  function Table(s: Store, schema: string): map<string, Json> {
    if schema in s.tables then s.tables[schema] else map[]
  }

  function Apply(pk: Json -> string, s: Store, c: Call): Store {
    match c
    case WriteRows(schema, rows) => s.(tables := s.tables[schema := Upsert(pk, Table(s, schema), rows)])
    case WriteYaml(text) => s.(yaml := Some(text))
    case WriteLicense(envelope) => s.(license := Some(envelope))
    case WriteCharters(charters) => s.(charters := Some(charters))
    case WriteRefs(paths) => s.(refs := Some(paths))
    case Replay => s
  }

  function ApplyAll(pk: Json -> string, s: Store, calls: seq<Call>): Store
    decreases calls
  {
    if calls == [] then s else ApplyAll(pk, Apply(pk, s, calls[0]), calls[1..])
  }

  /** What a destination keeps of the calls made from its base-th on: all but those that raise. */
  function Kept(raises: nat -> bool, base: nat, calls: seq<Call>): seq<Call> {
    if calls == [] then []
    else
      var n := |calls| - 1;
      Kept(raises, base, calls[..n]) + (if raises(base + n) then [] else [calls[n]])
  }

  lemma KeptSnoc(raises: nat -> bool, base: nat, calls: seq<Call>, c: Call)
    ensures Kept(raises, base, calls + [c]) == Kept(raises, base, calls) + (if raises(base + |calls|) then [] else [c])
  {
    assert (calls + [c])[..|calls|] == calls;
  }

  lemma {:induction false} KeptAppend(raises: nat -> bool, base: nat, xs: seq<Call>, ys: seq<Call>)
    ensures Kept(raises, base, xs + ys) == Kept(raises, base, xs) + Kept(raises, base + |xs|, ys)
  {
    if ys == [] {
      assert xs + ys == xs;
    } else {
      var n := |ys| - 1;
      var init, y := ys[..n], ys[n];
      KeptAppend(raises, base, xs, init);
      KeptSnoc(raises, base, xs + init, y);
      KeptSnoc(raises, base + |xs|, init, y);
      assert ys == init + [y];
      Regroup(xs, init, [y]);
      Regroup(Kept(raises, base, xs), Kept(raises, base + |xs|, init), if raises(base + |xs| + n) then [] else [y]);
    }
  }

  lemma Regroup(a: seq<Call>, b: seq<Call>, c: seq<Call>)
    ensures a + (b + c) == (a + b) + c
  {}

  /** What two phases leave, one after the other. */
  lemma KeptJoin(pk: Json -> string, raises: nat -> bool, base: nat, s: Store, xs: seq<Call>, ys: seq<Call>)
    ensures ApplyAll(pk, s, Kept(raises, base, xs + ys)) ==
      ApplyAll(pk, ApplyAll(pk, s, Kept(raises, base, xs)), Kept(raises, base + |xs|, ys))
  {
    KeptAppend(raises, base, xs, ys);
    ApplyAllAppend(pk, s, Kept(raises, base, xs), Kept(raises, base + |xs|, ys));
  }

  lemma {:induction false} KeptAll(raises: nat -> bool, base: nat, calls: seq<Call>)
    requires Passes(raises, base, |calls|)
    ensures Kept(raises, base, calls) == calls
  {
    if calls != [] {
      var n := |calls| - 1;
      KeptAll(raises, base, calls[..n]);
      assert !raises(base + n) && calls == calls[..n] + [calls[n]];
    }
  }

  /** One more call: what the store holds next. */
  lemma KeptNext(pk: Json -> string, raises: nat -> bool, base: nat, s: Store, calls: seq<Call>, c: Call)
    ensures ApplyAll(pk, s, Kept(raises, base, calls + [c])) ==
      var t := ApplyAll(pk, s, Kept(raises, base, calls));
      if raises(base + |calls|) then t else Apply(pk, t, c)
  {
    KeptSnoc(raises, base, calls, c);
    assert Kept(raises, base, calls) + [] == Kept(raises, base, calls);
    ApplyAllSnoc(pk, s, Kept(raises, base, calls), c);
  }

  /** raises(n) says whether the n-th call made on this destination raises; a raising call stores nothing. */
  class Dest {
    const pk: Json -> string
    const raises: nat -> bool
    const replayOk: bool
    var calls: seq<Call>
    var store: Store

    constructor (pk: Json -> string, raises: nat -> bool, replayOk: bool, store: Store)
      ensures this.pk == pk && this.raises == raises && this.replayOk == replayOk
      ensures calls == [] && this.store == store
    {
      this.pk, this.raises, this.replayOk := pk, raises, replayOk;
      this.calls, this.store := [], store;
    }

    method Perform(c: Call) returns (ok: bool)
      modifies this
      ensures calls == old(calls) + [c]
      ensures ok == !raises(|old(calls)|)
      ensures store == if ok then Apply(pk, old(store), c) else old(store)
    {
      ok := !raises(|calls|);
      calls := calls + [c];
      if ok { store := Apply(pk, store, c); }
    }
  }

  // ---------- reading the archive ----------

  /** `tar.getmember`: the last member of that name. */
  function GetMember(archive: Archive, name: string): Option<string> {
    if archive == [] then None
    else
      var n := |archive| - 1;
      if archive[n].key == name then Some(archive[n].val) else GetMember(archive[..n], name)
  }

  function StripLeft(s: string): string {
    if s != [] && s[0] in " \t\n\r\U{000B}\U{000C}" then StripLeft(s[1..]) else s
  }

  function StripRight(s: string): string {
    if s != [] && s[|s| - 1] in " \t\n\r\U{000B}\U{000C}" then StripRight(s[..|s| - 1]) else s
  }

  function Strip(s: string): string { StripRight(StripLeft(s)) }

  function Field(fields: seq<KV<Json>>, key: string, default: Json): Json {
    match Lookup(fields, key)
    case Some(v) => v
    case None => default
  }

  /** `int(...)`; digit strings and every other value end in an uncaught exception here. */
  function ToInt(v: Json): Option<int> {
    match v
    case Int(n) => Some(n)
    case Bool(b) => Some(if b then 1 else 0)
    case _ => None
  }

  /** What a `for` loop over the value visits; None when it is not iterable. */
  function Items(v: Json): Option<seq<Json>> {
    match v
    case Arr(items) => Some(items)
    case Str(s) => Some(seq(|s|, i requires 0 <= i < |s| => Str([s[i]])))
    case Obj(fields) => Some(seq(|fields|, i requires 0 <= i < |fields| => Str(fields[i].key)))
    case _ => None
  }

  function VersionGap(versions: seq<string>, src: string, dst: string): Option<int> {
    match (IndexOf(versions, src), IndexOf(versions, dst))
    case (Some(i), Some(j)) =>
      var gap: int := j;
      Some(gap - i)
    case _ => None
  }

  /** The checks on the manifest: signature, manifest version, source version. */
  function CheckManifest(rel: Release, host: Host, archive: Archive): Result<seq<KV<Json>>> {
    match GetMember(archive, "MANIFEST.json")
    case None => Failed(SliceMissing("MANIFEST.json"))
    case Some(text) =>
      match Loads(text)
      case Fail => Failed(ManifestMalformed)
      case Ok(manifest, _) =>
        match GetMember(archive, "MANIFEST.sig")
        case None => Failed(SliceMissing("MANIFEST.sig"))
        case Some(sig) =>
          match host.decode(Strip(sig))
          case None => Failed(SignatureMissing)
          case Some(signature) =>
            if !manifest.Obj? then Failed(Uncaught)
            else
              var fields := manifest.fields;
              match ToInt(Field(fields, "manifest_version", Int(-1)))
              case None => Failed(Uncaught)
              case Some(mv) =>
                if mv != MANIFEST_VERSION then Failed(ManifestVersionMismatch)
                else if !host.verify(text, signature, host.show(Field(fields, "signing_key_fingerprint", Str("")))) then
                  Failed(SignatureRefused)
                else
                  match VersionGap(rel.versions, host.show(Field(fields, "spine_version", Str(""))), rel.current)
                  case None => Failed(UnsupportedSourceVersion)
                  case Some(gap) =>
                    if gap < 0 then Failed(NewerSourceVersion)
                    else if gap > rel.window then Failed(UnsupportedSourceVersion)
                    else Done(fields)
  }

  /** `{s["schema"]: s for s in items}`, keeping the string keys; None when an entry raises. */
  function SliceTable(items: seq<Json>): Option<Infos> {
    if items == [] then Some([])
    else
      var n := |items| - 1;
      match SliceTable(items[..n])
      case None => None
      case Some(t) =>
        if !items[n].Obj? then None
        else
          match Lookup(items[n].fields, "schema")
          case None => None
          case Some(v) =>
            if v.Str? then Some(Put(t, KV(v.s, items[n].fields)))
            else if v.Arr? || v.Obj? then None
            else Some(t)
  }

  /** Everything before the first slice: the verified manifest's slice table. */
  function Opened(rel: Release, host: Host, archive: Archive): Result<Infos> {
    match CheckManifest(rel, host, archive)
    case Failed(e) => Failed(e)
    case Done(fields) =>
      match Items(Field(fields, "schemas", Arr([])))
      case None => Failed(Uncaught)
      case Some(items) =>
        match SliceTable(items)
        case None => Failed(Uncaught)
        case Some(t) => Done(t)
  }

  /** One slice: present, hashing to the manifest's value, and JSONL. */
  function CheckSlice(host: Host, archive: Archive, t: Infos, schema: string): Result<seq<Json>> {
    match Lookup(t, schema)
    case None => Failed(SliceMissing(schema))
    case Some(info) =>
      match GetMember(archive, SchemaPath(schema))
      case None => Failed(SliceMissing(SchemaPath(schema)))
      case Some(payload) =>
        match Lookup(info, "content_sha256")
        case None => Failed(Uncaught)
        case Some(expected) =>
          if !expected.Str? && !expected.Arr? then Failed(Uncaught)  // the message slices the value
          else if expected != Str(host.sha(payload)) then Failed(SliceHashMismatch(schema))
          else
            match ParseLines(SplitLines(payload))
            case None => Failed(Uncaught)
            case Some(rows) => Done(rows)
  }

  predicate IsCharterPath(path: string) { StartsWith(path, "charters/") && EndsWith(path, ".md") }

  /** `{role: text}` over the members `charters/<role>.md`; a later member wins. */
  function Charters(archive: Archive): seq<KV<string>> {
    if archive == [] then []
    else
      var n := |archive| - 1;
      var d := Charters(archive[..n]);
      if IsCharterPath(archive[n].key) then Put(d, KV(Middle(archive[n].key, 9, 3), archive[n].val)) else d
  }

  /** The auxiliary writes, in order. */
  function AuxCalls(archive: Archive): (r: Result<seq<Call>>)
    ensures r.Done? ==> |r.value| == 4 && r.value[0].WriteYaml? && r.value[3].WriteRefs?
    ensures r.Done? ==> forall i :: 0 <= i < 4 ==> !r.value[i].WriteRows?
  {
    match (GetMember(archive, "bundle/org.yaml"), GetMember(archive, "bundle/license.json"),
      GetMember(archive, "vault_refs.json"))
    case (None, _, _) => Failed(SliceMissing("bundle/org.yaml"))
    case (Some(_), None, _) => Failed(SliceMissing("bundle/license.json"))
    case (Some(yaml), Some(license), refs) =>
      match Loads(license)
      case Fail => Failed(Uncaught)
      case Ok(envelope, _) =>
        if refs.None? then Failed(SliceMissing("vault_refs.json"))
        else
          match Loads(refs.value)
          case Fail => Failed(Uncaught)
          case Ok(v, _) =>
            if !v.Obj? then Failed(Uncaught)
            else
              match Items(Field(v.fields, "paths", Arr([])))
              case None => Failed(Uncaught)
              case Some(paths) =>
                Done([WriteYaml(yaml), WriteLicense(envelope), WriteCharters(Charters(archive)), WriteRefs(paths)])
  }

  // ---------- what a run does ----------

  datatype Report = Report(dryRun: bool, rowCounts: seq<KV<nat>>, charters: nat, paths: nat, auditOk: Option<bool>)

  /** Calls made so far, the counts reported so far, and the error that stopped the run, if any. */
  datatype Progress = Progress(calls: seq<Call>, counts: seq<KV<nat>>, error: Option<ImportError>)

  function SliceStep(p: Progress, c: Result<seq<Json>>, schema: string, dry: bool, raises: nat -> bool, base: nat)
    : Progress
  {
    match c
    case Failed(e) => p.(error := Some(e))
    case Done(rows) =>
      if dry then p.(counts := p.counts + [KV(schema, |rows|)])
      else
        var q := p.(calls := p.calls + [WriteRows(schema, rows)]);
        if raises(base + |p.calls|) then q.(error := Some(DestWriteFailed(schema)))
        else q.(counts := p.counts + [KV(schema, |rows|)])
  }

  /** The loop over the first n schemas. */
  function Slices(host: Host, archive: Archive, t: Infos, schemas: seq<string>,
                  dry: bool, raises: nat -> bool, base: nat): Progress
  {
    if schemas == [] then Progress([], [], None)
    else
      var n := |schemas| - 1;
      var p := Slices(host, archive, t, schemas[..n], dry, raises, base);
      if p.error.Some? then p else SliceStep(p, CheckSlice(host, archive, t, schemas[n]), schemas[n], dry, raises, base)
  }

  /** The calls actually made of a planned list: up to and including the first that raises. */
  function Attempted(raises: nat -> bool, base: nat, calls: seq<Call>): seq<Call>
    decreases calls
  {
    if calls == [] then []
    else if raises(base) then [calls[0]]
    else [calls[0]] + Attempted(raises, base + 1, calls[1..])
  }

  predicate Passes(raises: nat -> bool, base: nat, n: nat) {
    forall i :: base <= i < base + n ==> !raises(i)
  }

  /** The auxiliary writes and the replay, which is one more call; raising and reporting a break are the same error. */
  function AuxPhase(raises: nat -> bool, base: nat, planned: seq<Call>, replayOk: bool)
    : (seq<Call>, Option<ImportError>)
  {
    if !Passes(raises, base, |planned|) then (Attempted(raises, base, planned), Some(DestWriteFailed("aux")))
    else if raises(base + |planned|) || !replayOk then (planned + [Replay], Some(AuditChainBreak))
    else (planned + [Replay], None)
  }

  function Finish(p: Progress, aux: Result<seq<Call>>, archive: Archive, dry: bool,
                  raises: nat -> bool, base: nat, replayOk: bool): (seq<Call>, Result<Report>)
    requires aux.Done? ==> |aux.value| == 4 && aux.value[3].WriteRefs?
  {
    if p.error.Some? then (p.calls, Failed(p.error.value))
    else
      match aux
      case Failed(e) => (p.calls, Failed(e))
      case Done(planned) =>
        var charters, paths := |Charters(archive)|, |planned[3].paths|;
        if dry then (p.calls, Done(Report(true, p.counts, charters, paths, None)))
        else
          var (made, error) := AuxPhase(raises, base + |p.calls|, planned, replayOk);
          if error.Some? then (p.calls + made, Failed(error.value))
          else (p.calls + made, Done(Report(false, p.counts, charters, paths, Some(true))))
  }

  function ImportRun(rel: Release, host: Host, archive: Archive, dry: bool,
                     raises: nat -> bool, base: nat, replayOk: bool): (seq<Call>, Result<Report>)
  {
    match Opened(rel, host, archive)
    case Failed(e) => ([], Failed(e))
    case Done(t) =>
      var p := Slices(host, archive, t, rel.schemas, dry, raises, base);
      Finish(p, AuxCalls(archive), archive, dry, raises, base, replayOk)
  }

  lemma {:induction false} SlicesStop(host: Host, archive: Archive, t: Infos, schemas: seq<string>,
                                      dry: bool, raises: nat -> bool, base: nat, n: nat)
    requires n <= |schemas| && Slices(host, archive, t, schemas[..n], dry, raises, base).error.Some?
    ensures Slices(host, archive, t, schemas, dry, raises, base) ==
      Slices(host, archive, t, schemas[..n], dry, raises, base)
    decreases |schemas| - n
  {
    if n < |schemas| {
      assert schemas[..n + 1][..n] == schemas[..n];
      SlicesStop(host, archive, t, schemas, dry, raises, base, n + 1);
    } else {
      assert schemas[..n] == schemas;
    }
  }

  lemma SlicesNext(host: Host, archive: Archive, t: Infos, schemas: seq<string>,
                   dry: bool, raises: nat -> bool, base: nat, i: nat)
    requires i < |schemas|
    ensures var p := Slices(host, archive, t, schemas[..i], dry, raises, base);
      Slices(host, archive, t, schemas[..i + 1], dry, raises, base) ==
      if p.error.Some? then p else SliceStep(p, CheckSlice(host, archive, t, schemas[i]), schemas[i], dry, raises, base)
  {
    assert schemas[..i + 1][..i] == schemas[..i];
  }

  /** One more call behind those made since start. */
  method WriteNext(dest: Dest, made: seq<Call>, c: Call, ghost start: seq<Call>, ghost store0: Store) returns (ok: bool)
    requires dest.calls == start + made && Passes(dest.raises, |start|, |made|)
    requires dest.store == ApplyAll(dest.pk, store0, Kept(dest.raises, |start|, made))
    modifies dest
    ensures dest.calls == start + (made + [c]) && ok == !dest.raises(|start| + |made|)
    ensures dest.store == ApplyAll(dest.pk, store0, Kept(dest.raises, |start|, made + [c]))
    ensures ok ==> Passes(dest.raises, |start|, |made| + 1)
  {
    KeptNext(dest.pk, dest.raises, |start|, store0, made, c);
    ok := dest.Perform(c);
  }

  method ImportSlice(host: Host, archive: Archive, t: Infos, schema: string, dry: bool,
                     dest: Dest, p: Progress, ghost start: seq<Call>, ghost store0: Store) returns (q: Progress)
    requires dest.calls == start + p.calls && p.error.None? && Passes(dest.raises, |start|, |p.calls|)
    requires dest.store == ApplyAll(dest.pk, store0, Kept(dest.raises, |start|, p.calls))
    modifies dest
    ensures q == SliceStep(p, CheckSlice(host, archive, t, schema), schema, dry, dest.raises, |start|)
    ensures dest.calls == start + q.calls
    ensures dest.store == ApplyAll(dest.pk, store0, Kept(dest.raises, |start|, q.calls))
    ensures q.error.None? ==> Passes(dest.raises, |start|, |q.calls|)
  {
    q := p;
    match CheckSlice(host, archive, t, schema) {
      case Failed(e) =>
        q := q.(error := Some(e));
      case Done(rows) =>
        if !dry {
          var ok := WriteNext(dest, p.calls, WriteRows(schema, rows), start, store0);
          q := q.(calls := q.calls + [WriteRows(schema, rows)]);
          if !ok { return q.(error := Some(DestWriteFailed(schema))); }
        }
        q := q.(counts := q.counts + [KV(schema, |rows|)]);
    }
  }

  method ImportSlices(host: Host, archive: Archive, t: Infos, schemas: seq<string>,
                      dry: bool, dest: Dest) returns (p: Progress)
    modifies dest
    ensures p == Slices(host, archive, t, schemas, dry, dest.raises, |old(dest.calls)|)
    ensures dest.calls == old(dest.calls) + p.calls
    ensures dest.store == ApplyAll(dest.pk, old(dest.store), Kept(dest.raises, |old(dest.calls)|, p.calls))
    ensures p.error.None? ==> Passes(dest.raises, |old(dest.calls)|, |p.calls|)
  {
    ghost var start, store0 := dest.calls, dest.store;
    p := Progress([], [], None);
    for i := 0 to |schemas|
      invariant p == Slices(host, archive, t, schemas[..i], dry, dest.raises, |start|) && p.error.None?
      invariant dest.calls == start + p.calls && Passes(dest.raises, |start|, |p.calls|)
      invariant dest.store == ApplyAll(dest.pk, store0, Kept(dest.raises, |start|, p.calls))
    {
      SlicesNext(host, archive, t, schemas, dry, dest.raises, |start|, i);
      p := ImportSlice(host, archive, t, schemas[i], dry, dest, p, start, store0);
      if p.error.Some? {
        SlicesStop(host, archive, t, schemas, dry, dest.raises, |start|, i + 1);
        return;
      }
    }
    assert schemas[..|schemas|] == schemas;
  }

  lemma {:induction false} ApplyAllAppend(pk: Json -> string, s: Store, xs: seq<Call>, ys: seq<Call>)
    ensures ApplyAll(pk, s, xs + ys) == ApplyAll(pk, ApplyAll(pk, s, xs), ys)
    decreases xs
  {
    if xs == [] {
      assert [] + ys == ys;
    } else {
      assert (xs + ys)[1..] == xs[1..] + ys;
      ApplyAllAppend(pk, Apply(pk, s, xs[0]), xs[1..], ys);
    }
  }

  lemma {:induction false} ApplyAllSnoc(pk: Json -> string, s: Store, calls: seq<Call>, c: Call)
    ensures ApplyAll(pk, s, calls + [c]) == Apply(pk, ApplyAll(pk, s, calls), c)
  {
    ApplyAllAppend(pk, s, calls, [c]);
    assert [c][1..] == [];
  }

  /** The first raising call is the last one made. */
  lemma {:induction false} AttemptedStops(raises: nat -> bool, base: nat, calls: seq<Call>, k: nat)
    requires k < |calls| && Passes(raises, base, k) && raises(base + k)
    ensures Attempted(raises, base, calls) == calls[..k + 1]
    decreases calls
  {
    if k > 0 {
      assert !raises(base);
      AttemptedStops(raises, base + 1, calls[1..], k - 1);
    }
  }

  lemma {:induction false} AttemptedAll(raises: nat -> bool, base: nat, calls: seq<Call>)
    requires Passes(raises, base, |calls|)
    ensures Attempted(raises, base, calls) == calls
    decreases calls
  {
    if calls != [] {
      assert !raises(base);
      AttemptedAll(raises, base + 1, calls[1..]);
    }
  }

  method PerformNext(dest: Dest, planned: seq<Call>, k: nat, ghost start: seq<Call>, ghost store0: Store)
    returns (ok: bool)
    requires k < |planned| && dest.calls == start + planned[..k] && Passes(dest.raises, |start|, k)
    requires dest.store == ApplyAll(dest.pk, store0, Kept(dest.raises, |start|, planned[..k]))
    modifies dest
    ensures dest.calls == start + planned[..k + 1]
    ensures ok == Passes(dest.raises, |start|, k + 1)
    ensures !ok ==> planned[..k + 1] == Attempted(dest.raises, |start|, planned)
    ensures dest.store == ApplyAll(dest.pk, store0, Kept(dest.raises, |start|, planned[..k + 1]))
  {
    assert planned[..k + 1] == planned[..k] + [planned[k]];
    KeptNext(dest.pk, dest.raises, |start|, store0, planned[..k], planned[k]);
    ok := dest.Perform(planned[k]);
    if !ok { AttemptedStops(dest.raises, |start|, planned, k); }
  }

  /** The four writes inside one `try`. */
  method WriteAux(dest: Dest, planned: seq<Call>) returns (ok: bool)
    requires |planned| == 4
    modifies dest
    ensures var made := Attempted(dest.raises, |old(dest.calls)|, planned);
      && dest.calls == old(dest.calls) + made
      && dest.store == ApplyAll(dest.pk, old(dest.store), Kept(dest.raises, |old(dest.calls)|, made))
    ensures ok == Passes(dest.raises, |old(dest.calls)|, 4)
  {
    ghost var start, store0 := dest.calls, dest.store;
    ok := PerformNext(dest, planned, 0, start, store0);
    if !ok { assert dest.raises(|start| + 0); return; }
    ok := PerformNext(dest, planned, 1, start, store0);
    if !ok { return; }
    ok := PerformNext(dest, planned, 2, start, store0);
    if !ok { return; }
    ok := PerformNext(dest, planned, 3, start, store0);
    assert planned[..4] == planned;
    if ok { AttemptedAll(dest.raises, |start|, planned); }
  }

  lemma {:induction false} SlicesDryMakesNoCall(host: Host, archive: Archive, t: Infos,
                                                schemas: seq<string>, raises: nat -> bool, base: nat)
    ensures Slices(host, archive, t, schemas, true, raises, base).calls == []
  {
    if schemas != [] { SlicesDryMakesNoCall(host, archive, t, schemas[..|schemas| - 1], raises, base); }
  }

  method RunAuxPhase(dest: Dest, planned: seq<Call>) returns (error: Option<ImportError>)
    requires |planned| == 4
    modifies dest
    ensures var phase := AuxPhase(dest.raises, |old(dest.calls)|, planned, dest.replayOk);
      && dest.calls == old(dest.calls) + phase.0
      && error == phase.1
      && dest.store == ApplyAll(dest.pk, old(dest.store), Kept(dest.raises, |old(dest.calls)|, phase.0))
      && (error.None? ==> Passes(dest.raises, |old(dest.calls)|, |phase.0|))
  {
    var ok := WriteAux(dest, planned);
    if !ok { return Some(DestWriteFailed("aux")); }
    AttemptedAll(dest.raises, |old(dest.calls)|, planned);
    KeptNext(dest.pk, dest.raises, |old(dest.calls)|, old(dest.store), planned, Replay);
    var replayed := dest.Perform(Replay);
    if !replayed || !dest.replayOk { return Some(AuditChainBreak); }
    return None;
  }

  /** The auxiliary phase, behind the slice writes made since start. */
  method AuxPhaseBehind(dest: Dest, planned: seq<Call>, ghost before: seq<Call>, ghost start: seq<Call>,
                        ghost store0: Store)
    returns (error: Option<ImportError>)
    requires |planned| == 4 && dest.calls == start + before && Passes(dest.raises, |start|, |before|)
    requires dest.store == ApplyAll(dest.pk, store0, Kept(dest.raises, |start|, before))
    modifies dest
    ensures var phase := AuxPhase(dest.raises, |start| + |before|, planned, dest.replayOk);
      && dest.calls == start + (before + phase.0)
      && error == phase.1
      && dest.store == ApplyAll(dest.pk, store0, Kept(dest.raises, |start|, before + phase.0))
      && (error.None? ==> Passes(dest.raises, |start|, |before + phase.0|))
  {
    ghost var made := AuxPhase(dest.raises, |start| + |before|, planned, dest.replayOk).0;
    KeptJoin(dest.pk, dest.raises, |start|, store0, before, made);
    Regroup(start, before, made);
    error := RunAuxPhase(dest, planned);
  }

  /** From the auxiliary files on. */
  method FinishImport(aux: Result<seq<Call>>, archive: Archive, dest: Dest, dry: bool, p: Progress,
                      ghost start: seq<Call>, ghost store0: Store) returns (r: Result<Report>)
    requires aux.Done? ==> |aux.value| == 4 && aux.value[3].WriteRefs?
    requires dest.calls == start + p.calls && (dry ==> p.calls == [])
    requires dest.store == ApplyAll(dest.pk, store0, Kept(dest.raises, |start|, p.calls))
    requires p.error.None? ==> Passes(dest.raises, |start|, |p.calls|)
    modifies dest
    ensures var run := Finish(p, aux, archive, dry, dest.raises, |start|, dest.replayOk);
      && dest.calls == start + run.0
      && r == run.1
      && dest.store == ApplyAll(dest.pk, store0, Kept(dest.raises, |start|, run.0))
      && (r.Done? ==> Passes(dest.raises, |start|, |run.0|))
  {
    if p.error.Some? { return Failed(p.error.value); }
    if aux.Failed? { return Failed(aux.error); }
    var charters, paths := |Charters(archive)|, |aux.value[3].paths|;
    if dry { return Done(Report(true, p.counts, charters, paths, None)); }
    var error := AuxPhaseBehind(dest, aux.value, p.calls, start, store0);
    if error.Some? { return Failed(error.value); }
    return Done(Report(false, p.counts, charters, paths, Some(true)));
  }

  /**
   The run makes exactly the calls of the specification; however it ends, the store is what
   those calls make of the old one, the raising call left out.  Nothing is undone.
   */
  method ImportState(rel: Release, host: Host, archive: Archive, dest: Dest, dry: bool) returns (r: Result<Report>)
    modifies dest
    ensures var run := ImportRun(rel, host, archive, dry, dest.raises, |old(dest.calls)|, dest.replayOk);
      && dest.calls == old(dest.calls) + run.0
      && r == run.1
      && dest.store == ApplyAll(dest.pk, old(dest.store), Kept(dest.raises, |old(dest.calls)|, run.0))
      && (r.Done? ==> dest.store == ApplyAll(dest.pk, old(dest.store), run.0))
  {
    var checked := CheckManifest(rel, host, archive);
    if checked.Failed? { return Failed(checked.error); }
    var items := Items(Field(checked.value, "schemas", Arr([])));
    if items.None? { return Failed(Uncaught); }
    var table := SliceTable(items.value);
    if table.None? { return Failed(Uncaught); }
    ghost var start, store0 := dest.calls, dest.store;
    var p := ImportSlices(host, archive, table.value, rel.schemas, dry, dest);
    if dry { SlicesDryMakesNoCall(host, archive, table.value, rel.schemas, dest.raises, |start|); }
    r := FinishImport(AuxCalls(archive), archive, dest, dry, p, start, store0);
    if r.Done? {
      KeptAll(dest.raises, |start|, ImportRun(rel, host, archive, dry, dest.raises, |start|, dest.replayOk).0);
    }
  }
}
