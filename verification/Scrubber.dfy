/**
 The recursive scrub of `_scrub_fields`.  Whether a string matches the PII pattern is a
 parameter.  Lists are values like any other: the scrub does not look inside them.
 */
module Scrubber {
  import opened Wrappers
  import opened Sorting
  import opened Json
  import opened JsonRoundTrip
  import opened Jsonl

  const ALWAYS_REDACT: seq<string> := [
    "user_email", "user_id", "actor", "actor_id", "project_id", "project_name",
    "hub_id", "hub_name", "repo", "repo_url", "commit_sha", "file_path",
    "rationale", "lesson_text", "source_audit_record_id", "ip_address"]

  predicate Denied(key: string) { key in ALWAYS_REDACT }

  /** The entry is removed, with everything under it. */
  predicate Drops(pii: string -> bool, key: string, v: Json) {
    Denied(key) || (v.Str? && pii(v.s))
  }

  function Under(key: string, names: seq<string>): (r: seq<string>)
    ensures |r| == |names|
  {
    seq(|names|, i requires 0 <= i < |names| => key + "." + names[i])
  }

  /** The scrubbed dict and the dotted names of what was removed. */
  function Scrub(pii: string -> bool, fields: seq<KV<Json>>): (seq<KV<Json>>, seq<string>)
    decreases fields
  {
    if fields == [] then ([], [])
    else
      var f := fields[|fields| - 1];
      var (clean, redacted) := Scrub(pii, fields[..|fields| - 1]);
      if Drops(pii, f.key, f.val) then (clean, redacted + [f.key])
      else if f.val.Obj? then
        var (inner, innerRed) := Scrub(pii, f.val.fields);
        (clean + [KV(f.key, Obj(inner))], redacted + Under(f.key, innerRed))
      else (clean + [f], redacted)
  }

  method ScrubFields(pii: string -> bool, extra: seq<KV<Json>>) returns (clean: seq<KV<Json>>, redacted: seq<string>)
    ensures (clean, redacted) == Scrub(pii, extra)
    decreases extra
  {
    clean, redacted := [], [];
    for i := 0 to |extra|
      invariant (clean, redacted) == Scrub(pii, extra[..i])
    {
      var f := extra[i];
      assert extra[..i + 1][..i] == extra[..i];
      if Denied(f.key) {
        redacted := redacted + [f.key];
      } else if f.val.Obj? {
        var inner, innerRed := ScrubFields(pii, f.val.fields);
        redacted := redacted + Under(f.key, innerRed);
        clean := clean + [KV(f.key, Obj(inner))];
      } else if f.val.Str? && pii(f.val.s) {
        redacted := redacted + [f.key];
      } else {
        clean := clean + [f];
      }
    }
    assert extra[..|extra|] == extra;
  }

  // ---------- paths ----------

  /** The value at a path of keys. */
  function At(fields: seq<KV<Json>>, path: seq<string>): Option<Json>
    decreases path
  {
    if path == [] then None
    else
      match Lookup(fields, path[0])
      case None => None
      case Some(v) =>
        if |path| == 1 then Some(v)
        else if v.Obj? then At(v.fields, path[1..])
        else None
  }

  function Dotted(path: seq<string>): string {
    if path == [] then ""
    else if |path| == 1 then path[0] else path[0] + "." + Dotted(path[1..])
  }

  /** The path leads to an entry the scrub removes, and no entry above it is removed. */
  predicate RemovedAt(pii: string -> bool, fields: seq<KV<Json>>, path: seq<string>)
    decreases path
  {
    path != [] && Lookup(fields, path[0]).Some? &&
    var v := Lookup(fields, path[0]).value;
    if |path| == 1 then Drops(pii, path[0], v)
    else !Drops(pii, path[0], v) && v.Obj? && RemovedAt(pii, v.fields, path[1..])
  }

  /** The removed paths, in the order the scrub reports them. */
  function Removed(pii: string -> bool, fields: seq<KV<Json>>): seq<seq<string>>
    decreases fields
  {
    if fields == [] then []
    else Removed(pii, fields[..|fields| - 1]) + RemovedUnder(pii, fields[|fields| - 1])
  }

  function RemovedUnder(pii: string -> bool, f: KV<Json>): seq<seq<string>>
    decreases f
  {
    if Drops(pii, f.key, f.val) then [[f.key]]
    else if f.val.Obj? then Below(f.key, Removed(pii, f.val.fields))
    else []
  }

  function Below(key: string, paths: seq<seq<string>>): (r: seq<seq<string>>)
    ensures |r| == |paths|
    ensures forall i :: 0 <= i < |r| ==> r[i] == [key] + paths[i]
  {
    seq(|paths|, i requires 0 <= i < |paths| => [key] + paths[i])
  }

  function DottedAll(paths: seq<seq<string>>): seq<string> { Map(Dotted, paths) }

  lemma {:induction false} RemovedNonEmpty(pii: string -> bool, fields: seq<KV<Json>>)
    ensures forall i :: 0 <= i < |Removed(pii, fields)| ==> Removed(pii, fields)[i] != []
  {
    if fields != [] { RemovedNonEmpty(pii, fields[..|fields| - 1]); }
  }

  lemma DottedBelow(key: string, paths: seq<seq<string>>)
    requires forall i :: 0 <= i < |paths| ==> paths[i] != []
    ensures DottedAll(Below(key, paths)) == Under(key, DottedAll(paths))
  {
    forall i | 0 <= i < |paths| ensures Dotted([key] + paths[i]) == key + "." + Dotted(paths[i]) {
      assert ([key] + paths[i])[1..] == paths[i];
    }
  }

  /** The reported names are the removed paths, joined by dots. */
  lemma {:induction false} ReportsRemoved(pii: string -> bool, fields: seq<KV<Json>>)
    ensures Scrub(pii, fields).1 == DottedAll(Removed(pii, fields))
    decreases fields
  {
    if fields != [] {
      var n := |fields| - 1;
      var f := fields[n];
      ReportsRemoved(pii, fields[..n]);
      if !Drops(pii, f.key, f.val) && f.val.Obj? {
        ReportsRemoved(pii, f.val.fields);
        RemovedNonEmpty(pii, f.val.fields);
        DottedBelow(f.key, Removed(pii, f.val.fields));
      }
      var before, last := Removed(pii, fields[..n]), RemovedUnder(pii, f);
      assert DottedAll(before + last) == DottedAll(before) + DottedAll(last);
      assert DottedAll([[f.key]]) == [f.key];
    }
  }

  // ---------- what is kept ----------

  /** One entry of the dict after the scrub. */
  function Cleaned(pii: string -> bool, key: string, v: Json): Option<Json> {
    if Drops(pii, key, v) then None
    else if v.Obj? then Some(Obj(Scrub(pii, v.fields).0))
    else Some(v)
  }

  lemma {:induction false} LookupSnoc<T>(fields: seq<KV<T>>, f: KV<T>, key: string)
    ensures Lookup(fields + [f], key) ==
      if Lookup(fields, key).Some? then Lookup(fields, key) else if f.key == key then Some(f.val) else None
  {
    if fields == [] {
      assert fields + [f] == [f];
      assert [f][1..] == [];
    } else {
      assert (fields + [f])[1..] == fields[1..] + [f];
      LookupSnoc(fields[1..], f, key);
    }
  }

  lemma LookupFresh<T>(fields: seq<KV<T>>, f: KV<T>)
    requires DistinctKeys(fields + [f])
    ensures Lookup(fields, f.key).None?
  {
    assert DistinctKeys(fields) by {
      forall i, j | 0 <= i < j < |fields| ensures fields[i].key != fields[j].key {
        assert (fields + [f])[i].key != (fields + [f])[j].key;
      }
    }
    LookupIn(fields, f.key);
    forall i | 0 <= i < |fields| ensures fields[i].key != f.key {
      assert (fields + [f])[i].key != (fields + [f])[|fields|].key;
    }
  }

  lemma {:induction false} LookupCleaned(pii: string -> bool, fields: seq<KV<Json>>, key: string)
    requires DistinctKeys(fields)
    ensures Lookup(Scrub(pii, fields).0, key) ==
      if Lookup(fields, key).Some? then Cleaned(pii, key, Lookup(fields, key).value) else None
  {
    if fields != [] {
      var n := |fields| - 1;
      var f, init := fields[n], fields[..n];
      assert fields == init + [f];
      LookupCleaned(pii, init, key);
      LookupSnoc(init, f, key);
      LookupFresh(init, f);
      var clean := Scrub(pii, init).0;
      var c := Cleaned(pii, f.key, f.val);
      if c.Some? { LookupSnoc(clean, KV(f.key, c.value), key); }
    }
  }

  lemma {:induction false} CleanKeys(pii: string -> bool, fields: seq<KV<Json>>)
    requires DistinctKeys(fields)
    ensures DistinctKeys(Scrub(pii, fields).0)
    ensures forall x :: x in Scrub(pii, fields).0 ==> exists f :: f in fields && f.key == x.key
  {
    if fields != [] {
      var n := |fields| - 1;
      CleanKeys(pii, fields[..n]);
      var clean := Scrub(pii, fields[..n]).0;
      forall i | 0 <= i < |clean| ensures clean[i].key != fields[n].key {
        assert clean[i] in clean;
        var f :| f in fields[..n] && f.key == clean[i].key;
      }
      forall x | x in Scrub(pii, fields).0 ensures exists f :: f in fields && f.key == x.key {
        if x in clean {
          var f :| f in fields[..n] && f.key == x.key;
          assert f in fields;
        } else {
          assert fields[n] in fields && fields[n].key == x.key;
        }
      }
    }
  }

  /** Some entry on the path, at depth n, is the first to be removed. */
  predicate CutAt(pii: string -> bool, fields: seq<KV<Json>>, path: seq<string>, n: int) {
    1 <= n <= |path| && RemovedAt(pii, fields, path[..n])
  }

  lemma LookupWellFormed(fields: seq<KV<Json>>, key: string)
    requires WellFormed(Obj(fields)) && Lookup(fields, key).Some?
    ensures WellFormed(Lookup(fields, key).value)
  {
    LookupIn(fields, key);
    var v := Lookup(fields, key).value;
    var i :| 0 <= i < |fields| && fields[i] == KV(key, v);
  }

  lemma CutBelow(pii: string -> bool, fields: seq<KV<Json>>, path: seq<string>, n: int)
    requires path != [] && Lookup(fields, path[0]).Some? && n >= 1
    ensures var v := Lookup(fields, path[0]).value;
      CutAt(pii, fields, path, n) <==>
        if n == 1 then Drops(pii, path[0], v)
        else !Drops(pii, path[0], v) && v.Obj? && CutAt(pii, v.fields, path[1..], n - 1)
  {
    if n <= |path| {
      assert path[..n][0] == path[0];
      if n > 1 { assert path[..n][1..] == path[1..][..n - 1]; }
    }
  }

  /**
   Conservation: a path of the input is kept, with its value if that is no dict, or one
   entry on it is the first removed; never both, and nothing else is kept.
   */
  lemma {:induction false} KeptOrCut(pii: string -> bool, fields: seq<KV<Json>>, path: seq<string>)
    requires WellFormed(Obj(fields))
    ensures At(Scrub(pii, fields).0, path).Some? <==> At(fields, path).Some? && forall n :: !CutAt(pii, fields, path, n)
    ensures forall m, n :: CutAt(pii, fields, path, m) && CutAt(pii, fields, path, n) ==> m == n
    ensures var kept := At(Scrub(pii, fields).0, path);
      kept.Some? ==> if At(fields, path).value.Obj? then kept.value.Obj? else kept == At(fields, path)
    decreases path
  {
    if path != [] {
      LookupCleaned(pii, fields, path[0]);
      var o := Lookup(fields, path[0]);
      if o.None? {
        forall n ensures !CutAt(pii, fields, path, n) {
          if 1 <= n <= |path| { assert path[..n][0] == path[0]; }
        }
      } else {
        LookupWellFormed(fields, path[0]);
        forall n | n >= 1
          ensures CutAt(pii, fields, path, n) <==>
            if n == 1 then Drops(pii, path[0], o.value)
            else !Drops(pii, path[0], o.value) && o.value.Obj? && CutAt(pii, o.value.fields, path[1..], n - 1)
        {
          CutBelow(pii, fields, path, n);
        }
        if Drops(pii, path[0], o.value) {
          assert CutAt(pii, fields, path, 1);
        } else if o.value.Obj? && |path| > 1 {
          KeptOrCut(pii, o.value.fields, path[1..]);
          CutsMatch(pii, fields, path, o.value.fields);
        } else {
          forall n ensures !CutAt(pii, fields, path, n) {
            if 1 < n { assert |path| == 1 || !o.value.Obj?; }
          }
        }
      }
    }
  }

  lemma CutsMatch(pii: string -> bool, fields: seq<KV<Json>>, path: seq<string>, inner: seq<KV<Json>>)
    requires |path| > 1
    requires forall n :: n >= 1 ==> (CutAt(pii, fields, path, n) <==> n > 1 && CutAt(pii, inner, path[1..], n - 1))
    ensures (forall n :: !CutAt(pii, fields, path, n)) <==> forall n :: !CutAt(pii, inner, path[1..], n)
  {
    if n :| CutAt(pii, inner, path[1..], n) { assert CutAt(pii, fields, path, n + 1); }
    if n :| CutAt(pii, fields, path, n) { assert CutAt(pii, inner, path[1..], n - 1); }
  }

  /** What is removed, spelled out: an entry above another holds a dict, so only its name can remove it. */
  lemma {:induction false} RemovedAtMeans(pii: string -> bool, fields: seq<KV<Json>>, path: seq<string>)
    ensures RemovedAt(pii, fields, path) <==>
      && path != [] && At(fields, path).Some?
      && (path[|path| - 1] in ALWAYS_REDACT || (At(fields, path).value.Str? && pii(At(fields, path).value.s)))
      && forall k :: 0 <= k < |path| - 1 ==> path[k] !in ALWAYS_REDACT
    decreases path
  {
    if |path| > 1 && Lookup(fields, path[0]).Some? && Lookup(fields, path[0]).value.Obj? {
      var tail := path[1..];
      RemovedAtMeans(pii, Lookup(fields, path[0]).value.fields, tail);
      assert (forall k :: 0 <= k < |path| - 1 ==> path[k] !in ALWAYS_REDACT)
        <==> path[0] !in ALWAYS_REDACT && forall k :: 0 <= k < |tail| - 1 ==> tail[k] !in ALWAYS_REDACT by {
        forall k | 0 < k < |path| - 1 ensures path[k] == tail[k - 1] {}
        forall k | 0 <= k < |tail| - 1 ensures tail[k] == path[k + 1] {}
      }
    }
  }

  /**
   Exactly these entries are removed and reported: those whose name is denied or whose value is
   a PII string, with no denied name above them.
   */
  lemma RemovedIff(pii: string -> bool, fields: seq<KV<Json>>, path: seq<string>)
    requires WellFormed(Obj(fields))
    ensures path in Removed(pii, fields) <==>
      && path != [] && At(fields, path).Some?
      && (path[|path| - 1] in ALWAYS_REDACT || (At(fields, path).value.Str? && pii(At(fields, path).value.s)))
      && forall k :: 0 <= k < |path| - 1 ==> path[k] !in ALWAYS_REDACT
  {
    RemovedAtIff(pii, fields, path);
    RemovedAtMeans(pii, fields, path);
  }

  lemma {:induction false} RemovedAtIff(pii: string -> bool, fields: seq<KV<Json>>, path: seq<string>)
    requires WellFormed(Obj(fields))
    ensures path in Removed(pii, fields) <==> RemovedAt(pii, fields, path)
    decreases fields
  {
    if fields != [] {
      var n := |fields| - 1;
      var f, init := fields[n], fields[..n];
      assert fields == init + [f];
      RemovedAtIff(pii, init, path);
      if f.val.Obj? && path != [] { RemovedAtIff(pii, f.val.fields, path[1..]); }
      RemovedUnderIff(pii, f, path);
      RemovedAtSnoc(pii, init, f, path);
    }
  }

  lemma RemovedUnderIff(pii: string -> bool, f: KV<Json>, path: seq<string>)
    requires f.val.Obj? && path != [] ==>
      (path[1..] in Removed(pii, f.val.fields) <==> RemovedAt(pii, f.val.fields, path[1..]))
    ensures path in RemovedUnder(pii, f) <==> RemovedAt(pii, [f], path)
  {
    assert path != [] ==> (Lookup([f], path[0]) == if f.key == path[0] then Some(f.val) else None) by {
      assert [f][1..] == [];
    }
    if Drops(pii, f.key, f.val) {
      assert path in [[f.key]] <==> path == [f.key];
    } else if f.val.Obj? {
      RemovedNonEmpty(pii, f.val.fields);
      if path == [] {
        assert path !in Below(f.key, Removed(pii, f.val.fields));
      } else {
        BelowContains(f.key, Removed(pii, f.val.fields), path);
        if |path| == 1 { assert path[1..] == []; }
      }
    }
  }

  lemma RemovedAtSnoc(pii: string -> bool, init: seq<KV<Json>>, f: KV<Json>, path: seq<string>)
    requires DistinctKeys(init + [f])
    ensures RemovedAt(pii, init + [f], path) <==> RemovedAt(pii, init, path) || RemovedAt(pii, [f], path)
  {
    if path != [] {
      LookupFresh(init, f);
      LookupSnoc(init, f, path[0]);
      assert Lookup([f], path[0]) == if f.key == path[0] then Some(f.val) else None by { assert [f][1..] == []; }
    }
  }

  lemma BelowContains(key: string, paths: seq<seq<string>>, path: seq<string>)
    requires path != []
    ensures path in Below(key, paths) <==> path[0] == key && path[1..] in paths
  {
    if path in Below(key, paths) {
      var i :| 0 <= i < |paths| && Below(key, paths)[i] == path;
      assert path[1..] == paths[i];
    }
    if path[0] == key && path[1..] in paths {
      var i :| 0 <= i < |paths| && paths[i] == path[1..];
      assert path == [key] + path[1..];
      assert Below(key, paths)[i] == path;
    }
  }

  // ---------- nothing left to remove ----------

  /** No dict reachable through dict values keeps a denied key or a PII string. */
  ghost predicate IsClean(pii: string -> bool, fields: seq<KV<Json>>) {
    forall path :: At(fields, path).Some? ==>
      path[|path| - 1] !in ALWAYS_REDACT && !(At(fields, path).value.Str? && pii(At(fields, path).value.s))
  }

  lemma {:induction false} ScrubbedEntry(pii: string -> bool, fields: seq<KV<Json>>, path: seq<string>)
    requires WellFormed(Obj(fields)) && At(Scrub(pii, fields).0, path).Some?
    ensures !Drops(pii, path[|path| - 1], At(Scrub(pii, fields).0, path).value)
    decreases path
  {
    LookupCleaned(pii, fields, path[0]);
    LookupWellFormed(fields, path[0]);
    if |path| > 1 {
      ScrubbedEntry(pii, Lookup(fields, path[0]).value.fields, path[1..]);
    }
  }

  /** Neither a denied name nor a PII string is left anywhere. */
  lemma ScrubbedIsClean(pii: string -> bool, fields: seq<KV<Json>>)
    requires WellFormed(Obj(fields))
    ensures IsClean(pii, Scrub(pii, fields).0)
  {
    var clean := Scrub(pii, fields).0;
    forall path | At(clean, path).Some?
      ensures path[|path| - 1] !in ALWAYS_REDACT && !(At(clean, path).value.Str? && pii(At(clean, path).value.s))
    {
      ScrubbedEntry(pii, fields, path);
    }
  }

  /** Scrubbing again changes nothing and redacts nothing. */
  lemma {:induction false} ScrubIdempotent(pii: string -> bool, fields: seq<KV<Json>>)
    ensures Scrub(pii, Scrub(pii, fields).0) == (Scrub(pii, fields).0, [])
    decreases fields
  {
    if fields != [] {
      var n := |fields| - 1;
      var f := fields[n];
      ScrubIdempotent(pii, fields[..n]);
      var clean := Scrub(pii, fields[..n]).0;
      if Drops(pii, f.key, f.val) {
      } else if f.val.Obj? {
        ScrubIdempotent(pii, f.val.fields);
        var g := KV(f.key, Obj(Scrub(pii, f.val.fields).0));
        assert (clean + [g])[..|clean|] == clean;
        assert [] + Under(f.key, []) == [];
      } else {
        assert (clean + [f])[..|clean|] == clean;
      }
    }
  }
}
