/**
 The cross-org consent registry: the upserted policy row against the history of grants and
 revocations.  PostgreSQL treats NULLs in the unique key (hub_id, project_id) as distinct.
 */
module LearningConsent {
  import opened Wrappers
  import opened LearningScope

  /** hub_id and project_id; NULL is None. */
  datatype Key = Key(hub: Option<string>, project: Option<string>)

  datatype PolicyRow = PolicyRow(key: Key, policy: Policy)

  datatype Event =
    | Grant(crossOrg: bool, granular: map<string, bool>)
    | RevokeAll
    | RevokeCategory(category: string)

  predicate Known(category: string) { category in KNOWN_DATA_CATEGORIES }

  /** `ConsentRecord.validate`: some non-empty id. */
  predicate ValidKey(k: Key) {
    (k.hub.Some? && k.hub.value != "") || (k.project.Some? && k.project.value != "")
  }

  /** The record the event submits: umbrella flag and category flags. */
  function Umbrella(e: Event): bool {
    match e
    case Grant(c, _) => c
    case RevokeAll => false
    case RevokeCategory(_) => true
  }

  function Entries(e: Event): map<string, bool> {
    match e
    case Grant(_, g) => g
    case RevokeAll => map c | c in KNOWN_DATA_CATEGORIES :: false
    case RevokeCategory(c) => map[c := false]
  }

  /** `_merge_granular`: last write wins per category, and no category is dropped. */
  function MergeGranular(existing: map<string, bool>, incoming: map<string, bool>): (r: map<string, bool>)
    ensures r.Keys == existing.Keys + incoming.Keys
    ensures forall c :: c in r ==> r[c] == if c in incoming then incoming[c] else existing[c]
  {
    existing + incoming
  }

  /** The first row of the key, if any; `LIMIT 1` gives no other order. */
  function FindRow(rows: seq<PolicyRow>, k: Key): (r: Option<nat>)
    ensures r.Some? ==> r.value < |rows| && rows[r.value].key == k
    ensures r.None? ==> forall i :: 0 <= i < |rows| ==> rows[i].key != k
  {
    if rows == [] then None
    else if rows[0].key == k then Some(0)
    else
      match FindRow(rows[1..], k)
      case None =>
        assert forall i :: 0 < i < |rows| ==> rows[i] == rows[1..][i - 1];
        None
      case Some(i) => Some(i + 1)
  }

  /** The unique constraint sees two rows of this key as equal. */
  predicate Conflicts(k: Key) { k.hub.Some? && k.project.Some? }

  /** `_default_writer`: merge with a stored row, then insert or, on conflict, update. */
  function Upsert(rows: seq<PolicyRow>, k: Key, e: Event): seq<PolicyRow> {
    var found := FindRow(rows, k);
    var existing := if found.Some? then rows[found.value].policy.granular else map[];
    var merged := MergeGranular(existing, Entries(e));
    if found.Some? && Conflicts(k) then
      rows[found.value := PolicyRow(k, rows[found.value].policy.(crossOrg := Umbrella(e), granular := merged))]
    else rows + [PolicyRow(k, Policy(true, Umbrella(e), merged))]
  }

  datatype Ruling = Ruling(k: Key, e: Event)

  function Run(ds: seq<Ruling>): seq<PolicyRow> {
    if ds == [] then [] else
      var d := ds[|ds| - 1];
      var rows := Run(ds[..|ds| - 1]);
      if ValidKey(d.k) then Upsert(rows, d.k, d.e) else rows
  }

  /** The row holds the consent of the policy. */
  predicate Stores(row: PolicyRow, k: Key, p: Policy) {
    row.key == k && row.policy.crossOrg == p.crossOrg && row.policy.granular == p.granular
  }

  class ConsentRegistry {
    var rows: seq<PolicyRow>
    ghost var history: seq<Ruling>

    ghost predicate Valid()
      reads this
    {
      rows == Run(history)
    }

    constructor ()
      ensures Valid() && history == []
    {
      rows, history := [], [];
    }

    /** Grant or revoke; ok is false when the record names no scope. */
    method Decide(k: Key, e: Event) returns (ok: bool, effective: Policy)
      requires Valid()
      modifies this
      ensures Valid() && history == old(history) + [Ruling(k, e)]
      ensures ok <==> (k.hub.Some? && k.hub.value != "") || (k.project.Some? && k.project.value != "")
      ensures ok ==> effective.crossOrg == Allows(e)
      ensures ok ==> forall c :: Names(e, c).Some? ==>
        c in effective.granular && effective.granular[c] == Names(e, c).value
      ensures ok ==> exists i :: 0 <= i < |rows| && Stores(rows[i], k, effective)
    {
      forall c ensures Names(e, c) == if c in Entries(e) then Some(Entries(e)[c]) else None { EntriesAreNames(e, c); }
      history := history + [Ruling(k, e)];
      assert history[..|history| - 1] == old(history);
      effective := DEFAULT_POLICY;
      ok := ValidKey(k);
      if !ok { return; }
      var found := FindRow(rows, k);
      var existing := if found.Some? then rows[found.value].policy.granular else map[];
      var merged := MergeGranular(existing, Entries(e));
      if found.Some? && Conflicts(k) {
        var policy := rows[found.value].policy.(crossOrg := Umbrella(e), granular := merged);
        rows := rows[found.value := PolicyRow(k, policy)];
        assert Stores(rows[found.value], k, Policy(true, Umbrella(e), merged));
      } else {
        rows := rows + [PolicyRow(k, Policy(true, Umbrella(e), merged))];
        assert Stores(rows[|rows| - 1], k, Policy(true, Umbrella(e), merged));
      }
      effective := Policy(true, Umbrella(e), merged);
    }
  }

  // ---------- the history ----------

  /** The decisions on one scope, in order. */
  function On(ds: seq<Ruling>, k: Key): seq<Event> {
    if ds == [] then []
    else On(ds[..|ds| - 1], k) + (if ds[|ds| - 1].k == k then [ds[|ds| - 1].e] else [])
  }

  /** What the event says about the category by name: a full revoke names the three known ones. */
  function Names(e: Event, category: string): Option<bool> {
    match e
    case Grant(_, granular) => if category in granular then Some(granular[category]) else None
    case RevokeAll =>
      if category in ["calibration_outcomes", "role_success_rates", "pattern_frequencies"] then Some(false) else None
    case RevokeCategory(c) => if category == c then Some(false) else None
  }

  /** The umbrella after the event: as granted, off after a full revoke, and on after a category revoke. */
  predicate Allows(e: Event) { (e.Grant? && e.crossOrg) || e.RevokeCategory? }

  lemma EntriesAreNames(e: Event, category: string)
    ensures Names(e, category) == if category in Entries(e) then Some(Entries(e)[category]) else None
    ensures Allows(e) == Umbrella(e)
  {}

  /** The last event that named the category, looking back through all of them. */
  function LastNamed(es: seq<Event>, category: string): Option<bool> {
    if es == [] then None
    else
      var e := es[|es| - 1];
      if Names(e, category).Some? then Names(e, category) else LastNamed(es[..|es| - 1], category)
  }

  /** What the history says about a category: the last event that named it, else the last event's umbrella. */
  predicate Consented(es: seq<Event>, category: Option<string>) {
    if category.Some? && category.value != "" && LastNamed(es, category.value).Some? then
      LastNamed(es, category.value).value
    else es != [] && Allows(es[|es| - 1])
  }

  ghost predicate SoleRow(rows: seq<PolicyRow>, k: Key, i: nat) {
    && i < |rows| && rows[i].key == k
    && forall j :: 0 <= j < |rows| && rows[j].key == k ==> j == i
  }

  /** The row says what the history says. */
  ghost predicate Agrees(row: PolicyRow, es: seq<Event>) {
    && es != [] && row.policy.withinHub
    && row.policy.crossOrg == Allows(es[|es| - 1])
    && (forall c :: c in row.policy.granular ==> LastNamed(es, c) == Some(row.policy.granular[c]))
    && (forall c :: LastNamed(es, c).Some? ==> c in row.policy.granular)
  }

  lemma AgreesConsents(row: PolicyRow, es: seq<Event>, category: Option<string>)
    requires Agrees(row, es)
    ensures CrossOrgFor(row.policy, category) == Consented(es, category)
  {}

  lemma {:induction false} LastNamedSnoc(es: seq<Event>, e: Event, category: string)
    ensures LastNamed(es + [e], category) ==
      if category in Entries(e) then Some(Entries(e)[category]) else LastNamed(es, category)
  {
    EntriesAreNames(e, category);
    assert (es + [e])[..|es|] == es;
  }

  lemma AgreesStep(before: PolicyRow, after: PolicyRow, es: seq<Event>, e: Event)
    requires es != [] ==> Agrees(before, es)
    requires es == [] ==> before.policy.granular == map[]
    requires after.policy.withinHub
    requires after.policy.crossOrg == Umbrella(e)
    requires after.policy.granular == MergeGranular(before.policy.granular, Entries(e))
    ensures Agrees(after, es + [e])
  {
    forall c ensures LastNamed(es + [e], c) == if c in Entries(e) then Some(Entries(e)[c]) else LastNamed(es, c) {
      LastNamedSnoc(es, e, c);
    }
  }

  /**
   For a scope with both ids: whatever decisions are made on it and on others, it has one
   row once it has been decided on, and the row says exactly what the history says.
   */
  lemma {:induction false} RowRefinesHistory(ds: seq<Ruling>, k: Key) returns (i: nat)
    requires ValidKey(k) && Conflicts(k)
    ensures On(ds, k) == [] ==> forall j :: 0 <= j < |Run(ds)| ==> Run(ds)[j].key != k
    ensures On(ds, k) != [] ==> SoleRow(Run(ds), k, i) && Agrees(Run(ds)[i], On(ds, k))
  {
    i := 0;
    if ds != [] {
      var n := |ds| - 1;
      var d, init := ds[n], ds[..n];
      i := RowRefinesHistory(init, k);
      assert On(ds, k) == if d.k == k then On(init, k) + [d.e] else On(init, k);
      if ValidKey(d.k) {
        if d.k == k {
          i := DecidedStep(Run(init), k, d.e, On(init, k), i);
        } else {
          OtherStep(Run(init), k, d, i);
        }
      }
    }
  }

  lemma DecidedStep(rows: seq<PolicyRow>, k: Key, e: Event, es: seq<Event>, i: nat) returns (i': nat)
    requires Conflicts(k)
    requires es == [] ==> forall j :: 0 <= j < |rows| ==> rows[j].key != k
    requires es != [] ==> SoleRow(rows, k, i) && Agrees(rows[i], es)
    ensures SoleRow(Upsert(rows, k, e), k, i') && Agrees(Upsert(rows, k, e)[i'], es + [e])
  {
    var rows' := Upsert(rows, k, e);
    if es == [] {
      i' := |rows|;
      AgreesStep(PolicyRow(k, DEFAULT_POLICY), rows'[i'], es, e);
    } else {
      i' := i;
      assert FindRow(rows, k) == Some(i);
      AgreesStep(rows[i], rows'[i], es, e);
    }
  }

  lemma OtherStep(rows: seq<PolicyRow>, k: Key, d: Ruling, i: nat)
    requires d.k != k
    ensures var rows' := Upsert(rows, d.k, d.e);
      && ((forall j :: 0 <= j < |rows| ==> rows[j].key != k) ==> forall j :: 0 <= j < |rows'| ==> rows'[j].key != k)
      && (SoleRow(rows, k, i) ==> SoleRow(rows', k, i) && rows'[i] == rows[i])
  {}

  /** Every stored row of the scope answers as the history does. */
  ghost predicate RowsAnswer(ds: seq<Ruling>, k: Key) {
    forall i, category :: 0 <= i < |Run(ds)| && Run(ds)[i].key == k ==>
      CrossOrgFor(Run(ds)[i].policy, category) == Consented(On(ds, k), category)
  }

  /**
   The history is what every stored row answers, for all decisions, exactly when the scope
   names both a hub and a project.
   */
  lemma HistoryRefinedIff(k: Key)
    requires ValidKey(k)
    ensures Conflicts(k) <==> forall ds :: RowsAnswer(ds, k)
  {
    if Conflicts(k) {
      forall ds ensures RowsAnswer(ds, k) {
        var i := RowRefinesHistory(ds, k);
        forall j, category | 0 <= j < |Run(ds)| && Run(ds)[j].key == k
          ensures CrossOrgFor(Run(ds)[j].policy, category) == Consented(On(ds, k), category)
        {
          AgreesConsents(Run(ds)[i], On(ds, k), category);
        }
      }
    } else {
      GrantOutlivesRevoke(k);
    }
  }

  /**
   A scope without a hub or without a project: a grant and a full revoke leave two rows, and
   the first still consents.
   */
  lemma GrantOutlivesRevoke(k: Key)
    requires ValidKey(k) && !Conflicts(k)
    ensures var ds := [Ruling(k, Grant(true, map[])), Ruling(k, RevokeAll)];
      && |Run(ds)| == 2 && Run(ds)[0].key == k
      && CrossOrgFor(Run(ds)[0].policy, None) && !Consented(On(ds, k), None)
      && !RowsAnswer(ds, k)
  {
    var d0, d1 := Ruling(k, Grant(true, map[])), Ruling(k, RevokeAll);
    var ds := [d0, d1];
    assert ds[..1] == [d0] && [d0][..0] == [];
    assert Run([d0]) == [PolicyRow(k, Policy(true, true, MergeGranular(map[], map[])))];
    assert Run(ds) == Upsert(Run([d0]), k, RevokeAll);
    assert On(ds, k) == On([d0], k) + [RevokeAll];
    assert CrossOrgFor(Run(ds)[0].policy, None) != Consented(On(ds, k), None);
  }

  /** A full revoke names exactly the known categories; a category revoke turns the umbrella on. */
  lemma RevokeMeaning(es: seq<Event>, category: string, revoked: string)
    requires category != ""
    ensures Known(category) ==> !Consented(es + [RevokeAll], Some(category))
    ensures !Known(category) ==> Consented(es + [RevokeAll], Some(category)) == (LastNamed(es, category) == Some(true))
    ensures !Consented(es + [RevokeCategory(category)], Some(category))
    ensures category != revoked && LastNamed(es, category).None? ==>
      Consented(es + [RevokeCategory(revoked)], Some(category))
  {
    LastNamedSnoc(es, RevokeAll, category);
    LastNamedSnoc(es, RevokeCategory(category), category);
    LastNamedSnoc(es, RevokeCategory(revoked), category);
  }

  predicate Named(es: seq<Event>, category: Option<string>) {
    category.Some? && category.value != "" && LastNamed(es, category.value).Some?
  }

  /**
   The promise that a category revoke leaves every other answer as it was, the umbrella's
   included, is kept exactly where the category was named before or the umbrella was on.
   */
  lemma CategoryRevokeKeepsOthersIff(es: seq<Event>, category: Option<string>, revoked: string)
    requires category != Some(revoked)
    ensures Consented(es + [RevokeCategory(revoked)], category) == Consented(es, category) <==>
      Named(es, category) || (es != [] && Allows(es[|es| - 1]))
  {
    ConsentedAfterRevoke(es, category, revoked);
  }

  /** After a category revoke every other answer is the named one, or yes. */
  lemma ConsentedAfterRevoke(es: seq<Event>, category: Option<string>, revoked: string)
    requires category != Some(revoked)
    ensures Consented(es + [RevokeCategory(revoked)], category) == (Named(es, category) ==> Consented(es, category))
  {
    var e := RevokeCategory(revoked);
    var after := es + [e];
    assert after[|after| - 1] == e;
    if category.Some? {
      LastNamedSnoc(es, e, category.value);
      assert category.value !in Entries(e);
    }
  }

  /** Nobody ever consented; revoking one category consents to the umbrella and to every other category. */
  lemma CategoryRevokeGrants(category: Option<string>, revoked: string)
    requires category != Some(revoked)
    ensures !Consented([], category) && Consented([RevokeCategory(revoked)], category)
  {
    assert [] + [RevokeCategory(revoked)] == [RevokeCategory(revoked)];
    CategoryRevokeKeepsOthersIff([], category, revoked);
  }
}
