/**
 The hub registry, the consent table and the update cascade over one shared database.
 Times, hub metadata and audit events are left out; a uuid is a string.  What the
 environment decides (the sanity smoke, fresh ids, failing inserts) is a parameter.
 */
module Federation {
  import opened Wrappers

  // ---------- tables ----------

  datatype ConsentStatus = Waiting | Active | Suspended | Revoked

  /** A row of `spine_federation.hub`; the table is in registration order. */
  datatype Hub = Hub(id: string, parent: Option<string>, status: ConsentStatus)

  datatype ConsentRecord = ConsentRecord(child: string, parent: string, consentClass: string, grantedBy: string)

  datatype RolloutStatus = Pending | InProgress | Completed | Failed | RolledBack

  /** A row of `spine_federation.update_distribution`, keyed by id. */
  datatype Row = Row(
    source: string,
    target: string,
    version: string,
    signature: string,
    status: RolloutStatus,
    approvedBy: Option<string>)

  datatype Db = Db(hubs: seq<Hub>, consents: seq<ConsentRecord>, rows: map<string, Row>)

  /**
   What happened to rows, beyond what the table keeps: for each row the ids from its seed
   down to itself, and for each row ever completed the approver.
   */
  datatype History = History(lineage: map<string, seq<string>>, completedBy: map<string, string>)

  datatype World = World(db: Db, hist: History)

  const EMPTY := World(Db([], [], map[]), History(map[], map[]))

  datatype FederationError =
    | ApprovalRequired | NotFound | NotPending | SmokeFailed
    | UniqueViolation | ForeignKeyViolation | HubNotFound | GrantedByRequired | MandatoryFlowDenied

  datatype Outcome =
    | Refused(error: FederationError)
    | Cascaded(status: RolloutStatus, attempted: nat, succeeded: nat, failed: nat)

  // ---------- hub registry ----------

  predicate Registered(hubs: seq<Hub>, id: string) {
    exists i :: 0 <= i < |hubs| && hubs[i].id == id
  }

  /** The insert of `_insert`: unique id, and a parent that exists (or is the row itself). */
  function InsertHub(db: Db, hub: Hub): (Db, Option<FederationError>) {
    if Registered(db.hubs, hub.id) then (db, Some(UniqueViolation))
    else if hub.parent.Some? && hub.parent.value != hub.id && !Registered(db.hubs, hub.parent.value) then
      (db, Some(ForeignKeyViolation))
    else (db.(hubs := db.hubs + [hub]), None)
  }

  function RegisterChild(db: Db, child: string, parent: string, status: ConsentStatus): (Db, Option<FederationError>) {
    InsertHub(db, Hub(child, Some(parent), status))
  }

  /** Insert or fetch: a hub that is already there stays as it is. */
  function BootstrapLocalHub(db: Db, id: string, parent: Option<string>): (Db, Option<FederationError>) {
    if Registered(db.hubs, id) then (db, None) else InsertHub(db, Hub(id, parent, Active))
  }

  function SetConsentStatus(db: Db, id: string, status: ConsentStatus): (Db, Option<FederationError>) {
    if !Registered(db.hubs, id) then (db, Some(HubNotFound))
    else (db.(hubs := WithStatus(db.hubs, id, status)), None)
  }

  function WithStatus(hubs: seq<Hub>, id: string, status: ConsentStatus): (r: seq<Hub>)
    ensures |r| == |hubs|
    ensures forall i :: 0 <= i < |r| ==> r[i].id == hubs[i].id && r[i].parent == hubs[i].parent
    ensures forall i :: 0 <= i < |r| ==> r[i].status == if hubs[i].id == id then status else hubs[i].status
  {
    seq(|hubs|, i requires 0 <= i < |hubs| => if hubs[i].id == id then hubs[i].(status := status) else hubs[i])
  }

  /** `list_children`, in registration order. */
  function ListChildren(hubs: seq<Hub>, parent: string): seq<Hub> {
    if hubs == [] then []
    else (if hubs[0].parent == Some(parent) then [hubs[0]] else []) + ListChildren(hubs[1..], parent)
  }

  // ---------- consent ----------

  datatype MandatoryClass = MandatoryClass(consentClass: string, rationale: string)

  predicate IsMandatory(mandatory: seq<MandatoryClass>, consentClass: string) {
    exists i :: 0 <= i < |mandatory| && mandatory[i].consentClass == consentClass
  }

  predicate Mentions(r: ConsentRecord, peer: string, consentClass: string) {
    r.consentClass == consentClass && (r.child == peer || r.parent == peer)
  }

  /** `is_allowed`: mandatory classes first, then any record that mentions the peer, else no. */
  predicate IsAllowed(mandatory: seq<MandatoryClass>, consents: seq<ConsentRecord>, peer: string, consentClass: string)
  {
    || IsMandatory(mandatory, consentClass)
    || exists i :: 0 <= i < |consents| && Mentions(consents[i], peer, consentClass)
  }

  function Grant(db: Db, r: ConsentRecord): (Db, Option<FederationError>) {
    if r.grantedBy == "" then (db, Some(GrantedByRequired))
    else if !Registered(db.hubs, r.child) || !Registered(db.hubs, r.parent) then (db, Some(ForeignKeyViolation))
    else (db.(consents := db.consents + [r]), None)
  }

  predicate SameTriple(r: ConsentRecord, child: string, parent: string, consentClass: string) {
    r.child == child && r.parent == parent && r.consentClass == consentClass
  }

  function Without(consents: seq<ConsentRecord>, child: string, parent: string, consentClass: string)
    : seq<ConsentRecord>
  {
    if consents == [] then []
    else
      (if SameTriple(consents[0], child, parent, consentClass) then [] else [consents[0]])
      + Without(consents[1..], child, parent, consentClass)
  }

  function Revoke(db: Db, mandatory: seq<MandatoryClass>, child: string, parent: string, consentClass: string)
    : (Db, Option<FederationError>)
  {
    if IsMandatory(mandatory, consentClass) then (db, Some(MandatoryFlowDenied))
    else (db.(consents := Without(db.consents, child, parent, consentClass)), None)
  }

  lemma {:induction false} WithoutContents(consents: seq<ConsentRecord>, child: string, parent: string,
                                           consentClass: string, r: ConsentRecord)
    ensures r in Without(consents, child, parent, consentClass) <==>
      r in consents && !SameTriple(r, child, parent, consentClass)
  {
    if consents != [] { WithoutContents(consents[1..], child, parent, consentClass, r); }
  }

  /**
   After a revoke, a peer is still allowed a non-mandatory class exactly when some other
   record of that class mentions it; nothing else about the table changes.
   */
  lemma RevokeEffect(db: Db, mandatory: seq<MandatoryClass>, child: string, parent: string, consentClass: string,
                     peer: string)
    requires !IsMandatory(mandatory, consentClass)
    ensures var db' := Revoke(db, mandatory, child, parent, consentClass).0;
      && db'.hubs == db.hubs && db'.rows == db.rows
      && (forall r :: r in db'.consents <==>
            r in db.consents && !(r.child == child && r.parent == parent && r.consentClass == consentClass))
      && (IsAllowed(mandatory, db'.consents, peer, consentClass) <==>
            exists r :: r in db.consents && r.consentClass == consentClass && (r.child == peer || r.parent == peer)
              && !(r.child == child && r.parent == parent))
  {
    var after := Without(db.consents, child, parent, consentClass);
    if i :| 0 <= i < |after| && Mentions(after[i], peer, consentClass) {
      WithoutContents(db.consents, child, parent, consentClass, after[i]);
      assert after[i] in after;
    }
    forall r ensures r in after <==> r in db.consents && !SameTriple(r, child, parent, consentClass) {
      WithoutContents(db.consents, child, parent, consentClass, r);
    }
    if r :| r in db.consents && Mentions(r, peer, consentClass) && !SameTriple(r, child, parent, consentClass) {
      assert r in after;
      var i :| 0 <= i < |after| && after[i] == r;
    }
  }

  /** A grant allows the class to both hubs of the record, and to nobody else. */
  lemma GrantEffect(db: Db, mandatory: seq<MandatoryClass>, r: ConsentRecord, peer: string, consentClass: string)
    ensures var (db', error) := Grant(db, r);
      && (error.None? <==> r.grantedBy != "" && Registered(db.hubs, r.child) && Registered(db.hubs, r.parent))
      && (error == Some(GrantedByRequired) <==> r.grantedBy == "")
      && db'.hubs == db.hubs && db'.rows == db.rows && (error.Some? ==> db' == db)
      && (error.None? ==>
            (IsAllowed(mandatory, db'.consents, peer, consentClass) <==>
              || IsAllowed(mandatory, db.consents, peer, consentClass)
              || (r.consentClass == consentClass && (peer == r.child || peer == r.parent))))
  {
    var after := db.consents + [r];
    if Mentions(r, peer, consentClass) { assert Mentions(after[|db.consents|], peer, consentClass); }
    if i :| 0 <= i < |db.consents| && Mentions(db.consents[i], peer, consentClass) {
      assert Mentions(after[i], peer, consentClass);
    }
  }

  lemma {:induction false} ChildrenSnoc(hubs: seq<Hub>, hub: Hub, parent: string)
    ensures ListChildren(hubs + [hub], parent) ==
      ListChildren(hubs, parent) + (if hub.parent == Some(parent) then [hub] else [])
  {
    if hubs == [] {
      assert hubs + [hub] == [hub] && [hub][1..] == [];
    } else {
      assert (hubs + [hub])[1..] == hubs[1..] + [hub];
      ChildrenSnoc(hubs[1..], hub, parent);
    }
  }

  /** Registering a child adds it, as it was given, behind its parent's children and to no other hub's. */
  lemma RegisterEffect(db: Db, child: string, parent: string, status: ConsentStatus, other: string)
    ensures var (db', error) := RegisterChild(db, child, parent, status);
      && (error.None? <==> !Registered(db.hubs, child) && (parent == child || Registered(db.hubs, parent)))
      && (error == Some(UniqueViolation) <==> Registered(db.hubs, child))
      && (error.Some? ==> db' == db)
      && (error.None? ==>
            && ListChildren(db'.hubs, parent) == ListChildren(db.hubs, parent) + [Hub(child, Some(parent), status)]
            && (other != parent ==> ListChildren(db'.hubs, other) == ListChildren(db.hubs, other))
            && db'.consents == db.consents && db'.rows == db.rows)
  {
    ChildrenSnoc(db.hubs, Hub(child, Some(parent), status), parent);
    ChildrenSnoc(db.hubs, Hub(child, Some(parent), status), other);
  }

  /** Bootstrapping twice is bootstrapping once; a new local hub is active. */
  lemma BootstrapEffect(db: Db, id: string, parent: Option<string>)
    ensures var (db', error) := BootstrapLocalHub(db, id, parent);
      && (Registered(db.hubs, id) ==> db' == db && error.None?)
      && (!Registered(db.hubs, id) && error.None? ==> db'.hubs == db.hubs + [Hub(id, parent, Active)])
      && (error.None? ==> Registered(db'.hubs, id) && BootstrapLocalHub(db', id, parent) == (db', None))
  {
    if !Registered(db.hubs, id) { assert (db.hubs + [Hub(id, parent, Active)])[|db.hubs|].id == id; }
  }

  /** Only the status of the hub of that id changes. */
  lemma SetStatusEffect(db: Db, id: string, status: ConsentStatus, i: nat)
    requires i < |db.hubs|
    ensures var (db', error) := SetConsentStatus(db, id, status);
      && (error == Some(HubNotFound) <==> !Registered(db.hubs, id))
      && |db'.hubs| == |db.hubs| && db'.consents == db.consents && db'.rows == db.rows
      && db'.hubs[i] == (if db.hubs[i].id == id then db.hubs[i].(status := status) else db.hubs[i])
  {
    if db.hubs[i].id == id { assert Registered(db.hubs, id); }
  }

  // ---------- update distribution ----------

  /** `pull_pending`, without its order by creation time. */
  function PullPending(db: Db, hub: string): set<string> {
    set id | id in db.rows && db.rows[id].target == hub && db.rows[id].status == Pending
  }

  /** `_set_status`: an update of no row when the id is unknown. */
  function SetStatus(db: Db, id: string, status: RolloutStatus, approvedBy: Option<string>): Db {
    if id !in db.rows then db
    else
      var row := db.rows[id].(status := status);
      db.(rows := db.rows[id := if approvedBy.Some? then row.(approvedBy := approvedBy) else row])
  }

  /** What the environment does with the insert for one child. */
  datatype Attempt = Attempt(newId: string, fails: bool)

  predicate CanInsert(db: Db, a: Attempt, source: string, target: string) {
    !a.fails && a.newId !in db.rows && Registered(db.hubs, source) && Registered(db.hubs, target)
  }

  /** `_insert_child_update`, with the new row's lineage recorded; an insert that cannot happen raises. */
  function InsertChild(w: World, a: Attempt, source: string, target: string, parentId: string, rec: Row): World {
    if !CanInsert(w.db, a, source, target) then w
    else
      World(
        w.db.(rows := w.db.rows[a.newId := Row(source, target, rec.version, rec.signature, Pending, None)]),
        w.hist.(lineage := w.hist.lineage[a.newId := LineageOf(w.hist, parentId) + [a.newId]]))
  }

  function LineageOf(hist: History, id: string): seq<string> {
    if id in hist.lineage then hist.lineage[id] else []
  }

  predicate Pushes(mandatory: seq<MandatoryClass>, consents: seq<ConsentRecord>, child: Hub) {
    child.status == Active && IsAllowed(mandatory, consents, child.id, "update_push")
  }

  datatype Progress = Progress(w: World, attempted: nat, succeeded: nat, failed: nat)

  /** The loop of `_cascade_to_children` over the given children. */
  function CascadeTo(w: World, local: string, parentId: string, rec: Row, children: seq<Hub>,
                     mandatory: seq<MandatoryClass>, env: string -> Attempt): Progress
  {
    if children == [] then Progress(w, 0, 0, 0)
    else
      var n := |children| - 1;
      var p := CascadeTo(w, local, parentId, rec, children[..n], mandatory, env);
      var child := children[n];
      if !Pushes(mandatory, w.db.consents, child) then p
      else
        var ok := CanInsert(p.w.db, env(child.id), local, child.id);
        Progress(InsertChild(p.w, env(child.id), local, child.id, parentId, rec),
                 p.attempted + 1,
                 if ok then p.succeeded + 1 else p.succeeded,
                 if ok then p.failed else p.failed + 1)
  }

  datatype Smoke = Passes | ReturnsFalse | Raises

  function MarkCompleted(w: World, id: string, who: string): World {
    World(SetStatus(SetStatus(w.db, id, InProgress, Some(who)), id, Completed, None),
          w.hist.(completedBy := w.hist.completedBy[id := who]))
  }

  function ApproveAndApply(w: World, local: string, id: string, who: string, rationale: string, smoke: Smoke,
                           mandatory: seq<MandatoryClass>, env: string -> Attempt): (World, Outcome)
  {
    if who == "" || rationale == "" then (w, Refused(ApprovalRequired))
    else if id !in w.db.rows then (w, Refused(NotFound))
    else if w.db.rows[id].status != Pending then (w, Refused(NotPending))
    else if smoke != Passes then
      (w.(db := SetStatus(SetStatus(w.db, id, InProgress, Some(who)), id, Failed, None)), Refused(SmokeFailed))
    else
      var w1 := MarkCompleted(w, id, who);
      var p := CascadeTo(w1, local, id, w.db.rows[id], ListChildren(w.db.hubs, local), mandatory, env);
      (p.w, Cascaded(Completed, p.attempted, p.succeeded, p.failed))
  }

  /** `reject`: whatever the status was, and without a word when the id is unknown. */
  function Reject(w: World, id: string, who: string, rationale: string): (World, Outcome) {
    if who == "" || rationale == "" then (w, Refused(ApprovalRequired))
    else (w.(db := SetStatus(w.db, id, RolledBack, Some(who))), Cascaded(RolledBack, 0, 0, 0))
  }

  // ---------- the code as it runs ----------

  class Database {
    var hubs: seq<Hub>
    var consents: seq<ConsentRecord>
    var rows: map<string, Row>
    ghost var hist: History

    ghost function State(): World
      reads this
    {
      World(Db(hubs, consents, rows), hist)
    }

    constructor ()
      ensures State() == EMPTY
    {
      hubs, consents, rows, hist := [], [], map[], History(map[], map[]);
    }

    method UpdateStatus(id: string, status: RolloutStatus, approvedBy: Option<string>)
      modifies this
      ensures State() == old(State()).(db := SetStatus(old(State()).db, id, status, approvedBy))
    {
      if id in rows {
        var row := rows[id].(status := status);
        if approvedBy.Some? { row := row.(approvedBy := approvedBy); }
        rows := rows[id := row];
      }
    }

    /** ok is false when the insert raised. */
    method InsertChildUpdate(a: Attempt, source: string, target: string, ghost parentId: string, rec: Row)
      returns (ok: bool)
      modifies this
      ensures State() == InsertChild(old(State()), a, source, target, parentId, rec)
      ensures ok == CanInsert(old(State()).db, a, source, target)
    {
      ok := !a.fails && a.newId !in rows && Registered(hubs, source) && Registered(hubs, target);
      if ok {
        rows := rows[a.newId := Row(source, target, rec.version, rec.signature, Pending, None)];
        hist := hist.(lineage := hist.lineage[a.newId := LineageOf(hist, parentId) + [a.newId]]);
      }
    }
  }

  class UpdateCascade {
    const db: Database
    const localHub: string
    const mandatory: seq<MandatoryClass>

    constructor (db: Database, localHub: string, mandatory: seq<MandatoryClass>)
      ensures this.db == db && this.localHub == localHub && this.mandatory == mandatory
    {
      this.db, this.localHub, this.mandatory := db, localHub, mandatory;
    }

    method CascadeToChildren(id: string, rec: Row, env: string -> Attempt) returns (r: Outcome)
      modifies db
      ensures var children := ListChildren(old(db.hubs), localHub);
        var p := CascadeTo(old(db.State()), localHub, id, rec, children, mandatory, env);
        && db.State() == p.w
        && r == Cascaded(Completed, p.attempted, p.succeeded, p.failed)
    {
      var children := ListChildren(db.hubs, localHub);
      ghost var w := db.State();
      var attempted, succeeded, failed := 0, 0, 0;
      for i := 0 to |children|
        invariant CascadeTo(w, localHub, id, rec, children[..i], mandatory, env) ==
          Progress(db.State(), attempted, succeeded, failed)
        invariant db.hubs == old(db.hubs) && db.consents == old(db.consents)
      {
        assert children[..i + 1][..i] == children[..i];
        var child := children[i];
        if child.status == Active && IsAllowed(mandatory, db.consents, child.id, "update_push") {
          attempted := attempted + 1;
          var ok := db.InsertChildUpdate(env(child.id), localHub, child.id, id, rec);
          if ok {
            succeeded := succeeded + 1;
          } else {
            failed := failed + 1;
          }
        }
      }
      assert children[..|children|] == children;
      return Cascaded(Completed, attempted, succeeded, failed);
    }

    method Approve(id: string, who: string, rationale: string, smoke: Smoke, env: string -> Attempt)
      returns (r: Outcome)
      modifies db
      ensures (db.State(), r) == ApproveAndApply(old(db.State()), localHub, id, who, rationale, smoke, mandatory, env)
    {
      if who == "" || rationale == "" { return Refused(ApprovalRequired); }
      if id !in db.rows { return Refused(NotFound); }
      var rec := db.rows[id];
      if rec.status != Pending { return Refused(NotPending); }
      db.UpdateStatus(id, InProgress, Some(who));
      if smoke != Passes {
        db.UpdateStatus(id, Failed, None);
        return Refused(SmokeFailed);
      }
      db.UpdateStatus(id, Completed, None);
      db.hist := db.hist.(completedBy := db.hist.completedBy[id := who]);
      r := CascadeToChildren(id, rec, env);
    }

    method RejectUpdate(id: string, who: string, rationale: string) returns (r: Outcome)
      modifies db
      ensures (db.State(), r) == Reject(old(db.State()), id, who, rationale)
    {
      if who == "" || rationale == "" { return Refused(ApprovalRequired); }
      db.UpdateStatus(id, RolledBack, Some(who));
      return Cascaded(RolledBack, 0, 0, 0);
    }
  }

  class HubRegistry {
    const db: Database

    constructor (db: Database)
      ensures this.db == db
    {
      this.db := db;
    }

    method Insert(hub: Hub) returns (error: Option<FederationError>)
      modifies db
      ensures (db.State().db, error) == InsertHub(old(db.State()).db, hub) && db.hist == old(db.hist)
    {
      if Registered(db.hubs, hub.id) { return Some(UniqueViolation); }
      if hub.parent.Some? && hub.parent.value != hub.id && !Registered(db.hubs, hub.parent.value) {
        return Some(ForeignKeyViolation);
      }
      db.hubs := db.hubs + [hub];
      return None;
    }

    method Register(child: string, parent: string, status: ConsentStatus) returns (error: Option<FederationError>)
      modifies db
      ensures (db.State().db, error) == RegisterChild(old(db.State()).db, child, parent, status)
        && db.hist == old(db.hist)
    {
      error := Insert(Hub(child, Some(parent), status));
    }

    method Bootstrap(id: string, parent: Option<string>) returns (error: Option<FederationError>)
      modifies db
      ensures (db.State().db, error) == BootstrapLocalHub(old(db.State()).db, id, parent) && db.hist == old(db.hist)
    {
      if Registered(db.hubs, id) { return None; }
      error := Insert(Hub(id, parent, Active));
    }

    method SetStatusOf(id: string, status: ConsentStatus) returns (error: Option<FederationError>)
      modifies db
      ensures (db.State().db, error) == SetConsentStatus(old(db.State()).db, id, status) && db.hist == old(db.hist)
    {
      if !Registered(db.hubs, id) { return Some(HubNotFound); }
      db.hubs := WithStatus(db.hubs, id, status);
      return None;
    }
  }

  class ConsentEngine {
    const db: Database
    const mandatory: seq<MandatoryClass>

    constructor (db: Database, mandatory: seq<MandatoryClass>)
      ensures this.db == db && this.mandatory == mandatory
    {
      this.db, this.mandatory := db, mandatory;
    }

    method GrantConsent(r: ConsentRecord) returns (error: Option<FederationError>)
      modifies db
      ensures (db.State().db, error) == Grant(old(db.State()).db, r) && db.hist == old(db.hist)
    {
      if r.grantedBy == "" { return Some(GrantedByRequired); }
      if !Registered(db.hubs, r.child) || !Registered(db.hubs, r.parent) { return Some(ForeignKeyViolation); }
      db.consents := db.consents + [r];
      return None;
    }

    method RevokeConsent(child: string, parent: string, consentClass: string) returns (error: Option<FederationError>)
      modifies db
      ensures (db.State().db, error) == Revoke(old(db.State()).db, mandatory, child, parent, consentClass)
        && db.hist == old(db.hist)
    {
      if IsMandatory(mandatory, consentClass) { return Some(MandatoryFlowDenied); }
      db.consents := Without(db.consents, child, parent, consentClass);
      return None;
    }
  }
}
