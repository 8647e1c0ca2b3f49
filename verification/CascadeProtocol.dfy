/**
 What every run of the federation keeps: an update reaches a hub at most once, and only
 along approvals from its seed.  A run is any sequence of the operations of Federation.
 */
module CascadeProtocol {
  import opened Wrappers
  import opened Federation

  /** Seed is the vendor side writing a first row; the rest are the operations of the hubs. */
  datatype Step =
    | Seed(id: string, source: string, target: string, version: string, signature: string)
    | Approve(hub: string, id: string, who: string, rationale: string, smoke: Smoke,
              mandatory: seq<MandatoryClass>, env: string -> Attempt)
    | RejectRow(id: string, who: string, rationale: string)
    | Register(child: string, parent: string, status: ConsentStatus)
    | Bootstrap(id: string, under: Option<string>)
    | SetConsent(id: string, status: ConsentStatus)
    | GrantConsent(record: ConsentRecord)
    | RevokeConsent(mandatory: seq<MandatoryClass>, child: string, parent: string, consentClass: string)

  /** An approval concerns a row the hub got from `pull_pending`. */
  predicate Legal(w: World, s: Step) {
    s.Approve? ==> s.id in PullPending(w.db, s.hub)
  }

  function InsertSeed(w: World, s: Step): World
    requires s.Seed?
  {
    if s.id in w.db.rows || !Registered(w.db.hubs, s.source) || !Registered(w.db.hubs, s.target) then w
    else
      World(w.db.(rows := w.db.rows[s.id := Row(s.source, s.target, s.version, s.signature, Pending, None)]),
            w.hist.(lineage := w.hist.lineage[s.id := [s.id]]))
  }

  function Next(w: World, s: Step): World {
    match s
    case Seed(_, _, _, _, _) => InsertSeed(w, s)
    case Approve(hub, id, who, rationale, smoke, mandatory, env) =>
      ApproveAndApply(w, hub, id, who, rationale, smoke, mandatory, env).0
    case RejectRow(id, who, rationale) => Reject(w, id, who, rationale).0
    case Register(child, parent, status) => w.(db := RegisterChild(w.db, child, parent, status).0)
    case Bootstrap(id, parent) => w.(db := BootstrapLocalHub(w.db, id, parent).0)
    case SetConsent(id, status) => w.(db := SetConsentStatus(w.db, id, status).0)
    case GrantConsent(r) => w.(db := Grant(w.db, r).0)
    case RevokeConsent(m, child, parent, c) => w.(db := Federation.Revoke(w.db, m, child, parent, c).0)
  }

  function Run(w: World, steps: seq<Step>): World {
    if steps == [] then w else Next(Run(w, steps[..|steps| - 1]), steps[|steps| - 1])
  }

  predicate LegalRun(w: World, steps: seq<Step>) {
    forall i :: 0 <= i < |steps| ==> Legal(Run(w, steps[..i]), steps[i])
  }

  /** No hub of the table is its own parent. */
  ghost predicate NoSelfParent(hubs: seq<Hub>) {
    forall i :: 0 <= i < |hubs| ==> hubs[i].parent != Some(hubs[i].id)
  }

  // ---------- the hub forest ----------

  ghost predicate Edge(hubs: seq<Hub>, parent: string, child: string) {
    exists i :: 0 <= i < |hubs| && hubs[i].id == child && hubs[i].parent == Some(parent)
  }

  ghost predicate UniqueHubs(hubs: seq<Hub>) {
    forall i, j :: 0 <= i < j < |hubs| ==> hubs[i].id != hubs[j].id
  }

  /** Hubs are registered after their parents. */
  ghost predicate Forest(hubs: seq<Hub>) {
    && UniqueHubs(hubs)
    && forall i :: 0 <= i < |hubs| && hubs[i].parent.Some? ==> Registered(hubs[..i], hubs[i].parent.value)
  }

  /** The place of a hub in the table. */
  function Pos(hubs: seq<Hub>, id: string): nat {
    if hubs == [] || hubs[0].id == id then 0 else 1 + Pos(hubs[1..], id)
  }

  lemma {:induction false} PosAt(hubs: seq<Hub>, i: nat)
    requires UniqueHubs(hubs) && i < |hubs|
    ensures Pos(hubs, hubs[i].id) == i
  {
    if i > 0 { PosAt(hubs[1..], i - 1); }
  }

  lemma EdgeRises(hubs: seq<Hub>, parent: string, child: string)
    requires Forest(hubs) && Edge(hubs, parent, child)
    ensures Pos(hubs, parent) < Pos(hubs, child)
  {
    var i :| 0 <= i < |hubs| && hubs[i].id == child && hubs[i].parent == Some(parent);
    var j :| 0 <= j < |hubs[..i]| && hubs[..i][j].id == parent;
    PosAt(hubs, i);
    PosAt(hubs, j);
  }

  lemma OneParent(hubs: seq<Hub>, p: string, q: string, child: string)
    requires UniqueHubs(hubs) && Edge(hubs, p, child) && Edge(hubs, q, child)
    ensures p == q
  {
    var i :| 0 <= i < |hubs| && hubs[i].id == child && hubs[i].parent == Some(p);
    var j :| 0 <= j < |hubs| && hubs[j].id == child && hubs[j].parent == Some(q);
    assert i == j;
  }

  lemma {:induction false} ChildrenAre(hubs: seq<Hub>, parent: string)
    ensures forall c :: c in ListChildren(hubs, parent) ==> c in hubs && c.parent == Some(parent)
    ensures forall c :: c in hubs && c.parent == Some(parent) ==> c in ListChildren(hubs, parent)
  {
    if hubs != [] { ChildrenAre(hubs[1..], parent); }
  }

  lemma {:induction false} ChildrenUnique(hubs: seq<Hub>, parent: string)
    requires UniqueHubs(hubs)
    ensures UniqueHubs(ListChildren(hubs, parent))
  {
    if hubs != [] {
      ChildrenUnique(hubs[1..], parent);
      ChildrenAre(hubs[1..], parent);
      var rest := ListChildren(hubs[1..], parent);
      forall j | 0 <= j < |rest| ensures rest[j].id != hubs[0].id {
        assert rest[j] in hubs[1..];
      }
    }
  }

  // ---------- the invariant ----------

  /** Row r was pushed by the completed row q, one step down the tree, with the same update. */
  ghost predicate PushedBy(w: World, q: string, r: string) {
    && q in w.db.rows && r in w.db.rows
    && q in w.hist.completedBy && w.hist.completedBy[q] != ""
    && w.db.rows[r].source == w.db.rows[q].target
    && Edge(w.db.hubs, w.db.rows[q].target, w.db.rows[r].target)
    && w.db.rows[r].version == w.db.rows[q].version
    && w.db.rows[r].signature == w.db.rows[q].signature
  }

  /**
   Row r's line of descent ends in r and starts in a seed; above r stands the row that
   pushed it, whose own line is the rest; and a row once completed is not pending.
   */
  ghost predicate RowOk(w: World, r: string)
    requires r in w.hist.lineage
  {
    var l := w.hist.lineage[r];
    && l != [] && l[|l| - 1] == r
    && l[0] in w.db.rows && l[0] in w.hist.lineage && w.hist.lineage[l[0]] == [l[0]]
    && r in w.db.rows
    && Registered(w.db.hubs, w.db.rows[r].target)
    && (|l| >= 2 ==> Above(l) in w.hist.lineage && w.hist.lineage[Above(l)] == l[..|l| - 1] && PushedBy(w, Above(l), r))
    && (r in w.hist.completedBy ==> w.db.rows[r].status != Pending)
  }

  function Above(l: seq<string>): string
    requires |l| >= 2
  {
    l[|l| - 2]
  }

  /** The seed a row descends from. */
  function Root(w: World, r: string): string {
    if r in w.hist.lineage && w.hist.lineage[r] != [] then w.hist.lineage[r][0] else r
  }

  ghost predicate SameUpdateSameHub(w: World, r: string, r': string) {
    && r in w.db.rows && r' in w.db.rows
    && Root(w, r) == Root(w, r')
    && w.db.rows[r].target == w.db.rows[r'].target
  }

  /** Each seeded update has at most one row per hub. */
  ghost predicate AtMostOnce(w: World) {
    forall r, r' :: SameUpdateSameHub(w, r, r') ==> r == r'
  }

  /** What holds of the rows in every run, whatever the hub table looks like. */
  ghost predicate Lines(w: World) {
    && w.hist.lineage.Keys == w.db.rows.Keys
    && w.hist.completedBy.Keys <= w.db.rows.Keys
    && (forall r {:trigger RowOk(w, r)} :: r in w.hist.lineage ==> RowOk(w, r))
  }

  ghost predicate Inv(w: World) { Forest(w.db.hubs) && Lines(w) && AtMostOnce(w) }

  // ---------- lines of descent ----------

  lemma {:induction false} LineRises(w: World, r: string)
    requires Inv(w) && r in w.db.rows
    ensures Root(w, r) in w.db.rows
    ensures Pos(w.db.hubs, w.db.rows[Root(w, r)].target) <= Pos(w.db.hubs, w.db.rows[r].target)
    decreases |w.hist.lineage[r]|
  {
    var l := w.hist.lineage[r];
    assert RowOk(w, r);
    if |l| >= 2 {
      var q := Above(l);
      EdgeRises(w.db.hubs, w.db.rows[q].target, w.db.rows[r].target);
      LineRises(w, q);
      assert Root(w, q) == Root(w, r);
    } else {
      assert l == [r];
    }
  }

  /** Rows differ, or the table is unchanged, only in ways the lines of descent do not see. */
  ghost predicate SameRows(w: World, v: World) {
    && v.hist.lineage == w.hist.lineage
    && v.db.rows.Keys == w.db.rows.Keys
    && (forall r :: r in w.db.rows ==>
          && v.db.rows[r].source == w.db.rows[r].source
          && v.db.rows[r].target == w.db.rows[r].target
          && v.db.rows[r].version == w.db.rows[r].version
          && v.db.rows[r].signature == w.db.rows[r].signature)
  }

  /** The hubs of w are those of v, in place, with the same parents; v may have more. */
  ghost predicate HubsKept(hubs: seq<Hub>, hubs': seq<Hub>) {
    && |hubs| <= |hubs'|
    && forall i :: 0 <= i < |hubs| ==> hubs'[i].id == hubs[i].id && hubs'[i].parent == hubs[i].parent
  }

  lemma PushedByKept(w: World, v: World, q: string, r: string)
    requires PushedBy(w, q, r) && SameRows(w, v) && HubsKept(w.db.hubs, v.db.hubs)
    requires q in v.hist.completedBy && v.hist.completedBy[q] == w.hist.completedBy[q]
    ensures PushedBy(v, q, r)
  {
    var k :| 0 <= k < |w.db.hubs| && w.db.hubs[k].id == w.db.rows[r].target
      && w.db.hubs[k].parent == Some(w.db.rows[q].target);
    assert v.db.hubs[k].id == v.db.rows[r].target && v.db.hubs[k].parent == Some(v.db.rows[q].target);
  }

  lemma RegisteredKept(hubs: seq<Hub>, hubs': seq<Hub>, id: string)
    requires Registered(hubs, id) && HubsKept(hubs, hubs')
    ensures Registered(hubs', id)
  {
    var i :| 0 <= i < |hubs| && hubs[i].id == id;
    assert hubs'[i].id == id;
  }

  lemma LinesKept(w: World, v: World)
    requires Lines(w) && SameRows(w, v) && HubsKept(w.db.hubs, v.db.hubs)
    requires v.hist.completedBy.Keys <= v.db.rows.Keys
    requires forall r :: r in w.hist.completedBy ==>
      r in v.hist.completedBy && v.hist.completedBy[r] == w.hist.completedBy[r]
    requires forall r :: r in v.hist.completedBy ==> v.db.rows[r].status != Pending
    ensures Lines(v)
  {
    forall r | r in v.hist.lineage ensures RowOk(v, r) {
      assert RowOk(w, r);
      RegisteredKept(w.db.hubs, v.db.hubs, w.db.rows[r].target);
      if |w.hist.lineage[r]| >= 2 { PushedByKept(w, v, Above(w.hist.lineage[r]), r); }
    }
  }

  lemma OnceKept(w: World, v: World)
    requires AtMostOnce(w) && SameRows(w, v)
    ensures AtMostOnce(v)
  {
    forall r, r' | SameUpdateSameHub(v, r, r') ensures r == r' {
      assert SameUpdateSameHub(w, r, r');
    }
  }

  // ---------- inserting rows ----------

  /** A new row n, at hub t, below the line l. */
  function AddRow(w: World, n: string, row: Row, l: seq<string>): World {
    World(w.db.(rows := w.db.rows[n := row]), w.hist.(lineage := w.hist.lineage[n := l + [n]]))
  }

  lemma AddRowKeepsLines(w: World, n: string, row: Row, l: seq<string>)
    requires Lines(w) && n !in w.db.rows && row.status == Pending && Registered(w.db.hubs, row.target)
    requires l != [] ==>
      && l[|l| - 1] in w.db.rows && w.hist.lineage[l[|l| - 1]] == l
      && PushedBy(AddRow(w, n, row, l), l[|l| - 1], n)
    ensures Lines(AddRow(w, n, row, l))
  {
    var v := AddRow(w, n, row, l);
    if l != [] { assert RowOk(w, l[|l| - 1]); }
    forall r | r in v.hist.lineage ensures RowOk(v, r) {
      if r == n {
        assert (l + [n])[..|l|] == l;
      } else {
        OldRowOk(w, n, row, l, r);
      }
    }
  }

  /** A new row goes to a hub where its root has no row yet. */
  lemma AddRowKeepsOnce(w: World, n: string, row: Row, l: seq<string>)
    requires Lines(w) && AtMostOnce(w) && n !in w.db.rows
    requires forall r :: r in w.db.rows && w.db.rows[r].target == row.target && l != [] ==> Root(w, r) != l[0]
    ensures AtMostOnce(AddRow(w, n, row, l))
  {
    var v := AddRow(w, n, row, l);
    forall r, r' | SameUpdateSameHub(v, r, r') ensures r == r' {
      RootKept(w, n, row, l, r);
      RootKept(w, n, row, l, r');
      if r != n && r' != n { assert SameUpdateSameHub(w, r, r'); }
    }
  }

  lemma OldRowOk(w: World, n: string, row: Row, l: seq<string>, r: string)
    requires Lines(w) && n !in w.db.rows && r in w.db.rows
    ensures RowOk(AddRow(w, n, row, l), r)
  {
    var v := AddRow(w, n, row, l);
    assert RowOk(w, r);
    var m := w.hist.lineage[r];
    if |m| >= 2 {
      assert PushedBy(w, Above(m), r);
      assert PushedBy(v, Above(m), r);
    }
  }

  lemma RootKept(w: World, n: string, row: Row, l: seq<string>, r: string)
    requires Lines(w) && n !in w.db.rows && (r in w.db.rows || r == n)
    ensures Root(AddRow(w, n, row, l), r) == if r != n then Root(w, r) else if l == [] then n else l[0]
    ensures r in w.db.rows ==> Root(w, r) != n
  {
    if r in w.db.rows { assert RowOk(w, r); }
  }

  lemma SeedKeeps(w: World, s: Step)
    requires Lines(w) && s.Seed?
    ensures Lines(InsertSeed(w, s)) && (AtMostOnce(w) ==> AtMostOnce(InsertSeed(w, s)))
  {
    var v := InsertSeed(w, s);
    if v != w {
      var row := Row(s.source, s.target, s.version, s.signature, Pending, None);
      AddRowKeepsLines(w, s.id, row, []);
      if AtMostOnce(w) { AddRowKeepsOnce(w, s.id, row, []); }
      assert [] + [s.id] == [s.id];
      assert v == AddRow(w, s.id, row, []);
    }
  }

  // ---------- the cascade ----------

  ghost predicate PushedFrom(w: World, p: string, r: string) {
    r in w.hist.lineage && |w.hist.lineage[r]| >= 2 && Above(w.hist.lineage[r]) == p
  }

  ghost predicate GoesTo(hubs: seq<Hub>, target: string) {
    exists i :: 0 <= i < |hubs| && hubs[i].id == target
  }

  /** Every row pushed by p so far went to one of the hubs in `done`. */
  ghost predicate PushedOnlyTo(w: World, p: string, done: seq<Hub>) {
    forall r | PushedFrom(w, p, r) && r in w.db.rows :: GoesTo(done, w.db.rows[r].target)
  }

  /** p is being cascaded: completed, by somebody, at the local hub, carrying the update of rec. */
  ghost predicate Cascading(w: World, local: string, p: string, rec: Row) {
    && p in w.db.rows && w.db.rows[p].target == local
    && w.db.rows[p].version == rec.version && w.db.rows[p].signature == rec.signature
    && p in w.hist.completedBy && w.hist.completedBy[p] != ""
  }

  /** No row of p's update is at the child yet, if p has not pushed there. */
  lemma ChildIsFresh(w: World, local: string, p: string, rec: Row, done: seq<Hub>, child: string, r: string)
    requires Inv(w) && Cascading(w, local, p, rec) && PushedOnlyTo(w, p, done)
    requires Edge(w.db.hubs, local, child) && forall i :: 0 <= i < |done| ==> done[i].id != child
    requires r in w.db.rows && w.db.rows[r].target == child
    ensures Root(w, r) != Root(w, p)
  {
    assert RowOk(w, r) && RowOk(w, p);
    EdgeRises(w.db.hubs, local, child);
    LineRises(w, p);
    var l := w.hist.lineage[r];
    if |l| == 1 {
      assert Root(w, r) == r;
    } else {
      var q := Above(l);
      assert PushedBy(w, q, r);
      OneParent(w.db.hubs, w.db.rows[q].target, local, child);
      assert Root(w, q) == Root(w, r);
      assert PushedFrom(w, q, r) && !GoesTo(done, child);
      assert !SameUpdateSameHub(w, q, p);
    }
  }

  lemma InsertKeepsLines(w: World, a: Attempt, local: string, p: string, rec: Row, child: string)
    requires Lines(w) && Cascading(w, local, p, rec) && Edge(w.db.hubs, local, child)
    ensures var v := InsertChild(w, a, local, child, p, rec);
      Lines(v) && Cascading(v, local, p, rec) && v.db.hubs == w.db.hubs && v.db.consents == w.db.consents
    ensures var v := InsertChild(w, a, local, child, p, rec);
      v == w || (a.newId !in w.db.rows && p in w.hist.lineage && w.hist.lineage[p] != []
                 && v == AddRow(w, a.newId, Row(local, child, rec.version, rec.signature, Pending, None),
                   w.hist.lineage[p]))
  {
    var v := InsertChild(w, a, local, child, p, rec);
    if CanInsert(w.db, a, local, child) {
      var row := Row(local, child, rec.version, rec.signature, Pending, None);
      assert RowOk(w, p);
      assert v == AddRow(w, a.newId, row, w.hist.lineage[p]);
      assert PushedBy(v, p, a.newId);
      AddRowKeepsLines(w, a.newId, row, w.hist.lineage[p]);
    }
  }

  lemma {:induction false} CascadeKeepsLines(w: World, local: string, p: string, rec: Row, children: seq<Hub>,
                                             mandatory: seq<MandatoryClass>, env: string -> Attempt)
    requires Lines(w) && Cascading(w, local, p, rec)
    requires forall i :: 0 <= i < |children| ==> Edge(w.db.hubs, local, children[i].id)
    ensures var v := CascadeTo(w, local, p, rec, children, mandatory, env).w;
      Lines(v) && Cascading(v, local, p, rec) && v.db.hubs == w.db.hubs && v.db.consents == w.db.consents
  {
    if children != [] {
      var n := |children| - 1;
      CascadeKeepsLines(w, local, p, rec, children[..n], mandatory, env);
      var u := CascadeTo(w, local, p, rec, children[..n], mandatory, env).w;
      InsertKeepsLines(u, env(children[n].id), local, p, rec, children[n].id);
    }
  }

  lemma InsertKeepsInv(w: World, a: Attempt, local: string, p: string, rec: Row, done: seq<Hub>, child: Hub)
    requires Inv(w) && Cascading(w, local, p, rec) && PushedOnlyTo(w, p, done)
    requires Edge(w.db.hubs, local, child.id) && forall i :: 0 <= i < |done| ==> done[i].id != child.id
    ensures var v := InsertChild(w, a, local, child.id, p, rec);
      && Inv(v) && Cascading(v, local, p, rec) && PushedOnlyTo(v, p, done + [child])
      && v.db.hubs == w.db.hubs && v.db.consents == w.db.consents
  {
    var v := InsertChild(w, a, local, child.id, p, rec);
    InsertKeepsLines(w, a, local, p, rec, child.id);
    if v != w {
      var l := w.hist.lineage[p];
      forall r | r in w.db.rows && w.db.rows[r].target == child.id ensures Root(w, r) != l[0] {
        ChildIsFresh(w, local, p, rec, done, child.id, r);
      }
      AddRowKeepsOnce(w, a.newId, v.db.rows[a.newId], l);
    }
    forall r | PushedFrom(v, p, r) && r in v.db.rows ensures GoesTo(done + [child], v.db.rows[r].target) {
      if r in w.db.rows {
        assert PushedFrom(w, p, r);
        GoesToMore(done, child, w.db.rows[r].target);
      } else {
        assert (done + [child])[|done|].id == v.db.rows[r].target;
      }
    }
  }

  lemma GoesToMore(done: seq<Hub>, child: Hub, target: string)
    requires GoesTo(done, target)
    ensures GoesTo(done + [child], target)
  {
    var i :| 0 <= i < |done| && done[i].id == target;
    assert (done + [child])[i].id == target;
  }

  lemma {:induction false} CascadeKeepsInv(w: World, local: string, p: string, rec: Row, children: seq<Hub>,
                                           mandatory: seq<MandatoryClass>, env: string -> Attempt)
    requires Inv(w) && Cascading(w, local, p, rec) && PushedOnlyTo(w, p, [])
    requires UniqueHubs(children) && forall i :: 0 <= i < |children| ==> Edge(w.db.hubs, local, children[i].id)
    ensures var v := CascadeTo(w, local, p, rec, children, mandatory, env).w;
      && Inv(v) && Cascading(v, local, p, rec) && PushedOnlyTo(v, p, children)
      && v.db.hubs == w.db.hubs && v.db.consents == w.db.consents
  {
    if children != [] {
      var n := |children| - 1;
      var init, child := children[..n], children[n];
      CascadeKeepsInv(w, local, p, rec, init, mandatory, env);
      var u := CascadeTo(w, local, p, rec, init, mandatory, env).w;
      assert children == init + [child];
      InsertKeepsInv(u, env(child.id), local, p, rec, init, child);
      PushedOnlyToMore(u, p, init, child);
    }
  }

  lemma PushedOnlyToMore(w: World, p: string, done: seq<Hub>, child: Hub)
    requires PushedOnlyTo(w, p, done)
    ensures PushedOnlyTo(w, p, done + [child])
  {
    forall r | PushedFrom(w, p, r) && r in w.db.rows ensures GoesTo(done + [child], w.db.rows[r].target) {
      GoesToMore(done, child, w.db.rows[r].target);
    }
  }

  // ---------- every step keeps the invariant ----------

  lemma StatusKeepsLines(w: World, id: string, status: RolloutStatus, who: Option<string>)
    requires Lines(w) && status != Pending
    ensures Lines(w.(db := SetStatus(w.db, id, status, who)))
  {
    var v := w.(db := SetStatus(w.db, id, status, who));
    forall r | r in v.hist.completedBy ensures v.db.rows[r].status != Pending { assert RowOk(w, r); }
    LinesKept(w, v);
  }

  /** The row to cascade is in place: completed at the hub that cascades, which pushes along its edges. */
  lemma CompletedReady(w: World, s: Step)
    requires Lines(w) && s.Approve? && Legal(w, s) && s.who != ""
    ensures var w1 := MarkCompleted(w, s.id, s.who);
      && Lines(w1) && SameRows(w, w1) && Cascading(w1, s.hub, s.id, w.db.rows[s.id]) && w1.db.hubs == w.db.hubs
      && (forall i :: 0 <= i < |ListChildren(w.db.hubs, s.hub)| ==>
        Edge(w1.db.hubs, s.hub, ListChildren(w.db.hubs, s.hub)[i].id))
  {
    var w1 := MarkCompleted(w, s.id, s.who);
    assert s.id !in w.hist.completedBy by { assert RowOk(w, s.id); }
    forall r | r in w1.hist.completedBy ensures w1.db.rows[r].status != Pending {
      if r != s.id { assert RowOk(w, r); }
    }
    LinesKept(w, w1);
    var children := ListChildren(w.db.hubs, s.hub);
    ChildrenAre(w.db.hubs, s.hub);
    forall i | 0 <= i < |children| ensures Edge(w1.db.hubs, s.hub, children[i].id) {
      assert children[i] in w.db.hubs;
    }
  }

  lemma ApproveKeepsLines(w: World, s: Step)
    requires Lines(w) && s.Approve? && Legal(w, s)
    ensures Lines(Next(w, s))
  {
    if s.who != "" && s.rationale != "" {
      if s.smoke != Passes {
        StatusKeepsLines(w, s.id, InProgress, Some(s.who));
        StatusKeepsLines(w.(db := SetStatus(w.db, s.id, InProgress, Some(s.who))), s.id, Failed, None);
      } else {
        CompletedReady(w, s);
        CascadeKeepsLines(MarkCompleted(w, s.id, s.who), s.hub, s.id, w.db.rows[s.id], ListChildren(w.db.hubs, s.hub),
          s.mandatory, s.env);
      }
    }
  }

  /** Every operation of every hub keeps the lines of descent. */
  lemma StepKeepsLines(w: World, s: Step)
    requires Lines(w) && Legal(w, s)
    ensures Lines(Next(w, s))
  {
    match s
    case Seed(_, _, _, _, _) => SeedKeeps(w, s);
    case Approve(_, _, _, _, _, _, _) => ApproveKeepsLines(w, s);
    case RejectRow(id, who, _) => StatusKeepsLines(w, id, RolledBack, Some(who));
    case _ => RowsUntouched(w, Next(w, s));
  }

  lemma RowsUntouched(w: World, v: World)
    requires Lines(w) && v.db.rows == w.db.rows && v.hist == w.hist && HubsKept(w.db.hubs, v.db.hubs)
    ensures Lines(v)
  {
    forall r | r in v.hist.completedBy ensures v.db.rows[r].status != Pending { assert RowOk(w, r); }
    LinesKept(w, v);
  }

  lemma ApproveKeepsOnce(w: World, s: Step)
    requires Inv(w) && s.Approve? && Legal(w, s)
    ensures AtMostOnce(Next(w, s)) && Next(w, s).db.hubs == w.db.hubs
  {
    if s.who != "" && s.rationale != "" && s.smoke == Passes {
      var w1 := MarkCompleted(w, s.id, s.who);
      CompletedReady(w, s);
      OnceKept(w, w1);
      assert s.id !in w.hist.completedBy by { assert RowOk(w, s.id); }
      NothingPushedYet(w, s.id);
      forall r ensures !PushedFrom(w1, s.id, r) { assert !PushedFrom(w, s.id, r); }
      ChildrenUnique(w.db.hubs, s.hub);
      CascadeKeepsInv(w1, s.hub, s.id, w.db.rows[s.id], ListChildren(w.db.hubs, s.hub), s.mandatory, s.env);
    } else {
      OnceKept(w, Next(w, s));
    }
  }

  lemma NothingPushedYet(w: World, p: string)
    requires Lines(w) && p in w.db.rows && p !in w.hist.completedBy
    ensures forall r :: !PushedFrom(w, p, r)
  {
    forall r ensures !PushedFrom(w, p, r) {
      if r in w.hist.lineage { assert RowOk(w, r); }
    }
  }

  lemma InsertHubKeepsForest(db: Db, hub: Hub)
    requires Forest(db.hubs) && NoSelfParent(InsertHub(db, hub).0.hubs)
    ensures Forest(InsertHub(db, hub).0.hubs)
  {
    var hubs := InsertHub(db, hub).0.hubs;
    if hubs != db.hubs {
      assert hubs[|db.hubs|] == hub;
      forall i | 0 <= i < |hubs| && hubs[i].parent.Some? ensures Registered(hubs[..i], hubs[i].parent.value) {
        if i < |db.hubs| {
          assert hubs[..i] == db.hubs[..i];
        } else {
          assert hubs[..i] == db.hubs;
        }
      }
    }
  }

  lemma StatusKeepsForest(hubs: seq<Hub>, id: string, status: ConsentStatus)
    requires Forest(hubs)
    ensures Forest(WithStatus(hubs, id, status))
  {
    var hubs' := WithStatus(hubs, id, status);
    forall i | 0 <= i < |hubs'| && hubs'[i].parent.Some? ensures Registered(hubs'[..i], hubs'[i].parent.value) {
      var j :| 0 <= j < |hubs[..i]| && hubs[..i][j].id == hubs[i].parent.value;
      assert hubs'[..i][j].id == hubs'[i].parent.value;
    }
  }

  lemma StepKeepsForest(w: World, s: Step)
    requires Forest(w.db.hubs) && !s.Approve? && NoSelfParent(Next(w, s).db.hubs)
    ensures Forest(Next(w, s).db.hubs)
  {
    match s
    case Register(child, parent, status) => InsertHubKeepsForest(w.db, Hub(child, Some(parent), status));
    case Bootstrap(id, parent) => InsertHubKeepsForest(w.db, Hub(id, parent, Active));
    case SetConsent(id, status) => StatusKeepsForest(w.db.hubs, id, status);
    case _ =>
  }

  lemma StepKeepsOnce(w: World, s: Step)
    requires Inv(w) && !s.Approve?
    ensures AtMostOnce(Next(w, s))
  {
    if s.Seed? {
      SeedKeeps(w, s);
    } else {
      OtherStepsKeepRows(w, s);
      OnceKept(w, Next(w, s));
    }
  }

  lemma OtherStepsKeepRows(w: World, s: Step)
    requires !s.Approve? && !s.Seed?
    ensures SameRows(w, Next(w, s))
  {
    if !s.RejectRow? { assert Next(w, s).db.rows == w.db.rows; }
  }

  /** As long as no hub is its own parent, every operation keeps the whole invariant. */
  lemma StepKeepsInv(w: World, s: Step)
    requires Inv(w) && Legal(w, s) && NoSelfParent(Next(w, s).db.hubs)
    ensures Inv(Next(w, s))
  {
    StepKeepsLines(w, s);
    if s.Approve? {
      ApproveKeepsOnce(w, s);
    } else {
      StepKeepsForest(w, s);
      StepKeepsOnce(w, s);
    }
  }

  /** No step removes a hub or changes its parent. */
  lemma StepKeepsHubs(w: World, s: Step)
    ensures HubsKept(w.db.hubs, Next(w, s).db.hubs)
  {
    if s.Approve? && s.id in w.db.rows {
      CascadeAccounting(MarkCompleted(w, s.id, s.who), s.hub, s.id, w.db.rows[s.id], ListChildren(w.db.hubs, s.hub),
        s.mandatory, s.env);
    }
  }

  lemma SelfParentStays(hubs: seq<Hub>, hubs': seq<Hub>)
    requires HubsKept(hubs, hubs') && NoSelfParent(hubs')
    ensures NoSelfParent(hubs)
  {
    forall i | 0 <= i < |hubs| ensures hubs[i].parent != Some(hubs[i].id) {
      assert hubs'[i].parent != Some(hubs'[i].id);
    }
  }

  lemma LegalPrefix(w: World, steps: seq<Step>)
    requires steps != [] && LegalRun(w, steps)
    ensures LegalRun(w, steps[..|steps| - 1]) && Legal(Run(w, steps[..|steps| - 1]), steps[|steps| - 1])
  {
    var n := |steps| - 1;
    forall i | 0 <= i < n ensures Legal(Run(w, steps[..n][..i]), steps[..n][i]) {
      assert steps[..n][..i] == steps[..i];
      assert Legal(Run(w, steps[..i]), steps[i]);
    }
    assert Legal(Run(w, steps[..n]), steps[n]);
  }

  // ---------- the theorems ----------

  lemma {:induction false} RunKeepsInv(w: World, steps: seq<Step>)
    requires Inv(w) && LegalRun(w, steps) && NoSelfParent(Run(w, steps).db.hubs)
    ensures Inv(Run(w, steps))
  {
    if steps != [] {
      var n := |steps| - 1;
      var u := Run(w, steps[..n]);
      LegalPrefix(w, steps);
      StepKeepsHubs(u, steps[n]);
      SelfParentStays(u.db.hubs, Run(w, steps).db.hubs);
      RunKeepsInv(w, steps[..n]);
      StepKeepsInv(u, steps[n]);
    }
  }

  lemma {:induction false} RunKeepsLines(w: World, steps: seq<Step>)
    requires Lines(w) && LegalRun(w, steps)
    ensures Lines(Run(w, steps))
  {
    if steps != [] {
      LegalPrefix(w, steps);
      RunKeepsLines(w, steps[..|steps| - 1]);
      StepKeepsLines(Run(w, steps[..|steps| - 1]), steps[|steps| - 1]);
    }
  }

  /**
   At-most-once distribution: along any run from the empty database, as long as no hub is
   registered under itself, each seeded update has at most one row per hub.
   */
  lemma AtMostOnceDistribution(steps: seq<Step>)
    requires LegalRun(EMPTY, steps) && NoSelfParent(Run(EMPTY, steps).db.hubs)
    ensures AtMostOnce(Run(EMPTY, steps))
  {
    RunKeepsInv(EMPTY, steps);
  }

  /** From seed to r: each row pushed by the one before it, which somebody had approved. */
  ghost predicate ApprovedChain(w: World, chain: seq<string>, r: string) {
    && chain != [] && chain[|chain| - 1] == r
    && (forall i :: 0 <= i < |chain| ==> chain[i] in w.db.rows)
    && (forall i :: 0 < i < |chain| ==> PushedBy(w, chain[i - 1], chain[i]))
  }

  /** A row written by the vendor side, not by a cascade. */
  predicate IsSeed(w: World, r: string) { r in w.hist.lineage && w.hist.lineage[r] == [r] }

  /**
   No auto-push, in every run: every row descends from a seed along parent-to-child edges, carrying the
   seed's version and signature, and every row above it was completed by a named approver.
   */
  lemma NoAutoPush(steps: seq<Step>, r: string)
    requires LegalRun(EMPTY, steps)
    requires r in Run(EMPTY, steps).db.rows
    ensures var w := Run(EMPTY, steps);
      exists chain :: ApprovedChain(w, chain, r) && IsSeed(w, chain[0])
        && w.db.rows[chain[0]].version == w.db.rows[r].version
        && w.db.rows[chain[0]].signature == w.db.rows[r].signature
  {
    RunKeepsLines(EMPTY, steps);
    LineIsApproved(Run(EMPTY, steps), r);
  }

  lemma {:induction false} LineIsApproved(w: World, r: string)
    requires Lines(w) && r in w.db.rows
    ensures ApprovedChain(w, w.hist.lineage[r], r) && IsSeed(w, w.hist.lineage[r][0])
    ensures w.db.rows[w.hist.lineage[r][0]].version == w.db.rows[r].version
    ensures w.db.rows[w.hist.lineage[r][0]].signature == w.db.rows[r].signature
    decreases |w.hist.lineage[r]|
  {
    var l := w.hist.lineage[r];
    assert RowOk(w, r);
    if |l| >= 2 {
      LineIsApproved(w, Above(l));
      var init := l[..|l| - 1];
      forall i | 0 < i < |l| ensures PushedBy(w, l[i - 1], l[i]) {
        if i < |init| { assert PushedBy(w, init[i - 1], init[i]); }
      }
      forall i | 0 <= i < |l| ensures l[i] in w.db.rows {
        if i < |init| { assert init[i] in w.db.rows; }
      }
    }
  }

  /** No operation returns a row to pending, nor removes it; not even one on a row the hub was not offered. */
  lemma {:induction false} NeverPendingAgain(w: World, steps: seq<Step>, r: string)
    requires r in w.db.rows && w.db.rows[r].status != Pending
    ensures r in Run(w, steps).db.rows && r !in PullPending(Run(w, steps).db, Run(w, steps).db.rows[r].target)
  {
    if steps != [] {
      var n := |steps| - 1;
      NeverPendingAgain(w, steps[..n], r);
      var u, s := Run(w, steps[..n]), steps[n];
      if s.Approve? { ApproveOutcome(u, s.hub, s.id, s.who, s.rationale, s.smoke, s.mandatory, s.env); }
    }
  }

  lemma RunThree(w: World, s0: Step, s1: Step, s2: Step)
    requires Legal(w, s0) && Legal(Next(w, s0), s1) && Legal(Next(Next(w, s0), s1), s2)
    ensures LegalRun(w, [s0, s1, s2])
    ensures Run(w, [s0, s1, s2]) == Next(Next(Next(w, s0), s1), s2)
  {
    var steps := [s0, s1, s2];
    assert steps[..1][..0] == [] && steps[..2][..1] == steps[..1] && steps[..3] == steps && steps[..0] == [];
    assert Run(w, steps[..0]) == w && Run(w, steps[..1]) == Next(w, s0) && Run(w, steps[..2]) == Next(Next(w, s0), s1);
  }

  /** A hub that is its own parent, made active and given an update s, pushes it to itself as n. */
  lemma SelfParentPushes(w: World, h: string, s: string, n: string, mandatory: seq<MandatoryClass>,
                         env: string -> Attempt, rationale: string)
    requires UniqueHubs(w.db.hubs) && s in w.db.rows && n !in w.db.rows && rationale != ""
    requires exists i :: 0 <= i < |w.db.hubs| && w.db.hubs[i] == Hub(h, Some(h), Active)
    requires w.db.rows[s].target == h && w.db.rows[s].status == Pending
    requires s in w.hist.lineage && w.hist.lineage[s] == [s]
    requires IsMandatory(mandatory, "update_push") && forall c :: env(c) == Attempt(n, c != h)
    ensures !AtMostOnce(ApproveAndApply(w, h, s, "admin", rationale, Passes, mandatory, env).0)
    ensures ApproveAndApply(w, h, s, "admin", rationale, Passes, mandatory, env).0.db.hubs == w.db.hubs
  {
    var i :| 0 <= i < |w.db.hubs| && w.db.hubs[i] == Hub(h, Some(h), Active);
    var children := ListChildren(w.db.hubs, h);
    ChildrenAre(w.db.hubs, h);
    ChildrenUnique(w.db.hubs, h);
    assert w.db.hubs[i] in children;
    var k :| 0 <= k < |children| && children[k] == w.db.hubs[i];
    SelfPush(MarkCompleted(w, s, "admin"), h, s, w.db.rows[s], children, mandatory, env, n, k);
    var v := ApproveAndApply(w, h, s, "admin", rationale, Passes, mandatory, env).0;
    assert SameUpdateSameHub(v, s, n);
  }

  lemma SelfParentPrepared(w: World, h: string, s: string)
    requires UniqueHubs(w.db.hubs) && Edge(w.db.hubs, h, h) && s !in w.db.rows
    ensures var w2 := Next(Next(w, SetConsent(h, Active)), Seed(s, h, h, "v", "sig"));
      && UniqueHubs(w2.db.hubs) && |w2.db.hubs| == |w.db.hubs|
      && (exists i :: 0 <= i < |w2.db.hubs| && w2.db.hubs[i] == Hub(h, Some(h), Active))
      && w2.db.rows == w.db.rows[s := Row(h, h, "v", "sig", Pending, None)]
      && s in w2.hist.lineage && w2.hist.lineage[s] == [s]
  {
    var i :| 0 <= i < |w.db.hubs| && w.db.hubs[i].id == h && w.db.hubs[i].parent == Some(h);
    var w1 := Next(w, SetConsent(h, Active));
    assert w1.db.hubs == WithStatus(w.db.hubs, h, Active);
    assert w1.db.hubs[i] == Hub(h, Some(h), Active);
  }

  /**
   The condition is needed: whenever some hub is its own parent, three more steps give an
   update two rows there.  s and n are any two fresh ids.
   */
  lemma SelfParentDuplicates(w: World, h: string, s: string, n: string)
    requires UniqueHubs(w.db.hubs) && Edge(w.db.hubs, h, h)
    requires s !in w.db.rows && n !in w.db.rows && s != n
    ensures exists steps :: LegalRun(w, steps) && |Run(w, steps).db.hubs| == |w.db.hubs| && !AtMostOnce(Run(w, steps))
  {
    var mandatory := [MandatoryClass("update_push", "required")];
    assert mandatory[0].consentClass == "update_push";
    var env := (c: string) => Attempt(n, c != h);
    var s0, s1 := SetConsent(h, Active), Seed(s, h, h, "v", "sig");
    var s2 := Approve(h, s, "admin", "ok", Passes, mandatory, env);
    SelfParentPrepared(w, h, s);
    var w2 := Next(Next(w, s0), s1);
    SelfParentPushes(w2, h, s, n, mandatory, env, "ok");
    LastStepDuplicates(w, s0, s1, s2);
  }

  lemma LastStepDuplicates(w: World, s0: Step, s1: Step, s2: Step)
    requires !s0.Approve? && !s1.Approve? && s2.Approve? && Legal(Next(Next(w, s0), s1), s2)
    requires !AtMostOnce(Next(Next(Next(w, s0), s1), s2))
    requires |Next(Next(Next(w, s0), s1), s2).db.hubs| == |w.db.hubs|
    ensures exists steps :: LegalRun(w, steps) && |Run(w, steps).db.hubs| == |w.db.hubs| && !AtMostOnce(Run(w, steps))
  {
    RunThree(w, s0, s1, s2);
  }

  lemma {:induction false} SelfPush(w: World, h: string, s: string, rec: Row, children: seq<Hub>,
                                    mandatory: seq<MandatoryClass>, env: string -> Attempt, n: string, k: nat)
    requires UniqueHubs(children) && Registered(w.db.hubs, h) && IsMandatory(mandatory, "update_push")
    requires s in w.db.rows && w.db.rows[s].target == h && s in w.hist.lineage && w.hist.lineage[s] == [s]
    requires n !in w.db.rows && n != s && forall c :: env(c) == Attempt(n, c != h)
    requires k < |children| ==> children[k].id == h && children[k].status == Active
    requires k >= |children| ==> forall j :: 0 <= j < |children| ==> children[j].id != h
    ensures var v := CascadeTo(w, h, s, rec, children, mandatory, env).w;
      && v.db.hubs == w.db.hubs
      && s in v.db.rows && v.db.rows[s].target == h && s in v.hist.lineage && v.hist.lineage[s] == [s]
      && (k < |children| ==>
            n in v.db.rows && v.db.rows[n].target == h && n in v.hist.lineage && v.hist.lineage[n] == [s, n])
      && (k >= |children| ==> n !in v.db.rows)
  {
    if children != [] {
      var m := |children| - 1;
      SelfPush(w, h, s, rec, children[..m], mandatory, env, n, k);
      assert [s] + [n] == [s, n];
    }
  }

  lemma {:induction false} HubsStayUnique(steps: seq<Step>)
    ensures UniqueHubs(Run(EMPTY, steps).db.hubs)
  {
    if steps != [] {
      var n := |steps| - 1;
      HubsStayUnique(steps[..n]);
      var u, s := Run(EMPTY, steps[..n]), steps[n];
      StepKeepsHubs(u, s);
      if s.Approve? && s.id in u.db.rows {
        CascadeAccounting(MarkCompleted(u, s.id, s.who), s.hub, s.id, u.db.rows[s.id], ListChildren(u.db.hubs, s.hub),
          s.mandatory, s.env);
      }
    }
  }

  lemma {:induction false} RunAppend(w: World, xs: seq<Step>, ys: seq<Step>)
    ensures Run(w, xs + ys) == Run(Run(w, xs), ys)
  {
    if ys == [] {
      assert xs + ys == xs;
    } else {
      var n := |ys| - 1;
      RunAppend(w, xs, ys[..n]);
      assert (xs + ys)[..|xs| + n] == xs + ys[..n];
    }
  }

  lemma LegalAppend(w: World, xs: seq<Step>, ys: seq<Step>)
    requires LegalRun(w, xs) && LegalRun(Run(w, xs), ys)
    ensures LegalRun(w, xs + ys)
  {
    var zs := xs + ys;
    forall i | 0 <= i < |zs| ensures Legal(Run(w, zs[..i]), zs[i]) {
      if i < |xs| {
        assert zs[..i] == xs[..i];
        assert Legal(Run(w, xs[..i]), xs[i]);
      } else {
        var j := i - |xs|;
        assert zs[..i] == xs + ys[..j];
        RunAppend(w, xs, ys[..j]);
        assert Legal(Run(Run(w, xs), ys[..j]), ys[j]);
      }
    }
  }

  lemma {:induction false} LongId(ids: set<string>) returns (n: nat)
    ensures forall s :: s in ids ==> |s| < n
    decreases ids
  {
    if ids == {} {
      n := 0;
    } else {
      var s :| s in ids;
      var m := LongId(ids - {s});
      n := if |s| < m then m else |s| + 1;
    }
  }

  /**
   Exactly when: after any run, no further traffic that registers no hub can give an update
   two rows at one hub, if and only if no hub of the table is its own parent.
   */
  lemma AtMostOnceIff(steps: seq<Step>)
    requires LegalRun(EMPTY, steps)
    ensures var w := Run(EMPTY, steps);
      NoSelfParent(w.db.hubs) <==>
        forall more :: LegalRun(w, more) && |Run(w, more).db.hubs| == |w.db.hubs| ==> AtMostOnce(Run(w, more))
  {
    var w := Run(EMPTY, steps);
    HubsStayUnique(steps);
    if NoSelfParent(w.db.hubs) {
      forall more | LegalRun(w, more) && |Run(w, more).db.hubs| == |w.db.hubs| ensures AtMostOnce(Run(w, more)) {
        RunAppend(EMPTY, steps, more);
        LegalAppend(EMPTY, steps, more);
        RunKeepsHubs(w, more);
        AtMostOnceDistribution(steps + more);
      }
    } else {
      var i :| 0 <= i < |w.db.hubs| && w.db.hubs[i].parent == Some(w.db.hubs[i].id);
      var n := LongId(w.db.rows.Keys);
      var s, s' := seq(n, _ => 'a'), seq(n, _ => 'a') + "b";
      SelfParentDuplicates(w, w.db.hubs[i].id, s, s');
    }
  }

  lemma {:induction false} RunKeepsHubs(w: World, steps: seq<Step>)
    ensures HubsKept(w.db.hubs, Run(w, steps).db.hubs)
  {
    if steps != [] {
      var n := |steps| - 1;
      RunKeepsHubs(w, steps[..n]);
      StepKeepsHubs(Run(w, steps[..n]), steps[n]);
    }
  }

  // ---------- accounting ----------

  /** The children the cascade tries: active, and covered by a mandatory class or a consent record. */
  function Eligible(mandatory: seq<MandatoryClass>, consents: seq<ConsentRecord>, children: seq<Hub>): seq<Hub> {
    if children == [] then []
    else
      var n := |children| - 1;
      Eligible(mandatory, consents, children[..n])
      + (if Pushes(mandatory, consents, children[n]) then [children[n]] else [])
  }

  /** v has exactly the rows of w, unchanged, and `count` new ones, each pending at an eligible child. */
  ghost predicate AddsPending(w: World, v: World, local: string, rec: Row, eligible: seq<Hub>, count: nat) {
    && v.db.hubs == w.db.hubs && v.db.consents == w.db.consents
    && |v.db.rows| == |w.db.rows| + count
    && (forall r :: r in w.db.rows ==> r in v.db.rows && v.db.rows[r] == w.db.rows[r])
    && (forall r :: r in v.db.rows && r !in w.db.rows ==>
          && v.db.rows[r] == Row(local, v.db.rows[r].target, rec.version, rec.signature, Pending, None)
          && exists c :: c in eligible && c.id == v.db.rows[r].target)
  }

  /**
   One cascade adds exactly `succeeded` pending rows and changes no other; every attempt
   succeeds or fails; the attempts are the eligible children, one each.
   */
  lemma {:induction false} CascadeAccounting(w: World, local: string, p: string, rec: Row, children: seq<Hub>,
                                             mandatory: seq<MandatoryClass>, env: string -> Attempt)
    ensures var g := CascadeTo(w, local, p, rec, children, mandatory, env);
      var eligible := Eligible(mandatory, w.db.consents, children);
      && g.attempted == |eligible|
      && g.attempted == g.succeeded + g.failed
      && AddsPending(w, g.w, local, rec, eligible, g.succeeded)
  {
    if children != [] {
      var n := |children| - 1;
      CascadeAccounting(w, local, p, rec, children[..n], mandatory, env);
      var g := CascadeTo(w, local, p, rec, children[..n], mandatory, env);
      var child, a := children[n], env(children[n].id);
      var e := Eligible(mandatory, w.db.consents, children[..n]);
      if Pushes(mandatory, w.db.consents, child) {
        OneMorePending(w, g.w, local, p, rec, e, child, a, g.succeeded);
      }
    }
  }

  lemma OneMorePending(w: World, u: World, local: string, p: string, rec: Row, e: seq<Hub>, child: Hub, a: Attempt,
                       count: nat)
    requires AddsPending(w, u, local, rec, e, count)
    ensures AddsPending(w, InsertChild(u, a, local, child.id, p, rec), local, rec, e + [child],
                        if CanInsert(u.db, a, local, child.id) then count + 1 else count)
  {
    var v := InsertChild(u, a, local, child.id, p, rec);
    forall r | r in v.db.rows && r !in w.db.rows ensures exists c :: c in e + [child] && c.id == v.db.rows[r].target {
      if r in u.db.rows {
        var c :| c in e && c.id == u.db.rows[r].target;
        assert c in e + [child];
      } else {
        assert child in e + [child];
      }
    }
  }

  /** An eligible child is exactly one the consent rules let through. */
  lemma {:induction false} EligibleMembers(mandatory: seq<MandatoryClass>, consents: seq<ConsentRecord>,
                                           children: seq<Hub>, c: Hub)
    ensures c in Eligible(mandatory, consents, children) <==>
      c in children && c.status == Active
        && (IsMandatory(mandatory, "update_push") || exists r :: r in consents && Mentions(r, c.id, "update_push"))
  {
    assert (exists i :: 0 <= i < |consents| && Mentions(consents[i], c.id, "update_push"))
      <==> exists r :: r in consents && Mentions(r, c.id, "update_push");
    if children != [] {
      var n := |children| - 1;
      EligibleMembers(mandatory, consents, children[..n], c);
      assert children == children[..n] + [children[n]];
    }
  }

  function Decided(row: Row, status: Option<RolloutStatus>, who: string): Row {
    match status
    case None => row
    case Some(st) => row.(status := st, approvedBy := Some(who))
  }

  /**
   An approval goes through exactly for an attributed approval of a pending row whose smoke
   test passes; then the row is completed in the approver's name and otherwise only rows are
   added.  A refusal changes nothing, except that a failed smoke test marks the row failed.
   */
  lemma ApproveOutcome(w: World, local: string, id: string, who: string, rationale: string, smoke: Smoke,
                       mandatory: seq<MandatoryClass>, env: string -> Attempt)
    ensures var (v, r) := ApproveAndApply(w, local, id, who, rationale, smoke, mandatory, env);
      var ready := who != "" && rationale != "" && id in w.db.rows && w.db.rows[id].status == Pending;
      && (r.Cascaded? <==> ready && smoke == Passes)
      && (r.Cascaded? ==>
            && v.hist.completedBy == w.hist.completedBy[id := who]
            && |v.db.rows| == |w.db.rows| + r.succeeded
            && w.db.rows.Keys <= v.db.rows.Keys
            && (forall x :: x in w.db.rows ==>
                  v.db.rows[x] == Decided(w.db.rows[x], if x == id then Some(Completed) else None, who)))
      && (r.Refused? && !ready ==> v == w)
      && (r.Refused? && ready ==>
            v == w.(db := w.db.(rows := w.db.rows[id := Decided(w.db.rows[id], Some(Failed), who)])))
  {
    if who != "" && rationale != "" && id in w.db.rows && w.db.rows[id].status == Pending && smoke == Passes {
      var w1 := MarkCompleted(w, id, who);
      var children := ListChildren(w.db.hubs, local);
      CascadeAccounting(w1, local, id, w.db.rows[id], children, mandatory, env);
      CascadeKeepsApprovals(w1, local, id, w.db.rows[id], children, mandatory, env);
      assert w1.db.rows.Keys == w.db.rows.Keys;
    }
  }

  lemma {:induction false} CascadeKeepsApprovals(w: World, local: string, p: string, rec: Row, children: seq<Hub>,
                                                 mandatory: seq<MandatoryClass>, env: string -> Attempt)
    ensures CascadeTo(w, local, p, rec, children, mandatory, env).w.hist.completedBy == w.hist.completedBy
  {
    if children != [] { CascadeKeepsApprovals(w, local, p, rec, children[..|children| - 1], mandatory, env); }
  }

  /** An attributed rejection rolls the row back in the rejecter's name, whatever its status, and does nothing else. */
  lemma RejectOutcome(w: World, id: string, who: string, rationale: string)
    ensures var (v, r) := Reject(w, id, who, rationale);
      && (r == Refused(ApprovalRequired) <==> who == "" || rationale == "")
      && (r.Refused? ==> v == w)
      && v.hist == w.hist && v.db.hubs == w.db.hubs && v.db.consents == w.db.consents
      && v.db.rows.Keys == w.db.rows.Keys
      && forall x :: x in w.db.rows ==>
           v.db.rows[x] ==
             if x != id || r.Refused? then w.db.rows[x]
             else w.db.rows[x].(status := RolledBack, approvedBy := Some(who))
  {}
}
