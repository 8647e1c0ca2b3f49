/**
 What an approval delivers: each child it may push to gets its row, unless the insert for that
 child fails.  Stated over the tables before and after, by the fields of hubs and records.
 */
module CascadeDelivery {
  import opened Wrappers
  import opened Federation
  import opened CascadeProtocol

  /** The hub is a child of local, active, and update pushes to it are mandatory or in a record that names it. */
  ghost predicate Receives(db: Db, local: string, mandatory: seq<MandatoryClass>, c: Hub) {
    && c in db.hubs && c.parent == Some(local) && c.status == Active
    && ((exists m :: m in mandatory && m.consentClass == "update_push")
        || (exists r :: r in db.consents && r.consentClass == "update_push" && (r.child == c.id || r.parent == c.id)))
  }

  /** The ids drawn for the receiving children are new and differ. */
  ghost predicate FreshIds(db: Db, local: string, mandatory: seq<MandatoryClass>, env: string -> Attempt) {
    && (forall c :: Receives(db, local, mandatory, c) ==> env(c.id).newId !in db.rows)
    && (forall c, d :: Receives(db, local, mandatory, c) && Receives(db, local, mandatory, d) && c.id != d.id ==>
          env(c.id).newId != env(d.id).newId)
  }

  /** Every parent in the table is a hub of the table. */
  ghost predicate ParentsKnown(hubs: seq<Hub>) {
    forall i :: 0 <= i < |hubs| && hubs[i].parent.Some? ==>
      exists j :: 0 <= j < |hubs| && hubs[j].id == hubs[i].parent.value
  }

  ghost function Receivers(db: Db, local: string, mandatory: seq<MandatoryClass>): set<Hub> {
    set c | c in db.hubs && Receives(db, local, mandatory, c)
  }

  // ---------- the loop over the children ----------

  /** An eligible child among these, with the attempt for it. */
  ghost predicate Tries(mandatory: seq<MandatoryClass>, consents: seq<ConsentRecord>, children: seq<Hub>, i: int) {
    0 <= i < |children| && Pushes(mandatory, consents, children[i])
  }

  ghost predicate FreshTries(w: World, children: seq<Hub>, mandatory: seq<MandatoryClass>, env: string -> Attempt) {
    && (forall i :: Tries(mandatory, w.db.consents, children, i) ==> env(children[i].id).newId !in w.db.rows)
    && (forall i, j ::
          Tries(mandatory, w.db.consents, children, i) && Tries(mandatory, w.db.consents, children, j) && i != j ==>
            env(children[i].id).newId != env(children[j].id).newId)
  }

  /** After the cascade: the row of child i is there, as it should be, exactly if its insert does not fail. */
  ghost predicate Delivered(v: World, local: string, rec: Row, child: Hub, a: Attempt) {
    && (a.newId in v.db.rows <==> !a.fails)
    && (!a.fails ==> v.db.rows[a.newId] == Row(local, child.id, rec.version, rec.signature, Pending, None))
  }

  /** Whatever is new in v is the row of one of the tries. */
  ghost predicate OnlyTries(w: World, v: World, children: seq<Hub>, mandatory: seq<MandatoryClass>,
                            env: string -> Attempt)
  {
    && w.db.rows.Keys <= v.db.rows.Keys
    && forall r :: r in v.db.rows && r !in w.db.rows ==>
         exists i :: Tries(mandatory, w.db.consents, children, i) && env(children[i].id).newId == r
  }

  /** How many of the tries fail. */
  function Failing(mandatory: seq<MandatoryClass>, consents: seq<ConsentRecord>, children: seq<Hub>,
                   env: string -> Attempt): nat
  {
    if children == [] then 0
    else
      var n := |children| - 1;
      Failing(mandatory, consents, children[..n], env)
      + (if Pushes(mandatory, consents, children[n]) && env(children[n].id).fails then 1 else 0)
  }

  lemma FreshInit(w: World, children: seq<Hub>, mandatory: seq<MandatoryClass>, env: string -> Attempt)
    requires children != [] && FreshTries(w, children, mandatory, env)
    ensures FreshTries(w, children[..|children| - 1], mandatory, env)
  {
    var init := children[..|children| - 1];
    forall i | Tries(mandatory, w.db.consents, init, i)
      ensures Tries(mandatory, w.db.consents, children, i) && init[i] == children[i]
    {}
  }

  /** The attempt for the last child meets a table without its id. */
  lemma LastIsFresh(w: World, u: World, children: seq<Hub>, mandatory: seq<MandatoryClass>, env: string -> Attempt)
    requires children != [] && FreshTries(w, children, mandatory, env)
    requires OnlyTries(w, u, children[..|children| - 1], mandatory, env)
    requires Pushes(mandatory, w.db.consents, children[|children| - 1])
    ensures env(children[|children| - 1].id).newId !in u.db.rows
  {
    var n := |children| - 1;
    var id := env(children[n].id).newId;
    assert Tries(mandatory, w.db.consents, children, n);
    if id in u.db.rows {
      var i :| Tries(mandatory, w.db.consents, children[..n], i) && env(children[..n][i].id).newId == id;
      assert Tries(mandatory, w.db.consents, children, i);
    }
  }

  lemma {:induction false} CascadeDelivers(w: World, local: string, p: string, rec: Row, children: seq<Hub>,
                                           mandatory: seq<MandatoryClass>, env: string -> Attempt)
    requires FreshTries(w, children, mandatory, env)
    requires forall i :: Tries(mandatory, w.db.consents, children, i) ==>
      Registered(w.db.hubs, local) && Registered(w.db.hubs, children[i].id)
    ensures var g := CascadeTo(w, local, p, rec, children, mandatory, env);
      && g.w.db.hubs == w.db.hubs && g.w.db.consents == w.db.consents
      && OnlyTries(w, g.w, children, mandatory, env)
      && g.failed == Failing(mandatory, w.db.consents, children, env)
      && forall i :: Tries(mandatory, w.db.consents, children, i) ==>
           Delivered(g.w, local, rec, children[i], env(children[i].id))
  {
    if children != [] {
      var n := |children| - 1;
      var init := children[..n];
      FreshInit(w, children, mandatory, env);
      forall i | Tries(mandatory, w.db.consents, init, i)
        ensures Tries(mandatory, w.db.consents, children, i) && init[i] == children[i]
      {}
      CascadeDelivers(w, local, p, rec, init, mandatory, env);
      OneMoreDelivered(w, local, p, rec, children, mandatory, env);
    }
  }

  lemma OneMoreDelivered(w: World, local: string, p: string, rec: Row, children: seq<Hub>,
                         mandatory: seq<MandatoryClass>, env: string -> Attempt)
    requires children != [] && FreshTries(w, children, mandatory, env)
    requires forall i :: Tries(mandatory, w.db.consents, children, i) ==>
      Registered(w.db.hubs, local) && Registered(w.db.hubs, children[i].id)
    requires var init := children[..|children| - 1];
      var u := CascadeTo(w, local, p, rec, init, mandatory, env);
      && u.w.db.hubs == w.db.hubs && u.w.db.consents == w.db.consents
      && OnlyTries(w, u.w, init, mandatory, env)
      && u.failed == Failing(mandatory, w.db.consents, init, env)
      && forall i :: Tries(mandatory, w.db.consents, init, i) ==> Delivered(u.w, local, rec, init[i], env(init[i].id))
    ensures var g := CascadeTo(w, local, p, rec, children, mandatory, env);
      && g.w.db.hubs == w.db.hubs && g.w.db.consents == w.db.consents
      && OnlyTries(w, g.w, children, mandatory, env)
      && g.failed == Failing(mandatory, w.db.consents, children, env)
      && forall i :: Tries(mandatory, w.db.consents, children, i) ==>
           Delivered(g.w, local, rec, children[i], env(children[i].id))
  {
    var n := |children| - 1;
    var init := children[..n];
    var u := CascadeTo(w, local, p, rec, init, mandatory, env).w;
    var v := CascadeTo(w, local, p, rec, children, mandatory, env).w;
    if Pushes(mandatory, w.db.consents, children[n]) {
      assert Tries(mandatory, w.db.consents, children, n);
      LastIsFresh(w, u, children, mandatory, env);
    }
    forall i | Tries(mandatory, w.db.consents, children, i)
      ensures Delivered(v, local, rec, children[i], env(children[i].id))
    {
      if i < n { assert Tries(mandatory, w.db.consents, init, i) && init[i] == children[i]; }
    }
    forall r | r in v.db.rows && r !in w.db.rows
      ensures exists i :: Tries(mandatory, w.db.consents, children, i) && env(children[i].id).newId == r
    {
      if r in u.db.rows {
        var i :| Tries(mandatory, w.db.consents, init, i) && env(init[i].id).newId == r;
        assert Tries(mandatory, w.db.consents, children, i);
      } else {
        assert Tries(mandatory, w.db.consents, children, n);
      }
    }
  }

  // ---------- counting ----------

  ghost function PushedTo(children: seq<Hub>, mandatory: seq<MandatoryClass>, consents: seq<ConsentRecord>): set<Hub> {
    set c | c in children && Pushes(mandatory, consents, c)
  }

  ghost function FailedFor(children: seq<Hub>, mandatory: seq<MandatoryClass>, consents: seq<ConsentRecord>,
                           env: string -> Attempt): set<Hub>
  {
    set c | c in children && Pushes(mandatory, consents, c) && env(c.id).fails
  }

  lemma OneMorePushed(init: seq<Hub>, last: Hub, mandatory: seq<MandatoryClass>, consents: seq<ConsentRecord>)
    requires last !in init
    ensures |PushedTo(init + [last], mandatory, consents)|
      == |PushedTo(init, mandatory, consents)| + (if Pushes(mandatory, consents, last) then 1 else 0)
  {
    var one: set<Hub> := if Pushes(mandatory, consents, last) then {last} else {};
    assert PushedTo(init + [last], mandatory, consents) == PushedTo(init, mandatory, consents) + one;
  }

  lemma OneMoreFailed(init: seq<Hub>, last: Hub, mandatory: seq<MandatoryClass>, consents: seq<ConsentRecord>,
                      env: string -> Attempt)
    requires last !in init
    ensures |FailedFor(init + [last], mandatory, consents, env)|
      == |FailedFor(init, mandatory, consents, env)|
        + (if Pushes(mandatory, consents, last) && env(last.id).fails then 1 else 0)
  {
    var one: set<Hub> := if Pushes(mandatory, consents, last) && env(last.id).fails then {last} else {};
    assert FailedFor(init + [last], mandatory, consents, env) == FailedFor(init, mandatory, consents, env) + one;
  }

  lemma {:induction false} CountsAreSets(children: seq<Hub>, mandatory: seq<MandatoryClass>,
                                         consents: seq<ConsentRecord>, env: string -> Attempt)
    requires UniqueHubs(children)
    ensures |Eligible(mandatory, consents, children)| == |PushedTo(children, mandatory, consents)|
    ensures Failing(mandatory, consents, children, env) == |FailedFor(children, mandatory, consents, env)|
  {
    if children != [] {
      var n := |children| - 1;
      CountsAreSets(children[..n], mandatory, consents, env);
      assert children == children[..n] + [children[n]] && children[n] !in children[..n];
      OneMorePushed(children[..n], children[n], mandatory, consents);
      OneMoreFailed(children[..n], children[n], mandatory, consents, env);
    }
  }

  // ---------- the theorem ----------

  lemma PushesMeans(mandatory: seq<MandatoryClass>, consents: seq<ConsentRecord>, c: Hub)
    ensures Pushes(mandatory, consents, c) <==>
      c.status == Active
        && ((exists m :: m in mandatory && m.consentClass == "update_push")
            || (exists r :: r in consents && r.consentClass == "update_push" && (r.child == c.id || r.parent == c.id)))
  {
    if m :| m in mandatory && m.consentClass == "update_push" {
      var i :| 0 <= i < |mandatory| && mandatory[i] == m;
    }
    if r :| r in consents && r.consentClass == "update_push" && (r.child == c.id || r.parent == c.id) {
      var i :| 0 <= i < |consents| && consents[i] == r;
      assert Mentions(consents[i], c.id, "update_push");
    }
    if i :| 0 <= i < |mandatory| && mandatory[i].consentClass == "update_push" { assert mandatory[i] in mandatory; }
    if i :| 0 <= i < |consents| && Mentions(consents[i], c.id, "update_push") { assert consents[i] in consents; }
  }

  /** The children the loop tries are the receivers. */
  lemma TriesAreReceivers(db: Db, local: string, mandatory: seq<MandatoryClass>)
    ensures forall i :: Tries(mandatory, db.consents, ListChildren(db.hubs, local), i) ==>
      Receives(db, local, mandatory, ListChildren(db.hubs, local)[i])
    ensures PushedTo(ListChildren(db.hubs, local), mandatory, db.consents) == Receivers(db, local, mandatory)
  {
    var children := ListChildren(db.hubs, local);
    ChildrenAre(db.hubs, local);
    forall c: Hub ensures (c in children && Pushes(mandatory, db.consents, c)) <==> Receives(db, local, mandatory, c) {
      PushesMeans(mandatory, db.consents, c);
    }
    forall i | Tries(mandatory, db.consents, children, i) ensures Receives(db, local, mandatory, children[i]) {
      assert children[i] in children;
    }
  }

  lemma ReceiversAreFresh(w: World, local: string, mandatory: seq<MandatoryClass>, env: string -> Attempt)
    requires UniqueHubs(w.db.hubs) && ParentsKnown(w.db.hubs) && FreshIds(w.db, local, mandatory, env)
    ensures FreshTries(w, ListChildren(w.db.hubs, local), mandatory, env)
    ensures forall i :: Tries(mandatory, w.db.consents, ListChildren(w.db.hubs, local), i) ==>
      Registered(w.db.hubs, local) && Registered(w.db.hubs, ListChildren(w.db.hubs, local)[i].id)
  {
    var children := ListChildren(w.db.hubs, local);
    TriesAreReceivers(w.db, local, mandatory);
    ChildrenUnique(w.db.hubs, local);
    forall i | Tries(mandatory, w.db.consents, children, i)
      ensures Registered(w.db.hubs, local) && Registered(w.db.hubs, children[i].id)
    {
      assert Receives(w.db, local, mandatory, children[i]);
      var k :| 0 <= k < |w.db.hubs| && w.db.hubs[k] == children[i];
      assert w.db.hubs[k].parent == Some(local);
    }
  }

  /** The receivers for which the insert fails. */
  ghost function Missed(db: Db, local: string, mandatory: seq<MandatoryClass>, env: string -> Attempt): set<Hub> {
    set c | c in db.hubs && Receives(db, local, mandatory, c) && env(c.id).fails
  }

  /**
   An approval that goes through gives every active child of the hub that may be pushed to its
   own pending row, with the update's version and signature, unless the insert for it fails;
   and it reports how many it tried, reached and missed.
   */
  lemma ApprovalDelivers(w: World, local: string, id: string, who: string, rationale: string,
                         mandatory: seq<MandatoryClass>, env: string -> Attempt)
    requires UniqueHubs(w.db.hubs) && ParentsKnown(w.db.hubs) && FreshIds(w.db, local, mandatory, env)
    requires who != "" && rationale != "" && id in w.db.rows && w.db.rows[id].status == Pending
    ensures var (v, r) := ApproveAndApply(w, local, id, who, rationale, Passes, mandatory, env);
      var rec := w.db.rows[id];
      && (forall c :: Receives(w.db, local, mandatory, c) ==>
            && (env(c.id).newId in v.db.rows <==> !env(c.id).fails)
            && (!env(c.id).fails ==>
                  v.db.rows[env(c.id).newId] == Row(local, c.id, rec.version, rec.signature, Pending, None)))
      && r.Cascaded? && r.status == Completed
      && r.attempted == |Receivers(w.db, local, mandatory)|
      && r.failed == |Missed(w.db, local, mandatory, env)|
      && r.succeeded == r.attempted - r.failed
  {
    var rec, children := w.db.rows[id], ListChildren(w.db.hubs, local);
    var w1 := MarkCompleted(w, id, who);
    assert w1.db.rows.Keys == w.db.rows.Keys;
    ReceiversAreFresh(w, local, mandatory, env);
    MarkedIsFresh(w, w1, children, mandatory, env);
    CascadeDelivers(w1, local, id, rec, children, mandatory, env);
    CascadeAccounting(w1, local, id, rec, children, mandatory, env);
    ChildrenUnique(w.db.hubs, local);
    CountsAreSets(children, mandatory, w.db.consents, env);
    TriesAreReceivers(w.db, local, mandatory);
    ReceiversAreTried(w.db, local, mandatory, env);
  }

  lemma MarkedIsFresh(w: World, w1: World, children: seq<Hub>, mandatory: seq<MandatoryClass>, env: string -> Attempt)
    requires FreshTries(w, children, mandatory, env)
    requires w1.db.rows.Keys == w.db.rows.Keys && w1.db.consents == w.db.consents
    ensures FreshTries(w1, children, mandatory, env)
  {}

  lemma ReceiversAreTried(db: Db, local: string, mandatory: seq<MandatoryClass>, env: string -> Attempt)
    ensures forall c :: Receives(db, local, mandatory, c) ==>
      exists i :: Tries(mandatory, db.consents, ListChildren(db.hubs, local), i) && ListChildren(db.hubs, local)[i] == c
    ensures FailedFor(ListChildren(db.hubs, local), mandatory, db.consents, env) == Missed(db, local, mandatory, env)
  {
    var children := ListChildren(db.hubs, local);
    TriesAreReceivers(db, local, mandatory);
    forall c | Receives(db, local, mandatory, c)
      ensures exists i :: Tries(mandatory, db.consents, children, i) && children[i] == c
    {
      assert c in PushedTo(children, mandatory, db.consents);
      var i :| 0 <= i < |children| && children[i] == c;
      assert Tries(mandatory, db.consents, children, i);
    }
    forall c: Hub ensures c in PushedTo(children, mandatory, db.consents) <==> c in Receivers(db, local, mandatory) {}
  }

  // ---------- what the theorem asks of the tables holds in every run ----------

  lemma {:induction false} RunKeepsParents(steps: seq<Step>)
    ensures ParentsKnown(Run(EMPTY, steps).db.hubs) && UniqueHubs(Run(EMPTY, steps).db.hubs)
  {
    HubsStayUnique(steps);
    if steps != [] {
      var n := |steps| - 1;
      RunKeepsParents(steps[..n]);
      StepKeepsParents(Run(EMPTY, steps[..n]), steps[n]);
    }
  }

  lemma StepKeepsParents(w: World, s: Step)
    requires ParentsKnown(w.db.hubs)
    ensures ParentsKnown(Next(w, s).db.hubs)
  {
    var hubs, hubs' := w.db.hubs, Next(w, s).db.hubs;
    StepKeepsHubs(w, s);
    if hubs' != hubs && |hubs'| > |hubs| {
      NewParentKnown(w, s);
    }
    forall i | 0 <= i < |hubs'| && hubs'[i].parent.Some?
      ensures exists j :: 0 <= j < |hubs'| && hubs'[j].id == hubs'[i].parent.value
    {
      if i < |hubs| {
        var j :| 0 <= j < |hubs| && hubs[j].id == hubs[i].parent.value;
        assert hubs'[j].id == hubs'[i].parent.value;
      }
    }
  }

  lemma NewParentKnown(w: World, s: Step)
    requires ParentsKnown(w.db.hubs) && |Next(w, s).db.hubs| > |w.db.hubs|
    ensures var hubs := Next(w, s).db.hubs;
      && |hubs| == |w.db.hubs| + 1
      && (hubs[|w.db.hubs|].parent.Some? ==>
            exists j :: 0 <= j < |hubs| && hubs[j].id == hubs[|w.db.hubs|].parent.value)
  {
    var hubs := Next(w, s).db.hubs;
    var n := |w.db.hubs|;
    if s.Approve? { ApproveKeepsHubs(w, s); }
    if hubs[n].parent.Some? {
      if hubs[n].parent.value == hubs[n].id {
        assert hubs[n].id == hubs[n].parent.value;
      } else {
        var j :| 0 <= j < n && w.db.hubs[j].id == hubs[n].parent.value;
        assert hubs[j].id == hubs[n].parent.value;
      }
    }
  }

  lemma ApproveKeepsHubs(w: World, s: Step)
    requires s.Approve?
    ensures Next(w, s).db.hubs == w.db.hubs
  {
    if s.id in w.db.rows {
      CascadeAccounting(MarkCompleted(w, s.id, s.who), s.hub, s.id, w.db.rows[s.id], ListChildren(w.db.hubs, s.hub),
        s.mandatory, s.env);
    }
  }
}
