/** Which tiers a lesson may reach: the resolver, the contribution gate and the writes. */
module LearningScope {
  import opened Wrappers

  datatype Scope = Project | WithinHub | CrossOrg | Denied

  const KNOWN_DATA_CATEGORIES: seq<string> := ["calibration_outcomes", "role_success_rates", "pattern_frequencies"]

  datatype Policy = Policy(withinHub: bool, crossOrg: bool, granular: map<string, bool>)

  const DEFAULT_POLICY := Policy(true, false, map[])

  /** An explicit entry wins; a missing or empty category has none. */
  predicate HasEntry(p: Policy, category: Option<string>) {
    category.Some? && category.value != "" && category.value in p.granular
  }

  predicate CrossOrgFor(p: Policy, category: Option<string>) {
    if HasEntry(p, category) then p.granular[category.value] else p.crossOrg
  }

  datatype Context = Context(requested: Scope, category: Option<string>, bundleWithinHub: Option<bool>,
                             bundleCrossOrg: Option<bool>)

  function Or(o: Option<bool>, b: bool): bool {
    match o
    case None => b
    case Some(x) => x
  }

  function MergeOverlay(p: Policy, ctx: Context): Policy {
    Policy(Or(ctx.bundleWithinHub, p.withinHub), Or(ctx.bundleCrossOrg, p.crossOrg), p.granular)
  }

  datatype Resolved = Resolved(granted: Scope, requested: Scope, reason: string, policy: Policy)

  /** loaded is None without a loader, Some(None) when the loader knows no policy. */
  function Resolve(ctx: Context, explicit: Option<Policy>, loaded: Option<Option<Policy>>): Resolved {
    var snapshot :=
      match (explicit, loaded)
      case (Some(p), _) => p
      case (None, Some(Some(p))) => p
      case _ => DEFAULT_POLICY;
    var p := MergeOverlay(snapshot, ctx);
    match ctx.requested
    case Project => Resolved(Project, Project, "tier_1a_always_on", p)
    case WithinHub =>
      if p.withinHub then Resolved(WithinHub, WithinHub, "tier_1b_default_on", p)
      else Resolved(Project, WithinHub, "tier_1b_disabled_by_policy", p)
    case CrossOrg =>
      if CrossOrgFor(p, ctx.category) then Resolved(CrossOrg, CrossOrg, "tier_2_consent_granted", p)
      else if p.withinHub then Resolved(WithinHub, CrossOrg, "tier_2_no_consent_downshifted_to_within_hub", p)
      else Resolved(Project, CrossOrg, "tier_2_no_consent_downshifted_to_project", p)
    case Denied => Resolved(Denied, Denied, "explicit_deny", p)
  }

  /** A bundle overlay replaces the umbrella flag, and never an explicit category entry. */
  lemma OverlayKeepsEntries(p: Policy, ctx: Context, category: Option<string>)
    ensures CrossOrgFor(MergeOverlay(p, ctx), category) <==>
      if HasEntry(p, category) then p.granular[category.value] else Or(ctx.bundleCrossOrg, p.crossOrg)
  {}

  function Rank(s: Scope): nat {
    match s
    case Denied => 0
    case Project => 1
    case WithinHub => 2
    case CrossOrg => 3
  }

  datatype Decision = Decision(resolved: Resolved, tiers: seq<Scope>, skipped: map<Scope, string>)

  /** Lowest tier first, none twice. */
  ghost predicate Ascending(tiers: seq<Scope>) {
    forall i, j :: 0 <= i < j < |tiers| ==> Rank(tiers[i]) < Rank(tiers[j])
  }

  predicate OffersWithinHub(p: Policy, ctx: Context) {
    (ctx.requested == WithinHub || ctx.requested == CrossOrg) && p.withinHub
  }

  predicate OffersCrossOrg(p: Policy, ctx: Context) { ctx.requested == CrossOrg && CrossOrgFor(p, ctx.category) }

  /** The tiers a policy opens to a request, and those asked for that it does not, with the reason. */
  function TiersOf(p: Policy, ctx: Context): seq<Scope> {
    [Project]
    + (if OffersWithinHub(p, ctx) then [WithinHub] else [])
    + (if OffersCrossOrg(p, ctx) then [CrossOrg] else [])
  }

  function SkippedOf(p: Policy, ctx: Context): map<Scope, string> {
    var hub: map<Scope, string> :=
      if Rank(ctx.requested) >= 2 && !p.withinHub then map[WithinHub := "within_hub_disabled_by_policy"] else map[];
    if ctx.requested == CrossOrg && !CrossOrgFor(p, ctx.category) then hub[CrossOrg := MissingConsent(ctx.category)]
    else hub
  }

  function MissingConsent(category: Option<string>): string {
    match category
    case None => "cross_org_consent_missing"
    case Some(c) => "cross_org_consent_missing_for:" + c
  }

  lemma TierMembers(p: Policy, ctx: Context)
    ensures Project in TiersOf(p, ctx) && Denied !in TiersOf(p, ctx)
    ensures WithinHub in TiersOf(p, ctx) <==> OffersWithinHub(p, ctx)
    ensures CrossOrg in TiersOf(p, ctx) <==> OffersCrossOrg(p, ctx)
    ensures Ascending(TiersOf(p, ctx))
  {}

  /** Every tier up to the requested one is listed or skipped, never both, and no other tier is. */
  lemma ListedOrSkipped(p: Policy, ctx: Context, t: Scope)
    requires t != Project && t != Denied
    ensures !(t in TiersOf(p, ctx) && t in SkippedOf(p, ctx))
    ensures Rank(t) <= Rank(ctx.requested) <==> t in TiersOf(p, ctx) || t in SkippedOf(p, ctx)
  {
    TierMembers(p, ctx);
  }

  /**
   The tiers, from the policies given: an explicit policy before a loaded one before the default
   (on within the hub, off across organisations, no entries); the bundle replaces either flag,
   and an entry for the category decides before the umbrella.
   */
  lemma GivenPolicyDecides(ctx: Context, explicit: Option<Policy>, loaded: Option<Option<Policy>>)
    ensures var given :=
        if explicit.Some? then explicit.value
        else if loaded.Some? && loaded.value.Some? then loaded.value.value else Policy(true, false, map[]);
      var hub := if ctx.bundleWithinHub.Some? then ctx.bundleWithinHub.value else given.withinHub;
      var umbrella := if ctx.bundleCrossOrg.Some? then ctx.bundleCrossOrg.value else given.crossOrg;
      var named := ctx.category.Some? && ctx.category.value != "" && ctx.category.value in given.granular;
      var across := if named then given.granular[ctx.category.value] else umbrella;
      var tiers := TiersOf(Resolve(ctx, explicit, loaded).policy, ctx);
      && (WithinHub in tiers <==> (ctx.requested == WithinHub || ctx.requested == CrossOrg) && hub)
      && (CrossOrg in tiers <==> ctx.requested == CrossOrg && across)
      && Resolve(ctx, explicit, loaded).policy == Policy(hub, umbrella, given.granular)
  {}

  /** The highest tier listed is the one the resolver grants, unless DENIED was asked for, which still lists project. */
  lemma HighestIsGranted(ctx: Context, explicit: Option<Policy>, loaded: Option<Option<Policy>>)
    ensures var r := Resolve(ctx, explicit, loaded);
      var tiers := TiersOf(r.policy, ctx);
      && tiers[0] == Project
      && if ctx.requested == Denied then tiers == [Project] && r.granted == Denied else tiers[|tiers| - 1] == r.granted
  {}

  /** Every tier up to the requested one is listed or skipped, never both. */
  ghost predicate AllDecided(ctx: Context, tiers: seq<Scope>, skipped: map<Scope, string>) {
    forall t :: t != Project && t != Denied ==>
      (Rank(t) <= Rank(ctx.requested) <==> t in tiers || t in skipped) && !(t in tiers && t in skipped)
  }

  lemma GateDecidesAll(p: Policy, ctx: Context)
    ensures AllDecided(ctx, TiersOf(p, ctx), SkippedOf(p, ctx))
  {
    forall t | t != Project && t != Denied
      ensures (Rank(t) <= Rank(ctx.requested) <==> t in TiersOf(p, ctx) || t in SkippedOf(p, ctx))
      ensures !(t in TiersOf(p, ctx) && t in SkippedOf(p, ctx))
    {
      ListedOrSkipped(p, ctx, t);
    }
  }

  /** The branches of `gate` under a policy. */
  method GateUnder(policy: Policy, ctx: Context) returns (tiers: seq<Scope>, skipped: map<Scope, string>)
    ensures tiers == TiersOf(policy, ctx) && skipped == SkippedOf(policy, ctx)
  {
    tiers, skipped := [Project], map[];
    if ctx.requested == WithinHub || ctx.requested == CrossOrg {
      if policy.withinHub {
        tiers := tiers + [WithinHub];
      } else {
        skipped := skipped[WithinHub := "within_hub_disabled_by_policy"];
      }
    }
    if ctx.requested == CrossOrg {
      if CrossOrgFor(policy, ctx.category) {
        tiers := tiers + [CrossOrg];
      } else {
        skipped := skipped[CrossOrg := MissingConsent(ctx.category)];
      }
    }
  }

  /**
   Project is always listed, the highest tier listed is the one the resolver grants (unless
   DENIED was asked for, which still lists project), and every tier up to the requested one
   is listed or skipped, never both.
   */
  method Gate(ctx: Context, explicit: Option<Policy>, loaded: Option<Option<Policy>>) returns (d: Decision)
    ensures d.resolved == Resolve(ctx, explicit, loaded)
    ensures d.tiers == TiersOf(d.resolved.policy, ctx) && d.skipped == SkippedOf(d.resolved.policy, ctx)
    ensures d.tiers != [] && d.tiers[0] == Project && Ascending(d.tiers)
    ensures ctx.requested != Denied ==> d.tiers[|d.tiers| - 1] == d.resolved.granted
    ensures ctx.requested == Denied ==> d.tiers == [Project] && d.resolved.granted == Denied
    ensures AllDecided(ctx, d.tiers, d.skipped)
  {
    var resolved := Resolve(ctx, explicit, loaded);
    var tiers, skipped := GateUnder(resolved.policy, ctx);
    d := Decision(resolved, tiers, skipped);
    TierMembers(resolved.policy, ctx);
    HighestIsGranted(ctx, explicit, loaded);
    GateDecidesAll(resolved.policy, ctx);
  }

  /** What the writer does with one tier: a row id, perhaps empty, or an exception. */
  datatype Write = RowId(id: string) | Raises(name: string)

  datatype Outcome = Outcome(decision: Decision, written: map<Scope, string>, failed: map<Scope, string>)

  /** The writer's own answer, where it gave a row. */
  ghost predicate Wrote(writer: Scope -> Write, t: Scope, id: string) { id != "" && writer(t) == RowId(id) }

  ghost predicate DidNotWrite(writer: Scope -> Write, t: Scope, reason: string) {
    (writer(t) == RowId("") && reason == "no_row_id_returned") || writer(t) == Raises(reason)
  }

  /** The loop over the tiers: each is written or failed, never both, and no other tier is touched. */
  method WriteTiers(tiers: seq<Scope>, writer: Scope -> Write)
    returns (written: map<Scope, string>, failed: map<Scope, string>)
    ensures forall t :: t in tiers ==> t in written || t in failed
    ensures forall t :: t in written ==> t in tiers && t !in failed && Wrote(writer, t, written[t])
    ensures forall t :: t in failed ==> t in tiers && DidNotWrite(writer, t, failed[t])
  {
    written, failed := map[], map[];
    for i := 0 to |tiers|
      invariant forall j :: 0 <= j < i ==> tiers[j] in written || tiers[j] in failed
      invariant forall t :: t in written ==> t in tiers && Wrote(writer, t, written[t])
      invariant forall t :: t in failed ==> t in tiers && DidNotWrite(writer, t, failed[t])
    {
      var tier := tiers[i];
      match writer(tier) {
        case RowId(id) =>
          if id != "" {
            written := written[tier := id];
          } else {
            failed := failed[tier := "no_row_id_returned"];
          }
        case Raises(name) =>
          failed := failed[tier := name];
      }
    }
  }

  /** Whatever the writer does, the written and the failed tiers are disjoint and are the gated tiers. */
  method ContributeLesson(ctx: Context, explicit: Option<Policy>, loaded: Option<Option<Policy>>,
                          writer: Scope -> Write)
    returns (r: Outcome)
    ensures r.decision.resolved == Resolve(ctx, explicit, loaded)
    ensures r.decision.tiers == TiersOf(r.decision.resolved.policy, ctx)
    ensures r.written.Keys !! r.failed.Keys
    ensures forall t :: t in r.decision.tiers ==> t in r.written || t in r.failed
    ensures forall t :: t in r.written ==> t in r.decision.tiers && Wrote(writer, t, r.written[t])
    ensures forall t :: t in r.failed ==> t in r.decision.tiers && DidNotWrite(writer, t, r.failed[t])
    ensures Project in r.written || Project in r.failed
    ensures CrossOrg in r.written ==> OffersCrossOrg(r.decision.resolved.policy, ctx)
  {
    var d := Gate(ctx, explicit, loaded);
    TierMembers(d.resolved.policy, ctx);
    var written, failed := WriteTiers(d.tiers, writer);
    r := Outcome(d, written, failed);
  }
}
