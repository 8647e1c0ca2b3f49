/** The upgrade planner and executor, over any ordered list of releases and any window. */
module SpineVersion {
  import opened Wrappers
  import opened Versions

  datatype Subsystem = Subsystem(name: string, kind: string, current: string, minSupported: string, notes: string)

  datatype Registry = Registry(versions: seq<string>, window: nat, subsystems: seq<Subsystem>)

  ghost predicate ValidRegistry(g: Registry) {
    && (forall i, j :: 0 <= i < j < |g.versions| ==> g.versions[i] != g.versions[j])
    && g.window >= 1
  }

  datatype UpgradeError = UnsupportedUpgradePath | DowngradeBlocked | PermissionDenied

  datatype Result<T> = Done(value: T) | Failed(error: UpgradeError)

  datatype Step = Step(subsystem: string, fromVersion: string, toVersion: string, handlerId: string, rationale: string)

  // ---------- paths ----------

  function SupportedPaths(g: Registry, src: string, dst: string): Result<seq<string>> {
    match (IndexOf(g.versions, src), IndexOf(g.versions, dst))
    case (Some(i), Some(j)) =>
      if j < i then Failed(DowngradeBlocked)
      else if j == i then Done([src])
      else if j - i <= g.window then Done([src, dst])
      else Done(g.versions[i..j + 1])
    case _ => Failed(UnsupportedUpgradePath)
  }

  /** Where a known version stands. */
  function Place(g: Registry, v: string): nat
    requires v in g.versions
  {
    IndexOf(g.versions, v).value
  }

  lemma PlaceOf(g: Registry, i: nat)
    requires ValidRegistry(g) && i < |g.versions|
    ensures g.versions[i] in g.versions && Place(g, g.versions[i]) == i
  {}

  /** One hop of a path: forward, and by no more than the window. */
  ghost predicate Hop(g: Registry, v: string, w: string) {
    v in g.versions && w in g.versions && Place(g, v) < Place(g, w) <= Place(g, v) + g.window
  }

  /**
   A path exists exactly for known versions with the target not behind the source; it runs
   from one to the other, every hop forward and within the window: one hop where the window
   reaches, and where it does not, a stop at every release in between.
   */
  lemma PathsWalkForward(g: Registry, src: string, dst: string)
    requires ValidRegistry(g)
    ensures var p := SupportedPaths(g, src, dst);
      && (p == Failed(UnsupportedUpgradePath) <==> src !in g.versions || dst !in g.versions)
      && (p == Failed(DowngradeBlocked) <==> src in g.versions && dst in g.versions && Place(g, dst) < Place(g, src))
      && (p.Done? ==>
            && p.value != [] && p.value[0] == src && p.value[|p.value| - 1] == dst
            && (forall i :: 0 < i < |p.value| ==> Hop(g, p.value[i - 1], p.value[i]))
            && (src == dst ==> p.value == [src])
            && (0 < Place(g, dst) - Place(g, src) <= g.window ==> p.value == [src, dst])
            && (Place(g, dst) - Place(g, src) > g.window ==> |p.value| == Place(g, dst) - Place(g, src) + 1))
  {
    var p := SupportedPaths(g, src, dst);
    if p.Done? && |p.value| > 2 {
      SliceWalks(g, Place(g, src), Place(g, dst), p.value);
    }
  }

  /** The releases from one place to a later one, each a hop from the one before. */
  lemma SliceWalks(g: Registry, i: nat, j: nat, p: seq<string>)
    requires ValidRegistry(g) && i <= j < |g.versions| && p == g.versions[i..j + 1]
    ensures p[0] == g.versions[i] && p[|p| - 1] == g.versions[j]
    ensures forall k :: 0 < k < |p| ==> Hop(g, p[k - 1], p[k])
  {
    forall k | 0 < k < |p| ensures Hop(g, p[k - 1], p[k]) {
      PlaceOf(g, i + k - 1);
      PlaceOf(g, i + k);
    }
  }

  lemma PathEnds(g: Registry, src: string, dst: string)
    requires ValidRegistry(g) && SupportedPaths(g, src, dst).Done?
    ensures var p := SupportedPaths(g, src, dst).value;
      && g.versions != [] && p != [] && p[0] == src && p[|p| - 1] == dst && (|p| == 1 <==> src == dst)
      && (|p| > 1 ==> p == [src] + p[1..|p| - 1] + [dst])
  {
    PathsWalkForward(g, src, dst);
  }

  // ---------- plans ----------

  function BuildStep(g: Registry, s: Subsystem, hopFrom: string, hopTo: string): Step
    requires g.versions != []
  {
    Step(s.name,
         if hopFrom == g.versions[0] then s.minSupported else s.current,
         s.current,
         s.kind + "__" + s.name + "__" + hopFrom + "__to__" + hopTo,
         s.name + ": " + s.notes + " (spine " + hopFrom + " -> " + hopTo + ")")
  }

  datatype Plan = Plan(src: string, dst: string, steps: seq<Step>, intermediate: seq<string>, requiresApproval: bool)

  function HopSteps(g: Registry, hopFrom: string, hopTo: string): (r: seq<Step>)
    requires g.versions != []
    ensures |r| == |g.subsystems|
    ensures forall j :: 0 <= j < |r| ==> r[j] == BuildStep(g, g.subsystems[j], hopFrom, hopTo)
  {
    seq(|g.subsystems|, j requires 0 <= j < |g.subsystems| => BuildStep(g, g.subsystems[j], hopFrom, hopTo))
  }

  /** The steps of a walk, hop by hop. */
  function PlanSteps(g: Registry, hops: seq<string>): seq<Step>
    requires g.versions != []
  {
    if |hops| < 2 then []
    else
      var n := |hops| - 1;
      PlanSteps(g, hops[..n]) + HopSteps(g, hops[n - 1], hops[n])
  }

  lemma StepCount(g: Registry, hops: seq<string>)
    requires g.versions != [] && hops != []
    ensures |PlanSteps(g, hops)| == (|hops| - 1) * |g.subsystems|
  {
    if |hops| >= 2 {
      StepCount(g, hops[..|hops| - 1]);
      assert (|hops| - 1) * |g.subsystems| == (|hops| - 2) * |g.subsystems| + |g.subsystems|;
    }
  }

  /**
   One step per hop and subsystem, hops in order and subsystems in registry order within a hop.
   A step takes its subsystem to the current version, from the oldest supported one when the
   hop starts at the first release, and names kind, subsystem and both ends of the hop.
   */
  lemma {:induction false} StepAt(g: Registry, hops: seq<string>, i: nat, j: nat)
    requires g.versions != [] && i + 1 < |hops| && j < |g.subsystems|
    ensures |PlanSteps(g, hops)| == (|hops| - 1) * |g.subsystems|
    ensures i * |g.subsystems| + j < |PlanSteps(g, hops)|
    ensures PlanSteps(g, hops)[i * |g.subsystems| + j] == BuildStep(g, g.subsystems[j], hops[i], hops[i + 1])
    ensures var step, s := PlanSteps(g, hops)[i * |g.subsystems| + j], g.subsystems[j];
      && step.subsystem == s.name && step.toVersion == s.current
      && step.fromVersion == (if hops[i] == g.versions[0] then s.minSupported else s.current)
      && step.handlerId == s.kind + "__" + s.name + "__" + hops[i] + "__to__" + hops[i + 1]
  {
    var n, m := |g.subsystems|, |hops| - 1;
    StepCount(g, hops);
    StepCount(g, hops[..m]);
    if i + 1 < m {
      StepAt(g, hops[..m], i, j);
    } else {
      assert i == m - 1;
      assert m * n == (m - 1) * n + n;
    }
  }

  /** What `plan` returns when there is a path. */
  function PlanOf(g: Registry, src: string, dst: string, path: seq<string>): Plan
    requires g.versions != []
  {
    if |path| < 2 then Plan(src, dst, [], [], false)
    else Plan(src, dst, PlanSteps(g, path), path[1..|path| - 1], true)
  }

  /** The nested loops of `plan`. */
  method StepsOf(g: Registry, hops: seq<string>) returns (steps: seq<Step>)
    requires g.versions != [] && hops != []
    ensures steps == PlanSteps(g, hops)
  {
    steps := [];
    for i := 0 to |hops| - 1
      invariant steps == PlanSteps(g, hops[..i + 1])
    {
      ghost var before := steps;
      for j := 0 to |g.subsystems|
        invariant steps == before + HopSteps(g, hops[i], hops[i + 1])[..j]
      {
        steps := steps + [BuildStep(g, g.subsystems[j], hops[i], hops[i + 1])];
      }
      assert hops[..i + 2][..i + 1] == hops[..i + 1];
    }
    assert hops[..|hops|] == hops;
  }

  method MakePlan(g: Registry, src: string, dst: string) returns (r: Result<Plan>)
    requires ValidRegistry(g)
    ensures var path := SupportedPaths(g, src, dst);
      && (path.Failed? ==> r == Failed(path.error))
      && (path.Done? ==>
            && r == Done(PlanOf(g, src, dst, path.value))
            && (src == dst ==> r.value == Plan(src, dst, [], [], false))
            && (src != dst ==>
                  && r.value.requiresApproval
                  && path.value == [src] + r.value.intermediate + [dst]))
  {
    var path := SupportedPaths(g, src, dst);
    if path.Failed? { return Failed(path.error); }
    PathEnds(g, src, dst);
    var hops := path.value;
    if |hops| == 1 { return Done(Plan(src, dst, [], [], false)); }
    var steps := StepsOf(g, hops);
    return Done(Plan(src, dst, steps, hops[1..|hops| - 1], true));
  }

  // ---------- execution ----------

  datatype Exec = Message(text: string) | Raises(text: string)

  datatype Status = Ok | Error | Skipped

  datatype StepOutcome = StepOutcome(step: Step, status: Status, text: string)

  datatype Report = Report(plan: Plan, outcomes: seq<StepOutcome>, allOk: bool)

  /** What the run asked of the outside, in order. */
  datatype Event = AskedApproval | Executed(step: Step)

  function ExecutedAll(steps: seq<Step>): (r: seq<Event>)
    ensures |r| == |steps|
    ensures forall i :: 0 <= i < |r| ==> r[i] == Executed(steps[i])
  {
    seq(|steps|, i requires 0 <= i < |steps| => Executed(steps[i]))
  }

  /** The outcome is what the executor said. */
  predicate Records(o: StepOutcome, e: Exec) {
    match e
    case Message(text) => o.status == Ok && o.text == text
    case Raises(text) => o.status == Error && o.text == text
  }

  /** The outcomes cover a prefix of the steps, in order, and stop early only at a failure. */
  ghost predicate StopsAtFailure(steps: seq<Step>, outcomes: seq<StepOutcome>, ok: bool) {
    && |outcomes| <= |steps|
    && (forall i :: 0 <= i < |outcomes| ==> outcomes[i].step == steps[i])
    && (forall i :: 0 <= i < |outcomes| ==> (outcomes[i].status == Error <==> !ok && i == |outcomes| - 1))
    && (ok ==> |outcomes| == |steps|)
    && (!ok ==> outcomes != [])
  }

  /** executor(n, step) is what the n-th execution does; a dry run executes nothing. */
  method Execute(steps: seq<Step>, executor: (nat, Step) -> Exec, dry: bool)
    returns (outcomes: seq<StepOutcome>, ok: bool, trace: seq<Event>)
    ensures StopsAtFailure(steps, outcomes, ok)
    ensures trace == if dry then [] else ExecutedAll(steps[..|outcomes|])
    ensures dry ==> ok && forall i :: 0 <= i < |outcomes| ==> outcomes[i].status == Skipped
    ensures !dry ==> forall i :: 0 <= i < |outcomes| ==> Records(outcomes[i], executor(i, steps[i]))
  {
    outcomes, ok, trace := [], true, [];
    for i := 0 to |steps|
      invariant |outcomes| == i && ok
      invariant forall k :: 0 <= k < i ==> outcomes[k].step == steps[k] && outcomes[k].status != Error
      invariant trace == if dry then [] else ExecutedAll(steps[..i])
      invariant dry ==> forall k :: 0 <= k < i ==> outcomes[k].status == Skipped
      invariant !dry ==> forall k :: 0 <= k < i ==> Records(outcomes[k], executor(k, steps[k]))
    {
      var step := steps[i];
      if dry {
        outcomes := outcomes + [StepOutcome(step, Skipped, "dry_run; would run " + step.handlerId)];
        continue;
      }
      assert ExecutedAll(steps[..i + 1]) == ExecutedAll(steps[..i]) + [Executed(step)];
      trace := trace + [Executed(step)];
      match executor(i, step) {
        case Message(text) =>
          outcomes := outcomes + [StepOutcome(step, Ok, text)];
        case Raises(text) =>
          ok := false;
          outcomes := outcomes + [StepOutcome(step, Error, text)];
          return;
      }
    }
  }

  predicate Approved(approve: Option<Plan -> bool>, plan: Plan) { approve.Some? && approve.value(plan) }

  /**
   An upgrade is refused exactly when there is no path, or the plan has steps and was not
   approved.  Nothing runs without approval, which is asked once, before any step; then exactly
   the prefix of the plan that ends at the first failure is executed and recorded, or all of it.
   */
  method Upgrade(g: Registry, src: string, dst: string, executor: (nat, Step) -> Exec,
                 approve: Option<Plan -> bool>, dry: bool)
    returns (r: Result<Report>, trace: seq<Event>)
    requires ValidRegistry(g)
    ensures var path := SupportedPaths(g, src, dst);
      && (path.Failed? ==> r == Failed(path.error) && trace == [])
      && (path.Done? && r.Failed? ==>
            r.error == PermissionDenied && trace == if approve.Some? then [AskedApproval] else [])
      && (path.Done? ==>
            (r.Failed? <==> PlanSteps(g, path.value) != [] && !Approved(approve, PlanOf(g, src, dst, path.value))))
      && (r.Done? ==>
            && path.Done? && r.value.plan == PlanOf(g, src, dst, path.value)
            && StopsAtFailure(r.value.plan.steps, r.value.outcomes, r.value.allOk))
    ensures r.Done? && r.value.plan.steps == [] ==> trace == []
    ensures r.Done? && r.value.plan.steps != [] ==>
      && Approved(approve, r.value.plan)
      && trace == [AskedApproval] + (if dry then [] else ExecutedAll(r.value.plan.steps[..|r.value.outcomes|]))
    ensures r.Done? && dry ==> forall i :: 0 <= i < |r.value.outcomes| ==> r.value.outcomes[i].status == Skipped
    ensures r.Done? && !dry ==>
      forall i :: 0 <= i < |r.value.outcomes| ==> Records(r.value.outcomes[i], executor(i, r.value.plan.steps[i]))
  {
    trace := [];
    var planned := MakePlan(g, src, dst);
    if planned.Failed? { return Failed(planned.error), []; }
    var plan := planned.value;
    if plan.steps == [] { return Done(Report(plan, [], true)), []; }
    if approve.None? { return Failed(PermissionDenied), []; }
    if !approve.value(plan) { return Failed(PermissionDenied), [AskedApproval]; }
    var outcomes, ok, executed := Execute(plan.steps, executor, dry);
    return Done(Report(plan, outcomes, ok)), [AskedApproval] + executed;
  }
}
