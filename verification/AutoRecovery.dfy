/**
 The restart circuit breaker.  Probes, clock readings and whether a clean-up succeeded are
 parameters of each check; pid files and signals themselves are left out.
 */
module AutoRecovery {
  import opened Wrappers

  datatype Probe = Probe(pid: Option<int>, pidAlive: bool, heartbeatStale: bool)

  predicate IsHealthy(p: Probe) { p.pid.None? || (p.pidAlive && !p.heartbeatStale) }

  datatype Action = Noop | Restarted | CircuitOpen | K8sOwned | MissingTarget | KilledZombie

  /** targets maps a name to whether Kubernetes owns it. */
  datatype Config = Config(targets: map<string, bool>, maxRestarts: int, window: real)

  /** One check: t1 is the clock when the breaker looks, t2 when the restart is recorded. */
  datatype Check = Check(name: string, probe: Probe, cleaned: bool, t1: real, t2: real)

  type Logs = map<string, seq<real>>

  function LogOf(logs: Logs, name: string): seq<real> {
    if name in logs then logs[name] else []
  }

  function Prune(log: seq<real>, cutoff: real): seq<real> {
    if log == [] then []
    else Prune(log[..|log| - 1], cutoff) + (if log[|log| - 1] >= cutoff then [log[|log| - 1]] else [])
  }

  predicate NeedsRecovery(g: Config, c: Check) {
    c.name in g.targets && !g.targets[c.name] && !IsHealthy(c.probe)
  }

  predicate BreakerOpen(g: Config, logs: Logs, c: Check) {
    |Prune(LogOf(logs, c.name), c.t1 - g.window)| >= g.maxRestarts
  }

  predicate Records(g: Config, logs: Logs, c: Check) { NeedsRecovery(g, c) && !BreakerOpen(g, logs, c) }

  /** The logs after one check. */
  function Next(g: Config, logs: Logs, c: Check): Logs {
    if !NeedsRecovery(g, c) then logs
    else
      var pruned := Prune(LogOf(logs, c.name), c.t1 - g.window);
      logs[c.name := if Records(g, logs, c) then pruned + [c.t2] else pruned]
  }

  function Run(g: Config, cs: seq<Check>): Logs {
    if cs == [] then map[] else Next(g, Run(g, cs[..|cs| - 1]), cs[|cs| - 1])
  }

  /** Every restart of the target in the run, never pruned. */
  function History(g: Config, cs: seq<Check>, name: string): seq<real> {
    if cs == [] then []
    else
      var n := |cs| - 1;
      History(g, cs[..n], name)
      + (if cs[n].name == name && Records(g, Run(g, cs[..n]), cs[n]) then [cs[n].t2] else [])
  }

  /** What a check answers. */
  function Answer(g: Config, logs: Logs, c: Check): Action {
    if c.name !in g.targets then MissingTarget
    else if g.targets[c.name] then K8sOwned
    else if IsHealthy(c.probe) then Noop
    else if BreakerOpen(g, logs, c) then CircuitOpen
    else if c.probe.pid != Some(0) && c.cleaned then KilledZombie
    else Restarted
  }

  function Answers(g: Config, cs: seq<Check>): (r: seq<Action>)
    ensures |r| == |cs|
  {
    if cs == [] then []
    else Answers(g, cs[..|cs| - 1]) + [Answer(g, Run(g, cs[..|cs| - 1]), cs[|cs| - 1])]
  }

  /** When the target was restarted, as the answers tell. */
  function Restarts(cs: seq<Check>, answers: seq<Action>, name: string): seq<real>
    requires |cs| == |answers|
  {
    if cs == [] then []
    else
      var n := |cs| - 1;
      Restarts(cs[..n], answers[..n], name)
      + (if cs[n].name == name && (answers[n] == Restarted || answers[n] == KilledZombie) then [cs[n].t2] else [])
  }

  /** The restarts within [lo, hi]. */
  function CountIn(log: seq<real>, lo: real, hi: real): nat {
    if log == [] then 0
    else CountIn(log[..|log| - 1], lo, hi) + (if lo <= log[|log| - 1] <= hi then 1 else 0)
  }

  /** The probe found a process that is dead or silent; a target that never started has none. */
  predicate Unhealthy(p: Probe) { p.pid.Some? && !(p.pidAlive && !p.heartbeatStale) }

  /** No window of the configured length holds more restarts of one target than allowed. */
  ghost predicate Bounded(g: Config, cs: seq<Check>, answers: seq<Action>)
    requires |cs| == |answers|
  {
    forall name, lo, hi :: hi == lo + g.window ==>
      CountIn(Restarts(cs, answers, name), lo, hi) <= if g.maxRestarts > 0 then g.maxRestarts else 0
  }

  // ---------- the code as it runs ----------

  class AutoRecoveryManager {
    const config: Config
    var restartLog: Logs
    ghost var checks: seq<Check>
    ghost var answers: seq<Action>

    ghost predicate Valid()
      reads this
    {
      restartLog == Run(config, checks) && answers == Answers(config, checks)
    }

    constructor (config: Config)
      ensures Valid() && this.config == config && checks == [] && answers == []
    {
      this.config := config;
      restartLog, checks, answers := map[], [], [];
    }

    method IsBreakerOpen(name: string, now: real) returns (open: bool)
      modifies this`restartLog
      ensures restartLog == old(restartLog)[name := Prune(LogOf(old(restartLog), name), now - config.window)]
      ensures open == (|restartLog[name]| >= config.maxRestarts)
    {
      if name !in restartLog { restartLog := restartLog[name := []]; }
      var log := restartLog[name];
      var kept: seq<real> := [];
      for i := 0 to |log|
        invariant kept == Prune(log[..i], now - config.window)
      {
        assert log[..i + 1][..i] == log[..i];
        if log[i] >= now - config.window { kept := kept + [log[i]]; }
      }
      assert log[..|log|] == log;
      restartLog := restartLog[name := kept];
      open := |kept| >= config.maxRestarts;
    }

    /**
     Only the checked target's log can change.  As long as the clock is orderly, the circuit is
     open exactly for an unhealthy supervised target that, by the answers so far, was restarted
     at least `maxRestarts` times within the last window; so no window ever holds more.
     */
    method CheckAndRecover(c: Check) returns (action: Action)
      requires Valid()
      modifies this
      ensures Valid() && checks == old(checks) + [c] && answers == old(answers) + [action]
      ensures forall name :: name != c.name ==> LogOf(restartLog, name) == LogOf(old(restartLog), name)
      ensures action == MissingTarget <==> c.name !in config.targets
      ensures action == K8sOwned <==> c.name in config.targets && config.targets[c.name]
      ensures action == Noop <==> c.name in config.targets && !config.targets[c.name] && !Unhealthy(c.probe)
      ensures action == CircuitOpen <==> NeedsRecovery(config, c) && BreakerOpen(config, old(restartLog), c)
      ensures Orderly(checks) && config.window >= 0.0 ==>
        (action == CircuitOpen <==>
          && c.name in config.targets && !config.targets[c.name] && Unhealthy(c.probe)
          && CountIn(Restarts(old(checks), old(answers), c.name), c.t1 - config.window, c.t1) >= config.maxRestarts)
      ensures Orderly(checks) && config.window >= 0.0 ==> Bounded(config, checks, answers)
      ensures action == KilledZombie ==> c.cleaned && c.probe.pid.Some? && c.probe.pid.value != 0
      ensures action == Restarted ==> !c.cleaned || c.probe.pid == Some(0)
    {
      action := Recover(c);
      assert checks[..|checks| - 1] == old(checks);
      CheckLaw(config, old(checks), c, checks);
    }

    method Recover(c: Check) returns (action: Action)
      requires Valid()
      modifies this
      ensures Valid() && checks == old(checks) + [c] && answers == old(answers) + [action]
      ensures restartLog == Next(config, old(restartLog), c) && action == Answer(config, old(restartLog), c)
    {
      ghost var before := restartLog;
      checks := checks + [c];
      assert checks[..|checks| - 1] == old(checks);
      answers := answers + [Answer(config, before, c)];
      if c.name !in config.targets { return MissingTarget; }
      if config.targets[c.name] { return K8sOwned; }
      if c.probe.pid.None? { return Noop; }
      if c.probe.pidAlive && !c.probe.heartbeatStale { return Noop; }
      var open := IsBreakerOpen(c.name, c.t1);
      if open { return CircuitOpen; }
      var killed := c.probe.pid.value != 0 && c.cleaned;
      restartLog := restartLog[c.name := restartLog[c.name] + [c.t2]];
      assert restartLog == Next(config, before, c);
      return if killed then KilledZombie else Restarted;
    }

    /** `check_all` over the registered names in order; env supplies what each check sees. */
    method CheckAll(names: seq<string>, env: string -> Check) returns (actions: seq<Action>)
      requires Valid() && forall i :: 0 <= i < |names| ==> env(names[i]).name == names[i]
      modifies this
      ensures Valid() && |actions| == |names|
      ensures checks == old(checks) + seq(|names|, i requires 0 <= i < |names| => env(names[i]))
      ensures answers == old(answers) + actions
    {
      actions := [];
      for i := 0 to |names|
        invariant Valid() && |actions| == i && answers == old(answers) + actions
        invariant checks == old(checks) + seq(i, j requires 0 <= j < i => env(names[j]))
      {
        var action := CheckAndRecover(env(names[i]));
        actions := actions + [action];
      }
    }
  }

  // ---------- the pruned log against the full history ----------

  lemma {:induction false} PrunePrune(log: seq<real>, c: real, d: real)
    requires c <= d
    ensures Prune(Prune(log, c), d) == Prune(log, d)
  {
    if log != [] {
      var n := |log| - 1;
      PrunePrune(log[..n], c, d);
      var kept := Prune(log[..n], c);
      assert (kept + [log[n]])[..|kept|] == kept;
      assert Prune(log, c) == if log[n] >= c then kept + [log[n]] else kept;
    }
  }

  lemma {:induction false} PruneSnoc(log: seq<real>, t: real, c: real)
    ensures Prune(log + [t], c) == Prune(log, c) + (if t >= c then [t] else [])
  {
    assert (log + [t])[..|log|] == log;
  }

  /** The clock never runs backwards. */
  ghost predicate Orderly(cs: seq<Check>) {
    && (forall i :: 0 <= i < |cs| ==> cs[i].t1 <= cs[i].t2)
    && (forall i, j :: 0 <= i < j < |cs| ==> cs[i].t2 <= cs[j].t1)
  }

  /** No check is later than now. */
  ghost predicate UpTo(cs: seq<Check>, now: real) {
    forall i :: 0 <= i < |cs| ==> cs[i].t2 <= now
  }

  lemma HistoryStep(g: Config, cs: seq<Check>, name: string)
    requires cs != []
    ensures var n := |cs| - 1;
      var h := History(g, cs[..n], name);
      History(g, cs, name) == if cs[n].name == name && Records(g, Run(g, cs[..n]), cs[n]) then h + [cs[n].t2] else h
  {}

  lemma LogStep(g: Config, logs: Logs, c: Check, h: seq<real>, cutoff: real)
    requires LogOf(logs, c.name) == Prune(h, cutoff) && NeedsRecovery(g, c)
    requires cutoff <= c.t1 - g.window <= c.t2
    ensures LogOf(Next(g, logs, c), c.name) ==
      Prune(if Records(g, logs, c) then h + [c.t2] else h, c.t1 - g.window)
  {
    PrunePrune(h, cutoff, c.t1 - g.window);
    PruneSnoc(h, c.t2, c.t1 - g.window);
  }

  lemma RunStep(g: Config, init: seq<Check>, c: Check, name: string, cutoff: real)
    requires c.name == name && NeedsRecovery(g, c) && cutoff <= c.t1 - g.window <= c.t2
    requires IsPruned(g, init, name, cutoff)
    ensures IsPruned(g, init + [c], name, c.t1 - g.window)
  {
    var cs := init + [c];
    assert cs[..|cs| - 1] == init;
    HistoryStep(g, cs, name);
    LogStep(g, Run(g, init), c, History(g, init, name), cutoff);
  }

  /** The log holds the history from the cutoff on. */
  ghost predicate IsPruned(g: Config, cs: seq<Check>, name: string, cutoff: real) {
    LogOf(Run(g, cs), name) == Prune(History(g, cs, name), cutoff)
  }

  lemma OrderlyPrefix(cs: seq<Check>)
    requires Orderly(cs) && cs != []
    ensures var n := |cs| - 1; Orderly(cs[..n]) && UpTo(cs[..n], cs[n].t1) && cs[n].t1 <= cs[n].t2
  {}

  /** A check of another target, or of a healthy one, leaves log and history of this one alone. */
  lemma UntouchedStep(g: Config, cs: seq<Check>, name: string)
    requires cs != [] && !(cs[|cs| - 1].name == name && NeedsRecovery(g, cs[|cs| - 1]))
    ensures LogOf(Run(g, cs), name) == LogOf(Run(g, cs[..|cs| - 1]), name)
    ensures History(g, cs, name) == History(g, cs[..|cs| - 1], name)
  {
    HistoryStep(g, cs, name);
  }

  lemma UntouchedBy(g: Config, init: seq<Check>, c: Check, name: string, cutoff: real)
    requires !(c.name == name && NeedsRecovery(g, c)) && IsPruned(g, init, name, cutoff)
    ensures IsPruned(g, init + [c], name, cutoff)
  {
    assert (init + [c])[..|init|] == init;
    UntouchedStep(g, init + [c], name);
  }

  /** One check moves the cutoff of its own target up to a window ago, or leaves log and history as they were. */
  lemma CutoffAfter(g: Config, init: seq<Check>, c: Check, name: string, cutoff: real) returns (next: real)
    requires g.window >= 0.0 && cutoff <= c.t1 - g.window && c.t1 <= c.t2 && IsPruned(g, init, name, cutoff)
    ensures next <= c.t1 - g.window && IsPruned(g, init + [c], name, next)
  {
    if c.name == name && NeedsRecovery(g, c) {
      next := c.t1 - g.window;
      RunStep(g, init, c, name, cutoff);
    } else {
      next := cutoff;
      UntouchedBy(g, init, c, name, cutoff);
    }
  }

  /** The log is the history from some cutoff on, a cutoff no later than a window ago. */
  lemma {:induction false} LogIsPrunedHistory(g: Config, cs: seq<Check>, name: string, now: real) returns (cutoff: real)
    requires Orderly(cs) && UpTo(cs, now) && g.window >= 0.0
    ensures cutoff <= now - g.window
    ensures LogOf(Run(g, cs), name) == Prune(History(g, cs, name), cutoff)
  {
    cutoff := now - g.window;
    if cs != [] {
      var n := |cs| - 1;
      OrderlyPrefix(cs);
      cutoff := LogIsPrunedHistory(g, cs[..n], name, cs[n].t1);
      cutoff := CutoffAfter(g, cs[..n], cs[n], name, cutoff);
      assert cs == cs[..n] + [cs[n]] && cs[n].t2 <= now;
    }
  }

  /**
   Although the log is pruned in place, the breaker decides as if it saw everything: at any
   time not before the last check, it is open exactly when the full history has at least
   `maxRestarts` entries within the last window.
   */
  lemma BreakerSeesHistory(g: Config, cs: seq<Check>, c: Check)
    requires Orderly(cs) && UpTo(cs, c.t1) && g.window >= 0.0
    ensures BreakerOpen(g, Run(g, cs), c) <==> |Prune(History(g, cs, c.name), c.t1 - g.window)| >= g.maxRestarts
  {
    var cutoff := LogIsPrunedHistory(g, cs, c.name, c.t1);
    OpenByHistory(g, Run(g, cs), c, History(g, cs, c.name), cutoff);
  }

  lemma OpenByHistory(g: Config, logs: Logs, c: Check, h: seq<real>, cutoff: real)
    requires LogOf(logs, c.name) == Prune(h, cutoff) && cutoff <= c.t1 - g.window
    ensures BreakerOpen(g, logs, c) <==> |Prune(h, c.t1 - g.window)| >= g.maxRestarts
  {
    PrunePrune(h, cutoff, c.t1 - g.window);
  }

  // ---------- the sliding window ----------

  lemma {:induction false} CountInAtMostPruned(log: seq<real>, lo: real, hi: real, cutoff: real)
    requires cutoff <= lo
    ensures CountIn(log, lo, hi) <= |Prune(log, cutoff)|
  {
    if log != [] { CountInAtMostPruned(log[..|log| - 1], lo, hi, cutoff); }
  }

  lemma CountInSnoc(log: seq<real>, t: real, lo: real, hi: real)
    ensures CountIn(log + [t], lo, hi) == CountIn(log, lo, hi) + (if lo <= t <= hi then 1 else 0)
  {
    assert (log + [t])[..|log|] == log;
  }

  /** The history the breaker keeps is what its answers tell. */
  lemma {:induction false} RestartsAreHistory(g: Config, cs: seq<Check>, name: string)
    ensures Restarts(cs, Answers(g, cs), name) == History(g, cs, name)
  {
    if cs != [] {
      var n := |cs| - 1;
      RestartsAreHistory(g, cs[..n], name);
      assert Answers(g, cs)[..n] == Answers(g, cs[..n]);
    }
  }

  lemma {:induction false} HistoryUpTo(g: Config, cs: seq<Check>, name: string, now: real)
    requires UpTo(cs, now)
    ensures forall i :: 0 <= i < |History(g, cs, name)| ==> History(g, cs, name)[i] <= now
  {
    if cs != [] { HistoryUpTo(g, cs[..|cs| - 1], name, now); }
  }

  lemma {:induction false} CountInIsPruned(log: seq<real>, lo: real, now: real)
    requires forall i :: 0 <= i < |log| ==> log[i] <= now
    ensures CountIn(log, lo, now) == |Prune(log, lo)|
  {
    if log != [] { CountInIsPruned(log[..|log| - 1], lo, now); }
  }

  /**
   By the answers alone: a check answers that the circuit is open exactly for an unhealthy
   supervised target restarted at least `maxRestarts` times within the last window.
   */
  lemma AnswersSeeRestarts(g: Config, cs: seq<Check>, c: Check)
    requires Orderly(cs) && UpTo(cs, c.t1) && g.window >= 0.0
    ensures Answer(g, Run(g, cs), c) == CircuitOpen <==>
      && c.name in g.targets && !g.targets[c.name] && Unhealthy(c.probe)
      && CountIn(Restarts(cs, Answers(g, cs), c.name), c.t1 - g.window, c.t1) >= g.maxRestarts
  {
    OpenMeans(g, Run(g, cs), c);
    BreakerCounts(g, cs, c);
  }

  /** What one more check answers and leaves, as long as the clock is orderly. */
  lemma CheckLaw(g: Config, cs: seq<Check>, c: Check, all: seq<Check>)
    requires all == cs + [c]
    ensures Orderly(all) && g.window >= 0.0 ==>
      (Answer(g, Run(g, cs), c) == CircuitOpen <==>
        && c.name in g.targets && !g.targets[c.name] && Unhealthy(c.probe)
        && CountIn(Restarts(cs, Answers(g, cs), c.name), c.t1 - g.window, c.t1) >= g.maxRestarts)
    ensures Orderly(all) && g.window >= 0.0 ==> Bounded(g, all, Answers(g, all))
  {
    if Orderly(all) && g.window >= 0.0 {
      assert all[..|all| - 1] == cs;
      OrderlyPrefix(all);
      AnswersSeeRestarts(g, cs, c);
      RunIsBounded(g, all);
    }
  }

  lemma OpenMeans(g: Config, logs: Logs, c: Check)
    ensures Answer(g, logs, c) == CircuitOpen <==>
      c.name in g.targets && !g.targets[c.name] && Unhealthy(c.probe) && BreakerOpen(g, logs, c)
  {}

  lemma BreakerCounts(g: Config, cs: seq<Check>, c: Check)
    requires Orderly(cs) && UpTo(cs, c.t1) && g.window >= 0.0
    ensures BreakerOpen(g, Run(g, cs), c) <==>
      CountIn(Restarts(cs, Answers(g, cs), c.name), c.t1 - g.window, c.t1) >= g.maxRestarts
  {
    var cutoff := LogIsPrunedHistory(g, cs, c.name, c.t1);
    RestartsAreHistory(g, cs, c.name);
    HistoryUpTo(g, cs, c.name, c.t1);
    BreakerOnLog(g, Run(g, cs), c, Restarts(cs, Answers(g, cs), c.name), cutoff);
  }

  lemma BreakerOnLog(g: Config, logs: Logs, c: Check, h: seq<real>, cutoff: real)
    requires LogOf(logs, c.name) == Prune(h, cutoff) && cutoff <= c.t1 - g.window
    requires forall i :: 0 <= i < |h| ==> h[i] <= c.t1
    ensures BreakerOpen(g, logs, c) <==> CountIn(h, c.t1 - g.window, c.t1) >= g.maxRestarts
  {
    OpenByHistory(g, logs, c, h, cutoff);
    CountInIsPruned(h, c.t1 - g.window, c.t1);
  }

  lemma RunIsBounded(g: Config, cs: seq<Check>)
    requires Orderly(cs) && g.window >= 0.0
    ensures Bounded(g, cs, Answers(g, cs))
  {
    forall name, lo, hi | hi == lo + g.window
      ensures CountIn(Restarts(cs, Answers(g, cs), name), lo, hi) <= if g.maxRestarts > 0 then g.maxRestarts else 0
    {
      SlidingWindowBound(g, cs, name, lo);
    }
  }

  /**
   For every run and every target, any closed time window of the configured length holds at
   most `maxRestarts` checks that answered with a restart (none when that is not positive).
   */
  lemma SlidingWindowBound(g: Config, cs: seq<Check>, name: string, lo: real)
    requires Orderly(cs) && g.window >= 0.0
    ensures CountIn(Restarts(cs, Answers(g, cs), name), lo, lo + g.window)
      <= if g.maxRestarts > 0 then g.maxRestarts else 0
  {
    RestartsAreHistory(g, cs, name);
    HistoryBound(g, cs, name, lo);
  }

  lemma {:induction false} HistoryBound(g: Config, cs: seq<Check>, name: string, lo: real)
    requires Orderly(cs) && g.window >= 0.0
    ensures CountIn(History(g, cs, name), lo, lo + g.window) <= if g.maxRestarts > 0 then g.maxRestarts else 0
  {
    if cs != [] {
      var n := |cs| - 1;
      var c, init := cs[n], cs[..n];
      HistoryBound(g, init, name, lo);
      HistoryStep(g, cs, name);
      if c.name == name && Records(g, Run(g, init), c) {
        CountInSnoc(History(g, init, name), c.t2, lo, lo + g.window);
        BreakerSeesHistory(g, init, c);
        if lo <= c.t2 <= lo + g.window { PruneCovers(g, init, name, c, lo); }
      }
    }
  }

  /** What precedes a recorded restart within a window that contains it is what the breaker counted. */
  lemma PruneCovers(g: Config, cs: seq<Check>, name: string, c: Check, lo: real)
    requires g.window >= 0.0 && c.t1 <= c.t2 <= lo + g.window
    ensures CountIn(History(g, cs, name), lo, lo + g.window) <= |Prune(History(g, cs, name), c.t1 - g.window)|
  {
    CountInAtMostPruned(History(g, cs, name), lo, lo + g.window, c.t1 - g.window);
  }
}
