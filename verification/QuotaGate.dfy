/**
 `quota_remaining`: bundle ceiling minus recorded usage, behind a cache that `record_usage`
 drops.  Calls run one at a time; the two clocks and database failures are parameters.
 */
module QuotaGate {
  import opened Wrappers
  import opened QuotaLedger
  import opened QuotaRuns

  /** The feature rows of the active bundle: each flag's quota, None for unlimited. */
  type Bundle = seq<(string, Option<int>)>

  /** `_quota_for_flag`: no valid bundle, or a flag it does not list, means no quota. */
  function Ceiling(bundle: Option<Bundle>, flag: string): Option<int> {
    match bundle
    case None => Some(0)
    case Some(rows) => CeilingIn(rows, flag)
  }

  function CeilingIn(rows: Bundle, flag: string): Option<int> {
    if rows == [] then Some(0)
    else if rows[0].0 == flag then rows[0].1
    else CeilingIn(rows[1..], flag)
  }

  /** No ceiling leaves no number; a ceiling leaves what usage has not eaten, and never less than nothing. */
  ghost predicate LeftOver(left: Option<int>, ceiling: Option<int>, used: int) {
    match ceiling
    case None => left.None?
    case Some(c) =>
      left.Some? && left.value >= 0 && (used <= c ==> left.value == c - used) && (used >= c ==> left.value <= 0)
  }

  /** The first row of the active bundle that names the flag gives the ceiling; without one it is zero. */
  ghost predicate CeilingIs(bundle: Option<Bundle>, flag: string, ceiling: Option<int>) {
    if bundle.None? || forall i :: 0 <= i < |bundle.value| ==> bundle.value[i].0 != flag then ceiling == Some(0)
    else exists i :: FirstRow(bundle.value, flag, i) && ceiling == bundle.value[i].1
  }

  ghost predicate FirstRow(rows: Bundle, flag: string, i: int) {
    0 <= i < |rows| && rows[i].0 == flag && forall j :: 0 <= j < i ==> rows[j].0 != flag
  }

  lemma {:induction false} CeilingIsFirst(rows: Bundle, flag: string)
    ensures CeilingIs(Some(rows), flag, CeilingIn(rows, flag))
  {
    if rows != [] && rows[0].0 == flag {
      assert FirstRow(rows, flag, 0);
    } else if rows != [] {
      CeilingIsFirst(rows[1..], flag);
      if i :| FirstRow(rows[1..], flag, i) && CeilingIn(rows, flag) == rows[1..][i].1 {
        forall j | 0 < j < i + 1 ensures rows[j].0 != flag { assert rows[j] == rows[1..][j - 1]; }
        assert FirstRow(rows, flag, i + 1);
      } else {
        forall j | 0 < j < |rows| ensures rows[j].0 != flag { assert rows[j] == rows[1..][j - 1]; }
      }
    }
  }

  /** What was true when a cache entry was filled. */
  datatype Fill = Fill(clock: int, at: Instant, ceiling: Option<int>, used: int)

  datatype Answer = UnknownFlag | Units(remaining: Option<int>)

  class License {
    const knownFlags: set<string>
    const ttl: int
    const pool: bool
    var rows: seq<Row>
    var bundle: Option<Bundle>
    var cache: map<string, (int, Option<int>)>
    ghost var fills: map<string, Fill>
    ghost var history: seq<Usage>

    function Used(flag: string, at: Instant): int
      reads this
    {
      if pool then UsedAt(rows, flag, at) else 0
    }

    /** What the calls so far recorded for periods that cover the instant; for default periods, for its month. */
    ghost function TotalAt(flag: string, at: Instant): int
      reads this
    {
      if pool then Increments(history, flag, at) else 0
    }

    /**
     The table is what the calls made of it.  Every entry is max(0, ceiling - usage) as of its
     fill, and the usage has not moved since:
     it is still what the ledger says today about the instant of the fill.
     */
    ghost predicate Valid()
      reads this
    {
      && rows == Run(history)
      && cache.Keys == fills.Keys
      && forall f :: f in cache ==>
        && cache[f].0 == fills[f].clock && LeftOver(cache[f].1, fills[f].ceiling, fills[f].used)
        && (fills[f].ceiling.Some? ==> fills[f].used == Used(f, fills[f].at))
    }

    constructor (knownFlags: set<string>, ttl: int, pool: bool)
      ensures Valid() && rows == [] && history == [] && bundle == None && cache == map[]
      ensures this.knownFlags == knownFlags && this.ttl == ttl && this.pool == pool
    {
      this.knownFlags, this.ttl, this.pool := knownFlags, ttl, pool;
      rows, bundle, cache, fills, history := [], None, map[], map[], [];
    }

    /** A new bundle takes effect without touching the cache. */
    method InstallBundle(b: Option<Bundle>)
      requires Valid()
      modifies this`bundle
      ensures Valid() && bundle == b
    {
      bundle := b;
    }

    method InvalidateCache()
      requires Valid()
      modifies this`cache, this`fills
      ensures Valid() && cache == map[]
    {
      cache, fills := map[], map[];
    }

    method RecordUsage(flag: string, increment: int, start: Option<Instant>, end: Option<Instant>, now: Instant)
      returns (r: Recorded)
      requires Valid()
      modifies this`rows, this`cache, this`fills, this`history
      ensures Valid() && history == old(history) + [Usage(flag, increment, start, end, now)]
      ensures (rows, r) == Record(old(rows), flag, increment, start, end, now)
      ensures if r.Refused? then cache == old(cache) && fills == old(fills) else cache == map[]
    {
      history := history + [Usage(flag, increment, start, end, now)];
      assert history[..|history| - 1] == old(history);
      if increment < 0 { return Refused(NegativeIncrement); }
      var (s, e) := PeriodOf(start, end, now);
      if AtOrBefore(e, s) { return Refused(EmptyPeriod); }
      var found := Find(rows, flag, s, e);
      if found.Some? {
        var used := rows[found.value].used + increment;
        var anchor := Sha(AnchorOf(rows[found.value]), flag, s, e, used);
        rows := rows[found.value := Row(flag, s, e, used, Some(anchor))];
        r := Recorded(used, anchor, false);
      } else {
        var latest := Latest(rows, flag, s);
        var prev := if latest.Some? then AnchorOf(latest.value) else Genesis;
        var anchor := Sha(prev, flag, s, e, increment);
        rows := rows + [Row(flag, s, e, increment, Some(anchor))];
        r := Recorded(increment, anchor, true);
      }
      cache, fills := map[], map[];
    }

    /**
     A hit answers max(0, ceiling - usage) as of a fill less than the TTL ago, with the usage
     of that instant as the ledger still has it: nothing was recorded in between.  A miss
     answers from the present bundle and ledger, and a failed read answers zero.  What the
     ledger has is the sum of what was recorded: of that month, where periods were defaults.
     */
    method QuotaRemaining(flag: string, clock: int, now: Instant, readFails: bool) returns (r: Answer)
      requires Valid()
      modifies this`cache, this`fills
      ensures Valid()
      ensures r.UnknownFlag? <==> flag !in knownFlags
      ensures flag in knownFlags ==>
        var hit := flag in old(cache) && clock - old(cache)[flag].0 < ttl;
        if hit then
          && cache == old(cache) && fills == old(fills)
          && clock - fills[flag].clock < ttl
          && r.Units? && LeftOver(r.remaining, fills[flag].ceiling, TotalAt(flag, fills[flag].at))
        else
          exists ceiling :: CeilingIs(bundle, flag, ceiling) &&
            if ceiling.Some? && pool && readFails then
              r == Units(Some(0)) && cache == old(cache) && fills == old(fills)
            else
              && r.Units? && LeftOver(r.remaining, ceiling, TotalAt(flag, now))
              && cache == old(cache)[flag := (clock, r.remaining)]
              && fills == old(fills)[flag := Fill(clock, now, ceiling, TotalAt(flag, now))]
      ensures pool && DefaultCalls(history) && ValidInstant(now) ==>
        TotalAt(flag, now) == MonthIncrements(history, flag, now)
    {
      if DefaultCalls(history) && ValidInstant(now) { IncrementsAreMonthly(history, flag, now); }
      if flag !in knownFlags { return UnknownFlag; }
      if flag in cache && clock - cache[flag].0 < ttl {
        UsageConserved(history, flag, fills[flag].at);
        return Units(cache[flag].1);
      }
      var remaining, ceiling := ReadFresh(flag, clock, now, readFails);
      return Units(remaining);
    }

    /** The read behind a cache miss. */
    method ReadFresh(flag: string, clock: int, now: Instant, readFails: bool)
      returns (remaining: Option<int>, ghost ceiling: Option<int>)
      requires Valid()
      modifies this`cache, this`fills
      ensures Valid() && CeilingIs(bundle, flag, ceiling)
      ensures ceiling.Some? && pool && readFails ==> remaining == Some(0) && cache == old(cache) && fills == old(fills)
      ensures !(ceiling.Some? && pool && readFails) ==>
        && LeftOver(remaining, ceiling, TotalAt(flag, now))
        && cache == old(cache)[flag := (clock, remaining)]
        && fills == old(fills)[flag := Fill(clock, now, ceiling, TotalAt(flag, now))]
    {
      UsageConserved(history, flag, now);
      var quota := Ceiling(bundle, flag);
      ceiling := quota;
      if bundle.Some? { CeilingIsFirst(bundle.value, flag); }
      if quota.None? {
        cache := cache[flag := (clock, None)];
        fills := fills[flag := Fill(clock, now, None, Used(flag, now))];
        return None, quota;
      }
      if pool && readFails { return Some(0), quota; }
      var used := Used(flag, now);
      remaining := Some(if quota.value - used > 0 then quota.value - used else 0);
      cache := cache[flag := (clock, remaining)];
      fills := fills[flag := Fill(clock, now, quota, used)];
    }
  }
}
