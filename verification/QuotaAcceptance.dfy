/**
 When the replay accepts a flag, for any calls of `record_usage`: explicit, overlapping and
 back-filled periods included, in any clock order.
 */
module QuotaAcceptance {
  import opened Wrappers
  import opened QuotaLedger
  import opened QuotaRuns

  /** How many of the calls record this very period. */
  function Recordings(es: seq<Usage>, start: Instant, end: Instant): nat {
    if es == [] then 0
    else Recordings(es[..|es| - 1], start, end) + (if Period(es[|es| - 1]) == (start, end) then 1 else 0)
  }

  /** The row the period was chained to when it was first recorded, if there was any. */
  function ChainedTo(es: seq<Usage>, flag: string, start: Instant, end: Instant): Option<Row> {
    if es == [] then None
    else
      var init := es[..|es| - 1];
      if Recordings(init, start, end) > 0 then ChainedTo(init, flag, start, end) else Latest(Run(init), flag, start)
  }

  /** Row i was recorded once, and `Latest` was then the row before it. */
  ghost predicate RecordedInPlace(calls: seq<Usage>, flag: string, rows: seq<Row>, i: nat)
    requires i < |rows|
  {
    && Recordings(calls, rows[i].start, rows[i].end) == 1
    && ChainedTo(calls, flag, rows[i].start, rows[i].end) == if i == 0 then None else Some(rows[i - 1])
  }

  // ---------- what the rows tell about the calls ----------

  /** The row carries the digest of its own contents. */
  predicate Signed(row: Row, flag: string) {
    && row.flag == flag && row.anchor.Some? && row.anchor.value.Sha?
    && row.anchor.value == Sha(row.anchor.value.prev, flag, row.start, row.end, row.used)
  }

  predicate SamePeriod(x: Row, y: Row) { x.start == y.start && x.end == y.end }

  ghost predicate DistinctPeriods(rows: seq<Row>) {
    forall i, j :: 0 <= i < j < |rows| ==> !SamePeriod(rows[i], rows[j])
  }

  function AnchorOfSome(row: Option<Row>): Digest {
    match row
    case None => Genesis
    case Some(r) => AnchorOf(r)
  }

  /** Recorded once, the row chains from what `Latest` was; more often, from an earlier digest of its own period. */
  ghost predicate Tells(row: Row, calls: seq<Usage>, flag: string) {
    && Signed(row, flag)
    && Recordings(calls, row.start, row.end) >= 1
    && var prev := row.anchor.value.prev;
      if Recordings(calls, row.start, row.end) == 1 then
        var chained := ChainedTo(calls, flag, row.start, row.end);
        prev == AnchorOfSome(chained) && (chained.Some? ==> Signed(chained.value, flag))
      else prev.Sha? && prev.start == row.start && prev.end == row.end
  }

  ghost predicate AllTell(rows: seq<Row>, calls: seq<Usage>, flag: string) {
    && DistinctPeriods(rows)
    && (forall i :: 0 <= i < |rows| ==> Tells(rows[i], calls, flag))
    && (forall e :: e in calls ==> HasPeriod(rows, Period(e)))
  }

  ghost predicate HasPeriod(rows: seq<Row>, p: (Instant, Instant)) {
    exists i :: 0 <= i < |rows| && (rows[i].start, rows[i].end) == p
  }

  /** Calls for one flag, none refused. */
  ghost predicate OneFlag(calls: seq<Usage>, flag: string) {
    forall i :: 0 <= i < |calls| ==> calls[i].flag == flag && Counts(calls[i])
  }

  lemma CallsSnoc(es: seq<Usage>, e: Usage, flag: string, start: Instant, end: Instant)
    ensures Recordings(es + [e], start, end) ==
      Recordings(es, start, end) + (if Period(e) == (start, end) then 1 else 0)
    ensures ChainedTo(es + [e], flag, start, end) ==
      if Recordings(es, start, end) > 0 then ChainedTo(es, flag, start, end) else Latest(Run(es), flag, start)
  {
    assert (es + [e])[..|es|] == es;
  }

  lemma {:induction false} NeverRecorded(es: seq<Usage>, start: Instant, end: Instant)
    requires forall e :: e in es ==> Period(e) != (start, end)
    ensures Recordings(es, start, end) == 0
  {
    if es != [] { NeverRecorded(es[..|es| - 1], start, end); }
  }

  /** A row of another period tells the same after one more call. */
  lemma TellsOn(row: Row, es: seq<Usage>, e: Usage, flag: string)
    requires Tells(row, es, flag) && Period(e) != (row.start, row.end)
    ensures Tells(row, es + [e], flag)
  {
    CallsSnoc(es, e, flag, row.start, row.end);
  }

  lemma AgainTells(rows: seq<Row>, i: nat, es: seq<Usage>, e: Usage, flag: string)
    requires i < |rows| && Tells(rows[i], es, flag) && e.flag == flag && Period(e) == (rows[i].start, rows[i].end)
    ensures var row, used := rows[i], rows[i].used + e.increment;
      var anchor := Sha(AnchorOf(row), flag, row.start, row.end, used);
      Tells(Row(flag, row.start, row.end, used, Some(anchor)), es + [e], flag)
  {
    CallsSnoc(es, e, flag, rows[i].start, rows[i].end);
  }

  lemma FirstTells(es: seq<Usage>, e: Usage, flag: string)
    requires AllTell(Run(es), es, flag) && !HasPeriod(Run(es), Period(e))
    ensures var (s, x) := Period(e);
      var prev := AnchorOfSome(Latest(Run(es), flag, s));
      Tells(Row(flag, s, x, e.increment, Some(Sha(prev, flag, s, x, e.increment))), es + [e], flag)
  {
    var (s, x) := Period(e);
    NeverRecorded(es, s, x);
    CallsSnoc(es, e, flag, s, x);
    if Latest(Run(es), flag, s).Some? { LatestMember(Run(es), flag, s); }
  }

  lemma AllTellStep(es: seq<Usage>, e: Usage, flag: string)
    requires AllTell(Run(es), es, flag) && e.flag == flag && Counts(e)
    ensures AllTell(Step(Run(es), e), es + [e], flag)
  {
    var rows := Run(es);
    var (s, x) := Period(e);
    var f := Find(rows, flag, s, x);
    var rows' := Step(rows, e);
    if f.Some? {
      AgainTells(rows, f.value, es, e, flag);
      assert rows' == rows[f.value := rows'[f.value]];
    } else {
      forall i | 0 <= i < |rows| ensures (rows[i].start, rows[i].end) != (s, x) {
        assert Tells(rows[i], es, flag);
      }
      FirstTells(es, e, flag);
      assert rows' == rows + [rows'[|rows|]];
    }
    forall i | 0 <= i < |rows'| ensures Tells(rows'[i], es + [e], flag) {
      if i < |rows| && (rows[i].start, rows[i].end) != (s, x) { TellsOn(rows[i], es, e, flag); }
    }
    forall d | d in es + [e] ensures HasPeriod(rows', Period(d)) {
      PeriodStays(rows, rows', es, e, d, if f.Some? then f.value else |rows|);
    }
  }

  lemma PeriodStays(rows: seq<Row>, rows': seq<Row>, es: seq<Usage>, e: Usage, d: Usage, k: nat)
    requires d in es + [e] && (d in es ==> HasPeriod(rows, Period(d)))
    requires |rows| <= |rows'| && forall i :: 0 <= i < |rows| ==> SamePeriod(rows[i], rows'[i])
    requires k < |rows'| && (rows'[k].start, rows'[k].end) == Period(e)
    ensures HasPeriod(rows', Period(d))
  {
    if d in es {
      var i :| 0 <= i < |rows| && (rows[i].start, rows[i].end) == Period(d);
      assert SamePeriod(rows[i], rows'[i]);
    } else {
      assert d == e;
    }
  }

  lemma {:induction false} RunTells(calls: seq<Usage>, flag: string)
    requires OneFlag(calls, flag)
    ensures AllTell(Run(calls), calls, flag)
  {
    if calls != [] {
      var n := |calls| - 1;
      RunTells(calls[..n], flag);
      AllTellStep(calls[..n], calls[n], flag);
      assert calls == calls[..n] + [calls[n]];
    }
  }

  // ---------- in start order ----------

  lemma {:induction false} InsertTells(row: Row, rows: seq<Row>, calls: seq<Usage>, flag: string)
    requires DistinctPeriods(rows)
    requires forall i :: 0 <= i < |rows| ==> Tells(rows[i], calls, flag) && !SamePeriod(row, rows[i])
    requires Tells(row, calls, flag)
    ensures var r := InsertByStart(row, rows);
      && DistinctPeriods(r) && (forall i :: 0 <= i < |r| ==> Tells(r[i], calls, flag))
      && (forall i :: 0 <= i < |r| ==> r[i] == row || r[i] in rows)
  {
    if rows != [] && !AtOrBefore(row.start, rows[0].start) {
      InsertTells(row, rows[1..], calls, flag);
    }
  }

  lemma {:induction false} ByStartTells(rows: seq<Row>, calls: seq<Usage>, flag: string)
    requires DistinctPeriods(rows) && forall i :: 0 <= i < |rows| ==> Tells(rows[i], calls, flag)
    ensures var r := ByStart(rows);
      && DistinctPeriods(r) && (forall i :: 0 <= i < |r| ==> Tells(r[i], calls, flag))
      && (forall i :: 0 <= i < |r| ==> r[i] in rows)
  {
    if rows != [] {
      ByStartTells(rows[1..], calls, flag);
      InsertTells(rows[0], ByStart(rows[1..]), calls, flag);
    }
  }

  lemma {:induction false} ForFlagIsOneFlag(es: seq<Usage>, flag: string)
    ensures OneFlag(ForFlag(es, flag), flag)
  {
    if es != [] { ForFlagIsOneFlag(es[..|es| - 1], flag); }
  }

  // ---------- acceptance ----------

  /** Behind verified rows, the next one verifies exactly when it was recorded in place. */
  lemma VerifiesIffInPlace(rows: seq<Row>, calls: seq<Usage>, flag: string, i: nat)
    requires DistinctPeriods(rows) && forall k :: 0 <= k < |rows| ==> Tells(rows[k], calls, flag)
    requires i < |rows| && VerifiesUpTo(rows, i)
    ensures RowVerifies(rows, i) <==> RecordedInPlace(calls, flag, rows, i)
  {
    assert Tells(rows[i], calls, flag);
    var prev := rows[i].anchor.value.prev;
    assert RowVerifies(rows, i) <==> prev == Expected(rows, i);
    if i > 0 {
      assert Tells(rows[i - 1], calls, flag) && RowVerifies(rows, i - 1);
      assert Expected(rows, i) == rows[i - 1].anchor.value;
      assert !SamePeriod(rows[i - 1], rows[i]);
    }
    var chained := ChainedTo(calls, flag, rows[i].start, rows[i].end);
    if chained.Some? && Signed(chained.value, flag) && i > 0 {
      SameAnchorSameRow(chained.value, rows[i - 1], flag);
    }
  }

  lemma SameAnchorSameRow(x: Row, y: Row, flag: string)
    requires Signed(x, flag) && Signed(y, flag)
    ensures AnchorOf(x) == AnchorOf(y) <==> x == y
  {}

  /**
   For every sequence of calls, whatever periods they name: the replay accepts a flag exactly
   when each of its rows, in start order, was recorded once and chained to the row before it;
   otherwise it stops at the first row that was not.
   */
  lemma AcceptanceIff(es: seq<Usage>, flag: string, bad: nat)
    ensures var rows, calls := Fetched(Run(es), flag), ForFlag(es, flag);
      && (Accepted(rows) <==> forall i :: 0 <= i < |rows| ==> RecordedInPlace(calls, flag, rows, i))
      && (FirstBad(rows, bad) <==>
            && bad < |rows| && !RecordedInPlace(calls, flag, rows, bad)
            && forall i :: 0 <= i < bad ==> RecordedInPlace(calls, flag, rows, i))
  {
    var rows, calls := Fetched(Run(es), flag), ForFlag(es, flag);
    FlagsAreIndependent(es, flag);
    ForFlagIsOneFlag(es, flag);
    RunTells(calls, flag);
    ByStartTells(Run(calls), calls, flag);
    InPlaceUpTo(rows, calls, flag, |rows|);
    if bad < |rows| {
      InPlaceUpTo(rows, calls, flag, bad);
      if VerifiesUpTo(rows, bad) { VerifiesIffInPlace(rows, calls, flag, bad); }
    }
  }

  lemma {:induction false} InPlaceUpTo(rows: seq<Row>, calls: seq<Usage>, flag: string, n: nat)
    requires DistinctPeriods(rows) && forall k :: 0 <= k < |rows| ==> Tells(rows[k], calls, flag)
    requires n <= |rows|
    ensures VerifiesUpTo(rows, n) <==> forall i :: 0 <= i < n ==> RecordedInPlace(calls, flag, rows, i)
  {
    if n > 0 {
      InPlaceUpTo(rows, calls, flag, n - 1);
      assert VerifiesUpTo(rows, n) <==> VerifiesUpTo(rows, n - 1) && RowVerifies(rows, n - 1);
      if VerifiesUpTo(rows, n - 1) { VerifiesIffInPlace(rows, calls, flag, n - 1); }
    }
  }
}
