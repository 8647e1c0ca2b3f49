/** Whole runs of `record_usage`: when the replay accepts, and what the usage read adds up to. */
module QuotaRuns {
  import opened Wrappers
  import opened QuotaLedger

  /** One call of `record_usage`. */
  datatype Usage = Usage(flag: string, increment: int, start: Option<Instant>, end: Option<Instant>, now: Instant)

  function Period(e: Usage): (Instant, Instant) { PeriodOf(e.start, e.end, e.now) }

  /** The call is not refused. */
  predicate Counts(e: Usage) { e.increment >= 0 && !AtOrBefore(Period(e).1, Period(e).0) }

  function Step(rows: seq<Row>, e: Usage): seq<Row> {
    Record(rows, e.flag, e.increment, e.start, e.end, e.now).0
  }

  /** The table after the calls, from an empty one. */
  function Run(es: seq<Usage>): seq<Row> {
    if es == [] then [] else Step(Run(es[..|es| - 1]), es[|es| - 1])
  }

  // ---------- conservation ----------

  /** `SUM(used_value)` over the flag's rows whose period covers t. */
  function UsedAt(rows: seq<Row>, flag: string, t: Instant): int {
    if rows == [] then 0
    else
      var row := rows[0];
      (if row.flag == flag && Covers((row.start, row.end), t) then row.used else 0) + UsedAt(rows[1..], flag, t)
  }

  lemma {:induction false} UsedAtAppend(xs: seq<Row>, ys: seq<Row>, flag: string, t: Instant)
    ensures UsedAt(xs + ys, flag, t) == UsedAt(xs, flag, t) + UsedAt(ys, flag, t)
  {
    if xs == [] {
      assert xs + ys == ys;
    } else {
      assert (xs + ys)[1..] == xs[1..] + ys;
      UsedAtAppend(xs[1..], ys, flag, t);
    }
  }

  lemma UsedAtUpdate(rows: seq<Row>, i: nat, row: Row, flag: string, t: Instant)
    requires i < |rows| && IsRow(row, rows[i].flag, rows[i].start, rows[i].end)
    ensures UsedAt(rows[i := row], flag, t) == UsedAt(rows, flag, t)
      + (if row.flag == flag && Covers((row.start, row.end), t) then row.used - rows[i].used else 0)
  {
    var a, b := rows[..i], rows[i + 1..];
    assert rows == a + ([rows[i]] + b) && rows[i := row] == a + ([row] + b);
    UsedAtAppend(a, [rows[i]] + b, flag, t);
    UsedAtAppend(a, [row] + b, flag, t);
  }

  /** The increments of the calls for the flag whose period covers t. */
  function Increments(es: seq<Usage>, flag: string, t: Instant): int {
    if es == [] then 0
    else
      var e := es[|es| - 1];
      Increments(es[..|es| - 1], flag, t)
      + (if Counts(e) && e.flag == flag && Covers(Period(e), t) then e.increment else 0)
  }

  /** The usage read for any instant is the sum of the increments recorded for periods that cover it. */
  lemma {:induction false} UsageConserved(es: seq<Usage>, flag: string, t: Instant)
    ensures UsedAt(Run(es), flag, t) == Increments(es, flag, t)
  {
    if es != [] {
      var n := |es| - 1;
      UsageConserved(es[..n], flag, t);
      StepConserves(Run(es[..n]), es[n], flag, t);
    }
  }

  lemma StepConserves(rows: seq<Row>, e: Usage, flag: string, t: Instant)
    ensures UsedAt(Step(rows, e), flag, t) == UsedAt(rows, flag, t)
      + (if Counts(e) && e.flag == flag && Covers(Period(e), t) then e.increment else 0)
  {
    if Counts(e) {
      var (s, x) := Period(e);
      match Find(rows, e.flag, s, x)
      case Some(i) => UsedAtUpdate(rows, i, Step(rows, e)[i], flag, t);
      case None =>
        var row := Step(rows, e)[|rows|];
        UsedAtAppend(rows, [row], flag, t);
        assert [row][1..] == [];
    }
  }

  /** The increments recorded in the calendar month of t. */
  function MonthIncrements(es: seq<Usage>, flag: string, t: Instant): int {
    if es == [] then 0
    else
      var e := es[|es| - 1];
      MonthIncrements(es[..|es| - 1], flag, t)
      + (if e.increment >= 0 && e.flag == flag && e.now.year == t.year && e.now.month == t.month then e.increment
         else 0)
  }

  ghost predicate DefaultCalls(es: seq<Usage>) {
    forall i :: 0 <= i < |es| ==> es[i].start.None? && es[i].end.None? && ValidInstant(es[i].now)
  }

  /** With default periods: the usage read is the sum of what was recorded that month. */
  lemma {:induction false} MonthlyUsage(es: seq<Usage>, flag: string, t: Instant)
    requires DefaultCalls(es) && ValidInstant(t)
    ensures UsedAt(Run(es), flag, t) == MonthIncrements(es, flag, t)
  {
    UsageConserved(es, flag, t);
    IncrementsAreMonthly(es, flag, t);
  }

  lemma {:induction false} IncrementsAreMonthly(es: seq<Usage>, flag: string, t: Instant)
    requires DefaultCalls(es) && ValidInstant(t)
    ensures Increments(es, flag, t) == MonthIncrements(es, flag, t)
  {
    if es != [] {
      var n := |es| - 1;
      IncrementsAreMonthly(es[..n], flag, t);
      PeriodsTile(t, es[n].now);
      PeriodsTile(es[n].now, es[n].now);
    }
  }

  // ---------- one flag at a time ----------

  lemma {:induction false} OfFlagAppend(xs: seq<Row>, ys: seq<Row>, flag: string)
    ensures OfFlag(xs + ys, flag) == OfFlag(xs, flag) + OfFlag(ys, flag)
  {
    if xs == [] {
      assert xs + ys == ys;
    } else {
      assert (xs + ys)[0] == xs[0] && (xs + ys)[1..] == xs[1..] + ys;
      OfFlagAppend(xs[1..], ys, flag);
    }
  }

  /** The place of row i among the flag's rows. */
  function PlaceInFlag(rows: seq<Row>, i: nat, flag: string): nat
    requires i <= |rows|
  {
    if i == 0 then 0 else (if rows[0].flag == flag then 1 else 0) + PlaceInFlag(rows[1..], i - 1, flag)
  }

  /** A flag's row is found among the flag's rows at the place it has there. */
  lemma {:induction false} FindInFlag(rows: seq<Row>, flag: string, start: Instant, end: Instant)
    ensures var f := Find(rows, flag, start, end);
      Find(OfFlag(rows, flag), flag, start, end) == if f.None? then None else Some(PlaceInFlag(rows, f.value, flag))
  {
    if rows != [] {
      FindInFlag(rows[1..], flag, start, end);
      OfFlagHead(rows, flag);
      if rows[0].flag == flag { FindInCons(rows[0], OfFlag(rows[1..], flag), flag, start, end); }
    }
  }

  lemma OfFlagHead(rows: seq<Row>, flag: string)
    requires rows != []
    ensures rows[0].flag == flag ==> OfFlag(rows, flag) == [rows[0]] + OfFlag(rows[1..], flag)
    ensures rows[0].flag != flag ==> OfFlag(rows, flag) == OfFlag(rows[1..], flag)
  {}

  lemma FindInCons(row: Row, rest: seq<Row>, flag: string, start: Instant, end: Instant)
    ensures var f := Find(rest, flag, start, end);
      Find([row] + rest, flag, start, end) ==
      if IsRow(row, flag, start, end) then Some(0) else if f.None? then None else Some(f.value + 1)
  {
    assert ([row] + rest)[1..] == rest;
  }

  lemma {:induction false} PlaceIsCount(rows: seq<Row>, i: nat, flag: string)
    requires i <= |rows|
    ensures PlaceInFlag(rows, i, flag) == |OfFlag(rows[..i], flag)|
  {
    if i > 0 {
      OfFlagHead(rows[..i], flag);
      assert rows[..i][1..] == rows[1..][..i - 1];
      PlaceIsCount(rows[1..], i - 1, flag);
    }
  }

  /** Replacing a flag's row is replacing it among the flag's rows. */
  lemma UpdateInFlag(rows: seq<Row>, i: nat, row: Row, flag: string)
    requires i < |rows| && rows[i].flag == flag && row.flag == flag
    ensures var g := PlaceInFlag(rows, i, flag);
      && g < |OfFlag(rows, flag)| && OfFlag(rows, flag)[g] == rows[i]
      && OfFlag(rows[i := row], flag) == OfFlag(rows, flag)[g := row]
  {
    var a, b := rows[..i], rows[i + 1..];
    PlaceIsCount(rows, i, flag);
    OfFlagMiddle(a, rows[i], b, flag);
    OfFlagMiddle(a, row, b, flag);
    UpdateMiddle(OfFlag(a, flag), rows[i], row, OfFlag(b, flag));
    assert rows == a + ([rows[i]] + b);
    UpdateMiddle(a, rows[i], row, b);
  }

  lemma UpdateMiddle<T>(a: seq<T>, x: T, y: T, b: seq<T>)
    ensures (a + ([x] + b))[|a|] == x && (a + ([x] + b))[|a| := y] == a + ([y] + b)
  {}

  lemma OfFlagMiddle(a: seq<Row>, row: Row, b: seq<Row>, flag: string)
    requires row.flag == flag
    ensures OfFlag(a + ([row] + b), flag) == OfFlag(a, flag) + ([row] + OfFlag(b, flag))
  {
    OfFlagAppend(a, [row] + b, flag);
    OfFlagHead([row] + b, flag);
    assert ([row] + b)[1..] == b;
  }

  lemma {:induction false} OtherFlagUntouched(rows: seq<Row>, i: nat, row: Row, flag: string)
    requires i < |rows| && rows[i].flag != flag && row.flag != flag
    ensures OfFlag(rows[i := row], flag) == OfFlag(rows, flag)
  {
    var a, b := rows[..i], rows[i + 1..];
    assert rows == a + ([rows[i]] + b) && rows[i := row] == a + ([row] + b);
    OfFlagAppend(a, [rows[i]] + b, flag);
    OfFlagAppend(a, [row] + b, flag);
  }

  lemma OfFlagSnoc(init: seq<Row>, row: Row, flag: string)
    ensures row.flag == flag ==> OfFlag(init + [row], flag) == OfFlag(init, flag) + [row]
    ensures row.flag != flag ==> OfFlag(init + [row], flag) == OfFlag(init, flag)
  {
    OfFlagAppend(init, [row], flag);
    assert [row][1..] == [];
    assert OfFlag(init, flag) + [] == OfFlag(init, flag);
  }

  function Later(row: Row, best: Option<Row>, start: Instant): Option<Row> {
    if AtOrBefore(row.end, start) && (best.Some? ==> !Before(row.end, best.value.end)) then Some(row) else best
  }

  lemma LatestSnoc(init: seq<Row>, row: Row, flag: string, start: Instant)
    ensures row.flag != flag ==> Latest(init + [row], flag, start) == Latest(init, flag, start)
    ensures row.flag == flag ==> Latest(init + [row], flag, start) == Later(row, Latest(init, flag, start), start)
  {
    assert (init + [row])[..|init|] == init;
  }

  lemma {:induction false} LatestInFlag(rows: seq<Row>, flag: string, start: Instant)
    ensures Latest(rows, flag, start) == Latest(OfFlag(rows, flag), flag, start)
  {
    if rows != [] {
      var n := |rows| - 1;
      var init, row := rows[..n], rows[n];
      LatestInFlag(init, flag, start);
      LatestOfSnoc(init, row, flag, start);
      assert rows == init + [row];
    }
  }

  lemma LatestOfSnoc(init: seq<Row>, row: Row, flag: string, start: Instant)
    requires Latest(init, flag, start) == Latest(OfFlag(init, flag), flag, start)
    ensures Latest(init + [row], flag, start) == Latest(OfFlag(init + [row], flag), flag, start)
  {
    LatestSnoc(init, row, flag, start);
    OfFlagSnoc(init, row, flag);
    if row.flag == flag { LatestSnoc(OfFlag(init, flag), row, flag, start); }
  }

  lemma StepOnFlag(rows: seq<Row>, e: Usage, flag: string)
    ensures OfFlag(Step(rows, e), flag) == if e.flag == flag then Step(OfFlag(rows, flag), e) else OfFlag(rows, flag)
  {
    if Counts(e) {
      var (s, x) := Period(e);
      var f := Find(rows, e.flag, s, x);
      if f.Some? {
        var row := Step(rows, e)[f.value];
        if e.flag == flag {
          FindInFlag(rows, flag, s, x);
          UpdateInFlag(rows, f.value, row, flag);
        } else {
          OtherFlagUntouched(rows, f.value, row, flag);
        }
      } else {
        var row := Step(rows, e)[|rows|];
        OfFlagAppend(rows, [row], flag);
        assert [row][1..] == [];
        if e.flag == flag {
          FindInFlag(rows, flag, s, x);
          LatestInFlag(rows, flag, s);
        }
      }
    }
  }

  /** The calls for one flag that are not refused. */
  function ForFlag(es: seq<Usage>, flag: string): seq<Usage> {
    if es == [] then []
    else
      var e := es[|es| - 1];
      ForFlag(es[..|es| - 1], flag) + (if e.flag == flag && Counts(e) then [e] else [])
  }

  /** A flag's rows depend on its own calls only. */
  lemma {:induction false} FlagsAreIndependent(es: seq<Usage>, flag: string)
    ensures OfFlag(Run(es), flag) == Run(ForFlag(es, flag))
  {
    if es != [] {
      var n := |es| - 1;
      FlagsAreIndependent(es[..n], flag);
      StepOnFlag(Run(es[..n]), es[n], flag);
      var init := ForFlag(es[..n], flag);
      assert ForFlag(es, flag) == if es[n].flag == flag && Counts(es[n]) then init + [es[n]] else init;
      assert (init + [es[n]])[..|init|] == init;
    }
  }

  // ---------- exact acceptance ----------

  function Depth(d: Digest): nat {
    match d
    case Genesis => 0
    case Sha(prev, _, _, _, _) => 1 + Depth(prev)
  }

  /** How many of the calls record in the month that starts at `start`. */
  function Times(es: seq<Usage>, start: Instant): nat {
    if es == [] then 0
    else Times(es[..|es| - 1], start) + (if DefaultPeriod(es[|es| - 1].now).0 == start then 1 else 0)
  }

  /** Calls for one flag with default periods, in clock order. */
  ghost predicate Orderly(es: seq<Usage>, flag: string) {
    && DefaultCalls(es)
    && (forall i :: 0 <= i < |es| ==> es[i].flag == flag && es[i].increment >= 0)
    && (forall i, j :: 0 <= i < j < |es| ==> AtOrBefore(es[i].now, es[j].now))
  }

  function PrevAnchor(rows: seq<Row>, i: nat): Digest
    requires i <= |rows|
  {
    if i == 0 then Genesis else AnchorOf(rows[i - 1])
  }

  /** Row i is a month recorded `Times` times: once, it chains from the row before; more often, from a later digest. */
  ghost predicate RowRecords(rows: seq<Row>, i: nat, es: seq<Usage>, flag: string)
    requires i < |rows|
  {
    var row := rows[i];
    && row.flag == flag
    && row.anchor.Some? && row.anchor.value.Sha?
    && row.anchor == Some(Sha(row.anchor.value.prev, flag, row.start, row.end, row.used))
    && Times(es, row.start) >= 1
    && (Times(es, row.start) == 1 ==> row.anchor.value.prev == PrevAnchor(rows, i))
    && (Times(es, row.start) > 1 ==> Depth(row.anchor.value.prev) > Depth(PrevAnchor(rows, i)))
  }

  ghost predicate MonthsInOrder(rows: seq<Row>) {
    && (forall i :: 0 <= i < |rows| ==>
          ValidInstant(rows[i].start) && (rows[i].start, rows[i].end) == DefaultPeriod(rows[i].start))
    && (forall i, j :: 0 <= i < j < |rows| ==> AtOrBefore(rows[i].end, rows[j].start))
  }

  ghost predicate Ledger(rows: seq<Row>, es: seq<Usage>, flag: string) {
    && MonthsInOrder(rows)
    && (forall i :: 0 <= i < |rows| ==> RowRecords(rows, i, es, flag))
    && (forall e :: e in es ==> HasMonth(rows, DefaultPeriod(e.now).0))
    && (rows == [] <==> es == [])
    && (es != [] ==> rows[|rows| - 1].start == DefaultPeriod(es[|es| - 1].now).0)
  }

  ghost predicate HasMonth(rows: seq<Row>, start: Instant) {
    exists i :: 0 <= i < |rows| && rows[i].start == start
  }

  lemma LatestIsLast(rows: seq<Row>, flag: string, start: Instant)
    requires MonthsInOrder(rows) && rows != [] && AtOrBefore(rows[|rows| - 1].end, start)
    requires forall i :: 0 <= i < |rows| ==> rows[i].flag == flag
    ensures Latest(rows, flag, start) == Some(rows[|rows| - 1])
  {
    var n := |rows| - 1;
    var best := Latest(rows[..n], flag, start);
    if best.Some? {
      LatestMember(rows[..n], flag, start);
      var i :| 0 <= i < n && rows[i] == best.value;
      assert AtOrBefore(rows[i].end, rows[n].start);
    }
  }

  lemma {:induction false} LatestMember(rows: seq<Row>, flag: string, start: Instant)
    requires Latest(rows, flag, start).Some?
    ensures Latest(rows, flag, start).value in rows
  {
    var n := |rows| - 1;
    if Latest(rows, flag, start) != Some(rows[n]) {
      LatestMember(rows[..n], flag, start);
    }
  }

  /** A month that comes after every row is new; the month of the last row is found there. */
  lemma FindMonth(rows: seq<Row>, flag: string, now: Instant)
    requires MonthsInOrder(rows) && ValidInstant(now) && forall i :: 0 <= i < |rows| ==> rows[i].flag == flag
    requires rows != [] ==>
      rows[|rows| - 1].start == DefaultPeriod(now).0 || AtOrBefore(rows[|rows| - 1].end, DefaultPeriod(now).0)
    ensures var (s, x) := DefaultPeriod(now);
      Find(rows, flag, s, x) == if rows != [] && rows[|rows| - 1].start == s then Some(|rows| - 1) else None
  {
    var (s, x) := DefaultPeriod(now);
    var f := Find(rows, flag, s, x);
    if rows != [] {
      var n := |rows| - 1;
      forall i | 0 <= i < n ensures rows[i].start != s {
        assert AtOrBefore(rows[i].end, rows[n].start);
      }
    }
  }

  lemma {:induction false} TimesZero(es: seq<Usage>, start: Instant)
    requires forall e :: e in es ==> DefaultPeriod(e.now).0 != start
    ensures Times(es, start) == 0
  {
    if es != [] { TimesZero(es[..|es| - 1], start); }
  }

  lemma LedgerSameMonth(rows: seq<Row>, es: seq<Usage>, e: Usage, flag: string)
    requires Ledger(rows, es, flag) && Orderly(es + [e], flag) && rows != []
    requires rows[|rows| - 1].start == DefaultPeriod(e.now).0
    ensures Ledger(Step(rows, e), es + [e], flag)
  {
    var n := |rows| - 1;
    var es' := es + [e];
    assert es'[|es|] == e && es'[..|es|] == es;
    var rows' := Step(rows, e);
    SameMonthRow(rows, es, e, flag);
    assert rows' == rows[n := rows'[n]];
    forall i | 0 <= i < |rows'| ensures RowRecords(rows', i, es', flag) {
      if i < n {
        assert AtOrBefore(rows[i].end, rows[n].start);
        RowKept(rows, rows', es, e, flag, i);
      } else {
        RowAgain(rows, rows', es, e, flag);
      }
    }
    MonthsKept(rows, rows', es, e);
  }

  /** The last row, recorded once more: its digest is one deeper. */
  lemma RowAgain(rows: seq<Row>, rows': seq<Row>, es: seq<Usage>, e: Usage, flag: string)
    requires rows != [] && |rows'| == |rows| && RowRecords(rows, |rows| - 1, es, flag)
    requires var n := |rows| - 1;
      var row, used := rows[n], rows[n].used + e.increment;
      && rows' == rows[n := Row(flag, row.start, row.end, used,
        Some(Sha(row.anchor.value, flag, row.start, row.end, used)))]
      && row.start == DefaultPeriod(e.now).0
    ensures RowRecords(rows', |rows| - 1, es + [e], flag)
  {
    var n := |rows| - 1;
    assert (es + [e])[|es|] == e && (es + [e])[..|es|] == es;
    assert PrevAnchor(rows', n) == PrevAnchor(rows, n);
  }

  /** A second call in the month of the last row replaces that row; its digest chains from the old one. */
  lemma SameMonthRow(rows: seq<Row>, es: seq<Usage>, e: Usage, flag: string)
    requires Ledger(rows, es, flag) && Orderly(es + [e], flag) && rows != []
    requires rows[|rows| - 1].start == DefaultPeriod(e.now).0
    ensures var n := |rows| - 1;
      var row := rows[n];
      var used := row.used + e.increment;
      && row.anchor.Some?
      && Step(rows, e) == rows[n := Row(flag, row.start, row.end, used,
        Some(Sha(row.anchor.value, flag, row.start, row.end, used)))]
  {
    assert (es + [e])[|es|] == e;
    forall i | 0 <= i < |rows| ensures rows[i].flag == flag { assert RowRecords(rows, i, es, flag); }
    assert RowRecords(rows, |rows| - 1, es, flag);
    FindMonth(rows, flag, e.now);
    PeriodsTile(e.now, e.now);
  }

  lemma MonthsKept(rows: seq<Row>, rows': seq<Row>, es: seq<Usage>, e: Usage)
    requires |rows| <= |rows'| && forall i :: 0 <= i < |rows| ==> rows'[i].start == rows[i].start
    requires forall x :: x in es ==> HasMonth(rows, DefaultPeriod(x.now).0)
    requires rows' != [] && rows'[|rows'| - 1].start == DefaultPeriod(e.now).0
    ensures forall x :: x in es + [e] ==> HasMonth(rows', DefaultPeriod(x.now).0)
  {
    forall x | x in es + [e] ensures HasMonth(rows', DefaultPeriod(x.now).0) {
      if x in es {
        var i :| 0 <= i < |rows| && rows[i].start == DefaultPeriod(x.now).0;
        assert rows'[i].start == DefaultPeriod(x.now).0;
      } else {
        assert x == e;
      }
    }
  }

  /** A month after every row is new to the rows and to the calls. */
  lemma MonthIsNew(rows: seq<Row>, es: seq<Usage>, e: Usage, flag: string)
    requires Ledger(rows, es, flag) && ValidInstant(e.now)
    requires rows != [] ==> AtOrBefore(rows[|rows| - 1].end, DefaultPeriod(e.now).0)
    ensures var s := DefaultPeriod(e.now).0;
      && (forall i :: 0 <= i < |rows| ==> rows[i].start != s && AtOrBefore(rows[i].end, s))
      && Times(es, s) == 0
  {
    var s := DefaultPeriod(e.now).0;
    forall i | 0 <= i < |rows| ensures rows[i].start != s && AtOrBefore(rows[i].end, s) {
      if i < |rows| - 1 { assert AtOrBefore(rows[i].end, rows[|rows| - 1].start); }
    }
    forall d | d in es ensures DefaultPeriod(d.now).0 != s {
      assert HasMonth(rows, DefaultPeriod(d.now).0);
    }
    TimesZero(es, s);
  }

  /** The row such a month gets chains from the last one. */
  lemma NewMonthRow(rows: seq<Row>, es: seq<Usage>, e: Usage, flag: string)
    requires Ledger(rows, es, flag) && ValidInstant(e.now) && e.start.None? && e.end.None?
    requires e.flag == flag && Counts(e)
    requires rows != [] ==> AtOrBefore(rows[|rows| - 1].end, DefaultPeriod(e.now).0)
    ensures var (s, x) := DefaultPeriod(e.now);
      var used := e.increment;
      Step(rows, e) == rows + [Row(flag, s, x, used, Some(Sha(PrevAnchor(rows, |rows|), flag, s, x, used)))]
  {
    forall i | 0 <= i < |rows| ensures rows[i].flag == flag { assert RowRecords(rows, i, es, flag); }
    MonthIsNew(rows, es, e, flag);
    FindMonth(rows, flag, e.now);
    var (s, x) := DefaultPeriod(e.now);
    if rows != [] {
      LatestIsLast(rows, flag, s);
      assert RowRecords(rows, |rows| - 1, es, flag);
    }
  }

  lemma LedgerNewMonth(rows: seq<Row>, es: seq<Usage>, e: Usage, flag: string)
    requires Ledger(rows, es, flag) && Orderly(es + [e], flag)
    requires rows != [] ==> AtOrBefore(rows[|rows| - 1].end, DefaultPeriod(e.now).0)
    ensures Ledger(Step(rows, e), es + [e], flag)
  {
    var es' := es + [e];
    assert es'[|es|] == e && es'[..|es|] == es;
    PeriodsTile(e.now, e.now);
    MonthIsNew(rows, es, e, flag);
    NewMonthRow(rows, es, e, flag);
    var rows' := Step(rows, e);
    forall i | 0 <= i < |rows'| ensures RowRecords(rows', i, es', flag) {
      if i < |rows| { RowKept(rows, rows', es, e, flag, i); }
    }
    MonthSnoc(rows, rows'[|rows|], e.now);
    MonthsKept(rows, rows', es, e);
  }

  lemma RowKept(rows: seq<Row>, rows': seq<Row>, es: seq<Usage>, e: Usage, flag: string, i: nat)
    requires i < |rows| <= |rows'| && (forall k :: 0 <= k <= i ==> rows'[k] == rows[k])
    requires RowRecords(rows, i, es, flag) && rows[i].start != DefaultPeriod(e.now).0
    ensures RowRecords(rows', i, es + [e], flag)
  {
    assert (es + [e])[|es|] == e && (es + [e])[..|es|] == es;
    assert PrevAnchor(rows', i) == PrevAnchor(rows, i);
  }

  lemma MonthSnoc(rows: seq<Row>, row: Row, now: Instant)
    requires MonthsInOrder(rows) && ValidInstant(now) && (row.start, row.end) == DefaultPeriod(now)
    requires forall i :: 0 <= i < |rows| ==> AtOrBefore(rows[i].end, row.start)
    ensures MonthsInOrder(rows + [row])
  {
    PeriodsTile(now, now);
  }

  lemma {:induction false} RunIsLedger(es: seq<Usage>, flag: string)
    requires Orderly(es, flag)
    ensures Ledger(Run(es), es, flag)
  {
    if es != [] {
      var n := |es| - 1;
      RunIsLedger(es[..n], flag);
      var rows := Run(es[..n]);
      assert es == es[..n] + [es[n]];
      if n > 0 {
        assert AtOrBefore(es[n - 1].now, es[n].now);
        PeriodsTile(es[n - 1].now, es[n].now);
      }
      if rows != [] && rows[|rows| - 1].start == DefaultPeriod(es[n].now).0 {
        LedgerSameMonth(rows, es[..n], es[n], flag);
      } else {
        LedgerNewMonth(rows, es[..n], es[n], flag);
      }
    }
  }

  /** While months were recorded once, the replay expects what was written; it fails at the first that was not. */
  lemma {:induction false} ReplayTracks(rows: seq<Row>, es: seq<Usage>, flag: string, n: nat)
    requires Ledger(rows, es, flag) && n <= |rows|
    requires forall i :: 0 <= i < n ==> Times(es, rows[i].start) == 1
    ensures VerifiesUpTo(rows, n) && Expected(rows, n) == PrevAnchor(rows, n)
    ensures n < |rows| && Times(es, rows[n].start) > 1 ==> FirstBad(rows, n)
  {
    if n > 0 {
      ReplayTracks(rows, es, flag, n - 1);
      assert RowRecords(rows, n - 1, es, flag);
      assert RowVerifies(rows, n - 1);
    }
    if n < |rows| { assert RowRecords(rows, n, es, flag); }
  }

  lemma {:induction false} ByStartKeepsOrder(rows: seq<Row>)
    requires MonthsInOrder(rows)
    ensures ByStart(rows) == rows
  {
    if rows != [] {
      ByStartKeepsOrder(rows[1..]);
      if |rows| > 1 { assert AtOrBefore(rows[0].end, rows[1].start); }
    }
  }

  lemma {:induction false} ForFlagOrderly(es: seq<Usage>, flag: string)
    requires DefaultCalls(es) && forall i, j :: 0 <= i < j < |es| ==> AtOrBefore(es[i].now, es[j].now)
    ensures Orderly(ForFlag(es, flag), flag)
    ensures forall e :: e in ForFlag(es, flag) ==> e in es
  {
    if es != [] {
      var n := |es| - 1;
      ForFlagOrderly(es[..n], flag);
      var init := ForFlag(es[..n], flag);
      forall i | 0 <= i < |init| ensures AtOrBefore(init[i].now, es[n].now) {
        assert init[i] in es[..n];
        var j :| 0 <= j < n && es[j] == init[i];
      }
    }
  }

  /** The flag's months each got one call. */
  ghost predicate RecordedOnce(calls: seq<Usage>) {
    forall e :: e in calls ==> Times(calls, DefaultPeriod(e.now).0) == 1
  }

  /** So did each of its months before this one. */
  ghost predicate OnceBefore(calls: seq<Usage>, start: Instant) {
    forall e :: e in calls && Before(DefaultPeriod(e.now).0, start) ==> Times(calls, DefaultPeriod(e.now).0) == 1
  }

  /**
   Exact acceptance: for calls with default periods in clock order, over any mix of flags,
   the replay accepts a flag exactly when every month was recorded once, and otherwise
   stops at the earliest month that was recorded more than once.
   */
  lemma ExactAcceptance(es: seq<Usage>, flag: string, bad: nat)
    requires DefaultCalls(es) && forall i, j :: 0 <= i < j < |es| ==> AtOrBefore(es[i].now, es[j].now)
    ensures var rows, calls := Fetched(Run(es), flag), ForFlag(es, flag);
      && (Accepted(rows) <==> RecordedOnce(calls))
      && (FirstBad(rows, bad) <==>
            && bad < |rows|
            && Times(calls, rows[bad].start) > 1
            && OnceBefore(calls, rows[bad].start))
  {
    var calls := ForFlag(es, flag);
    var rows := Run(calls);
    FlagsAreIndependent(es, flag);
    ForFlagOrderly(es, flag);
    RunIsLedger(calls, flag);
    ByStartKeepsOrder(rows);
    AcceptedWhenOnce(rows, calls, flag);
    BadIsEarliest(rows, calls, flag, bad);
  }

  lemma TimesOfRows(rows: seq<Row>, calls: seq<Usage>, flag: string)
    requires Ledger(rows, calls, flag)
    ensures RecordedOnce(calls) <==> forall i :: 0 <= i < |rows| ==> Times(calls, rows[i].start) == 1
  {
    if RecordedOnce(calls) {
      forall i | 0 <= i < |rows| ensures Times(calls, rows[i].start) == 1 {
        assert RowRecords(rows, i, calls, flag);
        if forall e :: e in calls ==> DefaultPeriod(e.now).0 != rows[i].start { TimesZero(calls, rows[i].start); }
      }
    }
    if forall i :: 0 <= i < |rows| ==> Times(calls, rows[i].start) == 1 {
      forall e | e in calls ensures Times(calls, DefaultPeriod(e.now).0) == 1 {
        assert HasMonth(rows, DefaultPeriod(e.now).0);
      }
    }
  }

  /** Some row before n was recorded more than once: the replay stops there. */
  lemma RepeatedStops(rows: seq<Row>, calls: seq<Usage>, flag: string, i: nat) returns (k: nat)
    requires Ledger(rows, calls, flag) && i < |rows| && Times(calls, rows[i].start) != 1
    ensures k <= i && Times(calls, rows[k].start) > 1 && FirstBad(rows, k)
    ensures forall j :: 0 <= j < k ==> Times(calls, rows[j].start) == 1
  {
    k := 0;
    while Times(calls, rows[k].start) == 1
      invariant k <= i
      invariant forall j :: 0 <= j < k ==> Times(calls, rows[j].start) == 1
      decreases i - k
    {
      k := k + 1;
    }
    assert RowRecords(rows, k, calls, flag);
    ReplayTracks(rows, calls, flag, k);
  }

  lemma AcceptedWhenOnce(rows: seq<Row>, calls: seq<Usage>, flag: string)
    requires Ledger(rows, calls, flag)
    ensures Accepted(rows) <==> RecordedOnce(calls)
  {
    TimesOfRows(rows, calls, flag);
    if RecordedOnce(calls) {
      ReplayTracks(rows, calls, flag, |rows|);
    } else {
      var i :| 0 <= i < |rows| && Times(calls, rows[i].start) != 1;
      var k := RepeatedStops(rows, calls, flag, i);
    }
  }

  lemma BadIsEarliest(rows: seq<Row>, calls: seq<Usage>, flag: string, bad: nat)
    requires Ledger(rows, calls, flag)
    ensures FirstBad(rows, bad) <==>
      && bad < |rows|
      && Times(calls, rows[bad].start) > 1
      && OnceBefore(calls, rows[bad].start)
  {
    if bad < |rows| {
      EarlierMonths(rows, calls, flag, bad);
      if i :| 0 <= i < bad && Times(calls, rows[i].start) != 1 {
        var k := RepeatedStops(rows, calls, flag, i);
        assert !RowVerifies(rows, k);
      } else {
        ReplayTracks(rows, calls, flag, bad);
        assert RowRecords(rows, bad, calls, flag);
        if Times(calls, rows[bad].start) == 1 {
          ReplayTracks(rows, calls, flag, bad + 1);
          assert RowVerifies(rows, bad);
        }
      }
    }
  }

  /** The months before row n are those of the rows before it. */
  lemma EarlierMonths(rows: seq<Row>, calls: seq<Usage>, flag: string, n: nat)
    requires Ledger(rows, calls, flag) && n < |rows|
    ensures OnceBefore(calls, rows[n].start) <==> forall i :: 0 <= i < n ==> Times(calls, rows[i].start) == 1
  {
    if forall i :: 0 <= i < n ==> Times(calls, rows[i].start) == 1 {
      forall i | n < i < |rows| ensures !Before(rows[i].start, rows[n].start) {
        assert AtOrBefore(rows[n].end, rows[i].start);
      }
      forall e | e in calls && Before(DefaultPeriod(e.now).0, rows[n].start)
        ensures Times(calls, DefaultPeriod(e.now).0) == 1
      {
        assert HasMonth(rows, DefaultPeriod(e.now).0);
        var i :| 0 <= i < |rows| && rows[i].start == DefaultPeriod(e.now).0;
      }
    }
    if OnceBefore(calls, rows[n].start) {
      forall i | 0 <= i < n ensures Times(calls, rows[i].start) == 1 {
        assert AtOrBefore(rows[i].end, rows[n].start);
        assert RowRecords(rows, i, calls, flag);
        if forall e :: e in calls ==> DefaultPeriod(e.now).0 != rows[i].start { TimesZero(calls, rows[i].start); }
      }
    }
  }
}
