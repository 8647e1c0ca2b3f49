/**
 The hash-chained usage ledger.  SHA-256 is ideal: a digest is a term over what was hashed,
 so digests are equal only for equal contents and none is the genesis anchor or its own ancestor.
 */
module QuotaLedger {
  import opened Wrappers

  // ---------- time ----------

  /** A reading of the calendar: month and microseconds into it. */
  datatype Instant = Instant(year: int, month: int, micros: nat)

  const DAY_MICROS: nat := 86_400_000_000

  function MonthDays(year: int, month: int): (days: nat)
    ensures 28 <= days <= 31
  {
    if month == 2 then
      if year % 4 == 0 && (year % 100 != 0 || year % 400 == 0) then 29 else 28
    else if month == 4 || month == 6 || month == 9 || month == 11 then 30
    else 31
  }

  function MonthMicros(year: int, month: int): (micros: nat)
    ensures micros >= 28 * DAY_MICROS
  {
    MonthDays(year, month) * DAY_MICROS
  }

  predicate ValidInstant(t: Instant) { 1 <= t.month <= 12 && t.micros < MonthMicros(t.year, t.month) }

  predicate Before(s: Instant, t: Instant) {
    s.year < t.year || (s.year == t.year && (s.month < t.month || (s.month == t.month && s.micros < t.micros)))
  }

  predicate AtOrBefore(s: Instant, t: Instant) { s == t || Before(s, t) }

  /** `_default_period`: the first of the month the fields name, and the first of the next, both in UTC. */
  function DefaultPeriod(now: Instant): (Instant, Instant) {
    var start := Instant(now.year, now.month, 0);
    (start, if start.month == 12 then Instant(start.year + 1, 1, 0) else Instant(start.year, start.month + 1, 0))
  }

  predicate Covers(p: (Instant, Instant), t: Instant) { AtOrBefore(p.0, t) && Before(t, p.1) }

  /** Default periods tile time: every instant lies in its own month and in no other. */
  lemma PeriodsTile(t: Instant, u: Instant)
    requires ValidInstant(t) && ValidInstant(u)
    ensures Covers(DefaultPeriod(t), t)
    ensures Covers(DefaultPeriod(u), t) <==> DefaultPeriod(u) == DefaultPeriod(t)
    ensures ValidInstant(DefaultPeriod(t).1)
    ensures DefaultPeriod(DefaultPeriod(t).1).0 == DefaultPeriod(t).1
    ensures AtOrBefore(t, u) ==>
      DefaultPeriod(u) == DefaultPeriod(t) || AtOrBefore(DefaultPeriod(t).1, DefaultPeriod(u).0)
  {}

  /** An aware clock reading: wall-clock fields and the zone's offset from UTC. */
  datatype Clock = Clock(wall: Instant, offset: int)

  predicate ValidClock(c: Clock) { ValidInstant(c.wall) && 0 < c.offset + DAY_MICROS < 2 * DAY_MICROS }

  /** The same moment in UTC. */
  function Utc(c: Clock): Instant
    requires ValidClock(c)
  {
    var t := c.wall;
    var micros := t.micros - c.offset;
    if micros < 0 then
      var (year, month) := if t.month == 1 then (t.year - 1, 12) else (t.year, t.month - 1);
      Instant(year, month, MonthMicros(year, month) + micros)
    else if micros < MonthMicros(t.year, t.month) then Instant(t.year, t.month, micros)
    else
      var (year, month) := if t.month == 12 then (t.year + 1, 1) else (t.year, t.month + 1);
      Instant(year, month, micros - MonthMicros(t.year, t.month))
  }

  /**
   The default period is that of the wall-clock month, taken as a UTC month.  It contains the
   moment it was made for exactly when the zone's offset does not carry it out of that month.
   */
  lemma DefaultPeriodCoversIff(c: Clock)
    requires ValidClock(c)
    ensures ValidInstant(Utc(c))
    ensures Covers(DefaultPeriod(c.wall), Utc(c)) <==>
      0 <= c.wall.micros - c.offset < MonthMicros(c.wall.year, c.wall.month)
  {}

  /** Half past midnight on the first of February 2024, two hours east: February's period, in January. */
  lemma DefaultPeriodMisses()
    ensures var c := Clock(Instant(2024, 2, 1_800_000_000), 7_200_000_000);
      ValidClock(c) && Utc(c).month == 1 && !Covers(DefaultPeriod(c.wall), Utc(c))
  {}

  // ---------- rows ----------

  datatype Digest = Genesis | Sha(prev: Digest, flag: string, start: Instant, end: Instant, used: int)

  /** A row of `quota_usage`; the anchor column may be NULL. */
  datatype Row = Row(flag: string, start: Instant, end: Instant, used: int, anchor: Option<Digest>)

  datatype LedgerError = NegativeIncrement | EmptyPeriod

  datatype Recorded = Refused(error: LedgerError) | Recorded(used: int, anchor: Digest, created: bool)

  function AnchorOf(row: Row): Digest {
    match row.anchor
    case None => Genesis
    case Some(d) => d
  }

  predicate IsRow(row: Row, flag: string, start: Instant, end: Instant) {
    row.flag == flag && row.start == start && row.end == end
  }

  /** The row of that flag and period. */
  function Find(rows: seq<Row>, flag: string, start: Instant, end: Instant): (r: Option<nat>)
    ensures r.Some? ==> r.value < |rows| && IsRow(rows[r.value], flag, start, end)
    ensures r.None? ==> forall i :: 0 <= i < |rows| ==> !IsRow(rows[i], flag, start, end)
  {
    if rows == [] then None
    else if IsRow(rows[0], flag, start, end) then Some(0)
    else
      match Find(rows[1..], flag, start, end)
      case None =>
        assert forall i :: 0 < i < |rows| ==> rows[i] == rows[1..][i - 1];
        None
      case Some(i) => Some(i + 1)
  }

  /** The row of the flag with the latest end not after `start`, if any. */
  function Latest(rows: seq<Row>, flag: string, start: Instant): Option<Row> {
    if rows == [] then None
    else
      var n := |rows| - 1;
      var best := Latest(rows[..n], flag, start);
      var row := rows[n];
      if row.flag == flag && AtOrBefore(row.end, start) && (best.Some? ==> !Before(row.end, best.value.end)) then
        Some(row)
      else best
  }

  function PeriodOf(start: Option<Instant>, end: Option<Instant>, now: Instant): (Instant, Instant) {
    match (start, end)
    case (Some(s), Some(e)) => (s, e)
    case _ => DefaultPeriod(now)
  }

  /** `record_usage` on the table. */
  function Record(rows: seq<Row>, flag: string, increment: int, start: Option<Instant>, end: Option<Instant>,
                  now: Instant)
    : (seq<Row>, Recorded)
  {
    if increment < 0 then (rows, Refused(NegativeIncrement))
    else
      var (s, e) := PeriodOf(start, end, now);
      if AtOrBefore(e, s) then (rows, Refused(EmptyPeriod))
      else
        match Find(rows, flag, s, e)
        case Some(i) =>
          var used := rows[i].used + increment;
          var anchor := Sha(AnchorOf(rows[i]), flag, s, e, used);
          (rows[i := Row(flag, s, e, used, Some(anchor))], Recorded(used, anchor, false))
        case None =>
          var prev := match Latest(rows, flag, s) case None => Genesis case Some(r) => AnchorOf(r);
          var anchor := Sha(prev, flag, s, e, increment);
          (rows + [Row(flag, s, e, increment, Some(anchor))], Recorded(increment, anchor, true))
  }

  /**
   What a recording reports is what it left: one row of that flag and period, with the usage
   and the anchor reported, new or with the increment added; every other row as it was.
   */
  lemma RecordReports(rows: seq<Row>, flag: string, increment: int, start: Option<Instant>, end: Option<Instant>,
                      now: Instant)
    ensures var (rows', r) := Record(rows, flag, increment, start, end, now);
      var (s, e) := if start.Some? && end.Some? then (start.value, end.value) else DefaultPeriod(now);
      && (r == Refused(NegativeIncrement) <==> increment < 0)
      && (r == Refused(EmptyPeriod) <==> increment >= 0 && !Before(s, e))
      && (r.Refused? ==> rows' == rows)
      && (r.Recorded? ==>
            && |rows'| == |rows| + (if r.created then 1 else 0)
            && exists i :: IsRecorded(rows, rows', i, flag, s, e, increment, r))
  {
    var (rows', r) := Record(rows, flag, increment, start, end, now);
    if r.Recorded? {
      var (s, e) := PeriodOf(start, end, now);
      var i := if r.created then |rows| else Find(rows, flag, s, e).value;
      assert IsRecorded(rows, rows', i, flag, s, e, increment, r);
    }
  }

  /** Row i is what the recording left. */
  ghost predicate IsRecorded(rows: seq<Row>, rows': seq<Row>, i: int, flag: string, s: Instant, e: Instant,
                             increment: int, r: Recorded)
    requires r.Recorded? && |rows'| >= |rows|
  {
    && 0 <= i < |rows'| && rows'[i] == Row(flag, s, e, r.used, Some(r.anchor))
    && (if r.created then i == |rows| && r.used == increment
        else i < |rows| && IsRow(rows[i], flag, s, e) && r.used == rows[i].used + increment)
    && (forall j :: 0 <= j < |rows| && j != i ==> rows'[j] == rows[j])
  }

  // ---------- verification ----------

  /** `WHERE flag_name = ...`. */
  function OfFlag(rows: seq<Row>, flag: string): seq<Row> {
    if rows == [] then [] else (if rows[0].flag == flag then [rows[0]] else []) + OfFlag(rows[1..], flag)
  }

  function InsertByStart(row: Row, rows: seq<Row>): seq<Row> {
    if rows == [] || AtOrBefore(row.start, rows[0].start) then [row] + rows
    else [rows[0]] + InsertByStart(row, rows[1..])
  }

  /** `ORDER BY period_start`. */
  function ByStart(rows: seq<Row>): seq<Row> {
    if rows == [] then [] else InsertByStart(rows[0], ByStart(rows[1..]))
  }

  /** The anchor the replay expects of the n-th row. */
  function Expected(rows: seq<Row>, n: nat): Digest
    requires n <= |rows|
  {
    if n == 0 then Genesis
    else
      var row := rows[n - 1];
      Sha(Expected(rows, n - 1), row.flag, row.start, row.end, row.used)
  }

  predicate RowVerifies(rows: seq<Row>, i: nat)
    requires i < |rows|
  {
    rows[i].anchor == Some(Expected(rows, i + 1))
  }

  /** The first n rows verify. */
  ghost predicate VerifiesUpTo(rows: seq<Row>, n: nat) {
    forall i :: 0 <= i < n && i < |rows| ==> RowVerifies(rows, i)
  }

  ghost predicate Accepted(rows: seq<Row>) { VerifiesUpTo(rows, |rows|) }

  /** Row `bad` is the first the replay rejects. */
  ghost predicate FirstBad(rows: seq<Row>, bad: nat) {
    bad < |rows| && !RowVerifies(rows, bad) && VerifiesUpTo(rows, bad)
  }

  /** `verify_chain` on the fetched rows: the index of the first bad row, if any. */
  method Replay(rows: seq<Row>, flag: string) returns (bad: Option<nat>)
    requires forall i :: 0 <= i < |rows| ==> rows[i].flag == flag
    ensures bad.None? <==> Accepted(rows)
    ensures bad.Some? ==> FirstBad(rows, bad.value)
  {
    var prev := Genesis;
    for i := 0 to |rows|
      invariant prev == Expected(rows, i)
      invariant VerifiesUpTo(rows, i)
    {
      var expected := Sha(prev, flag, rows[i].start, rows[i].end, rows[i].used);
      if rows[i].anchor != Some(expected) {
        assert !RowVerifies(rows, i);
        return Some(i);
      }
      prev := expected;
    }
    return None;
  }

  lemma {:induction false} OfFlagHasFlag(rows: seq<Row>, flag: string)
    ensures forall i :: 0 <= i < |OfFlag(rows, flag)| ==> OfFlag(rows, flag)[i].flag == flag
  {
    if rows != [] { OfFlagHasFlag(rows[1..], flag); }
  }

  lemma {:induction false} ByStartHasFlag(rows: seq<Row>, flag: string)
    requires forall i :: 0 <= i < |rows| ==> rows[i].flag == flag
    ensures forall i :: 0 <= i < |ByStart(rows)| ==> ByStart(rows)[i].flag == flag
  {
    if rows != [] {
      ByStartHasFlag(rows[1..], flag);
      InsertHasFlag(rows[0], ByStart(rows[1..]), flag);
    }
  }

  lemma {:induction false} InsertHasFlag(row: Row, rows: seq<Row>, flag: string)
    requires row.flag == flag && forall i :: 0 <= i < |rows| ==> rows[i].flag == flag
    ensures forall i :: 0 <= i < |InsertByStart(row, rows)| ==> InsertByStart(row, rows)[i].flag == flag
  {
    if rows != [] { InsertHasFlag(row, rows[1..], flag); }
  }

  /** What `verify_chain` replays for a flag. */
  function Fetched(rows: seq<Row>, flag: string): seq<Row> { ByStart(OfFlag(rows, flag)) }

  method VerifyChain(rows: seq<Row>, flag: string) returns (bad: Option<nat>)
    ensures bad.None? <==> Accepted(Fetched(rows, flag))
    ensures bad.Some? ==> FirstBad(Fetched(rows, flag), bad.value)
  {
    OfFlagHasFlag(rows, flag);
    ByStartHasFlag(OfFlag(rows, flag), flag);
    bad := Replay(Fetched(rows, flag), flag);
  }

  // ---------- what the chain commits to ----------

  /** The anchor of the last row; genesis for an empty ledger. */
  function Tail(rows: seq<Row>): Option<Digest> {
    if rows == [] then Some(Genesis) else rows[|rows| - 1].anchor
  }

  lemma {:induction false} ExpectedDeterminesRows(xs: seq<Row>, ys: seq<Row>, m: nat, n: nat)
    requires m <= |xs| && n <= |ys| && VerifiesUpTo(xs, m) && VerifiesUpTo(ys, n)
    requires Expected(xs, m) == Expected(ys, n)
    ensures m == n && xs[..m] == ys[..n]
  {
    if m > 0 && n > 0 {
      ExpectedDeterminesRows(xs, ys, m - 1, n - 1);
      assert RowVerifies(xs, m - 1) && RowVerifies(ys, n - 1);
      assert xs[..m] == xs[..m - 1] + [xs[m - 1]] && ys[..n] == ys[..n - 1] + [ys[n - 1]];
    }
  }

  /** Tail commitment: accepted ledgers that end in the same anchor are equal, row by row. */
  lemma TailCommits(xs: seq<Row>, ys: seq<Row>)
    requires Accepted(xs) && Accepted(ys) && Tail(xs) == Tail(ys)
    ensures xs == ys
  {
    if xs != [] { assert RowVerifies(xs, |xs| - 1); }
    if ys != [] { assert RowVerifies(ys, |ys| - 1); }
    ExpectedDeterminesRows(xs, ys, |xs|, |ys|);
    assert xs[..|xs|] == xs && ys[..|ys|] == ys;
  }

  lemma {:induction false} ExpectedOfPrefix(xs: seq<Row>, ys: seq<Row>, n: nat)
    requires n <= |xs| && n <= |ys| && xs[..n] == ys[..n]
    ensures Expected(xs, n) == Expected(ys, n)
    ensures VerifiesUpTo(xs, n) ==> VerifiesUpTo(ys, n)
  {
    if n > 0 {
      assert xs[..n - 1] == xs[..n][..n - 1] && ys[..n - 1] == ys[..n][..n - 1];
      assert xs[n - 1] == xs[..n][n - 1] && ys[n - 1] == ys[..n][n - 1];
      ExpectedOfPrefix(xs, ys, n - 1);
      if VerifiesUpTo(xs, n) {
        assert RowVerifies(xs, n - 1);
        assert RowVerifies(ys, n - 1);
      }
    }
  }

  /**
   Replacing row i of an accepted ledger by a different row in its place: the replay stops
   at i unless the new row carries the anchor of its own contents; then it stops at the
   next row, and a ledger with no next row is accepted.
   */
  lemma RowChangeReported(rows: seq<Row>, i: nat, row: Row)
    requires Accepted(rows) && i < |rows| && row != rows[i]
    ensures var rows' := rows[i := row];
      var consistent := row.anchor == Some(Sha(Expected(rows, i), row.flag, row.start, row.end, row.used));
      && (!consistent ==> FirstBad(rows', i))
      && (consistent && i + 1 < |rows| ==> FirstBad(rows', i + 1))
      && (consistent && i + 1 == |rows| ==> Accepted(rows'))
  {
    var rows' := rows[i := row];
    assert rows'[..i] == rows[..i];
    ExpectedOfPrefix(rows, rows', i);
    assert Expected(rows', i + 1) == Sha(Expected(rows, i), row.flag, row.start, row.end, row.used);
    assert RowVerifies(rows, i);
    if row.anchor == Some(Expected(rows', i + 1)) {
      assert RowVerifies(rows', i);
      assert Expected(rows', i + 1) != Expected(rows, i + 1);
      if i + 1 < |rows| {
        assert RowVerifies(rows, i + 1);
        assert rows'[i + 1] == rows[i + 1];
        assert Expected(rows, i + 2) != Expected(rows', i + 2);
        assert !RowVerifies(rows', i + 1);
      }
    } else {
      assert !RowVerifies(rows', i);
    }
  }

  /** Changing only the period or the usage of one row is reported at that row. */
  lemma UsageChangeReported(rows: seq<Row>, i: nat, start: Instant, end: Instant, used: int)
    requires Accepted(rows) && i < |rows|
    requires (start, end, used) != (rows[i].start, rows[i].end, rows[i].used)
    ensures FirstBad(rows[i := rows[i].(start := start, end := end, used := used)], i)
  {
    assert RowVerifies(rows, i);
    RowChangeReported(rows, i, rows[i].(start := start, end := end, used := used));
  }
}
