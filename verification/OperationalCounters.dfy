/**
 Cadence-gated operational counters (collector/operational.go:247-306, collector/config.go:676-687).

 A collection is let through when the interval since the last one let through has passed; each counter it
 reads is reported with its change since it was last read.
 */
module OperationalCounters {
  import opened Common

  datatype Key = Key(database: string, kind: string, instId: int, conId: int, name: string)

  datatype Snapshot = Snapshot(collectedAt: Time, value: int)

  datatype Row = Row(key: Key, value: int)

  /** What a counter row is reported with; `interval` is in nanoseconds. */
  datatype Change = Change(delta: Option<int>, interval: Option<int>, reset: bool)

  predicate Due(last: Option<Time>, at: Time, interval: int) {
    last.None? || last.value + interval <= at
  }

  /** The change between two readings of one counter. */
  function ChangeSince(previous: Option<Snapshot>, at: Time, value: int): Change {
    if previous.None? || at <= previous.value.collectedAt then Change(None, None, false)
    else
      var interval := Some(at - previous.value.collectedAt);
      if value < previous.value.value then Change(None, interval, true)
      else Change(Some(value - previous.value.value), interval, false)
  }

  class Collector {
    const enabled: bool
    const interval: int
    var lastOperationalScrape: map<string, Time>
    var operationalCounters: map<Key, Snapshot>

    constructor (enabled: bool, interval: int)
      ensures this.enabled == enabled && this.interval == interval
      ensures lastOperationalScrape == map[] && operationalCounters == map[]
    {
      this.enabled, this.interval := enabled, interval;
      lastOperationalScrape, operationalCounters := map[], map[];
    }

    method ShouldCollectOperational(database: string, collectedAt: Time) returns (ok: bool)
      modifies this`lastOperationalScrape
      ensures ok <==> enabled && Due(Get(old(lastOperationalScrape), database), collectedAt, interval)
      ensures lastOperationalScrape ==
              if ok then old(lastOperationalScrape)[database := collectedAt] else old(lastOperationalScrape)
    {
      if !enabled {
        return false;
      }
      if database in lastOperationalScrape && collectedAt < lastOperationalScrape[database] + interval {
        return false;
      }
      lastOperationalScrape := lastOperationalScrape[database := collectedAt];
      ok := true;
    }

    method OperationalDelta(key: Key, collectedAt: Time, value: int) returns (change: Change)
      modifies this`operationalCounters
      ensures operationalCounters == old(operationalCounters)[key := Snapshot(collectedAt, value)]
      ensures change == ChangeSince(Get(old(operationalCounters), key), collectedAt, value)
    {
      var known := key in operationalCounters;
      var previous := if known then operationalCounters[key] else Snapshot(ZERO_TIME, 0);
      operationalCounters := operationalCounters[key := Snapshot(collectedAt, value)];
      if !known || collectedAt <= previous.collectedAt {
        return Change(None, None, false);
      }
      if value < previous.value {
        return Change(None, Some(collectedAt - previous.collectedAt), true);
      }
      change := Change(Some(value - previous.value), Some(collectedAt - previous.collectedAt), false);
    }

    /** One scheduled collection: the gate, then each counter row that was read. */
    method Collect(database: string, collectedAt: Time, rows: seq<Row>, ghost log: seq<Report>) returns (reports: seq<Report>)
      modifies this
      ensures enabled ==>
        State(lastOperationalScrape, operationalCounters, log + reports) ==
        Apply(State(old(lastOperationalScrape), old(operationalCounters), log), Step(database, collectedAt, rows), interval)
      ensures !enabled ==>
        reports == [] && lastOperationalScrape == old(lastOperationalScrape) && operationalCounters == old(operationalCounters)
    {
      reports := [];
      var ok := ShouldCollectOperational(database, collectedAt);
      if ok {
        for i := 0 to |rows|
          invariant lastOperationalScrape == old(lastOperationalScrape)[database := collectedAt]
          invariant State(lastOperationalScrape, operationalCounters, log + reports) ==
                    ReadRows(State(lastOperationalScrape, old(operationalCounters), log), collectedAt, rows[..i])
        {
          var change := OperationalDelta(rows[i].key, collectedAt, rows[i].value);
          var report := Report(rows[i].key, collectedAt, rows[i].value, change);
          assert rows[..i + 1][..i] == rows[..i];
          assert log + (reports + [report]) == (log + reports) + [report];
          reports := reports + [report];
        }
        assert rows[..|rows|] == rows;
      } else {
        assert log + reports == log;
      }
    }
  }

  // ---- Whole runs ----

  datatype Report = Report(key: Key, at: Time, value: int, change: Change)

  datatype Step = Step(database: string, at: Time, rows: seq<Row>)

  /** The collector's two maps, and every report made. */
  datatype State = State(last: map<string, Time>, counters: map<Key, Snapshot>, log: seq<Report>)

  const INITIAL := State(map[], map[], [])

  function ReadRow(s: State, at: Time, row: Row): State {
    State(s.last, s.counters[row.key := Snapshot(at, row.value)], s.log + [ReportOf(s, at, row)])
  }

  function ReportOf(s: State, at: Time, row: Row): Report {
    Report(row.key, at, row.value, ChangeSince(Get(s.counters, row.key), at, row.value))
  }

  function ReadRows(s: State, at: Time, rows: seq<Row>): State {
    if rows == [] then s else ReadRow(ReadRows(s, at, rows[..|rows| - 1]), at, rows[|rows| - 1])
  }

  function Apply(s: State, step: Step, interval: int): State {
    if Due(Get(s.last, step.database), step.at, interval)
    then ReadRows(s.(last := s.last[step.database := step.at]), step.at, step.rows)
    else s
  }

  function Run(steps: seq<Step>, interval: int): State {
    if steps == [] then INITIAL else Apply(Run(steps[..|steps| - 1], interval), steps[|steps| - 1], interval)
  }

  // ---- The cadence ----

  /** The times of the collections of one database that were let through. */
  function Accepted(steps: seq<Step>, interval: int, database: string): seq<Time> {
    if steps == [] then []
    else
      var front, last := steps[..|steps| - 1], steps[|steps| - 1];
      var times := Accepted(front, interval, database);
      if last.database == database && Due(Get(Run(front, interval).last, database), last.at, interval)
      then times + [last.at]
      else times
  }

  lemma {:induction false} ReadRowsKeepsTimes(s: State, at: Time, rows: seq<Row>)
    ensures ReadRows(s, at, rows).last == s.last
  {
    if rows != [] {
      ReadRowsKeepsTimes(s, at, rows[..|rows| - 1]);
    }
  }

  lemma {:induction false} LastIsLatestAccepted(steps: seq<Step>, interval: int, database: string)
    ensures var times := Accepted(steps, interval, database);
            Get(Run(steps, interval).last, database) == if times == [] then None else Some(times[|times| - 1])
  {
    if steps != [] {
      var front, last := steps[..|steps| - 1], steps[|steps| - 1];
      LastIsLatestAccepted(front, interval, database);
      var s := Run(front, interval);
      if Due(Get(s.last, last.database), last.at, interval) {
        ReadRowsKeepsTimes(s.(last := s.last[last.database := last.at]), last.at, last.rows);
      }
    }
  }

  /** Collections of a database are let through at least one interval apart. */
  lemma {:induction false} CollectionsAreSpaced(steps: seq<Step>, interval: int, database: string, i: nat, j: nat)
    requires interval > 0 && i < j < |Accepted(steps, interval, database)|
    ensures var times := Accepted(steps, interval, database);
            times[i] + (j - i) * interval <= times[j]
  {
    var front := steps[..|steps| - 1];
    var times := Accepted(front, interval, database);
    if j < |times| {
      CollectionsAreSpaced(front, interval, database, i, j);
    } else {
      LastIsLatestAccepted(front, interval, database);
      if i < j - 1 {
        CollectionsAreSpaced(front, interval, database, i, j - 1);
        assert (j - i) * interval == (j - 1 - i) * interval + interval;
      }
    }
  }

  /** Nothing is skipped without cause: a collection is refused just when the last was less than an interval ago. */
  lemma RefusedIffTooSoon(steps: seq<Step>, interval: int, step: Step)
    ensures var times := Accepted(steps, interval, step.database);
            Accepted(steps + [step], interval, step.database) ==
            if times != [] && step.at < times[|times| - 1] + interval then times else times + [step.at]
  {
    assert (steps + [step])[..|steps|] == steps;
    LastIsLatestAccepted(steps, interval, step.database);
  }

  // ---- Reports of one counter ----

  function Of(log: seq<Report>, key: Key): seq<Report> {
    if log == [] then []
    else
      var front, last := Of(log[..|log| - 1], key), log[|log| - 1];
      if last.key == key then front + [last] else front
  }

  /**
   One reading follows another: later, by the reported interval, and up by the reported delta unless it fell;
   or in the same collection, and then nothing is reported.
   */
  predicate Follows(previous: Report, next: Report) {
    && previous.at <= next.at
    && if previous.at == next.at then next.change == Change(None, None, false)
       else
         && next.change.interval == Some(next.at - previous.at)
         && (next.change.reset <==> next.value < previous.value)
         && next.change.delta == if next.change.reset then None else Some(next.value - previous.value)
  }

  ghost predicate IsChain(reports: seq<Report>) {
    && (|reports| > 0 ==> reports[0].change == Change(None, None, false))
    && forall i | 0 < i < |reports| :: Follows(reports[i - 1], reports[i])
  }

  function LastReading(reports: seq<Report>): Option<Snapshot> {
    if reports == [] then None else Some(Snapshot(reports[|reports| - 1].at, reports[|reports| - 1].value))
  }

  /** What holds of one counter: its reports form a chain, ending at the snapshot, no later than `at`. */
  ghost predicate Consistent(s: State, key: Key) {
    var reports := Of(s.log, key);
    && IsChain(reports)
    && Get(s.counters, key) == LastReading(reports)
    && (reports != [] ==> key.database in s.last && reports[|reports| - 1].at <= s.last[key.database])
  }

  /** The rows of a collection are keyed by its database. */
  ghost predicate OwnRows(step: Step) {
    forall i | 0 <= i < |step.rows| :: step.rows[i].key.database == step.database
  }

  /** Each counter is read at most once in a collection. */
  ghost predicate OneRowPerKey(step: Step) {
    forall i, j | 0 <= i < j < |step.rows| :: step.rows[i].key != step.rows[j].key
  }

  lemma OfOneMore(log: seq<Report>, r: Report, key: Key)
    ensures Of(log + [r], key) == if r.key == key then Of(log, key) + [r] else Of(log, key)
  {
    assert (log + [r])[..|log|] == log;
  }

  /** A key not among the rows is left alone. */
  lemma {:induction false} OtherRowsDoNotMatter(s: State, at: Time, rows: seq<Row>, key: Key)
    requires forall i | 0 <= i < |rows| :: rows[i].key != key
    ensures Of(ReadRows(s, at, rows).log, key) == Of(s.log, key)
    ensures Get(ReadRows(s, at, rows).counters, key) == Get(s.counters, key)
  {
    if rows != [] {
      var front, row := rows[..|rows| - 1], rows[|rows| - 1];
      OtherRowsDoNotMatter(s, at, front, key);
      var t := ReadRows(s, at, front);
      OfOneMore(t.log, ReportOf(t, at, row), key);
    }
  }

  /** A key on one row gains one report, its change since the snapshot before the collection. */
  lemma {:induction false} OneRowIsReported(s: State, at: Time, rows: seq<Row>, i: nat)
    requires i < |rows| && forall j | 0 <= j < |rows| && j != i :: rows[j].key != rows[i].key
    ensures var key, value := rows[i].key, rows[i].value;
            && Of(ReadRows(s, at, rows).log, key) ==
               Of(s.log, key) + [Report(key, at, value, ChangeSince(Get(s.counters, key), at, value))]
            && Get(ReadRows(s, at, rows).counters, key) == Some(Snapshot(at, value))
  {
    var n := |rows| - 1;
    var front, row, key := rows[..n], rows[n], rows[i].key;
    var t := ReadRows(s, at, front);
    OfOneMore(t.log, ReportOf(t, at, row), key);
    if i == n {
      OtherRowsDoNotMatter(s, at, front, key);
    } else {
      OneRowIsReported(s, at, front, i);
    }
  }

  lemma ChainGrows(reports: seq<Report>, key: Key, at: Time, value: int)
    requires IsChain(reports) && (reports != [] ==> reports[|reports| - 1].at <= at)
    ensures IsChain(reports + [Report(key, at, value, ChangeSince(LastReading(reports), at, value))])
  {
  }

  lemma RowKeepsConsistent(s: State, at: Time, row: Row, key: Key)
    requires Consistent(s, key) && (row.key == key ==> Get(s.last, key.database) == Some(at))
    ensures Consistent(ReadRow(s, at, row), key)
  {
    OfOneMore(s.log, ReportOf(s, at, row), key);
    if row.key == key {
      ChainGrows(Of(s.log, key), key, at, row.value);
    }
  }

  lemma {:induction false} ReadRowsKeepsConsistent(s: State, at: Time, rows: seq<Row>, key: Key)
    requires Consistent(s, key)
    requires forall i | 0 <= i < |rows| && rows[i].key == key :: Get(s.last, key.database) == Some(at)
    ensures Consistent(ReadRows(s, at, rows), key)
  {
    if rows != [] {
      var front, row := rows[..|rows| - 1], rows[|rows| - 1];
      ReadRowsKeepsConsistent(s, at, front, key);
      ReadRowsKeepsTimes(s, at, front);
      RowKeepsConsistent(ReadRows(s, at, front), at, row, key);
    }
  }

  lemma CollectionKeepsConsistent(s: State, step: Step, interval: int, key: Key)
    requires interval > 0 && OwnRows(step) && Consistent(s, key)
    ensures Consistent(Apply(s, step, interval), key)
  {
    if Due(Get(s.last, step.database), step.at, interval) {
      ReadRowsKeepsConsistent(s.(last := s.last[step.database := step.at]), step.at, step.rows, key);
    }
  }

  lemma {:induction false} RunIsConsistent(steps: seq<Step>, interval: int, key: Key)
    requires interval > 0 && forall i | 0 <= i < |steps| :: OwnRows(steps[i])
    ensures Consistent(Run(steps, interval), key)
  {
    if steps != [] {
      RunIsConsistent(steps[..|steps| - 1], interval, key);
      CollectionKeepsConsistent(Run(steps[..|steps| - 1], interval), steps[|steps| - 1], interval, key);
    }
  }

  /** No two readings in a row are of one collection. */
  ghost predicate Apart(reports: seq<Report>) {
    forall i | 0 < i < |reports| :: reports[i - 1].at != reports[i].at
  }

  lemma CollectionKeepsApart(s: State, step: Step, interval: int, key: Key)
    requires interval > 0 && OwnRows(step) && OneRowPerKey(step) && Consistent(s, key) && Apart(Of(s.log, key))
    ensures Apart(Of(Apply(s, step, interval).log, key))
  {
    if Due(Get(s.last, step.database), step.at, interval) {
      var s' := s.(last := s.last[step.database := step.at]);
      if i :| 0 <= i < |step.rows| && step.rows[i].key == key {
        OneRowIsReported(s', step.at, step.rows, i);
      } else {
        OtherRowsDoNotMatter(s', step.at, step.rows, key);
      }
    }
  }

  /** As the collector's queries read each counter once in a collection, its readings are all apart. */
  lemma {:induction false} ReadingsAreApart(steps: seq<Step>, interval: int, key: Key)
    requires interval > 0 && forall i | 0 <= i < |steps| :: OwnRows(steps[i]) && OneRowPerKey(steps[i])
    ensures Apart(Of(Run(steps, interval).log, key))
  {
    if steps != [] {
      ReadingsAreApart(steps[..|steps| - 1], interval, key);
      RunIsConsistent(steps[..|steps| - 1], interval, key);
      CollectionKeepsApart(Run(steps[..|steps| - 1], interval), steps[|steps| - 1], interval, key);
    }
  }

  function SumDeltas(reports: seq<Report>): int {
    if reports == [] then 0
    else
      var d := reports[|reports| - 1].change.delta;
      SumDeltas(reports[..|reports| - 1]) + if d.Some? then d.value else 0
  }

  function SumIntervals(reports: seq<Report>): int {
    if reports == [] then 0
    else
      var d := reports[|reports| - 1].change.interval;
      SumIntervals(reports[..|reports| - 1]) + if d.Some? then d.value else 0
  }

  /** What was lost in resets. */
  function SumFalls(reports: seq<Report>): int {
    if |reports| < 2 then 0
    else
      var before, last := reports[|reports| - 2], reports[|reports| - 1];
      SumFalls(reports[..|reports| - 1]) + if before.at != last.at && last.value < before.value then before.value - last.value else 0
  }

  /** The growth between readings of one collection. */
  function SumWithin(reports: seq<Report>): int {
    if |reports| < 2 then 0
    else
      var before, last := reports[|reports| - 2], reports[|reports| - 1];
      SumWithin(reports[..|reports| - 1]) + if before.at == last.at then last.value - before.value else 0
  }

  /** What `ChainTelescopes` says of one chain. */
  ghost predicate Telescopes(reports: seq<Report>)
    requires reports != []
  {
    var first, last, rest := reports[0], reports[|reports| - 1], reports[1..];
    && SumIntervals(rest) == last.at - first.at
    && SumDeltas(rest) == last.value - first.value + SumFalls(reports) - SumWithin(reports)
  }

  lemma {:induction false} ChainTelescopes(reports: seq<Report>)
    requires |reports| > 0 && forall i | 0 < i < |reports| :: Follows(reports[i - 1], reports[i])
    ensures Telescopes(reports)
  {
    var n := |reports| - 1;
    if n > 0 {
      ChainTelescopes(reports[..n]);
      TelescopesOneMore(reports[..n], reports[n]);
      assert reports[..n] + [reports[n]] == reports;
    }
  }

  lemma TelescopesOneMore(front: seq<Report>, last: Report)
    requires front != [] && Telescopes(front) && Follows(front[|front| - 1], last)
    ensures Telescopes(front + [last])
  {
    assert (front + [last])[1..] == front[1..] + [last];
    SumsOfOneMore(front[1..], last);
    LossesOfOneMore(front, last);
  }

  lemma LossesOfOneMore(front: seq<Report>, last: Report)
    requires front != []
    ensures var before := front[|front| - 1];
            && SumFalls(front + [last]) ==
               SumFalls(front) + (if before.at != last.at && last.value < before.value then before.value - last.value else 0)
            && SumWithin(front + [last]) == SumWithin(front) + (if before.at == last.at then last.value - before.value else 0)
  {
    assert (front + [last])[..|front|] == front;
  }

  lemma SumsOfOneMore(front: seq<Report>, last: Report)
    ensures var d, i := last.change.delta, last.change.interval;
            && SumDeltas(front + [last]) == SumDeltas(front) + (if d.Some? then d.value else 0)
            && SumIntervals(front + [last]) == SumIntervals(front) + (if i.Some? then i.value else 0)
  {
    assert (front + [last])[..|front|] == front;
  }

  lemma {:induction false} NothingFallsWithoutReset(reports: seq<Report>)
    requires forall i | 0 < i < |reports| :: Follows(reports[i - 1], reports[i]) && !reports[i].change.reset
    ensures SumFalls(reports) == 0
  {
    if |reports| >= 2 {
      NothingFallsWithoutReset(reports[..|reports| - 1]);
    }
  }

  lemma {:induction false} NothingWithinWhenApart(reports: seq<Report>)
    requires Apart(reports)
    ensures SumWithin(reports) == 0
  {
    if |reports| >= 2 {
      NothingWithinWhenApart(reports[..|reports| - 1]);
    }
  }

  /** The readings of a counter over a run, from the i-th to the j-th. */
  function Stretch(steps: seq<Step>, interval: int, key: Key, i: nat, j: nat): seq<Report>
    requires i <= j < |Of(Run(steps, interval).log, key)|
  {
    Of(Run(steps, interval).log, key)[i..j + 1]
  }

  lemma StretchIsChain(steps: seq<Step>, interval: int, key: Key, i: nat, j: nat)
    requires interval > 0 && forall n | 0 <= n < |steps| :: OwnRows(steps[n])
    requires i <= j < |Of(Run(steps, interval).log, key)|
    ensures var stretch := Stretch(steps, interval, key, i, j);
            forall n | 0 < n < |stretch| :: Follows(stretch[n - 1], stretch[n])
  {
    RunIsConsistent(steps, interval, key);
  }

  /**
   Between any two readings of a counter, whatever the rows: the reported intervals sum to the time elapsed, and
   the reported deltas to the change in value plus what was lost in resets less what it grew within collections -
   so to just the change exactly if those two are equal.
   */
  lemma DeltasTelescope(steps: seq<Step>, interval: int, key: Key, i: nat, j: nat)
    requires interval > 0 && forall n | 0 <= n < |steps| :: OwnRows(steps[n])
    requires i <= j < |Of(Run(steps, interval).log, key)|
    ensures var stretch := Stretch(steps, interval, key, i, j);
            var first, last, rest := stretch[0], stretch[j - i], stretch[1..];
            && SumIntervals(rest) == last.at - first.at
            && SumDeltas(rest) == last.value - first.value + SumFalls(stretch) - SumWithin(stretch)
            && (SumDeltas(rest) == last.value - first.value <==> SumFalls(stretch) == SumWithin(stretch))
  {
    StretchIsChain(steps, interval, key, i, j);
    ChainTelescopes(Stretch(steps, interval, key, i, j));
  }

  /** With each counter read once in a collection, deltas on a stretch without resets sum to last minus first. */
  lemma DeltasAreGrowth(steps: seq<Step>, interval: int, key: Key, i: nat, j: nat)
    requires interval > 0 && forall n | 0 <= n < |steps| :: OwnRows(steps[n]) && OneRowPerKey(steps[n])
    requires i <= j < |Of(Run(steps, interval).log, key)|
    requires var stretch := Stretch(steps, interval, key, i, j); forall n | 0 < n < |stretch| :: !stretch[n].change.reset
    ensures var stretch := Stretch(steps, interval, key, i, j);
            SumDeltas(stretch[1..]) == stretch[j - i].value - stretch[0].value
  {
    StretchIsChain(steps, interval, key, i, j);
    DeltasTelescope(steps, interval, key, i, j);
    NothingFallsWithoutReset(Stretch(steps, interval, key, i, j));
    ReadingsAreApart(steps, interval, key);
    NothingWithinWhenApart(Stretch(steps, interval, key, i, j));
  }

  /** A reset is flagged on exactly the readings below one of an earlier collection; the first is never flagged. */
  lemma ResetIffDecrease(steps: seq<Step>, interval: int, key: Key, i: nat)
    requires interval > 0 && forall n | 0 <= n < |steps| :: OwnRows(steps[n])
    requires i < |Of(Run(steps, interval).log, key)|
    ensures var reports := Of(Run(steps, interval).log, key);
            reports[i].change.reset <==>
            i > 0 && reports[i - 1].at < reports[i].at && reports[i].value < reports[i - 1].value
  {
    RunIsConsistent(steps, interval, key);
  }

  lemma RunOneMore(steps: seq<Step>, step: Step, interval: int)
    ensures Run(steps + [step], interval) == Apply(Run(steps, interval), step, interval)
  {
    assert (steps + [step])[..|steps|] == steps;
  }

  lemma ReadRowsOneMore(s: State, at: Time, rows: seq<Row>, row: Row)
    ensures ReadRows(s, at, rows + [row]) == ReadRow(ReadRows(s, at, rows), at, row)
  {
    assert (rows + [row])[..|rows|] == rows;
  }

  /** The growth within a collection is what `DeltasTelescope` subtracts: read twice, at 20 and 50, it loses 30. */
  lemma SecondRowLosesGrowth()
    ensures var reports := Of(Run([] + [FIRST] + [SECOND], 1).log, COMMITS);
            && |reports| == 3 && reports[0].value == 10 && reports[2].value == 50
            && SumDeltas(reports) == 10 && SumFalls(reports) == 0 && SumWithin(reports) == 30
  {
    var a := Report(COMMITS, 1, 10, Change(None, None, false));
    var b := Report(COMMITS, 2, 20, Change(Some(10), Some(1), false));
    var c := Report(COMMITS, 2, 50, Change(None, None, false));
    ReportsOfTwo(a, b, c);
    SumsOfOneMore([], a);
    SumsOfOneMore([] + [a], b);
    SumsOfOneMore([] + [a] + [b], c);
    LossesOfOneMore([] + [a], b);
    LossesOfOneMore([] + [a] + [b], c);
  }

  const COMMITS := Key("db", "system", 1, 0, "commits")

  const FIRST := Step("db", 1, [] + [Row(COMMITS, 10)])

  const SECOND := Step("db", 2, [] + [Row(COMMITS, 20)] + [Row(COMMITS, 50)])

  lemma AfterFirst(a: Report)
    requires a == Report(COMMITS, 1, 10, Change(None, None, false))
    ensures Run([] + [FIRST], 1) == State(map["db" := 1], map[COMMITS := Snapshot(1, 10)], [] + [a])
  {
    RunOneMore([], FIRST, 1);
    ReadRowsOneMore(State(map["db" := 1], map[], []), 1, [], Row(COMMITS, 10));
  }

  lemma ReportsOfTwo(a: Report, b: Report, c: Report)
    requires a == Report(COMMITS, 1, 10, Change(None, None, false))
    requires b == Report(COMMITS, 2, 20, Change(Some(10), Some(1), false))
    requires c == Report(COMMITS, 2, 50, Change(None, None, false))
    ensures Of(Run([] + [FIRST] + [SECOND], 1).log, COMMITS) == [] + [a] + [b] + [c]
  {
    var t := State(map["db" := 2], map[COMMITS := Snapshot(1, 10)], [] + [a]);
    AfterFirst(a);
    RunOneMore([] + [FIRST], SECOND, 1);
    ReadRowsOneMore(t, 2, [], Row(COMMITS, 20));
    ReadRowsOneMore(t, 2, [] + [Row(COMMITS, 20)], Row(COMMITS, 50));
    assert map["db" := 1]["db" := 2] == map["db" := 2];
    OfOneMore([], a, COMMITS);
    OfOneMore([] + [a], b, COMMITS);
    OfOneMore([] + [a] + [b], c, COMMITS);
  }
}
