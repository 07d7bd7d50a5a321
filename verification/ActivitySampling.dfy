/**
 ASH sampling (collector/activity.go:158-217, 293-305, the unique index at
 postgresql/postgresql.go:395 and the insert at 2194-2246).

 Each poll re-reads an overlap behind the last watermark and inserts with `on conflict do nothing`;
 the watermark advances only after the write. The main result says exactly which rows end up stored,
 and that they are stored once.
 */
module ActivitySampling {
  import opened Common

  /** The unique index of the activity table; its last column is `coalesce(session_serial_number, -1)`. */
  datatype Key = Key(at: Time, database: string, instId: int, sampleId: int, sessionId: int, serial: int)

  datatype Row = Row(at: Time, database: string, instId: int, sampleId: int, sessionId: int, serial: Option<int>, detail: string)

  function KeyOf(row: Row): Key {
    Key(row.at, row.database, row.instId, row.sampleId, row.sessionId, if row.serial.None? then -1 else row.serial.value)
  }

  const FIRST_LOOKBACK: int := 120_000_000_000

  // ---- Reading ----

  /** The lower bound a poll queries with. */
  function Since(watermark: Option<Time>, sampledAt: Time, interval: int): Time {
    match watermark
    case None => sampledAt - FIRST_LOOKBACK
    case Some(w) => w - interval
  }

  /** `where ash.sample_time > :1`. */
  function Query(visible: seq<Row>, since: Time): seq<Row> {
    if visible == [] then []
    else
      var front, row := Query(visible[..|visible| - 1], since), visible[|visible| - 1];
      if row.at > since then front + [row] else front
  }

  lemma {:induction false} QueryMeaning(visible: seq<Row>, since: Time, row: Row)
    ensures row in Query(visible, since) <==> row in visible && row.at > since
  {
    if visible != [] {
      var front, last := visible[..|visible| - 1], visible[|visible| - 1];
      assert visible == front + [last];
      QueryMeaning(front, since, row);
    }
  }

  /** The latest positive sample time among the rows of a database, which becomes its watermark. */
  function Latest(rows: seq<Row>, database: string): Option<Time> {
    if rows == [] then None
    else
      var front, row := Latest(rows[..|rows| - 1], database), rows[|rows| - 1];
      if row.database == database && row.at > OrZero(front) then Some(row.at) else front
  }

  lemma {:induction false} LatestMeaning(rows: seq<Row>, database: string)
    ensures forall row | row in rows && row.database == database :: row.at <= OrZero(Latest(rows, database))
    ensures Latest(rows, database).Some? ==>
      && Latest(rows, database).value > ZERO_TIME
      && exists row | row in rows :: row.database == database && row.at == Latest(rows, database).value
  {
    if rows != [] {
      var front, last := rows[..|rows| - 1], rows[|rows| - 1];
      assert rows == front + [last];
      LatestMeaning(front, database);
      if last.database == database && last.at > OrZero(Latest(front, database)) {
        assert last in rows;
      }
    }
  }

  // ---- Writing ----

  predicate Present(table: seq<Row>, k: Key) {
    exists row | row in table :: KeyOf(row) == k
  }

  /** `insert ... on conflict do nothing`. */
  function Insert(table: seq<Row>, row: Row): seq<Row> {
    if Present(table, KeyOf(row)) then table else table + [row]
  }

  function InsertAll(table: seq<Row>, rows: seq<Row>): seq<Row> {
    if rows == [] then table else Insert(InsertAll(table, rows[..|rows| - 1]), rows[|rows| - 1])
  }

  /** How many stored rows carry the key. */
  function Stored(table: seq<Row>, k: Key): nat {
    if table == [] then 0
    else Stored(table[..|table| - 1], k) + if KeyOf(table[|table| - 1]) == k then 1 else 0
  }

  lemma {:induction false} StoredMeaning(table: seq<Row>, k: Key)
    ensures Stored(table, k) > 0 <==> Present(table, k)
  {
    if table != [] {
      var front, last := table[..|table| - 1], table[|table| - 1];
      assert table == front + [last];
      StoredMeaning(front, k);
      assert last in table;
      forall row | row in front
        ensures row in table
      {
      }
    }
  }

  /** Inserting is idempotent: a key is added once if it was absent and offered, and is otherwise untouched. */
  lemma {:induction false} InsertAllStores(table: seq<Row>, rows: seq<Row>, k: Key)
    ensures Stored(InsertAll(table, rows), k) ==
            if Stored(table, k) > 0 then Stored(table, k) else if Present(rows, k) then 1 else 0
  {
    if rows != [] {
      var front, last := rows[..|rows| - 1], rows[|rows| - 1];
      assert rows == front + [last];
      InsertAllStores(table, front, k);
      var before := InsertAll(table, front);
      StoredMeaning(before, KeyOf(last));
      InsertAllStores(table, front, KeyOf(last));
      assert (before + [last])[..|before|] == before;
      assert Present(rows, k) <==> Present(front, k) || KeyOf(last) == k;
    }
  }

  // ---- The same on columns ----

  /** The unique index takes two rows for the same just if all six columns agree, a missing serial number being -1. */
  predicate SameEntry(a: Row, b: Row) {
    && a.at == b.at && a.database == b.database && a.instId == b.instId
    && a.sampleId == b.sampleId && a.sessionId == b.sessionId
    && (if a.serial.Some? then a.serial.value else -1) == (if b.serial.Some? then b.serial.value else -1)
  }

  lemma KeysAgreeIffColumnsDo(a: Row, b: Row)
    ensures KeyOf(a) == KeyOf(b) <==> SameEntry(a, b)
  {
  }

  /** No two rows from index n on, nor one of those and an earlier one, agree in all columns. */
  predicate DistinctFrom(table: seq<Row>, n: nat) {
    forall i, j | 0 <= i < j < |table| && n <= j :: !SameEntry(table[i], table[j])
  }

  predicate Holds(table: seq<Row>, row: Row) {
    exists stored | stored in table :: SameEntry(stored, row)
  }

  /**
   What a write does to a table: what was there stays as it is; every row offered finds a row agreeing in all
   columns; and what is added are rows offered, as they are, none agreeing with any other.
   */
  ghost predicate Adds(table: seq<Row>, rows: seq<Row>, table': seq<Row>) {
    && table <= table'
    && (forall row | row in rows :: Holds(table', row))
    && (forall i | |table| <= i < |table'| :: table'[i] in rows)
    && DistinctFrom(table', |table|)
  }

  lemma {:induction false} InsertAllAdds(table: seq<Row>, rows: seq<Row>)
    ensures Adds(table, rows, InsertAll(table, rows))
  {
    if rows != [] {
      var front, last := rows[..|rows| - 1], rows[|rows| - 1];
      assert rows == front + [last];
      InsertAllAdds(table, front);
      InsertOneMore(table, front, InsertAll(table, front), last);
    }
  }

  lemma InsertOneMore(table: seq<Row>, rows: seq<Row>, before: seq<Row>, row: Row)
    requires Adds(table, rows, before)
    ensures Adds(table, rows + [row], Insert(before, row))
  {
    var after := Insert(before, row);
    forall stored | stored in before
      ensures KeyOf(stored) == KeyOf(row) <==> SameEntry(stored, row)
    {
      KeysAgreeIffColumnsDo(stored, row);
    }
    forall other | other in rows
      ensures Holds(after, other)
    {
      var stored :| stored in before && SameEntry(stored, other);
      assert stored in after;
    }
    if stored :| stored in before && KeyOf(stored) == KeyOf(row) {
      assert SameEntry(stored, row);
    } else {
      assert after == before + [row] && row in after && SameEntry(row, row);
    }
  }

  // ---- One poll over every database ----

  /** What the goroutine of one database delivers: rows of that database, or a failure or skip. */
  datatype Polled = Rows(database: string, rows: seq<Row>) | Failed(database: string)

  predicate OwnRows(p: Polled) {
    p.Rows? ==> forall row | row in p.rows :: row.database == p.database
  }

  function AllRows(results: seq<Polled>): seq<Row> {
    if results == [] then []
    else
      var last := results[|results| - 1];
      AllRows(results[..|results| - 1]) + if last.Rows? then last.rows else []
  }

  /** The rows are those of the databases that were polled without a failure. */
  ghost predicate OfResults(rows: seq<Row>, results: seq<Polled>) {
    forall row :: row in rows <==> exists p | p in results :: p.Rows? && row in p.rows
  }

  lemma {:induction false} AllRowsAreOfResults(results: seq<Polled>)
    ensures OfResults(AllRows(results), results)
  {
    if results != [] {
      var front, last := results[..|results| - 1], results[|results| - 1];
      AllRowsAreOfResults(front);
      assert results == front + [last];
      forall row
        ensures row in AllRows(results) <==> exists p | p in results :: p.Rows? && row in p.rows
      {
        assert row in AllRows(results) <==> row in AllRows(front) || (last.Rows? && row in last.rows);
        if p :| p in front && p.Rows? && row in p.rows {
          assert p in results;
        }
        assert last in results;
      }
    }
  }

  class Sampler {
    var activityWatermarks: map<string, Time>
    const interval: int

    constructor (interval: int)
      ensures activityWatermarks == map[] && this.interval == interval
    {
      activityWatermarks, this.interval := map[], interval;
    }

    function Watermark(database: string): Option<Time>
      reads this
    {
      if database in activityWatermarks then Some(activityWatermarks[database]) else None
    }

    /** The bound computed at the head of `scrapeASHSamples`. */
    method SinceFor(database: string, sampledAt: Time) returns (since: Time)
      ensures since == Since(Watermark(database), sampledAt, interval)
      ensures since == (if database in activityWatermarks then activityWatermarks[database] - interval
                        else sampledAt - 2 * 60 * 1_000_000_000)
    {
      if database !in activityWatermarks {
        since := sampledAt - FIRST_LOOKBACK;
      } else {
        since := activityWatermarks[database] - interval;
      }
    }

    /** `sampleActivity` from the collected results on; `commits` is whether the sink's write succeeds. */
    method SampleActivity(table: seq<Row>, results: seq<Polled>, commits: bool) returns (table': seq<Row>)
      requires forall p | p in results :: OwnRows(p)
      modifies this`activityWatermarks
      ensures table' == if commits then InsertAll(table, AllRows(results)) else table
      ensures commits ==> exists rows :: Adds(table, rows, table') && OfResults(rows, results)
      ensures forall d :: Watermark(d) ==
                          if commits && Latest(AllRows(results), d).Some? then Latest(AllRows(results), d)
                          else old(Watermark(d))
    {
      var batch, latestASH := Gather(results);
      AllRowsAreOfResults(results);
      InsertAllAdds(table, batch);
      if !commits {
        return table;
      }
      table' := InsertBatch(table, batch);
      ghost var before := activityWatermarks;
      activityWatermarks := activityWatermarks + latestASH;
      forall d
        ensures Watermark(d) == if Latest(batch, d).Some? then Latest(batch, d) else old(Watermark(d))
      {
        assert Get(latestASH, d) == Latest(batch, d);
      }
    }
  }

  /** The map holds the latest time of every database's rows. */
  ghost predicate Tracks(latestASH: map<string, Time>, rows: seq<Row>) {
    forall d :: Get(latestASH, d) == Latest(rows, d)
  }

  lemma TracksOneMore(latestASH: map<string, Time>, rows: seq<Row>, row: Row)
    requires Tracks(latestASH, rows)
    ensures var d := row.database;
            Tracks(if row.at > OrZero(Get(latestASH, d)) then latestASH[d := row.at] else latestASH, rows + [row])
  {
    assert (rows + [row])[..|rows|] == rows;
    var database := row.database;
    assert Get(latestASH, database) == Latest(rows, database);
    var after := if row.at > OrZero(Get(latestASH, database)) then latestASH[database := row.at] else latestASH;
    forall d
      ensures Get(after, d) == Latest(rows + [row], d)
    {
      assert Get(latestASH, d) == Latest(rows, d);
    }
  }

  /** The rows of one database. */
  method GatherRows(latestASH: map<string, Time>, database: string, rows: seq<Row>, ghost batch: seq<Row>)
    returns (latest: map<string, Time>)
    requires Tracks(latestASH, batch) && forall row | row in rows :: row.database == database
    ensures Tracks(latest, batch + rows)
  {
    latest := latestASH;
    assert batch + rows[..0] == batch;
    for j := 0 to |rows|
      invariant Tracks(latest, batch + rows[..j])
    {
      var row := rows[j];
      assert batch + rows[..j + 1] == (batch + rows[..j]) + [row];
      TracksOneMore(latest, batch + rows[..j], row);
      var known := if database in latest then latest[database] else ZERO_TIME;
      if row.at > known {
        latest := latest[database := row.at];
      }
    }
    assert rows[..|rows|] == rows;
  }

  /** The loop of `sampleActivity` over the databases' results. */
  method Gather(results: seq<Polled>) returns (batch: seq<Row>, latestASH: map<string, Time>)
    requires forall p | p in results :: OwnRows(p)
    ensures batch == AllRows(results) && Tracks(latestASH, batch)
  {
    batch, latestASH := [], map[];
    for i := 0 to |results|
      invariant batch == AllRows(results[..i]) && Tracks(latestASH, batch)
    {
      var result := results[i];
      assert results[..i + 1][..i] == results[..i];
      if result.Rows? {
        assert OwnRows(result);
        latestASH := GatherRows(latestASH, result.database, result.rows, batch);
        batch := batch + result.rows;
      }
    }
    assert results[..|results|] == results;
  }

  method InsertBatch(table: seq<Row>, batch: seq<Row>) returns (table': seq<Row>)
    ensures table' == InsertAll(table, batch)
  {
    table' := table;
    for i := 0 to |batch|
      invariant table' == InsertAll(table, batch[..i])
    {
      assert batch[..i + 1][..i] == batch[..i];
      table' := Insert(table', batch[i]);
    }
    assert batch[..|batch|] == batch;
  }

  // ---- One database over a whole run ----

  /**
   A row the source has shown: whether it has left again, whether its key was stored before it appeared, and
   the bounds of the successful polls that queried while it was there - the first of them, and the lowest.
   */
  datatype Sighting = Sighting(row: Row, gone: bool, early: bool, first: Option<Time>, lowest: Option<Time>)

  /** A poll between its query and the end of its write: the bound it queried with, and what the source held then. */
  datatype Reading = Reading(since: Time, view: seq<Sighting>)

  datatype State = State(sightings: seq<Sighting>, table: seq<Row>, watermark: Option<Time>, poll: Option<Reading>)

  /** Rows come and go at any moment, also between a poll's query and its end; a failed query or write is an end that fails. */
  datatype Step = Appear(row: Row) | Leave(i: nat) | BeginPoll(sampledAt: Time) | EndPoll(succeeds: bool)

  /** The rows the source holds. */
  function Visible(sightings: seq<Sighting>): seq<Row> {
    if sightings == [] then []
    else
      var front, g := Visible(sightings[..|sightings| - 1]), sightings[|sightings| - 1];
      if g.gone then front else front + [g.row]
  }

  predicate Shown(sightings: seq<Sighting>, k: Key) {
    exists i :: 0 <= i < |sightings| && KeyOf(sightings[i].row) == k
  }

  predicate SeenBy(r: Reading, i: nat) {
    i < |r.view| && !r.view[i].gone
  }

  /** A sighting after a successful poll. */
  function Marked(g: Sighting, since: Time): Sighting {
    g.(first := if g.first.None? then Some(since) else g.first, lowest := Earlier(g.lowest, Some(since)))
  }

  function MarkAll(sightings: seq<Sighting>, r: Reading): seq<Sighting> {
    seq(|sightings|, i requires 0 <= i < |sightings| => if SeenBy(r, i) then Marked(sightings[i], r.since) else sightings[i])
  }

  function Read(r: Reading): seq<Row> {
    Query(Visible(r.view), r.since)
  }

  /** The write, and after it the watermark. */
  function Ended(s: State, r: Reading, database: string): State {
    var latest := Latest(Read(r), database);
    State(MarkAll(s.sightings, r), InsertAll(s.table, Read(r)), if latest.Some? then latest else s.watermark, None)
  }

  function Apply(s: State, step: Step, database: string, interval: int): State {
    match step
    case Appear(row) =>
      if row.database != database || Shown(s.sightings, KeyOf(row)) then s
      else s.(sightings := s.sightings + [Sighting(row, false, Present(s.table, KeyOf(row)), None, None)])
    case Leave(i) =>
      if i >= |s.sightings| then s else s.(sightings := s.sightings[i := s.sightings[i].(gone := true)])
    case BeginPoll(sampledAt) =>
      if s.poll.Some? then s else s.(poll := Some(Reading(Since(s.watermark, sampledAt, interval), s.sightings)))
    case EndPoll(succeeds) =>
      if s.poll.None? then s else if !succeeds then s.(poll := None) else Ended(s, s.poll.value, database)
  }

  function Run(start: State, steps: seq<Step>, database: string, interval: int): State {
    if steps == [] then start
    else Apply(Run(start, steps[..|steps| - 1], database, interval), steps[|steps| - 1], database, interval)
  }

  /** No row shown yet, no poll under way, and a table without duplicates; there may be a watermark or not. */
  ghost predicate Start(s: State) {
    && s.sightings == [] && s.poll.None?
    && (s.watermark.Some? ==> s.watermark.value > ZERO_TIME)
    && forall k :: Stored(s.table, k) <= 1
  }

  ghost predicate DistinctKeys(sightings: seq<Sighting>) {
    forall i, j | 0 <= i < j < |sightings| :: KeyOf(sightings[i].row) != KeyOf(sightings[j].row)
  }

  /** Some successful poll queried past the row's time while the row was there. */
  predicate Caught(g: Sighting) {
    g.lowest.Some? && g.row.at > g.lowest.value
  }

  ghost predicate Accounted(g: Sighting, table: seq<Row>, database: string) {
    && g.row.database == database
    && (g.first.None? <==> g.lowest.None?)
    && (Stored(table, KeyOf(g.row)) > 0 <==> g.early || Caught(g))
  }

  /** A poll under way has seen what the source has shown first, under the watermark still in force. */
  ghost predicate ReadingOk(r: Reading, s: State, interval: int) {
    && |r.view| <= |s.sightings|
    && (forall i | 0 <= i < |r.view| :: r.view[i].row == s.sightings[i].row)
    && (s.watermark.Some? ==> r.since == s.watermark.value - interval)
  }

  ghost predicate Inv(s: State, database: string, interval: int) {
    && DistinctKeys(s.sightings)
    && (forall k :: Stored(s.table, k) <= 1)
    && (forall i | 0 <= i < |s.sightings| :: Accounted(s.sightings[i], s.table, database))
    && (s.watermark.Some? ==> s.watermark.value > ZERO_TIME)
    && (s.poll.Some? ==> ReadingOk(s.poll.value, s, interval))
  }

  lemma {:induction false} VisibleMeans(sightings: seq<Sighting>, row: Row)
    ensures row in Visible(sightings) <==> exists i :: 0 <= i < |sightings| && !sightings[i].gone && sightings[i].row == row
  {
    if sightings != [] {
      var n := |sightings| - 1;
      VisibleMeans(sightings[..n], row);
      assert forall i | 0 <= i < n :: sightings[..n][i] == sightings[i];
    }
  }

  /** A poll reads a row exactly if it was there at the query, past the bound. */
  lemma ReadMeans(s: State, r: Reading, interval: int, i: nat)
    requires ReadingOk(r, s, interval) && DistinctKeys(s.sightings) && i < |s.sightings|
    ensures Present(Read(r), KeyOf(s.sightings[i].row)) <==> SeenBy(r, i) && s.sightings[i].row.at > r.since
  {
    var row := s.sightings[i].row;
    QueryMeaning(Visible(r.view), r.since, row);
    VisibleMeans(r.view, row);
    if Present(Read(r), KeyOf(row)) {
      var other :| other in Read(r) && KeyOf(other) == KeyOf(row);
      QueryMeaning(Visible(r.view), r.since, other);
      VisibleMeans(r.view, other);
      var j :| 0 <= j < |r.view| && !r.view[j].gone && r.view[j].row == other;
      assert j == i;
    }
  }

  lemma MarkKeepsAccount(g: Sighting, table: seq<Row>, table': seq<Row>, seen: bool, since: Time, database: string)
    requires Accounted(g, table, database)
    requires Stored(table', KeyOf(g.row)) > 0 <==> Stored(table, KeyOf(g.row)) > 0 || (seen && g.row.at > since)
    ensures Accounted(if seen then Marked(g, since) else g, table', database)
  {
  }

  lemma {:induction false} InsertAllKeepsUnique(table: seq<Row>, rows: seq<Row>)
    requires forall k :: Stored(table, k) <= 1
    ensures forall k :: Stored(InsertAll(table, rows), k) <= 1
  {
    forall k
      ensures Stored(InsertAll(table, rows), k) <= 1
    {
      InsertAllStores(table, rows, k);
    }
  }

  lemma PollKeepsInv(s: State, database: string, interval: int)
    requires Inv(s, database, interval) && s.poll.Some?
    ensures Inv(Ended(s, s.poll.value, database), database, interval)
  {
    var r := s.poll.value;
    var s' := Ended(s, r, database);
    InsertAllKeepsUnique(s.table, Read(r));
    LatestMeaning(Read(r), database);
    forall i | 0 <= i < |s'.sightings|
      ensures Accounted(s'.sightings[i], s'.table, database)
    {
      ReadMeans(s, r, interval, i);
      InsertAllStores(s.table, Read(r), KeyOf(s.sightings[i].row));
      MarkKeepsAccount(s.sightings[i], s.table, s'.table, SeenBy(r, i), r.since, database);
    }
  }

  lemma AppearKeepsInv(s: State, row: Row, database: string, interval: int)
    requires Inv(s, database, interval)
    ensures Inv(Apply(s, Appear(row), database, interval), database, interval)
  {
    StoredMeaning(s.table, KeyOf(row));
  }

  lemma StepKeepsInv(s: State, step: Step, database: string, interval: int)
    requires Inv(s, database, interval)
    ensures Inv(Apply(s, step, database, interval), database, interval)
  {
    match step
    case Appear(row) => AppearKeepsInv(s, row, database, interval);
    case EndPoll(succeeds) =>
      if s.poll.Some? && succeeds {
        PollKeepsInv(s, database, interval);
      }
    case _ =>
  }

  lemma {:induction false} RunKeepsInv(start: State, steps: seq<Step>, database: string, interval: int)
    requires Inv(start, database, interval)
    ensures Inv(Run(start, steps, database, interval), database, interval)
  {
    if steps != [] {
      RunKeepsInv(start, steps[..|steps| - 1], database, interval);
      StepKeepsInv(Run(start, steps[..|steps| - 1], database, interval), steps[|steps| - 1], database, interval);
    }
  }

  /**
   Stored once or not at all. In every reachable state, whatever appears and leaves in whatever gap and
   whatever fails: a row shown is stored exactly once if its key was stored before or some successful poll
   that queried while the row was there had a bound below its time, and otherwise not at all.
   */
  lemma StoredOnceIffCaught(start: State, steps: seq<Step>, database: string, interval: int, g: Sighting)
    requires Start(start) && g in Run(start, steps, database, interval).sightings
    ensures Stored(Run(start, steps, database, interval).table, KeyOf(g.row)) == if g.early || Caught(g) then 1 else 0
  {
    RunKeepsInv(start, steps, database, interval);
    var s := Run(start, steps, database, interval);
    var i :| 0 <= i < |s.sightings| && s.sightings[i] == g;
    assert Accounted(g, s.table, database) && Stored(s.table, KeyOf(g.row)) <= 1;
  }

  // ---- When the watermark holds ----

  /** Some row is at or past the watermark, or none is past the bound. */
  ghost predicate HoldsWatermark(rows: seq<Row>, w: Time, interval: int) {
    (exists row | row in rows :: row.at >= w) || forall row | row in rows :: row.at <= Max(ZERO_TIME, w - interval)
  }

  /** A successful poll does not lower the watermark exactly if what it queried holds it. */
  lemma PollKeepsWatermarkIff(s: State, database: string, interval: int)
    requires Inv(s, database, interval) && interval > 0 && s.poll.Some? && s.watermark.Some?
    ensures OrZero(Ended(s, s.poll.value, database).watermark) >= s.watermark.value <==>
            HoldsWatermark(Visible(s.poll.value.view), s.watermark.value, interval)
  {
    var r, w := s.poll.value, s.watermark.value;
    var rows := Visible(r.view);
    ReadIsPastBound(r);
    ViewIsOwn(s, database, interval);
    LatestMeaning(Read(r), database);
    if row :| row in rows && row.at >= w {
      assert row in Read(r) && row.database == database;
    }
  }

  lemma ReadIsPastBound(r: Reading)
    ensures forall row :: row in Read(r) <==> row in Visible(r.view) && row.at > r.since
  {
    forall row
      ensures row in Read(r) <==> row in Visible(r.view) && row.at > r.since
    {
      QueryMeaning(Visible(r.view), r.since, row);
    }
  }

  lemma ViewIsOwn(s: State, database: string, interval: int)
    requires Inv(s, database, interval) && s.poll.Some?
    ensures forall row | row in Visible(s.poll.value.view) :: row.database == database
  {
    var view := s.poll.value.view;
    forall row | row in Visible(view)
      ensures row.database == database
    {
      VisibleMeans(view, row);
      var i :| 0 <= i < |view| && view[i].row == row;
      assert Accounted(s.sightings[i], s.table, database);
    }
  }

  /** A step that lets the watermark down is a successful poll; and then just if its rows do not hold it. */
  ghost predicate Lowers(s: State, step: Step, interval: int) {
    && step == EndPoll(true) && s.poll.Some? && s.watermark.Some?
    && !HoldsWatermark(Visible(s.poll.value.view), s.watermark.value, interval)
  }

  lemma StepLowersIff(s: State, step: Step, database: string, interval: int)
    requires Inv(s, database, interval) && interval > 0
    ensures OrZero(Apply(s, step, database, interval).watermark) < OrZero(s.watermark) <==> Lowers(s, step, interval)
  {
    if step == EndPoll(true) && s.poll.Some? {
      LatestMeaning(Read(s.poll.value), database);
      if s.watermark.Some? {
        PollKeepsWatermarkIff(s, database, interval);
      }
    }
  }

  ghost predicate LowersAt(start: State, steps: seq<Step>, i: nat, database: string, interval: int)
    requires i < |steps|
  {
    Lowers(Run(start, steps[..i], database, interval), steps[i], interval)
  }

  ghost predicate FallsAt(start: State, steps: seq<Step>, i: nat, database: string, interval: int)
    requires i < |steps|
  {
    OrZero(Run(start, steps[..i + 1], database, interval).watermark)
    < OrZero(Run(start, steps[..i], database, interval).watermark)
  }

  ghost predicate NeverLowers(start: State, steps: seq<Step>, database: string, interval: int) {
    forall i | 0 <= i < |steps| :: !LowersAt(start, steps, i, database, interval)
  }

  ghost predicate NeverFalls(start: State, steps: seq<Step>, database: string, interval: int) {
    forall i | 0 <= i < |steps| :: !FallsAt(start, steps, i, database, interval)
  }

  /** Over any run, with any failures, the watermark never decreases exactly if every successful poll's rows held it. */
  lemma WatermarkNeverDecreasesIff(start: State, steps: seq<Step>, database: string, interval: int)
    requires Inv(start, database, interval) && interval > 0
    ensures NeverFalls(start, steps, database, interval) <==> NeverLowers(start, steps, database, interval)
  {
    forall i | 0 <= i < |steps|
      ensures FallsAt(start, steps, i, database, interval) <==> LowersAt(start, steps, i, database, interval)
    {
      assert steps[..i + 1][..i] == steps[..i];
      RunKeepsInv(start, steps[..i], database, interval);
      StepLowersIff(Run(start, steps[..i], database, interval), steps[i], database, interval);
    }
  }

  // ---- While no row leaves ----

  ghost predicate NoneLeaves(steps: seq<Step>) {
    forall step | step in steps :: !step.Leave?
  }

  ghost predicate Reaches(sightings: seq<Sighting>, w: Time) {
    exists i :: 0 <= i < |sightings| && !sightings[i].gone && sightings[i].row.at >= w
  }

  /** A watermark is set, a visible row is at or past it, and what a poll under way has seen is still there. */
  ghost predicate Anchored(s: State) {
    && s.watermark.Some? && Reaches(s.sightings, s.watermark.value)
    && (s.poll.Some? ==>
        && Reaches(s.poll.value.view, s.watermark.value)
        && forall i | 0 <= i < |s.poll.value.view| && i < |s.sightings| :: s.poll.value.view[i].gone == s.sightings[i].gone)
  }

  lemma ReachingHolds(sightings: seq<Sighting>, w: Time, interval: int)
    requires Reaches(sightings, w)
    ensures HoldsWatermark(Visible(sightings), w, interval)
  {
    var i :| 0 <= i < |sightings| && !sightings[i].gone && sightings[i].row.at >= w;
    VisibleMeans(sightings, sightings[i].row);
  }

  /** The watermark a poll sets is the time of a row that is still there. */
  lemma PollStaysAnchored(s: State, database: string, interval: int)
    requires Inv(s, database, interval) && Anchored(s) && s.poll.Some?
    ensures Anchored(Ended(s, s.poll.value, database))
  {
    var r := s.poll.value;
    var s' := Ended(s, r, database);
    LatestMeaning(Read(r), database);
    if Latest(Read(r), database).Some? {
      var row :| row in Read(r) && row.at == s'.watermark.value;
      ReadIsPastBound(r);
      VisibleMeans(r.view, row);
      var i :| 0 <= i < |r.view| && !r.view[i].gone && r.view[i].row == row;
      assert !s'.sightings[i].gone && s'.sightings[i].row.at >= s'.watermark.value;
    } else {
      var i :| 0 <= i < |s.sightings| && !s.sightings[i].gone && s.sightings[i].row.at >= s.watermark.value;
      assert !s'.sightings[i].gone && s'.sightings[i].row == s.sightings[i].row;
    }
  }

  lemma StepStaysAnchored(s: State, step: Step, database: string, interval: int)
    requires Inv(s, database, interval) && Anchored(s) && !step.Leave?
    ensures Anchored(Apply(s, step, database, interval)) && !Lowers(s, step, interval)
  {
    if s.poll.Some? {
      ReachingHolds(s.poll.value.view, s.watermark.value, interval);
    }
    match step
    case Appear(row) =>
      var i :| 0 <= i < |s.sightings| && !s.sightings[i].gone && s.sightings[i].row.at >= s.watermark.value;
      assert Apply(s, step, database, interval).sightings[i] == s.sightings[i];
    case EndPoll(succeeds) =>
      if s.poll.Some? && succeeds {
        PollStaysAnchored(s, database, interval);
      }
    case _ =>
  }

  lemma {:induction false} RunStaysAnchored(s: State, steps: seq<Step>, database: string, interval: int)
    requires Inv(s, database, interval) && Anchored(s) && NoneLeaves(steps)
    ensures Anchored(Run(s, steps, database, interval)) && NeverLowers(s, steps, database, interval)
  {
    if steps != [] {
      var front, last := steps[..|steps| - 1], steps[|steps| - 1];
      RunStaysAnchored(s, front, database, interval);
      RunKeepsInv(s, front, database, interval);
      StepStaysAnchored(Run(s, front, database, interval), last, database, interval);
      forall i | 0 <= i < |steps|
        ensures !LowersAt(s, steps, i, database, interval)
      {
        if i < |front| {
          assert front[..i] == steps[..i] && !LowersAt(s, front, i, database, interval);
        }
      }
    }
  }

  /** Once a watermark is set from a row that is there, and while no row leaves, the watermark never decreases. */
  lemma WatermarkNeverDecreases(s: State, steps: seq<Step>, database: string, interval: int)
    requires Inv(s, database, interval) && interval > 0 && Anchored(s) && NoneLeaves(steps)
    ensures NeverFalls(s, steps, database, interval)
  {
    RunStaysAnchored(s, steps, database, interval);
    WatermarkNeverDecreasesIff(s, steps, database, interval);
  }

  /** The first bound a row was queried for with, if there was one, is the lowest, and no bound to come is lower. */
  ghost predicate FirstDecides(g: Sighting, watermark: Option<Time>, interval: int) {
    && g.first == g.lowest
    && (g.first.Some? ==> watermark.Some? && g.first.value <= watermark.value - interval)
  }

  /** Of sighting n, if it is one. */
  ghost predicate FirstDecidesAt(s: State, n: nat, interval: int) {
    n < |s.sightings| ==> FirstDecides(s.sightings[n], s.watermark, interval)
  }

  lemma StepKeepsFirst(s: State, step: Step, n: nat, database: string, interval: int)
    requires Inv(s, database, interval) && interval > 0 && Anchored(s) && FirstDecidesAt(s, n, interval) && !step.Leave?
    ensures FirstDecidesAt(Apply(s, step, database, interval), n, interval)
  {
    StepStaysAnchored(s, step, database, interval);
    StepLowersIff(s, step, database, interval);
  }

  lemma {:induction false} RunKeepsFirst(s: State, steps: seq<Step>, n: nat, database: string, interval: int)
    requires Inv(s, database, interval) && interval > 0 && Anchored(s) && FirstDecidesAt(s, n, interval) && NoneLeaves(steps)
    ensures FirstDecidesAt(Run(s, steps, database, interval), n, interval)
  {
    if steps != [] {
      var front, last := steps[..|steps| - 1], steps[|steps| - 1];
      RunKeepsFirst(s, front, n, database, interval);
      RunKeepsInv(s, front, database, interval);
      RunStaysAnchored(s, front, database, interval);
      StepKeepsFirst(Run(s, front, database, interval), last, n, database, interval);
    }
  }

  /** Past the bound of the first successful poll that queried while the row was there. */
  predicate InTime(g: Sighting) {
    g.first.Some? && g.row.at > g.first.value
  }

  /**
   Exactly once. Once a watermark is set from a row that is there, and while no row leaves, over any polls with
   any failures and any rows appearing in between: a row that no poll has queried for yet, in particular any that
   appears later, is stored exactly once if its key was stored before or its time is past watermark - interval
   for the watermark of the first successful poll that queried after it appeared, and otherwise not at all.
   */
  lemma ExactlyOnceIffInTime(s: State, steps: seq<Step>, n: nat, database: string, interval: int)
    requires Inv(s, database, interval) && interval > 0 && Anchored(s) && FirstDecidesAt(s, n, interval) && NoneLeaves(steps)
    requires n < |Run(s, steps, database, interval).sightings|
    ensures var s' := Run(s, steps, database, interval);
            var g := s'.sightings[n];
            Stored(s'.table, KeyOf(g.row)) == if g.early || InTime(g) then 1 else 0
  {
    RunKeepsInv(s, steps, database, interval);
    RunKeepsFirst(s, steps, n, database, interval);
    var s' := Run(s, steps, database, interval);
    var g := s'.sightings[n];
    assert Accounted(g, s'.table, database) && Stored(s'.table, KeyOf(g.row)) <= 1;
  }

  // ---- From the start of a process ----

  /** Before a watermark is set, what a poll under way has seen is still there; then the state is anchored. */
  ghost predicate AnchoredOnceSet(s: State) {
    if s.watermark.Some? then Anchored(s)
    else
      s.poll.Some? ==>
        forall i | 0 <= i < |s.poll.value.view| && i < |s.sightings| :: s.poll.value.view[i].gone == s.sightings[i].gone
  }

  /** The first successful poll to read a row sets the watermark to the time of a row that is there. */
  lemma FirstPollAnchors(s: State, database: string, interval: int)
    requires Inv(s, database, interval) && s.watermark.None? && AnchoredOnceSet(s) && s.poll.Some?
    ensures AnchoredOnceSet(Ended(s, s.poll.value, database))
  {
    var r := s.poll.value;
    var s' := Ended(s, r, database);
    LatestMeaning(Read(r), database);
    if Latest(Read(r), database).Some? {
      var row :| row in Read(r) && row.at == s'.watermark.value;
      ReadIsPastBound(r);
      VisibleMeans(r.view, row);
      var i :| 0 <= i < |r.view| && !r.view[i].gone && r.view[i].row == row;
      assert !s'.sightings[i].gone && s'.sightings[i].row.at >= s'.watermark.value;
    }
  }

  lemma StartHasInv(start: State, database: string, interval: int)
    requires Start(start)
    ensures Inv(start, database, interval)
  {
  }

  /** A process starts with no watermark; while no row leaves, every state it reaches with one is anchored. */
  lemma {:induction false} ColdStartIsAnchored(start: State, steps: seq<Step>, database: string, interval: int)
    requires Start(start) && start.watermark.None? && NoneLeaves(steps)
    ensures AnchoredOnceSet(Run(start, steps, database, interval))
  {
    if steps != [] {
      var front, last := steps[..|steps| - 1], steps[|steps| - 1];
      ColdStartIsAnchored(start, front, database, interval);
      StartHasInv(start, database, interval);
      RunKeepsInv(start, front, database, interval);
      var s := Run(start, front, database, interval);
      if s.watermark.Some? {
        StepStaysAnchored(s, last, database, interval);
      } else if last == EndPoll(true) && s.poll.Some? {
        FirstPollAnchors(s, database, interval);
      }
    }
  }

  /** From the start of a process, while no row leaves, the watermark never decreases. */
  lemma ColdStartNeverDecreases(start: State, steps: seq<Step>, database: string, interval: int)
    requires Start(start) && start.watermark.None? && interval > 0 && NoneLeaves(steps)
    ensures NeverFalls(start, steps, database, interval)
  {
    StartHasInv(start, database, interval);
    forall i | 0 <= i < |steps|
      ensures !LowersAt(start, steps, i, database, interval)
    {
      var s := Run(start, steps[..i], database, interval);
      ColdStartIsAnchored(start, steps[..i], database, interval);
      RunKeepsInv(start, steps[..i], database, interval);
      if s.watermark.Some? {
        StepStaysAnchored(s, steps[i], database, interval);
      }
    }
    WatermarkNeverDecreasesIff(start, steps, database, interval);
  }

  lemma RunConcatenation(start: State, a: seq<Step>, b: seq<Step>, database: string, interval: int)
    ensures Run(start, a + b, database, interval) == Run(Run(start, a, database, interval), b, database, interval)
  {
    if b == [] {
      assert a + b == a;
    } else {
      assert (a + b)[..|a + b| - 1] == a + b[..|b| - 1];
      RunConcatenation(start, a, b[..|b| - 1], database, interval);
    }
  }

  /**
   From the start of a process, while no row leaves: every row that no successful poll has queried for by the time
   a watermark is set is stored exactly once iff it was stored before or is in time, and otherwise not at all.
   */
  lemma ColdStartExactlyOnce(start: State, before: seq<Step>, after: seq<Step>, n: nat, database: string, interval: int)
    requires Start(start) && start.watermark.None? && interval > 0 && NoneLeaves(before) && NoneLeaves(after)
    requires var s := Run(start, before, database, interval);
             s.watermark.Some? && (n < |s.sightings| ==> s.sightings[n].first.None?)
    requires n < |Run(start, before + after, database, interval).sightings|
    ensures var s' := Run(start, before + after, database, interval);
            var g := s'.sightings[n];
            Stored(s'.table, KeyOf(g.row)) == if g.early || InTime(g) then 1 else 0
  {
    var s := Run(start, before, database, interval);
    StartHasInv(start, database, interval);
    RunKeepsInv(start, before, database, interval);
    ColdStartIsAnchored(start, before, database, interval);
    RunConcatenation(start, before, after, database, interval);
    if n < |s.sightings| {
      assert Accounted(s.sightings[n], s.table, database);
    }
    ExactlyOnceIffInTime(s, after, n, database, interval);
  }

  lemma RunOneMore(start: State, steps: seq<Step>, step: Step, database: string, interval: int)
    ensures Run(start, steps + [step], database, interval) ==
            Apply(Run(start, steps, database, interval), step, database, interval)
  {
    assert (steps + [step])[..|steps|] == steps;
  }

  // ---- Three runs that go wrong ----

  function At(at: Time): Row {
    Row(at, "orcl", 1, 1, 1, None, "")
  }

  lemma VisibleOneMore(sightings: seq<Sighting>, g: Sighting)
    ensures Visible(sightings + [g]) == if g.gone then Visible(sightings) else Visible(sightings) + [g.row]
  {
    assert (sightings + [g])[..|sightings|] == sightings;
  }

  lemma QueryOneMore(rows: seq<Row>, row: Row, since: Time)
    ensures Query(rows + [row], since) == if row.at > since then Query(rows, since) + [row] else Query(rows, since)
    ensures Latest(rows + [row], row.database) ==
            if row.at > OrZero(Latest(rows, row.database)) then Some(row.at) else Latest(rows, row.database)
  {
    assert (rows + [row])[..|rows|] == rows;
  }

  lemma OneRowRead(row: Row, since: Time)
    requires row.at > since && row.at > ZERO_TIME
    ensures Query([row], since) == [row] && Latest([row], row.database) == Some(row.at)
  {
    QueryOneMore([], row, since);
    assert [] + [row] == [row];
  }

  function New(row: Row): Sighting {
    Sighting(row, false, false, None, None)
  }

  lemma Appears(s: State, row: Row, interval: int)
    requires row.database == "orcl" && !Shown(s.sightings, KeyOf(row)) && !Present(s.table, KeyOf(row))
    ensures Apply(s, Appear(row), "orcl", interval) == s.(sightings := s.sightings + [New(row)])
  {
  }

  const MISSED_START := State([], [], Some(100), None)

  const MISSED_STEPS := [] + [Appear(At(150))] + [BeginPoll(0)] + [Appear(At(95))]

  /** Up to the moment between the poll's query and its write. */
  lemma MissedSoFar()
    ensures Run(MISSED_START, MISSED_STEPS, "orcl", 10) ==
            State([New(At(150)), New(At(95))], [], Some(100), Some(Reading(90, [New(At(150))])))
  {
    var start, a := MISSED_START, [] + [Appear(At(150))];
    var b := a + [BeginPoll(0)];
    RunOneMore(start, [], Appear(At(150)), "orcl", 10);
    Appears(start, At(150), 10);
    assert [] + [New(At(150))] == [New(At(150))];
    RunOneMore(start, a, BeginPoll(0), "orcl", 10);
    RunOneMore(start, b, Appear(At(95)), "orcl", 10);
    Appears(Run(start, b, "orcl", 10), At(95), 10);
    assert [New(At(150))] + [New(At(95))] == [New(At(150)), New(At(95))];
  }

  /**
   A poll queries under watermark 100 and reads a row at 150. Before its write ends a row at 95 appears - past
   100 - 10, yet every later poll asks from 140 on, and it is never stored.
   */
  lemma RowBetweenReadAndWriteIsMissed()
    ensures var s := Run(MISSED_START, MISSED_STEPS + [EndPoll(true)] + [BeginPoll(0)] + [EndPoll(true)], "orcl", 10);
            && Start(MISSED_START) && |s.sightings| == 2 && s.sightings[1].row == At(95) && !s.sightings[1].gone
            && s.sightings[1].first == Some(140) && 95 > 100 - 10
            && Stored(s.table, KeyOf(At(95))) == 0
  {
    var g, late := Marked(New(At(150)), 90), New(At(95));
    MissedNext();
    RunOneMore(MISSED_START, MISSED_STEPS + [EndPoll(true)] + [BeginPoll(0)], EndPoll(true), "orcl", 10);
    SecondPollReads(g, late, Reading(140, [g, late]));
  }

  /** The first poll has ended, and the second has queried. */
  lemma MissedNext()
    ensures var g, late := Marked(New(At(150)), 90), New(At(95));
            Run(MISSED_START, MISSED_STEPS + [EndPoll(true)] + [BeginPoll(0)], "orcl", 10) ==
            State([g, late], [At(150)], Some(150), Some(Reading(140, [g, late])))
  {
    MissedSoFar();
    RunOneMore(MISSED_START, MISSED_STEPS, EndPoll(true), "orcl", 10);
    FirstPollReads(New(At(150)), New(At(95)), Reading(90, [New(At(150))]));
    RunOneMore(MISSED_START, MISSED_STEPS + [EndPoll(true)], BeginPoll(0), "orcl", 10);
  }

  lemma FirstPollReads(g: Sighting, late: Sighting, r: Reading)
    requires g == Sighting(At(150), false, false, None, None) && r == Reading(90, [g])
    ensures Ended(State([g, late], [], Some(100), Some(r)), r, "orcl") == State([Marked(g, 90), late], [At(150)], Some(150), None)
  {
    VisibleOneMore([], g);
    assert [] + [g] == [g] && [] + [At(150)] == [At(150)] && Visible([g]) == [At(150)];
    OneRowRead(At(150), 90);
    assert [At(150)][..0] == [] && InsertAll([], [At(150)]) == [At(150)];
  }

  lemma SecondPollReads(g: Sighting, late: Sighting, r: Reading)
    requires g.row == At(150) && late.row == At(95) && !g.gone && !late.gone && late.first.None? && late.lowest.None?
    requires r == Reading(140, [g, late])
    ensures var s := Ended(State([g, late], [At(150)], Some(150), Some(r)), r, "orcl");
            && s.sightings == [Marked(g, 140), Marked(late, 140)] && s.table == [At(150)]
            && Stored(s.table, KeyOf(At(95))) == 0
  {
    VisibleOneMore([], g);
    VisibleOneMore([g], late);
    assert [] + [g] == [g] && [g] + [late] == [g, late] && [] + [At(150)] == [At(150)];
    QueryOneMore([At(150)], At(95), 140);
    OneRowRead(At(150), 140);
    assert Read(r) == [At(150)];
    assert [At(150)][..0] == [] && InsertAll([At(150)], []) == [At(150)];
    assert Present([At(150)], KeyOf(At(150)));
    assert InsertAll([At(150)], [At(150)]) == [At(150)];
    assert Stored([], KeyOf(At(95))) == 0;
  }

  const COLD_START := State([], [], None, None)

  const COLD_STEPS := [] + [Appear(At(20))] + [Appear(At(5))] + [BeginPoll(10 + FIRST_LOOKBACK)]

  /** The first poll of a process has queried, two minutes back from 10 nanoseconds later. */
  lemma ColdSoFar()
    ensures Run(COLD_START, COLD_STEPS, "orcl", 60) ==
            State([New(At(20)), New(At(5))], [], None, Some(Reading(10, [New(At(20)), New(At(5))])))
  {
    var a := [] + [Appear(At(20))];
    var b := a + [Appear(At(5))];
    RunOneMore(COLD_START, [], Appear(At(20)), "orcl", 60);
    Appears(COLD_START, At(20), 60);
    assert [] + [New(At(20))] == [New(At(20))];
    RunOneMore(COLD_START, a, Appear(At(5)), "orcl", 60);
    Appears(Run(COLD_START, a, "orcl", 60), At(5), 60);
    assert [New(At(20))] + [New(At(5))] == [New(At(20)), New(At(5))];
    RunOneMore(COLD_START, b, BeginPoll(10 + FIRST_LOOKBACK), "orcl", 60);
  }

  lemma TwoRowsRead(g: Sighting, late: Sighting, since: Time)
    requires g.row == At(20) && late.row == At(5) && !g.gone && !late.gone && since < 20
    ensures Read(Reading(since, [g, late])) == if since < 5 then [At(20), At(5)] else [At(20)]
    ensures Latest(Read(Reading(since, [g, late])), "orcl") == Some(20)
  {
    VisibleOneMore([], g);
    VisibleOneMore([g], late);
    assert [] + [g] == [g] && [g] + [late] == [g, late] && [] + [At(20)] == [At(20)];
    assert [At(20)] + [At(5)] == [At(20), At(5)];
    QueryOneMore([At(20)], At(5), since);
    OneRowRead(At(20), since);
  }

  lemma ColdPollEnds(g: Sighting, late: Sighting, r: Reading)
    requires g == New(At(20)) && late == New(At(5)) && r == Reading(10, [g, late])
    ensures Ended(State([g, late], [], None, Some(r)), r, "orcl") ==
            State([Marked(g, 10), Marked(late, 10)], [At(20)], Some(20), None)
  {
    TwoRowsRead(g, late, 10);
    assert [At(20)][..0] == [] && InsertAll([], [At(20)]) == [At(20)];
  }

  /** It read one row and set the watermark; the second poll has queried, a whole interval back from that. */
  lemma ColdNext()
    ensures var g, late := Marked(New(At(20)), 10), Marked(New(At(5)), 10);
            Run(COLD_START, COLD_STEPS + [EndPoll(true)] + [BeginPoll(0)], "orcl", 60) ==
            State([g, late], [At(20)], Some(20), Some(Reading(-40, [g, late])))
  {
    ColdSoFar();
    RunOneMore(COLD_START, COLD_STEPS, EndPoll(true), "orcl", 60);
    ColdPollEnds(New(At(20)), New(At(5)), Reading(10, [New(At(20)), New(At(5))]));
    RunOneMore(COLD_START, COLD_STEPS + [EndPoll(true)], BeginPoll(0), "orcl", 60);
  }

  /**
   A process's first poll asks from two minutes back, and its second from an interval before the latest row, which
   can be earlier: with an interval of 60, rows at 20 and 5 and a first bound of 10, row 5 is passed over by the first
   poll, so it is not in time, and stored by the second.
   */
  lemma RowPassedOverIsStoredLater()
    ensures var s := Run(COLD_START, COLD_STEPS + [EndPoll(true)] + [BeginPoll(0)] + [EndPoll(true)], "orcl", 60);
            && Start(COLD_START) && |s.sightings| == 2 && s.sightings[1].row == At(5)
            && !s.sightings[1].early && !InTime(s.sightings[1]) && Stored(s.table, KeyOf(At(5))) == 1
  {
    var g, late := Marked(New(At(20)), 10), Marked(New(At(5)), 10);
    ColdNext();
    RunOneMore(COLD_START, COLD_STEPS + [EndPoll(true)] + [BeginPoll(0)], EndPoll(true), "orcl", 60);
    TwoRowsRead(g, late, -40);
    InsertAllStores([At(20)], [At(20), At(5)], KeyOf(At(5)));
    assert [At(20)][..0] == [] && Stored([], KeyOf(At(5))) == 0;
    assert [At(20), At(5)][1] == At(5);
  }

  /** If the row that set the watermark leaves the source, one late row pulls the watermark back, from 100 to 95. */
  lemma WatermarkFallsIfRowsLeave()
    ensures var start := State([], [], Some(100), None);
            var steps := [] + [Appear(At(100))] + [Appear(At(95))] + [Leave(0)] + [BeginPoll(0)] + [EndPoll(true)];
            && Start(start) && Run(start, steps[..4], "orcl", 10).watermark == Some(100)
            && Run(start, steps, "orcl", 10).watermark == Some(95)
  {
    var start := State([], [], Some(100), None);
    var a := [] + [Appear(At(100))];
    var b := a + [Appear(At(95))];
    var c := b + [Leave(0)];
    var d := c + [BeginPoll(0)];
    var left, late := New(At(100)).(gone := true), New(At(95));
    RunOneMore(start, [], Appear(At(100)), "orcl", 10);
    Appears(start, At(100), 10);
    assert [] + [New(At(100))] == [New(At(100))];
    RunOneMore(start, a, Appear(At(95)), "orcl", 10);
    Appears(Run(start, a, "orcl", 10), At(95), 10);
    RunOneMore(start, b, Leave(0), "orcl", 10);
    assert ([New(At(100))] + [late])[0 := left] == [left] + [late];
    RunOneMore(start, c, BeginPoll(0), "orcl", 10);
    RunOneMore(start, d, EndPoll(true), "orcl", 10);
    LateRowRead(left, late);
    assert (d + [EndPoll(true)])[..4] == d;
  }

  lemma LateRowRead(left: Sighting, late: Sighting)
    requires left.gone && late == New(At(95))
    ensures Read(Reading(90, [left] + [late])) == [At(95)] && Latest([At(95)], "orcl") == Some(95)
  {
    VisibleOneMore([], left);
    VisibleOneMore([left], late);
    assert [] + [left] == [left] && [] + [At(95)] == [At(95)];
    OneRowRead(At(95), 90);
  }

  // ---- Databases do not disturb each other ----

  function Of(rows: seq<Row>, database: string): seq<Row> {
    if rows == [] then []
    else
      var front, row := Of(rows[..|rows| - 1], database), rows[|rows| - 1];
      if row.database == database then front + [row] else front
  }

  lemma {:induction false} OfMeaning(rows: seq<Row>, database: string, k: Key)
    requires k.database == database
    ensures Present(Of(rows, database), k) <==> Present(rows, k)
  {
    if rows != [] {
      var front, last := rows[..|rows| - 1], rows[|rows| - 1];
      assert rows == front + [last];
      OfMeaning(front, database, k);
      assert Present(rows, k) <==> Present(front, k) || KeyOf(last) == k;
      assert Present(Of(front, database) + [last], k) <==> Present(Of(front, database), k) || KeyOf(last) == k;
    }
  }

  /**
   The single-database run is what each database sees of the shared one: the part of a joint write that
   belongs to a database is that database's own write.
   */
  lemma {:induction false} JointWriteProjects(table: seq<Row>, rows: seq<Row>, database: string)
    ensures Of(InsertAll(table, rows), database) == InsertAll(Of(table, database), Of(rows, database))
    ensures Latest(rows, database) == Latest(Of(rows, database), database)
  {
    if rows != [] {
      var front, last := rows[..|rows| - 1], rows[|rows| - 1];
      JointWriteProjects(table, front, database);
      var before := InsertAll(table, front);
      assert (before + [last])[..|before|] == before;
      if last.database == database {
        OfMeaning(before, database, KeyOf(last));
        assert (Of(front, database) + [last])[..|Of(front, database)|] == Of(front, database);
      }
    }
  }
}
