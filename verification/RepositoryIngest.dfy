/**
 Repository ingest accounting (postgresql/postgresql.go:1394-1735).

 Every committed batch is counted per (UTC day, database) into a pending map. A flush swaps the
 pending map out, upserts it into a table, and on failure adds it back to whatever has been
 recorded since. The main results say that nothing is lost or counted twice, over every
 interleaving of commits, records, flushes, failures and retention.
 */
module RepositoryIngest {
  import opened Common

  /** One constructor per counter column of the accounting table. */
  datatype Kind =
    | AdditionalMetric | Sql | SqlText | SqlCursorMetadata | SqlPlanOperation
    | Session | BlockingSession | DatabaseActivity
    | DatabaseStatus | Instance | ResourceLimit | Tablespace | AsmDiskgroup
    | SystemCounter | WaitClass | SystemMetric
    | DataGuardDestination | DataGuardLag | DataGuardProcess | ScrapeStatus

  /** A written row: its column, the time that places it (sample time for activity), its database. */
  datatype Row = Row(kind: Kind, at: Time, database: string)

  type Batch = seq<Row>

  datatype Key = Key(day: Time, database: string)

  /** `repositoryIngestCounts`; `rows[c]` is the counter of column c. A zero instant is "none". */
  datatype Counts = Counts(
    rows: multiset<Kind>,
    first: Time,
    last: Time,
    lastSql: Time,
    lastSession: Time,
    lastActivity: Time)

  const ZERO := Counts(multiset{}, ZERO_TIME, ZERO_TIME, ZERO_TIME, ZERO_TIME, ZERO_TIME)

  // ---- The source's operations on one counts record ----

  function Observe(c: Counts, at: Time): Counts {
    if at == ZERO_TIME then c
    else
      c.(first := if c.first == ZERO_TIME || at < c.first then at else c.first,
         last := if c.last == ZERO_TIME || at > c.last then at else c.last)
  }

  function Increment(c: Counts, kind: Kind, at: Time): Counts {
    var counted := c.(rows := c.rows + multiset{kind});
    match kind
    case Sql => counted.(lastSql := if at > c.lastSql then at else c.lastSql)
    case Session => counted.(lastSession := if at > c.lastSession then at else c.lastSession)
    case DatabaseActivity => counted.(lastActivity := if at > c.lastActivity then at else c.lastActivity)
    case _ => counted
  }

  function Add(c: Counts, other: Counts): Counts {
    Counts(
      c.rows + other.rows,
      if c.first == ZERO_TIME || (other.first != ZERO_TIME && other.first < c.first) then other.first else c.first,
      if other.last > c.last then other.last else c.last,
      if other.lastSql > c.lastSql then other.lastSql else c.lastSql,
      if other.lastSession > c.lastSession then other.lastSession else c.lastSession,
      if other.lastActivity > c.lastActivity then other.lastActivity else c.lastActivity)
  }

  function At(m: map<Key, Counts>, k: Key): Counts {
    if k in m then m[k] else ZERO
  }

  lemma AddIsCommutative(a: Counts, b: Counts)
    ensures Add(a, b) == Add(b, a)
  {
    assert a.rows + b.rows == b.rows + a.rows;
  }

  lemma AddIsAssociative(a: Counts, b: Counts, c: Counts)
    ensures Add(Add(a, b), c) == Add(a, Add(b, c))
  {
    assert a.rows + b.rows + c.rows == a.rows + (b.rows + c.rows);
  }

  predicate LastsFromYearOne(c: Counts) {
    c.last >= ZERO_TIME && c.lastSql >= ZERO_TIME && c.lastSession >= ZERO_TIME && c.lastActivity >= ZERO_TIME
  }

  /** The zero record is the identity exactly where no latest-time precedes the zero instant. */
  lemma ZeroIsIdentityIff(c: Counts)
    ensures Add(ZERO, c) == c <==> LastsFromYearOne(c)
    ensures Add(c, ZERO) == c <==> LastsFromYearOne(c)
  {
    assert multiset{} + c.rows == c.rows == c.rows + multiset{};
  }

  // ---- What the rows of a history amount to, said row by row ----

  /** Whether a row is counted under key k: dated, named, and of that day and database. */
  predicate Counted(r: Row, k: Key) {
    r.at != ZERO_TIME && r.database != "" && r.database == k.database && DayStart(r.at) == k.day
  }

  function Tally(rows: seq<Row>, k: Key): multiset<Kind> {
    if rows == [] then multiset{}
    else
      var r := rows[|rows| - 1];
      Tally(rows[..|rows| - 1], k) + (if Counted(r, k) then multiset{r.kind} else multiset{})
  }

  function Earliest(rows: seq<Row>, k: Key): Option<Time> {
    if rows == [] then None
    else
      var r := rows[|rows| - 1];
      Earlier(Earliest(rows[..|rows| - 1], k), if Counted(r, k) then Some(r.at) else None)
  }

  /** The latest time of the counted rows, of one kind only when `only` names it. */
  function Latest(rows: seq<Row>, k: Key, only: Option<Kind>): Option<Time> {
    if rows == [] then None
    else
      var r := rows[|rows| - 1];
      Later(Latest(rows[..|rows| - 1], k, only), if Matches(r, k, only) then Some(r.at) else None)
  }

  predicate Matches(r: Row, k: Key, only: Option<Kind>) {
    Counted(r, k) && (only.None? || r.kind == only.value)
  }

  function Summary(rows: seq<Row>, k: Key): Counts {
    Counts(Tally(rows, k), OrZero(Earliest(rows, k)), OrZero(Latest(rows, k, None)),
           OrZero(Latest(rows, k, Some(Sql))), OrZero(Latest(rows, k, Some(Session))),
           OrZero(Latest(rows, k, Some(DatabaseActivity))))
  }

  /** `Latest` is a greatest lower witness: attained by a matching row and exceeded by none. */
  lemma {:induction false} LatestMeaning(rows: seq<Row>, k: Key, only: Option<Kind>)
    ensures Latest(rows, k, only).None? <==> forall r | r in rows :: !Matches(r, k, only)
    ensures Latest(rows, k, only).Some? ==>
      && (exists r | r in rows :: Matches(r, k, only) && r.at == Latest(rows, k, only).value)
      && forall r | r in rows && Matches(r, k, only) :: r.at <= Latest(rows, k, only).value
  {
    if rows != [] {
      var front, r := rows[..|rows| - 1], rows[|rows| - 1];
      assert rows == front + [r];
      LatestMeaning(front, k, only);
    }
  }

  lemma {:induction false} EarliestMeaning(rows: seq<Row>, k: Key)
    ensures Earliest(rows, k).None? <==> forall r | r in rows :: !Counted(r, k)
    ensures Earliest(rows, k).Some? ==>
      && (exists r | r in rows :: Counted(r, k) && r.at == Earliest(rows, k).value)
      && forall r | r in rows && Counted(r, k) :: Earliest(rows, k).value <= r.at
  {
    if rows != [] {
      var front, r := rows[..|rows| - 1], rows[|rows| - 1];
      assert rows == front + [r];
      EarliestMeaning(front, k);
    }
  }

  lemma {:induction false} TallyMeaning(rows: seq<Row>, k: Key, kind: Kind)
    ensures Tally(rows, k)[kind] == |Select(rows, k, kind)|
    ensures forall r | r in Select(rows, k, kind) :: r in rows && Counted(r, k) && r.kind == kind
  {
    if rows != [] {
      TallyMeaning(rows[..|rows| - 1], k, kind);
    }
  }

  function Select(rows: seq<Row>, k: Key, kind: Kind): seq<Row> {
    if rows == [] then []
    else
      var r := rows[|rows| - 1];
      Select(rows[..|rows| - 1], k, kind) + (if Counted(r, k) && r.kind == kind then [r] else [])
  }

  // ---- Collecting a batch ----

  function KeyOf(r: Row): Key {
    Key(DayStart(r.at), r.database)
  }

  function KeysOf(rows: seq<Row>): set<Key> {
    set r | r in rows && r.at != ZERO_TIME && r.database != "" :: KeyOf(r)
  }

  /** A batch's own record: `Summary`, except that the three per-kind times start from zero. */
  function BatchSummary(rows: seq<Row>, k: Key): Counts {
    var s := Summary(rows, k);
    s.(lastSql := Max(ZERO_TIME, s.lastSql),
       lastSession := Max(ZERO_TIME, s.lastSession),
       lastActivity := Max(ZERO_TIME, s.lastActivity))
  }

  function Collected(batch: Batch): map<Key, Counts> {
    map k | k in KeysOf(batch) :: BatchSummary(batch, k)
  }

  lemma KeysOfOneMore(rows: seq<Row>, r: Row)
    ensures KeysOf(rows + [r]) == KeysOf(rows) + (if r.at == ZERO_TIME || r.database == "" then {} else {KeyOf(r)})
  {
  }

  lemma LatestOfOneMore(rows: seq<Row>, r: Row, k: Key, only: Option<Kind>)
    ensures Latest(rows + [r], k, only) == if Matches(r, k, only) then Later(Latest(rows, k, only), Some(r.at)) else Latest(rows, k, only)
    ensures Latest(rows, k, only) != Some(ZERO_TIME)
  {
    assert (rows + [r])[..|rows|] == rows;
    LatestNonZero(rows, k, only);
  }

  lemma TallyAndEarliestOfOneMore(rows: seq<Row>, r: Row, k: Key)
    ensures Tally(rows + [r], k) == if Counted(r, k) then Tally(rows, k) + multiset{r.kind} else Tally(rows, k)
    ensures Earliest(rows + [r], k) == if Counted(r, k) then Earlier(Earliest(rows, k), Some(r.at)) else Earliest(rows, k)
    ensures Earliest(rows, k) != Some(ZERO_TIME)
  {
    assert (rows + [r])[..|rows|] == rows;
    assert Tally(rows, k) + multiset{} == Tally(rows, k);
    EarliestMeaning(rows, k);
  }

  /** A batch's record from its tally and times. */
  function Read(tally: multiset<Kind>, first: Option<Time>, last: Option<Time>,
                sql: Option<Time>, session: Option<Time>, activity: Option<Time>): Counts {
    Counts(tally, OrZero(first), OrZero(last),
           Max(ZERO_TIME, OrZero(sql)), Max(ZERO_TIME, OrZero(session)), Max(ZERO_TIME, OrZero(activity)))
  }

  function LaterIf(t: Option<Time>, b: bool, at: Time): Option<Time> {
    if b then Later(t, Some(at)) else t
  }

  lemma ReadOneMore(tally: multiset<Kind>, first: Option<Time>, last: Option<Time>,
                    sql: Option<Time>, session: Option<Time>, activity: Option<Time>, kind: Kind, at: Time)
    requires at != ZERO_TIME && first != Some(ZERO_TIME) && last != Some(ZERO_TIME)
    ensures Read(tally + multiset{kind}, Earlier(first, Some(at)), Later(last, Some(at)),
                 LaterIf(sql, kind == Sql, at), LaterIf(session, kind == Session, at),
                 LaterIf(activity, kind == DatabaseActivity, at)) ==
            Increment(Observe(Read(tally, first, last, sql, session, activity), at), kind, at)
  {
  }

  lemma SummaryOfOneMore(rows: seq<Row>, r: Row, k: Key)
    ensures BatchSummary(rows + [r], k) ==
            if Counted(r, k) then Increment(Observe(BatchSummary(rows, k), r.at), r.kind, r.at)
            else BatchSummary(rows, k)
  {
    TallyAndEarliestOfOneMore(rows, r, k);
    LatestOfOneMore(rows, r, k, None);
    LatestOfOneMore(rows, r, k, Some(Sql));
    LatestOfOneMore(rows, r, k, Some(Session));
    LatestOfOneMore(rows, r, k, Some(DatabaseActivity));
    if Counted(r, k) {
      ReadOneMore(Tally(rows, k), Earliest(rows, k), Latest(rows, k, None), Latest(rows, k, Some(Sql)),
                  Latest(rows, k, Some(Session)), Latest(rows, k, Some(DatabaseActivity)), r.kind, r.at);
    }
  }

  lemma LatestNonZero(rows: seq<Row>, k: Key, only: Option<Kind>)
    ensures Latest(rows, k, only) != Some(ZERO_TIME)
  {
    LatestMeaning(rows, k, only);
  }

  lemma CountedIsKeyed(rows: seq<Row>, k: Key)
    ensures (exists r | r in rows :: Counted(r, k)) ==> k in KeysOf(rows)
  {
    forall r | r in rows && Counted(r, k)
      ensures k in KeysOf(rows)
    {
      assert KeyOf(r) == k;
    }
  }

  lemma NothingUncollected(rows: seq<Row>, k: Key)
    requires k !in KeysOf(rows)
    ensures BatchSummary(rows, k) == ZERO
  {
    CountedIsKeyed(rows, k);
    NoRowsNoSummary(rows, k);
  }

  lemma {:induction false} NoRowsNoSummary(rows: seq<Row>, k: Key)
    requires forall r | r in rows :: !Counted(r, k)
    ensures Summary(rows, k) == ZERO
  {
    if rows != [] {
      assert rows == rows[..|rows| - 1] + [rows[|rows| - 1]];
      NoRowsNoSummary(rows[..|rows| - 1], k);
    }
  }

  /** The map holds the record of every key the rows have, and of no other. */
  ghost predicate Represents(counts: map<Key, Counts>, rows: seq<Row>) {
    && counts.Keys == KeysOf(rows)
    && forall k | k in counts :: counts[k] == BatchSummary(rows, k)
  }

  lemma CollectedAt(batch: Batch, k: Key)
    ensures At(Collected(batch), k) == BatchSummary(batch, k)
  {
    if k !in KeysOf(batch) {
      NothingUncollected(batch, k);
    }
  }

  lemma EntryIsSummary(counts: map<Key, Counts>, rows: seq<Row>, k: Key)
    requires Represents(counts, rows)
    ensures At(counts, k) == BatchSummary(rows, k)
  {
    if k !in counts {
      NothingUncollected(rows, k);
    }
  }

  lemma EntryOfOneMore(counts: map<Key, Counts>, rows: seq<Row>, r: Row, k: Key)
    requires Represents(counts, rows)
    ensures BatchSummary(rows + [r], k) ==
            if Counted(r, k) then Increment(Observe(At(counts, k), r.at), r.kind, r.at) else At(counts, k)
  {
    EntryIsSummary(counts, rows, k);
    SummaryOfOneMore(rows, r, k);
  }

  /** One turn of the loop of `addRepositoryIngestValues`. */
  method AddValue(counts: map<Key, Counts>, value: Row, ghost rows: seq<Row>) returns (counts': map<Key, Counts>)
    requires Represents(counts, rows)
    ensures Represents(counts', rows + [value])
  {
    counts' := counts;
    KeysOfOneMore(rows, value);
    if !(value.at == ZERO_TIME || value.database == "") {
      var key := KeyOf(value);
      var entry := Increment(Observe(At(counts, key), value.at), value.kind, value.at);
      counts' := counts[key := entry];
    }
    forall k | k in counts'
      ensures counts'[k] == BatchSummary(rows + [value], k)
    {
      EntryOfOneMore(counts, rows, value, k);
    }
  }

  /** `collectRepositoryIngest`, over the rows of all the batch's slices in turn. */
  method CollectRepositoryIngest(batch: Batch) returns (counts: map<Key, Counts>)
    ensures counts == Collected(batch)
  {
    counts := map[];
    for i := 0 to |batch|
      invariant Represents(counts, batch[..i])
    {
      assert batch[..i + 1] == batch[..i] + [batch[i]];
      counts := AddValue(counts, batch[i], batch[..i]);
    }
    assert batch[..|batch|] == batch;
  }

  // ---- The pending map ----

  /** Adding every entry of `extra` into `m`, as both recording and putting back do. */
  function MergeInto(m: map<Key, Counts>, extra: map<Key, Counts>): map<Key, Counts> {
    map k | k in m.Keys + extra.Keys :: if k in extra then Add(At(m, k), extra[k]) else m[k]
  }

  method AddAll(m: map<Key, Counts>, extra: map<Key, Counts>) returns (merged: map<Key, Counts>)
    ensures merged == MergeInto(m, extra)
  {
    merged := m;
    var left := extra.Keys;
    while left != {}
      invariant left <= extra.Keys
      invariant forall k ::
        Get(merged, k) == if k in extra && k !in left then Some(Add(At(m, k), extra[k])) else Get(m, k)
    {
      var key :| key in left;
      merged := merged[key := Add(At(merged, key), extra[key])];
      left := left - {key};
    }
    SameMap(merged, MergeInto(m, extra));
  }

  /** The two fields of the sink that the accounting mutex guards. */
  class IngestAccounting {
    var pendingIngest: map<Key, Counts>
    var lastIngestFlushAttempt: Time
    const ingestFlushInterval: int

    constructor (interval: int)
      ensures pendingIngest == map[] && lastIngestFlushAttempt == ZERO_TIME && ingestFlushInterval == interval
    {
      pendingIngest, lastIngestFlushAttempt, ingestFlushInterval := map[], ZERO_TIME, interval;
    }

    method RecordRepositoryIngest(batch: Batch)
      modifies this`pendingIngest
      ensures pendingIngest == MergeInto(old(pendingIngest), Collected(batch))
    {
      var counts := CollectRepositoryIngest(batch);
      if |counts| == 0 {
        assert pendingIngest == MergeInto(pendingIngest, counts);
        return;
      }
      pendingIngest := AddAll(pendingIngest, counts);
    }

    /** The first critical section of `flushRepositoryIngest`; None when the interval has not passed. */
    method TakeForFlush(now: Time, force: bool) returns (taken: Option<map<Key, Counts>>)
      modifies this
      ensures taken.Some? <==> FlushDue(old(lastIngestFlushAttempt), ingestFlushInterval, now, force)
      ensures taken.Some? <==>
        || force || old(lastIngestFlushAttempt) == ZERO_TIME
        || (ingestFlushInterval > 0 && now >= old(lastIngestFlushAttempt) + ingestFlushInterval)
        || (ingestFlushInterval <= 0 && now >= old(lastIngestFlushAttempt) + 5 * 60 * 1_000_000_000)
      ensures taken.Some? ==>
        taken.value == old(pendingIngest) && pendingIngest == map[] && lastIngestFlushAttempt == now
      ensures taken.None? ==>
        pendingIngest == old(pendingIngest) && lastIngestFlushAttempt == old(lastIngestFlushAttempt)
    {
      var interval := ingestFlushInterval;
      if interval <= 0 {
        interval := DEFAULT_FLUSH_INTERVAL;
      }
      if !force && lastIngestFlushAttempt != ZERO_TIME && now - lastIngestFlushAttempt < interval {
        return None;
      }
      lastIngestFlushAttempt := now;
      taken := Some(pendingIngest);
      pendingIngest := map[];
    }

    /** The failure path of `flushRepositoryIngest`. */
    method PutBack(taken: map<Key, Counts>)
      modifies this`pendingIngest
      ensures pendingIngest == MergeInto(old(pendingIngest), taken)
    {
      pendingIngest := AddAll(pendingIngest, taken);
    }
  }

  const DEFAULT_FLUSH_INTERVAL: int := 300_000_000_000

  predicate FlushDue(lastAttempt: Time, interval: int, now: Time, force: bool) {
    force || lastAttempt == ZERO_TIME
    || now - lastAttempt >= if interval <= 0 then DEFAULT_FLUSH_INTERVAL else interval
  }

  // ---- The table ----

  datatype TableRow = TableRow(
    rows: multiset<Kind>,
    first: Option<Time>,
    last: Option<Time>,
    lastSql: Option<Time>,
    lastSession: Option<Time>,
    lastActivity: Option<Time>,
    lastFlushedAt: Time)

  function NullableTime(t: Time): Option<Time> {
    if t == ZERO_TIME then None else Some(t)
  }

  /** The row an upsert proposes: SQL's `excluded`. */
  function Proposed(c: Counts, flushedAt: Time): TableRow {
    TableRow(c.rows, NullableTime(c.first), NullableTime(c.last), NullableTime(c.lastSql),
             NullableTime(c.lastSession), NullableTime(c.lastActivity), flushedAt)
  }

  /** `on conflict do update`: sums, and `least`/`greatest`, which ignore NULL. */
  function UpsertRow(existing: Option<TableRow>, c: Counts, flushedAt: Time): TableRow {
    var excluded := Proposed(c, flushedAt);
    if existing.None? then excluded
    else
      var row := existing.value;
      TableRow(row.rows + excluded.rows, Earlier(row.first, excluded.first), Later(row.last, excluded.last),
               Later(row.lastSql, excluded.lastSql), Later(row.lastSession, excluded.lastSession),
               Later(row.lastActivity, excluded.lastActivity), Max(row.lastFlushedAt, excluded.lastFlushedAt))
  }

  /** A stored row read back as a counts record; an absent row reads as zero. */
  function Stored(row: Option<TableRow>): Counts {
    if row.None? then ZERO
    else
      Counts(row.value.rows, OrZero(row.value.first), OrZero(row.value.last), OrZero(row.value.lastSql),
             OrZero(row.value.lastSession), OrZero(row.value.lastActivity))
  }

  /** No stored instant is the zero one, and no latest-time precedes it. */
  predicate WellStored(row: Option<TableRow>) {
    row.None? || (row.value.first != Some(ZERO_TIME) && LastsFromYearOne(Stored(row)))
  }

  /** The upsert adds: SQL's NULL-ignoring arithmetic agrees with `add` through `nullableTime`. */
  lemma UpsertAdds(existing: Option<TableRow>, c: Counts, flushedAt: Time)
    requires LastsFromYearOne(c) && WellStored(existing)
    ensures Stored(Some(UpsertRow(existing, c, flushedAt))) == Add(Stored(existing), c)
    ensures WellStored(Some(UpsertRow(existing, c, flushedAt)))
    ensures var kept := UpsertRow(existing, c, flushedAt).lastFlushedAt;
      && flushedAt <= kept && (existing.Some? ==> existing.value.lastFlushedAt <= kept)
      && (kept == flushedAt || (existing.Some? && kept == existing.value.lastFlushedAt))
  {
    assert multiset{} + c.rows == c.rows;
  }

  /** The table after a whole flush: every taken entry upserted, every other key untouched. */
  function Flushed(table: map<Key, TableRow>, counts: map<Key, Counts>, flushedAt: Time): map<Key, TableRow> {
    map k | k in table.Keys + counts.Keys ::
      if k in counts then UpsertRow(Get(table, k), counts[k], flushedAt) else table[k]
  }

  /** `writeRepositoryIngest`: one upsert per key inside a transaction that commits or leaves no trace. */
  method WriteRepositoryIngest(table: map<Key, TableRow>, counts: map<Key, Counts>, flushedAt: Time, commits: bool)
    returns (table': map<Key, TableRow>)
    ensures table' == if commits then Flushed(table, counts, flushedAt) else table
  {
    table' := table;
    var left := counts.Keys;
    while left != {}
      invariant left <= counts.Keys
      invariant forall k :: Get(table', k) == if k in counts && k !in left
                                                then Some(UpsertRow(Get(table, k), counts[k], flushedAt))
                                                else Get(table, k)
    {
      var key :| key in left;
      var row := UpsertRow(Get(table', key), counts[key], flushedAt);
      table' := table'[key := row];
      left := left - {key};
    }
    SameMap(table', Flushed(table, counts, flushedAt));
    if !commits {
      table' := table;
    }
  }

  // ---- Every interleaving ----

  /**
   The accounting state between atomic steps. `unrecorded` holds the batches whose transaction has
   committed but whose writer has not reached `recordRepositoryIngest` yet; `recorded` lists the
   others in record order; `horizon` is the latest cutoff retention has applied.
   */
  datatype Ledger = Ledger(
    table: map<Key, TableRow>,
    inFlight: Option<map<Key, Counts>>,
    pending: map<Key, Counts>,
    lastAttempt: Time,
    committed: multiset<Batch>,
    unrecorded: multiset<Batch>,
    recorded: seq<Batch>,
    horizon: Option<Time>)

  datatype Step =
    | Commit(batch: Batch)
    | Record(batch: Batch)
    | BeginFlush(now: Time, force: bool)
    | FlushCommits
    | FlushFails
    | DropPartitions(cutoff: Time)

  const START := Ledger(map[], None, map[], ZERO_TIME, multiset{}, multiset{}, [], None)

  function Recorded(s: Ledger, batch: Batch): Ledger {
    if batch !in s.unrecorded then s
    else s.(pending := MergeInto(s.pending, Collected(batch)),
            unrecorded := s.unrecorded - multiset{batch}, recorded := s.recorded + [batch])
  }

  function FlushBegun(s: Ledger, now: Time, force: bool, interval: int): Ledger {
    if s.inFlight.Some? || !FlushDue(s.lastAttempt, interval, now, force) then s
    else s.(inFlight := Some(s.pending), pending := map[], lastAttempt := now)
  }

  function FlushCommitted(s: Ledger): Ledger {
    if s.inFlight.None? then s
    else s.(table := Flushed(s.table, s.inFlight.value, s.lastAttempt), inFlight := None)
  }

  function FlushFailed(s: Ledger): Ledger {
    if s.inFlight.None? then s
    else s.(pending := MergeInto(s.pending, s.inFlight.value), inFlight := None)
  }

  function Dropped(s: Ledger, cutoff: Time): Ledger {
    s.(table := map k | k in s.table && k.day + DAY > cutoff :: s.table[k], horizon := Later(s.horizon, Some(cutoff)))
  }

  /** Retention drops the rows of the days before that of its cutoff, and no others. */
  lemma DroppedIffBeforeCutoffDay(s: Ledger, cutoff: Time, k: Key)
    requires k.day % DAY == 0
    ensures Get(Dropped(s, cutoff).table, k) == if k.day < DayStart(cutoff) then None else Get(s.table, k)
  {
    assert k.day == DAY * (k.day / DAY) && DayStart(cutoff) == DAY * (cutoff / DAY);
  }

  /** One atomic step; a step that is not enabled changes nothing. */
  function Apply(s: Ledger, step: Step, interval: int): Ledger {
    match step
    case Commit(batch) =>
      s.(committed := s.committed + multiset{batch}, unrecorded := s.unrecorded + multiset{batch})
    case Record(batch) => Recorded(s, batch)
    case BeginFlush(now, force) => FlushBegun(s, now, force, interval)
    case FlushCommits => FlushCommitted(s)
    case FlushFails => FlushFailed(s)
    case DropPartitions(cutoff) => Dropped(s, cutoff)
  }

  function Run(steps: seq<Step>, interval: int): Ledger {
    if steps == [] then START
    else Apply(Run(steps[..|steps| - 1], interval), steps[|steps| - 1], interval)
  }

  function Flatten(batches: seq<Batch>): seq<Row> {
    if batches == [] then [] else Flatten(batches[..|batches| - 1]) + batches[|batches| - 1]
  }

  /** Durable, in-flight and pending counts of one key, merged. */
  function Total(s: Ledger, k: Key): Counts {
    Add(Add(Stored(Get(s.table, k)), At(InFlight(s), k)), At(s.pending, k))
  }

  function InFlight(s: Ledger): map<Key, Counts> {
    if s.inFlight.Some? then s.inFlight.value else map[]
  }

  /** Retention has dropped no partition of this key's day. */
  predicate Kept(s: Ledger, k: Key) {
    s.horizon.None? || k.day + DAY > s.horizon.value
  }

  /** What the merge arrives at for any key: latest times that precede the zero instant read as none. */
  function Accounted(rows: seq<Row>, k: Key): Counts {
    var s := Summary(rows, k);
    Counts(s.rows, s.first, Max(ZERO_TIME, s.last), Max(ZERO_TIME, s.lastSql),
           Max(ZERO_TIME, s.lastSession), Max(ZERO_TIME, s.lastActivity))
  }

  ghost predicate Inv(s: Ledger, k: Key) {
    && LastsFromYearOne(At(s.pending, k))
    && LastsFromYearOne(At(InFlight(s), k))
    && WellStored(Get(s.table, k))
    && (Kept(s, k) ==> Total(s, k) == Accounted(Flatten(s.recorded), k))
  }

  lemma {:induction false} LatestOfConcatenation(a: seq<Row>, b: seq<Row>, k: Key, only: Option<Kind>)
    ensures Latest(a + b, k, only) == Later(Latest(a, k, only), Latest(b, k, only))
  {
    if b == [] {
      assert a + b == a;
    } else {
      assert (a + b)[..|a + b| - 1] == a + b[..|b| - 1];
      LatestOfConcatenation(a, b[..|b| - 1], k, only);
    }
  }

  lemma {:induction false} TallyAndEarliestOfConcatenation(a: seq<Row>, b: seq<Row>, k: Key)
    ensures Tally(a + b, k) == Tally(a, k) + Tally(b, k)
    ensures Earliest(a + b, k) == Earlier(Earliest(a, k), Earliest(b, k))
  {
    if b == [] {
      assert a + b == a;
    } else {
      assert (a + b)[..|a + b| - 1] == a + b[..|b| - 1];
      TallyAndEarliestOfConcatenation(a, b[..|b| - 1], k);
    }
  }

  /** Counting a longer history is adding the new batch's record to the old history's. */
  lemma AccountedIsHomomorphism(a: seq<Row>, b: seq<Row>, k: Key)
    ensures Accounted(a + b, k) == Add(Accounted(a, k), BatchSummary(b, k))
  {
    TallyAndEarliestOfConcatenation(a, b, k);
    LatestOfConcatenation(a, b, k, None);
    LatestOfConcatenation(a, b, k, Some(Sql));
    LatestOfConcatenation(a, b, k, Some(Session));
    LatestOfConcatenation(a, b, k, Some(DatabaseActivity));
    EarliestMeaning(a, k);
    EarliestMeaning(b, k);
  }

  ghost predicate HasRows(rows: seq<Row>, k: Key) {
    exists r | r in rows :: Counted(r, k)
  }

  lemma LatestBeforeYearOne(rows: seq<Row>, k: Key, only: Option<Kind>)
    requires k.day < ZERO_TIME
    ensures OrZero(Latest(rows, k, only)) <= ZERO_TIME
    ensures only.None? ==> (OrZero(Latest(rows, k, only)) < ZERO_TIME <==> HasRows(rows, k))
  {
    LatestMeaning(rows, k, only);
    forall r | r in rows && Counted(r, k)
      ensures r.at < ZERO_TIME && (only.None? ==> Matches(r, k, only))
    {
      assert DayStart(r.at) == k.day;
      DayBeforeYearOne(r.at);
    }
  }

  lemma DayBeforeYearOne(t: Time)
    requires DayStart(t) < ZERO_TIME
    ensures t < ZERO_TIME
  {
    assert t == DAY * (t / DAY) + t % DAY && DayStart(t) == DAY * (t / DAY);
  }

  lemma OnlyLastCanDiffer(a: Batch, b: Batch, k: Key)
    ensures var both := Add(BatchSummary(a, k), BatchSummary(b, k));
      BatchSummary(a + b, k).(last := both.last) == both
  {
    AccountedIsHomomorphism(a, b, k);
  }

  /**
   Collecting two batches together is collecting each and adding, exactly if the day is not before year one, or
   both batches have rows of the key, or neither has.
   */
  lemma CollectIsHomomorphismIff(a: Batch, b: Batch, k: Key)
    ensures BatchSummary(a + b, k) == Add(BatchSummary(a, k), BatchSummary(b, k)) <==>
            k.day >= ZERO_TIME || (HasRows(a, k) <==> HasRows(b, k))
  {
    AccountedIsHomomorphism(a, b, k);
    if k.day >= ZERO_TIME {
      SummaryFromYearOne(a, k);
      SummaryFromYearOne(a + b, k);
    } else {
      LatestOfConcatenation(a, b, k, None);
      LatestBeforeYearOne(a, k, None);
      LatestBeforeYearOne(b, k, None);
      LatestNonZero(a, k, None);
      LatestNonZero(b, k, None);
      OnlyLastCanDiffer(a, b, k);
      var la, lb := Latest(a, k, None), Latest(b, k, None);
      assert BatchSummary(a + b, k).last == OrZero(Later(la, lb));
      assert Add(BatchSummary(a, k), BatchSummary(b, k)).last == Max(OrZero(la), OrZero(lb));
    }
  }

  lemma SummaryFromYearOne(rows: seq<Row>, k: Key)
    requires k.day >= ZERO_TIME
    ensures LastsFromYearOne(Summary(rows, k))
    ensures Accounted(rows, k) == BatchSummary(rows, k) == Summary(rows, k)
  {
    LatestMeaning(rows, k, None);
    LatestMeaning(rows, k, Some(Sql));
    LatestMeaning(rows, k, Some(Session));
    LatestMeaning(rows, k, Some(DatabaseActivity));
  }

  lemma MergeAdds(m: map<Key, Counts>, extra: map<Key, Counts>, k: Key)
    requires LastsFromYearOne(At(m, k))
    ensures At(MergeInto(m, extra), k) == Add(At(m, k), At(extra, k))
    ensures LastsFromYearOne(At(MergeInto(m, extra), k))
  {
    ZeroIsIdentityIff(At(m, k));
  }

  lemma FlushedAt(table: map<Key, TableRow>, counts: map<Key, Counts>, now: Time, k: Key)
    requires LastsFromYearOne(At(counts, k)) && WellStored(Get(table, k))
    ensures Stored(Get(Flushed(table, counts, now), k)) == Add(Stored(Get(table, k)), At(counts, k))
    ensures WellStored(Get(Flushed(table, counts, now), k))
  {
    if k in counts {
      UpsertAdds(Get(table, k), counts[k], now);
    } else {
      ZeroIsIdentityIff(Stored(Get(table, k)));
    }
  }

  /** A batch's counts go on top of the pending ones. */
  lemma RecordAdds(s: Ledger, batch: Batch, k: Key)
    requires Inv(s, k) && batch in s.unrecorded
    ensures At(Recorded(s, batch).pending, k) == Add(At(s.pending, k), BatchSummary(batch, k))
    ensures LastsFromYearOne(At(Recorded(s, batch).pending, k))
  {
    MergeAdds(s.pending, Collected(batch), k);
    CollectedAt(batch, k);
  }

  lemma AccountOfOneMore(batches: seq<Batch>, batch: Batch, k: Key)
    ensures Accounted(Flatten(batches + [batch]), k) == Add(Accounted(Flatten(batches), k), BatchSummary(batch, k))
  {
    assert (batches + [batch])[..|batches|] == batches;
    AccountedIsHomomorphism(Flatten(batches), batch, k);
  }

  lemma BeginFlushKeepsInv(s: Ledger, now: Time, force: bool, interval: int, k: Key)
    requires Inv(s, k)
    ensures Inv(FlushBegun(s, now, force, interval), k)
  {
    ZeroIsIdentityIff(Stored(Get(s.table, k)));
    ZeroIsIdentityIff(Add(Stored(Get(s.table, k)), At(s.pending, k)));
  }

  lemma FlushCommitsKeepsInv(s: Ledger, k: Key)
    requires Inv(s, k)
    ensures Inv(FlushCommitted(s), k)
  {
    if s.inFlight.Some? {
      FlushedAt(s.table, s.inFlight.value, s.lastAttempt, k);
      ZeroIsIdentityIff(Stored(Get(FlushCommitted(s).table, k)));
    }
  }

  lemma FlushFailsKeepsInv(s: Ledger, k: Key)
    requires Inv(s, k)
    ensures Inv(FlushFailed(s), k)
  {
    if s.inFlight.Some? {
      var stored, taken := Stored(Get(s.table, k)), s.inFlight.value;
      MergeAdds(s.pending, taken, k);
      ZeroIsIdentityIff(stored);
      AddIsCommutative(At(s.pending, k), At(taken, k));
      AddIsAssociative(stored, At(taken, k), At(s.pending, k));
    }
  }

  lemma DropKeepsInv(s: Ledger, cutoff: Time, k: Key)
    requires Inv(s, k)
    ensures Inv(Dropped(s, cutoff), k)
  {
    if Kept(Dropped(s, cutoff), k) {
      assert Get(Dropped(s, cutoff).table, k) == Get(s.table, k);
    }
  }

  lemma {:induction false} RunKeepsInv(steps: seq<Step>, interval: int, k: Key)
    ensures Inv(Run(steps, interval), k)
  {
    if steps != [] {
      RunKeepsInv(steps[..|steps| - 1], interval, k);
      var s := Run(steps[..|steps| - 1], interval);
      match steps[|steps| - 1]
      case Commit(batch) =>
      case Record(batch) =>
        if batch in s.unrecorded {
          RecordAdds(s, batch, k);
          AccountOfOneMore(s.recorded, batch, k);
          AddIsAssociative(Add(Stored(Get(s.table, k)), At(InFlight(s), k)), At(s.pending, k), BatchSummary(batch, k));
        }
      case BeginFlush(now, force) => BeginFlushKeepsInv(s, now, force, interval, k);
      case FlushCommits => FlushCommitsKeepsInv(s, k);
      case FlushFails => FlushFailsKeepsInv(s, k);
      case DropPartitions(cutoff) => DropKeepsInv(s, cutoff, k);
    }
  }

  /** Of one batch: committed as often as it is held by a writer and recorded. */
  ghost predicate BatchKept(s: Ledger, batch: Batch) {
    s.committed[batch] == s.unrecorded[batch] + multiset(s.recorded)[batch]
  }

  lemma StepKeepsBatch(s: Ledger, step: Step, interval: int, batch: Batch)
    requires BatchKept(s, batch)
    ensures BatchKept(Apply(s, step, interval), batch)
  {
  }

  lemma {:induction false} RunKeepsBatch(steps: seq<Step>, interval: int, batch: Batch)
    ensures BatchKept(Run(steps, interval), batch)
  {
    if steps != [] {
      RunKeepsBatch(steps[..|steps| - 1], interval, batch);
      StepKeepsBatch(Run(steps[..|steps| - 1], interval), steps[|steps| - 1], interval, batch);
    }
  }

  /** Every committed batch is either recorded or still held by its writer. */
  lemma NoBatchIsLost(steps: seq<Step>, interval: int)
    ensures var s := Run(steps, interval); s.committed == s.unrecorded + multiset(s.recorded)
  {
    var s := Run(steps, interval);
    forall batch
      ensures s.committed[batch] == (s.unrecorded + multiset(s.recorded))[batch]
    {
      RunKeepsBatch(steps, interval, batch);
    }
  }

  lemma AccountedIsSummaryIff(rows: seq<Row>, k: Key)
    ensures Accounted(rows, k) == Summary(rows, k) <==>
            k.day >= ZERO_TIME || forall r | r in rows :: !Counted(r, k)
  {
    if k.day >= ZERO_TIME {
      SummaryFromYearOne(rows, k);
    } else if forall r | r in rows :: !Counted(r, k) {
      NoRowsNoSummary(rows, k);
    } else {
      LatestMeaning(rows, k, None);
      var r :| r in rows && Counted(r, k);
      assert Matches(r, k, None);
    }
  }

  /**
   Conservation. In every reachable state, every committed batch is either recorded or still held by
   its writer, and for every key whose day retention has not reached, durable + in-flight + pending is
   exactly the row-by-row summary of the recorded batches - if and only if the day is not before year
   one or holds no row at all.
   */
  lemma Conservation(steps: seq<Step>, interval: int, k: Key)
    requires Kept(Run(steps, interval), k)
    ensures var s := Run(steps, interval);
      && s.committed == s.unrecorded + multiset(s.recorded)
      && (Total(s, k) == Summary(Flatten(s.recorded), k) <==>
          k.day >= ZERO_TIME || forall r | r in Flatten(s.recorded) :: !Counted(r, k))
  {
    NoBatchIsLost(steps, interval);
    RunKeepsInv(steps, interval, k);
    AccountedIsSummaryIff(Flatten(Run(steps, interval).recorded), k);
  }

  /** Begun when due and none is under way, a flush has taken all that was pending; nothing else begins one. */
  lemma FlushTakesAllPending(s: Ledger, now: Time, force: bool, interval: int)
    ensures var s' := Apply(s, BeginFlush(now, force), interval);
      var wait := if interval > 0 then interval else 5 * 60 * 1_000_000_000;
      if s.inFlight.None? && (force || s.lastAttempt == ZERO_TIME || now >= s.lastAttempt + wait)
      then s' == s.(inFlight := Some(s.pending), pending := map[], lastAttempt := now)
      else s' == s
  {
  }

  /** One that fails has put everything back on top of what was recorded meanwhile; one that commits has stored it all. */
  lemma FlushEndsEitherWay(steps: seq<Step>, interval: int, k: Key)
    requires Run(steps, interval).inFlight.Some?
    ensures var s, failed := Run(steps, interval), Run(steps + [FlushFails], interval);
      && failed.inFlight.None? && failed.table == s.table
      && At(failed.pending, k) == Add(At(s.pending, k), At(s.inFlight.value, k))
    ensures var s, committed := Run(steps, interval), Run(steps + [FlushCommits], interval);
      && committed.inFlight.None? && committed.pending == s.pending
      && Stored(Get(committed.table, k)) == Add(Stored(Get(s.table, k)), At(s.inFlight.value, k))
  {
    var s := Run(steps, interval);
    RunKeepsInv(steps, interval, k);
    RunOneMore(steps, FlushFails, interval);
    RunOneMore(steps, FlushCommits, interval);
    MergeAdds(s.pending, s.inFlight.value, k);
    FlushedAt(s.table, s.inFlight.value, s.lastAttempt, k);
  }

  /** A flush that is forced, while none is under way, and commits. */
  function ForcedFlush(steps: seq<Step>, now: Time): seq<Step> {
    steps + [BeginFlush(now, true)] + [FlushCommits]
  }

  lemma RunOneMore(steps: seq<Step>, step: Step, interval: int)
    ensures Run(steps + [step], interval) == Apply(Run(steps, interval), step, interval)
  {
    assert (steps + [step])[..|steps|] == steps;
  }

  lemma ForcedFlushDrains(steps: seq<Step>, interval: int, now: Time)
    requires Run(steps, interval).inFlight.None?
    ensures var s, s' := Run(steps, interval), Run(ForcedFlush(steps, now), interval);
      s'.inFlight.None? && s'.pending == map[] && s'.unrecorded == s.unrecorded && s'.recorded == s.recorded
      && s'.committed == s.committed && s'.horizon == s.horizon
  {
    RunOneMore(steps, BeginFlush(now, true), interval);
    RunOneMore(steps + [BeginFlush(now, true)], FlushCommits, interval);
  }

  /**
   The last flush, on closing. Once every writer has recorded its batch and no flush is under way, a forced flush
   that commits leaves the whole account of all committed batches in the table.
   */
  lemma LastFlushIsDurable(steps: seq<Step>, interval: int, now: Time, k: Key)
    requires k.day >= ZERO_TIME && Kept(Run(steps, interval), k)
    requires Run(steps, interval).inFlight.None? && Run(steps, interval).unrecorded == multiset{}
    ensures var s := Run(ForcedFlush(steps, now), interval);
      Stored(Get(s.table, k)) == Summary(Flatten(s.recorded), k) && multiset(s.recorded) == s.committed
  {
    var all := ForcedFlush(steps, now);
    ForcedFlushDrains(steps, interval, now);
    Conservation(all, interval, k);
    RunKeepsInv(all, interval, k);
    ZeroIsIdentityIff(Stored(Get(Run(all, interval).table, k)));
  }

  /** A concrete row dated before year one whose latest time the pending map forgets. */
  lemma RowBeforeYearOneIsForgotten()
    ensures var rows := [Row(Sql, -5, "orcl")];
      var k := Key(-DAY, "orcl");
      Summary(rows, k).last == -5 && At(MergeInto(map[], Collected(rows)), k).last == ZERO_TIME
  {
    var rows := [Row(Sql, -5, "orcl")];
    var k := Key(-DAY, "orcl");
    assert DayStart(-5) == -DAY;
    assert rows[..0] == [];
    assert Latest(rows, k, None) == Some(-5);
    MergeAdds(map[], Collected(rows), k);
    CollectedAt(rows, k);
  }
}
