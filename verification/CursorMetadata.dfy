/**
 SQL cursor metadata (postgresql/postgresql.go:1873-1948, 2764-2766, 2804-2832).

 A cursor seen again is written only when its stored day is over or its schema or module changed.
 The main results compare that throttled table with an eager one that writes every sighting.
 */
module CursorMetadata {
  import opened Common

  datatype Key = Key(database: string, instId: int, sqlId: string, childNumber: int, planHashValue: int)

  /** The nullable `parsing_schema_name` and `module`; `is distinct from` is inequality here. */
  datatype Meta = Meta(schemaName: Option<string>, moduleName: Option<string>)

  datatype Sample = Sample(
    database: string,
    instId: int,
    sqlId: string,
    childNumber: Option<int>,
    planHashValue: Option<int>,
    meta: Meta,
    at: Time)

  datatype Sighting = Sighting(meta: Meta, at: Time)

  datatype Row = Row(meta: Meta, firstSeen: Time, lastSeen: Time)

  // ---- Collecting a batch ----

  predicate Usable(s: Sample) {
    !Blank(s.database) && !Blank(s.sqlId) && s.childNumber.Some? && s.planHashValue.Some? && s.at != ZERO_TIME
  }

  function KeyOf(s: Sample): Key
    requires s.childNumber.Some? && s.planHashValue.Some?
  {
    Key(s.database, s.instId, s.sqlId, s.childNumber.value, s.planHashValue.value)
  }

  /** What it takes, column by column, for a sample to count as a sighting of k. */
  ghost predicate Sights(s: Sample, k: Key) {
    && s.database == k.database && s.instId == k.instId && s.sqlId == k.sqlId
    && s.childNumber == Some(k.childNumber) && s.planHashValue == Some(k.planHashValue)
    && (exists c | c in s.database :: !IsSpace(c)) && (exists c | c in s.sqlId :: !IsSpace(c))
    && s.at != 0
  }

  lemma SightsIfUsable(s: Sample, k: Key)
    ensures Sights(s, k) <==> Usable(s) && KeyOf(s) == k
  {
  }

  /** The sightings of one key, in batch order. */
  ghost function SightingsOf(samples: seq<Sample>, k: Key): seq<Sighting> {
    if samples == [] then []
    else
      var front, s := SightingsOf(samples[..|samples| - 1], k), samples[|samples| - 1];
      if Sights(s, k) then front + [Sighting(s.meta, s.at)] else front
  }

  /** x is one of the sightings, none is newer, and those before it are older. */
  ghost predicate FirstLatest(x: Sighting, xs: seq<Sighting>) {
    exists i :: 0 <= i < |xs| && xs[i] == x
      && (forall j | 0 <= j < |xs| :: xs[j].at <= x.at)
      && forall j | 0 <= j < i :: xs[j].at < x.at
  }

  /** Nothing has been collected for want of sightings, or else the first of the latest. */
  ghost predicate Holds(collected: Option<Sighting>, xs: seq<Sighting>) {
    if collected.None? then xs == [] else FirstLatest(collected.value, xs)
  }

  /** `collectSQLCursorMetadata`. */
  method CollectSQLCursorMetadata(samples: seq<Sample>) returns (metadata: map<Key, Sighting>)
    ensures forall k :: Holds(Get(metadata, k), SightingsOf(samples, k))
  {
    metadata := map[];
    for i := 0 to |samples|
      invariant forall k :: Holds(Get(metadata, k), SightingsOf(samples[..i], k))
    {
      var s := samples[i];
      assert samples[..i + 1][..i] == samples[..i];
      forall k
        ensures Sights(s, k) <==> Usable(s) && KeyOf(s) == k
      {
        SightsIfUsable(s, k);
      }
      if Usable(s) {
        var key := KeyOf(s);
        ExtendFirstLatest(Get(metadata, key), SightingsOf(samples[..i], key), Sighting(s.meta, s.at));
        if key !in metadata || s.at > metadata[key].at {
          metadata := metadata[key := Sighting(s.meta, s.at)];
        }
      }
    }
    assert samples[..|samples|] == samples;
  }

  lemma ExtendFirstLatest(current: Option<Sighting>, xs: seq<Sighting>, x: Sighting)
    requires Holds(current, xs)
    ensures Holds(if current.None? || x.at > current.value.at then Some(x) else current, xs + [x])
  {
    if current.None? || x.at > current.value.at {
      assert (xs + [x])[|xs|] == x;
    } else {
      var i :| 0 <= i < |xs| && xs[i] == current.value
        && (forall j | 0 <= j < |xs| :: xs[j].at <= current.value.at)
        && forall j | 0 <= j < i :: xs[j].at < current.value.at;
      assert (xs + [x])[i] == current.value;
    }
  }

  // ---- The upsert rule ----

  /** The `where` clause: the stored day is over, or this sighting is no older and differs. */
  predicate Rewrites(row: Row, x: Sighting) {
    row.lastSeen < DayStart(x.at) || (x.at >= row.lastSeen && row.meta != x.meta)
  }

  /** The `set` clause. */
  function Refreshed(row: Row, x: Sighting): Row {
    Row(if x.at >= row.lastSeen then x.meta else row.meta, Min(row.firstSeen, x.at), Max(row.lastSeen, x.at))
  }

  function Throttled(existing: Option<Row>, x: Sighting): Row {
    if existing.None? then Row(x.meta, x.at, x.at)
    else if Rewrites(existing.value, x) then Refreshed(existing.value, x) else existing.value
  }

  /** The same upsert without its `where` clause. */
  function Eager(existing: Option<Row>, x: Sighting): Row {
    if existing.None? then Row(x.meta, x.at, x.at) else Refreshed(existing.value, x)
  }

  /** A stored row is written exactly when its UTC day is over or a sighting no older than it changes schema or module. */
  lemma WrittenIffDayOverOrChanged(row: Row, x: Sighting)
    ensures Throttled(Some(row), x) != row <==>
            row.lastSeen / DAY < x.at / DAY || (row.lastSeen <= x.at && row.meta != x.meta)
  {
    assert DayStart(x.at) == DAY * (x.at / DAY);
    assert row.lastSeen == DAY * (row.lastSeen / DAY) + row.lastSeen % DAY;
  }

  /** A key without usable samples keeps its row; any other is upserted once, with the first of its latest samples. */
  ghost predicate IsWritten(before: Option<Row>, xs: seq<Sighting>, after: Option<Row>) {
    if xs == [] then after == before
    else exists x :: FirstLatest(x, xs) && after == Some(Throttled(before, x))
  }

  /** `writeSQLCursorMetadata`: upserts the collected sightings in an arbitrary order of keys. */
  method WriteSQLCursorMetadata(table: map<Key, Row>, samples: seq<Sample>)
    returns (table': map<Key, Row>)
    ensures forall k :: IsWritten(Get(table, k), SightingsOf(samples, k), Get(table', k))
  {
    var metadata := CollectSQLCursorMetadata(samples);
    table' := table;
    var left := metadata.Keys;
    while left != {}
      invariant left <= metadata.Keys
      invariant forall k ::
        Get(table', k) == if k in metadata && k !in left then Some(Throttled(Get(table, k), metadata[k])) else Get(table, k)
    {
      var k :| k in left;
      table' := table'[k := Throttled(Get(table', k), metadata[k])];
      left := left - {k};
    }
    forall k
      ensures IsWritten(Get(table, k), SightingsOf(samples, k), Get(table', k))
    {
      var xs := SightingsOf(samples, k);
      assert Holds(Get(metadata, k), xs);
      if xs != [] {
        assert FirstLatest(metadata[k], xs) && Get(table', k) == Some(Throttled(Get(table, k), metadata[k]));
      }
    }
  }

  /** There is only one such sample, so the row written is determined. */
  lemma FirstLatestIsUnique(x: Sighting, y: Sighting, xs: seq<Sighting>)
    requires FirstLatest(x, xs) && FirstLatest(y, xs)
    ensures x == y
  {
  }

  // ---- One key over a whole history ----

  /**
   What happens to a key: a sighting, or a retention delete. `reached` is whether the delete's row
   limit and lock skipping let it reach this row.
   */
  datatype Event = Seen(x: Sighting) | Expire(cutoff: Time, reached: bool)

  function Step(row: Option<Row>, e: Event, eager: bool): Option<Row> {
    match e
    case Seen(x) => Some(if eager then Eager(row, x) else Throttled(row, x))
    case Expire(cutoff, reached) =>
      if row.Some? && row.value.lastSeen < cutoff && reached then None else row
  }

  /** A delete that reaches the row takes it exactly if no sighting it has stored is as late as the cutoff. */
  lemma DeletedIffLastSeenBefore(row: Row, cutoff: Time, reached: bool, eager: bool)
    ensures Step(Some(row), Expire(cutoff, reached), eager).None? <==> reached && row.lastSeen < cutoff
    ensures Step(Some(row), Expire(cutoff, reached), eager).Some? ==>
              Step(Some(row), Expire(cutoff, reached), eager) == Some(row)
    ensures Step(None, Expire(cutoff, reached), eager).None?
  {
  }

  function Run(events: seq<Event>, eager: bool): Option<Row> {
    if events == [] then None else Step(Run(events[..|events| - 1], eager), events[|events| - 1], eager)
  }

  /** Every delete uses a day-aligned cutoff, as `retentionDayCutoff` makes them. */
  predicate Aligned(events: seq<Event>) {
    forall e | e in events && e.Expire? :: e.cutoff % DAY == 0
  }

  /** Present together, last seen on one UTC day, the throttled row never ahead. */
  predicate Agree(t: Option<Row>, e: Option<Row>) {
    && (t.Some? <==> e.Some?)
    && (t.Some? ==>
        && DayStart(t.value.lastSeen) == DayStart(e.value.lastSeen)
        && t.value.firstSeen <= t.value.lastSeen <= e.value.lastSeen)
  }

  lemma DayStartIsMonotone(a: Time, b: Time)
    requires a <= b
    ensures DayStart(a) <= DayStart(b)
    ensures a < DayStart(b) <==> DayStart(a) < DayStart(b)
  {
    assert a / DAY <= b / DAY;
    assert DayStart(a) == DAY * (a / DAY) && DayStart(b) == DAY * (b / DAY);
  }

  /** A delete decides alike on the two tables, for a day-aligned cutoff; and for no other. */
  lemma DecisionsAgreeIffAligned(cutoff: Time)
    ensures (forall a, b | DayStart(a) == DayStart(b) :: a < cutoff <==> b < cutoff) <==> cutoff % DAY == 0
  {
    if cutoff % DAY == 0 {
      forall a, b | DayStart(a) == DayStart(b)
        ensures a < cutoff <==> b < cutoff
      {
        assert DayStart(cutoff) == cutoff;
        if a < cutoff {
          DayStartIsMonotone(a, cutoff);
        }
        if b < cutoff {
          DayStartIsMonotone(b, cutoff);
        }
      }
    } else {
      assert DayStart(cutoff) < cutoff;
      assert DayStart(DayStart(cutoff)) == DayStart(cutoff);
    }
  }

  lemma SeenKeepsAgreement(t: Option<Row>, e: Option<Row>, x: Sighting)
    requires Agree(t, e)
    ensures Agree(Some(Throttled(t, x)), Some(Eager(e, x)))
  {
    if t.Some? {
      if x.at <= e.value.lastSeen {
        DayStartIsMonotone(x.at, e.value.lastSeen);
        if x.at >= t.value.lastSeen {
          DayStartIsMonotone(t.value.lastSeen, x.at);
        }
      } else {
        DayStartIsMonotone(t.value.lastSeen, x.at);
        DayStartIsMonotone(e.value.lastSeen, x.at);
      }
    }
  }

  /**
   Refinement. Over any sightings in any order, interleaved with day-aligned retention, the throttled
   table keeps exactly the rows the eager one keeps, each last seen on the same UTC day; so every
   day-aligned delete decides the same on both.
   */
  lemma {:induction false} ThrottledRefinesEager(events: seq<Event>, cutoff: Time)
    requires Aligned(events) && cutoff % DAY == 0
    ensures Agree(Run(events, false), Run(events, true))
    ensures Run(events, false).Some? ==>
      (Run(events, false).value.lastSeen < cutoff <==> Run(events, true).value.lastSeen < cutoff)
  {
    if events != [] {
      var front, e := events[..|events| - 1], events[|events| - 1];
      assert events == front + [e];
      match e
      case Seen(x) =>
        ThrottledRefinesEager(front, cutoff);
        SeenKeepsAgreement(Run(front, false), Run(front, true), x);
      case Expire(c, reached) =>
        ThrottledRefinesEager(front, c);
    }
    DecisionsAgreeIffAligned(cutoff);
  }

  /** The eager table stores the true latest sighting time and, while nothing expires, the true earliest. */
  lemma {:induction false} EagerIsExact(xs: seq<Sighting>)
    requires xs != []
    ensures var row := Run(Sightings(xs), true);
      && row.Some?
      && (exists i :: 0 <= i < |xs| && xs[i].at == row.value.lastSeen && xs[i].meta == row.value.meta)
      && (exists i :: 0 <= i < |xs| && xs[i].at == row.value.firstSeen)
      && forall i | 0 <= i < |xs| :: row.value.firstSeen <= xs[i].at <= row.value.lastSeen
  {
    var front := xs[..|xs| - 1];
    assert Sightings(xs)[..|xs| - 1] == Sightings(front);
    if front == [] {
      assert Run(Sightings(front), true) == None;
      assert xs[0].at == Run(Sightings(xs), true).value.lastSeen;
    } else {
      EagerIsExact(front);
      assert forall i | 0 <= i < |front| :: front[i] == xs[i];
      assert xs[|xs| - 1] == xs[|front|];
    }
  }

  function Sightings(xs: seq<Sighting>): seq<Event> {
    seq(|xs|, i requires 0 <= i < |xs| => Seen(xs[i]))
  }

  // ---- Schema and module ----

  /**
   With schema and module agreeing so far, a sighting keeps them agreeing exactly unless it is older
   than the true latest, not older than the stored one, and differs.
   */
  lemma MetaAgreesIff(t: Row, e: Row, x: Sighting)
    requires Agree(Some(t), Some(e)) && t.meta == e.meta
    ensures Throttled(Some(t), x).meta == Eager(Some(e), x).meta <==>
            !(t.lastSeen <= x.at < e.lastSeen && x.meta != t.meta)
  {
    if x.at <= e.lastSeen {
      DayStartIsMonotone(x.at, e.lastSeen);
    } else {
      DayStartIsMonotone(e.lastSeen, x.at);
      DayStartIsMonotone(t.lastSeen, x.at);
    }
  }

  /** The row, if there is one, has the schema and module it would have in the eager table. */
  ghost predicate MetaAgreesAt(events: seq<Event>, n: nat)
    requires n <= |events|
  {
    var t, e := Run(events[..n], false), Run(events[..n], true);
    t.Some? && e.Some? ==> t.value.meta == e.value.meta
  }

  /** Event i is a sighting that differs from the stored row and lies between its time and the true latest. */
  ghost predicate Strays(events: seq<Event>, i: nat)
    requires i < |events|
  {
    var t, e := Run(events[..i], false), Run(events[..i], true);
    && events[i].Seen? && t.Some? && e.Some?
    && t.value.lastSeen <= events[i].x.at < e.value.lastSeen && events[i].x.meta != t.value.meta
  }

  lemma StepKeepsMetaIff(events: seq<Event>, i: nat)
    requires Aligned(events) && i < |events| && MetaAgreesAt(events, i)
    ensures MetaAgreesAt(events, i + 1) <==> !Strays(events, i)
  {
    var front := events[..i];
    assert events[..i + 1][..i] == front && events[..i + 1][i] == events[i];
    assert forall e | e in front :: e in events;
    ThrottledRefinesEager(front, 0);
    var t, e := Run(front, false), Run(front, true);
    if events[i].Seen? && t.Some? {
      MetaAgreesIff(t.value, e.value, events[i].x);
    } else if events[i].Expire? {
      assert events[i] in events;
      ThrottledRefinesEager(front, events[i].cutoff);
    }
  }

  lemma {:induction false} NoneStraysSoFar(events: seq<Event>, n: nat)
    requires Aligned(events) && n <= |events| && forall i | 0 <= i < n :: !Strays(events, i)
    ensures MetaAgreesAt(events, n)
  {
    if n > 0 {
      NoneStraysSoFar(events, n - 1);
      StepKeepsMetaIff(events, n - 1);
    }
  }

  /**
   Over any run of sightings in any order and day-aligned deletes, schema and module are at every point those of the
   eager table, exactly if no sighting strays: differs, and lies between the stored and the true latest time.
   */
  lemma MetaAgreesThroughoutIff(events: seq<Event>)
    requires Aligned(events)
    ensures (forall n | 0 <= n <= |events| :: MetaAgreesAt(events, n)) <==> forall i | 0 <= i < |events| :: !Strays(events, i)
  {
    if forall i | 0 <= i < |events| :: !Strays(events, i) {
      forall n | 0 <= n <= |events|
        ensures MetaAgreesAt(events, n)
      {
        NoneStraysSoFar(events, n);
      }
    }
    if forall n | 0 <= n <= |events| :: MetaAgreesAt(events, n) {
      forall i | 0 <= i < |events|
        ensures !Strays(events, i)
      {
        assert MetaAgreesAt(events, i) && MetaAgreesAt(events, i + 1);
        StepKeepsMetaIff(events, i);
      }
    }
  }

  /** Sightings arrive in time order. */
  ghost predicate InOrder(events: seq<Event>) {
    forall i, j | 0 <= i < j < |events| && events[i].Seen? && events[j].Seen? :: events[i].x.at <= events[j].x.at
  }

  function LastSighting(events: seq<Event>): Option<Sighting> {
    if events == [] then None
    else
      match events[|events| - 1]
      case Seen(x) => Some(x)
      case Expire(_, _) => LastSighting(events[..|events| - 1])
  }

  lemma {:induction false} LastSightingIsEvent(events: seq<Event>)
    requires LastSighting(events).Some?
    ensures exists i :: 0 <= i < |events| && events[i] == Seen(LastSighting(events).value)
  {
    var n := |events| - 1;
    if events[n].Expire? {
      LastSightingIsEvent(events[..n]);
      var i :| 0 <= i < n && events[..n][i] == Seen(LastSighting(events).value);
      assert events[i] == Seen(LastSighting(events).value);
    } else {
      assert events[n] == Seen(LastSighting(events).value);
    }
  }

  /** The stored schema and module, and the time they would have in the eager table, are the last sighting's. */
  ghost predicate IsLastSighting(events: seq<Event>) {
    Run(events, false).Some? ==>
      && Run(events, true).Some? && LastSighting(events).Some?
      && Run(events, false).value.meta == Run(events, true).value.meta == LastSighting(events).value.meta
      && Run(events, true).value.lastSeen == LastSighting(events).value.at
  }

  lemma SightingInOrderIsLast(front: seq<Event>, x: Sighting)
    requires Agree(Run(front, false), Run(front, true)) && IsLastSighting(front)
    requires LastSighting(front).Some? ==> LastSighting(front).value.at <= x.at
    ensures IsLastSighting(front + [Seen(x)])
  {
    var events, t, g := front + [Seen(x)], Run(front, false), Run(front, true);
    assert events[..|front|] == front;
    if t.Some? {
      MetaAgreesIff(t.value, g.value, x);
    }
  }

  /** When sightings arrive in time order, the stored schema and module are those of the latest one, ties included. */
  lemma {:induction false} InOrderMetaIsLatest(events: seq<Event>)
    requires Aligned(events) && InOrder(events)
    ensures IsLastSighting(events)
  {
    if events != [] {
      var front, e := events[..|events| - 1], events[|events| - 1];
      assert events == front + [e];
      InOrderMetaIsLatest(front);
      ThrottledRefinesEager(front, 0);
      match e
      case Seen(x) =>
        if LastSighting(front).Some? {
          LastSightingIsEvent(front);
          var i :| 0 <= i < |front| && front[i] == Seen(LastSighting(front).value);
          assert events[i] == front[i] && events[|front|] == Seen(x);
        }
        SightingInOrderIsLast(front, x);
      case Expire(c, reached) =>
        ThrottledRefinesEager(front, c);
    }
  }

  /** Out of order, an older sighting can replace newer metadata: ten, noon, then eleven o'clock. */
  lemma OutOfOrderMetaCanBeStale(a: Meta, b: Meta)
    requires a != b
    ensures var hour := 3_600_000_000_000;
      var xs := [Sighting(a, 10 * hour), Sighting(a, 12 * hour), Sighting(b, 11 * hour)];
      Run(Sightings(xs), false).value.meta == b && Run(Sightings(xs), true).value.meta == a
  {
    var hour := 3_600_000_000_000;
    var xs := [Sighting(a, 10 * hour), Sighting(a, 12 * hour), Sighting(b, 11 * hour)];
    var events := Sightings(xs);
    assert events[..2][..1] == events[..1] && events[..1][..0] == [];
    var first := [Seen(xs[0])];
    assert events[..1] == first && first[..0] == [];
    var e1, t1 := Run(first, true), Run(first, false);
    assert Run([], true) == None && Run([], false) == None;
    assert e1 == t1 == Some(Row(a, 10 * hour, 10 * hour));
    assert Run(events[..2], true) == Some(Row(a, 10 * hour, 12 * hour));
    assert DayStart(12 * hour) == 0 && DayStart(11 * hour) == 0;
    assert Run(events[..2], false) == t1;
  }

  // ---- First seen ----

  lemma FirstSeenNeverMoves(row: Row, x: Sighting)
    requires row.firstSeen <= row.lastSeen
    ensures Throttled(Some(row), x).firstSeen == row.firstSeen <= Throttled(Some(row), x).lastSeen
  {
  }

  /** The sightings since the stored row was made: the one that made it, and those after. */
  function SinceMade(events: seq<Event>): seq<Sighting> {
    if events == [] || Run(events, false).None? then []
    else
      var front := SinceMade(events[..|events| - 1]);
      match events[|events| - 1]
      case Seen(x) => front + [x]
      case Expire(_, _) => front
  }

  /** The two tables' first times: of the first arrival, and of the earliest. */
  ghost predicate FirstTimes(t: Row, e: Row, since: seq<Sighting>) {
    && since != [] && t.firstSeen == since[0].at && t.firstSeen <= t.lastSeen
    && (forall i | 0 <= i < |since| :: e.firstSeen <= since[i].at)
    && exists i :: 0 <= i < |since| && since[i].at == e.firstSeen
  }

  lemma SightingKeepsFirstTimes(t: Row, e: Row, since: seq<Sighting>, x: Sighting)
    requires FirstTimes(t, e, since)
    ensures FirstTimes(Throttled(Some(t), x), Eager(Some(e), x), since + [x])
  {
    FirstSeenNeverMoves(t, x);
    var i :| 0 <= i < |since| && since[i].at == e.firstSeen;
    assert (since + [x])[i] == since[i] && (since + [x])[|since|] == x;
  }

  lemma {:induction false} RowHasFirstTimes(events: seq<Event>)
    requires Aligned(events)
    ensures Run(events, false).Some? <==> Run(events, true).Some?
    ensures Run(events, false).Some? ==> FirstTimes(Run(events, false).value, Run(events, true).value, SinceMade(events))
  {
    if events != [] {
      var front, last := events[..|events| - 1], events[|events| - 1];
      assert events == front + [last];
      RowHasFirstTimes(front);
      ThrottledRefinesEager(events, 0);
      if Run(front, false).Some? && last.Seen? {
        SightingKeepsFirstTimes(Run(front, false).value, Run(front, true).value, SinceMade(front), last.x);
      } else if last.Seen? {
        assert SinceMade(front) == [] && SinceMade(events) == [last.x];
      }
    }
  }

  /**
   The stored first sighting is the first to arrive since the row was made, whatever `least` in the upsert
   suggests; so it is the earliest exactly when none that arrived later is older.
   */
  lemma FirstSeenIsFirstArrival(events: seq<Event>)
    requires Aligned(events) && Run(events, false).Some?
    ensures var since := SinceMade(events);
      && since != [] && Run(events, false).value.firstSeen == since[0].at
      && Run(events, true).Some?
      && (Run(events, false).value.firstSeen == Run(events, true).value.firstSeen <==>
          forall i | 0 <= i < |since| :: since[0].at <= since[i].at)
  {
    RowHasFirstTimes(events);
  }
}
