/**
 Daily partitions and retention (postgresql/postgresql.go:2630-2696, 2702-2802, 2870-2925).

 Samples live in one partition per UTC day, and retention finds out which day a partition holds from its name.
 SQL texts and plans are deleted by when a sample last referred to them.
 */
module Retention {
  import opened Common
  import opened Calendar
  import SqlTexts

  /** Schema and table, as `pgx.Identifier` holds them. */
  type Identifier = seq<string>

  /** PostgreSQL keeps this much of a name (section 4.1.1 of its manual); one byte a character here. */
  const NAME_LIMIT := 63

  function Stored(name: string): string {
    name[..Min(NAME_LIMIT, |name|)]
  }

  function DayOf(t: Time): Date {
    DateOf(t / DAY)
  }

  function InstantOf(d: Date): Time {
    DayNumber(d) * DAY
  }

  predicate IsMidnight(t: Time) {
    t % DAY == 0
  }

  function PartitionIdentifier(parent: Identifier, day: Time): (r: Identifier)
    ensures r != []
  {
    var suffix := Format(DayOf(day));
    if parent == [] then ["partition_" + suffix]
    else parent[..|parent| - 1] + [parent[|parent| - 1] + "_" + suffix]
  }

  function PartitionDay(parent: Identifier, partition: string): Option<Time> {
    if parent == [] then None
    else
      var prefix := parent[|parent| - 1] + "_";
      if !(prefix <= partition) then None
      else
        var day := Parse(partition[|prefix|..]);
        if day.Some? then Some(InstantOf(day.value)) else None
  }

  /** The name PostgreSQL knows a day's partition by. */
  function NameFor(parent: Identifier, day: Time): string {
    var id := PartitionIdentifier(parent, day);
    Stored(id[|id| - 1])
  }

  /** A table name with room for "_2006_01_02" after it. */
  predicate LeavesRoom(parent: Identifier) {
    parent != [] && |parent[|parent| - 1]| + 11 <= 63
  }

  // ---- Names and days ----

  lemma MidnightsAreDays(day: Time)
    requires IsMidnight(day)
    ensures IsDate(DayOf(day)) && InstantOf(DayOf(day)) == day
  {
    DateOfIsInverse(day / DAY);
  }

  /** Retention can tell the day: its year takes four digits. */
  predicate Readable(day: Time) {
    FIRST_DAY * DAY <= day <= LAST_DAY * DAY
  }

  lemma ReadableIff(day: Time)
    requires IsMidnight(day)
    ensures Readable(day) <==> HasFourDigitYear(DayOf(day))
  {
    FourDigitYearIff(day / DAY);
  }

  lemma InstantsAreMidnights(d: Date)
    requires IsDate(d)
    ensures IsMidnight(InstantOf(d)) && DayOf(InstantOf(d)) == d
  {
    assert InstantOf(d) % DAY == 0 && InstantOf(d) / DAY == DayNumber(d);
    DateOfIsInverse(DayNumber(d));
    DayNumberIsInjective(DayOf(InstantOf(d)), d);
  }

  /** Cutting a longer year's text short does not make it a date. */
  lemma LongYearIsNeverRead(d: Date, n: nat)
    requires IsDate(d) && n <= |Format(d)| && (n < |Format(d)| || !HasFourDigitYear(d))
    ensures Parse(Format(d)[..n]) == None
  {
    MonthAndDayTakeTwo(d);
    YearTakesFourIff(d);
    if !HasFourDigitYear(d) && n == 10 {
      var s, year := Format(d), AppendInt(d.year, 4);
      ValueOfPad(if d.year < 0 then -d.year else d.year, 4);
      assert s[0] == year[0] && s[4] == year[4];
      if d.year < 0 {
        assert s[..n][..4][0] == '-';
      } else {
        assert '0' <= s[..n][4] <= '9';
      }
    }
  }

  /**
   The name of a day's partition gives the day back exactly when its year takes four digits and the table's
   name leaves room; in every other case no day is read, so the partition is never taken for another day's.
   */
  lemma PartitionDayUndoesIdentifier(parent: Identifier, day: Time)
    requires IsMidnight(day)
    ensures PartitionDay(parent, NameFor(parent, day)) ==
            if LeavesRoom(parent) && HasFourDigitYear(DayOf(day)) then Some(day) else None
  {
    if parent != [] {
      var date, name, prefix := DayOf(day), NameFor(parent, day), parent[|parent| - 1] + "_";
      var suffix := Format(date);
      MidnightsAreDays(day);
      MonthAndDayTakeTwo(date);
      YearTakesFourIff(date);
      assert name == (prefix + suffix)[..Min(NAME_LIMIT, |prefix + suffix|)];
      if LeavesRoom(parent) && HasFourDigitYear(date) {
        assert name == prefix + suffix && name[|prefix|..] == suffix;
        ParseFormat(date);
      } else if prefix <= name {
        assert name[|prefix|..] == suffix[..|name| - |prefix|];
        LongYearIsNeverRead(date, |name| - |prefix|);
      }
    }
  }

  /** And a partition from which a day is read has the name that day is given. */
  lemma IdentifierUndoesPartitionDay(parent: Identifier, partition: string)
    requires PartitionDay(parent, partition).Some?
    ensures var day := PartitionDay(parent, partition).value;
            var id := PartitionIdentifier(parent, day);
            IsMidnight(day) && id[|id| - 1] == partition && HasFourDigitYear(DayOf(day))
  {
    var prefix := parent[|parent| - 1] + "_";
    var suffix := partition[|prefix|..];
    FormatParse(suffix);
    InstantsAreMidnights(Parse(suffix).value);
    assert partition == prefix + suffix;
  }

  /** The name is the table's, "_" and the date's ten characters, in the table's schema, cut at 63. */
  lemma NameIsTableAndDate(parent: Identifier, day: Time)
    requires parent != []
    ensures var id, name := PartitionIdentifier(parent, day), parent[|parent| - 1] + "_" + Format(DayOf(day));
            && |id| == |parent| && id[..|id| - 1] == parent[..|parent| - 1] && id[|id| - 1] == name
            && NameFor(parent, day) == (if |name| <= 63 then name else name[..63])
  {
  }

  lemma NamesAreDistinct(parent: Identifier, a: Time, b: Time)
    requires LeavesRoom(parent) && IsMidnight(a) && IsMidnight(b) && Readable(a)
    ensures NameFor(parent, a) == NameFor(parent, b) ==> a == b
  {
    ReadableIff(a);
    PartitionDayUndoesIdentifier(parent, a);
    PartitionDayUndoesIdentifier(parent, b);
  }

  /** Without the room, two days share a name: 2024-01-01 and 2024-01-02 differ in their last character only. */
  lemma CrowdedNamesCollide(parent: Identifier)
    requires parent != [] && !LeavesRoom(parent)
    ensures var a, b := InstantOf(Date(2024, 1, 1)), InstantOf(Date(2024, 1, 2));
            && IsMidnight(a) && IsMidnight(b) && a != b && Readable(a)
            && NameFor(parent, a) == NameFor(parent, b)
  {
    var x, y := Date(2024, 1, 1), Date(2024, 1, 2);
    InstantsAreMidnights(x);
    InstantsAreMidnights(y);
    YearTakesFourIff(x);
    ReadableIff(InstantOf(x));
    var table, tens := parent[|parent| - 1], Pad(0, 1);
    assert |tens| == 1 && Pad(1, 2) == tens + [Digit(1)] && Pad(2, 2) == tens + [Digit(2)];
    var common := AppendInt(2024, 4) + "_" + Pad(1, 2) + "_" + tens;
    assert Format(x) == common + [Digit(1)] && Format(y) == common + [Digit(2)];
    SameWhenCut(table + "_", common, [Digit(1)], [Digit(2)]);
  }

  lemma SameWhenCut(prefix: string, common: string, a: string, b: string)
    requires |prefix| + |common| >= NAME_LIMIT
    ensures Stored(prefix + (common + a)) == Stored(prefix + (common + b))
  {
    assert prefix + (common + a) == prefix + common + a;
    assert prefix + (common + b) == prefix + common + b;
    assert Stored(prefix + common + a) == (prefix + common)[..NAME_LIMIT] == Stored(prefix + common + b);
  }

  /** Days of four-digit years have names of their own exactly when the table's name leaves room. */
  lemma NamesAreDistinctIff(parent: Identifier)
    requires parent != []
    ensures LeavesRoom(parent) <==>
            forall a, b | IsMidnight(a) && IsMidnight(b) && Readable(a) && a != b ::
              NameFor(parent, a) != NameFor(parent, b)
  {
    if LeavesRoom(parent) {
      forall a, b | IsMidnight(a) && IsMidnight(b) && Readable(a) && a != b
        ensures NameFor(parent, a) != NameFor(parent, b)
      {
        NamesAreDistinct(parent, a, b);
      }
    } else {
      CrowdedNamesCollide(parent);
    }
  }

  // ---- Partitions ----

  datatype Bounds = Bounds(from: Time, to: Time)

  /** The partitions of one table, by name. */
  type Partitions = map<string, Bounds>

  predicate Holds(b: Bounds, t: Time) {
    b.from <= t < b.to
  }

  /** Every partition holds one UTC day and has that day's name. */
  ghost predicate Daily(parent: Identifier, ps: Partitions) {
    forall name | name in ps :: IsMidnight(ps[name].from) && ps[name].to == ps[name].from + DAY
                                && name == NameFor(parent, ps[name].from)
  }

  function Days(times: seq<Time>): set<Time> {
    set t | t in times && t != ZERO_TIME :: DayStart(t)
  }

  function Names(parent: Identifier, days: set<Time>): set<string> {
    set day | day in days :: NameFor(parent, day)
  }

  ghost predicate Extended(ps: Partitions, names: set<string>, ps': Partitions) {
    && ps'.Keys == ps.Keys + names
    && forall name | name in ps :: ps'[name] == ps[name]
  }

  /** Nothing goes or changes, and a partition is there for the name of every day written to, and no other. */
  ghost predicate Ensured(parent: Identifier, ps: Partitions, days: set<Time>, ps': Partitions) {
    && Extended(ps, Names(parent, days), ps')
    && Daily(parent, ps')
  }

  method EnsureDailyPartitions(parent: Identifier, times: seq<Time>, ps: Partitions) returns (ps': Partitions)
    requires Daily(parent, ps)
    ensures Ensured(parent, ps, Days(times), ps')
  {
    var days: set<Time> := {};
    for i := 0 to |times|
      invariant days == Days(times[..i])
    {
      assert times[..i + 1] == times[..i] + [times[i]];
      if times[i] != ZERO_TIME {
        days := days + {DayStart(times[i])};
      }
    }
    assert times[..|times|] == times;
    ps' := ps;
    var left := days;
    while left != {}
      invariant left <= days && forall day | day in days :: IsMidnight(day)
      invariant Ensured(parent, ps, days - left, ps')
    {
      var day :| day in left;
      EnsureOneMore(parent, ps, days - left, ps', day);
      var name := NameFor(parent, day);
      if name !in ps' {
        ps' := ps'[name := Bounds(day, day + DAY)];
      }
      assert days - (left - {day}) == (days - left) + {day};
      left := left - {day};
    }
    assert days - left == days;
  }

  lemma EnsureOneMore(parent: Identifier, ps: Partitions, done: set<Time>, ps': Partitions, day: Time)
    requires Ensured(parent, ps, done, ps') && IsMidnight(day)
    ensures var name := NameFor(parent, day);
            Ensured(parent, ps, done + {day}, if name in ps' then ps' else ps'[name := Bounds(day, day + DAY)])
  {
    var name := NameFor(parent, day);
    NamesOfOneMore(parent, done, day);
    DailyWithOneMore(parent, ps', day);
    ExtendedByOneMore(ps, Names(parent, done), ps', name, Bounds(day, day + DAY));
  }

  lemma ExtendedByOneMore(ps: Partitions, names: set<string>, ps': Partitions, name: string, b: Bounds)
    requires Extended(ps, names, ps')
    ensures Extended(ps, names + {name}, if name in ps' then ps' else ps'[name := b])
  {
  }

  lemma DailyWithOneMore(parent: Identifier, ps: Partitions, day: Time)
    requires Daily(parent, ps) && IsMidnight(day)
    ensures Daily(parent, ps[NameFor(parent, day) := Bounds(day, day + DAY)])
  {
  }

  lemma NamesOfOneMore(parent: Identifier, done: set<Time>, day: Time)
    ensures Names(parent, done + {day}) == Names(parent, done) + {NameFor(parent, day)}
  {
  }

  /** No two partitions overlap, so PostgreSQL has no cause to refuse one. */
  lemma PartitionsAreDisjoint(parent: Identifier, ps: Partitions, t: Time)
    requires Daily(parent, ps)
    ensures forall a | a in ps && Holds(ps[a], t) :: a == NameFor(parent, DayStart(t)) && ps[a].from == DayStart(t)
    ensures forall a, b | a in ps && b in ps && Holds(ps[a], t) && Holds(ps[b], t) :: a == b
  {
    forall a | a in ps && Holds(ps[a], t)
      ensures ps[a].from == DayStart(t)
    {
      OneMidnight(ps[a].from, t);
    }
  }

  lemma OneMidnight(day: Time, t: Time)
    requires IsMidnight(day) && day <= t < day + DAY
    ensures day == DayStart(t)
  {
  }

  /** Once ensured, every time written is held by one partition: the one named after its day. */
  lemma WrittenTimesHaveOnePartition(parent: Identifier, ps: Partitions, times: seq<Time>, ps': Partitions, t: Time)
    requires Ensured(parent, ps, Days(times), ps')
    requires LeavesRoom(parent) && t in times && t != ZERO_TIME && Readable(DayStart(t))
    ensures forall name :: name in ps' && Holds(ps'[name], t) <==> name == NameFor(parent, DayStart(t))
  {
    var own := NameFor(parent, DayStart(t));
    assert DayStart(t) in Days(times);
    assert own in ps';
    NamesAreDistinct(parent, DayStart(t), ps'[own].from);
    PartitionsAreDisjoint(parent, ps', t);
  }

  /** The test of `dropExpiredPartitionsForTable`. */
  predicate Expired(parent: Identifier, partition: string, cutoff: Time) {
    var day := PartitionDay(parent, partition);
    day.Some? && day.value + DAY <= cutoff
  }

  function ExpiredNames(parent: Identifier, ps: Partitions, cutoff: Time): set<string> {
    set name | name in ps && Expired(parent, name, cutoff)
  }

  method FindExpired(parent: Identifier, ps: Partitions, cutoff: Time) returns (expired: set<string>)
    ensures expired == ExpiredNames(parent, ps, cutoff)
  {
    expired := {};
    var left := ps.Keys;
    while left != {}
      invariant left <= ps.Keys
      invariant expired == set name | name in ps && name !in left && Expired(parent, name, cutoff)
    {
      var name :| name in left;
      left := left - {name};
      var day := PartitionDay(parent, name);
      if day.Some? && day.value + DAY <= cutoff {
        expired := expired + {name};
      }
    }
  }

  /** `dropExpiredPartitionsForTable`. */
  method DropExpiredPartitions(parent: Identifier, ps: Partitions, cutoff: Time) returns (ps': Partitions, dropped: nat)
    ensures ps' == ps - ExpiredNames(parent, ps, cutoff)
    ensures dropped == |ExpiredNames(parent, ps, cutoff)|
  {
    var expired := FindExpired(parent, ps, cutoff);
    ps', dropped := ps, |expired|;
    var left := expired;
    while left != {}
      invariant left <= expired
      invariant ps' == ps - (expired - left)
    {
      var name :| name in left;
      assert expired - (left - {name}) == (expired - left) + {name};
      left := left - {name};
      ps' := ps' - {name};
    }
  }

  /** A partition is dropped exactly when its whole day is before the day of the cutoff. */
  lemma DroppedIffBeforeCutoffDay(parent: Identifier, day: Time, cutoff: Time)
    requires IsMidnight(day) && LeavesRoom(parent) && Readable(day)
    ensures Expired(parent, NameFor(parent, day), cutoff) <==> day < DayStart(cutoff)
  {
    ReadableIff(day);
    PartitionDayUndoesIdentifier(parent, day);
    DayIsOverIff(day, cutoff);
  }

  lemma DayIsOverIff(day: Time, cutoff: Time)
    requires IsMidnight(day)
    ensures day + DAY <= cutoff <==> day < DayStart(cutoff)
  {
    var a, b := day / DAY, cutoff / DAY;
    assert day == a * DAY && DayStart(cutoff) == b * DAY;
  }

  /** A name that gives no day - too long, or of another year - is kept forever. */
  lemma UnreadableIsNeverDropped(parent: Identifier, day: Time, cutoff: Time)
    requires IsMidnight(day) && !(LeavesRoom(parent) && Readable(day))
    ensures !Expired(parent, NameFor(parent, day), cutoff)
  {
    ReadableIff(day);
    PartitionDayUndoesIdentifier(parent, day);
  }

  // ---- References ----

  /** The test of `deleteExpiredSQLTexts` and `deleteExpiredSQLPlans`, on the cutoff of the partitions. */
  predicate Unreferenced(lastReferenced: Time, cutoff: Time) {
    lastReferenced < DayStart(cutoff)
  }

  /**
   The row a sample refers to is safe from every cutoff that spares the sample exactly when its table's name leaves
   room, its day can be read, and the row was last referenced no earlier than that day - so not when a sample is
   dated a day ahead of its collection, and never for a sample whose partition is kept forever.
   */
  lemma ReferenceOutlivesSampleIff(parent: Identifier, sampleTime: Time, lastReferenced: Time)
    ensures (forall cutoff | Unreferenced(lastReferenced, cutoff) ::
              Expired(parent, NameFor(parent, DayStart(sampleTime)), cutoff)) <==>
            LeavesRoom(parent) && Readable(DayStart(sampleTime)) && DayStart(sampleTime) <= lastReferenced
  {
    var day := DayStart(sampleTime);
    if !(LeavesRoom(parent) && Readable(day)) {
      var cutoff := DayStart(lastReferenced) + DAY;
      OneMidnight(cutoff, cutoff);
      UnreadableIsNeverDropped(parent, day, cutoff);
      assert Unreferenced(lastReferenced, cutoff);
    } else if lastReferenced < day {
      DroppedIffBeforeCutoffDay(parent, day, day);
      OneMidnight(day, day);
      assert Unreferenced(lastReferenced, day);
    } else {
      forall cutoff | Unreferenced(lastReferenced, cutoff)
        ensures Expired(parent, NameFor(parent, day), cutoff)
      {
        DroppedIffBeforeCutoffDay(parent, day, cutoff);
      }
    }
  }

  // ---- Days instead of names ----

  /** The days a table has partitions of. */
  function DaysOf(ps: Partitions): set<Time> {
    set name | name in ps :: ps[name].from
  }

  lemma DaysExtended(ps: Partitions, days: set<Time>, ps': Partitions)
    requires forall name | name in ps :: name in ps' && ps'[name] == ps[name]
    requires forall day | day in days :: exists name :: name in ps' && ps'[name].from == day
    requires forall name | name in ps' && name !in ps :: ps'[name].from in days
    ensures DaysOf(ps') == DaysOf(ps) + days
  {
    forall day | day in DaysOf(ps) + days
      ensures day in DaysOf(ps')
    {
      if day in DaysOf(ps) {
        var name :| name in ps && ps[name].from == day;
        assert name in ps' && ps'[name].from == day;
      }
    }
    forall day | day in DaysOf(ps')
      ensures day in DaysOf(ps) + days
    {
      var name :| name in ps' && ps'[name].from == day;
      assert name in ps ==> ps[name] == ps'[name];
    }
  }

  /** For a table whose name leaves room, ensuring partitions adds just their days. */
  lemma EnsuringAddsDays(parent: Identifier, ps: Partitions, days: set<Time>, ps': Partitions)
    requires LeavesRoom(parent) && Daily(parent, ps) && Ensured(parent, ps, days, ps')
    requires forall day | day in days :: IsMidnight(day) && Readable(day)
    ensures DaysOf(ps') == DaysOf(ps) + days
  {
    forall day | day in days
      ensures exists name :: name in ps' && ps'[name].from == day
    {
      var name := NameFor(parent, day);
      assert name in Names(parent, days) && name in ps';
      NamesAreDistinct(parent, day, ps'[name].from);
    }
    forall name | name in ps' && name !in ps
      ensures ps'[name].from in days
    {
      var day :| day in days && NameFor(parent, day) == name;
      NamesAreDistinct(parent, day, ps'[name].from);
    }
    DaysExtended(ps, days, ps');
  }

  /** A test on names that agrees with a test on days keeps the other days. */
  lemma DaysKept(ps: Partitions, gone: set<string>, expired: set<Time>)
    requires forall name | name in ps :: name in gone <==> ps[name].from in expired
    ensures DaysOf(ps - gone) == DaysOf(ps) - expired
  {
    forall day | day in DaysOf(ps) - expired
      ensures day in DaysOf(ps - gone)
    {
      var name :| name in ps && ps[name].from == day;
      assert name in ps - gone && (ps - gone)[name].from == day;
    }
    forall day | day in DaysOf(ps - gone)
      ensures day in DaysOf(ps) - expired
    {
      var name :| name in ps - gone && (ps - gone)[name].from == day;
      assert name in ps && name !in gone;
    }
  }

  /** And dropping the expired partitions, of any table, removes just the droppable days before that of the cutoff. */
  lemma DroppingRemovesDays(parent: Identifier, ps: Partitions, cutoff: Time)
    requires Daily(parent, ps)
    ensures DaysOf(ps - ExpiredNames(parent, ps, cutoff)) ==
            DaysOf(ps) - ExpiredDays(LeavesRoom(parent), DaysOf(ps), cutoff)
  {
    forall name | name in ps
      ensures name in ExpiredNames(parent, ps, cutoff) <==> ps[name].from in ExpiredDays(LeavesRoom(parent), DaysOf(ps), cutoff)
    {
      ExpiredIff(parent, ps[name].from, cutoff);
    }
    DaysKept(ps, ExpiredNames(parent, ps, cutoff), ExpiredDays(LeavesRoom(parent), DaysOf(ps), cutoff));
  }

  lemma ExpiredIff(parent: Identifier, day: Time, cutoff: Time)
    requires IsMidnight(day)
    ensures Expired(parent, NameFor(parent, day), cutoff) <==> ExpiredDay(LeavesRoom(parent), day, cutoff)
  {
    if Droppable(LeavesRoom(parent), day) {
      DroppedIffBeforeCutoffDay(parent, day, cutoff);
    } else {
      UnreadableIsNeverDropped(parent, day, cutoff);
    }
  }

  // ---- Whole runs ----

  /**
   What matters of one sample table and one row, of a text or a plan: whether the table's name leaves room, the days
   with a partition, the times of the samples that refer to the row, when it was last referenced (None: no row), and
   the cutoff of a cleanup that has dropped its partitions and has yet to reach the rows.
   */
  datatype State = State(roomy: bool, days: set<Time>, samples: set<Time>, row: Option<Time>, sweeping: Option<Time>)

  function Start(roomy: bool): State {
    State(roomy, {}, {}, None, None)
  }

  datatype Step =
    // One committed batch: samples that refer to the row, other samples, and what it does to the row.
    | Write(times: seq<Time>, others: seq<Time>, upsert: Option<Time>, reference: Option<Time>)
    // A cleanup drops these days' partitions, as far as it gets; all of those expired, or it goes no further.
    | Drop(cutoff: Time, dropped: set<Time>)
    // It deletes rows; or, having failed elsewhere, it does not.
    | DeleteRows
    | GiveUp

  /** The upsert, then the reference update, of one batch. */
  function Referenced(row: Option<Time>, upsert: Option<Time>, reference: Option<Time>): Option<Time> {
    if row.None? && upsert.None? then None else Later(Later(row, upsert), reference)
  }

  /** Retention drops the day's partition some time. */
  predicate Droppable(roomy: bool, day: Time) {
    roomy && Readable(day)
  }

  predicate ExpiredDay(roomy: bool, day: Time, cutoff: Time) {
    Droppable(roomy, day) && day < DayStart(cutoff)
  }

  function ExpiredDays(roomy: bool, days: set<Time>, cutoff: Time): set<Time> {
    set day | day in days && ExpiredDay(roomy, day, cutoff)
  }

  function Surviving(samples: set<Time>, days: set<Time>): set<Time> {
    set t | t in samples && DayStart(t) in days
  }

  /** Of a batch with a sample that no partition takes PostgreSQL commits nothing. */
  predicate Enabled(s: State, step: Step) {
    match step
    case Write(times, others, _, _) => forall t | t in times :: DayStart(t) in s.days + Days(times + others)
    case Drop(cutoff, dropped) => dropped <= ExpiredDays(s.roomy, s.days, cutoff)
    case DeleteRows => s.sweeping.Some?
    case GiveUp => true
  }

  /** One atomic step; a step that is not enabled changes nothing. */
  function Apply(s: State, step: Step): State {
    if !Enabled(s, step) then s
    else
      match step
      case Write(times, others, upsert, reference) =>
        State(s.roomy, s.days + Days(times + others), s.samples + (set t | t in times),
              Referenced(s.row, upsert, reference), s.sweeping)
      case Drop(cutoff, dropped) =>
        State(s.roomy, s.days - dropped, Surviving(s.samples, s.days - dropped), s.row,
              if dropped == ExpiredDays(s.roomy, s.days, cutoff) then Some(cutoff) else None)
      case DeleteRows =>
        s.(sweeping := None, row := if s.row.Some? && Unreferenced(s.row.value, s.sweeping.value) then None else s.row)
      case GiveUp => s.(sweeping := None)
  }

  /** A cleanup's deletion takes the row exactly if it was last referenced before the cutoff's day, and ends the cleanup. */
  lemma CleanupDeletesUnreferenced(s: State, cutoff: Time)
    requires s.sweeping == Some(cutoff)
    ensures var s' := Apply(s, DeleteRows);
      && s'.sweeping.None? && s'.samples == s.samples && s'.days == s.days
      && (s'.row.Some? <==> s.row.Some? && s.row.value >= DayStart(cutoff)) && (s'.row.Some? ==> s'.row == s.row)
    ensures Apply(s, GiveUp) == s.(sweeping := None)
  {
  }

  function Run(s: State, steps: seq<Step>): State {
    if steps == [] then s else Apply(Run(s, steps[..|steps| - 1]), steps[|steps| - 1])
  }

  // ---- Which states cleanups leave whole ----

  /** The row goes, and a sample that refers to it stays. */
  ghost predicate Orphans(s: State, s': State) {
    s.row.Some? && s'.row.None? && exists t :: t in s'.samples
  }

  /** Cleanups, interrupted anywhere, and nothing else. */
  ghost predicate AreCleanups(steps: seq<Step>) {
    forall step | step in steps :: !step.Write?
  }

  /** Whatever cleanups follow, no step of theirs deletes a row that a remaining sample refers to. */
  ghost predicate CleanupsSpare(s: State) {
    forall steps, last | AreCleanups(steps + [last]) :: !Orphans(Run(s, steps), Apply(Run(s, steps), last))
  }

  /** A row last referenced at `at` outlives a sample of a droppable day no later, unless a cleanup under way is past it. */
  predicate Covered(roomy: bool, t: Time, at: Time, sweeping: Option<Time>) {
    && Droppable(roomy, DayStart(t)) && DayStart(t) <= at
    && (sweeping.Some? ==> DayStart(sweeping.value) <= at)
  }

  ghost predicate Safe(s: State) {
    s.row.Some? ==> forall t | t in s.samples :: Covered(s.roomy, t, s.row.value, s.sweeping)
  }

  lemma DropKeepsSafe(s: State, cutoff: Time, dropped: set<Time>)
    requires Safe(s)
    ensures Safe(Apply(s, Drop(cutoff, dropped)))
  {
    var s' := Apply(s, Drop(cutoff, dropped));
    forall t | t in s'.samples && s'.row.Some?
      ensures Covered(s.roomy, t, s'.row.value, s'.sweeping)
    {
      assert Covered(s.roomy, t, s.row.value, s.sweeping);
    }
  }

  lemma DeleteSparesCovered(s: State, t: Time)
    requires t in s.samples && s.row.Some? && Safe(s)
    ensures Apply(s, DeleteRows).row == s.row
  {
    assert Covered(s.roomy, t, s.row.value, s.sweeping);
  }

  lemma CleanupStepIsSafe(s: State, step: Step)
    requires Safe(s) && !step.Write?
    ensures Safe(Apply(s, step)) && !Orphans(s, Apply(s, step))
  {
    match step
    case Drop(cutoff, dropped) => DropKeepsSafe(s, cutoff, dropped);
    case DeleteRows =>
      if t :| s.row.Some? && t in s.samples {
        DeleteSparesCovered(s, t);
      }
    case GiveUp =>
      forall t | t in s.samples && s.row.Some?
        ensures Covered(s.roomy, t, s.row.value, None)
      {
        assert Covered(s.roomy, t, s.row.value, s.sweeping);
      }
  }

  lemma {:induction false} CleanupIsSafe(s: State, steps: seq<Step>)
    requires Safe(s) && AreCleanups(steps)
    ensures Safe(Run(s, steps))
  {
    if steps != [] {
      var front, last := steps[..|steps| - 1], steps[|steps| - 1];
      assert last in steps && forall step | step in front :: step in steps;
      CleanupIsSafe(s, front);
      CleanupStepIsSafe(Run(s, front), last);
    }
  }

  /** Each sample's partition is there. */
  ghost predicate Placed(s: State) {
    forall t | t in s.samples :: DayStart(t) in s.days
  }

  /** A cutoff past the row's last reference that nevertheless spares the sample. */
  function CutoffBetween(roomy: bool, t: Time, at: Time): Time {
    if Droppable(roomy, DayStart(t)) then DayStart(t) else DayStart(at) + DAY
  }

  lemma CutoffSpares(roomy: bool, t: Time, at: Time)
    requires !Droppable(roomy, DayStart(t)) || at < DayStart(t)
    ensures Unreferenced(at, CutoffBetween(roomy, t, at)) && !ExpiredDay(roomy, DayStart(t), CutoffBetween(roomy, t, at))
  {
    var cutoff := CutoffBetween(roomy, t, at);
    OneMidnight(cutoff, cutoff);
  }

  /** Dropping all that has expired, then deleting. */
  lemma CleanupTakesRow(s: State, t: Time)
    requires Placed(s) && t in s.samples && s.row.Some? && (!Droppable(s.roomy, DayStart(t)) || s.row.value < DayStart(t))
    ensures !CleanupsSpare(s)
  {
    var cutoff := CutoffBetween(s.roomy, t, s.row.value);
    CutoffSpares(s.roomy, t, s.row.value);
    var drop := Drop(cutoff, ExpiredDays(s.roomy, s.days, cutoff));
    assert [drop][..0] == [] && Run(s, [drop]) == Apply(s, drop);
    assert t in Apply(Apply(s, drop), DeleteRows).samples;
    assert AreCleanups([drop] + [DeleteRows]);
    assert Orphans(Run(s, [drop]), Apply(Run(s, [drop]), DeleteRows));
  }

  lemma SweepTakesRow(s: State, t: Time)
    requires t in s.samples && s.row.Some? && s.sweeping.Some? && Unreferenced(s.row.value, s.sweeping.value)
    ensures !CleanupsSpare(s)
  {
    assert t in Apply(s, DeleteRows).samples && Run(s, []) == s;
    assert AreCleanups([] + [DeleteRows]) && Orphans(Run(s, []), Apply(Run(s, []), DeleteRows));
  }

  /** No cleanup to come can take the row from under a sample exactly if the row covers every sample. */
  lemma CleanupsSpareIffSafe(s: State)
    requires Placed(s)
    ensures CleanupsSpare(s) <==> Safe(s)
  {
    if Safe(s) {
      forall steps, last | AreCleanups(steps + [last])
        ensures !Orphans(Run(s, steps), Apply(Run(s, steps), last))
      {
        assert last in steps + [last] && forall step | step in steps :: step in steps + [last];
        CleanupIsSafe(s, steps);
        CleanupStepIsSafe(Run(s, steps), last);
      }
    } else {
      var t :| t in s.samples && !Covered(s.roomy, t, s.row.value, s.sweeping);
      if Droppable(s.roomy, DayStart(t)) && DayStart(t) <= s.row.value {
        SweepTakesRow(s, t);
      } else {
        CleanupTakesRow(s, t);
      }
    }
  }

  // ---- Which batches keep it so ----

  /**
   A batch that leaves no row is safe. Any other must leave the row covering the batch's own samples; and if it
   brings the row, those already there.
   */
  ghost predicate SafeWrite(s: State, step: Step)
    requires step.Write?
  {
    var row := Referenced(s.row, step.upsert, step.reference);
    row.Some? ==>
      && (forall t | t in step.times :: Covered(s.roomy, t, row.value, s.sweeping))
      && (s.row.None? ==> forall t | t in s.samples :: Covered(s.roomy, t, row.value, s.sweeping))
  }

  lemma WriteIsSafeIff(s: State, step: Step)
    requires Safe(s) && step.Write? && Enabled(s, step)
    ensures Safe(Apply(s, step)) <==> SafeWrite(s, step)
  {
    var s' := Apply(s, step);
    forall t | t in step.times
      ensures t in s'.samples
    {
    }
    forall t | t in s.samples && s.row.Some?
      ensures Covered(s.roomy, t, s'.row.value, s'.sweeping)
    {
      assert Covered(s.roomy, t, s.row.value, s.sweeping);
    }
  }

  lemma StepKeepsPlaced(s: State, step: Step)
    requires Placed(s)
    ensures Placed(Apply(s, step))
  {
  }

  lemma {:induction false} RunKeepsPlaced(roomy: bool, steps: seq<Step>)
    ensures Placed(Run(Start(roomy), steps))
  {
    if steps != [] {
      RunKeepsPlaced(roomy, steps[..|steps| - 1]);
      StepKeepsPlaced(Run(Start(roomy), steps[..|steps| - 1]), steps[|steps| - 1]);
    }
  }

  /** Step i, if it is a batch that commits, is a safe write. */
  ghost predicate SafeAt(roomy: bool, steps: seq<Step>, i: nat)
    requires i < |steps|
  {
    steps[i].Write? && Enabled(Run(Start(roomy), steps[..i]), steps[i]) ==> SafeWrite(Run(Start(roomy), steps[..i]), steps[i])
  }

  lemma RunOneMore(s: State, steps: seq<Step>, i: nat)
    requires i < |steps|
    ensures Run(s, steps[..i + 1]) == Apply(Run(s, steps[..i]), steps[i])
  {
    assert steps[..i + 1][..i] == steps[..i];
  }

  /** From a safe state, a step leads to a safe one exactly if it is not an unsafe write. */
  lemma StepKeepsSafeIff(roomy: bool, steps: seq<Step>, i: nat)
    requires i < |steps| && Safe(Run(Start(roomy), steps[..i]))
    ensures Safe(Run(Start(roomy), steps[..i + 1])) <==> SafeAt(roomy, steps, i)
  {
    RunOneMore(Start(roomy), steps, i);
    var s := Run(Start(roomy), steps[..i]);
    if Enabled(s, steps[i]) {
      if steps[i].Write? {
        WriteIsSafeIff(s, steps[i]);
      } else {
        CleanupStepIsSafe(s, steps[i]);
      }
    }
  }

  lemma {:induction false} SafeWritesKeepSafe(roomy: bool, steps: seq<Step>, n: nat)
    requires n <= |steps| && forall i | 0 <= i < n :: SafeAt(roomy, steps, i)
    ensures Safe(Run(Start(roomy), steps[..n]))
  {
    if n > 0 {
      SafeWritesKeepSafe(roomy, steps, n - 1);
      StepKeepsSafeIff(roomy, steps, n - 1);
    }
  }

  ghost predicate SparedAt(roomy: bool, steps: seq<Step>, n: nat)
    requires n <= |steps|
  {
    CleanupsSpare(Run(Start(roomy), steps[..n]))
  }

  lemma SparedIffSafe(roomy: bool, steps: seq<Step>, n: nat)
    requires n <= |steps|
    ensures SparedAt(roomy, steps, n) <==> Safe(Run(Start(roomy), steps[..n]))
  {
    RunKeepsPlaced(roomy, steps[..n]);
    CleanupsSpareIffSafe(Run(Start(roomy), steps[..n]));
  }

  /**
   References stay whole. Over any run of writes and interrupted cleanups, with writes between dropping and
   deleting: at no point can cleanups delete a text or plan that a remaining sample refers to, exactly if every
   batch that commits is a safe write.
   */
  lemma ReferencesStayWholeIff(roomy: bool, steps: seq<Step>)
    ensures (forall n | 0 <= n <= |steps| :: SparedAt(roomy, steps, n)) <==> forall i | 0 <= i < |steps| :: SafeAt(roomy, steps, i)
  {
    if forall i | 0 <= i < |steps| :: SafeAt(roomy, steps, i) {
      forall n | 0 <= n <= |steps|
        ensures SparedAt(roomy, steps, n)
      {
        SafeWritesKeepSafe(roomy, steps, n);
        SparedIffSafe(roomy, steps, n);
      }
    }
    if forall n | 0 <= n <= |steps| :: SparedAt(roomy, steps, n) {
      forall i | 0 <= i < |steps|
        ensures SafeAt(roomy, steps, i)
      {
        assert SparedAt(roomy, steps, i) && SparedAt(roomy, steps, i + 1);
        SparedIffSafe(roomy, steps, i);
        SparedIffSafe(roomy, steps, i + 1);
        StepKeepsSafeIff(roomy, steps, i);
      }
    }
  }

  /** So in a run of safe writes no row is deleted while a sample that refers to it is still there. */
  lemma ReferencesStayWhole(roomy: bool, steps: seq<Step>, n: nat)
    requires n < |steps| && forall i | 0 <= i < |steps| :: SafeAt(roomy, steps, i)
    ensures !Orphans(Run(Start(roomy), steps[..n]), Run(Start(roomy), steps[..n + 1]))
  {
    SafeWritesKeepSafe(roomy, steps, n);
    RunOneMore(Start(roomy), steps, n);
    if !steps[n].Write? {
      CleanupStepIsSafe(Run(Start(roomy), steps[..n]), steps[n]);
    }
  }

  /** A SQL text's row moves as rows do here. */
  lemma TextRowsAreReferenced(existing: Option<SqlTexts.Row>, batch: SqlTexts.Batch, k: SqlTexts.Key)
    ensures var upsert := SqlTexts.RecordOf(batch.sightings, k);
            LastReferenced(SqlTexts.WrittenRow(existing, batch, k)) ==
            Referenced(LastReferenced(existing),
                       if upsert.Some? then Some(upsert.value.lastSeen) else None,
                       SqlTexts.ReferenceOf(batch.references, k))
  {
  }

  function LastReferenced(row: Option<SqlTexts.Row>): Option<Time> {
    if row.Some? then Some(row.value.lastReferenced) else None
  }

  // ---- The four ways a write is unsafe ----

  lemma RunOfTwo(s: State, x: Step, y: Step)
    ensures Run(s, [x]) == Apply(s, x) && Run(s, [x, y]) == Apply(Apply(s, x), y)
  {
    assert [x][..0] == [] && [x, y][..1] == [x];
  }

  lemma FirstDay(roomy: bool, day: Time, upsert: Option<Time>, reference: Option<Time>, sweeping: Option<Time>)
    requires IsMidnight(day) && day != ZERO_TIME
    ensures Apply(Start(roomy).(sweeping := sweeping), Write([day], [], upsert, reference)) ==
            State(roomy, {day}, {day}, Referenced(None, upsert, reference), sweeping)
  {
    OneMidnight(day, day);
    assert [day] + [] == [day] && Days([day]) == {day};
  }

  lemma UncoveredIsUnsafe(s: State, day: Time, at: Time)
    requires Placed(s) && day in s.samples && IsMidnight(day) && s.row == Some(at)
    requires !Droppable(s.roomy, day) || at < day || (s.sweeping.Some? && at < DayStart(s.sweeping.value))
    ensures !CleanupsSpare(s)
  {
    OneMidnight(day, day);
    CleanupsSpareIffSafe(s);
    assert !Covered(s.roomy, day, at, s.sweeping);
  }

  /** A sample dated a day ahead of the collection that refers to its text. */
  lemma SampleAheadLosesItsRow(roomy: bool, day: Time)
    requires IsMidnight(day) && day > ZERO_TIME
    ensures var s := Run(Start(roomy), [Write([day], [], Some(day - 1), Some(day - 1))]);
            s == State(roomy, {day}, {day}, Some(day - 1), None) && !CleanupsSpare(s)
  {
    RunOfTwo(Start(roomy), Write([day], [], Some(day - 1), Some(day - 1)), DeleteRows);
    FirstDay(roomy, day, Some(day - 1), Some(day - 1), None);
    OneMidnight(day, day);
    UncoveredIsUnsafe(State(roomy, {day}, {day}, Some(day - 1), None), day, day - 1);
  }

  /** A timely reference that finds no row, and a text that comes later with an earlier date. */
  lemma LateTextLosesItsRow(roomy: bool, day: Time)
    requires IsMidnight(day) && day > ZERO_TIME
    ensures var s := Run(Start(roomy), [Write([day], [], None, Some(day)), Write([], [], Some(day - 1), None)]);
            s == State(roomy, {day}, {day}, Some(day - 1), None) && !CleanupsSpare(s)
  {
    RunOfTwo(Start(roomy), Write([day], [], None, Some(day)), Write([], [], Some(day - 1), None));
    FirstDay(roomy, day, None, Some(day), None);
    assert Days([] + []) == {};
    OneMidnight(day, day);
    UncoveredIsUnsafe(State(roomy, {day}, {day}, Some(day - 1), None), day, day - 1);
  }

  /** A sample from before the cutoff of a cleanup that has dropped its partitions and not yet deleted rows. */
  lemma OldSampleInSweepLosesItsRow(roomy: bool, day: Time)
    requires IsMidnight(day) && day > ZERO_TIME
    ensures var s := Run(Start(roomy), [Drop(day + DAY, {}), Write([day], [], Some(day), Some(day))]);
            s == State(roomy, {day}, {day}, Some(day), Some(day + DAY)) && !CleanupsSpare(s)
  {
    RunOfTwo(Start(roomy), Drop(day + DAY, {}), Write([day], [], Some(day), Some(day)));
    assert ExpiredDays(roomy, {}, day + DAY) == {} && Surviving({}, {}) == {};
    assert Apply(Start(roomy), Drop(day + DAY, {})) == Start(roomy).(sweeping := Some(day + DAY));
    FirstDay(roomy, day, Some(day), Some(day), Some(day + DAY));
    OneMidnight(day, day);
    OneMidnight(day + DAY, day + DAY);
    UncoveredIsUnsafe(State(roomy, {day}, {day}, Some(day), Some(day + DAY)), day, day);
  }

  /**
   A sample whose partition is never dropped, however timely its reference: any day of a table whose name leaves no
   room, or a day from year 10000 on.
   */
  lemma UndroppableSampleLosesItsRow(roomy: bool, day: Time)
    requires IsMidnight(day) && day > ZERO_TIME && (!roomy || day > LAST_DAY * DAY)
    ensures var s := Run(Start(roomy), [Write([day], [], Some(day), Some(day))]);
            s == State(roomy, {day}, {day}, Some(day), None) && !CleanupsSpare(s)
  {
    RunOfTwo(Start(roomy), Write([day], [], Some(day), Some(day)), DeleteRows);
    FirstDay(roomy, day, Some(day), Some(day), None);
    OneMidnight(day, day);
    UncoveredIsUnsafe(State(roomy, {day}, {day}, Some(day), None), day, day);
  }
}
