/**
 SQL texts (postgresql/postgresql.go:1737-1871).

 A batch's sightings of SQL text are reduced to one record per (database, SQL ID) and upserted;
 references from other samples only push `last_referenced_at` forward on rows that exist.
 */
module SqlTexts {
  import opened Common

  datatype Key = Key(database: string, sqlId: string)

  datatype Sighting = Sighting(key: Key, text: string, at: Time)

  datatype Reference = Reference(key: Key, at: Time)

  /** A batch: its texts in the order the two text loops meet them, and every reference it makes. */
  datatype Batch = Batch(sightings: seq<Sighting>, references: seq<Reference>)

  datatype Record = Record(text: string, firstSeen: Time, lastSeen: Time)

  datatype Row = Row(record: Record, lastReferenced: Time)

  // ---- Collecting ----

  /** One turn of the text loops. */
  function Observe(previous: Option<Record>, s: Sighting): Record {
    if previous.None? then Record(s.text, s.at, s.at)
    else
      var r := previous.value;
      var first := if s.at < r.firstSeen then s.at else r.firstSeen;
      if s.at >= r.lastSeen then Record(s.text, first, s.at) else Record(r.text, first, r.lastSeen)
  }

  function RecordOf(sightings: seq<Sighting>, k: Key): Option<Record> {
    if sightings == [] then None
    else
      var front, s := RecordOf(sightings[..|sightings| - 1], k), sightings[|sightings| - 1];
      if s.key == k then Some(Observe(front, s)) else front
  }

  predicate Usable(r: Reference) {
    !Blank(r.key.database) && !Blank(r.key.sqlId) && r.at != ZERO_TIME
  }

  /** A reference counts if it names a database and a SQL ID, white space aside, and has a time. */
  lemma UsableIffNamedAndDated(r: Reference)
    ensures Usable(r) <==>
      && (exists c | c in r.key.database :: !IsSpace(c)) && (exists c | c in r.key.sqlId :: !IsSpace(c)) && r.at != 0
  {
  }

  function ReferenceOf(references: seq<Reference>, k: Key): Option<Time> {
    if references == [] then None
    else
      var front, r := ReferenceOf(references[..|references| - 1], k), references[|references| - 1];
      if r.key == k && Usable(r) then Later(front, Some(r.at)) else front
  }

  /** `collectSQLTextUpdates`. */
  method CollectSQLTextUpdates(batch: Batch) returns (texts: map<Key, Record>, references: map<Key, Time>)
    ensures forall k :: Get(texts, k) == RecordOf(batch.sightings, k)
    ensures forall k :: Get(references, k) == ReferenceOf(batch.references, k)
  {
    texts, references := map[], map[];
    for i := 0 to |batch.sightings|
      invariant forall k :: Get(texts, k) == RecordOf(batch.sightings[..i], k)
    {
      var s := batch.sightings[i];
      assert batch.sightings[..i + 1][..i] == batch.sightings[..i];
      texts := texts[s.key := Observe(Get(texts, s.key), s)];
    }
    for i := 0 to |batch.references|
      invariant forall k :: Get(references, k) == ReferenceOf(batch.references[..i], k)
    {
      var r := batch.references[i];
      assert batch.references[..i + 1][..i] == batch.references[..i];
      if Usable(r) && (r.key !in references || r.at > references[r.key]) {
        references := references[r.key := r.at];
      }
    }
    assert batch.sightings[..|batch.sightings|] == batch.sightings;
    assert batch.references[..|batch.references|] == batch.references;
  }

  // ---- The table ----

  /** The text columns of `on conflict do update`. */
  function Merged(existing: Option<Record>, excluded: Option<Record>): Option<Record> {
    if existing.None? then excluded
    else if excluded.None? then existing
    else
      var e, x := existing.value, excluded.value;
      Some(Record(if x.lastSeen >= e.lastSeen then x.text else e.text,
                  Min(e.firstSeen, x.firstSeen), Max(e.lastSeen, x.lastSeen)))
  }

  function RecordIn(row: Option<Row>): Option<Record> {
    if row.Some? then Some(row.value.record) else None
  }

  /** A row after one batch: the upsert, then the reference update. */
  function WrittenRow(existing: Option<Row>, batch: Batch, k: Key): Option<Row> {
    RowFrom(existing, RecordOf(batch.sightings, k), ReferenceOf(batch.references, k))
  }

  function RowFrom(existing: Option<Row>, excluded: Option<Record>, reference: Option<Time>): Option<Row> {
    var record := Merged(RecordIn(existing), excluded);
    if record.None? then None
    else
      var upserted := Later(if existing.Some? then Some(existing.value.lastReferenced) else None,
                            if excluded.Some? then Some(excluded.value.lastSeen) else None);
      var referenced := Later(upserted, reference);
      Some(Row(record.value, if referenced.Some? then referenced.value else ZERO_TIME))
  }

  /** `writeSQLTexts`: upsert every collected text, then push every reference onto an existing row. */
  method WriteSQLTexts(table: map<Key, Row>, batch: Batch) returns (table': map<Key, Row>)
    ensures forall k :: Get(table', k) == WrittenRow(Get(table, k), batch, k)
  {
    var texts, references := CollectSQLTextUpdates(batch);
    table' := table;
    var left := texts.Keys;
    while left != {}
      invariant left <= texts.Keys
      invariant forall k ::
        Get(table', k) == if k in texts && k !in left then Some(UpsertedRow(Get(table, k), texts[k])) else Get(table, k)
    {
      var k :| k in left;
      table' := table'[k := UpsertedRow(Get(table', k), texts[k])];
      left := left - {k};
    }
    ghost var upserted := table';
    left := references.Keys;
    while left != {}
      invariant left <= references.Keys
      invariant table'.Keys == upserted.Keys
      invariant forall k | k in table' ::
        table'[k] == if k in references && k !in left then ReferencedRow(upserted[k], references[k]) else upserted[k]
    {
      var k :| k in left;
      if k in table' {
        table' := table'[k := ReferencedRow(table'[k], references[k])];
      }
      left := left - {k};
    }
    forall k
      ensures Get(table', k) == WrittenRow(Get(table, k), batch, k)
    {
      assert Get(texts, k) == RecordOf(batch.sightings, k);
      assert Get(references, k) == ReferenceOf(batch.references, k);
      assert Get(upserted, k) == if k in texts then Some(UpsertedRow(Get(table, k), texts[k])) else Get(table, k);
    }
  }

  function UpsertedRow(existing: Option<Row>, excluded: Record): Row {
    Row(Merged(RecordIn(existing), Some(excluded)).value,
        if existing.None? then excluded.lastSeen else Max(existing.value.lastReferenced, excluded.lastSeen))
  }

  function ReferencedRow(row: Row, at: Time): Row {
    row.(lastReferenced := Max(row.lastReferenced, at))
  }

  // ---- What a row says about the history ----

  /** Earliest and latest sighting of the key, both attained, and a text seen at the latest. */
  ghost predicate Describes(r: Record, all: set<Sighting>, k: Key) {
    && (exists s | s in all :: s.key == k && s.at == r.firstSeen)
    && (exists s | s in all :: s.key == k && s.at == r.lastSeen && s.text == r.text)
    && forall s | s in all && s.key == k :: r.firstSeen <= s.at <= r.lastSeen
  }

  ghost predicate DescribesOrNone(r: Option<Record>, all: set<Sighting>, k: Key) {
    if r.None? then forall s | s in all :: s.key != k else Describes(r.value, all, k)
  }

  function SetOf(sightings: seq<Sighting>): set<Sighting> {
    set s | s in sightings
  }

  lemma {:induction false} RecordDescribes(sightings: seq<Sighting>, k: Key)
    ensures DescribesOrNone(RecordOf(sightings, k), SetOf(sightings), k)
  {
    if sightings != [] {
      var front, s := sightings[..|sightings| - 1], sightings[|sightings| - 1];
      RecordDescribes(front, k);
      assert sightings == front + [s];
      assert SetOf(sightings) == SetOf(front) + {s};
      MergedDescribes(RecordOf(front, k), SetOf(front), if s.key == k then Some(Record(s.text, s.at, s.at)) else None, {s}, k);
    }
  }

  lemma MergedDescribes(a: Option<Record>, seenA: set<Sighting>, b: Option<Record>, seenB: set<Sighting>, k: Key)
    requires DescribesOrNone(a, seenA, k) && DescribesOrNone(b, seenB, k)
    ensures DescribesOrNone(Merged(a, b), seenA + seenB, k)
  {
    var all, m := seenA + seenB, Merged(a, b);
    if a.Some? && b.Some? {
      var fa :| fa in seenA && fa.key == k && fa.at == a.value.firstSeen;
      var fb :| fb in seenB && fb.key == k && fb.at == b.value.firstSeen;
      var la :| la in seenA && la.key == k && la.at == a.value.lastSeen && la.text == a.value.text;
      var lb :| lb in seenB && lb.key == k && lb.at == b.value.lastSeen && lb.text == b.value.text;
      assert fa in all && fb in all && la in all && lb in all;
    }
  }

  /** The table after committing batches one after another, key by key. */
  function Run(batches: seq<Batch>, k: Key): Option<Row> {
    if batches == [] then None else WrittenRow(Run(batches[..|batches| - 1], k), batches[|batches| - 1], k)
  }

  function AllOf(batches: seq<Batch>): set<Sighting> {
    set b, s | b in batches && s in b.sightings :: s
  }

  /** After any batches, a key has a row exactly when its text was seen, and the row describes every sighting. */
  lemma {:induction false} RunDescribes(batches: seq<Batch>, k: Key)
    ensures DescribesOrNone(RecordIn(Run(batches, k)), AllOf(batches), k)
  {
    if batches != [] {
      var front, last := batches[..|batches| - 1], batches[|batches| - 1];
      assert batches == front + [last];
      assert AllOf(batches) == AllOf(front) + SetOf(last.sightings);
      RunDescribes(front, k);
      RecordDescribes(last.sightings, k);
      MergedDescribes(RecordIn(Run(front, k)), AllOf(front), RecordOf(last.sightings, k), SetOf(last.sightings), k);
    }
  }

  /** Two batchings of the same sightings, in any order, agree on which rows there are and on their times. */
  lemma CommitOrderDoesNotMatterToTimes(a: seq<Batch>, b: seq<Batch>, k: Key)
    requires AllOf(a) == AllOf(b)
    ensures Run(a, k).Some? <==> Run(b, k).Some?
    ensures Run(a, k).Some? ==>
      && Run(a, k).value.record.firstSeen == Run(b, k).value.record.firstSeen
      && Run(a, k).value.record.lastSeen == Run(b, k).value.record.lastSeen
  {
    RunDescribes(a, k);
    RunDescribes(b, k);
  }

  ghost predicate IsLatest(s: Sighting, all: set<Sighting>, k: Key) {
    s in all && s.key == k && forall t | t in all && t.key == k :: t.at <= s.at
  }

  /** Two texts were seen at the latest instant of the key. */
  ghost predicate Tied(all: set<Sighting>, k: Key) {
    exists s, t :: IsLatest(s, all, k) && IsLatest(t, all, k) && s.text != t.text
  }

  function Flatten(batches: seq<Batch>): seq<Sighting> {
    if batches == [] then [] else Flatten(batches[..|batches| - 1]) + batches[|batches| - 1].sightings
  }

  lemma {:induction false} FlattenHasAll(batches: seq<Batch>)
    ensures SetOf(Flatten(batches)) == AllOf(batches)
  {
    if batches != [] {
      var front, last := batches[..|batches| - 1], batches[|batches| - 1];
      assert batches == front + [last];
      assert AllOf(batches) == AllOf(front) + SetOf(last.sightings);
      FlattenHasAll(front);
    }
  }

  /** The same sightings, each as often, in any order and batching. */
  ghost predicate SameSightings(a: seq<Batch>, b: seq<Batch>) {
    multiset(Flatten(a)) == multiset(Flatten(b))
  }

  lemma SameSightingsHaveSameSet(a: seq<Batch>, b: seq<Batch>)
    requires SameSightings(a, b)
    ensures AllOf(a) == AllOf(b)
  {
    FlattenHasAll(a);
    FlattenHasAll(b);
    forall s
      ensures s in Flatten(a) <==> s in Flatten(b)
    {
      assert s in Flatten(a) <==> s in multiset(Flatten(a));
      assert s in Flatten(b) <==> s in multiset(Flatten(b));
    }
  }

  /** Text and times are the same for every order and batching of the same sightings exactly without a tie at the latest. */
  lemma BatchingOfTextsDoesNotMatterIff(a: seq<Batch>, k: Key)
    ensures (forall b | SameSightings(a, b) :: RecordIn(Run(b, k)) == RecordIn(Run(a, k))) <==> !Tied(AllOf(a), k)
  {
    if Tied(AllOf(a), k) {
      TieMatters(a, k);
    } else {
      forall b | SameSightings(a, b)
        ensures RecordIn(Run(b, k)) == RecordIn(Run(a, k))
      {
        SameSightingsHaveSameSet(a, b);
        RunDescribes(a, k);
        RunDescribes(b, k);
        UntiedRecordsAgree(RecordIn(Run(a, k)), RecordIn(Run(b, k)), AllOf(a), k);
      }
    }
  }

  lemma UntiedRecordsAgree(x: Option<Record>, y: Option<Record>, all: set<Sighting>, k: Key)
    requires DescribesOrNone(x, all, k) && DescribesOrNone(y, all, k) && !Tied(all, k)
    ensures x == y
  {
    if x.Some? {
      var s :| s in all && s.key == k && s.at == x.value.lastSeen && s.text == x.value.text;
      var t :| t in all && t.key == k && t.at == y.value.lastSeen && t.text == y.value.text;
      assert IsLatest(s, all, k) && IsLatest(t, all, k);
    }
  }

  lemma TieMatters(a: seq<Batch>, k: Key)
    requires Tied(AllOf(a), k)
    ensures exists b :: SameSightings(a, b) && RecordIn(Run(b, k)) != RecordIn(Run(a, k))
  {
    var s, t :| IsLatest(s, AllOf(a), k) && IsLatest(t, AllOf(a), k) && s.text != t.text;
    var x, beforeS := EndingWithSighting(a, s);
    var y, beforeT := EndingWithSighting(a, t);
    LatestLastIsLeft(a, x, beforeS, s, k);
    LatestLastIsLeft(a, y, beforeT, t, k);
    assert RecordIn(Run(x, k)) != RecordIn(Run(a, k)) || RecordIn(Run(y, k)) != RecordIn(Run(a, k));
  }

  /** All the other sightings in one batch, and then one. */
  lemma EndingWithSighting(a: seq<Batch>, s: Sighting) returns (b: seq<Batch>, rest: Batch)
    requires s in AllOf(a)
    ensures b == [rest, Batch([s], [])] && SameSightings(a, b)
  {
    FlattenHasAll(a);
    assert s in SetOf(Flatten(a));
    var others := Without(Flatten(a), s);
    rest := Batch(others, []);
    b := [rest, Batch([s], [])];
    FlattenTwo(rest, Batch([s], []));
  }

  lemma Without(all: seq<Sighting>, s: Sighting) returns (others: seq<Sighting>)
    requires s in all
    ensures multiset(all) == multiset(others + [s])
  {
    var i :| 0 <= i < |all| && all[i] == s;
    others := all[..i] + all[i + 1..];
    assert all == all[..i] + [s] + all[i + 1..];
  }

  lemma FlattenTwo(x: Batch, y: Batch)
    ensures Flatten([x, y]) == x.sightings + y.sightings
  {
    assert [x, y][..1] == [x] && [x][..0] == [];
    assert Flatten([x]) == [] + x.sightings;
  }

  /** A latest sighting committed last, on its own, leaves its text. */
  lemma LatestLastIsLeft(a: seq<Batch>, b: seq<Batch>, rest: Batch, s: Sighting, k: Key)
    requires IsLatest(s, AllOf(a), k) && b == [rest, Batch([s], [])] && SameSightings(a, b)
    ensures Run(b, k).Some? && Run(b, k).value.record.text == s.text
  {
    assert b[..1] == [rest] && [s][..0] == [];
    assert RecordOf([s], k) == Some(Record(s.text, s.at, s.at));
    RunDescribes([rest], k);
    SameSightingsHaveSameSet(a, b);
    assert rest in b;
  }

  // ---- Whole rows, in any commit order ----

  function TextOf(b: Batch, k: Key): Option<Record> {
    RecordOf(b.sightings, k)
  }

  /** The latest time a batch refers to the key, by a text or a reference. */
  function Touch(b: Batch, k: Key): Option<Time> {
    Later(if TextOf(b, k).Some? then Some(TextOf(b, k).value.lastSeen) else None, ReferenceOf(b.references, k))
  }

  ghost predicate AtPeak(b: Batch, a: seq<Batch>, k: Key) {
    b in a && TextOf(b, k).Some?
    && forall c | c in a && TextOf(c, k).Some? :: TextOf(c, k).value.lastSeen <= TextOf(b, k).value.lastSeen
  }

  /** The last of the latest texts could be either of two. */
  ghost predicate TextsClash(a: seq<Batch>, k: Key) {
    exists p, q :: AtPeak(p, a, k) && AtPeak(q, a, k) && TextOf(p, k).value.text != TextOf(q, k).value.text
  }

  /** A batch without the text refers to it later than every batch with it: the reference is lost if it comes first. */
  ghost predicate Overreaches(n: Batch, a: seq<Batch>, k: Key) {
    n in a && TextOf(n, k).None? && Touch(n, k).Some?
    && forall c | c in a && TextOf(c, k).Some? :: Touch(c, k).value < Touch(n, k).value
  }

  ghost predicate NoTexts(a: seq<Batch>, k: Key) {
    forall b | b in a :: TextOf(b, k).None?
  }

  ghost predicate Reordered(a: seq<Batch>, b: seq<Batch>) {
    multiset(a) == multiset(b)
  }

  lemma ReorderedHasSame(a: seq<Batch>, b: seq<Batch>)
    requires Reordered(a, b)
    ensures forall x :: x in a <==> x in b
    ensures AllOf(a) == AllOf(b)
  {
    forall x
      ensures x in a <==> x in b
    {
      assert x in a <==> x in multiset(a);
      assert x in b <==> x in multiset(b);
    }
  }

  /** What a row comes from: a latest text, and a touch that none by a batch with the text exceeds. */
  ghost predicate ComesFrom(row: Option<Row>, a: seq<Batch>, k: Key) {
    if row.None? then NoTexts(a, k)
    else
      && (exists p :: AtPeak(p, a, k) && TextOf(p, k).value.lastSeen == row.value.record.lastSeen
                      && TextOf(p, k).value.text == row.value.record.text)
      && (exists b :: b in a && Touch(b, k) == Some(row.value.lastReferenced))
      && forall c | c in a && TextOf(c, k).Some? :: Touch(c, k).value <= row.value.lastReferenced
  }

  /** One batch more: its text and touch, on a row that is there or comes with it. */
  lemma RunOneMore(a: seq<Batch>, b: Batch, k: Key)
    ensures Run(a + [b], k) == WrittenRow(Run(a, k), b, k)
    ensures var row, row' := Run(a, k), Run(a + [b], k);
            && (row'.None? <==> row.None? && TextOf(b, k).None?)
            && (row'.Some? ==>
                Some(row'.value.lastReferenced) ==
                Later(if row.Some? then Some(row.value.lastReferenced) else None, Touch(b, k)))
            && RecordIn(row') == Merged(RecordIn(row), TextOf(b, k))
  {
    assert (a + [b])[..|a|] == a;
  }

  lemma {:induction false} RunComesFrom(a: seq<Batch>, k: Key)
    ensures ComesFrom(Run(a, k), a, k)
  {
    if a != [] {
      var front, b := a[..|a| - 1], a[|a| - 1];
      assert a == front + [b];
      RunComesFrom(front, k);
      RunOneMore(front, b, k);
      TextComesFrom(front, b, k);
      TouchComesFrom(front, b, k);
    }
  }

  lemma TextComesFrom(front: seq<Batch>, b: Batch, k: Key)
    requires ComesFrom(Run(front, k), front, k)
    ensures var a := front + [b];
            var row := Run(a, k);
            row.Some? ==> exists p :: AtPeak(p, a, k) && TextOf(p, k).value.lastSeen == row.value.record.lastSeen
                                      && TextOf(p, k).value.text == row.value.record.text
  {
    var a := front + [b];
    RunOneMore(front, b, k);
    var row := Run(front, k);
    if row.Some? {
      var p :| AtPeak(p, front, k) && TextOf(p, k).value.lastSeen == row.value.record.lastSeen
               && TextOf(p, k).value.text == row.value.record.text;
      if TextOf(b, k).None? || TextOf(b, k).value.lastSeen < row.value.record.lastSeen {
        assert AtPeak(p, a, k);
      } else {
        assert AtPeak(b, a, k);
      }
    } else if TextOf(b, k).Some? {
      assert AtPeak(b, a, k);
    }
  }

  lemma TouchComesFrom(front: seq<Batch>, b: Batch, k: Key)
    requires ComesFrom(Run(front, k), front, k)
    ensures var a := front + [b];
            var row := Run(a, k);
            row.Some? ==>
              && (exists c :: c in a && Touch(c, k) == Some(row.value.lastReferenced))
              && forall c | c in a && TextOf(c, k).Some? :: Touch(c, k).value <= row.value.lastReferenced
  {
    RunOneMore(front, b, k);
    var a, row := front + [b], Run(front, k);
    assert b in a;
    if row.Some? {
      var c :| c in front && Touch(c, k) == Some(row.value.lastReferenced);
      assert c in a;
    }
  }

  function Textless(a: seq<Batch>, k: Key): seq<Batch> {
    if a == [] then []
    else
      var front, b := Textless(a[..|a| - 1], k), a[|a| - 1];
      if TextOf(b, k).None? then front + [b] else front
  }

  function Textful(a: seq<Batch>, k: Key): seq<Batch> {
    if a == [] then []
    else
      var front, b := Textful(a[..|a| - 1], k), a[|a| - 1];
      if TextOf(b, k).Some? then front + [b] else front
  }

  lemma {:induction false} TextlessThenTextful(a: seq<Batch>, k: Key)
    ensures multiset(a) == multiset(Textless(a, k)) + multiset(Textful(a, k))
    ensures NoTexts(Textless(a, k), k)
    ensures forall b | b in Textful(a, k) :: b in a && TextOf(b, k).Some?
  {
    if a != [] {
      var front, b := a[..|a| - 1], a[|a| - 1];
      assert a == front + [b];
      TextlessThenTextful(front, k);
    }
  }

  /** With the batches without the text first, only batches with it move the reference. */
  lemma {:induction false} TextlessFirst(a: seq<Batch>, b: seq<Batch>, k: Key)
    requires NoTexts(a, k) && forall x | x in b :: TextOf(x, k).Some?
    ensures Run(a + b, k).Some? ==> exists x :: x in b && Touch(x, k) == Some(Run(a + b, k).value.lastReferenced)
    ensures b == [] ==> Run(a + b, k).None?
  {
    if b == [] {
      assert a + b == a;
      RunComesFrom(a, k);
    } else {
      var front, last := b[..|b| - 1], b[|b| - 1];
      assert b == front + [last] && a + b == (a + front) + [last];
      TextlessFirst(a, front, k);
      RunOneMore(a + front, last, k);
      assert last in b;
    }
  }

  /** An order that ends with a given batch. */
  lemma EndingWith(a: seq<Batch>, x: Batch) returns (rest: seq<Batch>)
    requires x in a
    ensures Reordered(a, rest + [x])
  {
    var i :| 0 <= i < |a| && a[i] == x;
    rest := a[..i] + a[i + 1..];
    assert a == a[..i] + [x] + a[i + 1..];
  }

  lemma PeakLastGivesText(a: seq<Batch>, rest: seq<Batch>, p: Batch, k: Key)
    requires AtPeak(p, a, k) && Reordered(a, rest + [p])
    ensures Run(rest + [p], k).Some? && Run(rest + [p], k).value.record.text == TextOf(p, k).value.text
  {
    ReorderedHasSame(a, rest + [p]);
    RunComesFrom(rest, k);
    RunOneMore(rest, p, k);
    if Run(rest, k).Some? {
      var q :| AtPeak(q, rest, k) && TextOf(q, k).value.lastSeen == Run(rest, k).value.record.lastSeen;
      assert q in rest + [p];
    }
  }

  lemma ClashMatters(a: seq<Batch>, k: Key)
    requires TextsClash(a, k)
    ensures exists b :: Reordered(a, b) && Run(b, k) != Run(a, k)
  {
    var p, q :| AtPeak(p, a, k) && AtPeak(q, a, k) && TextOf(p, k).value.text != TextOf(q, k).value.text;
    var x := EndingWith(a, p);
    var y := EndingWith(a, q);
    PeakLastGivesText(a, x, p, k);
    PeakLastGivesText(a, y, q, k);
    assert Run(x + [p], k) != Run(a, k) || Run(y + [q], k) != Run(a, k);
  }

  /** First, the batch without the text does not count. */
  lemma EarlyReferenceIsLost(a: seq<Batch>, n: Batch, k: Key) returns (early: seq<Batch>)
    requires Overreaches(n, a, k) && !NoTexts(a, k)
    ensures Reordered(a, early) && Run(early, k).Some? && Run(early, k).value.lastReferenced < Touch(n, k).value
  {
    early := Textless(a, k) + Textful(a, k);
    TextlessThenTextful(a, k);
    TextlessFirst(Textless(a, k), Textful(a, k), k);
    ReorderedHasSame(a, early);
    RunComesFrom(early, k);
  }

  /** Last, it does. */
  lemma LateReferenceCounts(a: seq<Batch>, n: Batch, k: Key) returns (late: seq<Batch>)
    requires n in a && Touch(n, k).Some? && !NoTexts(a, k)
    ensures Reordered(a, late) && Run(late, k).Some? && Run(late, k).value.lastReferenced >= Touch(n, k).value
  {
    var rest := EndingWith(a, n);
    late := rest + [n];
    ReorderedHasSame(a, late);
    RunComesFrom(late, k);
    RunOneMore(rest, n, k);
  }

  lemma OverreachMatters(a: seq<Batch>, n: Batch, k: Key)
    requires Overreaches(n, a, k) && !NoTexts(a, k)
    ensures exists b :: Reordered(a, b) && Run(b, k) != Run(a, k)
  {
    var early := EarlyReferenceIsLost(a, n, k);
    var late := LateReferenceCounts(a, n, k);
    assert Run(early, k) != Run(a, k) || Run(late, k) != Run(a, k);
  }

  /**
   Rows whole, last reference included, are the same for every commit order of the same batches exactly if no
   batch has the text; or no two latest texts clash, and no batch without the text refers to it later than all
   batches with it.
   */
  lemma CommitOrderDoesNotMatterIff(a: seq<Batch>, k: Key)
    ensures (forall b | Reordered(a, b) :: Run(b, k) == Run(a, k)) <==>
            NoTexts(a, k) || (!TextsClash(a, k) && forall n | n in a :: !Overreaches(n, a, k))
  {
    if !NoTexts(a, k) {
      if TextsClash(a, k) {
        ClashMatters(a, k);
      } else if n :| n in a && Overreaches(n, a, k) {
        OverreachMatters(a, n, k);
      }
    }
    if NoTexts(a, k) || (!TextsClash(a, k) && forall n | n in a :: !Overreaches(n, a, k)) {
      forall b | Reordered(a, b)
        ensures Run(b, k) == Run(a, k)
      {
        SameInBothOrders(a, b, k);
      }
    }
  }

  lemma SameInBothOrders(a: seq<Batch>, b: seq<Batch>, k: Key)
    requires Reordered(a, b)
    requires NoTexts(a, k) || (!TextsClash(a, k) && forall n | n in a :: !Overreaches(n, a, k))
    ensures Run(b, k) == Run(a, k)
  {
    ReorderedHasSame(a, b);
    CommitOrderDoesNotMatterToTimes(a, b, k);
    RunComesFrom(a, k);
    RunComesFrom(b, k);
    if Run(a, k).Some? {
      var ra, rb := Run(a, k).value, Run(b, k).value;
      var p :| AtPeak(p, a, k) && TextOf(p, k).value.text == ra.record.text;
      var q :| AtPeak(q, b, k) && TextOf(q, k).value.text == rb.record.text;
      assert AtPeak(q, a, k);
      LastReferencesAgree(a, ra.lastReferenced, rb.lastReferenced, k);
    }
  }

  lemma LastReferencesAgree(a: seq<Batch>, x: Time, y: Time, k: Key)
    requires forall n | n in a :: !Overreaches(n, a, k)
    requires !NoTexts(a, k)
    requires exists b :: b in a && Touch(b, k) == Some(x)
    requires exists b :: b in a && Touch(b, k) == Some(y)
    requires forall c | c in a && TextOf(c, k).Some? :: Touch(c, k).value <= x && Touch(c, k).value <= y
    ensures x == y
  {
    var b :| b in a && Touch(b, k) == Some(x);
    var c :| c in a && Touch(c, k) == Some(y);
    assert !Overreaches(b, a, k) && !Overreaches(c, a, k);
  }

  lemma {:induction false} RecordOfConcatenation(a: seq<Sighting>, b: seq<Sighting>, k: Key)
    ensures RecordOf(a + b, k) == Merged(RecordOf(a, k), RecordOf(b, k))
    ensures RecordOf(b, k).Some? ==> RecordOf(b, k).value.firstSeen <= RecordOf(b, k).value.lastSeen
  {
    if b == [] {
      assert a + b == a;
    } else {
      var front := b[..|b| - 1];
      assert (a + b)[..|a + b| - 1] == a + front;
      RecordOfConcatenation(a, front, k);
    }
  }

  lemma {:induction false} ReferenceOfConcatenation(a: seq<Reference>, b: seq<Reference>, k: Key)
    ensures ReferenceOf(a + b, k) == Later(ReferenceOf(a, k), ReferenceOf(b, k))
  {
    if b == [] {
      assert a + b == a;
    } else {
      assert (a + b)[..|a + b| - 1] == a + b[..|b| - 1];
      ReferenceOfConcatenation(a, b[..|b| - 1], k);
    }
  }

  function Together(a: Batch, b: Batch): Batch {
    Batch(a.sightings + b.sightings, a.references + b.references)
  }

  /** One write of the merged batch against two writes, on what the batches come to. */
  lemma OneWriteOrTwo(existing: Option<Row>, a: Option<Record>, x: Option<Time>, b: Option<Record>, y: Option<Time>)
    requires b.Some? ==> b.value.firstSeen <= b.value.lastSeen
    ensures var one, two := RowFrom(existing, Merged(a, b), Later(x, y)), RowFrom(RowFrom(existing, a, x), b, y);
            && RecordIn(one) == RecordIn(two)
            && (one == two <==>
                || existing.Some? || a.Some? || b.None? || x.None?
                || x.value <= Later(Some(b.value.lastSeen), y).value)
  {
  }

  /**
   Collecting two batches together then upserting gives the same text and times as upserting them one after the
   other, ties included - and the same row exactly if a row existed, or the first batch has the text, or neither
   has, or what the first refers to is no later than the second's text or reference.
   */
  lemma BatchingDoesNotMatterIff(existing: Option<Row>, a: Batch, b: Batch, k: Key)
    ensures RecordIn(WrittenRow(existing, Together(a, b), k)) == RecordIn(WrittenRow(WrittenRow(existing, a, k), b, k))
    ensures WrittenRow(existing, Together(a, b), k) == WrittenRow(WrittenRow(existing, a, k), b, k) <==>
            || existing.Some? || TextOf(a, k).Some? || TextOf(b, k).None?
            || ReferenceOf(a.references, k).None?
            || ReferenceOf(a.references, k).value <= Touch(b, k).value
  {
    RecordOfConcatenation(a.sightings, b.sightings, k);
    ReferenceOfConcatenation(a.references, b.references, k);
    OneWriteOrTwo(existing, TextOf(a, k), ReferenceOf(a.references, k), TextOf(b, k), ReferenceOf(b.references, k));
  }

  /** A reference at ten and a text at five: one batch, or the text first, gives ten; the reference first gives five. */
  lemma ReferenceBeforeTextIsLost(k: Key, text: string)
    requires !Blank(k.database) && !Blank(k.sqlId)
    ensures var a, b := Batch([], [Reference(k, 10)]), Batch([Sighting(k, text, 5)], []);
            && WrittenRow(None, Together(a, b), k) == Some(Row(Record(text, 5, 5), 10))
            && Run([] + [b] + [a], k) == Some(Row(Record(text, 5, 5), 10))
            && Run([] + [a] + [b], k) == Some(Row(Record(text, 5, 5), 5))
  {
    var a, b := Batch([], [Reference(k, 10)]), Batch([Sighting(k, text, 5)], []);
    assert [Reference(k, 10)][..0] == [] && [Sighting(k, text, 5)][..0] == [];
    assert ReferenceOf([Reference(k, 10)], k) == Some(10);
    assert RecordOf([Sighting(k, text, 5)], k) == Some(Record(text, 5, 5));
    assert Together(a, b) == Batch([Sighting(k, text, 5)], [Reference(k, 10)]);
    RunOneMore([], a, k);
    RunOneMore([] + [a], b, k);
    RunOneMore([], b, k);
    RunOneMore([] + [b], a, k);
  }

  /**
   A batch's references reach every row that exists once its texts are in, and never move a row back: it is last
   referenced at the latest of its usable references, its sightings and what the row had before.
   */
  lemma ReferencesReachRows(existing: Option<Row>, batch: Batch, k: Key)
    requires WrittenRow(existing, batch, k).Some?
    ensures var row := WrittenRow(existing, batch, k).value;
      && (forall r | r in batch.references && r.key == k && Usable(r) :: r.at <= row.lastReferenced)
      && (forall s | s in batch.sightings && s.key == k :: s.at <= row.lastReferenced)
      && (existing.Some? ==> existing.value.lastReferenced <= row.lastReferenced)
      && (|| (existing.Some? && existing.value.lastReferenced == row.lastReferenced)
          || (exists r | r in batch.references :: r.key == k && Usable(r) && r.at == row.lastReferenced)
          || exists s | s in batch.sightings :: s.key == k && s.at == row.lastReferenced)
  {
    RecordDescribes(batch.sightings, k);
    if ReferenceOf(batch.references, k).Some? {
      ReferenceOfIsAttained(batch.references, k);
    }
    forall r | r in batch.references && r.key == k && Usable(r)
      ensures ReferenceOf(batch.references, k).Some? && r.at <= ReferenceOf(batch.references, k).value
    {
      ReferenceOfIsLatest(batch.references, k, r);
    }
    forall s | s in batch.sightings && s.key == k
      ensures RecordOf(batch.sightings, k).Some? && s.at <= RecordOf(batch.sightings, k).value.lastSeen
    {
      assert s in SetOf(batch.sightings);
    }
  }

  lemma {:induction false} ReferenceOfIsAttained(references: seq<Reference>, k: Key)
    requires ReferenceOf(references, k).Some?
    ensures exists r | r in references :: r.key == k && Usable(r) && r.at == ReferenceOf(references, k).value
  {
    var front, last := references[..|references| - 1], references[|references| - 1];
    assert references == front + [last] && last in references;
    if ReferenceOf(front, k).Some? {
      ReferenceOfIsAttained(front, k);
    }
  }

  lemma {:induction false} ReferenceOfIsLatest(references: seq<Reference>, k: Key, r: Reference)
    requires r in references && r.key == k && Usable(r)
    ensures ReferenceOf(references, k).Some? && r.at <= ReferenceOf(references, k).value
  {
    var front, last := references[..|references| - 1], references[|references| - 1];
    assert references == front + [last];
    if r in front {
      ReferenceOfIsLatest(front, k, r);
    }
  }
}
