/**
 SQL consumer deltas and the top-N selection (collector/performance.go:220-385).

 Cumulative counters are turned into increments between consecutive snapshots, accumulated per SQL ID,
 and drained when the top consumers are taken.
 */
module SqlConsumers {
  import opened Common

  /** The fields of `sqlCounterValues`. */
  datatype Counter =
    | ElapsedTime | CpuTime | UserIoWait | ApplicationWait | ConcurrencyWait | ClusterWait
    | Executions | BufferGets | DiskReads

  /** A record of counters; one that is absent - NULL in a sample - is zero. */
  type Values = map<Counter, int>

  const ZERO: Values := map[]

  function Val(v: Values, c: Counter): (r: int)
    ensures c in v ==> r == v[c]
    ensures c !in v ==> r == 0
  {
    if c in v then v[c] else 0
  }

  function Add(a: Values, b: Values): Values {
    map c | c in a.Keys + b.Keys :: Val(a, c) + Val(b, c)
  }

  function MonotonicDelta(current: int, previous: int): int {
    if current >= previous then current - previous else 0
  }

  /** `sqlCounterDelta`: a key without a previous value counts in full. */
  function Delta(current: Values, previous: Option<Values>): Values {
    match previous
    case None => current
    case Some(p) => map c | c in current.Keys + p.Keys :: MonotonicDelta(Val(current, c), Val(p, c))
  }

  datatype Key = Key(instId: int, sqlId: string, planHashValue: int)

  datatype Sample = Sample(instId: int, sqlId: string, planHashValue: Option<int>, values: Values)

  function KeyOf(s: Sample): Key {
    Key(s.instId, s.sqlId, if s.planHashValue.Some? then s.planHashValue.value else 0)
  }

  /** Rows share a key just if they agree in instance, SQL ID and plan hash, a missing hash being 0. */
  lemma KeysAgreeIffColumnsDo(a: Sample, b: Sample)
    ensures KeyOf(a) == KeyOf(b) <==>
      && a.instId == b.instId && a.sqlId == b.sqlId
      && (if a.planHashValue.None? then 0 else a.planHashValue.value)
         == (if b.planHashValue.None? then 0 else b.planHashValue.value)
  {
  }

  // ---- Snapshots and increments, said directly ----

  /** The values a snapshot gives a key. */
  function Lookup(samples: seq<Sample>, k: Key): Option<Values> {
    if samples == [] then None
    else
      var last := samples[|samples| - 1];
      if last.sqlId != "" && KeyOf(last) == k then Some(last.values) else Lookup(samples[..|samples| - 1], k)
  }

  /** The increment of one counter of a key that now stands at `current`. */
  function Increment(previous: Option<Values>, current: Values, c: Counter): int {
    if previous.None? then Val(current, c) else MonotonicDelta(Val(current, c), Val(previous.value, c))
  }

  /** What the rows of one SQL ID have grown by, in one counter, since the previous snapshot. */
  function Growth(previous: seq<Sample>, samples: seq<Sample>, sqlId: string, c: Counter): int {
    if samples == [] then 0
    else
      var front, last := Growth(previous, samples[..|samples| - 1], sqlId, c), samples[|samples| - 1];
      if last.sqlId == "" || last.sqlId != sqlId then front
      else front + Increment(Lookup(previous, KeyOf(last)), last.values, c)
  }

  /**
   What one more row adds to its SQL ID, and to no other: all of a counter whose key is new, its rise if it has
   risen, and nothing if it has fallen.
   */
  lemma RowAddsItsRise(previous: seq<Sample>, samples: seq<Sample>, s: Sample, sqlId: string, c: Counter)
    ensures var added := Growth(previous, samples + [s], sqlId, c) - Growth(previous, samples, sqlId, c);
      var known := Lookup(previous, KeyOf(s));
      && (s.sqlId == "" || s.sqlId != sqlId ==> added == 0)
      && (s.sqlId != "" && s.sqlId == sqlId ==>
            && (known.None? ==> added == Val(s.values, c))
            && (known.Some? && Val(s.values, c) >= Val(known.value, c) ==> added == Val(s.values, c) - Val(known.value, c))
            && (known.Some? && Val(s.values, c) < Val(known.value, c) ==> added == 0))
  {
    assert (samples + [s])[..|samples|] == samples;
  }

  // ---- The scraper's two maps ----

  type Snapshot = map<Key, Values>
  type Deltas = map<string, Values>

  function At(m: Deltas, sqlId: string): Values {
    if sqlId in m then m[sqlId] else ZERO
  }

  ghost predicate Represents(m: Snapshot, samples: seq<Sample>) {
    forall k :: Get(m, k) == Lookup(samples, k)
  }

  /** Every counter of every SQL ID is up by its growth, or unchanged when there was no snapshot before. */
  ghost predicate HasGrown(deltas: Deltas, pending: Deltas, previous: Option<seq<Sample>>, samples: seq<Sample>) {
    forall id, c :: Val(At(deltas, id), c) ==
                    Val(At(pending, id), c) + (if previous.None? then 0 else Growth(previous.value, samples, id, c))
  }

  lemma RepresentsOneMore(m: Snapshot, samples: seq<Sample>, s: Sample)
    requires Represents(m, samples)
    ensures Represents(if s.sqlId == "" then m else m[KeyOf(s) := s.values], samples + [s])
  {
    assert (samples + [s])[..|samples|] == samples;
    forall k
      ensures Get(if s.sqlId == "" then m else m[KeyOf(s) := s.values], k) == Lookup(samples + [s], k)
    {
      assert Get(m, k) == Lookup(samples, k);
    }
  }

  /** The deltas after one row. */
  function Grown(known: Option<Snapshot>, deltas: Deltas, s: Sample): Deltas {
    if s.sqlId == "" || known.None? then deltas
    else deltas[s.sqlId := Add(At(deltas, s.sqlId), Delta(s.values, Get(known.value, KeyOf(s))))]
  }

  lemma GrownByOneMore(known: Option<Snapshot>, deltas: Deltas, pending: Deltas, previous: Option<seq<Sample>>, samples: seq<Sample>, s: Sample)
    requires known.Some? <==> previous.Some?
    requires known.Some? ==> Represents(known.value, previous.value)
    requires HasGrown(deltas, pending, previous, samples)
    ensures HasGrown(Grown(known, deltas, s), pending, previous, samples + [s])
  {
    assert (samples + [s])[..|samples|] == samples;
    forall id, c
      ensures Val(At(Grown(known, deltas, s), id), c) ==
              Val(At(pending, id), c) + (if previous.None? then 0 else Growth(previous.value, samples + [s], id, c))
    {
      assert Val(At(deltas, id), c) ==
             Val(At(pending, id), c) + (if previous.None? then 0 else Growth(previous.value, samples, id, c));
      if known.Some? {
        assert Get(known.value, KeyOf(s)) == Lookup(previous.value, KeyOf(s));
      }
    }
  }

  /** The loop of `recordSQLConsumerDeltas`. */
  method Accumulate(known: Option<Snapshot>, pending: Deltas, samples: seq<Sample>, ghost previous: Option<seq<Sample>>)
    returns (current: Snapshot, deltas: Deltas)
    requires known.Some? <==> previous.Some?
    requires known.Some? ==> Represents(known.value, previous.value)
    ensures Represents(current, samples)
    ensures HasGrown(deltas, pending, previous, samples)
  {
    current, deltas := map[], pending;
    for i := 0 to |samples|
      invariant Represents(current, samples[..i])
      invariant HasGrown(deltas, pending, previous, samples[..i])
    {
      var sample := samples[i];
      assert samples[..i + 1] == samples[..i] + [sample];
      RepresentsOneMore(current, samples[..i], sample);
      GrownByOneMore(known, deltas, pending, previous, samples[..i], sample);
      if sample.sqlId != "" {
        var key := KeyOf(sample);
        current := current[key := sample.values];
        if known.Some? {
          var delta := Delta(sample.values, Get(known.value, key));
          deltas := deltas[sample.sqlId := Add(At(deltas, sample.sqlId), delta)];
        }
      }
    }
    assert samples[..|samples|] == samples;
  }

  class Consumers {
    var sqlCounterSnapshots: map<string, Snapshot>
    var sqlConsumerDeltas: map<string, Deltas>

    constructor ()
      ensures sqlCounterSnapshots == map[] && sqlConsumerDeltas == map[]
    {
      sqlCounterSnapshots, sqlConsumerDeltas := map[], map[];
    }

    function Pending(database: string): Deltas
      reads this
    {
      if database in sqlConsumerDeltas then sqlConsumerDeltas[database] else map[]
    }

    /** `recordSQLConsumerDeltas`; `previous` are the rows of the snapshot before, if there was one. */
    method RecordSQLConsumerDeltas(database: string, samples: seq<Sample>, ghost previous: Option<seq<Sample>>)
      requires previous.Some? <==> database in sqlCounterSnapshots
      requires previous.Some? ==> Represents(sqlCounterSnapshots[database], previous.value)
      modifies this
      ensures sqlCounterSnapshots.Keys == old(sqlCounterSnapshots).Keys + {database}
      ensures forall d | d in old(sqlCounterSnapshots) && d != database :: sqlCounterSnapshots[d] == old(sqlCounterSnapshots)[d]
      ensures Represents(sqlCounterSnapshots[database], samples)
      ensures forall d | d != database :: Pending(d) == old(Pending(d))
      ensures HasGrown(Pending(database), old(Pending(database)), previous, samples)
    {
      var known := if database in sqlCounterSnapshots then Some(sqlCounterSnapshots[database]) else None;
      var current, deltas := Accumulate(known, Pending(database), samples, previous);
      sqlConsumerDeltas := sqlConsumerDeltas[database := deltas];
      sqlCounterSnapshots := sqlCounterSnapshots[database := current];
    }

    /** `takeTopSQLConsumers`, over any order the map is walked in. */
    method TakeTopSQLConsumers(database: string, limit: nat) returns (top: seq<string>)
      modifies this`sqlConsumerDeltas
      ensures IsTop(top, old(Pending(database)), limit)
      ensures TakesBiggest(top, old(Pending(database)), limit)
      ensures Pending(database) == map[]
      ensures forall d | d != database :: Pending(d) == old(Pending(d))
    {
      var deltas := Pending(database);
      var ranked: seq<string> := [];
      var left := deltas.Keys;
      while left != {}
        invariant sqlConsumerDeltas == old(sqlConsumerDeltas)
        invariant left <= deltas.Keys
        invariant forall id :: id in ranked <==> id in Eligible(deltas) && id !in left
        invariant Ranked(ranked, deltas)
      {
        var id :| id in left;
        left := left - {id};
        if Val(deltas[id], ElapsedTime) > 0 {
          ranked := InsertRanked(ranked, id, deltas);
        }
      }
      var count := if limit > |ranked| then |ranked| else limit;
      top := ranked[..count];
      ghost var was := sqlConsumerDeltas;
      sqlConsumerDeltas := sqlConsumerDeltas - {database};
      forall d | d != database
        ensures Pending(d) == old(Pending(d))
      {
        assert d in sqlConsumerDeltas <==> d in was;
      }
      PrefixIsTop(ranked, deltas, limit);
      TopIsBiggest(top, deltas, limit);
    }
  }

  // ---- Conservation over a whole run ----

  datatype Step = Record(samples: seq<Sample>) | Take

  /** The snapshots recorded so far, the pending map, and the maps drained so far. */
  datatype State = State(snapshots: seq<seq<Sample>>, pending: Deltas, drained: seq<Deltas>)

  /** A step as the two methods of `Consumers` promise it. */
  ghost predicate Steps(s: State, step: Step, s': State) {
    match step
    case Record(samples) =>
      var n := |s.snapshots|;
      && s'.snapshots == s.snapshots + [samples] && s'.drained == s.drained
      && HasGrown(s'.pending, s.pending, if n == 0 then None else Some(s.snapshots[n - 1]), samples)
    case Take =>
      s' == State(s.snapshots, map[], s.drained + [s.pending])
  }

  /** The states a run passes through. */
  ghost predicate IsRun(states: seq<State>, steps: seq<Step>) {
    && |states| == |steps| + 1 && states[0] == State([], map[], [])
    && forall i | 0 <= i < |steps| :: Steps(states[i], steps[i], states[i + 1])
  }

  function Drained(maps: seq<Deltas>, sqlId: string, c: Counter): int {
    if maps == [] then 0 else Drained(maps[..|maps| - 1], sqlId, c) + Val(At(maps[|maps| - 1], sqlId), c)
  }

  /** All growth of a SQL ID between consecutive snapshots. */
  function TotalGrowth(snapshots: seq<seq<Sample>>, sqlId: string, c: Counter): int {
    var n := |snapshots|;
    if n < 2 then 0
    else TotalGrowth(snapshots[..n - 1], sqlId, c) + Growth(snapshots[n - 2], snapshots[n - 1], sqlId, c)
  }

  lemma StepAccountsForGrowth(s: State, step: Step, s': State, sqlId: string, c: Counter)
    requires Steps(s, step, s')
    requires Drained(s.drained, sqlId, c) + Val(At(s.pending, sqlId), c) == TotalGrowth(s.snapshots, sqlId, c)
    ensures Drained(s'.drained, sqlId, c) + Val(At(s'.pending, sqlId), c) == TotalGrowth(s'.snapshots, sqlId, c)
  {
    match step
    case Record(samples) =>
      assert s'.snapshots[..|s.snapshots|] == s.snapshots;
    case Take =>
      assert s'.drained[..|s.drained|] == s.drained;
  }

  /** Over any run, what has been drained and what is pending add up to all growth recorded. */
  lemma {:induction false} DrainedPlusPendingIsGrowth(states: seq<State>, steps: seq<Step>, sqlId: string, c: Counter)
    requires IsRun(states, steps)
    ensures var s := states[|steps|];
      Drained(s.drained, sqlId, c) + Val(At(s.pending, sqlId), c) == TotalGrowth(s.snapshots, sqlId, c)
  {
    if steps != [] {
      var n := |steps| - 1;
      DrainedPlusPendingIsGrowth(states[..n + 1], steps[..n], sqlId, c);
      StepAccountsForGrowth(states[n], steps[n], states[n + 1], sqlId, c);
    }
  }

  // ---- Growth is the sum over keys, and telescopes ----

  ghost predicate DistinctKeys(samples: seq<Sample>) {
    forall i, j | 0 <= i < j < |samples| && samples[i].sqlId != "" && samples[j].sqlId != "" ::
      KeyOf(samples[i]) != KeyOf(samples[j])
  }

  /** One key's increment between two snapshots: nothing if it is gone, all of it if it is new. */
  function KeyGrowth(previous: seq<Sample>, samples: seq<Sample>, k: Key, c: Counter): int {
    match Lookup(samples, k)
    case None => 0
    case Some(v) => Increment(Lookup(previous, k), v, c)
  }

  function SumOverKeys(previous: seq<Sample>, samples: seq<Sample>, keys: seq<Key>, c: Counter): int {
    if keys == [] then 0
    else SumOverKeys(previous, samples, keys[..|keys| - 1], c) + KeyGrowth(previous, samples, keys[|keys| - 1], c)
  }

  /** A duplicate-free list of keys of one SQL ID. */
  ghost predicate KeysOf(keys: seq<Key>, sqlId: string) {
    && (forall i | 0 <= i < |keys| :: keys[i].sqlId == sqlId)
    && forall i, j | 0 <= i < j < |keys| :: keys[i] != keys[j]
  }

  /** The last row of a key is the one a snapshot keeps. */
  lemma {:induction false} LookupIsLast(samples: seq<Sample>, i: nat)
    requires i < |samples| && samples[i].sqlId != ""
    requires forall j | i < j < |samples| && samples[j].sqlId != "" :: KeyOf(samples[j]) != KeyOf(samples[i])
    ensures Lookup(samples, KeyOf(samples[i])) == Some(samples[i].values)
  {
    if i < |samples| - 1 {
      LookupIsLast(samples[..|samples| - 1], i);
    }
  }

  lemma {:induction false} LookupMeaning(samples: seq<Sample>, k: Key)
    ensures Lookup(samples, k).Some? <==> exists s | s in samples :: s.sqlId != "" && KeyOf(s) == k
  {
    if samples != [] {
      var front, last := samples[..|samples| - 1], samples[|samples| - 1];
      assert samples == front + [last];
      LookupMeaning(front, k);
      if Lookup(front, k).Some? {
        var s :| s in front && s.sqlId != "" && KeyOf(s) == k;
        assert s in samples;
      }
      if last.sqlId != "" && KeyOf(last) == k {
        assert last in samples;
      }
    }
  }

  lemma {:induction false} OneMoreSample(previous: seq<Sample>, front: seq<Sample>, s: Sample, keys: seq<Key>, c: Counter)
    requires s.sqlId != "" ==> Lookup(front, KeyOf(s)).None?
    requires forall i, j | 0 <= i < j < |keys| :: keys[i] != keys[j]
    ensures SumOverKeys(previous, front + [s], keys, c) ==
            SumOverKeys(previous, front, keys, c)
            + if s.sqlId != "" && KeyOf(s) in keys then Increment(Lookup(previous, KeyOf(s)), s.values, c) else 0
  {
    if keys != [] {
      var rest, k := keys[..|keys| - 1], keys[|keys| - 1];
      assert keys == rest + [k];
      OneMoreSample(previous, front, s, rest, c);
      assert (front + [s])[..|front|] == front;
    }
  }

  lemma {:induction false} NoSamplesNoSum(previous: seq<Sample>, keys: seq<Key>, c: Counter)
    ensures SumOverKeys(previous, [], keys, c) == 0
  {
    if keys != [] {
      NoSamplesNoSum(previous, keys[..|keys| - 1], c);
    }
  }

  /** With one row per key in a snapshot, a SQL ID's growth is the sum of its keys' increments. */
  lemma {:induction false} GrowthIsSumOverKeys(
    previous: seq<Sample>, samples: seq<Sample>, sqlId: string, keys: seq<Key>, c: Counter)
    requires DistinctKeys(samples) && sqlId != "" && KeysOf(keys, sqlId)
    requires forall s | s in samples && s.sqlId == sqlId :: KeyOf(s) in keys
    ensures Growth(previous, samples, sqlId, c) == SumOverKeys(previous, samples, keys, c)
  {
    if samples == [] {
      NoSamplesNoSum(previous, keys, c);
    } else {
      var front, last := samples[..|samples| - 1], samples[|samples| - 1];
      assert samples == front + [last];
      assert forall s | s in front :: s in samples;
      GrowthIsSumOverKeys(previous, front, sqlId, keys, c);
      if last.sqlId != "" {
        NewKeyIsNew(front, last);
      }
      OneMoreSample(previous, front, last, keys, c);
      KeyIsListed(last, sqlId, keys);
    }
  }

  lemma NewKeyIsNew(front: seq<Sample>, last: Sample)
    requires DistinctKeys(front + [last]) && last.sqlId != ""
    ensures Lookup(front, KeyOf(last)).None?
  {
    forall s | s in front && s.sqlId != ""
      ensures KeyOf(s) != KeyOf(last)
    {
      var i :| 0 <= i < |front| && front[i] == s;
      assert (front + [last])[i] == s && (front + [last])[|front|] == last;
    }
    LookupMeaning(front, KeyOf(last));
  }

  lemma KeyIsListed(s: Sample, sqlId: string, keys: seq<Key>)
    requires KeysOf(keys, sqlId) && (s.sqlId == sqlId ==> KeyOf(s) in keys)
    ensures s.sqlId == sqlId <==> KeyOf(s) in keys
  {
  }

  function TotalKeyGrowth(snapshots: seq<seq<Sample>>, k: Key, c: Counter): int {
    var n := |snapshots|;
    if n < 2 then 0
    else TotalKeyGrowth(snapshots[..n - 1], k, c) + KeyGrowth(snapshots[n - 2], snapshots[n - 1], k, c)
  }

  /** The whole run's growth of each key, summed. */
  function SumOverKeysInAll(snapshots: seq<seq<Sample>>, keys: seq<Key>, c: Counter): int {
    if keys == [] then 0
    else SumOverKeysInAll(snapshots, keys[..|keys| - 1], c) + TotalKeyGrowth(snapshots, keys[|keys| - 1], c)
  }

  lemma {:induction false} SumOfOneMoreSnapshot(snapshots: seq<seq<Sample>>, keys: seq<Key>, c: Counter)
    requires |snapshots| >= 2
    ensures var n := |snapshots|;
      SumOverKeysInAll(snapshots, keys, c) ==
      SumOverKeysInAll(snapshots[..n - 1], keys, c) + SumOverKeys(snapshots[n - 2], snapshots[n - 1], keys, c)
  {
    if keys != [] {
      SumOfOneMoreSnapshot(snapshots, keys[..|keys| - 1], c);
    }
  }

  lemma {:induction false} FewSnapshotsNoGrowth(snapshots: seq<seq<Sample>>, keys: seq<Key>, c: Counter)
    requires |snapshots| < 2
    ensures SumOverKeysInAll(snapshots, keys, c) == 0
  {
    if keys != [] {
      FewSnapshotsNoGrowth(snapshots, keys[..|keys| - 1], c);
    }
  }

  /** A snapshot with one row per key, whose rows of the SQL ID all have a listed key. */
  ghost predicate Lists(samples: seq<Sample>, sqlId: string, keys: seq<Key>) {
    DistinctKeys(samples) && forall s | s in samples && s.sqlId == sqlId :: KeyOf(s) in keys
  }

  /** Over any run of snapshots a SQL ID's growth is the sum of the growth of its keys. */
  lemma {:induction false} TotalGrowthIsSumOverKeys(snapshots: seq<seq<Sample>>, sqlId: string, keys: seq<Key>, c: Counter)
    requires sqlId != "" && KeysOf(keys, sqlId)
    requires forall i | 0 <= i < |snapshots| :: Lists(snapshots[i], sqlId, keys)
    ensures TotalGrowth(snapshots, sqlId, c) == SumOverKeysInAll(snapshots, keys, c)
  {
    var n := |snapshots|;
    if n < 2 {
      FewSnapshotsNoGrowth(snapshots, keys, c);
    } else {
      TotalGrowthIsSumOverKeys(snapshots[..n - 1], sqlId, keys, c);
      assert Lists(snapshots[n - 1], sqlId, keys);
      GrowthIsSumOverKeys(snapshots[n - 2], snapshots[n - 1], sqlId, keys, c);
      SumOfOneMoreSnapshot(snapshots, keys, c);
    }
  }

  /** A counter of a key in every snapshot that never falls has grown by its last value less its first. */
  lemma {:induction false} GrowthTelescopes(snapshots: seq<seq<Sample>>, k: Key, c: Counter)
    requires |snapshots| > 0 && forall i | 0 <= i < |snapshots| :: Lookup(snapshots[i], k).Some?
    requires forall i | 0 < i < |snapshots| ::
      Val(Lookup(snapshots[i - 1], k).value, c) <= Val(Lookup(snapshots[i], k).value, c)
    ensures TotalKeyGrowth(snapshots, k, c) ==
            Val(Lookup(snapshots[|snapshots| - 1], k).value, c) - Val(Lookup(snapshots[0], k).value, c)
  {
    if |snapshots| > 1 {
      GrowthTelescopes(snapshots[..|snapshots| - 1], k, c);
    }
  }

  // ---- The ranking ----

  /** `strings.Compare(a, b) < 0`. */
  predicate StringBefore(a: string, b: string) {
    b != "" && (a == "" || a[0] < b[0] || (a[0] == b[0] && StringBefore(a[1..], b[1..])))
  }

  /** The comparator of the sort: elapsed, CPU and user I/O descending, then SQL ID ascending. */
  predicate Before(a: string, b: string, deltas: Deltas)
    requires a in deltas && b in deltas
  {
    var x, y := deltas[a], deltas[b];
    if Val(x, ElapsedTime) != Val(y, ElapsedTime) then Val(x, ElapsedTime) > Val(y, ElapsedTime)
    else if Val(x, CpuTime) != Val(y, CpuTime) then Val(x, CpuTime) > Val(y, CpuTime)
    else if Val(x, UserIoWait) != Val(y, UserIoWait) then Val(x, UserIoWait) > Val(y, UserIoWait)
    else StringBefore(a, b)
  }

  lemma {:induction false} StringOrderIsTotal(a: string, b: string)
    ensures !(StringBefore(a, b) && StringBefore(b, a))
    ensures a == b || StringBefore(a, b) || StringBefore(b, a)
    ensures !StringBefore(a, a)
  {
    if a != "" && b != "" {
      StringOrderIsTotal(a[1..], b[1..]);
      assert a == [a[0]] + a[1..] && b == [b[0]] + b[1..];
    }
    if a != "" {
      StringOrderIsTotal(a[1..], a[1..]);
    }
  }

  lemma {:induction false} StringOrderIsTransitive(a: string, b: string, c: string)
    requires StringBefore(a, b) && StringBefore(b, c)
    ensures StringBefore(a, c)
  {
    if a != "" && a[0] == b[0] == c[0] {
      StringOrderIsTransitive(a[1..], b[1..], c[1..]);
    }
  }

  /** On distinct SQL IDs the comparator is a strict total order. */
  lemma RankingIsStrictTotalOrder(a: string, b: string, c: string, deltas: Deltas)
    requires a in deltas && b in deltas && c in deltas
    ensures !Before(a, a, deltas)
    ensures a != b ==> (Before(a, b, deltas) <==> !Before(b, a, deltas))
    ensures Before(a, b, deltas) && Before(b, c, deltas) ==> Before(a, c, deltas)
  {
    StringOrderIsTotal(a, b);
    if StringBefore(a, b) && StringBefore(b, c) {
      StringOrderIsTransitive(a, b, c);
    }
  }

  function Eligible(deltas: Deltas): set<string> {
    set id | id in deltas && Val(deltas[id], ElapsedTime) > 0
  }

  ghost predicate Ranked(ids: seq<string>, deltas: Deltas) {
    && (forall i | 0 <= i < |ids| :: ids[i] in deltas)
    && forall i, j | 0 <= i < j < |ids| :: Before(ids[i], ids[j], deltas)
  }

  /** The best `limit` eligible IDs in rank order, every one passed over ranking behind all of them. */
  ghost predicate IsTop(top: seq<string>, deltas: Deltas, limit: nat) {
    && |top| == Min(limit, |Eligible(deltas)|)
    && (forall id | id in top :: id in Eligible(deltas))
    && Ranked(top, deltas)
    && forall chosen, other | chosen in top && other in Eligible(deltas) && other !in top :: Before(chosen, other, deltas)
  }

  // ---- The ranking on values ----

  /** A proper prefix, or smaller at the first character that differs. */
  ghost predicate SortsBefore(a: string, b: string) {
    exists n: nat :: n <= |a| && n <= |b| && DifferFrom(a, b, n) && n < |b| && (n < |a| ==> a[n] < b[n])
  }

  /** Equal up to index n, and there one ends or they differ. */
  predicate DifferFrom(a: string, b: string, n: nat) {
    && n <= |a| && n <= |b| && (forall i | 0 <= i < n :: a[i] == b[i])
    && (n < |a| && n < |b| ==> a[n] != b[n])
  }

  lemma {:induction false} StringBeforeMeans(a: string, b: string)
    ensures StringBefore(a, b) <==> SortsBefore(a, b)
  {
    if a == "" || b == "" || a[0] != b[0] {
      assert DifferFrom(a, b, 0);
      if b != "" && (a == "" || a[0] < b[0]) {
        assert SortsBefore(a, b);
      }
    } else {
      StringBeforeMeans(a[1..], b[1..]);
      if n: nat :| n <= |a| && n <= |b| && DifferFrom(a, b, n) && n < |b| && (n < |a| ==> a[n] < b[n]) {
        assert n > 0 && DifferFrom(a[1..], b[1..], n - 1);
      }
      if n: nat :| n <= |a[1..]| && n <= |b[1..]| && DifferFrom(a[1..], b[1..], n) && n < |b[1..]|
                   && (n < |a[1..]| ==> a[1..][n] < b[1..][n]) {
        assert DifferFrom(a, b, n + 1);
      }
    }
  }

  /** The longer elapsed time first; at a tie the longer CPU time, then the longer user I/O wait, then the SQL ID. */
  ghost predicate OutRanks(a: string, b: string, deltas: Deltas) {
    var x, y := At(deltas, a), At(deltas, b);
    && Val(x, ElapsedTime) >= Val(y, ElapsedTime)
    && (Val(x, ElapsedTime) == Val(y, ElapsedTime) ==> Val(x, CpuTime) >= Val(y, CpuTime))
    && (Val(x, ElapsedTime) == Val(y, ElapsedTime) && Val(x, CpuTime) == Val(y, CpuTime) ==>
          Val(x, UserIoWait) >= Val(y, UserIoWait))
    && (Val(x, ElapsedTime) == Val(y, ElapsedTime) && Val(x, CpuTime) == Val(y, CpuTime)
          && Val(x, UserIoWait) == Val(y, UserIoWait) ==>
          SortsBefore(a, b))
  }

  lemma BeforeMeans(a: string, b: string, deltas: Deltas)
    requires a in deltas && b in deltas
    ensures Before(a, b, deltas) <==> OutRanks(a, b, deltas)
  {
    StringBeforeMeans(a, b);
  }

  /**
   As many as the limit allows of the SQL IDs that took time at all, in order of rank, and none passed over that
   outranks one of them.
   */
  ghost predicate TakesBiggest(top: seq<string>, deltas: Deltas, limit: nat) {
    && |top| == Min(limit, |set id | id in deltas && Val(deltas[id], ElapsedTime) > 0|)
    && (forall id | id in top :: id in deltas && Val(deltas[id], ElapsedTime) > 0)
    && (forall i, j | 0 <= i < j < |top| :: OutRanks(top[i], top[j], deltas))
    && forall chosen, other | chosen in top && other in deltas && Val(deltas[other], ElapsedTime) > 0 && other !in top ::
         OutRanks(chosen, other, deltas)
  }

  lemma TopIsBiggest(top: seq<string>, deltas: Deltas, limit: nat)
    requires IsTop(top, deltas, limit)
    ensures TakesBiggest(top, deltas, limit)
  {
    forall i, j | 0 <= i < j < |top|
      ensures OutRanks(top[i], top[j], deltas)
    {
      BeforeMeans(top[i], top[j], deltas);
    }
    forall chosen, other | chosen in top && other in deltas && Val(deltas[other], ElapsedTime) > 0 && other !in top
      ensures OutRanks(chosen, other, deltas)
    {
      assert other in Eligible(deltas);
      BeforeMeans(chosen, other, deltas);
    }
  }

  lemma AheadOfTheRest(ranked: seq<string>, i: nat, id: string, deltas: Deltas)
    requires Ranked(ranked, deltas) && id in deltas && i < |ranked| && id != ranked[i]
    requires !Before(ranked[i], id, deltas)
    ensures forall j | i <= j < |ranked| :: Before(id, ranked[j], deltas)
  {
    forall j | i <= j < |ranked|
      ensures Before(id, ranked[j], deltas)
    {
      RankingIsStrictTotalOrder(id, ranked[i], ranked[j], deltas);
    }
  }

  lemma InsertionKeepsRank(front: seq<string>, id: string, back: seq<string>, deltas: Deltas)
    requires Ranked(front, deltas) && Ranked(back, deltas) && id in deltas
    requires forall j | 0 <= j < |front| :: Before(front[j], id, deltas)
    requires forall j | 0 <= j < |back| :: Before(id, back[j], deltas)
    ensures Ranked(front + [id] + back, deltas)
  {
    var r := front + [id] + back;
    forall i, j | 0 <= i < j < |r|
      ensures r[i] in deltas && r[j] in deltas && Before(r[i], r[j], deltas)
    {
      RankingIsStrictTotalOrder(r[i], id, r[j], deltas);
    }
  }

  /** Stands for `slices.SortFunc`: any way of sorting gives what this does, by `TopIsUnique`. */
  method InsertRanked(ranked: seq<string>, id: string, deltas: Deltas) returns (r: seq<string>)
    requires Ranked(ranked, deltas) && id in deltas && id !in ranked
    ensures Ranked(r, deltas)
    ensures forall x :: x in r <==> x == id || x in ranked
  {
    var i := 0;
    while i < |ranked| && Before(ranked[i], id, deltas)
      invariant 0 <= i <= |ranked|
      invariant forall j | 0 <= j < i :: Before(ranked[j], id, deltas)
    {
      i := i + 1;
    }
    var front, back := ranked[..i], ranked[i..];
    if i < |ranked| {
      AheadOfTheRest(ranked, i, id, deltas);
    }
    InsertionKeepsRank(front, id, back, deltas);
    assert ranked == front + back;
    r := front + [id] + back;
  }

  lemma {:induction false} RankedHasNoDuplicates(ids: seq<string>, deltas: Deltas)
    requires Ranked(ids, deltas)
    ensures |set id | id in ids| == |ids|
  {
    if ids != [] {
      var front, last := ids[..|ids| - 1], ids[|ids| - 1];
      RankedHasNoDuplicates(front, deltas);
      assert ids == front + [last];
      assert (set id | id in ids) == (set id | id in front) + {last};
      if last in front {
        RankingIsStrictTotalOrder(last, last, last, deltas);
      }
    }
  }

  lemma PrefixIsTop(ranked: seq<string>, deltas: Deltas, limit: nat)
    requires Ranked(ranked, deltas) && forall id :: id in ranked <==> id in Eligible(deltas)
    ensures IsTop(ranked[..Min(limit, |ranked|)], deltas, limit)
  {
    RankedHasNoDuplicates(ranked, deltas);
    assert (set id | id in ranked) == Eligible(deltas);
    var top := ranked[..Min(limit, |ranked|)];
    forall chosen, other | chosen in top && other in Eligible(deltas) && other !in top
      ensures Before(chosen, other, deltas)
    {
      var i :| 0 <= i < |top| && top[i] == chosen;
      var j :| 0 <= j < |ranked| && ranked[j] == other;
      assert forall m | 0 <= m < |top| :: top[m] in top && top[m] == ranked[m];
    }
  }

  /** The eligible IDs that rank ahead of one. */
  ghost function Ahead(id: string, deltas: Deltas): set<string>
    requires id in deltas
  {
    set other | other in Eligible(deltas) && Before(other, id, deltas)
  }

  lemma PositionIsRank(top: seq<string>, deltas: Deltas, limit: nat, i: nat)
    requires IsTop(top, deltas, limit) && i < |top|
    ensures |Ahead(top[i], deltas)| == i
  {
    var ahead := set id | id in top[..i];
    forall other
      ensures other in ahead <==> other in Ahead(top[i], deltas)
    {
      if other in ahead {
        var j :| 0 <= j < i && top[j] == other;
        assert Before(top[j], top[i], deltas);
      }
      if other in Ahead(top[i], deltas) {
        RankingIsStrictTotalOrder(other, top[i], other, deltas);
        RankingIsStrictTotalOrder(top[i], other, top[i], deltas);
        assert other in top;
        var j :| 0 <= j < |top| && top[j] == other;
        assert forall m | i < m < |top| :: Before(top[i], top[m], deltas);
        assert top[..i][j] == other;
      }
    }
    assert ahead == Ahead(top[i], deltas);
    RankedHasNoDuplicates(top[..i], deltas);
  }

  /** There is exactly one such list, so neither map order nor the sorting algorithm matters. */
  lemma TopIsUnique(a: seq<string>, b: seq<string>, deltas: Deltas, limit: nat)
    requires IsTop(a, deltas, limit) && IsTop(b, deltas, limit)
    ensures a == b
  {
    forall i | 0 <= i < |a|
      ensures a[i] == b[i]
    {
      PositionIsRank(a, deltas, limit, i);
      PositionIsRank(b, deltas, limit, i);
      if a[i] != b[i] {
        RankingIsStrictTotalOrder(a[i], b[i], a[i], deltas);
        if Before(a[i], b[i], deltas) {
          SmallerRank(a[i], b[i], deltas);
        } else {
          SmallerRank(b[i], a[i], deltas);
        }
      }
    }
  }

  lemma SmallerRank(a: string, b: string, deltas: Deltas)
    requires a in Eligible(deltas) && b in deltas && Before(a, b, deltas)
    ensures |Ahead(a, deltas)| < |Ahead(b, deltas)|
  {
    forall other | other in Ahead(a, deltas)
      ensures other in Ahead(b, deltas)
    {
      RankingIsStrictTotalOrder(other, a, b, deltas);
    }
    RankingIsStrictTotalOrder(a, a, a, deltas);
    assert Ahead(a, deltas) + {a} <= Ahead(b, deltas);
    SubsetIsSmaller(Ahead(a, deltas) + {a}, Ahead(b, deltas));
  }
}
