/**
 The latest-status table of each scheduler (postgresql/postgresql.go:1313-1392).

 A batch of runtime samples is reduced to one sample per (scope, scheduler), which is upserted
 unless the stored one is newer. The result does not depend on the order in which batches commit, except
 where a key has two samples at its latest time.
 */
module RuntimeStatus {
  import opened Common

  /** `detail` stands for the columns that take no part in the rule. */
  datatype Sample = Sample(scope: string, scheduler: string, observedAt: Time, detail: string)

  datatype Key = Key(scope: string, scheduler: string)

  function KeyOf(s: Sample): Key {
    Key(s.scope, s.scheduler)
  }

  /** Samples share a key just if they agree in scope and scheduler. */
  lemma KeysAgreeIffColumnsDo(a: Sample, b: Sample)
    ensures KeyOf(a) == KeyOf(b) <==> a.scope == b.scope && a.scheduler == b.scheduler
  {
  }

  /** `s` is of key k, among `all`, and nothing of key k is newer. */
  ghost predicate IsLatest(s: Sample, all: set<Sample>, k: Key) {
    s in all && KeyOf(s) == k && forall other | other in all && KeyOf(other) == k :: other.observedAt <= s.observedAt
  }

  ghost predicate HoldsLatest(table: map<Key, Sample>, all: set<Sample>) {
    && (forall k | k in table :: IsLatest(table[k], all, k))
    && (forall s | s in all :: KeyOf(s) in table)
  }

  function SetOf(samples: seq<Sample>): set<Sample> {
    set s | s in samples
  }

  /** The reduction of a batch: of each key, the first sample that no later one exceeds in time. */
  function Selected(samples: seq<Sample>): map<Key, Sample> {
    if samples == [] then map[]
    else
      var front, s := Selected(samples[..|samples| - 1]), samples[|samples| - 1];
      if KeyOf(s) in front && s.observedAt <= front[KeyOf(s)].observedAt then front else front[KeyOf(s) := s]
  }

  lemma {:induction false} SelectedIsLatest(samples: seq<Sample>)
    ensures HoldsLatest(Selected(samples), SetOf(samples))
  {
    if samples != [] {
      var front, s := samples[..|samples| - 1], samples[|samples| - 1];
      assert samples == front + [s];
      SelectedIsLatest(front);
      assert SetOf(samples) == SetOf(front) + {s};
    }
  }

  /** The selection loop of `writeRuntimeSamples`, which keeps indices. */
  method SelectLatest(samples: seq<Sample>) returns (latest: map<Key, nat>)
    ensures latest.Keys == Selected(samples).Keys
    ensures forall k | k in latest :: latest[k] < |samples| && samples[latest[k]] == Selected(samples)[k]
  {
    latest := map[];
    for index := 0 to |samples|
      invariant latest.Keys == Selected(samples[..index]).Keys
      invariant forall k | k in latest :: latest[k] < index && samples[latest[k]] == Selected(samples[..index])[k]
    {
      var key := KeyOf(samples[index]);
      assert samples[..index + 1][..index] == samples[..index];
      if key !in latest || samples[index].observedAt > samples[latest[key]].observedAt {
        latest := latest[key := index];
      }
    }
    assert samples[..|samples|] == samples;
  }

  /** `on conflict ... do update ... where excluded.observed_at >= existing.observed_at`. */
  function Upserted(existing: Option<Sample>, excluded: Sample): Sample {
    if existing.Some? && excluded.observedAt < existing.value.observedAt then existing.value else excluded
  }

  /** The table after one batch. */
  function Written(table: map<Key, Sample>, samples: seq<Sample>): map<Key, Sample> {
    var latest := Selected(samples);
    map k | k in table.Keys + latest.Keys :: if k in latest then Upserted(Get(table, k), latest[k]) else table[k]
  }

  /** `writeRuntimeSamples` on the status table, visiting the selected keys in an arbitrary order. */
  method WriteRuntimeSamples(table: map<Key, Sample>, samples: seq<Sample>) returns (table': map<Key, Sample>)
    ensures table' == Written(table, samples)
  {
    var latest := SelectLatest(samples);
    table' := table;
    var left := latest.Keys;
    while left != {}
      invariant left <= latest.Keys
      invariant forall k :: Get(table', k) == if k in latest && k !in left then Some(Upserted(Get(table, k), samples[latest[k]]))
                                                 else Get(table, k)
    {
      var key :| key in left;
      table' := table'[key := Upserted(Get(table', key), samples[latest[key]])];
      left := left - {key};
    }
    SameMap(table', Written(table, samples));
  }

  lemma WrittenHoldsLatest(table: map<Key, Sample>, samples: seq<Sample>, history: set<Sample>)
    requires HoldsLatest(table, history)
    ensures HoldsLatest(Written(table, samples), history + SetOf(samples))
  {
    SelectedIsLatest(samples);
    var table', latest := Written(table, samples), Selected(samples);
    forall k | k in table'
      ensures IsLatest(table'[k], history + SetOf(samples), k)
    {
      assert k in table ==> IsLatest(table[k], history, k);
      assert k in latest ==> IsLatest(latest[k], SetOf(samples), k);
    }
  }

  /** The table after committing batches one after another. */
  function Run(batches: seq<seq<Sample>>): map<Key, Sample> {
    if batches == [] then map[] else Written(Run(batches[..|batches| - 1]), batches[|batches| - 1])
  }

  function AllOf(batches: seq<seq<Sample>>): set<Sample> {
    set b, s | b in batches && s in b :: s
  }

  /** After any batches, each row is a sample of greatest time among all that were committed. */
  lemma {:induction false} RunHoldsLatest(batches: seq<seq<Sample>>)
    ensures HoldsLatest(Run(batches), AllOf(batches))
  {
    if batches != [] {
      var front, last := batches[..|batches| - 1], batches[|batches| - 1];
      assert batches == front + [last];
      assert AllOf(batches) == AllOf(front) + SetOf(last);
      RunHoldsLatest(front);
      WrittenHoldsLatest(Run(front), last, AllOf(front));
    }
  }

  /**
   Commit order does not matter to times. The same samples, however they are batched and in whatever order the
   batches commit, leave the same keys with the same latest times.
   */
  lemma CommitOrderDoesNotMatterToTimes(a: seq<seq<Sample>>, b: seq<seq<Sample>>)
    requires AllOf(a) == AllOf(b)
    ensures Run(a).Keys == Run(b).Keys
    ensures forall k | k in Run(a) :: Run(a)[k].observedAt == Run(b)[k].observedAt
  {
    RunHoldsLatest(a);
    RunHoldsLatest(b);
    SameKeysSameTimes(Run(a), Run(b), AllOf(a));
  }

  lemma SameKeysSameTimes(a: map<Key, Sample>, b: map<Key, Sample>, all: set<Sample>)
    requires HoldsLatest(a, all) && HoldsLatest(b, all)
    ensures a.Keys == b.Keys
    ensures forall k | k in a :: a[k].observedAt == b[k].observedAt
  {
    forall k
      ensures k in a <==> k in b
    {
      assert k in a ==> IsLatest(a[k], all, k);
      assert k in b ==> IsLatest(b[k], all, k);
    }
    forall k | k in a
      ensures a[k].observedAt == b[k].observedAt
    {
      assert IsLatest(a[k], all, k) && IsLatest(b[k], all, k);
    }
  }

  /** Two samples of a key share its latest time. */
  ghost predicate Tied(all: set<Sample>) {
    exists s, t :: IsLatest(s, all, KeyOf(s)) && IsLatest(t, all, KeyOf(s)) && s != t
  }

  function Flatten(batches: seq<seq<Sample>>): seq<Sample> {
    if batches == [] then [] else Flatten(batches[..|batches| - 1]) + batches[|batches| - 1]
  }

  lemma {:induction false} FlattenHasAll(batches: seq<seq<Sample>>)
    ensures SetOf(Flatten(batches)) == AllOf(batches)
  {
    if batches != [] {
      var front, last := batches[..|batches| - 1], batches[|batches| - 1];
      assert batches == front + [last];
      assert AllOf(batches) == AllOf(front) + SetOf(last);
      FlattenHasAll(front);
    }
  }

  /** The same samples, each as often, in any order and batching. */
  ghost predicate SameSamples(a: seq<seq<Sample>>, b: seq<seq<Sample>>) {
    multiset(Flatten(a)) == multiset(Flatten(b))
  }

  lemma SameSamplesHaveSameSet(a: seq<seq<Sample>>, b: seq<seq<Sample>>)
    requires SameSamples(a, b)
    ensures AllOf(a) == AllOf(b)
  {
    FlattenHasAll(a);
    FlattenHasAll(b);
    forall s
      ensures s in Flatten(a) <==> s in Flatten(b)
    {
      assert s in Flatten(a) <==> s in multiset(Flatten(a));
      assert s in Flatten(b) <==> s in multiset(Flatten(b));
    }
  }

  lemma UntiedTablesAgree(a: map<Key, Sample>, b: map<Key, Sample>, all: set<Sample>)
    requires HoldsLatest(a, all) && HoldsLatest(b, all) && !Tied(all)
    ensures a == b
  {
    SameKeysSameTimes(a, b, all);
    forall k | k in a
      ensures a[k] == b[k]
    {
      assert IsLatest(a[k], all, k) && IsLatest(b[k], all, k);
    }
  }

  /** All the others in one batch, and then one sample. */
  lemma EndingWith(a: seq<seq<Sample>>, s: Sample) returns (b: seq<seq<Sample>>, rest: seq<Sample>)
    requires s in AllOf(a)
    ensures b == [rest, [s]] && SameSamples(a, b)
  {
    FlattenHasAll(a);
    var all := Flatten(a);
    var i :| 0 <= i < |all| && all[i] == s;
    rest := all[..i] + all[i + 1..];
    b := [rest, [s]];
    assert all == all[..i] + [s] + all[i + 1..];
    assert b[..1] == [rest] && [rest][..0] == [] && Flatten([rest]) == [] + rest;
    assert Flatten(b) == rest + [s];
  }

  /** A latest sample committed last, on its own, is what is left. */
  lemma LatestLastIsLeft(a: seq<seq<Sample>>, b: seq<seq<Sample>>, rest: seq<Sample>, s: Sample)
    requires IsLatest(s, AllOf(a), KeyOf(s)) && b == [rest, [s]] && SameSamples(a, b)
    ensures KeyOf(s) in Run(b) && Run(b)[KeyOf(s)] == s
  {
    var before := Run([rest]);
    assert b[..1] == [rest] && [s][..0] == [] && Selected([s]) == map[KeyOf(s) := s];
    RunHoldsLatest([rest]);
    SameSamplesHaveSameSet(a, b);
    if KeyOf(s) in before {
      assert IsLatest(before[KeyOf(s)], AllOf([rest]), KeyOf(s));
      assert rest in b;
    }
  }

  lemma TieMatters(a: seq<seq<Sample>>)
    requires Tied(AllOf(a))
    ensures exists b :: SameSamples(a, b) && Run(b) != Run(a)
  {
    var s, t :| IsLatest(s, AllOf(a), KeyOf(s)) && IsLatest(t, AllOf(a), KeyOf(s)) && s != t;
    var x, beforeS := EndingWith(a, s);
    var y, beforeT := EndingWith(a, t);
    LatestLastIsLeft(a, x, beforeS, s);
    LatestLastIsLeft(a, y, beforeT, t);
    assert Run(x) != Run(a) || Run(y) != Run(a);
  }

  /** Every order and batching of the same samples leaves the same table exactly if no key has a tie at its latest time. */
  lemma CommitOrderDoesNotMatterIff(a: seq<seq<Sample>>)
    ensures (forall b | SameSamples(a, b) :: Run(b) == Run(a)) <==> !Tied(AllOf(a))
  {
    if Tied(AllOf(a)) {
      TieMatters(a);
    } else {
      forall b | SameSamples(a, b)
        ensures Run(b) == Run(a)
      {
        SameSamplesHaveSameSet(a, b);
        RunHoldsLatest(a);
        RunHoldsLatest(b);
        UntiedTablesAgree(Run(b), Run(a), AllOf(a));
      }
    }
  }

  /** A tie inside one batch keeps the first sample; across two batches it keeps the second. */
  lemma TiesDependOnBatching(s: Sample, t: Sample)
    requires KeyOf(s) == KeyOf(t) && s.observedAt == t.observedAt
    ensures Run([[s, t]])[KeyOf(s)] == s
    ensures Run([[s], [t]])[KeyOf(s)] == t
  {
    assert [s][..0] == [] && [t][..0] == [] && [s, t][..1] == [s];
    assert Selected([s]) == map[KeyOf(s) := s] && Selected([t]) == map[KeyOf(t) := t];
    assert Selected([s, t]) == Selected([s]);
    var split := [[s], [t]];
    assert split[..1] == [[s]] && [[s]][..0] == [] && [[s, t]][..0] == [];
    assert Run([[s]]) == Written(Run([]), [s]);
    assert Run([[s, t]]) == Written(Run([]), [s, t]);
    assert Run(split) == Written(Run([[s]]), [t]);
  }
}
