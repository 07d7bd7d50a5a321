/**
 The execution plan cache (collector/performance.go:176-190, 387-441).

 Each round lists the cursors whose plans may be wanted and asks only for those not yet known. What
 `knownPlans` holds is said here without the map: by the rounds and collections there have been.
 */
module PlanCache {
  import opened Common

  datatype Sample = Sample(instId: int, sqlId: string, childNumber: Option<int>, planHashValue: Option<int>)

  datatype Key = Key(instId: int, sqlId: string, childNumber: int, planHashValue: int)

  datatype PlanOperation = PlanOperation(key: Key, id: int)

  predicate HasPlan(s: Sample) {
    s.childNumber.Some? && s.planHashValue.Some? && s.planHashValue.value > 0
  }

  function KeyOf(s: Sample): Key
    requires HasPlan(s)
  {
    Key(s.instId, s.sqlId, s.childNumber.value, s.planHashValue.value)
  }

  // ---- Candidates ----

  /** What it takes, column by column, for a sample to name k. */
  predicate Names(s: Sample, k: Key) {
    && s.instId == k.instId && s.sqlId == k.sqlId
    && s.childNumber == Some(k.childNumber) && s.planHashValue == Some(k.planHashValue) && k.planHashValue > 0
  }

  lemma NamesIfItHasPlan(s: Sample)
    ensures forall k :: Names(s, k) <==> HasPlan(s) && KeyOf(s) == k
  {
  }

  /** Some sample names `k`. */
  ghost predicate Named(samples: seq<Sample>, k: Key) {
    exists i :: 0 <= i < |samples| && Names(samples[i], k)
  }

  /** The keys of the samples, each where it first appears. */
  function DistinctKeys(samples: seq<Sample>): seq<Key> {
    if samples == [] then []
    else
      var front, last := DistinctKeys(samples[..|samples| - 1]), samples[|samples| - 1];
      if HasPlan(last) && KeyOf(last) !in front then front + [KeyOf(last)] else front
  }

  function Candidates(samples: seq<Sample>, limit: nat): seq<Key> {
    var keys := DistinctKeys(samples);
    keys[..Min(limit, |keys|)]
  }

  function Excluding(keys: seq<Key>, known: set<Key>): seq<Key> {
    if keys == [] then []
    else
      var front, last := Excluding(keys[..|keys| - 1], known), keys[|keys| - 1];
      if last in known then front else front + [last]
  }

  function KeySet(keys: seq<Key>): set<Key> {
    set k | k in keys
  }

  function PlanKeys(plans: seq<PlanOperation>): set<Key> {
    set p | p in plans :: p.key
  }

  ghost predicate NoRepeats(keys: seq<Key>) {
    forall i, j | 0 <= i < j < |keys| :: keys[i] != keys[j]
  }

  lemma {:induction false} DistinctKeysOfPrefix(samples: seq<Sample>, n: nat)
    requires n <= |samples|
    ensures DistinctKeys(samples[..n]) <= DistinctKeys(samples)
  {
    if n < |samples| {
      var front := samples[..|samples| - 1];
      assert front[..n] == samples[..n];
      DistinctKeysOfPrefix(front, n);
    } else {
      assert samples[..n] == samples;
    }
  }

  /** The distinct keys are exactly the keys named, and none is listed twice. */
  lemma {:induction false} DistinctKeysAreTheKeysNamed(samples: seq<Sample>)
    ensures NoRepeats(DistinctKeys(samples))
    ensures forall k :: k in DistinctKeys(samples) <==> Named(samples, k)
  {
    if samples != [] {
      var n := |samples| - 1;
      DistinctKeysAreTheKeysNamed(samples[..n]);
      NamesIfItHasPlan(samples[n]);
      assert samples == samples[..n] + [samples[n]];
      forall k
        ensures k in DistinctKeys(samples) <==> Named(samples, k)
      {
        if Named(samples, k) {
          var i :| 0 <= i < |samples| && Names(samples[i], k);
          assert i < n ==> samples[..n][i] == samples[i];
        }
      }
    }
  }

  lemma {:induction false} ExcludingMeans(keys: seq<Key>, known: set<Key>)
    ensures forall k :: k in Excluding(keys, known) <==> k in keys && k !in known
    ensures NoRepeats(keys) ==> NoRepeats(Excluding(keys, known))
  {
    if keys != [] {
      var n := |keys| - 1;
      ExcludingMeans(keys[..n], known);
      assert keys == keys[..n] + [keys[n]];
    }
  }

  /** Of two keys asked for, the one listed first among the candidates is asked for first. */
  lemma {:induction false} ExcludingKeepsOrder(keys: seq<Key>, known: set<Key>, i: nat, j: nat)
    requires NoRepeats(keys) && i < j < |keys| && keys[i] !in known && keys[j] !in known
    ensures exists a, b :: 0 <= a < b < |Excluding(keys, known)|
                           && Excluding(keys, known)[a] == keys[i] && Excluding(keys, known)[b] == keys[j]
  {
    var n := |keys| - 1;
    var front := Excluding(keys[..n], known);
    if j < n {
      ExcludingKeepsOrder(keys[..n], known, i, j);
      var a, b :| 0 <= a < b < |front| && front[a] == keys[i] && front[b] == keys[j];
      assert Excluding(keys, known)[a] == keys[i] && Excluding(keys, known)[b] == keys[j];
    } else {
      ExcludingMeans(keys[..n], known);
      assert keys[..n][i] == keys[i];
      var a :| 0 <= a < |front| && front[a] == keys[i];
      assert Excluding(keys, known)[a] == keys[i] && Excluding(keys, known)[|front|] == keys[j];
    }
  }

  /** The candidates are the keys named while fewer than `limit` other keys had been. */
  lemma CandidatesAreTheFirstNamed(samples: seq<Sample>, limit: nat, k: Key)
    ensures NoRepeats(Candidates(samples, limit)) && |KeySet(Candidates(samples, limit))| <= limit
    ensures k in Candidates(samples, limit) <==> exists n :: NamedInTime(samples, limit, k, n)
  {
    DistinctKeysAreTheKeysNamed(samples);
    SetOfDistinct(Candidates(samples, limit));
    NamedBeforeTheLimit(samples, limit, k);
  }

  lemma {:induction false} SetOfDistinct(keys: seq<Key>)
    requires NoRepeats(keys)
    ensures |KeySet(keys)| == |keys|
  {
    if keys != [] {
      var n := |keys| - 1;
      SetOfDistinct(keys[..n]);
      assert keys == keys[..n] + [keys[n]];
      assert KeySet(keys) == KeySet(keys[..n]) + {keys[n]};
    }
  }

  lemma CandidatesOfOneMore(samples: seq<Sample>, limit: nat)
    requires samples != []
    ensures var front, last := samples[..|samples| - 1], samples[|samples| - 1];
            Candidates(samples, limit) ==
            if HasPlan(last) && KeyOf(last) !in DistinctKeys(front) && |DistinctKeys(front)| < limit
            then Candidates(front, limit) + [KeyOf(last)]
            else Candidates(front, limit)
  {
  }

  /** `k` is named by sample n, when fewer than `limit` keys had been. */
  ghost predicate NamedInTime(samples: seq<Sample>, limit: nat, k: Key, n: nat) {
    n < |samples| && Names(samples[n], k) && |DistinctKeys(samples[..n])| < limit
  }

  lemma NamedInTimeByPrefix(samples: seq<Sample>, limit: nat, k: Key, n: nat)
    requires n + 1 < |samples|
    ensures NamedInTime(samples, limit, k, n) <==> NamedInTime(samples[..|samples| - 1], limit, k, n)
  {
    assert samples[..|samples| - 1][..n] == samples[..n];
  }

  lemma {:induction false} NamedBeforeTheLimit(samples: seq<Sample>, limit: nat, k: Key)
    ensures k in Candidates(samples, limit) <==> exists n :: NamedInTime(samples, limit, k, n)
  {
    if samples != [] {
      var front := samples[..|samples| - 1];
      NamedBeforeTheLimit(front, limit, k);
      CandidatesOfOneMore(samples, limit);
      NamesIfItHasPlan(samples[|front|]);
      if k in Candidates(front, limit) {
        var n :| NamedInTime(front, limit, k, n);
        NamedInTimeByPrefix(samples, limit, k, n);
      } else if n: nat :| NamedInTime(samples, limit, k, n) && n < |front| {
        NamedInTimeByPrefix(samples, limit, k, n);
      } else {
        assert NamedInTime(samples, limit, k, |front|) <==> exists n :: NamedInTime(samples, limit, k, n);
      }
    }
  }

  // ---- The cache ----

  /** The first loop of `uncachedSQLPlanCandidates`. */
  method ListCandidates(samples: seq<Sample>, limit: nat) returns (all: seq<Key>)
    ensures all == Candidates(samples, limit)
  {
    all := [];
    var seen: set<Key> := {};
    var i := 0;
    while i < |samples| && |all| < limit
      invariant 0 <= i <= |samples|
      invariant all == DistinctKeys(samples[..i]) && |all| <= limit
      invariant seen == KeySet(all)
    {
      var sample := samples[i];
      assert samples[..i + 1][..i] == samples[..i];
      i := i + 1;
      if HasPlan(sample) {
        var key := KeyOf(sample);
        if key !in seen {
          seen := seen + {key};
          all := all + [key];
        }
      }
    }
    DistinctKeysOfPrefix(samples, i);
    assert i == |samples| ==> samples[..i] == samples;
  }

  /** The second loop: what to ask for, and what stays known. */
  method SplitByKnown(all: seq<Key>, known: set<Key>) returns (uncached: seq<Key>, activeKnown: set<Key>)
    ensures uncached == Excluding(all, known)
    ensures activeKnown == known * KeySet(all)
  {
    uncached, activeKnown := [], {};
    for i := 0 to |all|
      invariant uncached == Excluding(all[..i], known)
      invariant activeKnown == known * KeySet(all[..i])
    {
      var candidate := all[i];
      assert all[..i + 1] == all[..i] + [candidate];
      if candidate in known {
        activeKnown := activeKnown + {candidate};
      } else {
        uncached := uncached + [candidate];
      }
    }
    assert all[..|all|] == all;
  }

  class Cache {
    var knownPlans: map<string, set<Key>>

    constructor ()
      ensures knownPlans == map[]
    {
      knownPlans := map[];
    }

    function Known(database: string): set<Key>
      reads this
    {
      if database in knownPlans then knownPlans[database] else {}
    }

    method UncachedSqlPlanCandidates(database: string, samples: seq<Sample>, limit: nat) returns (uncached: seq<Key>)
      modifies this
      ensures uncached == Excluding(Candidates(samples, limit), old(Known(database)))
      ensures Known(database) == old(Known(database)) * KeySet(Candidates(samples, limit))
      ensures forall d | d != database :: Known(d) == old(Known(d))
    {
      var all := ListCandidates(samples, limit);
      var activeKnown: set<Key>;
      uncached, activeKnown := SplitByKnown(all, Known(database));
      knownPlans := knownPlans[database := activeKnown];
    }

    method MarkSqlPlansCollected(database: string, plans: seq<PlanOperation>)
      modifies this
      ensures Known(database) == old(Known(database)) + PlanKeys(plans)
      ensures forall d | d != database :: Known(d) == old(Known(d))
    {
      if database !in knownPlans {
        knownPlans := knownPlans[database := {}];
      }
      for i := 0 to |plans|
        invariant database in knownPlans
        invariant Known(database) == old(Known(database)) + PlanKeys(plans[..i])
        invariant forall d | d != database :: Known(d) == old(Known(d))
      {
        assert plans[..i + 1] == plans[..i] + [plans[i]];
        knownPlans := knownPlans[database := knownPlans[database] + {plans[i].key}];
      }
      assert plans[..|plans|] == plans;
    }
  }

  // ---- The cache over a whole run ----

  datatype Step =
    | Ask(database: string, samples: seq<Sample>)
    | Collect(database: string, plans: seq<PlanOperation>)

  /** What the cache knows of a database after a run, by the two methods of `Cache`. */
  function KnownAfter(run: seq<Step>, database: string, limit: nat): set<Key> {
    if run == [] then {}
    else
      var known, last := KnownAfter(run[..|run| - 1], database, limit), run[|run| - 1];
      if last.database != database then known
      else match last
        case Ask(_, samples) => known * KeySet(Candidates(samples, limit))
        case Collect(_, plans) => known + PlanKeys(plans)
  }

  /** Step `i` collected the plan of `k`, which every later round has had among its candidates. */
  ghost predicate KeptSince(run: seq<Step>, database: string, limit: nat, k: Key, i: nat)
    requires i < |run|
  {
    && run[i].Collect? && run[i].database == database && k in PlanKeys(run[i].plans)
    && forall j | i < j < |run| && run[j].Ask? && run[j].database == database :: k in Candidates(run[j].samples, limit)
  }

  /** The cache knows just the plans collected and wanted ever since. */
  lemma {:induction false} KnownIffKeptSince(run: seq<Step>, database: string, limit: nat, k: Key)
    ensures k in KnownAfter(run, database, limit) <==>
            exists i :: 0 <= i < |run| && KeptSince(run, database, limit, k, i)
  {
    if run != [] {
      var n := |run| - 1;
      var front := run[..n];
      KnownIffKeptSince(front, database, limit, k);
      if k in KnownAfter(run, database, limit) {
        if k in KnownAfter(front, database, limit) {
          var i :| 0 <= i < n && KeptSince(front, database, limit, k, i);
          assert KeptSince(run, database, limit, k, i);
        } else {
          assert KeptSince(run, database, limit, k, n);
        }
      }
      if i :| 0 <= i < |run| && KeptSince(run, database, limit, k, i) {
        assert i < n ==> KeptSince(front, database, limit, k, i);
      }
    }
  }

  /** A round asks for a candidate unless its plan was collected before and has been wanted ever since. */
  lemma AskedForIffNotKept(run: seq<Step>, database: string, samples: seq<Sample>, limit: nat, k: Key)
    ensures k in Excluding(Candidates(samples, limit), KnownAfter(run, database, limit)) <==>
            && k in Candidates(samples, limit)
            && !exists i :: 0 <= i < |run| && KeptSince(run, database, limit, k, i)
  {
    ExcludingMeans(Candidates(samples, limit), KnownAfter(run, database, limit));
    KnownIffKeptSince(run, database, limit, k);
  }

  /** The candidates of the latest round. */
  function LatestCandidates(run: seq<Step>, database: string, limit: nat): seq<Key> {
    if run == [] then []
    else
      var last := run[|run| - 1];
      if last.Ask? && last.database == database then Candidates(last.samples, limit)
      else LatestCandidates(run[..|run| - 1], database, limit)
  }

  /** The plan query returns only plans of the round's candidates. */
  ghost predicate CollectsOnlyCandidates(run: seq<Step>, database: string, limit: nat) {
    forall i | 0 <= i < |run| && run[i].Collect? && run[i].database == database ::
      PlanKeys(run[i].plans) <= KeySet(LatestCandidates(run[..i], database, limit))
  }

  lemma {:induction false} KnownAreCandidates(run: seq<Step>, database: string, limit: nat)
    requires CollectsOnlyCandidates(run, database, limit)
    ensures KnownAfter(run, database, limit) <= KeySet(LatestCandidates(run, database, limit))
  {
    if run != [] {
      var n := |run| - 1;
      var front := run[..n];
      assert forall i | 0 <= i < n :: front[i] == run[i] && front[..i] == run[..i];
      KnownAreCandidates(front, database, limit);
    }
  }

  /** The cache of a database never holds more plans than one round may ask for. */
  lemma CacheStaysWithinLimit(run: seq<Step>, database: string, limit: nat)
    requires CollectsOnlyCandidates(run, database, limit)
    ensures |KnownAfter(run, database, limit)| <= limit
  {
    KnownAreCandidates(run, database, limit);
    LatestCandidatesFit(run, database, limit);
    SubsetIsSmaller(KnownAfter(run, database, limit), KeySet(LatestCandidates(run, database, limit)));
  }

  lemma {:induction false} LatestCandidatesFit(run: seq<Step>, database: string, limit: nat)
    ensures |KeySet(LatestCandidates(run, database, limit))| <= limit
  {
    if run != [] {
      var last := run[|run| - 1];
      if last.Ask? && last.database == database {
        DistinctKeysAreTheKeysNamed(last.samples);
        SetOfDistinct(Candidates(last.samples, limit));
      } else {
        LatestCandidatesFit(run[..|run| - 1], database, limit);
      }
    }
  }
}
