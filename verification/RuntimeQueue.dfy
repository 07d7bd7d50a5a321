/**
 The runtime telemetry queue (postgresql/postgresql.go:66, 1055-1067, 1260-1311, 2939-2964).

 Samples wait in a slice. A writer takes the whole slice, and either commits it or puts it back in
 front of what has been queued since. The first half is the slice itself, with Go's append and
 in-place copy on a shared backing array; the second half is every interleaving of writers.
 */
module RuntimeQueue {
  import opened Common

  const MAX_PENDING: nat := 10_000

  const DEFAULT_FLUSH_INTERVAL: int := 60_000_000_000

  /** The newest MAX_PENDING elements. */
  function Keep<T>(s: seq<T>): seq<T> {
    s[|Excess(s)|..]
  }

  /** What is left off the front. */
  function Excess<T>(s: seq<T>): seq<T> {
    if |s| > MAX_PENDING then s[..|s| - MAX_PENDING] else []
  }

  predicate TakeDue(lastAttempt: Time, interval: int, now: Time, force: bool) {
    force || lastAttempt == ZERO_TIME
    || now - lastAttempt >= if interval <= 0 then DEFAULT_FLUSH_INTERVAL else interval
  }

  // ---- The slice and its backing array ----

  /** A Go slice: a window on an array, whose capacity runs to the array's end. */
  datatype Slice<T> = Slice(data: array<T>, off: nat, len: nat) {
    ghost predicate Fits() {
      off + len <= data.Length
    }

    function Items(): seq<T>
      requires Fits()
      reads data
    {
      data[off..off + len]
    }
  }

  /** Go's `append`: in place while the capacity lasts, otherwise into a new array. */
  method Append<T(0)>(s: Slice<T>, more: seq<T>, spare: nat) returns (r: Slice<T>)
    requires s.Fits()
    modifies s.data
    ensures r.Fits() && r.Items() == old(s.Items()) + more
    ensures r.data == s.data || fresh(r.data)
    ensures r.data == s.data <==> s.off + s.len + |more| <= s.data.Length
    ensures fresh(r.data) ==> s.data[..] == old(s.data[..])
  {
    if s.off + s.len + |more| <= s.data.Length {
      for i := 0 to |more|
        invariant s.data[s.off..s.off + s.len] == old(s.Items())
        invariant s.data[s.off + s.len..s.off + s.len + i] == more[..i]
      {
        s.data[s.off + s.len + i] := more[i];
      }
      r := s.(len := s.len + |more|);
      assert s.data[s.off..s.off + s.len + |more|] ==
             s.data[s.off..s.off + s.len] + s.data[s.off + s.len..s.off + s.len + |more|];
    } else {
      var items := s.Items() + more;
      var data := new T[|items| + spare];
      for i := 0 to |items|
        invariant data[..i] == items[..i]
        invariant s.data[..] == old(s.data[..])
      {
        data[i] := items[i];
      }
      r := Slice(data, 0, |items|);
    }
  }

  class Queue<T(0)> {
    var pendingRuntime: Slice<T>
    var lastRuntimeFlushAttempt: Time
    const runtimeFlushInterval: int
    /** The backing arrays of the batches that writers have taken and not finished with. */
    ghost var lent: set<array<T>>

    /** The queue never shares its array with a batch in flight. */
    ghost predicate Valid()
      reads this
    {
      pendingRuntime.Fits() && pendingRuntime.len <= MAX_PENDING && pendingRuntime.data !in lent
    }

    function Contents(): seq<T>
      requires Valid()
      reads this, pendingRuntime.data
    {
      pendingRuntime.Items()
    }

    constructor (interval: int)
      ensures Valid() && Contents() == [] && lent == {} && lastRuntimeFlushAttempt == ZERO_TIME
      ensures runtimeFlushInterval == interval && fresh(pendingRuntime.data)
    {
      var none := new T[0];
      pendingRuntime, lastRuntimeFlushAttempt, runtimeFlushInterval := Slice(none, 0, 0), ZERO_TIME, interval;
      lent := {};
    }

    /** `queueRuntime`: the overflow is removed by shifting the survivors down in place. */
    method QueueRuntime(samples: seq<T>, spare: nat)
      requires Valid()
      modifies this`pendingRuntime, pendingRuntime.data
      ensures Valid() && Contents() == Keep(old(Contents()) + samples)
      ensures var all := old(Contents()) + samples;
        Contents() == (if |all| <= 10_000 then all else all[|all| - 10_000..])
      ensures pendingRuntime.data == old(pendingRuntime.data) || fresh(pendingRuntime.data)
    {
      if |samples| == 0 {
        return;
      }
      var appended := Append(pendingRuntime, samples, spare);
      ghost var all := appended.Items();
      KeepIsNewest(all);
      var dropped := appended.len - MAX_PENDING;
      if dropped > 0 {
        ShiftDown(appended, dropped);
        appended := appended.(len := MAX_PENDING);
      }
      pendingRuntime := appended;
    }

    /** `takePendingRuntime`: hands over the slice itself, array and all, and starts from nil. */
    method TakePendingRuntime(now: Time, force: bool) returns (samples: Slice<T>)
      requires Valid()
      modifies this
      ensures Valid() && samples.Fits() && samples.len <= MAX_PENDING
      ensures samples.Items() + Contents() == old(Contents())
      ensures samples.len > 0 <==>
        old(Contents()) != [] && TakeDue(old(lastRuntimeFlushAttempt), runtimeFlushInterval, now, force)
      ensures samples.len > 0 <==>
        old(Contents()) != [] &&
        (|| force || old(lastRuntimeFlushAttempt) == ZERO_TIME
         || (runtimeFlushInterval > 0 && now >= old(lastRuntimeFlushAttempt) + runtimeFlushInterval)
         || (runtimeFlushInterval <= 0 && now >= old(lastRuntimeFlushAttempt) + 60 * 1_000_000_000))
      ensures samples.len > 0 ==>
        Contents() == [] && lastRuntimeFlushAttempt == now && lent == old(lent) + {samples.data}
      ensures samples.len == 0 ==> lastRuntimeFlushAttempt == old(lastRuntimeFlushAttempt) && lent == old(lent)
      ensures pendingRuntime.data == old(pendingRuntime.data) || fresh(pendingRuntime.data)
      ensures samples.data == old(pendingRuntime.data) || fresh(samples.data)
    {
      var none := new T[0];
      samples := Slice(none, 0, 0);
      if pendingRuntime.len == 0 {
        return;
      }
      var interval := runtimeFlushInterval;
      if interval <= 0 {
        interval := DEFAULT_FLUSH_INTERVAL;
      }
      if !force && lastRuntimeFlushAttempt != ZERO_TIME && now - lastRuntimeFlushAttempt < interval {
        return;
      }
      lastRuntimeFlushAttempt := now;
      samples := pendingRuntime;
      pendingRuntime := Slice(none, 0, 0);
      lent := lent + {samples.data};
    }

    /** `requeueRuntime`: appends the queue to the failed batch, reusing the batch's array when it has room. */
    method RequeueRuntime(samples: Slice<T>, spare: nat)
      requires Valid() && samples.Fits() && (samples.len > 0 ==> samples.data in lent)
      modifies this`pendingRuntime, this`lent, samples.data
      ensures Valid() && Contents() == Keep(old(samples.Items()) + old(Contents()))
      ensures var all := old(samples.Items()) + old(Contents());
        Contents() == (if |all| <= 10_000 then all else all[|all| - 10_000..])
      ensures lent == old(lent) - if samples.len > 0 then {samples.data} else {}
      ensures pendingRuntime.data == (if samples.len > 0 then samples.data else old(pendingRuntime.data))
              || fresh(pendingRuntime.data)
    {
      ghost var all := samples.Items() + Contents();
      KeepIsNewest(all);
      if samples.len == 0 {
        assert all == Contents();
        return;
      }
      var appended := Append(samples, pendingRuntime.Items(), spare);
      assert appended.Items() == all;
      pendingRuntime := Newest(appended);
      lent := lent - {samples.data};
      assert Contents() == Keep(all);
    }

    /** `flushRuntime`, undisturbed: what is taken is written, and put back if the write fails. */
    method FlushRuntime(now: Time, commits: bool, spare: nat) returns (written: seq<T>)
      requires Valid()
      modifies this, pendingRuntime.data
      ensures Valid() && written + Contents() == old(Contents()) && lent == old(lent)
      ensures written == if commits then old(Contents()) else []
      ensures old(Contents()) != [] ==> lastRuntimeFlushAttempt == now
    {
      var samples := TakePendingRuntime(now, true);
      written := [];
      if samples.len == 0 {
        return;
      }
      if commits {
        written := samples.Items();
        Release(samples);
      } else {
        assert samples.Items() + Contents() == samples.Items();
        RequeueRuntime(samples, spare);
      }
    }

    /** A committed batch's array belongs to nobody. */
    ghost method Release(samples: Slice<T>)
      requires Valid() && samples.data in lent
      modifies this`lent
      ensures Valid() && Contents() == old(Contents()) && lent == old(lent) - {samples.data}
    {
      lent := lent - {samples.data};
    }
  }

  lemma KeepIsNewest<T>(all: seq<T>)
    ensures Keep(all) == if |all| <= 10_000 then all else all[|all| - 10_000..]
  {
  }

  /** The reslice `s[dropped:]`, when there is anything to drop. */
  method Newest<T>(s: Slice<T>) returns (r: Slice<T>)
    requires s.Fits()
    ensures r.Fits() && r.len <= MAX_PENDING && r.data == s.data
    ensures r.Items() == Keep(s.Items())
  {
    var dropped := s.len - MAX_PENDING;
    if dropped <= 0 {
      return s;
    }
    r := Slice(s.data, s.off + dropped, MAX_PENDING);
    assert r.Items() == s.Items()[dropped..];
  }

  /** `copy(s, s[shift:])` onto the same array: the tail lands at the front, unharmed by the overlap. */
  method ShiftDown<T>(s: Slice<T>, shift: nat)
    requires s.Fits() && shift <= s.len
    modifies s.data
    ensures s.data[s.off..s.off + (s.len - shift)] == old(s.Items())[shift..]
  {
    for i := 0 to s.len - shift
      invariant forall j | s.off <= j < s.off + i :: s.data[j] == old(s.data[..])[j + shift]
      invariant forall j | s.off + i <= j < s.data.Length :: s.data[j] == old(s.data[..])[j]
    {
      s.data[s.off + i] := s.data[s.off + shift + i];
    }
    ghost var was, kept := old(s.data[..]), s.len - shift;
    assert was[s.off..s.off + s.len][shift..] == was[s.off + shift..s.off + s.len];
    assert s.data[s.off..s.off + kept] == was[s.off + shift..s.off + s.len];
  }

  // ---- Every interleaving of writers ----

  /**
   Samples are numbered by the order in which they were recorded; `next` is how many there have
   been. `inFlight[w]` is what writer w has taken and not yet committed or put back.
   */
  datatype Telemetry = Telemetry(
    pending: seq<nat>,
    inFlight: seq<seq<nat>>,
    committed: seq<nat>,
    dropped: seq<nat>,
    next: nat,
    lastAttempt: Time)

  datatype Step =
    | Record(count: nat)
    | Take(writer: nat, now: Time, force: bool)
    | Commit(writer: nat)
    | Fail(writer: nat)

  function Numbers(from: nat, to: nat): seq<nat>
    requires from <= to
  {
    if from == to then [] else Numbers(from, to - 1) + [to - 1]
  }

  lemma {:induction false} NumbersAre(from: nat, to: nat)
    requires from <= to
    ensures |Numbers(from, to)| == to - from
    ensures forall i | 0 <= i < to - from :: Numbers(from, to)[i] == from + i
  {
    if from < to {
      NumbersAre(from, to - 1);
    }
  }

  predicate Holds(s: Telemetry, writer: nat) {
    writer < |s.inFlight| && s.inFlight[writer] != []
  }

  /** `all` takes the place of the queue, and what is over the cap is dropped. */
  function Arrived(s: Telemetry, all: seq<nat>, next: nat): Telemetry {
    s.(pending := Keep(all), dropped := s.dropped + Excess(all), next := next)
  }

  function NewSamples(s: Telemetry, count: nat): seq<nat> {
    Numbers(s.next, s.next + count)
  }

  function Recorded(s: Telemetry, count: nat): Telemetry {
    Arrived(s, s.pending + NewSamples(s, count), s.next + count)
  }

  function Taken(s: Telemetry, w: nat, now: Time, force: bool, interval: int): Telemetry {
    if w >= |s.inFlight| || Holds(s, w) || s.pending == [] || !TakeDue(s.lastAttempt, interval, now, force) then s
    else s.(pending := [], inFlight := s.inFlight[w := s.pending], lastAttempt := now)
  }

  function Committed(s: Telemetry, w: nat): Telemetry {
    if !Holds(s, w) then s
    else s.(committed := s.committed + s.inFlight[w], inFlight := s.inFlight[w := []])
  }

  function Failed(s: Telemetry, w: nat): Telemetry {
    if !Holds(s, w) then s
    else Arrived(s.(inFlight := s.inFlight[w := []]), s.inFlight[w] + s.pending, s.next)
  }

  /** A writer without a batch takes all of the queue once a flush is due, and a writer takes nothing otherwise. */
  lemma TakeTakesAllPending(s: Telemetry, w: nat, now: Time, force: bool, interval: int)
    ensures var wait := if interval > 0 then interval else 60 * 1_000_000_000;
      Taken(s, w, now, force, interval) ==
      if w < |s.inFlight| && s.inFlight[w] == [] && s.pending != []
         && (force || s.lastAttempt == ZERO_TIME || now >= s.lastAttempt + wait)
      then s.(pending := [], inFlight := s.inFlight[w := s.pending], lastAttempt := now)
      else s
  {
  }

  /** A failed batch goes back in front of the queue, of which the newest 10000 are kept and the others dropped. */
  lemma FailedBatchGoesInFront(s: Telemetry, w: nat)
    requires Holds(s, w)
    ensures var s', all := Failed(s, w), s.inFlight[w] + s.pending;
      && s'.pending == (if |all| <= 10_000 then all else all[|all| - 10_000..])
      && s'.dropped == (if |all| <= 10_000 then s.dropped else s.dropped + all[..|all| - 10_000])
      && s'.inFlight == s.inFlight[w := []] && s'.committed == s.committed
  {
    assert s.dropped + [] == s.dropped;
  }

  /** One critical section; a step that is not enabled changes nothing. */
  function Apply(s: Telemetry, step: Step, interval: int): Telemetry {
    match step
    case Record(count) => Recorded(s, count)
    case Take(w, now, force) => Taken(s, w, now, force, interval)
    case Commit(w) => Committed(s, w)
    case Fail(w) => Failed(s, w)
  }

  function Start(writers: nat): Telemetry {
    Telemetry([], EmptyHanded(writers), [], [], 0, ZERO_TIME)
  }

  function EmptyHanded(writers: nat): seq<seq<nat>> {
    seq(writers, i => [])
  }

  function Run(writers: nat, interval: int, steps: seq<Step>): Telemetry {
    if steps == [] then Start(writers)
    else Apply(Run(writers, interval, steps[..|steps| - 1]), steps[|steps| - 1], interval)
  }

  function Copies(s: seq<nat>, sample: nat): nat {
    multiset(s)[sample]
  }

  function CopiesHeld(batches: seq<seq<nat>>, sample: nat): nat {
    if batches == [] then 0
    else CopiesHeld(batches[..|batches| - 1], sample) + Copies(batches[|batches| - 1], sample)
  }

  /** How often a sample occurs in all the places it can be. */
  function Everywhere(s: Telemetry, sample: nat): nat {
    Copies(s.pending, sample) + CopiesHeld(s.inFlight, sample) + Copies(s.committed, sample) + Copies(s.dropped, sample)
  }

  ghost predicate Inv(s: Telemetry, writers: nat, sample: nat) {
    && |s.inFlight| == writers
    && |s.pending| <= MAX_PENDING
    && Everywhere(s, sample) == if sample < s.next then 1 else 0
  }

  lemma CopiesAppend(a: seq<nat>, b: seq<nat>, sample: nat)
    ensures Copies(a + b, sample) == Copies(a, sample) + Copies(b, sample)
  {
  }

  lemma {:induction false} CopiesInNumbers(from: nat, to: nat, sample: nat)
    requires from <= to
    ensures Copies(Numbers(from, to), sample) == if from <= sample < to then 1 else 0
  {
    if from < to {
      CopiesInNumbers(from, to - 1, sample);
      CopiesAppend(Numbers(from, to - 1), [to - 1], sample);
    }
  }

  lemma {:induction false} CopiesHeldUpdate(batches: seq<seq<nat>>, w: nat, batch: seq<nat>, sample: nat)
    requires w < |batches|
    ensures CopiesHeld(batches[w := batch], sample) + Copies(batches[w], sample) ==
            CopiesHeld(batches, sample) + Copies(batch, sample)
  {
    var updated, front := batches[w := batch], batches[..|batches| - 1];
    if w == |batches| - 1 {
      assert updated[..|batches| - 1] == front;
    } else {
      assert updated[..|batches| - 1] == front[w := batch];
      CopiesHeldUpdate(front, w, batch, sample);
    }
  }

  lemma {:induction false} NothingHeld(writers: nat, sample: nat)
    ensures CopiesHeld(EmptyHanded(writers), sample) == 0
  {
    if writers > 0 {
      assert EmptyHanded(writers)[..writers - 1] == EmptyHanded(writers - 1);
      NothingHeld(writers - 1, sample);
    }
  }

  lemma KeepAndExcess<T>(all: seq<T>)
    ensures Excess(all) + Keep(all) == all
    ensures |Keep(all)| <= MAX_PENDING
    ensures Excess(all) != [] ==> |Keep(all)| == MAX_PENDING
  {
  }

  lemma CopiesKeptOrDropped(a: seq<nat>, b: seq<nat>, dropped: seq<nat>, sample: nat)
    ensures Copies(Keep(a + b), sample) + Copies(dropped + Excess(a + b), sample) ==
            Copies(a, sample) + Copies(b, sample) + Copies(dropped, sample)
  {
    KeepAndExcess(a + b);
    CopiesAppend(Excess(a + b), Keep(a + b), sample);
    CopiesAppend(a, b, sample);
    CopiesAppend(dropped, Excess(a + b), sample);
  }

  /** Samples that arrive are then kept or dropped, and everything else stays put. */
  lemma ArrivalCopies(s: Telemetry, a: seq<nat>, b: seq<nat>, next: nat, sample: nat)
    ensures var s' := Arrived(s, a + b, next);
      && |s'.pending| <= MAX_PENDING
      && Everywhere(s', sample) + Copies(s.pending, sample) == Everywhere(s, sample) + Copies(a, sample) + Copies(b, sample)
  {
    KeepAndExcess(a + b);
    CopiesKeptOrDropped(a, b, s.dropped, sample);
  }

  lemma NewCopies(s: Telemetry, count: nat, sample: nat)
    ensures Copies(NewSamples(s, count), sample) == if s.next <= sample < s.next + count then 1 else 0
  {
    CopiesInNumbers(s.next, s.next + count, sample);
  }

  lemma RecordKeepsInv(s: Telemetry, count: nat, writers: nat, sample: nat)
    requires Inv(s, writers, sample)
    ensures Inv(Recorded(s, count), writers, sample)
  {
    NewCopies(s, count, sample);
    ArrivalCopies(s, s.pending, NewSamples(s, count), s.next + count, sample);
  }

  lemma TakeKeepsInv(s: Telemetry, w: nat, now: Time, force: bool, interval: int, writers: nat, sample: nat)
    requires Inv(s, writers, sample) && w < |s.inFlight| && !Holds(s, w)
    ensures Inv(Taken(s, w, now, force, interval), writers, sample)
  {
    CopiesHeldUpdate(s.inFlight, w, s.pending, sample);
  }

  lemma FinishKeepsInv(s: Telemetry, w: nat, writers: nat, sample: nat)
    requires Inv(s, writers, sample) && Holds(s, w)
    ensures Inv(Committed(s, w), writers, sample)
    ensures Inv(Failed(s, w), writers, sample)
  {
    CopiesHeldUpdate(s.inFlight, w, [], sample);
    CopiesAppend(s.committed, s.inFlight[w], sample);
    ArrivalCopies(s.(inFlight := s.inFlight[w := []]), s.inFlight[w], s.pending, s.next, sample);
  }

  lemma StepKeepsInv(s: Telemetry, step: Step, interval: int, writers: nat, sample: nat)
    requires Inv(s, writers, sample)
    ensures Inv(Apply(s, step, interval), writers, sample)
  {
    match step
    case Record(count) =>
      RecordKeepsInv(s, count, writers, sample);
    case Take(w, now, force) =>
      if w < |s.inFlight| && !Holds(s, w) {
        TakeKeepsInv(s, w, now, force, interval, writers, sample);
      }
    case Commit(w) =>
      if Holds(s, w) {
        FinishKeepsInv(s, w, writers, sample);
      }
    case Fail(w) =>
      if Holds(s, w) {
        FinishKeepsInv(s, w, writers, sample);
      }
  }

  /**
   In every reachable state, for any number of writers, each recorded sample is in exactly one place -
   pending, one writer's batch, committed or dropped - and once; nothing else is anywhere; and the
   queue is within its cap.
   */
  lemma {:induction false} EverySampleInOnePlace(writers: nat, interval: int, steps: seq<Step>, sample: nat)
    ensures Inv(Run(writers, interval, steps), writers, sample)
  {
    if steps == [] {
      NothingHeld(writers, sample);
    } else {
      EverySampleInOnePlace(writers, interval, steps[..|steps| - 1], sample);
      StepKeepsInv(Run(writers, interval, steps[..|steps| - 1]), steps[|steps| - 1], interval, writers, sample);
    }
  }

  /** What a step adds to the queue: new samples behind it, or a failed batch in front of it. */
  function Arriving(s: Telemetry, step: Step): seq<nat> {
    match step
    case Record(count) => s.pending + NewSamples(s, count)
    case Fail(w) => if Holds(s, w) then s.inFlight[w] + s.pending else s.pending
    case _ => s.pending
  }

  lemma OverflowIsOldest(all: seq<nat>, dropped: seq<nat>)
    ensures dropped <= dropped + Excess(all) && (dropped + Excess(all))[|dropped|..] + Keep(all) == all
    ensures dropped + Excess(all) != dropped ==> |all| > MAX_PENDING && |Keep(all)| == MAX_PENDING
  {
    KeepAndExcess(all);
    assert (dropped + Excess(all))[|dropped|..] == Excess(all);
  }

  /** A step drops only when the queue would exceed its cap, and then only its oldest samples. */
  lemma DropsOnlyOldestAboveCap(s: Telemetry, step: Step, interval: int)
    ensures var s' := Apply(s, step, interval);
      && s.dropped <= s'.dropped
      && (s'.dropped != s.dropped ==>
          && |Arriving(s, step)| > MAX_PENDING && |s'.pending| == MAX_PENDING
          && s'.dropped[|s.dropped|..] + s'.pending == Arriving(s, step))
  {
    OverflowIsOldest(Arriving(s, step), s.dropped);
  }

  // ---- Order ----

  /** Strictly increasing, and below `bound`. */
  ghost predicate Increasing(s: seq<nat>, bound: nat) {
    && (forall i, j | 0 <= i < j < |s| :: s[i] < s[j])
    && (forall i | 0 <= i < |s| :: s[i] < bound)
  }

  function Concat(batches: seq<seq<nat>>): seq<nat> {
    if batches == [] then [] else Concat(batches[..|batches| - 1]) + batches[|batches| - 1]
  }

  ghost predicate NoneHeld(s: Telemetry) {
    forall w | 0 <= w < |s.inFlight| :: s.inFlight[w] == []
  }

  /** No writer takes a batch while another still holds one. */
  ghost predicate OneAtATime(writers: nat, interval: int, steps: seq<Step>) {
    forall i | 0 <= i < |steps| && steps[i].Take? ::
      var s := Run(writers, interval, steps[..i]);
      NoneHeld(s) || Apply(s, steps[i], interval) == s
  }

  /** Everything not dropped: committed, then held, then pending. */
  function Line(s: Telemetry): seq<nat> {
    s.committed + Concat(s.inFlight) + s.pending
  }

  ghost predicate Ordered(s: Telemetry) {
    Increasing(Line(s), s.next)
  }

  ghost predicate AtMostOneHolds(s: Telemetry) {
    NoneHeld(s) || exists w :: OnlyHolder(s, w)
  }

  ghost predicate OnlyHolder(s: Telemetry, w: nat) {
    w < |s.inFlight| && forall v | 0 <= v < |s.inFlight| && v != w :: s.inFlight[v] == []
  }

  lemma {:induction false} ConcatOfOne(batches: seq<seq<nat>>, w: nat)
    requires w < |batches| && forall v | 0 <= v < |batches| && v != w :: batches[v] == []
    ensures Concat(batches) == batches[w]
  {
    if w == |batches| - 1 {
      ConcatOfNone(batches[..|batches| - 1]);
    } else {
      ConcatOfOne(batches[..|batches| - 1], w);
    }
  }

  lemma {:induction false} ConcatOfNone(batches: seq<seq<nat>>)
    requires forall v | 0 <= v < |batches| :: batches[v] == []
    ensures Concat(batches) == []
  {
    if batches != [] {
      ConcatOfNone(batches[..|batches| - 1]);
    }
  }

  lemma IncreasingWithoutMiddle(a: seq<nat>, b: seq<nat>, c: seq<nat>, bound: nat)
    requires Increasing(a + b + c, bound)
    ensures Increasing(a + c, bound)
  {
    forall i | 0 <= i < |a + c|
      ensures (a + c)[i] == (a + b + c)[if i < |a| then i else i + |b|]
    {
    }
  }

  lemma ThreePieces(a: seq<nat>, b: seq<nat>, c: seq<nat>)
    ensures a + b + c == a + (b + c)
  {
  }

  lemma KeepStaysIncreasing(front: seq<nat>, all: seq<nat>, bound: nat)
    requires Increasing(front + all, bound)
    ensures Increasing(front + Keep(all), bound)
  {
    KeepAndExcess(all);
    ThreePieces(front, Excess(all), Keep(all));
    IncreasingWithoutMiddle(front, Excess(all), Keep(all), bound);
  }

  lemma IncreasingAppend(a: seq<nat>, b: seq<nat>, middle: nat, bound: nat)
    requires Increasing(a, middle) && Increasing(b, bound) && middle <= bound
    requires forall i | 0 <= i < |b| :: middle <= b[i]
    ensures Increasing(a + b, bound)
  {
  }

  lemma NewSamplesAre(s: Telemetry, count: nat)
    ensures |NewSamples(s, count)| == count
    ensures forall i | 0 <= i < count :: NewSamples(s, count)[i] == s.next + i
  {
    NumbersAre(s.next, s.next + count);
  }

  lemma RecordKeepsOrder(s: Telemetry, count: nat)
    requires Ordered(s)
    ensures Ordered(Recorded(s, count))
  {
    var s' := Recorded(s, count);
    var added := NewSamples(s, count);
    var arriving, front := s.pending + added, s.committed + Concat(s.inFlight);
    NewSamplesAre(s, count);
    IncreasingAppend(Line(s), added, s.next, s'.next);
    ThreePieces(front, s.pending, added);
    KeepStaysIncreasing(front, arriving, s'.next);
  }

  lemma TakeKeepsOrder(s: Telemetry, w: nat, now: Time, force: bool, interval: int)
    requires Ordered(s) && NoneHeld(s) && w < |s.inFlight|
    ensures Ordered(Taken(s, w, now, force, interval))
  {
    if s.pending != [] && TakeDue(s.lastAttempt, interval, now, force) {
      ConcatOfNone(s.inFlight);
      ConcatOfOne(s.inFlight[w := s.pending], w);
      assert s.committed + [] + s.pending == s.committed + s.pending + [];
    }
  }

  lemma ConcatOfHeld(s: Telemetry, w: nat)
    requires AtMostOneHolds(s) && Holds(s, w)
    ensures Concat(s.inFlight) == s.inFlight[w]
    ensures Concat(s.inFlight[w := []]) == []
  {
    var v :| OnlyHolder(s, v);
    ConcatOfOne(s.inFlight, w);
    ConcatOfNone(s.inFlight[w := []]);
  }

  lemma CommitKeepsOrder(s: Telemetry, w: nat)
    requires Ordered(s) && AtMostOneHolds(s) && Holds(s, w)
    ensures Ordered(Committed(s, w))
  {
    ConcatOfHeld(s, w);
    assert Line(Committed(s, w)) == Line(s);
  }

  lemma FailKeepsOrder(s: Telemetry, w: nat)
    requires Ordered(s) && AtMostOneHolds(s) && Holds(s, w)
    ensures Ordered(Failed(s, w))
  {
    ConcatOfHeld(s, w);
    ThreePieces(s.committed, s.inFlight[w], s.pending);
    KeepStaysIncreasing(s.committed, s.inFlight[w] + s.pending, s.next);
    assert s.committed + [] == s.committed;
  }

  lemma StepKeepsAtMostOne(s: Telemetry, step: Step, interval: int)
    requires AtMostOneHolds(s)
    requires step.Take? ==> NoneHeld(s) || Apply(s, step, interval) == s
    ensures AtMostOneHolds(Apply(s, step, interval))
  {
    var s' := Apply(s, step, interval);
    if NoneHeld(s) {
      if step.Take? && s' != s {
        assert OnlyHolder(s', step.writer);
      }
    } else {
      var w :| OnlyHolder(s, w);
      assert OnlyHolder(s', w);
    }
  }

  lemma StepKeepsOrder(s: Telemetry, step: Step, interval: int)
    requires Ordered(s) && AtMostOneHolds(s)
    requires step.Take? ==> NoneHeld(s) || Apply(s, step, interval) == s
    ensures Ordered(Apply(s, step, interval))
  {
    match step
    case Record(count) =>
      RecordKeepsOrder(s, count);
    case Take(w, now, force) =>
      if NoneHeld(s) && w < |s.inFlight| {
        TakeKeepsOrder(s, w, now, force, interval);
      }
    case Commit(w) =>
      if Holds(s, w) {
        CommitKeepsOrder(s, w);
      }
    case Fail(w) =>
      if Holds(s, w) {
        FailKeepsOrder(s, w);
      }
  }

  /** When batches are never out with two writers at once, what is stored or waiting keeps record order. */
  lemma {:induction false} RecordOrderKept(writers: nat, interval: int, steps: seq<Step>)
    requires OneAtATime(writers, interval, steps)
    ensures Ordered(Run(writers, interval, steps)) && AtMostOneHolds(Run(writers, interval, steps))
  {
    if steps == [] {
      ConcatOfNone(Start(writers).inFlight);
    } else {
      var before := steps[..|steps| - 1];
      forall i | 0 <= i < |before| && before[i].Take?
        ensures var s := Run(writers, interval, before[..i]);
          NoneHeld(s) || Apply(s, before[i], interval) == s
      {
        assert before[..i] == steps[..i];
      }
      RecordOrderKept(writers, interval, before);
      StepKeepsOrder(Run(writers, interval, before), steps[|steps| - 1], interval);
      StepKeepsAtMostOne(Run(writers, interval, before), steps[|steps| - 1], interval);
    }
  }

  lemma OneWriterTakesAlone(s: Telemetry, step: Step, interval: int)
    requires |s.inFlight| == 1 && step.Take?
    ensures NoneHeld(s) || Apply(s, step, interval) == s
  {
    assert NoneHeld(s) || Holds(s, 0);
  }

  /** With one writer that is always so: what is committed, held or pending is in record order. */
  lemma SingleWriterKeepsOrder(interval: int, steps: seq<Step>)
    ensures Ordered(Run(1, interval, steps))
  {
    forall i | 0 <= i < |steps| && steps[i].Take?
      ensures var s := Run(1, interval, steps[..i]);
        NoneHeld(s) || Apply(s, steps[i], interval) == s
    {
      EverySampleInOnePlace(1, interval, steps[..i], 0);
      OneWriterTakesAlone(Run(1, interval, steps[..i]), steps[i], interval);
    }
    RecordOrderKept(1, interval, steps);
  }

  // ---- When order is safe ----

  /** Writers finishing, in some order and with any outcome, and nothing else. */
  ghost predicate Finishes(steps: seq<Step>) {
    forall step | step in steps :: step.Commit? || step.Fail?
  }

  function After(s: Telemetry, steps: seq<Step>): Telemetry {
    if steps == [] then s else Apply(After(s, steps[..|steps| - 1]), steps[|steps| - 1], 0)
  }

  ghost predicate StoredInOrder(s: Telemetry) {
    Increasing(s.committed + s.pending, s.next)
  }

  /** However the batches now held are finished, what is stored and waiting keeps record order. */
  ghost predicate OrderIsSafe(s: Telemetry) {
    forall steps | Finishes(steps) :: StoredInOrder(After(s, steps))
  }

  lemma {:induction false} FinishingKeepsOrder(s: Telemetry, steps: seq<Step>)
    requires Ordered(s) && AtMostOneHolds(s) && Finishes(steps)
    ensures Ordered(After(s, steps)) && AtMostOneHolds(After(s, steps))
  {
    if steps != [] {
      var front, last := steps[..|steps| - 1], steps[|steps| - 1];
      assert last in steps && forall step | step in front :: step in steps;
      FinishingKeepsOrder(s, front);
      StepKeepsOrder(After(s, front), last, 0);
      StepKeepsAtMostOne(After(s, front), last, 0);
    }
  }

  lemma CommitsOf(s: Telemetry, w: nat)
    requires Holds(s, w)
    ensures Finishes([Commit(w)])
    ensures After(s, [Commit(w)]) == s.(committed := s.committed + s.inFlight[w], inFlight := s.inFlight[w := []])
  {
    assert [Commit(w)][..0] == [];
  }

  lemma CommitsOfTwo(s: Telemetry, v: nat, w: nat)
    requires Holds(s, v) && Holds(s, w) && v != w
    ensures Finishes([Commit(v), Commit(w)])
    ensures After(s, [Commit(v), Commit(w)]).committed == s.committed + s.inFlight[v] + s.inFlight[w]
    ensures After(s, [Commit(v), Commit(w)]).pending == s.pending && After(s, [Commit(v), Commit(w)]).next == s.next
  {
    CommitsOf(s, v);
    assert [Commit(v), Commit(w)][..1] == [Commit(v)];
  }

  /** Two batches cannot be committed in either order. */
  lemma TwoHoldersAreUnsafe(s: Telemetry, v: nat, w: nat)
    requires Holds(s, v) && Holds(s, w) && v != w
    ensures !OrderIsSafe(s)
  {
    CommitsOfTwo(s, v, w);
    CommitsOfTwo(s, w, v);
    var c, x, y := s.committed, s.inFlight[v], s.inFlight[w];
    if OrderIsSafe(s) {
      assert StoredInOrder(After(s, [Commit(v), Commit(w)])) && StoredInOrder(After(s, [Commit(w), Commit(v)]));
      FirstsAscend(c, x, y, s.pending, s.next);
      FirstsAscend(c, y, x, s.pending, s.next);
    }
  }

  lemma FirstsAscend(c: seq<nat>, x: seq<nat>, y: seq<nat>, rest: seq<nat>, bound: nat)
    requires x != [] && y != [] && Increasing(c + x + y + rest, bound)
    ensures x[0] < y[0]
  {
    var all := c + x + y + rest;
    assert all[|c|] == x[0] && all[|c| + |x|] == y[0];
  }

  /** In any state: every way of finishing the held batches keeps record order exactly if at most one is held and all is in order. */
  lemma OrderIsSafeIff(s: Telemetry)
    ensures OrderIsSafe(s) <==> AtMostOneHolds(s) && Ordered(s)
  {
    if AtMostOneHolds(s) && Ordered(s) {
      forall steps | Finishes(steps)
        ensures StoredInOrder(After(s, steps))
      {
        FinishingKeepsOrder(s, steps);
        var s' := After(s, steps);
        IncreasingWithoutMiddle(s'.committed, Concat(s'.inFlight), s'.pending, s'.next);
      }
    } else if NoneHeld(s) {
      ConcatOfNone(s.inFlight);
      assert s.committed + [] + s.pending == s.committed + s.pending;
      assert Finishes([]) && After(s, []) == s;
    } else if w :| OnlyHolder(s, w) {
      ConcatOfOne(s.inFlight, w);
      CommitsOf(s, w);
      assert !StoredInOrder(After(s, [Commit(w)]));
    } else {
      var v :| 0 <= v < |s.inFlight| && s.inFlight[v] != [];
      assert !OnlyHolder(s, v);
      var w :| 0 <= w < |s.inFlight| && w != v && s.inFlight[w] != [];
      TwoHoldersAreUnsafe(s, v, w);
    }
  }

  lemma RunOneMore(writers: nat, interval: int, steps: seq<Step>, step: Step)
    ensures Run(writers, interval, steps + [step]) == Apply(Run(writers, interval, steps), step, interval)
  {
    assert (steps + [step])[..|steps|] == steps;
  }

  lemma RecordOne(s: Telemetry)
    requires |s.pending| < MAX_PENDING
    ensures Recorded(s, 1) == s.(pending := s.pending + [s.next], next := s.next + 1)
  {
    NewSamplesAre(s, 1);
    assert NewSamples(s, 1) == [s.next];
    var all := s.pending + [s.next];
    assert Keep(all) == all && s.dropped + [] == s.dropped;
  }

  /** Two writers can store batches out of record order. */
  lemma TwoWritersCanReorder()
    ensures Run(2, 0, [] + [Record(1)] + [Take(0, 1, true)] + [Record(1)] + [Take(1, 2, true)] + [Commit(1)] + [Commit(0)])
              .committed == [1, 0]
  {
    var a := [] + [Record(1)];
    var b := a + [Take(0, 1, true)];
    var c := b + [Record(1)];
    var d := c + [Take(1, 2, true)];
    assert Run(2, 0, []) == Telemetry([], [[], []], [], [], 0, ZERO_TIME);
    RunOneMore(2, 0, [], Record(1));
    RecordOne(Run(2, 0, []));
    assert Run(2, 0, a) == Telemetry([0], [[], []], [], [], 1, ZERO_TIME);
    RunOneMore(2, 0, a, Take(0, 1, true));
    assert Run(2, 0, b) == Telemetry([], [[0], []], [], [], 1, 1);
    RunOneMore(2, 0, b, Record(1));
    RecordOne(Run(2, 0, b));
    assert Run(2, 0, c) == Telemetry([1], [[0], []], [], [], 2, 1);
    RunOneMore(2, 0, c, Take(1, 2, true));
    assert Run(2, 0, d) == Telemetry([], [[0], [1]], [], [], 2, 2);
    RunOneMore(2, 0, d, Commit(1));
    RunOneMore(2, 0, d + [Commit(1)], Commit(0));
  }
}
