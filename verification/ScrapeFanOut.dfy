/**
 The scrape fan-out (collector/collector.go:172-394).

 One worker per database sends on five bounded channels; a closer waits for all workers; the scraper
 drains the channels one after another, errors first. The main results count sends against capacities:
 no send ever blocks, the pass always ends, and the batch is what the workers sent.
 */
module ScrapeFanOut {
  datatype Channel = Errors | Samples | Performance | Operational | Statuses

  datatype Status = Status(database: string, collector: string, success: bool)

  datatype Message = ErrorMessage(failed: bool) | Items(items: seq<nat>) | StatusMessage(statuses: seq<Status>)

  datatype Send = Send(channel: Channel, message: Message)

  // ---- One worker ----

  /** A metric is skipped, scraped, or fails, perhaps in a way that quarantines the database. */
  datatype MetricOutcome = Skipped | Scraped(items: seq<nat>) | Failed(connectionFailed: bool)

  /** Everything a worker learns from its database, in the order it asks. */
  datatype Outcome = Outcome(
    startupReady: bool,
    active: bool,
    pingSucceeds: bool,
    metrics: seq<MetricOutcome>,
    activeAfterMetrics: bool,
    performanceFails: bool,
    performanceItems: seq<nat>,
    activeAfterPerformance: bool,
    operationalDue: bool,
    operationalFails: seq<bool>,
    operationalItems: seq<nat>)

  const OPERATIONAL_COLLECTORS: seq<string> := [
    "database_status", "database_identity", "instance", "instance_memory", "resource_limits", "tablespaces",
    "tablespace_allocation", "asm_diskgroups", "system_counters", "cpu_io_counters", "wait_classes",
    "system_metrics", "dataguard"]

  function Count(sends: seq<Send>, c: Channel): nat {
    |On(sends, c)|
  }

  /** The messages a worker sends on one channel, in order. */
  function On(sends: seq<Send>, c: Channel): seq<Message> {
    if sends == [] then []
    else
      var front, s := On(sends[..|sends| - 1], c), sends[|sends| - 1];
      if s.channel == c then front + [s.message] else front
  }

  /** How many statuses of one collector of one database the messages carry. */
  function Reported(messages: seq<Message>, database: string, collector: string): nat {
    if messages == [] then 0
    else Reported(messages[..|messages| - 1], database, collector)
         + ReportedIn(messages[|messages| - 1], database, collector)
  }

  function ReportedIn(m: Message, database: string, collector: string): nat {
    if m.StatusMessage? then Matching(m.statuses, database, collector) else 0
  }

  function Matching(statuses: seq<Status>, database: string, collector: string): nat {
    if statuses == [] then 0
    else Matching(statuses[..|statuses| - 1], database, collector)
         + if statuses[|statuses| - 1].database == database && statuses[|statuses| - 1].collector == collector then 1 else 0
  }

  /** What the scraped metrics of a prefix yield, a message each. */
  function Yield(metrics: seq<MetricOutcome>): seq<Message> {
    if metrics == [] then []
    else
      var front, m := Yield(metrics[..|metrics| - 1]), metrics[|metrics| - 1];
      if m.Scraped? then front + [Items(m.items)] else front
  }

  /** The loop goes through `reached` metrics: up to and including the first failed connection, or all. */
  ghost predicate StopsAfter(metrics: seq<MetricOutcome>, reached: nat) {
    && reached <= |metrics|
    && (forall i | 0 <= i < reached - 1 :: metrics[i] != Failed(true))
    && (reached < |metrics| ==> reached > 0 && metrics[reached - 1] == Failed(true))
  }

  /** The sends a pass has capacity for, per database. */
  function Quota(c: Channel, metrics: nat): nat {
    match c
    case Errors => metrics + 2
    case Samples => metrics
    case Performance => 1
    case Operational => 1
    case Statuses => 12
  }

  ghost predicate WithinQuota(sends: seq<Send>, metrics: nat) {
    forall c: Channel :: Count(sends, c) <= Quota(c, metrics)
  }

  predicate Usable(o: Outcome) {
    o.startupReady && o.active && o.pingSucceeds
  }

  /**
   The metric loop of `scrapeDatabaseSamples`: one error message per metric reached, saying whether it failed, one
   sample message per success, nothing after a failed connection.
   */
  method ScrapeMetrics(metrics: seq<MetricOutcome>) returns (sent: seq<Send>, failed: bool, ghost reached: nat)
    ensures StopsAfter(metrics, reached)
    ensures On(sent, Samples) == Yield(metrics[..reached]) && Count(sent, Samples) <= reached
    ensures SaysWhichFailed(On(sent, Errors), metrics, reached) && Count(sent, Errors) == reached
    ensures failed <==> exists i :: 0 <= i < reached && metrics[i].Failed?
    ensures forall c | c in {Performance, Operational, Statuses} :: On(sent, c) == []
  {
    sent, failed := [], false;
    var i := 0;
    while i < |metrics|
      invariant 0 <= i <= |metrics|
      invariant On(sent, Samples) == Yield(metrics[..i]) && Count(sent, Samples) <= i
      invariant SaysWhichFailed(On(sent, Errors), metrics, i) && Count(sent, Errors) == i
      invariant failed <==> exists j :: 0 <= j < i && metrics[j].Failed?
      invariant forall c | c in {Performance, Operational, Statuses} :: On(sent, c) == []
      invariant forall j | 0 <= j < i :: metrics[j] != Failed(true)
    {
      var metric := metrics[i];
      assert metrics[..i + 1][..i] == metrics[..i];
      sent := SendMetric(sent, metric);
      i := i + 1;
      if metric.Failed? {
        failed := true;
        if metric.connectionFailed {
          break;
        }
      }
    }
    reached := i;
  }

  /** What the loop body sends for one metric. */
  method SendMetric(before: seq<Send>, metric: MetricOutcome) returns (sent: seq<Send>)
    ensures On(sent, Errors) == On(before, Errors) + [ErrorMessage(metric.Failed?)]
    ensures On(sent, Samples) == On(before, Samples) + if metric.Scraped? then [Items(metric.items)] else []
    ensures forall c | c in {Performance, Operational, Statuses} :: On(sent, c) == On(before, c)
  {
    var error := Send(Errors, ErrorMessage(metric.Failed?));
    OneMore(before, error);
    sent := before + [error];
    if metric.Scraped? {
      OneMore(sent, Send(Samples, Items(metric.items)));
      sent := sent + [Send(Samples, Items(metric.items))];
    }
  }

  /** The first error messages, one for each metric reached. */
  predicate SaysWhichFailed(errors: seq<Message>, metrics: seq<MetricOutcome>, reached: nat) {
    && reached <= |errors| && reached <= |metrics|
    && forall i | 0 <= i < reached :: errors[i] == ErrorMessage(metrics[i].Failed?)
  }

  lemma OneMore(sent: seq<Send>, s: Send)
    ensures forall c: Channel :: On(sent + [s], c) == if s.channel == c then On(sent, c) + [s.message] else On(sent, c)
  {
    assert (sent + [s])[..|sent|] == sent;
  }

  // ---- The statuses of one worker ----

  /** Every status sent is about database d. */
  ghost predicate OnlyAbout(messages: seq<Message>, d: string) {
    forall m | m in messages :: m.StatusMessage? && forall status | status in m.statuses :: status.database == d
  }

  lemma {:induction false} NoneMatching(statuses: seq<Status>, d: string, collector: string)
    requires forall status | status in statuses :: status.database != d || status.collector != collector
    ensures Matching(statuses, d, collector) == 0
  {
    if statuses != [] {
      var front := statuses[..|statuses| - 1];
      assert statuses == front + [statuses[|statuses| - 1]];
      NoneMatching(front, d, collector);
    }
  }

  lemma OneStatus(status: Status, d: string, collector: string)
    ensures Matching([status], d, collector) == if status.database == d && status.collector == collector then 1 else 0
  {
    assert [status][..0] == [];
  }

  /** `sendFailureStatuses`. */
  function FailureStatuses(d: string): seq<Status> {
    [Status(d, "connectivity", false), Status(d, "scheduled", false)]
  }

  /** The statuses `ScrapeOperationalSamples` returns: one per collector and one for all. */
  function OperationalStatuses(d: string, fails: seq<bool>): seq<Status> {
    seq(|OPERATIONAL_COLLECTORS|, i requires 0 <= i < |OPERATIONAL_COLLECTORS| =>
      Status(d, "operational." + OPERATIONAL_COLLECTORS[i], i >= |fails| || !fails[i]))
    + [Status(d, "operational", true !in fails)]
  }

  /** All the statuses that messages carry, in order. */
  function Told(messages: seq<Message>): seq<Status> {
    if messages == [] then []
    else
      var front, m := Told(messages[..|messages| - 1]), messages[|messages| - 1];
      if m.StatusMessage? then front + m.statuses else front
  }

  lemma {:induction false} ToldAreInMessages(messages: seq<Message>, status: Status)
    ensures status in Told(messages) <==> exists m | m in messages :: m.StatusMessage? && status in m.statuses
  {
    if messages != [] {
      var front, last := messages[..|messages| - 1], messages[|messages| - 1];
      assert messages == front + [last];
      ToldAreInMessages(front, status);
      assert last in messages;
      if m :| m in front && m.StatusMessage? && status in m.statuses {
        assert m in messages;
      }
    }
  }

  lemma {:induction false} MatchingConcatenation(a: seq<Status>, b: seq<Status>, d: string, collector: string)
    ensures Matching(a + b, d, collector) == Matching(a, d, collector) + Matching(b, d, collector)
  {
    if b == [] {
      assert a + b == a;
    } else {
      assert (a + b)[..|a + b| - 1] == a + b[..|b| - 1];
      MatchingConcatenation(a, b[..|b| - 1], d, collector);
    }
  }

  lemma {:induction false} ReportedIsMatching(messages: seq<Message>, d: string, collector: string)
    ensures Reported(messages, d, collector) == Matching(Told(messages), d, collector)
  {
    if messages != [] {
      var front, m := messages[..|messages| - 1], messages[|messages| - 1];
      ReportedIsMatching(front, d, collector);
      if m.StatusMessage? {
        MatchingConcatenation(Told(front), m.statuses, d, collector);
      }
    }
  }

  /** What a worker has sent so far; of the statuses, how many messages and all they tell. */
  datatype Sent = Sent(
    errors: seq<Message>,
    samples: seq<Message>,
    performance: seq<Message>,
    operational: seq<Message>,
    statuses: nat,
    told: seq<Status>)

  ghost predicate Amounts(sent: seq<Send>, t: Sent) {
    && On(sent, Errors) == t.errors
    && On(sent, Samples) == t.samples
    && On(sent, Performance) == t.performance
    && On(sent, Operational) == t.operational
    && Count(sent, Statuses) == t.statuses
    && Told(On(sent, Statuses)) == t.told
    && forall m | m in On(sent, Statuses) :: m.StatusMessage?
  }

  method SendOne(sent: seq<Send>, c: Channel, message: Message, ghost t: Sent) returns (sent': seq<Send>)
    requires Amounts(sent, t) && c != Statuses && c != Samples
    ensures Amounts(sent',
      match c
      case Errors => t.(errors := t.errors + [message])
      case Performance => t.(performance := t.performance + [message])
      case _ => t.(operational := t.operational + [message]))
  {
    sent' := sent + [Send(c, message)];
    OneMore(sent, Send(c, message));
  }

  method SendStatuses(sent: seq<Send>, statuses: seq<Status>, ghost t: Sent) returns (sent': seq<Send>)
    requires Amounts(sent, t)
    ensures Amounts(sent', t.(statuses := t.statuses + 1, told := t.told + statuses))
  {
    sent' := sent + [Send(Statuses, StatusMessage(statuses))];
    OneMore(sent, Send(Statuses, StatusMessage(statuses)));
    ghost var messages := On(sent, Statuses);
    assert (messages + [StatusMessage(statuses)])[..|messages|] == messages;
  }

  lemma AppendAmounts(sent: seq<Send>, more: seq<Send>, t: Sent)
    requires Amounts(sent, t)
    requires forall c | c in {Performance, Operational, Statuses} :: On(more, c) == []
    ensures Amounts(sent + more, t.(errors := t.errors + On(more, Errors), samples := t.samples + On(more, Samples)))
  {
    forall c: Channel
      ensures On(sent + more, c) == On(sent, c) + On(more, c)
    {
      OnConcatenation(sent, more, c);
    }
    assert On(sent, Performance) + [] == On(sent, Performance) && On(sent, Operational) + [] == On(sent, Operational);
    assert On(sent, Statuses) + [] == On(sent, Statuses);
  }

  lemma {:induction false} OnConcatenation(a: seq<Send>, b: seq<Send>, c: Channel)
    ensures On(a + b, c) == On(a, c) + On(b, c)
  {
    if b == [] {
      assert a + b == a;
    } else {
      assert (a + b)[..|a + b| - 1] == a + b[..|b| - 1];
      OnConcatenation(a, b[..|b| - 1], c);
    }
  }

  // ---- What a worker owes ----

  /** A metric failed before, or by, the loss of the connection. */
  ghost predicate SomeReachedMetricFails(metrics: seq<MetricOutcome>) {
    exists i :: 0 <= i < |metrics| && metrics[i].Failed? && forall j | 0 <= j < i :: metrics[j] != Failed(true)
  }

  predicate PerformanceRuns(o: Outcome) {
    Usable(o) && o.activeAfterMetrics
  }

  predicate OperationalRuns(o: Outcome) {
    PerformanceRuns(o) && o.activeAfterPerformance && o.operationalDue
  }

  /** A status is about its worker's database and reports as its collector fared. */
  ghost predicate Truthful(status: Status, d: string, o: Outcome) {
    && status.database == d
    && (status.collector == "connectivity" ==> (status.success <==> o.startupReady && o.active && o.pingSucceeds))
    && (status.collector == "additional_metrics" ==> (status.success <==> !SomeReachedMetricFails(o.metrics)))
    && (status.collector == "performance" ==> (status.success <==> !o.performanceFails))
    && (status.collector == "operational" ==> (status.success <==> true !in o.operationalFails))
    && (status.collector == "scheduled" ==>
          (status.success <==>
             && o.startupReady && o.active && o.pingSucceeds
             && !SomeReachedMetricFails(o.metrics)
             && (PerformanceRuns(o) ==> !o.performanceFails)
             && (OperationalRuns(o) ==> true !in o.operationalFails)))
  }

  function OneIf(b: bool): nat {
    if b then 1 else 0
  }

  /** Each collector that ran is reported, once. */
  ghost predicate EachIsReported(told: seq<Status>, d: string, o: Outcome) {
    && Matching(told, d, "connectivity") == 1 == Matching(told, d, "scheduled")
    && Matching(told, d, "additional_metrics") == OneIf(Usable(o) && |o.metrics| > 0)
    && Matching(told, d, "performance") == OneIf(PerformanceRuns(o))
    && Matching(told, d, "operational") == OneIf(OperationalRuns(o))
  }

  /** Each collector that ran is reported, once, and as it fared; so is each operational collector. */
  ghost predicate ReportsTruthfully(told: seq<Status>, d: string, o: Outcome) {
    && (forall status | status in told :: Truthful(status, d, o))
    && EachIsReported(told, d, o)
    && (OperationalRuns(o) ==> forall i | 0 <= i < |OPERATIONAL_COLLECTORS| ::
          Status(d, "operational." + OPERATIONAL_COLLECTORS[i], i >= |o.operationalFails| || !o.operationalFails[i]) in told)
  }

  /** One error message for each collection reached; a database still starting up sends one that is no failure. */
  ghost predicate ErrorsTellFailures(errors: seq<Message>, o: Outcome, reached: nat) {
    if !Usable(o) then errors == [ErrorMessage(o.startupReady)]
    else
      && |errors| == reached + OneIf(PerformanceRuns(o)) + OneIf(OperationalRuns(o))
      && SaysWhichFailed(errors, o.metrics, reached)
      && (PerformanceRuns(o) ==> errors[reached] == ErrorMessage(o.performanceFails))
      && (OperationalRuns(o) ==> errors[reached + 1] == ErrorMessage(true in o.operationalFails))
  }

  /** What a worker owes: each channel within its quota, all it collected, and how everything fared. */
  ghost predicate Delivers(sent: seq<Send>, d: string, o: Outcome, reached: nat) {
    && WithinQuota(sent, |o.metrics|)
    && StopsAfter(o.metrics, reached)
    && (forall m | m in On(sent, Statuses) :: m.StatusMessage?)
    && ReportsTruthfully(Told(On(sent, Statuses)), d, o)
    && ErrorsTellFailures(On(sent, Errors), o, reached)
    && On(sent, Samples) == (if Usable(o) then Yield(o.metrics[..reached]) else [])
    && On(sent, Performance) ==
       (if PerformanceRuns(o) && |o.performanceItems| > 0 then [Items(o.performanceItems)] else [])
    && On(sent, Operational) ==
       (if OperationalRuns(o) && |o.operationalItems| > 0 then [Items(o.operationalItems)] else [])
  }

  lemma AmountsDeliver(sent: seq<Send>, d: string, t: Sent, o: Outcome, reached: nat)
    requires Amounts(sent, t) && StopsAfter(o.metrics, reached)
    requires |t.samples| <= |o.metrics| && t.statuses <= 12
    requires ReportsTruthfully(t.told, d, o) && ErrorsTellFailures(t.errors, o, reached)
    requires t.samples == (if Usable(o) then Yield(o.metrics[..reached]) else [])
    requires t.performance == (if PerformanceRuns(o) && |o.performanceItems| > 0 then [Items(o.performanceItems)] else [])
    requires t.operational == (if OperationalRuns(o) && |o.operationalItems| > 0 then [Items(o.operationalItems)] else [])
    ensures Delivers(sent, d, o, reached)
  {
    forall c: Channel
      ensures Count(sent, c) <= Quota(c, |o.metrics|)
    {
    }
  }

  /** `scrapeDatabaseSamples`: everything one worker sends, on every path. */
  method ScrapeDatabaseSamples(d: string, o: Outcome) returns (sent: seq<Send>)
    ensures exists reached :: Delivers(sent, d, o, reached)
  {
    sent := [];
    ghost var t := Sent([], [], [], [], 0, []);
    ghost var reached;
    if !o.startupReady || !o.active || !o.pingSucceeds {
      sent := SendStatuses(sent, FailureStatuses(d), t);
      t := t.(statuses := 1, told := FailureStatuses(d));
      sent := SendOne(sent, Errors, ErrorMessage(o.startupReady), t);
      reached := SomeReach(o.metrics);
      FailureIsTruthful(d, o);
      AmountsDeliver(sent, d, t.(errors := [ErrorMessage(o.startupReady)]), o, reached);
      return;
    }
    sent := SendStatuses(sent, [Status(d, "connectivity", true)], t);
    t := t.(statuses := 1, told := [Status(d, "connectivity", true)]);

    var metricSends, additionalFailed;
    metricSends, additionalFailed, reached := ScrapeMetrics(o.metrics);
    ReachedFailures(o.metrics, reached);
    AppendAmounts(sent, metricSends, t);
    sent := sent + metricSends;
    t := t.(errors := On(metricSends, Errors), samples := Yield(o.metrics[..reached]));
    if |o.metrics| > 0 {
      sent := SendStatuses(sent, [Status(d, "additional_metrics", !additionalFailed)], t);
      t := t.(statuses := 2, told := t.told + [Status(d, "additional_metrics", !additionalFailed)]);
    }
    sent := ScrapeRest(d, o, sent, additionalFailed, t, reached);
  }

  lemma ReachedFailures(metrics: seq<MetricOutcome>, reached: nat)
    requires StopsAfter(metrics, reached)
    ensures SomeReachedMetricFails(metrics) <==> exists i :: 0 <= i < reached && metrics[i].Failed?
  {
    if i :| 0 <= i < reached && metrics[i].Failed? {
      assert forall j | 0 <= j < i :: metrics[j] != Failed(true);
    }
  }

  ghost function SomeReach(metrics: seq<MetricOutcome>): (reached: nat)
    ensures StopsAfter(metrics, reached)
  {
    if metrics == [] then 0 else if metrics[0] == Failed(true) then 1 else 1 + SomeReach(metrics[1..])
  }

  /** The tail of `scrapeDatabaseSamples`, from the first activity check on. */
  method ScrapeRest(d: string, o: Outcome, before: seq<Send>, additionalFailed: bool, ghost t0: Sent, ghost reached: nat)
    returns (sent: seq<Send>)
    requires Usable(o) && StopsAfter(o.metrics, reached) && (additionalFailed <==> SomeReachedMetricFails(o.metrics))
    requires Amounts(before, t0) && t0.performance == [] == t0.operational && t0.statuses <= 2
    requires t0.samples == Yield(o.metrics[..reached]) && |t0.samples| <= |o.metrics|
    requires |t0.errors| == reached && SaysWhichFailed(t0.errors, o.metrics, reached)
    requires t0.told == OpeningStatuses(d, o, additionalFailed)
    ensures Delivers(sent, d, o, reached)
  {
    sent := before;
    ghost var t := t0;
    if o.activeAfterMetrics {
      sent, t := SendPerformance(d, o, sent, t);
      if o.activeAfterPerformance && o.operationalDue {
        sent, t := SendOperational(d, o, sent, t);
      }
    }
    var success := !additionalFailed && !(o.activeAfterMetrics && o.performanceFails)
                   && !(o.activeAfterMetrics && o.activeAfterPerformance && o.operationalDue && true in o.operationalFails);
    sent := SendStatuses(sent, [Status(d, "scheduled", success)], t);
    t := t.(statuses := t.statuses + 1, told := t.told + [Status(d, "scheduled", success)]);
    AllIsTruthful(d, o, additionalFailed, success);
    AmountsDeliver(sent, d, t, o, reached);
  }

  method SendPerformance(d: string, o: Outcome, before: seq<Send>, ghost t0: Sent) returns (sent: seq<Send>, ghost t: Sent)
    requires Amounts(before, t0) && t0.performance == []
    ensures Amounts(sent, t)
    ensures t == t0.(performance := if |o.performanceItems| > 0 then [Items(o.performanceItems)] else [],
                     errors := t0.errors + [ErrorMessage(o.performanceFails)],
                     statuses := t0.statuses + 1, told := t0.told + [Status(d, "performance", !o.performanceFails)])
  {
    sent, t := before, t0;
    sent := SendOne(sent, Errors, ErrorMessage(o.performanceFails), t);
    t := t.(errors := t.errors + [ErrorMessage(o.performanceFails)]);
    if |o.performanceItems| > 0 {
      sent := SendOne(sent, Performance, Items(o.performanceItems), t);
      t := t.(performance := [Items(o.performanceItems)]);
    }
    sent := SendStatuses(sent, [Status(d, "performance", !o.performanceFails)], t);
    t := t.(statuses := t.statuses + 1, told := t.told + [Status(d, "performance", !o.performanceFails)]);
  }

  method SendOperational(d: string, o: Outcome, before: seq<Send>, ghost t0: Sent) returns (sent: seq<Send>, ghost t: Sent)
    requires Amounts(before, t0) && t0.operational == []
    ensures Amounts(sent, t)
    ensures t == t0.(operational := if |o.operationalItems| > 0 then [Items(o.operationalItems)] else [],
                     errors := t0.errors + [ErrorMessage(true in o.operationalFails)],
                     statuses := t0.statuses + 1, told := t0.told + OperationalStatuses(d, o.operationalFails))
  {
    sent, t := before, t0;
    if |o.operationalItems| > 0 {
      sent := SendOne(sent, Operational, Items(o.operationalItems), t);
      t := t.(operational := [Items(o.operationalItems)]);
    }
    sent := SendStatuses(sent, OperationalStatuses(d, o.operationalFails), t);
    t := t.(statuses := t.statuses + 1, told := t.told + OperationalStatuses(d, o.operationalFails));
    sent := SendOne(sent, Errors, ErrorMessage(true in o.operationalFails), t);
    t := t.(errors := t.errors + [ErrorMessage(true in o.operationalFails)]);
  }

  // ---- The statuses of one worker are truthful ----

  ghost function OpeningStatuses(d: string, o: Outcome, additionalFailed: bool): seq<Status> {
    [Status(d, "connectivity", true)]
    + if |o.metrics| > 0 then [Status(d, "additional_metrics", !additionalFailed)] else []
  }

  ghost function AllStatuses(d: string, o: Outcome, additionalFailed: bool, success: bool): seq<Status> {
    var opening := OpeningStatuses(d, o, additionalFailed);
    var upToPerformance :=
      if PerformanceRuns(o) then opening + [Status(d, "performance", !o.performanceFails)] else opening;
    var upToOperational :=
      if OperationalRuns(o) then upToPerformance + OperationalStatuses(d, o.operationalFails) else upToPerformance;
    upToOperational + [Status(d, "scheduled", success)]
  }

  /** The operational statuses are about operational collectors, and `operational` itself is reported last. */
  lemma OperationalStatusesMatch(d: string, fails: seq<bool>, collector: string)
    requires collector in {"connectivity", "scheduled", "additional_metrics", "performance", "operational"}
    ensures Matching(OperationalStatuses(d, fails), d, collector) == OneIf(collector == "operational")
    ensures forall status | status in OperationalStatuses(d, fails) ::
              status.database == d && status.collector != "connectivity" && status.collector != "scheduled"
              && status.collector != "additional_metrics" && status.collector != "performance"
              && (status.collector == "operational" ==> status.success == (true !in fails))
  {
    var all := OperationalStatuses(d, fails);
    var each, last := all[..|OPERATIONAL_COLLECTORS|], Status(d, "operational", true !in fails);
    assert all == each + [last];
    forall status | status in each
      ensures status.database == d && status.collector[0] == 'o' && |status.collector| > |"operational"|
    {
      assert |"operational."| == 12;
    }
    NoneMatching(each, d, collector);
    OneStatus(last, d, collector);
    MatchingConcatenation(each, [last], d, collector);
  }

  /** How often each collector is reported. */
  lemma AllStatusesMatch(d: string, o: Outcome, additionalFailed: bool, success: bool, collector: string)
    requires Usable(o)
    requires collector in {"connectivity", "scheduled", "additional_metrics", "performance", "operational"}
    ensures Matching(AllStatuses(d, o, additionalFailed, success), d, collector) ==
            OneIf(collector == "connectivity") + OneIf(collector == "scheduled")
            + OneIf(collector == "additional_metrics" && |o.metrics| > 0)
            + OneIf(collector == "performance" && PerformanceRuns(o))
            + OneIf(collector == "operational" && OperationalRuns(o))
  {
    var first, additional := Status(d, "connectivity", true), Status(d, "additional_metrics", !additionalFailed);
    var performance, last := Status(d, "performance", !o.performanceFails), Status(d, "scheduled", success);
    var operational := OperationalStatuses(d, o.operationalFails);
    var a := OpeningStatuses(d, o, additionalFailed);
    var b := if PerformanceRuns(o) then a + [performance] else a;
    var c := if OperationalRuns(o) then b + operational else b;
    OneStatus(first, d, collector);
    OneStatus(additional, d, collector);
    OneStatus(performance, d, collector);
    OneStatus(last, d, collector);
    OperationalStatusesMatch(d, o.operationalFails, collector);
    MatchingConcatenation([first], if |o.metrics| > 0 then [additional] else [], d, collector);
    MatchingConcatenation(a, [performance], d, collector);
    MatchingConcatenation(b, operational, d, collector);
    MatchingConcatenation(c, [last], d, collector);
  }

  lemma AllAreReported(d: string, o: Outcome, additionalFailed: bool, success: bool)
    requires Usable(o)
    ensures EachIsReported(AllStatuses(d, o, additionalFailed, success), d, o)
  {
    AllStatusesMatch(d, o, additionalFailed, success, "connectivity");
    AllStatusesMatch(d, o, additionalFailed, success, "scheduled");
    AllStatusesMatch(d, o, additionalFailed, success, "additional_metrics");
    AllStatusesMatch(d, o, additionalFailed, success, "performance");
    AllStatusesMatch(d, o, additionalFailed, success, "operational");
  }

  lemma OperationalIsTruthful(d: string, o: Outcome)
    ensures forall status | status in OperationalStatuses(d, o.operationalFails) :: Truthful(status, d, o)
  {
    OperationalStatusesMatch(d, o.operationalFails, "operational");
  }

  lemma OperationalIsReported(d: string, o: Outcome, i: nat)
    requires i < |OPERATIONAL_COLLECTORS|
    ensures Status(d, "operational." + OPERATIONAL_COLLECTORS[i], i >= |o.operationalFails| || !o.operationalFails[i])
            in OperationalStatuses(d, o.operationalFails)
  {
    assert OperationalStatuses(d, o.operationalFails)[i] in OperationalStatuses(d, o.operationalFails);
  }

  lemma OpeningIsTruthful(d: string, o: Outcome, additionalFailed: bool)
    requires Usable(o) && (additionalFailed <==> SomeReachedMetricFails(o.metrics))
    ensures forall status | status in OpeningStatuses(d, o, additionalFailed) :: Truthful(status, d, o)
  {
  }

  lemma PerformanceIsTruthful(d: string, o: Outcome)
    ensures Truthful(Status(d, "performance", !o.performanceFails), d, o)
  {
  }

  lemma ScheduledIsTruthful(d: string, o: Outcome, success: bool)
    requires success <==>
      && Usable(o) && !SomeReachedMetricFails(o.metrics) && (PerformanceRuns(o) ==> !o.performanceFails)
      && (OperationalRuns(o) ==> true !in o.operationalFails)
    ensures Truthful(Status(d, "scheduled", success), d, o)
  {
  }

  lemma AllIsTruthful(d: string, o: Outcome, additionalFailed: bool, success: bool)
    requires Usable(o) && (additionalFailed <==> SomeReachedMetricFails(o.metrics))
    requires success <==>
      && !additionalFailed && (PerformanceRuns(o) ==> !o.performanceFails)
      && (OperationalRuns(o) ==> true !in o.operationalFails)
    ensures ReportsTruthfully(AllStatuses(d, o, additionalFailed, success), d, o)
  {
    AllAreReported(d, o, additionalFailed, success);
    OpeningIsTruthful(d, o, additionalFailed);
    PerformanceIsTruthful(d, o);
    OperationalIsTruthful(d, o);
    ScheduledIsTruthful(d, o, success);
    forall i | 0 <= i < |OPERATIONAL_COLLECTORS|
      ensures Status(d, "operational." + OPERATIONAL_COLLECTORS[i], i >= |o.operationalFails| || !o.operationalFails[i])
              in OperationalStatuses(d, o.operationalFails)
    {
      OperationalIsReported(d, o, i);
    }
  }

  lemma FailureMatches(d: string, collector: string)
    ensures Matching(FailureStatuses(d), d, collector) == OneIf(collector == "connectivity") + OneIf(collector == "scheduled")
  {
    var a, b := Status(d, "connectivity", false), Status(d, "scheduled", false);
    assert FailureStatuses(d) == [a] + [b];
    MatchingConcatenation([a], [b], d, collector);
    OneStatus(a, d, collector);
    OneStatus(b, d, collector);
  }

  lemma FailureIsReported(d: string, o: Outcome)
    requires !Usable(o)
    ensures EachIsReported(FailureStatuses(d), d, o)
  {
    FailureMatches(d, "connectivity");
    FailureMatches(d, "scheduled");
    FailureMatches(d, "additional_metrics");
    FailureMatches(d, "performance");
    FailureMatches(d, "operational");
  }

  lemma FailureIsTruthful(d: string, o: Outcome)
    requires !Usable(o)
    ensures ReportsTruthfully(FailureStatuses(d), d, o)
  {
    FailureIsReported(d, o);
    ScheduledIsTruthful(d, o, false);
    assert Truthful(Status(d, "connectivity", false), d, o);
  }

  // ---- Every interleaving of workers, closer and scraper ----

  const ORDER: seq<Channel> := [Errors, Samples, Performance, Operational, Statuses]

  /**
   A pass in progress: what each worker still has to send, what each channel holds, whether the closer
   has run, which channel is being drained (5 once all are), and what has been received.
   */
  datatype Pass = Pass(
    todo: seq<seq<Send>>,
    held: map<Channel, seq<Message>>,
    closed: bool,
    draining: nat,
    received: map<Channel, seq<Message>>)

  datatype Step = SendNext(worker: nat) | CloseAll | Receive | NextChannel

  function Get(m: map<Channel, seq<Message>>, c: Channel): seq<Message> {
    if c in m then m[c] else []
  }

  /** The channels are made for the configured databases and metrics. */
  function Capacity(c: Channel, metrics: nat, databases: nat): nat {
    Quota(c, metrics) * databases
  }

  predicate Enabled(p: Pass, step: Step, metrics: nat) {
    match step
    case SendNext(i) =>
      i < |p.todo| && p.todo[i] != [] && !p.closed
      && |Get(p.held, p.todo[i][0].channel)| < Capacity(p.todo[i][0].channel, metrics, |p.todo|)
    case CloseAll => !p.closed && forall i | 0 <= i < |p.todo| :: p.todo[i] == []
    case Receive => p.draining < |ORDER| && Get(p.held, ORDER[p.draining]) != []
    case NextChannel => p.draining < |ORDER| && p.closed && Get(p.held, ORDER[p.draining]) == []
  }

  /** A send waits just while its channel is full, and the channels are as long as this for n databases. */
  lemma SendsWaitIffFull(p: Pass, i: nat, metrics: nat)
    requires i < |p.todo| && p.todo[i] != [] && !p.closed
    ensures var c, n := p.todo[i][0].channel, |p.todo|;
      Enabled(p, SendNext(i), metrics) <==>
      |Get(p.held, c)| <
      match c
      case Errors => n * (metrics + 2)
      case Samples => n * metrics
      case Performance => n
      case Operational => n
      case Statuses => n * 12
  {
  }

  function AfterSend(p: Pass, i: nat): Pass
    requires i < |p.todo| && p.todo[i] != []
  {
    var next := p.todo[i][0];
    p.(todo := p.todo[i := p.todo[i][1..]],
       held := p.held[next.channel := Get(p.held, next.channel) + [next.message]])
  }

  function AfterReceive(p: Pass, c: Channel): Pass
    requires Get(p.held, c) != []
  {
    p.(held := p.held[c := Get(p.held, c)[1..]],
       received := p.received[c := Get(p.received, c) + [Get(p.held, c)[0]]])
  }

  /** One atomic step; a step that is not enabled changes nothing. */
  function Apply(p: Pass, step: Step, metrics: nat): Pass {
    if !Enabled(p, step, metrics) then p
    else
      match step
      case SendNext(i) => AfterSend(p, i)
      case CloseAll => p.(closed := true)
      case Receive => AfterReceive(p, ORDER[p.draining])
      case NextChannel => p.(draining := p.draining + 1)
  }

  function Start(workers: seq<seq<Send>>): Pass {
    Pass(workers, map[], false, 0, map[])
  }

  function Run(workers: seq<seq<Send>>, steps: seq<Step>, metrics: nat): Pass {
    if steps == [] then Start(workers)
    else Apply(Run(workers, steps[..|steps| - 1], metrics), steps[|steps| - 1], metrics)
  }

  /** What a message counts for: any way of counting is conserved. */
  type Weight = Message -> nat

  function Weigh(messages: seq<Message>, w: Weight): nat {
    if messages == [] then 0 else Weigh(messages[..|messages| - 1], w) + w(messages[|messages| - 1])
  }

  /** All that the workers have yet to send on a channel. */
  function Owed(todo: seq<seq<Send>>, c: Channel, w: Weight): nat {
    if todo == [] then 0 else Owed(todo[..|todo| - 1], c, w) + Weigh(On(todo[|todo| - 1], c), w)
  }

  /** Held, received and owed messages of a channel always weigh what the workers set out with. */
  ghost predicate Conserved(p: Pass, workers: seq<seq<Send>>, c: Channel, w: Weight) {
    && Weigh(Get(p.held, c), w) + Weigh(Get(p.received, c), w) + Owed(p.todo, c, w) == Owed(workers, c, w)
    && |p.todo| == |workers|
  }

  /** A closed pass owes nothing, and a channel already drained is empty for good. */
  ghost predicate Orderly(p: Pass) {
    && p.draining <= |ORDER|
    && (p.closed ==> forall i | 0 <= i < |p.todo| :: p.todo[i] == [])
    && (p.draining > 0 ==> p.closed)
    && forall k | 0 <= k < p.draining :: Get(p.held, ORDER[k]) == []
  }

  lemma {:induction false} OnHead(sends: seq<Send>, c: Channel)
    requires sends != []
    ensures On(sends, c) == (if sends[0].channel == c then [sends[0].message] else []) + On(sends[1..], c)
  {
    assert sends == [sends[0]] + sends[1..];
    OnConcatenation([sends[0]], sends[1..], c);
    assert [sends[0]][..0] == [];
  }

  lemma {:induction false} WeighConcatenation(a: seq<Message>, b: seq<Message>, w: Weight)
    ensures Weigh(a + b, w) == Weigh(a, w) + Weigh(b, w)
  {
    if b == [] {
      assert a + b == a;
    } else {
      assert (a + b)[..|a + b| - 1] == a + b[..|b| - 1];
      WeighConcatenation(a, b[..|b| - 1], w);
    }
  }

  lemma WeighOne(m: Message, w: Weight)
    ensures Weigh([m], w) == w(m)
  {
    assert [m][..0] == [];
  }

  lemma {:induction false} OwedUpdate(todo: seq<seq<Send>>, i: nat, sends: seq<Send>, c: Channel, w: Weight)
    requires i < |todo|
    ensures Owed(todo[i := sends], c, w) + Weigh(On(todo[i], c), w) == Owed(todo, c, w) + Weigh(On(sends, c), w)
  {
    var n := |todo| - 1;
    var after, front := todo[i := sends], todo[..n];
    if i == n {
      assert after[..n] == front;
    } else {
      assert after[..n] == front[i := sends];
      OwedUpdate(front, i, sends, c, w);
    }
  }

  function WeightOn(s: Send, c: Channel, w: Weight): nat {
    if s.channel == c then w(s.message) else 0
  }

  lemma OwedAfterSend(todo: seq<seq<Send>>, i: nat, c: Channel, w: Weight)
    requires i < |todo| && todo[i] != []
    ensures Owed(todo, c, w) == Owed(todo[i := todo[i][1..]], c, w) + WeightOn(todo[i][0], c, w)
  {
    var head, rest := todo[i][0], todo[i][1..];
    OwedUpdate(todo, i, rest, c, w);
    OnHead(todo[i], c);
    WeighConcatenation(if head.channel == c then [head.message] else [], On(rest, c), w);
    WeighOne(head.message, w);
  }

  lemma HeldAfterSend(held: map<Channel, seq<Message>>, s: Send, c: Channel, w: Weight)
    ensures Weigh(Get(held[s.channel := Get(held, s.channel) + [s.message]], c), w) ==
            Weigh(Get(held, c), w) + WeightOn(s, c, w)
  {
    WeighConcatenation(Get(held, s.channel), [s.message], w);
    WeighOne(s.message, w);
  }

  lemma SendConserves(p: Pass, i: nat, workers: seq<seq<Send>>, c: Channel, w: Weight)
    requires Conserved(p, workers, c, w) && i < |p.todo| && p.todo[i] != []
    ensures Conserved(AfterSend(p, i), workers, c, w)
  {
    OwedAfterSend(p.todo, i, c, w);
    HeldAfterSend(p.held, p.todo[i][0], c, w);
  }

  lemma ReceiveConserves(p: Pass, d: Channel, workers: seq<seq<Send>>, c: Channel, w: Weight)
    requires Conserved(p, workers, c, w) && Get(p.held, d) != []
    ensures Conserved(AfterReceive(p, d), workers, c, w)
  {
    var held, received := Get(p.held, d), Get(p.received, d);
    assert held == [held[0]] + held[1..];
    WeighConcatenation([held[0]], held[1..], w);
    WeighConcatenation(received, [held[0]], w);
    WeighOne(held[0], w);
  }

  lemma StepConserves(p: Pass, step: Step, workers: seq<seq<Send>>, metrics: nat, c: Channel, w: Weight)
    requires Conserved(p, workers, c, w)
    ensures Conserved(Apply(p, step, metrics), workers, c, w)
  {
    if Enabled(p, step, metrics) {
      match step
      case SendNext(i) => SendConserves(p, i, workers, c, w);
      case Receive => ReceiveConserves(p, ORDER[p.draining], workers, c, w);
      case _ =>
    }
  }

  lemma StepKeepsOrderly(p: Pass, step: Step, metrics: nat)
    requires Orderly(p)
    ensures Orderly(Apply(p, step, metrics))
  {
  }

  lemma {:induction false} RunIsOrderly(workers: seq<seq<Send>>, steps: seq<Step>, metrics: nat)
    ensures Orderly(Run(workers, steps, metrics))
  {
    if steps != [] {
      RunIsOrderly(workers, steps[..|steps| - 1], metrics);
      StepKeepsOrderly(Run(workers, steps[..|steps| - 1], metrics), steps[|steps| - 1], metrics);
    }
  }

  lemma {:induction false} RunConserves(workers: seq<seq<Send>>, steps: seq<Step>, metrics: nat, c: Channel, w: Weight)
    ensures Conserved(Run(workers, steps, metrics), workers, c, w)
  {
    if steps == [] {
      assert Get(Start(workers).held, c) == [] == Get(Start(workers).received, c);
    } else {
      RunConserves(workers, steps[..|steps| - 1], metrics, c, w);
      StepConserves(Run(workers, steps[..|steps| - 1], metrics), steps[|steps| - 1], workers, metrics, c, w);
    }
  }

  ghost predicate AllWithinQuota(workers: seq<seq<Send>>, metrics: nat) {
    forall i | 0 <= i < |workers| :: WithinQuota(workers[i], metrics)
  }

  /** Each message counts once. */
  const ONE: Weight := (m: Message) => 1

  lemma {:induction false} WeighsItsLength(messages: seq<Message>)
    ensures Weigh(messages, ONE) == |messages|
  {
    if messages != [] {
      WeighsItsLength(messages[..|messages| - 1]);
    }
  }

  lemma OneMoreTimes(quota: nat, n: nat)
    ensures quota * (n + 1) == quota * n + quota
  {
  }

  lemma {:induction false} OwedAtMost(workers: seq<seq<Send>>, quota: nat, c: Channel)
    requires forall i | 0 <= i < |workers| :: Count(workers[i], c) <= quota
    ensures Owed(workers, c, ONE) <= quota * |workers|
  {
    if workers != [] {
      var front := workers[..|workers| - 1];
      OwedAtMost(front, quota, c);
      WeighsItsLength(On(workers[|workers| - 1], c));
      OneMoreTimes(quota, |front|);
    }
  }

  lemma OwedFits(workers: seq<seq<Send>>, metrics: nat, c: Channel)
    requires AllWithinQuota(workers, metrics)
    ensures Owed(workers, c, ONE) <= Capacity(c, metrics, |workers|)
  {
    forall i | 0 <= i < |workers|
      ensures Count(workers[i], c) <= Quota(c, metrics)
    {
      assert WithinQuota(workers[i], metrics);
    }
    OwedAtMost(workers, Quota(c, metrics), c);
  }

  /** No send ever finds its channel full, in any reachable state of any number of workers. */
  lemma SendsNeverBlock(workers: seq<seq<Send>>, steps: seq<Step>, metrics: nat, i: nat)
    requires AllWithinQuota(workers, metrics)
    requires var p := Run(workers, steps, metrics); i < |p.todo| && p.todo[i] != []
    ensures Enabled(Run(workers, steps, metrics), SendNext(i), metrics)
  {
    var p := Run(workers, steps, metrics);
    var c := p.todo[i][0].channel;
    RunConserves(workers, steps, metrics, c, ONE);
    RunIsOrderly(workers, steps, metrics);
    OwedFits(workers, metrics, c);
    OwedAfterSend(p.todo, i, c, ONE);
    WeighsItsLength(Get(p.held, c));
  }

  /** No deadlock: until every channel is drained, some step can be taken. */
  lemma PassNeverStalls(workers: seq<seq<Send>>, steps: seq<Step>, metrics: nat)
    requires AllWithinQuota(workers, metrics)
    requires Run(workers, steps, metrics).draining < |ORDER|
    ensures exists step :: Enabled(Run(workers, steps, metrics), step, metrics)
  {
    var p := Run(workers, steps, metrics);
    if i :| 0 <= i < |p.todo| && p.todo[i] != [] {
      SendsNeverBlock(workers, steps, metrics, i);
    } else if !p.closed {
      assert Enabled(p, CloseAll, metrics);
    } else if Get(p.held, ORDER[p.draining]) != [] {
      assert Enabled(p, Receive, metrics);
    } else {
      assert Enabled(p, NextChannel, metrics);
    }
  }

  /** What is left to do: two for each unsent message, one for each held one, closing and five drains. */
  function Work(p: Pass): int {
    2 * Unsent(p.todo) + HeldCount(p) + (if p.closed then 0 else 1) + |ORDER| - p.draining
  }

  function HeldCount(p: Pass): nat {
    |Get(p.held, Errors)| + |Get(p.held, Samples)| + |Get(p.held, Performance)|
    + |Get(p.held, Operational)| + |Get(p.held, Statuses)|
  }

  function Unsent(todo: seq<seq<Send>>): nat {
    if todo == [] then 0 else Unsent(todo[..|todo| - 1]) + |todo[|todo| - 1]|
  }

  lemma {:induction false} UnsentAfterSend(todo: seq<seq<Send>>, i: nat)
    requires i < |todo| && todo[i] != []
    ensures Unsent(todo) == Unsent(todo[i := todo[i][1..]]) + 1
  {
    var after, front := todo[i := todo[i][1..]], todo[..|todo| - 1];
    if i == |todo| - 1 {
      assert after[..|todo| - 1] == front;
    } else {
      assert after[..|todo| - 1] == front[i := front[i][1..]];
      UnsentAfterSend(front, i);
    }
  }

  /** Every step that is taken leaves less to do, so a pass takes a bounded number of them and ends. */
  lemma EveryStepProgresses(p: Pass, step: Step, metrics: nat)
    requires Orderly(p) && Enabled(p, step, metrics)
    ensures 0 <= Work(Apply(p, step, metrics)) < Work(p)
  {
    if step.SendNext? {
      UnsentAfterSend(p.todo, step.worker);
    }
    StepKeepsOrderly(p, step, metrics);
  }

  lemma {:induction false} NothingOwed(todo: seq<seq<Send>>, c: Channel, w: Weight)
    requires forall i | 0 <= i < |todo| :: todo[i] == []
    ensures Owed(todo, c, w) == 0
  {
    if todo != [] {
      NothingOwed(todo[..|todo| - 1], c, w);
    }
  }

  /** However messages are counted, a pass that has ended has received what the workers owed. */
  lemma ReceivedIsOwed(workers: seq<seq<Send>>, steps: seq<Step>, metrics: nat, c: Channel, w: Weight)
    requires Run(workers, steps, metrics).draining == |ORDER|
    ensures Weigh(Get(Run(workers, steps, metrics).received, c), w) == Owed(workers, c, w)
  {
    var p := Run(workers, steps, metrics);
    RunConserves(workers, steps, metrics, c, w);
    RunIsOrderly(workers, steps, metrics);
    NothingOwed(p.todo, c, w);
    assert exists k :: 0 <= k < |ORDER| && ORDER[k] == c by {
      assert ORDER[0] == Errors && ORDER[1] == Samples && ORDER[2] == Performance;
      assert ORDER[3] == Operational && ORDER[4] == Statuses;
    }
    assert Weigh([], w) == 0;
  }

  /** The workers' messages on a channel, one worker after another. */
  function InTurn(workers: seq<seq<Send>>, c: Channel): seq<Message> {
    if workers == [] then [] else InTurn(workers[..|workers| - 1], c) + On(workers[|workers| - 1], c)
  }

  lemma {:induction false} InTurnIsOwed(workers: seq<seq<Send>>, c: Channel, w: Weight)
    ensures Weigh(InTurn(workers, c), w) == Owed(workers, c, w)
  {
    if workers != [] {
      InTurnIsOwed(workers[..|workers| - 1], c, w);
      WeighConcatenation(InTurn(workers[..|workers| - 1], c), On(workers[|workers| - 1], c), w);
    }
  }

  function Is(x: Message): Weight {
    m => if m == x then 1 else 0
  }

  lemma {:induction false} WeighsItsCopies(messages: seq<Message>, x: Message)
    ensures Weigh(messages, Is(x)) == multiset(messages)[x]
  {
    if messages != [] {
      var front, last := messages[..|messages| - 1], messages[|messages| - 1];
      assert messages == front + [last];
      WeighsItsCopies(front, x);
    }
  }

  /** Nothing is lost or invented: when the pass ends, each channel has delivered what the workers sent on it. */
  lemma PassDeliversEverything(workers: seq<seq<Send>>, steps: seq<Step>, metrics: nat, c: Channel)
    requires Run(workers, steps, metrics).draining == |ORDER|
    ensures multiset(Get(Run(workers, steps, metrics).received, c)) == multiset(InTurn(workers, c))
  {
    var received := Get(Run(workers, steps, metrics).received, c);
    forall x
      ensures multiset(received)[x] == multiset(InTurn(workers, c))[x]
    {
      ReceivedIsOwed(workers, steps, metrics, c, Is(x));
      InTurnIsOwed(workers, c, Is(x));
      WeighsItsCopies(received, x);
      WeighsItsCopies(InTurn(workers, c), x);
    }
  }

  /** Received, held and unsent messages of a channel, one after another, are what a lone worker set out with. */
  ghost predicate InOrder(p: Pass, sends: seq<Send>, c: Channel) {
    |p.todo| == 1 && Get(p.received, c) + Get(p.held, c) + On(p.todo[0], c) == On(sends, c)
  }

  lemma PassedOn(a: seq<Message>, front: seq<Message>, x: Message, rest: seq<Message>, b: seq<Message>)
    ensures a + (front + [x]) + rest == a + front + ([x] + rest)
    ensures (a + [x]) + rest + b == a + ([x] + rest) + b
  {
  }

  lemma SendKeepsOrder(p: Pass, sends: seq<Send>, c: Channel)
    requires InOrder(p, sends, c) && p.todo[0] != []
    ensures InOrder(AfterSend(p, 0), sends, c)
  {
    var next := p.todo[0][0];
    OnHead(p.todo[0], c);
    assert AfterSend(p, 0).todo[0] == p.todo[0][1..];
    if next.channel == c {
      PassedOn(Get(p.received, c), Get(p.held, c), next.message, On(p.todo[0][1..], c), []);
    } else {
      assert [] + On(p.todo[0][1..], c) == On(p.todo[0][1..], c);
    }
  }

  lemma ReceiveKeepsOrder(p: Pass, from: Channel, sends: seq<Send>, c: Channel)
    requires InOrder(p, sends, c) && Get(p.held, from) != []
    ensures InOrder(AfterReceive(p, from), sends, c)
  {
    var held := Get(p.held, from);
    assert [held[0]] + held[1..] == held;
    PassedOn(Get(p.received, c), [], held[0], held[1..], On(p.todo[0], c));
  }

  lemma StepKeepsOrder(p: Pass, step: Step, metrics: nat, sends: seq<Send>, c: Channel)
    requires InOrder(p, sends, c)
    ensures InOrder(Apply(p, step, metrics), sends, c)
  {
    if Enabled(p, step, metrics) {
      match step
      case SendNext(i) => SendKeepsOrder(p, sends, c);
      case Receive => ReceiveKeepsOrder(p, ORDER[p.draining], sends, c);
      case _ =>
    }
  }

  /** Each channel delivers in order: a worker's messages arrive as it sent them. */
  lemma {:induction false} ChannelsKeepOrder(sends: seq<Send>, steps: seq<Step>, metrics: nat, c: Channel)
    ensures InOrder(Run([sends], steps, metrics), sends, c)
  {
    if steps == [] {
      assert Get(Start([sends]).received, c) == [] == Get(Start([sends]).held, c);
    } else {
      ChannelsKeepOrder(sends, steps[..|steps| - 1], metrics, c);
      StepKeepsOrder(Run([sends], steps[..|steps| - 1], metrics), steps[|steps| - 1], metrics, sends, c);
    }
  }

  // ---- One status of each kind per database ----

  function Reports(d: string, collector: string): Weight {
    m => ReportedIn(m, d, collector)
  }

  lemma {:induction false} WeighsItsReports(messages: seq<Message>, d: string, collector: string)
    ensures Weigh(messages, Reports(d, collector)) == Reported(messages, d, collector)
  {
    if messages != [] {
      WeighsItsReports(messages[..|messages| - 1], d, collector);
    }
  }

  lemma {:induction false} OthersReportNothing(messages: seq<Message>, about: string, d: string, collector: string)
    requires OnlyAbout(messages, about) && about != d
    ensures Reported(messages, d, collector) == 0
  {
    if messages != [] {
      var front, last := messages[..|messages| - 1], messages[|messages| - 1];
      assert messages == front + [last];
      assert last in messages;
      OthersReportNothing(front, about, d, collector);
      NoneMatching(last.statuses, d, collector);
    }
  }

  /** Worker i speaks only of database names[i], and reports `collector` for it once. */
  ghost predicate EachReportsOnce(workers: seq<seq<Send>>, names: seq<string>, collector: string) {
    && |names| == |workers|
    && (forall i, j | 0 <= i < j < |names| :: names[i] != names[j])
    && forall i | 0 <= i < |workers| ::
         OnlyAbout(On(workers[i], Statuses), names[i]) && Reported(On(workers[i], Statuses), names[i], collector) == 1
  }

  lemma {:induction false} OneReportIsOwed(workers: seq<seq<Send>>, names: seq<string>, collector: string, d: string)
    requires EachReportsOnce(workers, names, collector)
    ensures Owed(workers, Statuses, Reports(d, collector)) == if d in names then 1 else 0
  {
    if workers != [] {
      var n := |workers| - 1;
      assert names == names[..n] + [names[n]];
      OneReportIsOwed(workers[..n], names[..n], collector, d);
      WeighsItsReports(On(workers[n], Statuses), d, collector);
      if d != names[n] {
        OthersReportNothing(On(workers[n], Statuses), names[n], d, collector);
      }
    }
  }

  lemma OneReportIsReceived(
    workers: seq<seq<Send>>, names: seq<string>, steps: seq<Step>, metrics: nat, d: string, collector: string)
    requires EachReportsOnce(workers, names, collector) && d in names
    requires Run(workers, steps, metrics).draining == |ORDER|
    ensures Reported(Get(Run(workers, steps, metrics).received, Statuses), d, collector) == 1
  {
    ReceivedIsOwed(workers, steps, metrics, Statuses, Reports(d, collector));
    OneReportIsOwed(workers, names, collector, d);
    WeighsItsReports(Get(Run(workers, steps, metrics).received, Statuses), d, collector);
  }

  /** Worker i works for database names[i], and they are different databases. */
  ghost predicate EachDelivers(workers: seq<seq<Send>>, names: seq<string>, outcomes: seq<Outcome>) {
    && |outcomes| == |names| == |workers|
    && (forall i, j | 0 <= i < j < |names| :: names[i] != names[j])
    && forall i | 0 <= i < |workers| :: exists reached :: Delivers(workers[i], names[i], outcomes[i], reached)
  }

  lemma DeliveredIsTruthful(sends: seq<Send>, d: string, o: Outcome, reached: nat, m: Message)
    requires Delivers(sends, d, o, reached) && m in On(sends, Statuses)
    ensures m.StatusMessage? && forall status | status in m.statuses :: Truthful(status, d, o)
  {
    forall status | status in m.statuses
      ensures Truthful(status, d, o)
    {
      ToldAreInMessages(On(sends, Statuses), status);
    }
  }

  lemma WorkerReportsOnce(sends: seq<Send>, d: string, o: Outcome, reached: nat)
    requires Delivers(sends, d, o, reached)
    ensures OnlyAbout(On(sends, Statuses), d)
    ensures Reported(On(sends, Statuses), d, "connectivity") == 1 == Reported(On(sends, Statuses), d, "scheduled")
  {
    forall m | m in On(sends, Statuses)
      ensures m.StatusMessage? && forall status | status in m.statuses :: status.database == d
    {
      DeliveredIsTruthful(sends, d, o, reached, m);
    }
    ReportedIsMatching(On(sends, Statuses), d, "connectivity");
    ReportedIsMatching(On(sends, Statuses), d, "scheduled");
  }

  lemma EachReportsBothOnce(workers: seq<seq<Send>>, names: seq<string>, outcomes: seq<Outcome>)
    requires EachDelivers(workers, names, outcomes)
    ensures EachReportsOnce(workers, names, "connectivity") && EachReportsOnce(workers, names, "scheduled")
  {
    forall i | 0 <= i < |workers|
      ensures OnlyAbout(On(workers[i], Statuses), names[i])
      ensures Reported(On(workers[i], Statuses), names[i], "connectivity") == 1
      ensures Reported(On(workers[i], Statuses), names[i], "scheduled") == 1
    {
      var reached :| Delivers(workers[i], names[i], outcomes[i], reached);
      WorkerReportsOnce(workers[i], names[i], outcomes[i], reached);
    }
  }

  /**
   When a pass over distinctly named databases ends, the batch holds exactly one `connectivity` and one
   `scheduled` status of each of them, whatever path each worker took and however they interleaved.
   */
  lemma OneStatusPerDatabase(
    names: seq<string>, outcomes: seq<Outcome>, workers: seq<seq<Send>>, steps: seq<Step>, metrics: nat, d: string)
    requires EachDelivers(workers, names, outcomes)
    requires d in names && Run(workers, steps, metrics).draining == |ORDER|
    ensures var statuses := Get(Run(workers, steps, metrics).received, Statuses);
      Reported(statuses, d, "connectivity") == 1 == Reported(statuses, d, "scheduled")
  {
    EachReportsBothOnce(workers, names, outcomes);
    OneReportIsReceived(workers, names, steps, metrics, d, "connectivity");
    OneReportIsReceived(workers, names, steps, metrics, d, "scheduled");
  }

  lemma {:induction false} InTurnIsOfSomeWorker(workers: seq<seq<Send>>, c: Channel, m: Message)
    requires m in InTurn(workers, c)
    ensures exists i :: 0 <= i < |workers| && m in On(workers[i], c)
  {
    var n := |workers| - 1;
    if m in InTurn(workers[..n], c) {
      InTurnIsOfSomeWorker(workers[..n], c, m);
      var i :| 0 <= i < n && m in On(workers[..n][i], c);
      assert workers[i] == workers[..n][i];
    } else {
      assert m in On(workers[n], c);
    }
  }

  /** And every status in the batch says how the collector it names fared on the database it names. */
  lemma EveryStatusIsTruthful(
    names: seq<string>, outcomes: seq<Outcome>, workers: seq<seq<Send>>, steps: seq<Step>, metrics: nat, i: nat, m: Message)
    requires EachDelivers(workers, names, outcomes) && i < |names|
    requires Run(workers, steps, metrics).draining == |ORDER|
    requires m in Get(Run(workers, steps, metrics).received, Statuses)
    ensures m.StatusMessage?
    ensures forall status | status in m.statuses && status.database == names[i] :: Truthful(status, names[i], outcomes[i])
  {
    var j := WhoSent(workers, steps, metrics, Statuses, m);
    var reached :| Delivers(workers[j], names[j], outcomes[j], reached);
    DeliveredIsTruthful(workers[j], names[j], outcomes[j], reached, m);
    if j != i {
      assert names[j] != names[i];
      TruthfulIsOwn(m.statuses, names[j], outcomes[j]);
    }
  }

  lemma TruthfulIsOwn(statuses: seq<Status>, d: string, o: Outcome)
    requires forall status | status in statuses :: Truthful(status, d, o)
    ensures forall status | status in statuses :: status.database == d
  {
  }

  lemma WhoSent(workers: seq<seq<Send>>, steps: seq<Step>, metrics: nat, c: Channel, m: Message) returns (i: nat)
    requires Run(workers, steps, metrics).draining == |ORDER| && m in Get(Run(workers, steps, metrics).received, c)
    ensures i < |workers| && m in On(workers[i], c)
  {
    PassDeliversEverything(workers, steps, metrics, c);
    assert multiset(Get(Run(workers, steps, metrics).received, c))[m] > 0;
    assert multiset(InTurn(workers, c))[m] > 0;
    InTurnIsOfSomeWorker(workers, c, m);
    i :| 0 <= i < |workers| && m in On(workers[i], c);
  }
}
