/**
 The life cycle of database connections (collector/database.go:65-91, 246-347) and the dead connection
 detection pass that owns recovery (collector/dead_connection_detection.go:43-79).

 Collectors quarantine a database at any moment after its startup; a single detection loop probes
 quarantined databases one at a time.
 */
module ConnectionLifecycle {
  import opened Common

  datatype State = Starting | Active | Quarantined | Probing

  datatype Connection = Connection(
    state: State,
    queuedAt: Option<Time>,
    lastFailureAt: Option<Time>,
    lastFailure: string,
    lastProbeAt: Option<Time>,
    lastProbeDuration: Option<int>,
    lastProbeError: string,
    probeAttempts: nat,
    recoveredAt: Option<Time>)

  const NEW := Connection(Starting, None, None, "", None, None, "", 0, None)

  /** `quarantineLocked`. */
  function Quarantine(c: Connection, err: Option<string>, now: Time): Connection {
    c.(queuedAt := if c.queuedAt.None? || (c.state != Quarantined && c.state != Probing) then Some(now) else c.queuedAt,
       state := Quarantined,
       lastFailureAt := Some(now),
       lastFailure := if err.None? then "database connection is unavailable" else err.value)
  }

  /** `beginProbe` when it accepts. */
  function Probe(c: Connection, now: Time): Connection {
    c.(state := Probing, lastProbeAt := Some(now), lastProbeDuration := None, lastProbeError := "",
       probeAttempts := c.probeAttempts + 1)
  }

  /** `finishProbe`. */
  function Finish(c: Connection, started: Time, err: Option<string>, now: Time): Connection {
    var timed := c.(lastProbeDuration := Some(now - started));
    match err
    case Some(message) => Quarantine(timed.(lastProbeError := message), err, now)
    case None => timed.(state := Active, queuedAt := None, lastProbeError := "", recoveredAt := Some(now))
  }

  /** `activate`, at the end of a successful warmup. */
  function Activate(c: Connection): Connection {
    c.(state := Active, queuedAt := None, lastProbeError := "")
  }

  // ---- The system and its steps ----

  /**
   The databases' connections; which warmups have delivered their verdict, and which databases are
   startup-ready; the database the detection loop has accepted and not finished with; and how many
   probes it has accepted of each.
   */
  datatype System = System(
    connections: seq<Connection>,
    warmed: seq<bool>,
    ready: seq<bool>,
    handling: Option<nat>,
    accepted: seq<nat>)

  datatype Step =
    | WarmupSucceeds(d: nat)
    | WarmupFails(d: nat, err: Option<string>, now: Time)
    | BecomeReady(d: nat)
    | CollectorFails(d: nat, err: Option<string>, now: Time)
    | BeginProbe(d: nat, now: Time)
    | FinishProbe(started: Time, err: Option<string>, now: Time)

  function Start(n: nat): System {
    System(seq(n, i => NEW), seq(n, i => false), seq(n, i => false), None, seq(n, i => 0))
  }

  predicate Sized(s: System) {
    |s.warmed| == |s.ready| == |s.accepted| == |s.connections| && (s.handling.Some? ==> s.handling.value < |s.connections|)
  }

  /** One critical section; a step that is not enabled changes nothing. */
  function Apply(s: System, step: Step): System
    requires Sized(s)
    ensures Sized(Apply(s, step)) && |Apply(s, step).connections| == |s.connections|
  {
    match step
    case WarmupSucceeds(d) =>
      if d >= |s.connections| || s.warmed[d] then s
      else s.(connections := s.connections[d := Activate(s.connections[d])], warmed := s.warmed[d := true])
    case WarmupFails(d, err, now) =>
      if d >= |s.connections| || s.warmed[d] then s
      else s.(connections := s.connections[d := Quarantine(s.connections[d], err, now)], warmed := s.warmed[d := true])
    case BecomeReady(d) =>
      if d >= |s.connections| || !s.warmed[d] then s else s.(ready := s.ready[d := true])
    case CollectorFails(d, err, now) =>
      if d >= |s.connections| || !s.ready[d] then s
      else s.(connections := s.connections[d := Quarantine(s.connections[d], err, now)])
    case BeginProbe(d, now) =>
      if d >= |s.connections| || s.handling.Some? || s.connections[d].state != Quarantined then s
      else s.(connections := s.connections[d := Probe(s.connections[d], now)], handling := Some(d),
              accepted := s.accepted[d := s.accepted[d] + 1])
    case FinishProbe(started, err, now) =>
      if s.handling.None? then s
      else
        var d := s.handling.value;
        s.(connections := s.connections[d := Finish(s.connections[d], started, err, now)], handling := None)
  }

  function Run(s: System, steps: seq<Step>): (s': System)
    requires Sized(s)
    ensures Sized(s') && |s'.connections| == |s.connections|
  {
    if steps == [] then s else Apply(Run(s, steps[..|steps| - 1]), steps[|steps| - 1])
  }

  /** Waiting for recovery. */
  predicate Down(c: Connection) {
    c.state == Quarantined || c.state == Probing
  }

  predicate InvAt(s: System, d: nat)
    requires Sized(s) && d < |s.connections|
  {
    var c := s.connections[d];
    && (c.queuedAt.Some? <==> Down(c))
    && (c.state == Probing ==> s.handling == Some(d))
    && c.probeAttempts == s.accepted[d]
    && (c.state == Starting <==> !s.warmed[d])
    && (s.ready[d] ==> s.warmed[d])
    && (s.handling == Some(d) ==> s.warmed[d] && Down(c))
  }

  ghost predicate Inv(s: System) {
    Sized(s) && forall d | 0 <= d < |s.connections| :: InvAt(s, d)
  }

  lemma StepKeepsInv(s: System, step: Step)
    requires Inv(s)
    ensures Inv(Apply(s, step))
  {
    var s' := Apply(s, step);
    forall d | 0 <= d < |s'.connections|
      ensures InvAt(s', d)
    {
      assert InvAt(s, d);
    }
  }

  lemma {:induction false} RunKeepsInv(s: System, steps: seq<Step>)
    requires Inv(s)
    ensures Inv(Run(s, steps))
  {
    if steps != [] {
      RunKeepsInv(s, steps[..|steps| - 1]);
      StepKeepsInv(Run(s, steps[..|steps| - 1]), steps[|steps| - 1]);
    }
  }

  lemma StartInv(n: nat)
    ensures Inv(Start(n))
  {
  }

  /**
   The state machine, in every reachable state of any number of databases: a queue time is set exactly
   while quarantined or probing; only the database the detection loop is handling is probing; attempts
   are the probes accepted; and collectors are let in only after startup.
   */
  lemma ReachableStatesAreConsistent(n: nat, steps: seq<Step>, d: nat)
    requires d < n
    ensures var s := Run(Start(n), steps);
      var c := s.connections[d];
      && (c.queuedAt.Some? <==> c.state == Quarantined || c.state == Probing)
      && (c.state == Probing ==> s.handling == Some(d))
      && c.probeAttempts == s.accepted[d]
      && (s.ready[d] ==> c.state != Starting)
  {
    StartInv(n);
    RunKeepsInv(Start(n), steps);
    assert InvAt(Run(Start(n), steps), d);
  }

  /** At most one database is probing at a time. */
  lemma AtMostOneProbing(n: nat, steps: seq<Step>, d: nat, e: nat)
    requires d < n && e < n
    requires var s := Run(Start(n), steps); s.connections[d].state == Probing == s.connections[e].state
    ensures d == e
  {
    ReachableStatesAreConsistent(n, steps, d);
    ReachableStatesAreConsistent(n, steps, e);
  }

  /**
   One step of one database. While it is down its queue time does not move; it goes down at the failure
   that quarantines it, which it records; and it comes back up only by the finish of its own accepted probe,
   without error. Failures count only once its startup lets collectors in, and the warmup's only once.
   */
  lemma StepOfOneDatabase(s: System, step: Step, d: nat)
    requires Inv(s) && d < |s.connections|
    ensures var c, c' := s.connections[d], Apply(s, step).connections[d];
      && (Down(c) && Down(c') ==> c'.queuedAt == c.queuedAt)
      && (!Down(c) && Down(c') ==>
          (step.CollectorFails? || step.WarmupFails?) && step.d == d && c'.queuedAt == Some(step.now))
      && (Down(c) && !Down(c') ==>
          step.FinishProbe? && step.err == None && s.handling == Some(d) && c'.state == Active)
      && (c.state == Starting && c'.state == Active ==> step == WarmupSucceeds(d))
  {
    assert InvAt(s, d);
  }

  /** What a failure writes, whoever reports it: nothing about probes, and a queue time only if there was none. */
  lemma FailureQuarantines(s: System, step: Step, d: nat)
    requires Inv(s) && d < |s.connections|
    requires ((step.CollectorFails? && s.ready[d]) || (step.WarmupFails? && !s.warmed[d])) && step.d == d
    ensures var c, c' := s.connections[d], Apply(s, step).connections[d];
      && c'.state == Quarantined && c'.lastFailureAt == Some(step.now)
      && (step.err == None ==> c'.lastFailure == "database connection is unavailable")
      && (step.err.Some? ==> c'.lastFailure == step.err.value)
      && c'.queuedAt == (if c.state == Quarantined || c.state == Probing then c.queuedAt else Some(step.now))
      && c'.lastProbeAt == c.lastProbeAt && c'.lastProbeDuration == c.lastProbeDuration
      && c'.lastProbeError == c.lastProbeError && c'.recoveredAt == c.recoveredAt
  {
    assert InvAt(s, d);
  }

  /** The warmup's success leaves no trace of waiting. */
  lemma WarmupActivates(s: System, d: nat)
    requires Inv(s) && d < |s.connections| && !s.warmed[d]
    ensures var s' := Apply(s, WarmupSucceeds(d));
      s'.connections[d].state == Active && s'.connections[d].queuedAt.None? && s'.connections[d].lastProbeError == ""
      && s'.warmed[d]
  {
    assert InvAt(s, d);
  }

  /** Before startup lets collectors in, and after the warmup's one verdict, such a report changes nothing. */
  lemma OutOfTurnChangesNothing(s: System, step: Step)
    requires Inv(s) && (step.WarmupSucceeds? || step.WarmupFails? || step.CollectorFails?) && step.d < |s.connections|
    requires if step.CollectorFails? then !s.ready[step.d] else s.warmed[step.d]
    ensures Apply(s, step) == s
  {
  }

  ghost predicate DownThroughout(s: System, steps: seq<Step>, d: nat)
    requires Sized(s) && d < |s.connections|
  {
    forall i | 0 <= i <= |steps| :: Down(Run(s, steps[..i]).connections[d])
  }

  /** From the first failure until the database is active again, its queue time is fixed. */
  lemma {:induction false} QueueTimeIsFixedWhileDown(s: System, steps: seq<Step>, d: nat)
    requires Inv(s) && d < |s.connections| && DownThroughout(s, steps, d)
    ensures Run(s, steps).connections[d].queuedAt == s.connections[d].queuedAt
  {
    assert steps[..|steps|] == steps;
    if steps != [] {
      var front := steps[..|steps| - 1];
      forall i | 0 <= i <= |front|
        ensures Down(Run(s, front[..i]).connections[d])
      {
        assert front[..i] == steps[..i];
      }
      QueueTimeIsFixedWhileDown(s, front, d);
      RunKeepsInv(s, front);
      StepOfOneDatabase(Run(s, front), steps[|steps| - 1], d);
      assert front[..|front|] == front;
    }
  }

  // ---- The detection pass ----

  /** What happens around one database's turn: cancellation, collectors failing, and the reconnect. */
  datatype Turn = Turn(
    cancelled: bool,
    before: seq<Step>,
    startedAt: Time,
    during: seq<Step>,
    err: Option<string>,
    finishedAt: Time)

  datatype ProbeStatus = ProbeStatus(d: nat, success: bool)

  /** Steps other goroutines can take while the detection loop is at work. */
  ghost predicate OthersOnly(steps: seq<Step>) {
    forall step | step in steps :: !step.BeginProbe? && !step.FinishProbe?
  }

  class Fleet {
    var connections: seq<Connection>
    var ready: seq<bool>
    var warmed: seq<bool>
    ghost var handling: Option<nat>
    ghost var accepted: seq<nat>

    ghost function View(): System
      reads this
    {
      System(connections, warmed, ready, handling, accepted)
    }

    constructor (n: nat)
      ensures View() == Start(n)
    {
      connections, ready, warmed := seq(n, i => NEW), seq(n, i => false), seq(n, i => false);
      handling, accepted := None, seq(n, i => 0);
    }

    /** `beginProbe`. */
    method BeginProbe(d: nat, now: Time) returns (began: bool)
      requires Inv(View()) && d < |connections| && handling.None?
      modifies this
      ensures View() == Apply(old(View()), Step.BeginProbe(d, now))
      ensures began <==> old(connections)[d].state == Quarantined
      ensures handling == if began then Some(d) else None
      ensures began ==> connections[d].state == Probing && connections[d].lastProbeAt == Some(now)
      ensures began ==> connections[d].lastProbeDuration.None? && connections[d].lastProbeError == ""
      ensures !began ==> connections == old(connections)
    {
      if connections[d].state != Quarantined {
        return false;
      }
      connections := connections[d := Probe(connections[d], now)];
      handling, accepted := Some(d), accepted[d := accepted[d] + 1];
      began := true;
    }

    /** `finishProbe`: ACTIVE without an error, and otherwise QUARANTINED again under the old queue time. */
    method FinishProbe(d: nat, started: Time, err: Option<string>, now: Time)
      requires Inv(View()) && handling == Some(d) && d < |connections|
      modifies this
      ensures View() == Apply(old(View()), Step.FinishProbe(started, err, now))
      ensures handling.None? && |connections| == old(|connections|)
      ensures err.None? ==> connections[d].state == Active && connections[d].queuedAt.None?
      ensures err.Some? ==>
        && connections[d].state == Quarantined && connections[d].queuedAt == old(connections)[d].queuedAt
        && connections[d].lastProbeError == connections[d].lastFailure == err.value
      ensures forall e | 0 <= e < |connections| && e != d :: connections[e] == old(connections)[e]
    {
      assert InvAt(View(), d);
      connections := connections[d := Finish(connections[d], started, err, now)];
      handling := None;
    }

    /** Other goroutines' critical sections, run between two of the detection loop's own. */
    method Interfere(steps: seq<Step>)
      requires Inv(View()) && OthersOnly(steps)
      modifies this
      ensures View() == Run(old(View()), steps) && handling == old(handling) && Inv(View())
    {
      for i := 0 to |steps|
        invariant View() == Run(old(View()), steps[..i]) && handling == old(handling) && Inv(View())
      {
        assert steps[..i + 1][..i] == steps[..i];
        StepKeepsInv(View(), steps[i]);
        assert steps[i] in steps;
        match steps[i] {
          case WarmupSucceeds(d) =>
            if d < |connections| && !warmed[d] {
              connections, warmed := connections[d := Activate(connections[d])], warmed[d := true];
            }
          case WarmupFails(d, err, now) =>
            if d < |connections| && !warmed[d] {
              connections, warmed := connections[d := Quarantine(connections[d], err, now)], warmed[d := true];
            }
          case BecomeReady(d) =>
            if d < |connections| && warmed[d] {
              ready := ready[d := true];
            }
          case CollectorFails(d, err, now) =>
            if d < |connections| && ready[d] {
              connections := connections[d := Quarantine(connections[d], err, now)];
            }
          case BeginProbe(_, _) =>
            assert false;
          case FinishProbe(_, _, _) =>
            assert false;
        }
      }
      assert steps[..|steps|] == steps;
    }

    /** The loop body of the pass past its cancellation check; an accepted probe ends after others interfered. */
    method TakeTurn(d: nat, turn: Turn) returns (began: bool, ghost steps: seq<Step>)
      requires Inv(View()) && d < |connections| && handling.None? && OthersOnly(turn.during)
      modifies this
      ensures began <==> old(connections)[d].state == Quarantined
      ensures View() == Run(old(View()), steps) && Inv(View()) && handling.None?
      ensures Settles(old(View()), d, turn, View())
    {
      ghost var found := View();
      began := BeginProbe(d, turn.startedAt);
      steps := [Step.BeginProbe(d, turn.startedAt)];
      StepKeepsInv(found, steps[0]);
      RunOne(found, steps[0]);
      if began {
        Interfere(turn.during);
        RunConcatenation(found, steps, turn.during);
        ghost var before := View();
        FinishProbe(d, turn.startedAt, turn.err, turn.finishedAt);
        StepKeepsInv(before, Step.FinishProbe(turn.startedAt, turn.err, turn.finishedAt));
        RunOneMore(found, steps + turn.during, Step.FinishProbe(turn.startedAt, turn.err, turn.finishedAt));
        steps := steps + turn.during + [Step.FinishProbe(turn.startedAt, turn.err, turn.finishedAt)];
        ProbedTurnSettles(found, d, turn);
      }
    }

    /** A whole loop body: whether the pass stops here, and if not whether it probed. */
    method PassTurn(turns: seq<Turn>, i: nat, statuses: seq<ProbeStatus>,
                    ghost start: System, ghost pass: Pass, ghost steps: seq<Step>)
      returns (stops: bool, began: bool, statuses': seq<ProbeStatus>, ghost pass': Pass, ghost steps': seq<Step>)
      requires Inv(View()) && handling.None? && i < |turns| == |connections|
      requires OthersOnly(turns[i].before) && OthersOnly(turns[i].during)
      requires Sized(start) && |start.connections| == |turns|
      requires |pass.left| == i && PassStands(start, turns, pass, statuses, View()) && View() == Run(start, steps)
      modifies this
      ensures Inv(View()) && handling.None? && |connections| == old(|connections|)
      ensures stops <==> turns[i].cancelled
      ensures View() == Run(start, steps')
      ensures stops ==> View() == Run(old(View()), turns[i].before)
      ensures stops ==> !began && statuses' == statuses && pass' == pass
      ensures !stops ==> |pass'.left| == i + 1 && PassStands(start, turns, pass', statuses', View())
      ensures |statuses'| == |statuses| + if began then 1 else 0
      ensures Successes(statuses') == Successes(statuses) + if began && turns[i].err.None? then 1 else 0
    {
      var turn := turns[i];
      Interfere(turn.before);
      RunConcatenation(start, steps, turn.before);
      steps' := steps + turn.before;
      stops, began, statuses', pass' := turn.cancelled, false, statuses, pass;
      if !stops {
        ghost var found := View();
        ghost var taken;
        began, taken := TakeTurn(i, turn);
        RunConcatenation(start, steps', taken);
        steps' := steps' + taken;
        pass' := Pass(pass.found + [found], pass.left + [View()]);
        OneMoreTurn(start, turns, pass, pass');
        if began {
          statuses' := Report(statuses, i, turn.err);
          ReportOneMore(statuses, pass, pass', turn.err);
        } else {
          NoReport(statuses, pass, pass');
        }
      }
    }

    /** One pass of `runDeadConnectionDetection`, which goes up to the first turn that finds it cancelled. */
    method RunDeadConnectionDetection(turns: seq<Turn>)
      returns (attempted: nat, recovered: nat, errors: nat, statuses: seq<ProbeStatus>, ghost pass: Pass, ghost steps: seq<Step>)
      requires Inv(View()) && handling.None? && |turns| == |connections|
      requires forall t | t in turns :: OthersOnly(t.before) && OthersOnly(t.during)
      modifies this
      ensures TurnsTaken(old(View()), turns, pass)
      ensures |pass.left| < |turns| ==> turns[|pass.left|].cancelled
      ensures View() == (if |pass.left| == |turns| then Reached(old(View()), pass.left)
                         else Run(Reached(old(View()), pass.left), turns[|pass.left|].before))
      ensures View() == Run(old(View()), steps)
      ensures ReportsTurns(statuses, pass)
      ensures attempted == recovered + errors == |statuses| && recovered == Successes(statuses)
      ensures Inv(View()) && handling.None? && forall d | 0 <= d < |connections| :: connections[d].state != Probing
    {
      attempted, recovered, errors, statuses, pass, steps := 0, 0, 0, [], Pass([], []), [];
      ghost var start := View();
      for i := 0 to |turns|
        invariant Inv(View()) && handling.None? && |connections| == |turns|
        invariant |pass.left| == i && PassStands(start, turns, pass, statuses, View()) && View() == Run(start, steps)
        invariant attempted == recovered + errors == |statuses| && recovered == Successes(statuses)
      {
        assert turns[i] in turns;
        var stops, began;
        stops, began, statuses, pass, steps := PassTurn(turns, i, statuses, start, pass, steps);
        if stops {
          break;
        }
        if began {
          attempted := attempted + 1;
          if turns[i].err.Some? {
            errors := errors + 1;
          } else {
            recovered := recovered + 1;
          }
        }
      }
      NobodyIsProbing(View());
    }
  }

  // ---- What a pass comes to ----

  /**
   What the turn of database d, its probe asked for in `found`, leaves behind. A probe without error leaves it
   ACTIVE, any other QUARANTINED under its old queue time, with the probe's error; whatever else has changed, and all
   that has of a database not probed, is the work of others meanwhile.
   */
  ghost predicate Settles(found: System, d: nat, turn: Turn, left: System)
    requires Sized(found) && d < |found.connections|
  {
    var probed := found.connections[d].state == Quarantined;
    var others := Run(found, if probed then turn.during else []);
    && Sized(left) && |left.connections| == |found.connections|
    && left.warmed == others.warmed && left.ready == others.ready && left.handling == found.handling
    && (forall e | 0 <= e < |found.connections| && (e != d || !probed) :: left.connections[e] == others.connections[e])
    && (probed ==>
          var c, c', meanwhile := found.connections[d], left.connections[d], others.connections[d];
          && c'.lastProbeAt == Some(turn.startedAt) && c'.lastProbeDuration == Some(turn.finishedAt - turn.startedAt)
          && c'.probeAttempts == c.probeAttempts + 1
          && (turn.err.None? ==>
                && c'.state == Active && c'.queuedAt.None? && c'.lastProbeError == ""
                && c'.recoveredAt == Some(turn.finishedAt)
                && c'.lastFailure == meanwhile.lastFailure && c'.lastFailureAt == meanwhile.lastFailureAt)
          && (turn.err.Some? ==>
                && c'.state == Quarantined && c'.queuedAt == c.queuedAt && c'.recoveredAt == c.recoveredAt
                && c'.lastProbeError == c'.lastFailure == turn.err.value
                && c'.lastFailureAt == Some(turn.finishedAt)))
  }

  /** The systems in which each turn of a pass asked for its probe, and those it left behind. */
  datatype Pass = Pass(found: seq<System>, left: seq<System>)

  /** Where a pass stands after the turns that left these systems behind. */
  ghost function Reached(start: System, left: seq<System>): System {
    if left == [] then start else left[|left| - 1]
  }

  /** Turn i found what others had made of the system the turn before it left, and settled it. */
  ghost predicate TurnTaken(start: System, turn: Turn, pass: Pass, i: nat)
    requires i < |pass.found| == |pass.left|
  {
    var found := pass.found[i];
    && !turn.cancelled && Sized(start) && Sized(found) && |found.connections| == |start.connections| > i
    && Sized(Reached(start, pass.left[..i])) && found == Run(Reached(start, pass.left[..i]), turn.before)
    && Settles(found, i, turn, pass.left[i])
  }

  ghost predicate TurnsTaken(start: System, turns: seq<Turn>, pass: Pass) {
    && |pass.found| == |pass.left| <= |turns| && Sized(Reached(start, pass.left))
    && forall i | 0 <= i < |pass.left| :: TurnTaken(start, turns[i], pass, i)
  }

  /** One status for each database found quarantined, in order: a success just when its turn left it ACTIVE. */
  ghost predicate ReportsTurns(statuses: seq<ProbeStatus>, pass: Pass) {
    && (forall status | status in statuses ::
          && status.d < |pass.left| && FoundDown(pass, status.d) && (status.success <==> LeftActive(pass, status.d)))
    && (forall i | 0 <= i < |pass.left| && FoundDown(pass, i) :: ProbeStatus(i, LeftActive(pass, i)) in statuses)
    && forall i, j | 0 <= i < j < |statuses| :: statuses[i].d < statuses[j].d
  }

  predicate FoundDown(pass: Pass, i: nat) {
    && i < |pass.found| && i < |pass.found[i].connections|
    && pass.found[i].connections[i].state == Quarantined
  }

  predicate LeftActive(pass: Pass, i: nat) {
    && i < |pass.left| && i < |pass.left[i].connections|
    && pass.left[i].connections[i].state == Active
  }

  ghost predicate PassStands(start: System, turns: seq<Turn>, pass: Pass, statuses: seq<ProbeStatus>, now: System) {
    && Sized(start) && TurnsTaken(start, turns, pass) && ReportsTurns(statuses, pass)
    && now == Reached(start, pass.left)
  }

  ghost predicate Extends(pass: Pass, pass': Pass) {
    && |pass.found| == |pass.left| == |pass'.found| - 1 == |pass'.left| - 1
    && pass.found == pass'.found[..|pass.found|] && pass.left == pass'.left[..|pass.left|]
  }

  lemma OneMoreTurn(start: System, turns: seq<Turn>, pass: Pass, pass': Pass)
    requires Extends(pass, pass') && TurnsTaken(start, turns, pass) && |pass.left| < |turns|
    requires TurnTaken(start, turns[|pass.left|], pass', |pass.left|)
    ensures TurnsTaken(start, turns, pass')
  {
    forall i | 0 <= i < |pass'.left|
      ensures TurnTaken(start, turns[i], pass', i)
    {
      if i < |pass.left| {
        assert TurnTaken(start, turns[i], pass, i);
        assert pass'.left[..i] == pass.left[..i];
      }
    }
  }

  lemma SameAsBefore(pass: Pass, pass': Pass)
    requires Extends(pass, pass')
    ensures forall i | 0 <= i < |pass.left| ::
      FoundDown(pass', i) == FoundDown(pass, i) && LeftActive(pass', i) == LeftActive(pass, i)
  {
    forall i | 0 <= i < |pass.left|
      ensures FoundDown(pass', i) == FoundDown(pass, i) && LeftActive(pass', i) == LeftActive(pass, i)
    {
      assert pass.found[i] == pass'.found[i] && pass.left[i] == pass'.left[i];
    }
  }

  lemma NoReport(statuses: seq<ProbeStatus>, pass: Pass, pass': Pass)
    requires ReportsTurns(statuses, pass) && Extends(pass, pass') && !FoundDown(pass', |pass.left|)
    ensures ReportsTurns(statuses, pass')
  {
    SameAsBefore(pass, pass');
  }

  lemma ReportOneMore(statuses: seq<ProbeStatus>, pass: Pass, pass': Pass, err: Option<string>)
    requires ReportsTurns(statuses, pass) && Extends(pass, pass')
    requires FoundDown(pass', |pass.left|) && (LeftActive(pass', |pass.left|) <==> err.None?)
    ensures ReportsTurns(Report(statuses, |pass.left|, err), pass')
  {
    SameAsBefore(pass, pass');
    var n := |pass.left|;
    var statuses', status := Report(statuses, n, err), ProbeStatus(n, LeftActive(pass', n));
    assert statuses' == statuses + [status];
    assert forall other | other in statuses' :: other in statuses || other == status;
    forall i | 0 <= i < |pass'.left| && FoundDown(pass', i)
      ensures ProbeStatus(i, LeftActive(pass', i)) in statuses'
    {
      if i < n {
        assert ProbeStatus(i, LeftActive(pass, i)) in statuses;
      }
    }
    assert forall i | 0 <= i < |statuses| :: statuses[i] in statuses && statuses'[i] == statuses[i];
  }

  lemma NobodyIsProbing(s: System)
    requires Inv(s) && s.handling.None?
    ensures forall d | 0 <= d < |s.connections| :: s.connections[d].state != Probing
  {
    forall d | 0 <= d < |s.connections|
      ensures s.connections[d].state != Probing
    {
      assert InvAt(s, d);
    }
  }

  function Report(statuses: seq<ProbeStatus>, d: nat, err: Option<string>): (r: seq<ProbeStatus>)
    ensures |r| == |statuses| + 1
    ensures Successes(r) == Successes(statuses) + if err.None? then 1 else 0
  {
    var r := statuses + [ProbeStatus(d, err.None?)];
    assert r[..|statuses|] == statuses;
    r
  }

  lemma RunOneMore(s: System, steps: seq<Step>, step: Step)
    requires Sized(s)
    ensures Run(s, steps + [step]) == Apply(Run(s, steps), step)
  {
    assert (steps + [step])[..|steps|] == steps;
  }

  lemma RunOne(s: System, step: Step)
    requires Sized(s)
    ensures Run(s, [step]) == Apply(s, step)
  {
    assert [] + [step] == [step];
    RunOneMore(s, [], step);
  }

  lemma {:induction false} RunConcatenation(s: System, a: seq<Step>, b: seq<Step>)
    requires Sized(s)
    ensures Run(s, a + b) == Run(Run(s, a), b)
  {
    if b == [] {
      assert a + b == a;
    } else {
      assert (a + b)[..|a + b| - 1] == a + b[..|b| - 1];
      RunConcatenation(s, a, b[..|b| - 1]);
    }
  }

  /** Others leave alone the database being probed but for its failures, and it is down still. */
  lemma {:induction false} OthersKeep(s: System, steps: seq<Step>, d: nat)
    requires Inv(s) && s.handling == Some(d) && OthersOnly(steps)
    ensures var s' := Run(s, steps);
      && Inv(s') && s'.handling == Some(d) && s'.accepted == s.accepted
      && var c, c' := s.connections[d], s'.connections[d];
         && Down(c') && c'.queuedAt == c.queuedAt && c'.lastProbeAt == c.lastProbeAt
         && c'.probeAttempts == c.probeAttempts && c'.recoveredAt == c.recoveredAt
  {
    assert InvAt(s, d);
    if steps != [] {
      var front, last := steps[..|steps| - 1], steps[|steps| - 1];
      assert steps == front + [last] && last in steps;
      OthersKeep(s, front, d);
      StepKeepsInv(Run(s, front), last);
      StepOfOneDatabase(Run(s, front), last, d);
      assert InvAt(Run(s, front), d) && InvAt(Run(s, steps), d);
    }
  }

  /** The two agree but for the probe of d. */
  predicate AlikeBut(a: System, b: System, d: nat)
    requires Sized(a) && Sized(b)
  {
    && |a.connections| == |b.connections| && a.warmed == b.warmed && a.ready == b.ready
    && (forall e | 0 <= e < |a.connections| && e != d :: a.connections[e] == b.connections[e])
    && (d < |a.connections| ==> a.connections[d].lastFailure == b.connections[d].lastFailure
                                && a.connections[d].lastFailureAt == b.connections[d].lastFailureAt)
  }

  /** So others do the same to both. */
  lemma {:induction false} OthersActAlike(a: System, b: System, steps: seq<Step>, d: nat)
    requires Sized(a) && Sized(b) && AlikeBut(a, b, d) && OthersOnly(steps)
    ensures AlikeBut(Run(a, steps), Run(b, steps), d)
  {
    if steps != [] {
      var front, last := steps[..|steps| - 1], steps[|steps| - 1];
      assert steps == front + [last] && last in steps;
      OthersActAlike(a, b, front, d);
    }
  }

  lemma ProbedTurnSettles(found: System, d: nat, turn: Turn)
    requires Inv(found) && found.handling.None? && OthersOnly(turn.during)
    requires d < |found.connections| && found.connections[d].state == Quarantined
    ensures var probing := Apply(found, BeginProbe(d, turn.startedAt));
      Settles(found, d, turn, Apply(Run(probing, turn.during), FinishProbe(turn.startedAt, turn.err, turn.finishedAt)))
  {
    var begin := BeginProbe(d, turn.startedAt);
    var probing := Apply(found, begin);
    StepKeepsInv(found, begin);
    OthersKeep(probing, turn.during, d);
    OthersActAlike(found, probing, turn.during, d);
    assert InvAt(found, d) && InvAt(Run(probing, turn.during), d);
  }

  function Successes(statuses: seq<ProbeStatus>): nat {
    if statuses == [] then 0
    else Successes(statuses[..|statuses| - 1]) + if statuses[|statuses| - 1].success then 1 else 0
  }
}
