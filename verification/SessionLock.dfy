/**
 The read/write lock around a database session (collector/database.go:62-91, 148-186, 398-443, and the
 callers of QueryContext at collector/collector.go:553-563 and collector/performance.go:479-486, 558-565, 676-683
 and 748-755).

 Queries hold the read lock until their rows are closed; a reconnect swaps and closes the session under
 the write lock. The life cycle of `ConnectionLifecycle` decides when a reconnect may run at all.
 */
module SessionLock {
  import opened Common
  import CL = ConnectionLifecycle

  // ---- The callers of QueryContext ----

  class ReadWriteLock {
    var readers: nat

    method RLock()
      modifies this
      ensures readers == old(readers) + 1
    {
      readers := readers + 1;
    }

    method RUnlock()
      requires readers > 0
      modifies this
      ensures readers == old(readers) - 1
    {
      readers := readers - 1;
    }
  }

  /** `QueryContext`: with rows it returns still holding the read lock, otherwise it has released it. */
  method QueryContext(lock: ReadWriteLock, sessionExists: bool, succeeds: bool) returns (ok: bool)
    modifies lock
    ensures ok == (sessionExists && succeeds)
    ensures lock.readers == old(lock.readers) + if ok then 1 else 0
  {
    lock.RLock();
    if !sessionExists {
      lock.RUnlock();
      return false;
    }
    if !succeeds {
      lock.RUnlock();
      return false;
    }
    return true;
  }

  /**
   `scanRows`, `scrapeSQLSamples`, `scrapeSQLPlans`, `scrapeSessionSamples` and
   `scrapeBlockingSessionSamples`: the deadline is checked before the release is deferred. The read lock
   is given back exactly unless the query succeeded and its deadline had passed by the check.
   */
  method CheckDeadlineThenRelease(lock: ReadWriteLock, sessionExists: bool, succeeds: bool, deadlinePassed: bool)
    returns (ok: bool)
    modifies lock
    ensures lock.readers == old(lock.readers) <==> !(sessionExists && succeeds && deadlinePassed)
    ensures lock.readers <= old(lock.readers) + 1 && lock.readers >= old(lock.readers)
    ensures ok <==> sessionExists && succeeds && !deadlinePassed
  {
    ok := QueryContext(lock, sessionExists, succeeds);
    if deadlinePassed {
      return false;
    }
    if !ok {
      return false;
    }
    lock.RUnlock();
  }

  /** `scrapeSQLDetails`, `queryOperationalRows` and the activity queries: an error is all that skips the release. */
  method ReleaseUnlessError(lock: ReadWriteLock, sessionExists: bool, succeeds: bool) returns (ok: bool)
    modifies lock
    ensures lock.readers == old(lock.readers)
    ensures ok <==> sessionExists && succeeds
  {
    ok := QueryContext(lock, sessionExists, succeeds);
    if !ok {
      return false;
    }
    lock.RUnlock();
  }

  /** The session of a database: the current one, how many were ever created, and which are closed. */
  datatype Sessions = Sessions(current: Option<nat>, created: nat, closed: set<nat>)

  /** What a reconnect comes to: no session, a session closed again for failing its warmup, or a swap. */
  function Reconnected(s: Sessions, connects: bool, warms: bool): Sessions {
    if !connects then s
    else if !warms then s.(created := s.created + 1, closed := s.closed + {s.created})
    else Sessions(Some(s.created), s.created + 1,
                  if s.current.Some? then s.closed + {s.current.value} else s.closed)
  }

  class Database {
    var session: Option<nat>
    var created: nat
    var closed: set<nat>

    function View(): Sessions
      reads this
    {
      Sessions(session, created, closed)
    }

    /** Sessions are numbered as they are created. */
    ghost predicate Valid()
      reads this
    {
      session.Some? ==> session.value < created
    }

    constructor (connected: bool)
      ensures Valid() && View() == Sessions(if connected then Some(0) else None, 1, {})
    {
      session, created, closed := if connected then Some(0) else None, 1, {};
    }

    /** `reconnect`: the new session is built and warmed before the old one is replaced, then closed. */
    method Reconnect(connects: bool, warms: bool) returns (ok: bool)
      requires Valid()
      modifies this
      ensures Valid() && View() == Reconnected(old(View()), connects, warms)
      ensures ok <==> connects && warms
      ensures !connects ==> session == old(session) && created == old(created) && closed == old(closed)
      ensures connects ==> created == old(created) + 1
      ensures connects && !warms ==> session == old(session) && closed == old(closed) + {old(created)}
      ensures connects && warms ==> session == Some(old(created))
      ensures connects && warms ==>
        closed == old(closed) + if old(session).Some? then {old(session).value} else {}
    {
      if !connects {
        return false;
      }
      var built := created;
      created := created + 1;
      if !warms {
        closed := closed + {built};
        return false;
      }
      var oldSession := session;
      session := Some(built);
      if oldSession.Some? && oldSession.value != built {
        closed := closed + {oldSession.value};
      }
      ok := true;
    }
  }

  // ---- One database under every interleaving ----

  /** A query's progress: it has the lock, its rows are open, they are closed, or it is over. */
  datatype Phase = Locked | Open | RowsClosed | Abandoned | Done

  datatype Query = Query(session: nat, phase: Phase)

  /**
   One database: its life cycle (as database 0 of a system of one), its current session, how many
   sessions were ever created, which are closed, all queries ever started, the session a startup warmup
   works on without the lock, the session a reconnect is building, and the one the latest probe has swapped in.
   */
  datatype Db = Db(
    life: CL.System,
    session: Option<nat>,
    created: nat,
    closed: set<nat>,
    queries: seq<Query>,
    warming: Option<nat>,
    building: Option<nat>,
    swapped: Option<nat>)

  datatype Step =
    | StartQuery
    | QueryFails(q: nat)
    | QueryOpens(q: nat)
    | CloseRows(q: nat)
    | Unlock(q: nat)
    | Abandon(q: nat)
    | StartWarmup
    | Life(step: CL.Step)
    | BuildSession
    | BuildFails
    | SwapSession

  predicate HoldsLock(q: Query) {
    q.phase != Done
  }

  predicate RowsOpen(q: Query) {
    q.phase == Open || q.phase == Abandoned
  }

  /** No reader holds the lock, so a writer can enter. */
  ghost predicate Free(s: Db) {
    forall i | 0 <= i < |s.queries| :: !HoldsLock(s.queries[i])
  }

  predicate At(s: Db, q: nat, phase: Phase) {
    q < |s.queries| && s.queries[q].phase == phase
  }

  function Moved(s: Db, q: nat, phase: Phase): Db
    requires q < |s.queries|
  {
    s.(queries := s.queries[q := s.queries[q].(phase := phase)])
  }

  /**
   A step of the life cycle that the connection code takes under the write lock. A warmup succeeds on a session, and
   a probe finishes without error once its reconnect has swapped one in.
   */
  ghost predicate LifeEnabled(s: Db, step: CL.Step) {
    match step
    case BecomeReady(_) => true
    case WarmupSucceeds(_) => Free(s) && s.warming.Some?
    case WarmupFails(_, _, _) => Free(s)
    case CollectorFails(_, _, _) => Free(s)
    case BeginProbe(_, _) => Free(s)
    case FinishProbe(_, err, _) => Free(s) && s.building.None? && (err.None? ==> s.swapped.Some?)
  }

  /** One atomic step; a step that is not enabled changes nothing. */
  ghost function Apply(s: Db, step: Step): Db
    requires CL.Sized(s.life)
    ensures CL.Sized(Apply(s, step).life)
  {
    match step
    case StartQuery =>
      if s.session.None? then s else s.(queries := s.queries + [Query(s.session.value, Locked)])
    case QueryFails(q) => if At(s, q, Locked) then Moved(s, q, Done) else s
    case QueryOpens(q) => if At(s, q, Locked) then Moved(s, q, Open) else s
    case CloseRows(q) => if At(s, q, Open) then Moved(s, q, RowsClosed) else s
    case Unlock(q) => if At(s, q, RowsClosed) then Moved(s, q, Done) else s
    case Abandon(q) => if At(s, q, Open) then Moved(s, q, Abandoned) else s
    case StartWarmup => if WarmupOver(s) then s else s.(warming := s.session)
    case Life(life) =>
      if !LifeEnabled(s, life) then s
      else
        var after := CL.Apply(s.life, life);
        var begun := s.life.handling.None? && after.handling.Some?;
        var s' := s.(life := after, swapped := if begun then None else s.swapped);
        if WarmupOver(s') then s'.(warming := None) else s'
    case BuildSession =>
      if s.life.handling.None? || s.building.Some? then s
      else s.(building := Some(s.created), created := s.created + 1)
    case BuildFails =>
      if s.building.None? then s else s.(closed := s.closed + {s.building.value}, building := None)
    case SwapSession =>
      if s.building.None? || !Free(s) then s
      else s.(session := s.building, swapped := s.building, building := None,
              closed := if s.session.Some? then s.closed + {s.session.value} else s.closed)
  }

  /** The startup warmup has delivered its verdict. */
  predicate WarmupOver(s: Db) {
    |s.life.warmed| == 0 || s.life.warmed[0]
  }

  ghost function Run(s: Db, steps: seq<Step>): (s': Db)
    requires CL.Sized(s.life)
    ensures CL.Sized(s'.life)
  {
    if steps == [] then s else Apply(Run(s, steps[..|steps| - 1]), steps[|steps| - 1])
  }

  /** At start-up the session may be missing: its first connect can fail. */
  function Start(connected: bool): Db {
    Db(CL.Start(1), if connected then Some(0) else None, 1, {}, [], None, None, None)
  }

  ghost predicate Inv(s: Db) {
    Consistent(s) && ActiveHasSession(s)
  }

  ghost predicate Consistent(s: Db) {
    && CL.Inv(s.life) && |s.life.connections| == 1
    && (forall i | 0 <= i < |s.queries| && HoldsLock(s.queries[i]) :: s.session == Some(s.queries[i].session))
    && (s.session.Some? ==> s.session.value < s.created && s.session.value !in s.closed)
    && (s.warming.Some? ==> s.warming == s.session && !WarmupOver(s))
    && (s.building.Some? ==>
        && s.building.value < s.created && s.building.value !in s.closed && s.building != s.session
        && s.life.handling == Some(0))
    && (forall x | x in s.closed :: x < s.created)
  }

  /** Active means a session: after a recovery, the one its probe swapped in; before, the one it started with. */
  ghost predicate ActiveHasSession(s: Db)
    requires CL.Sized(s.life) && |s.life.connections| == 1
  {
    var c := s.life.connections[0];
    && (c.state == CL.Starting ==> c.recoveredAt.None? && s.life.accepted[0] == 0)
    && (s.life.accepted[0] == 0 ==> s.life.handling.None? && (s.session.Some? ==> s.session == Some(0)))
    && (c.state == CL.Active && s.life.accepted[0] > 0 ==> c.recoveredAt.Some?)
    && (s.swapped.Some? ==> s.session == s.swapped)
    && (c.state == CL.Active ==> s.session.Some?)
    && (c.state == CL.Active && c.recoveredAt.Some? ==> s.swapped.Some?)
  }

  lemma LifeKeepsConsistent(s: Db, step: CL.Step)
    requires Consistent(s)
    ensures Consistent(Apply(s, Life(step)))
  {
    CL.StepKeepsInv(s.life, step);
    assert CL.InvAt(s.life, 0);
  }

  lemma LifeKeepsSession(s: Db, step: CL.Step)
    requires Inv(s)
    ensures CL.Sized(Apply(s, Life(step)).life) && |Apply(s, Life(step)).life.connections| == 1
    ensures ActiveHasSession(Apply(s, Life(step)))
  {
    assert CL.InvAt(s.life, 0);
  }

  lemma StepKeepsConsistent(s: Db, step: Step)
    requires Consistent(s)
    ensures Consistent(Apply(s, step))
  {
    if step.Life? {
      LifeKeepsConsistent(s, step.step);
    } else if step.SwapSession? {
      assert CL.InvAt(s.life, 0);
    }
  }

  lemma StepKeepsInv(s: Db, step: Step)
    requires Inv(s)
    ensures Inv(Apply(s, step))
  {
    StepKeepsConsistent(s, step);
    if step.Life? {
      LifeKeepsSession(s, step.step);
    }
  }

  lemma {:induction false} RunKeepsInv(s: Db, steps: seq<Step>)
    requires Inv(s)
    ensures Inv(Run(s, steps))
  {
    if steps != [] {
      RunKeepsInv(s, steps[..|steps| - 1]);
      StepKeepsInv(Run(s, steps[..|steps| - 1]), steps[|steps| - 1]);
    }
  }

  /**
   In every reachable state no query whose rows are open, no warmup and no reconnect in progress has a
   closed session; and rows that are open belong to the current session.
   */
  lemma NoSessionClosesUnderItsUsers(connected: bool, steps: seq<Step>)
    ensures var s := Run(Start(connected), steps);
      && (forall q | q in s.queries && RowsOpen(q) :: q.session !in s.closed && s.session == Some(q.session))
      && (s.warming.Some? ==> s.warming.value !in s.closed)
      && (s.building.Some? ==> s.building.value !in s.closed)
  {
    CL.StartInv(1);
    RunKeepsInv(Start(connected), steps);
  }

  /**
   In every reachable state an ACTIVE database has a current, open session: the one it started with if it has never
   been recovered, and otherwise the one that its latest probe built and swapped in.
   */
  lemma ActiveDatabasesHaveOpenSessions(connected: bool, steps: seq<Step>)
    ensures var s := Run(Start(connected), steps);
      && |s.life.connections| == 1
      && (s.life.connections[0].state == CL.Active ==>
          && s.session.Some? && s.session.value !in s.closed
          && s.session == if s.life.connections[0].recoveredAt.Some? then s.swapped else Some(0))
  {
    CL.StartInv(1);
    RunKeepsInv(Start(connected), steps);
  }

  function SessionsOf(s: Db): Sessions {
    Sessions(s.session, s.created, s.closed)
  }

  /** A reconnect that connects is two steps of a database being probed, the swap only when no query holds the lock. */
  lemma ReconnectIsTwoSteps(s: Db, warms: bool)
    requires Inv(s) && s.life.handling.Some? && s.building.None? && Free(s)
    ensures SessionsOf(Apply(Apply(s, BuildSession), if warms then SwapSession else BuildFails)) ==
            Reconnected(SessionsOf(s), true, warms)
  {
    var building := Apply(s, BuildSession);
    assert Free(building);
  }

  /**
   Under every interleaving: the session a reconnect builds takes over by closing the one before it, unless it fails
   its warmup and is itself the one closed; no other step closes or replaces a session.
   */
  lemma SwapClosesTheOldSession(s: Db, step: Step)
    requires Inv(s)
    ensures var s' := Apply(s, step);
      && (s'.session != s.session ==>
            step.SwapSession? && Free(s) && s.building.Some? && s'.session == s.building
            && (s.session.Some? ==> s.session.value in s'.closed))
      && (s'.closed != s.closed ==>
            || (step.SwapSession? && s.session.Some? && s'.closed == s.closed + {s.session.value} && s'.session == s.building)
            || (step.BuildFails? && s.building.Some? && s'.closed == s.closed + {s.building.value} && s'.session == s.session))
      && (step.SwapSession? && s.building.Some? && Free(s) ==> s'.session == s.building)
      && (step.BuildFails? && s.building.Some? ==> s.building.value in s'.closed)
      && (s.building.Some? && s'.building != s.building ==> step.SwapSession? || step.BuildFails?)
  {
  }

  /** A session that is closed stays closed, and is never current again. */
  lemma {:induction false} ClosedStaysClosed(s: Db, steps: seq<Step>, x: nat)
    requires Inv(s) && x in s.closed
    ensures x in Run(s, steps).closed && Run(s, steps).session != Some(x)
  {
    RunKeepsInv(s, steps);
    if steps != [] {
      ClosedStaysClosed(s, steps[..|steps| - 1], x);
      StepReopensNothing(Run(s, steps[..|steps| - 1]), steps[|steps| - 1]);
    }
  }

  lemma StepReopensNothing(s: Db, step: Step)
    requires CL.Sized(s.life)
    ensures s.closed <= Apply(s, step).closed
  {
  }

  /** A query on the current session gets its rows under the read lock, and can return without giving the lock back. */
  lemma QueriesHoldTheLock(s: Db)
    requires CL.Sized(s.life) && s.session.Some?
    ensures var n, x := |s.queries|, s.session.value;
      var open := Apply(Apply(s, StartQuery), QueryOpens(n));
      && open == s.(queries := s.queries + [Query(x, Open)]) && !Free(open)
      && Apply(open, Abandon(n)) == s.(queries := s.queries + [Query(x, Abandoned)]) && !Free(Apply(open, Abandon(n)))
      && Apply(Apply(open, CloseRows(n)), Unlock(n)) == s.(queries := s.queries + [Query(x, Done)])
  {
    var n, x := |s.queries|, s.session.value;
    var open := Apply(Apply(s, StartQuery), QueryOpens(n));
    assert open.queries == s.queries + [Query(x, Open)];
    assert Apply(open, Abandon(n)).queries == s.queries + [Query(x, Abandoned)];
    assert HoldsLock(open.queries[n]) && HoldsLock(Apply(open, Abandon(n)).queries[n]);
    var closed := Apply(open, CloseRows(n));
    assert closed.queries == s.queries + [Query(x, RowsClosed)];
    assert Apply(closed, Unlock(n)).queries == s.queries + [Query(x, Done)];
  }

  /** A warmup cannot succeed without a session. */
  lemma NoSessionNoStartup()
    ensures var s := Apply(Apply(Start(false), StartWarmup), Life(CL.WarmupSucceeds(0)));
      s.session.None? && s.life == CL.Start(1)
  {
  }

  /** The startup of a database that got a session. */
  lemma StartupLetsCollectorsIn()
    ensures var warming := Apply(Start(true), StartWarmup);
      var s := Apply(Apply(warming, Life(CL.WarmupSucceeds(0))), Life(CL.BecomeReady(0)));
      && |s.life.connections| == 1 && s.life.connections[0].state == CL.Active && s.life.ready == [true]
      && s.session == Some(0) && s.closed == {} && s.queries == []
  {
    var s := Apply(Start(true), StartWarmup);
    assert s.warming == Some(0) && Free(s);
    s := Apply(s, Life(CL.WarmupSucceeds(0)));
    assert s.life.warmed == [true];
  }

  predicate Ready(s: Db)
    requires CL.Sized(s.life) && |s.life.connections| == 1
  {
    s.life.ready[0] && s.life.handling.None? && s.building.None?
  }

  lemma FailedDatabaseIsProbed(s: Db, err: Option<string>, failedAt: Time, startedAt: Time)
    requires Inv(s) && Free(s) && Ready(s)
    ensures var failed := Apply(s, Life(CL.CollectorFails(0, err, failedAt)));
      var probing := Apply(failed, Life(CL.BeginProbe(0, startedAt)));
      && |failed.life.connections| == 1 && failed.life.connections[0].state == CL.Quarantined
      && |probing.life.connections| == 1 && probing.life.handling == Some(0) && probing.queries == s.queries
      && probing.building.None? && probing.swapped.None? && SessionsOf(probing) == SessionsOf(s)
  {
    var failed := Apply(s, Life(CL.CollectorFails(0, err, failedAt)));
    assert Free(failed) && failed.building.None?;
  }

  lemma ProbedDatabaseRecovers(s: Db, startedAt: Time, finishedAt: Time)
    requires CL.Sized(s.life) && |s.life.connections| == 1 && s.life.handling == Some(0) && s.building.None? && Free(s)
    ensures var swapped := Apply(Apply(s, BuildSession), SwapSession);
      var s' := Apply(swapped, Life(CL.FinishProbe(startedAt, None, finishedAt)));
      && |s'.life.connections| == 1 && s'.life.connections[0].state == CL.Active
      && SessionsOf(s') == Reconnected(SessionsOf(s), true, true)
  {
    var built := Apply(s, BuildSession);
    assert Free(built);
    var swapped := Apply(built, SwapSession);
    assert Free(swapped) && swapped.swapped.Some?;
  }

  /**
   With no query holding the lock a failed database can always come back, on a new session and with the old one
   closed; and not before its probe has swapped one in.
   */
  lemma FailedDatabaseCanRecover(s: Db, err: Option<string>, failedAt: Time, startedAt: Time, finishedAt: Time)
    requires Inv(s) && Free(s) && Ready(s)
    ensures var failed := Apply(s, Life(CL.CollectorFails(0, err, failedAt)));
      var probing := Apply(failed, Life(CL.BeginProbe(0, startedAt)));
      var swapped := Apply(Apply(probing, BuildSession), SwapSession);
      var s' := Apply(swapped, Life(CL.FinishProbe(startedAt, None, finishedAt)));
      && Apply(probing, Life(CL.FinishProbe(startedAt, None, finishedAt))) == probing
      && |failed.life.connections| == 1 && failed.life.connections[0].state == CL.Quarantined
      && |s'.life.connections| == 1 && s'.life.connections[0].state == CL.Active
      && s'.session == Some(s.created)
      && s'.closed == s.closed + if s.session.Some? then {s.session.value} else {}
  {
    FailedDatabaseIsProbed(s, err, failedAt, startedAt);
    var probing := Apply(Apply(s, Life(CL.CollectorFails(0, err, failedAt))), Life(CL.BeginProbe(0, startedAt)));
    ProbedDatabaseRecovers(probing, startedAt, finishedAt);
  }

  // ---- What an abandoned lock costs ----

  lemma StepLeavesFrozen(s: Db, step: Step, q: nat)
    requires CL.Sized(s.life) && At(s, q, Abandoned)
    ensures var s' := Apply(s, step);
      At(s', q, Abandoned) && s'.session == s.session && s'.life.connections == s.life.connections
  {
    assert HoldsLock(s.queries[q]);
  }

  /**
   A query that returns at its deadline without releasing the read lock freezes the database for good:
   from then on its session and its connection's state never change, whatever happens.
   */
  lemma {:induction false} AbandonedLockFreezesDatabase(s: Db, steps: seq<Step>, q: nat)
    requires Inv(s) && At(s, q, Abandoned)
    ensures var s' := Run(s, steps);
      && At(s', q, Abandoned)
      && s'.session == s.session
      && s'.life.connections == s.life.connections
  {
    if steps != [] {
      AbandonedLockFreezesDatabase(s, steps[..|steps| - 1], q);
      StepLeavesFrozen(Run(s, steps[..|steps| - 1]), steps[|steps| - 1], q);
    }
  }

  // ---- When a writer can still get in ----

  /** What a query can do to be done: fail, or close its rows and unlock. */
  function Finish(s: Db, q: nat): seq<Step> {
    if q >= |s.queries| then []
    else
      match s.queries[q].phase
      case Locked => [QueryFails(q)]
      case Open => [CloseRows(q), Unlock(q)]
      case RowsClosed => [Unlock(q)]
      case _ => []
  }

  lemma RunConcatenation(s: Db, a: seq<Step>, b: seq<Step>)
    requires CL.Sized(s.life)
    ensures Run(s, a + b) == Run(Run(s, a), b)
  {
    if b == [] {
      assert a + b == a;
    } else {
      assert (a + b)[..|a + b| - 1] == a + b[..|b| - 1];
      RunConcatenation(s, a, b[..|b| - 1]);
    }
  }

  lemma RunOfAtMostTwo(s: Db, x: Step, y: Step)
    requires CL.Sized(s.life)
    ensures Run(s, []) == s && Run(s, [x]) == Apply(s, x) && Run(s, [x, y]) == Apply(Apply(s, x), y)
  {
    assert [x][..0] == [] && [x, y][..1] == [x];
  }

  lemma FinishFinishes(s: Db, q: nat)
    requires CL.Sized(s.life) && q < |s.queries| && s.queries[q].phase != Abandoned
    ensures var s' := Run(s, Finish(s, q));
      s'.life == s.life && s'.queries == s.queries[q := s.queries[q].(phase := Done)]
  {
    RunOfAtMostTwo(s, CloseRows(q), Unlock(q));
    RunOfAtMostTwo(s, Unlock(q), Unlock(q));
    RunOfAtMostTwo(s, QueryFails(q), Unlock(q));
  }

  ghost predicate DoneBelow(s: Db, n: nat) {
    forall i | 0 <= i < |s.queries| && i < n :: s.queries[i].phase == Done
  }

  ghost predicate NoneAbandoned(s: Db) {
    forall i | 0 <= i < |s.queries| :: s.queries[i].phase != Abandoned
  }

  lemma OneMoreDone(s: Db, steps: seq<Step>, n: nat)
    requires CL.Sized(s.life) && n < |s.queries| && NoneAbandoned(s) && DoneBelow(s, n)
    requires steps == Finish(s, n)
    ensures Run(s, steps).life == s.life && |Run(s, steps).queries| == |s.queries|
    ensures NoneAbandoned(Run(s, steps)) && DoneBelow(Run(s, steps), n + 1)
  {
    FinishFinishes(s, n);
  }

  lemma {:induction false} AllCanFinish(s: Db, n: nat) returns (steps: seq<Step>)
    requires CL.Sized(s.life) && NoneAbandoned(s) && n <= |s.queries|
    ensures Run(s, steps).life == s.life && |Run(s, steps).queries| == |s.queries|
    ensures NoneAbandoned(Run(s, steps)) && DoneBelow(Run(s, steps), n)
  {
    if n == 0 {
      steps := [];
    } else {
      steps := AllCanFinish(s, n - 1);
      var before := Run(s, steps);
      OneMoreDone(before, Finish(before, n - 1), n - 1);
      RunConcatenation(s, steps, Finish(before, n - 1));
      steps := steps + Finish(before, n - 1);
    }
  }

  /** In any consistent state: some continuation lets a writer in exactly if no query has abandoned the read lock. */
  lemma WritersCanEnterIffNothingAbandoned(s: Db)
    requires Inv(s)
    ensures (exists steps :: Free(Run(s, steps))) <==> NoneAbandoned(s)
  {
    if NoneAbandoned(s) {
      var steps := AllCanFinish(s, |s.queries|);
      assert Free(Run(s, steps));
    } else {
      var q :| 0 <= q < |s.queries| && s.queries[q].phase == Abandoned;
      forall steps
        ensures !Free(Run(s, steps))
      {
        AbandonedLockFreezesDatabase(s, steps, q);
        assert HoldsLock(Run(s, steps).queries[q]);
      }
    }
  }
}
