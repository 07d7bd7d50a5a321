/**
 Leader election by advisory lock (ha/election.go; session-level advisory locks as in section 13.3.5
 of the PostgreSQL manual).

 Electors compete for a lock that belongs to a server session. Replies can be lost or come late,
 sessions can be killed, servers demoted and promoted. The main results are that at most one live
 session per server holds a lock, that no two electors believe in the same server's lock, and how
 long an elector can go on believing.
 */
module LeaderElection {
  import opened Common

  type LockId = int

  // ---- The elector ----

  /** One turn of the acquire loop: whether it connected, on which session, and what was answered. */
  datatype Attempt = Attempt(session: Option<nat>, answer: Option<bool>)

  predicate Won(a: Attempt) {
    a.session.Some? && a.answer == Some(true)
  }

  /** One check of the monitor loop; an error, a timeout or a connection closed meanwhile is no answer. */
  datatype Check = Check(evaluatedAt: Time, repliedAt: Time, answer: Option<bool>)

  datatype Verdict = Running | Lost(at: Time) | NotAcquired

  class Elector {
    var conn: Option<nat>
    const validationInterval: int

    constructor (validationInterval: int)
      ensures conn == None && this.validationInterval == validationInterval
    {
      conn, this.validationInterval := None, validationInterval;
    }

    /**
     `Acquire` over the attempts made before its context ends. `closed` are the connections it closes and `of` the
     attempts that opened them: in order, and each once, those that connected up to the first win, which stays open.
     */
    method Acquire(attempts: seq<Attempt>) returns (acquired: bool, closed: seq<nat>, ghost of: seq<nat>)
      modifies this
      ensures acquired <==> exists a | a in attempts :: Won(a)
      ensures acquired ==> exists i :: 0 <= i < |attempts| && FirstWin(attempts, i) && conn == attempts[i].session
      ensures !acquired ==> conn == old(conn)
      ensures |of| == |closed| && forall k | 0 <= k < |of| ::
                of[k] < |attempts| && attempts[of[k]].session == Some(closed[k])
      ensures forall j, k | 0 <= j < k < |of| :: of[j] < of[k]
      ensures forall i | 0 <= i < |attempts| ::
                i in of <==> attempts[i].session.Some? && forall j | 0 <= j <= i :: !Won(attempts[j])
    {
      acquired, closed, of := false, [], [];
      for i := 0 to |attempts|
        invariant conn == old(conn) && !acquired
        invariant forall j | 0 <= j < i :: !Won(attempts[j])
        invariant |of| == |closed| && forall k | 0 <= k < |of| :: of[k] < i && attempts[of[k]].session == Some(closed[k])
        invariant forall j, k | 0 <= j < k < |of| :: of[j] < of[k]
        invariant forall j | 0 <= j < i && attempts[j].session.Some? :: j in of
      {
        var a := attempts[i];
        if a.session.Some? {
          if a.answer.Some? && a.answer.value {
            conn := a.session;
            acquired := true;
            assert Won(attempts[i]);
            return;
          }
          ghost var before := of;
          closed, of := closed + [a.session.value], of + [i];
          assert of[|before|] == i && forall k | 0 <= k < |before| :: of[k] == before[k];
        }
      }
    }

    /** `Monitor` started at `start`, over the checks it gets to make before its context ends. */
    method Monitor(start: Time, checks: seq<Check>) returns (verdict: Verdict)
      ensures verdict == if conn.None? then NotAcquired else MonitorVerdict(checks)
      ensures conn.Some? && (forall i | 0 <= i < |checks| :: checks[i].answer == Some(true)) ==> verdict == Running
      ensures forall i | 0 <= i < |checks| && checks[i].answer != Some(true) ::
                conn.Some? && (forall j | 0 <= j < i :: checks[j].answer == Some(true)) ==>
                verdict == Lost(checks[i].repliedAt)
    {
      if conn.None? {
        return NotAcquired;
      }
      for i := 0 to |checks|
        invariant forall j | 0 <= j < i :: checks[j].answer == Some(true)
      {
        var writablePrimary := checks[i].answer;
        if writablePrimary.None? || !writablePrimary.value {
          FirstFailureDecides(checks, i);
          return Lost(checks[i].repliedAt);
        }
      }
      NoFailureRuns(checks);
      verdict := Running;
    }

    /** `Close`; the session is the caller's to end. */
    method Close() returns (closed: Option<nat>)
      modifies this
      ensures conn == None && closed == old(conn)
    {
      closed, conn := conn, None;
    }
  }

  ghost predicate FirstWin(attempts: seq<Attempt>, i: nat) {
    i < |attempts| && Won(attempts[i]) && forall j | 0 <= j < i :: !Won(attempts[j])
  }

  /** The monitor's fate: lost when the first check that is not a plain yes comes back. */
  function MonitorVerdict(checks: seq<Check>): Verdict {
    if checks == [] then Running
    else if checks[0].answer != Some(true) then Lost(checks[0].repliedAt)
    else MonitorVerdict(checks[1..])
  }

  lemma {:induction false} FirstFailureDecides(checks: seq<Check>, i: nat)
    requires i < |checks| && checks[i].answer != Some(true)
    requires forall j | 0 <= j < i :: checks[j].answer == Some(true)
    ensures MonitorVerdict(checks) == Lost(checks[i].repliedAt)
  {
    if i > 0 {
      FirstFailureDecides(checks[1..], i - 1);
    }
  }

  lemma {:induction false} NoFailureRuns(checks: seq<Check>)
    requires forall j | 0 <= j < |checks| :: checks[j].answer == Some(true)
    ensures MonitorVerdict(checks) == Running
  {
    if checks != [] {
      NoFailureRuns(checks[1..]);
    }
  }

  // ---- How long belief outlives leadership ----

  /**
   Checks as they happen with no scheduling delay: the i-th starts at its tick, is evaluated and answered
   within the timeout, which is the interval, and says yes only if leadership was sound when evaluated.
   */
  ghost predicate Timely(checks: seq<Check>, start: Time, interval: int, sound: Time -> bool) {
    forall i | 0 <= i < |checks| ::
      && Tick(start, interval, i) <= checks[i].evaluatedAt <= checks[i].repliedAt <= Tick(start, interval, i) + interval
      && (checks[i].answer == Some(true) ==> sound(checks[i].evaluatedAt))
  }

  function Tick(start: Time, interval: int, i: nat): Time {
    if i == 0 then start + interval else Tick(start, interval, i - 1) + interval
  }

  /** The first tick at or after an instant: within an interval of it, and sooner if the instant is past the start. */
  lemma {:induction false} TickAfter(start: Time, interval: int, t: Time) returns (i: nat)
    requires interval > 0 && start <= t
    ensures t <= Tick(start, interval, i) <= t + interval - if start < t then 1 else 0
    decreases t - start
  {
    if t <= start + interval {
      i := 0;
    } else {
      i := TickAfter(start + interval, interval, t);
      LaterStart(start, interval, i);
      i := i + 1;
    }
  }

  lemma {:induction false} LaterStart(start: Time, interval: int, i: nat)
    ensures Tick(start + interval, interval, i) == Tick(start, interval, i + 1)
  {
    if i > 0 {
      LaterStart(start, interval, i - 1);
    }
  }

  lemma {:induction false} LostNoLaterThan(checks: seq<Check>, i: nat)
    requires i < |checks| && checks[i].answer != Some(true)
    ensures exists j :: 0 <= j <= i && MonitorVerdict(checks) == Lost(checks[j].repliedAt)
  {
    if checks[0].answer == Some(true) {
      LostNoLaterThan(checks[1..], i - 1);
      var j :| 0 <= j <= i - 1 && MonitorVerdict(checks[1..]) == Lost(checks[1..][j].repliedAt);
      assert checks[j + 1] == checks[1..][j];
    } else {
      assert MonitorVerdict(checks) == Lost(checks[0].repliedAt);
    }
  }

  /** Leadership is unsound from t to t + d, and the monitor gets to make its checks. */
  ghost predicate Outage(checks: seq<Check>, start: Time, interval: int, sound: Time -> bool, t: Time, d: int) {
    && start <= t && Timely(checks, start, interval, sound)
    && (forall x | t <= x <= t + d :: !sound(x))
    && |checks| > 0 && Tick(start, interval, |checks| - 1) >= t + interval
  }

  predicate ReturnsBy(checks: seq<Check>, deadline: Time) {
    MonitorVerdict(checks).Lost? && MonitorVerdict(checks).at <= deadline
  }

  /**
   Once leadership is unsound at `t` - its session dead, or its server no writable primary - and stays so long
   enough to hold a whole check, its tick and its timeout, the monitor has returned by t + 2 intervals.
   */
  lemma BeliefEndsWithinTwoIntervals(checks: seq<Check>, start: Time, interval: int, sound: Time -> bool, t: Time, d: int)
    requires interval > 0 && Outage(checks, start, interval, sound, t, d)
    requires d >= 2 * interval - if start < t then 1 else 0
    ensures ReturnsBy(checks, t + 2 * interval)
  {
    var i := TickAfter(start, interval, t);
    TicksIncrease(start, interval, |checks| - 1, i);
    assert checks[i].answer != Some(true);
    LostNoLaterThan(checks, i);
    var j :| 0 <= j <= i && MonitorVerdict(checks) == Lost(checks[j].repliedAt);
    TicksIncrease(start, interval, i, j);
  }

  /** Every monitor returns in time from an outage of d, `after` nanoseconds or more into monitoring. */
  ghost predicate AlwaysNoticed(interval: int, d: int, after: nat) {
    forall checks, start, sound, t | Outage(checks, start, interval, sound, t, d) && start + after <= t ::
      ReturnsBy(checks, t + 2 * interval)
  }

  lemma LongOutagesAreNoticed(interval: int, d: int, after: nat)
    requires interval > 0 && d >= 2 * interval - if after > 0 then 1 else 0
    ensures AlwaysNoticed(interval, d, after)
  {
    forall checks, start, sound, t | Outage(checks, start, interval, sound, t, d) && start + after <= t
      ensures ReturnsBy(checks, t + 2 * interval)
    {
      BeliefEndsWithinTwoIntervals(checks, start, interval, sound, t, d);
    }
  }

  /** The exact threshold: two intervals, or a nanosecond less for an outage that does not begin with monitoring itself. */
  lemma AlwaysNoticedIff(interval: int, d: int)
    requires interval > 0 && d >= 0
    ensures AlwaysNoticed(interval, d, 0) <==> d >= 2 * interval
    ensures AlwaysNoticed(interval, d, 1) <==> d >= 2 * interval - 1
  {
    if d < 2 * interval {
      OutageAtStartGoesUnnoticed(interval, d);
    } else {
      LongOutagesAreNoticed(interval, d, 0);
    }
    if d < 2 * interval - 1 {
      ShortOutageGoesUnnoticed(interval, d);
    } else {
      LongOutagesAreNoticed(interval, d, 1);
    }
  }

  /** Unsound from the start of monitoring, for less than two intervals: the first check is evaluated as it times out. */
  lemma OutageAtStartGoesUnnoticed(interval: int, d: int)
    requires interval > 0 && 0 <= d < 2 * interval
    ensures !AlwaysNoticed(interval, d, 0)
  {
    var checks, sound := [Check(2 * interval, 2 * interval, Some(true))], (x: Time) => !(0 <= x < 2 * interval);
    NoFailureRuns(checks);
    assert Outage(checks, 0, interval, sound, 0, d);
  }

  /** Unsound strictly between one interval and three: a check is evaluated just before, and the next just after. */
  lemma ShortOutageGoesUnnoticed(interval: int, d: int)
    requires interval > 0 && 0 <= d < 2 * interval - 1
    ensures !AlwaysNoticed(interval, d, 1)
  {
    var late := Check(3 * interval, 3 * interval, Some(true));
    var checks, sound := [Check(interval, interval, Some(true)), late, late], (x: Time) => !(interval < x < 3 * interval);
    NoFailureRuns(checks);
    assert Outage(checks, 0, interval, sound, interval + 1, d);
  }

  lemma {:induction false} TicksIncrease(start: Time, interval: int, i: nat, j: nat)
    requires interval > 0
    ensures j <= i <==> Tick(start, interval, j) <= Tick(start, interval, i)
    decreases if i < j then j - i else i - j
  {
    if j < i {
      TicksIncrease(start, interval, i - 1, j);
    } else if i + 1 < j {
      TicksIncrease(start, interval, i, j - 1);
    }
  }

  /** The bound is met: leadership that ends as monitoring starts can be believed for two whole intervals. */
  lemma TwoIntervalsAreReached(start: Time, interval: int)
    requires interval > 0
    ensures var check := Check(start + 2 * interval, start + 2 * interval, None);
      Timely([check], start, interval, x => false) && MonitorVerdict([check]) == Lost(start + 2 * interval)
  {
  }

  // ---- Servers, sessions and lost replies ----

  /** The holder of an advisory lock and how often it has taken it: these locks stack. */
  datatype Hold = Hold(session: nat, count: nat)

  datatype Server = Server(writable: bool, locks: map<LockId, Hold>)

  datatype Query = Unsent | Sent | Done(acquired: bool)

  datatype Session = Session(server: nat, elector: nat, lockId: LockId, alive: bool, query: Query)

  /** An elector's `conn`, and the connection its acquire loop is waiting on, if any. */
  datatype Candidate = Candidate(lockId: LockId, conn: Option<nat>, waiting: Option<nat>)

  datatype World = World(servers: seq<Server>, sessions: seq<Session>, electors: seq<Candidate>)

  datatype Step =
    | Connect(elector: nat, server: nat)
    | Send(elector: nat)
    | Execute(session: nat)
    | Reply(elector: nat)
    | GiveUp(elector: nat)
    | EndSession(session: nat)
    | SetWritable(server: nat, writable: bool)
    | CloseElector(elector: nat)

  /** `pg_try_advisory_lock`: a free lock is taken, one's own is taken again, another's is refused. */
  function TryLock(locks: map<LockId, Hold>, id: LockId, session: nat): (map<LockId, Hold>, bool) {
    if id !in locks then (locks[id := Hold(session, 1)], true)
    else if locks[id].session == session then (locks[id := Hold(session, locks[id].count + 1)], true)
    else (locks, false)
  }

  /** The acquire query: the lock is tried only on a writable primary. */
  function AcquireQuery(server: Server, id: LockId, session: nat): (Server, bool) {
    if !server.writable then (server, false)
    else
      var (locks, acquired) := TryLock(server.locks, id, session);
      (server.(locks := locks), acquired)
  }

  /** A session's end releases every lock it holds. */
  function Released(locks: map<LockId, Hold>, session: nat): map<LockId, Hold> {
    map id | id in locks && locks[id].session != session :: locks[id]
  }

  predicate Waits(w: World, e: nat) {
    e < |w.electors| && w.electors[e].waiting.Some? && w.electors[e].waiting.value < |w.sessions|
  }

  predicate CanExecute(w: World, s: nat) {
    s < |w.sessions| && w.sessions[s].alive && w.sessions[s].query == Sent && w.sessions[s].server < |w.servers|
  }

  /**
   One atomic step; a step that is not enabled changes nothing. A query may be executed after its sender
   has given up, and its reply may arrive after the session has died.
   */
  function Apply(w: World, step: Step): World {
    match step
    case Connect(e, v) =>
      if e >= |w.electors| || v >= |w.servers| || w.electors[e].waiting.Some? then w
      else w.(sessions := w.sessions + [Session(v, e, w.electors[e].lockId, true, Unsent)],
              electors := w.electors[e := w.electors[e].(waiting := Some(|w.sessions|))])
    case Send(e) =>
      if !Waits(w, e) then w
      else
        var s := w.electors[e].waiting.value;
        if w.sessions[s].query != Unsent then w else w.(sessions := w.sessions[s := w.sessions[s].(query := Sent)])
    case Execute(s) =>
      if !CanExecute(w, s) then w
      else
        var v := w.sessions[s].server;
        var (server, acquired) := AcquireQuery(w.servers[v], w.sessions[s].lockId, s);
        w.(servers := w.servers[v := server], sessions := w.sessions[s := w.sessions[s].(query := Done(acquired))])
    case Reply(e) =>
      if !Waits(w, e) || !w.sessions[w.electors[e].waiting.value].query.Done? then w
      else
        var s := w.electors[e].waiting.value;
        var conn := if w.sessions[s].query.acquired then Some(s) else w.electors[e].conn;
        w.(electors := w.electors[e := w.electors[e].(conn := conn, waiting := None)])
    case GiveUp(e) =>
      if e >= |w.electors| then w else w.(electors := w.electors[e := w.electors[e].(waiting := None)])
    case EndSession(s) =>
      if s >= |w.sessions| || w.sessions[s].server >= |w.servers| then w
      else
        var v := w.sessions[s].server;
        w.(sessions := w.sessions[s := w.sessions[s].(alive := false)],
           servers := w.servers[v := w.servers[v].(locks := Released(w.servers[v].locks, s))])
    case SetWritable(v, writable) =>
      if v >= |w.servers| then w else w.(servers := w.servers[v := w.servers[v].(writable := writable)])
    case CloseElector(e) =>
      if e >= |w.electors| then w else w.(electors := w.electors[e := w.electors[e].(conn := None)])
  }

  function Run(start: World, steps: seq<Step>): World {
    if steps == [] then start else Apply(Run(start, steps[..|steps| - 1]), steps[|steps| - 1])
  }

  /** Servers without locks, electors without connections. */
  ghost predicate Initial(w: World) {
    && w.sessions == []
    && (forall v | 0 <= v < |w.servers| :: w.servers[v].locks == map[])
    && forall e | 0 <= e < |w.electors| :: w.electors[e].conn.None? && w.electors[e].waiting.None?
  }

  ghost predicate HoldOk(w: World, v: nat, id: LockId)
    requires v < |w.servers| && id in w.servers[v].locks
  {
    var h := w.servers[v].locks[id];
    && h.count == 1
    && h.session < |w.sessions|
    && var s := w.sessions[h.session];
       s.alive && s.server == v && s.lockId == id && s.query == Done(true)
  }

  /** A live session that was told yes has the lock. */
  ghost predicate SessionOk(w: World, s: nat)
    requires s < |w.sessions|
  {
    var session := w.sessions[s];
    && session.server < |w.servers|
    && (session.alive && session.query == Done(true) ==>
        && session.lockId in w.servers[session.server].locks
        && w.servers[session.server].locks[session.lockId].session == s)
  }

  ghost predicate OwnedBy(w: World, s: nat, e: nat)
    requires e < |w.electors|
  {
    s < |w.sessions| && w.sessions[s].elector == e && w.sessions[s].lockId == w.electors[e].lockId
  }

  ghost predicate ElectorOk(w: World, e: nat)
    requires e < |w.electors|
  {
    && (w.electors[e].waiting.Some? ==> OwnedBy(w, w.electors[e].waiting.value, e))
    && (w.electors[e].conn.Some? ==>
        OwnedBy(w, w.electors[e].conn.value, e) && w.sessions[w.electors[e].conn.value].query == Done(true))
  }

  ghost predicate Inv(w: World) {
    && (forall v, id | 0 <= v < |w.servers| && id in w.servers[v].locks :: HoldOk(w, v, id))
    && (forall s | 0 <= s < |w.sessions| :: SessionOk(w, s))
    && forall e | 0 <= e < |w.electors| :: ElectorOk(w, e)
  }

  lemma ExecuteKeepsInv(w: World, s: nat)
    requires Inv(w) && CanExecute(w, s)
    ensures Inv(Apply(w, Execute(s)))
  {
    var w' := Apply(w, Execute(s));
    var v, id := w.sessions[s].server, w.sessions[s].lockId;
    assert SessionOk(w, s);
    if id in w.servers[v].locks {
      assert HoldOk(w, v, id);
    }
    forall v', id' | 0 <= v' < |w'.servers| && id' in w'.servers[v'].locks
      ensures HoldOk(w', v', id')
    {
      if id' in w.servers[v'].locks {
        assert HoldOk(w, v', id');
      }
    }
    forall t | 0 <= t < |w'.sessions|
      ensures SessionOk(w', t)
    {
      assert SessionOk(w, t);
    }
    forall e | 0 <= e < |w'.electors|
      ensures ElectorOk(w', e)
    {
      assert ElectorOk(w, e);
    }
  }

  lemma EndSessionKeepsInv(w: World, s: nat)
    requires Inv(w) && s < |w.sessions| && w.sessions[s].server < |w.servers|
    ensures Inv(Apply(w, EndSession(s)))
  {
    var w' := Apply(w, EndSession(s));
    forall v, id | 0 <= v < |w'.servers| && id in w'.servers[v].locks
      ensures HoldOk(w', v, id)
    {
      assert HoldOk(w, v, id);
    }
    forall t | 0 <= t < |w'.sessions|
      ensures SessionOk(w', t)
    {
      assert SessionOk(w, t);
    }
    forall e | 0 <= e < |w'.electors|
      ensures ElectorOk(w', e)
    {
      assert ElectorOk(w, e);
    }
  }

  lemma ElectorStepKeepsInv(w: World, step: Step)
    requires Inv(w) && (step.Connect? || step.Send? || step.Reply? || step.GiveUp? || step.CloseElector? || step.SetWritable?)
    ensures Inv(Apply(w, step))
  {
    var w' := Apply(w, step);
    if w' != w {
      forall v, id | 0 <= v < |w'.servers| && id in w'.servers[v].locks
        ensures HoldOk(w', v, id)
      {
        assert HoldOk(w, v, id);
      }
      forall t | 0 <= t < |w'.sessions|
        ensures SessionOk(w', t)
      {
        if t < |w.sessions| {
          assert SessionOk(w, t);
        }
      }
      forall e | 0 <= e < |w'.electors|
        ensures ElectorOk(w', e)
      {
        assert ElectorOk(w, e);
      }
    }
  }

  lemma {:induction false} RunKeepsInv(start: World, steps: seq<Step>)
    requires Initial(start)
    ensures Inv(Run(start, steps))
  {
    if steps != [] {
      var before, step := Run(start, steps[..|steps| - 1]), steps[|steps| - 1];
      RunKeepsInv(start, steps[..|steps| - 1]);
      if step.Execute? {
        if CanExecute(before, step.session) {
          ExecuteKeepsInv(before, step.session);
        }
      } else if step.EndSession? {
        if step.session < |before.sessions| && before.sessions[step.session].server < |before.servers| {
          EndSessionKeepsInv(before, step.session);
        }
      } else {
        ElectorStepKeepsInv(before, step);
      }
    }
  }

  /** The elector has a connection, and its session is still alive on the server. */
  predicate Leads(w: World, e: nat) {
    e < |w.electors| && w.electors[e].conn.Some? && w.electors[e].conn.value < |w.sessions|
    && w.sessions[w.electors[e].conn.value].alive
  }

  function ServerOf(w: World, e: nat): nat
    requires Leads(w, e)
  {
    w.sessions[w.electors[e].conn.value].server
  }

  /**
   Leadership safety. In every reachable state: each lock is held by one live session that was told so,
   once; an elector whose connection lives holds its lock; and two electors with one lock, both with
   live connections to one server, are the same elector.
   */
  lemma LeadershipIsExclusive(start: World, steps: seq<Step>)
    requires Initial(start)
    ensures var w := Run(start, steps);
      && (forall v, id | 0 <= v < |w.servers| && id in w.servers[v].locks ::
            var h := w.servers[v].locks[id];
            h.count == 1 && h.session < |w.sessions| && w.sessions[h.session].alive && w.sessions[h.session].server == v)
      && (forall e: nat | Leads(w, e) ::
            && ServerOf(w, e) < |w.servers|
            && w.electors[e].lockId in w.servers[ServerOf(w, e)].locks
            && w.servers[ServerOf(w, e)].locks[w.electors[e].lockId].session == w.electors[e].conn.value)
      && (forall e: nat, f: nat | Leads(w, e) && Leads(w, f) && w.electors[e].lockId == w.electors[f].lockId
            && ServerOf(w, e) == ServerOf(w, f) :: e == f)
  {
    var w := Run(start, steps);
    RunKeepsInv(start, steps);
    forall v, id | 0 <= v < |w.servers| && id in w.servers[v].locks
      ensures var h := w.servers[v].locks[id];
        h.count == 1 && h.session < |w.sessions| && w.sessions[h.session].alive && w.sessions[h.session].server == v
    {
      assert HoldOk(w, v, id);
    }
    forall e: nat | Leads(w, e)
      ensures ServerOf(w, e) < |w.servers|
      ensures w.electors[e].lockId in w.servers[ServerOf(w, e)].locks
      ensures w.servers[ServerOf(w, e)].locks[w.electors[e].lockId].session == w.electors[e].conn.value
      ensures w.sessions[w.electors[e].conn.value].elector == e
    {
      assert ElectorOk(w, e);
      assert SessionOk(w, w.electors[e].conn.value);
    }
  }

  /**
   The answer to an acquire query, in every reachable state: yes just on a writable primary whose lock is free, and
   then the session holds it once; any other answer leaves the server as it was. No other session's lock is touched.
   */
  lemma AcquireIsGrantedIff(start: World, steps: seq<Step>, s: nat)
    requires Initial(start) && CanExecute(Run(start, steps), s)
    ensures var w, w' := Run(start, steps), Run(start, steps + [Execute(s)]);
      var v, id := w.sessions[s].server, w.sessions[s].lockId;
      && |w'.servers| == |w.servers| && |w'.sessions| == |w.sessions|
      && w'.sessions[s].query == Done(w.servers[v].writable && id !in w.servers[v].locks)
      && w'.servers[v].locks == (if w.servers[v].writable && id !in w.servers[v].locks
                                 then w.servers[v].locks[id := Hold(s, 1)] else w.servers[v].locks)
      && forall u | 0 <= u < |w.servers| && u != v :: w'.servers[u] == w.servers[u]
  {
    RunKeepsInv(start, steps);
    RunOneMore(start, steps, Execute(s));
    var w := Run(start, steps);
    var v, id := w.sessions[s].server, w.sessions[s].lockId;
    if id in w.servers[v].locks {
      assert HoldOk(w, v, id);
    }
  }

  /** A session's end frees its own locks and no other's. */
  lemma EndSessionFreesItsLocks(w: World, s: nat, v: nat, id: LockId)
    requires Inv(w) && s < |w.sessions| && w.sessions[s].server == v
    ensures var w' := Apply(w, EndSession(s));
      && |w'.servers| == |w.servers| > v && |w'.sessions| == |w.sessions| && !w'.sessions[s].alive
      && (id in w'.servers[v].locks <==> id in w.servers[v].locks && w.servers[v].locks[id].session != s)
      && (id in w'.servers[v].locks ==> w'.servers[v].locks[id] == w.servers[v].locks[id])
  {
    assert SessionOk(w, s);
  }

  /** Giving up, closing and a change of role take effect at once, and touch nothing else. */
  lemma StepsTakeEffect(w: World, e: nat, v: nat, writable: bool)
    requires e < |w.electors| && v < |w.servers|
    ensures var gaveUp, closed := Apply(w, GiveUp(e)), Apply(w, CloseElector(e));
      && gaveUp.servers == w.servers == closed.servers && gaveUp.sessions == w.sessions == closed.sessions
      && gaveUp.electors[e] == Candidate(w.electors[e].lockId, w.electors[e].conn, None)
      && closed.electors[e] == Candidate(w.electors[e].lockId, None, w.electors[e].waiting)
      && forall f | 0 <= f < |w.electors| && f != e :: gaveUp.electors[f] == w.electors[f] == closed.electors[f]
    ensures var changed := Apply(w, SetWritable(v, writable));
      && changed.electors == w.electors && changed.sessions == w.sessions
      && changed.servers == w.servers[v := Server(writable, w.servers[v].locks)]
  {
  }

  /** An elector takes up a connection only on a yes to the query it waits for, and gives one up only by closing. */
  lemma BeliefNeedsAYes(w: World, step: Step, e: nat)
    requires Inv(w) && e < |w.electors|
    ensures var w' := Apply(w, step);
      && |w'.electors| == |w.electors|
      && (w'.electors[e].conn != w.electors[e].conn ==>
          || (step == CloseElector(e) && w'.electors[e].conn.None?)
          || (step == Reply(e) && Waits(w, e) && w'.electors[e].conn == w.electors[e].waiting
              && w.sessions[w.electors[e].waiting.value].query == Done(true)))
  {
    assert ElectorOk(w, e);
  }

  /**
   Exclusion crosses no server: with two writable servers, two electors of one lock can both lead, each
   on its own server.
   */
  lemma TwoServersCanHaveTwoLeaders(start: World)
    requires Initial(start) && |start.servers| == 2 && |start.electors| == 2
    requires start.servers[0].writable && start.servers[1].writable
    requires start.electors[0].lockId == start.electors[1].lockId
    ensures var w := Run(start, CampaignSteps(CampaignSteps([], 0, 0), 1, 1));
      Leads(w, 0) && Leads(w, 1) && ServerOf(w, 0) == 0 && ServerOf(w, 1) == 1
  {
    assert Run(start, []) == start;
    CampaignWins(start, 0, 0);
    var w1 := Campaign(start, 0, 0);
    CampaignWins(w1, 1, 1);
    CampaignRuns(start, [], 0, 0);
    CampaignRuns(start, CampaignSteps([], 0, 0), 1, 1);
    var w2 := Campaign(w1, 1, 1);
    assert w2.electors[0].conn == Some(0) && w2.electors[1].conn == Some(1);
    assert w2.sessions[0].server == 0 && w2.sessions[1].server == 1;
  }

  /** Undisturbed on a writable primary whose lock is free, an attempt wins and changes nothing else. */
  lemma CampaignWins(w: World, e: nat, v: nat)
    requires e < |w.electors| && v < |w.servers| && w.electors[e].waiting.None?
    requires w.servers[v].writable && w.electors[e].lockId !in w.servers[v].locks
    ensures Campaign(w, e, v) ==
            var n, id := |w.sessions|, w.electors[e].lockId;
            World(w.servers[v := Server(true, w.servers[v].locks[id := Hold(n, 1)])],
                  w.sessions + [Session(v, e, id, true, Done(true))],
                  w.electors[e := Candidate(id, Some(n), None)])
  {
    var n := |w.sessions|;
    var connected := Apply(w, Connect(e, v));
    assert connected.sessions[n] == Session(v, e, w.electors[e].lockId, true, Unsent);
    var sent := Apply(connected, Send(e));
    assert sent.sessions == w.sessions + [Session(v, e, w.electors[e].lockId, true, Sent)];
    var executed := Apply(sent, Execute(n));
    assert executed.sessions == w.sessions + [Session(v, e, w.electors[e].lockId, true, Done(true))];
  }

  /** An undisturbed attempt: connect, send, execute, reply. */
  function Campaign(w: World, e: nat, v: nat): World {
    Apply(Apply(Apply(Apply(w, Connect(e, v)), Send(e)), Execute(|w.sessions|)), Reply(e))
  }

  function CampaignSteps(before: seq<Step>, e: nat, v: nat): seq<Step> {
    before + [Connect(e, v)] + [Send(e)] + [Execute(e)] + [Reply(e)]
  }

  lemma RunOneMore(start: World, steps: seq<Step>, step: Step)
    ensures Run(start, steps + [step]) == Apply(Run(start, steps), step)
  {
    assert (steps + [step])[..|steps|] == steps;
  }

  lemma CampaignRuns(start: World, before: seq<Step>, e: nat, v: nat)
    requires |Run(start, before).sessions| == e
    ensures Run(start, CampaignSteps(before, e, v)) == Campaign(Run(start, before), e, v)
  {
    RunOneMore(start, before, Connect(e, v));
    RunOneMore(start, before + [Connect(e, v)], Send(e));
    RunOneMore(start, before + [Connect(e, v)] + [Send(e)], Execute(e));
    RunOneMore(start, before + [Connect(e, v)] + [Send(e)] + [Execute(e)], Reply(e));
  }
}
