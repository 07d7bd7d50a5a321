/**
 The process-wide gate on physical Oracle connections (collector/connect_godror.go:20-63).

 A one-slot semaphore admits one caller at a time; the admitted caller waits until the minimum interval
 since the last completed connect has passed. Any caller can be cancelled at any wait.
 */
module ConnectionGate {
  import opened Common

  // ---- One caller ----

  /**
   The waits of one call: when it got the slot, or None if cancelled before; when its spacing timer
   fired if it had to wait, or None if cancelled before; and when its physical connect returned.
   */
  datatype Waits = Waits(slotAt: Option<Time>, timerAt: Option<Time>, completedAt: Time)

  datatype Outcome = Cancelled | Connected(startedAt: Time)

  class Gate {
    var lastCompleted: Time
    var busy: bool
    const minimumInterval: int

    constructor (minimumInterval: int)
      ensures !busy && lastCompleted == ZERO_TIME && this.minimumInterval == minimumInterval
    {
      busy, lastCompleted, this.minimumInterval := false, ZERO_TIME, minimumInterval;
    }

    /**
     `gatedConnector.Connect`. The slot is free again however it ends; a cancelled call leaves the
     spacing clock alone; a connect starts no sooner than the interval after the last completion, and
     its own completion becomes the last.
     */
    method Connect(w: Waits) returns (outcome: Outcome)
      requires !busy
      requires w.slotAt.Some? && w.slotAt.value < lastCompleted + minimumInterval && w.timerAt.Some? ==>
        w.timerAt.value >= lastCompleted + minimumInterval
      modifies this
      ensures !busy
      ensures outcome.Cancelled? ==> lastCompleted == old(lastCompleted)
      ensures outcome.Cancelled? <==>
        w.slotAt.None? || (w.timerAt.None? && w.slotAt.value < old(lastCompleted) + minimumInterval)
      ensures outcome.Connected? ==>
        && lastCompleted == w.completedAt
        && outcome.startedAt >= old(lastCompleted) + minimumInterval
        && outcome.startedAt == if w.slotAt.value < old(lastCompleted) + minimumInterval then w.timerAt.value else w.slotAt.value
    {
      if w.slotAt.None? {
        return Cancelled;
      }
      busy := true;
      var startedAt := w.slotAt.value;
      var wait := minimumInterval - (w.slotAt.value - lastCompleted);
      if wait > 0 {
        if w.timerAt.None? {
          busy := false;
          return Cancelled;
        }
        startedAt := w.timerAt.value;
      }
      lastCompleted := w.completedAt;
      busy := false;
      outcome := Connected(startedAt);
    }
  }

  // ---- Any number of callers ----

  datatype Phase = Waiting(until: Time) | Connecting(startedAt: Time)

  datatype Span = Span(startedAt: Time, completedAt: Time)

  /** The clock, the caller in the slot and what it is doing, the spacing clock, and all finished connects. */
  datatype State = State(now: Time, holder: Option<nat>, phase: Phase, lastCompleted: Time, history: seq<Span>)

  datatype Step =
    | Elapse(ns: nat)
    | TakeSlot(caller: nat)
    | TimerFires(caller: nat)
    | Cancel(caller: nat)
    | Complete(caller: nat)

  /** One event; an event that cannot happen changes nothing. Cancelling a caller outside the slot does nothing. */
  function Apply(s: State, step: Step, interval: int): State {
    match step
    case Elapse(ns) => s.(now := s.now + ns)
    case TakeSlot(c) =>
      if s.holder.Some? then s
      else
        var wait := interval - (s.now - s.lastCompleted);
        s.(holder := Some(c), phase := if wait > 0 then Waiting(s.now + wait) else Connecting(s.now))
    case TimerFires(c) =>
      if s.holder != Some(c) || !s.phase.Waiting? || s.now < s.phase.until then s else s.(phase := Connecting(s.now))
    case Cancel(c) =>
      if s.holder != Some(c) || !s.phase.Waiting? then s else s.(holder := None)
    case Complete(c) =>
      if s.holder != Some(c) || !s.phase.Connecting? then s
      else s.(holder := None, lastCompleted := s.now, history := s.history + [Span(s.phase.startedAt, s.now)])
  }

  function Run(start: Time, steps: seq<Step>, interval: int): State {
    if steps == [] then State(start, None, Waiting(start), ZERO_TIME, [])
    else Apply(Run(start, steps[..|steps| - 1], interval), steps[|steps| - 1], interval)
  }

  /** Whoever is in the slot: nobody else's event, and no event of its own out of turn, changes anything. */
  lemma OnlyTheHolderMoves(s: State, step: Step, interval: int)
    requires s.holder.Some? && !step.Elapse?
    requires step.caller == s.holder.value ==>
      && !step.TakeSlot? && (step.TimerFires? ==> s.phase.Waiting? && s.now < s.phase.until)
      && (step.Cancel? ==> s.phase.Connecting?) && (step.Complete? ==> s.phase.Waiting?)
    ensures Apply(s, step, interval) == s
  {
  }

  /** A caller that gets the slot once the interval is over connects at once, and any other at its end, unless cancelled. */
  lemma CallersGetThrough(s: State, c: nat, interval: int, ns: nat)
    requires s.holder.None?
    ensures var taken := Apply(s, TakeSlot(c), interval);
      taken == s.(holder := Some(c), phase := if s.now >= s.lastCompleted + interval then Connecting(s.now)
                                              else Waiting(s.lastCompleted + interval))
    ensures s.now < s.lastCompleted + interval <= s.now + ns ==>
      var waited := Apply(Apply(s, TakeSlot(c), interval), Elapse(ns), interval);
      && Apply(waited, Cancel(c), interval) == s.(now := s.now + ns, phase := waited.phase)
      && Apply(waited, TimerFires(c), interval) ==
         s.(now := s.now + ns, holder := Some(c), phase := Connecting(s.now + ns))
  {
  }

  lemma ConnectsEnd(s: State, c: nat, interval: int)
    requires s.holder == Some(c) && s.phase.Connecting?
    ensures Apply(s, Complete(c), interval) ==
            s.(holder := None, lastCompleted := s.now, history := s.history + [Span(s.phase.startedAt, s.now)])
  {
  }

  ghost predicate Inv(s: State, interval: int) {
    && (s.history != [] ==> s.history[|s.history| - 1].completedAt == s.lastCompleted)
    && (forall i | 0 <= i < |s.history| :: s.history[i].startedAt <= s.history[i].completedAt <= s.lastCompleted)
    && (forall i, j | 0 <= i < j < |s.history| :: s.history[i].completedAt + interval <= s.history[j].startedAt)
    && (s.holder.Some? && s.phase.Waiting? ==> s.phase.until == s.lastCompleted + interval)
    && (s.holder.Some? && s.phase.Connecting? ==> s.lastCompleted + interval <= s.phase.startedAt <= s.now)
  }

  lemma {:induction false} RunKeepsInv(start: Time, steps: seq<Step>, interval: int)
    requires interval >= 0
    ensures Inv(Run(start, steps, interval), interval)
  {
    if steps != [] {
      RunKeepsInv(start, steps[..|steps| - 1], interval);
    }
  }

  /**
   For any callers, cancellations and durations: physical connects never overlap, each starts at least
   the interval after every earlier one has completed, and so does one in progress.
   */
  lemma ConnectsAreSpaced(start: Time, steps: seq<Step>, interval: int)
    requires interval >= 0
    ensures var s := Run(start, steps, interval);
      && (forall i, j | 0 <= i < j < |s.history| :: s.history[i].completedAt + interval <= s.history[j].startedAt)
      && (s.holder.Some? && s.phase.Connecting? ==>
          forall i | 0 <= i < |s.history| :: s.history[i].completedAt + interval <= s.phase.startedAt)
  {
    RunKeepsInv(start, steps, interval);
  }
}
