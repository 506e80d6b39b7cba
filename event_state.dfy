/**
 * The hazard lifecycle on integer ticks (event_state.rs):
 * Dormant -> Scheduled -> Acknowledged -> Impacting -> Dormant. Scheduling and
 * acknowledgement are assignments made by callers; `tick` only performs the two
 * time-gated transitions, at most one per call.
 */
module Events {

  /** How many ticks the impact lasts, counted from the event's start. */
  const EVENT_DURATION: nat := 3

  datatype EventState =
    | Dormant
    | Scheduled(eventStart: nat)
    | Acknowledged(eventStart: nat)
    | Impacting(eventEnd: nat)
  {
    /** The state after `tick(current_tick)`: one match on the old state. */
    function AfterTick(currentTick: nat): (r: EventState)
      ensures (Scheduled? || Acknowledged?) && currentTick >= eventStart ==>
                r == Impacting(eventStart + EVENT_DURATION)
      ensures Impacting? && currentTick >= eventEnd ==> r == Dormant
      ensures (Scheduled? || Acknowledged?) && currentTick < eventStart ==> r == this
      ensures (Impacting? && currentTick < eventEnd) || Dormant? ==> r == this
      ensures r.Scheduled? || r.Acknowledged? ==> r == this
    {
      match this
      case Scheduled(eventStart) =>
        if currentTick >= eventStart then Impacting(eventStart + EVENT_DURATION) else this
      case Acknowledged(eventStart) =>
        if currentTick >= eventStart then Impacting(eventStart + EVENT_DURATION) else this
      case Impacting(eventEnd) =>
        if currentTick >= eventEnd then Dormant else this
      case Dormant => this
    }

    /** `tick(&mut self, current_tick)`: the guarded match whose result overwrites the state. */
    method Tick(currentTick: nat) returns (next: EventState)
      ensures next == AfterTick(currentTick)
    {
      next := this;
      if (Scheduled? || Acknowledged?) && currentTick >= eventStart {
        next := Impacting(eventStart + EVENT_DURATION);
      } else if Impacting? && currentTick >= eventEnd {
        next := Dormant;
      }
    }
  }

  /** One call applies at most one transition: even far past the end of the impact
      window, a scheduled event only starts impacting. */
  lemma AtMostOneTransition(s: nat, t: nat)
    requires t >= s + EVENT_DURATION
    ensures Scheduled(s).AfterTick(t) == Impacting(s + EVENT_DURATION)
    ensures Scheduled(s).AfterTick(t).AfterTick(t) == Dormant
  {
  }

  /** Acknowledging an event does not change when or how it impacts: once due, both
      become the same impact; before that, each stays as it is. */
  lemma AcknowledgedLikeScheduled(s: nat, t: nat)
    ensures t >= s ==> Scheduled(s).AfterTick(t) == Acknowledged(s).AfterTick(t)
    ensures t < s ==> Scheduled(s).AfterTick(t) == Scheduled(s) && Acknowledged(s).AfterTick(t) == Acknowledged(s)
  {
  }

  /** The impact window ends EVENT_DURATION ticks after the scheduled start, however
      late the tick that started it came. */
  lemma ImpactEndsFromStart(s: nat, t1: nat, t2: nat)
    requires s <= t1 && t1 < t2
    ensures Scheduled(s).AfterTick(t1).AfterTick(t2) == (if t2 >= s + EVENT_DURATION then Dormant else Impacting(s + EVENT_DURATION))
  {
  }
}
