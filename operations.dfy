/**
 * Supply-drop and docking sequencing (operations.rs):
 * Dormant -> Scheduled -> AwaitingAuthorization -> DockingInProgress -> Dormant.
 * Scheduling is an assignment by callers; `tick` performs the time-gated
 * transitions and `authorize_docking` is the one guarded action.
 */
module Operations {
  import opened Config

  datatype OperationsState =
    | Dormant
    | Scheduled(eventStart: nat)
    | AwaitingAuthorization
    | DockingInProgress(eventEnd: nat)
  {
    /** The state and the docking-completed flag after `tick(current_mission_time)`. */
    function AfterTick(currentMissionTime: nat): (r: (OperationsState, bool))
      ensures r.1 <==> DockingInProgress? && currentMissionTime >= eventEnd
      ensures r.1 ==> r.0 == Dormant
      ensures Scheduled? && currentMissionTime >= eventStart ==> r.0 == AwaitingAuthorization
      ensures !(Scheduled? && currentMissionTime >= eventStart) && !r.1 ==> r.0 == this
    {
      match this
      case Scheduled(eventStart) =>
        if currentMissionTime >= eventStart then (AwaitingAuthorization, false) else (this, false)
      case DockingInProgress(eventEnd) =>
        if currentMissionTime >= eventEnd then (Dormant, true) else (this, false)
      case AwaitingAuthorization => (this, false)
      case Dormant => (this, false)
    }

    /** `tick(&mut self, current_mission_time) -> bool`, with its mutable local flag. */
    method Tick(currentMissionTime: nat) returns (next: OperationsState, dockingCompleted: bool)
      ensures (next, dockingCompleted) == AfterTick(currentMissionTime)
    {
      dockingCompleted := false;
      match this
      case Scheduled(eventStart) =>
        next := if currentMissionTime >= eventStart then AwaitingAuthorization else this;
      case DockingInProgress(eventEnd) =>
        if currentMissionTime >= eventEnd {
          dockingCompleted := true;
          next := Dormant;
        } else {
          next := this;
        }
      case AwaitingAuthorization =>
        next := this;
      case Dormant =>
        next := this;
    }

    /** The state and the success flag after `authorize_docking`. */
    function AfterAuthorize(currentMissionTime: nat, gameVars: GameVariables): (r: (OperationsState, bool))
      ensures r.1 <==> AwaitingAuthorization?
      ensures r.1 ==> r.0 == DockingInProgress(currentMissionTime + DockingTicks(gameVars.supplyDropDockingDuration))
      ensures !r.1 ==> r.0 == this
    {
      if AwaitingAuthorization? then
        (DockingInProgress(currentMissionTime + DockingTicks(gameVars.supplyDropDockingDuration)), true)
      else
        (this, false)
    }

    /** `authorize_docking(&mut self, ...) -> bool`: a conditional overwrite of the state. */
    method AuthorizeDocking(currentMissionTime: nat, gameVars: GameVariables) returns (next: OperationsState, authorized: bool)
      ensures (next, authorized) == AfterAuthorize(currentMissionTime, gameVars)
    {
      next := this;
      authorized := false;
      if AwaitingAuthorization? {
        next := DockingInProgress(currentMissionTime + DockingTicks(gameVars.supplyDropDockingDuration));
        authorized := true;
      }
    }
  }

  /** `OperationsState::new()`. */
  function New(): (s: OperationsState)
    ensures s.Dormant?
  {
    Dormant
  }

  const U32_MAX: nat := 0xFFFF_FFFF

  /**
   * The cast `supply_drop_docking_duration as u32`: Rust's float-to-integer cast
   * truncates toward zero and saturates (at 0 for negative inputs, at u32::MAX).
   */
  function DockingTicks(duration: real): (n: nat)
    ensures n <= U32_MAX
    ensures duration <= 0.0 ==> n == 0
    ensures 0.0 <= duration < U32_MAX as real ==> n as real <= duration < n as real + 1.0
    ensures duration >= U32_MAX as real ==> n == U32_MAX
  {
    if duration <= 0.0 then 0
    else if duration >= U32_MAX as real then U32_MAX
    else duration.Floor
  }

  /** Mission times that never go backwards. */
  predicate NonDecreasing(times: seq<nat>) {
    forall i, j :: 0 <= i < j < |times| ==> times[i] <= times[j]
  }

  /** Repeated ticks at the given times: the final state and each tick's flag. */
  function Run(s: OperationsState, times: seq<nat>): (r: (OperationsState, seq<bool>))
    ensures |r.1| == |times|
    decreases |times|
  {
    if times == [] then (s, [])
    else
      var step := s.AfterTick(times[0]);
      var rest := Run(step.0, times[1..]);
      (rest.0, [step.1] + rest.1)
  }

  /** A Dormant supply drop stays Dormant and never reports a docking. */
  lemma {:induction false} DormantStaysQuiet(times: seq<nat>)
    ensures Run(Dormant, times).0 == Dormant
    ensures forall i :: 0 <= i < |times| ==> !Run(Dormant, times).1[i]
  {
    if times != [] {
      DormantStaysQuiet(times[1..]);
    }
  }

  /**
   * A docking due at `e`, ticked at non-decreasing times, reports completion on
   * exactly one tick: the first whose time is at least `e`; afterwards it is Dormant.
   */
  lemma {:induction false} DockingCompletesOnce(e: nat, times: seq<nat>)
    requires NonDecreasing(times)
    ensures forall i :: 0 <= i < |times| ==>
              (Run(DockingInProgress(e), times).1[i] <==> times[i] >= e && (i == 0 || times[i - 1] < e))
    ensures forall i, j :: 0 <= i < j < |times| ==>
              !(Run(DockingInProgress(e), times).1[i] && Run(DockingInProgress(e), times).1[j])
    ensures Run(DockingInProgress(e), times).0 ==
              (if times != [] && times[|times| - 1] >= e then Dormant else DockingInProgress(e))
  {
    if times != [] {
      var flags := Run(DockingInProgress(e), times).1;
      if times[0] >= e {
        DormantStaysQuiet(times[1..]);
        assert flags[0];
        assert forall i :: 1 <= i < |times| ==> !flags[i] by {
          forall i | 1 <= i < |times| ensures !flags[i] {
            assert flags[i] == Run(Dormant, times[1..]).1[i - 1];
          }
        }
      } else {
        DockingCompletesOnce(e, times[1..]);
        forall i | 1 <= i < |times|
          ensures flags[i] == Run(DockingInProgress(e), times[1..]).1[i - 1]
        {
        }
      }
    }
  }

  /** After a successful authorization at `t`, later ticks report completion exactly
      once: on the first tick at or after `t` plus the docking duration. */
  lemma AuthorizeThenDock(t: nat, gameVars: GameVariables, times: seq<nat>)
    requires NonDecreasing(times)
    ensures AwaitingAuthorization.AfterAuthorize(t, gameVars).1
    ensures var e := t + DockingTicks(gameVars.supplyDropDockingDuration);
            var s := AwaitingAuthorization.AfterAuthorize(t, gameVars).0;
            forall i :: 0 <= i < |times| ==>
              (Run(s, times).1[i] <==> times[i] >= e && (i == 0 || times[i - 1] < e))
  {
    DockingCompletesOnce(t + DockingTicks(gameVars.supplyDropDockingDuration), times);
  }
}
