/**
 * The orchestrator (game_state.rs). Each tick advances an integer mission clock,
 * ticks the three hazard events, the solar array, the bare reactor health state
 * and the battery, folds the battery's exchange into the (never reset) supply and
 * demand totals, integrates the grid frequency with the swing equation and ticks
 * the supply-drop sequence.
 *
 * The subsystems are given the tick context {configuration, mission time, time
 * since the previous tick}. As the code is written, the solar output is computed
 * and then dropped, and the reactor is a bare generator health state whose output
 * is not part of the totals.
 */
module Grid {
  import opened Numeric
  import opened Config
  import opened Damages
  import opened Generators
  import opened Events
  import opened Operations
  import opened Lunar
  import opened Solar
  import opened Batteries

  /** The nominal grid frequency `f0`. */
  const NOMINAL_FREQUENCY: real := 50.0

  /** The largest deviation from the nominal frequency the colony survives. */
  const FREQUENCY_TOLERANCE: real := 0.5

  // ---------------------------------------------------------------------------
  // Lunar phase from the mission clock
  // ---------------------------------------------------------------------------

  /** Truncation toward zero, as an `f32` division result is cut by `%`. */
  function Trunc(x: real): (k: int)
    ensures 0.0 <= x ==> 0 <= k && k as real <= x < k as real + 1.0
    ensures x < 0.0 ==> k <= 0 && k as real - 1.0 < x <= k as real
  {
    if x >= 0.0 then x.Floor else -((-x).Floor)
  }

  /**
   * `lunar_seconds % LUNAR_DAY_SECONDS` with the `f32` remainder: the quotient is
   * truncated, so the result carries the sign of the dividend.
   */
  function TimeInCycle(lunarSeconds: real): (r: real)
    ensures 0.0 <= lunarSeconds ==> 0.0 <= r < LUNAR_DAY_SECONDS
    ensures lunarSeconds < 0.0 ==> -LUNAR_DAY_SECONDS < r <= 0.0
  {
    lunarSeconds - Trunc(lunarSeconds / LUNAR_DAY_SECONDS) as real * LUNAR_DAY_SECONDS
  }

  /** A whole lunar day later, a nonnegative time is at the same point of the cycle. */
  lemma TimeInCyclePeriodic(lunarSeconds: real)
    requires 0.0 <= lunarSeconds
    ensures TimeInCycle(lunarSeconds + LUNAR_DAY_SECONDS) == TimeInCycle(lunarSeconds)
  {
    var q := lunarSeconds / LUNAR_DAY_SECONDS;
    assert (lunarSeconds + LUNAR_DAY_SECONDS) / LUNAR_DAY_SECONDS == q + 1.0;
    assert (q + 1.0).Floor == q.Floor + 1;
  }

  /** `lunar_phase_and_time` on the clock value and the time scale. */
  function PhaseAt(missionTimeSeconds: nat, missionTimeScaleFactor: real): (p: LunarPhase)
    requires missionTimeScaleFactor != 0.0
    ensures p.Day? <==> p.elapsed < LUNAR_DAY_SECONDS / 2.0
    ensures 0.0 < missionTimeScaleFactor ==> p.WellFormed() && 0.0 <= p.elapsed < LUNAR_DAY_SECONDS
  {
    var lunarSeconds := missionTimeSeconds as real / missionTimeScaleFactor;
    var timeInCycle := TimeInCycle(lunarSeconds);
    if timeInCycle < LUNAR_DAY_SECONDS / 2.0 then Day(timeInCycle) else Night(timeInCycle)
  }

  /** On a positive time scale the time left in the current phase is in (0, half a lunar day]. */
  lemma PhaseRemainingBounded(missionTimeSeconds: nat, missionTimeScaleFactor: real)
    requires 0.0 < missionTimeScaleFactor
    ensures 0.0 < PhaseAt(missionTimeSeconds, missionTimeScaleFactor).Remaining() <= LUNAR_DAY_SECONDS / 2.0
  {
    var p := PhaseAt(missionTimeSeconds, missionTimeScaleFactor);
    assert p.WellFormed();
  }

  // ---------------------------------------------------------------------------
  // Swing equation
  // ---------------------------------------------------------------------------

  /**
   * The rate of change of frequency `dP / (2 H (Pnom / f0))`, or 0 with no nominal
   * power and no imbalance. The source's infinite rate for an imbalance with no
   * nominal power, and its division by zero for H = 0, are excluded.
   */
  function Rocof(deltaP: real, h: real, pnom: real): real
    requires pnom == 0.0 ==> deltaP == 0.0
    requires pnom != 0.0 ==> h != 0.0
  {
    if pnom == 0.0 && deltaP == 0.0 then 0.0
    else deltaP / (2.0 * h * (pnom / NOMINAL_FREQUENCY))
  }

  /** `tick_frequency_hz` on values: the frequency integrated over `elapsed` seconds. */
  function SwingFrequency(frequencyHz: real, supply: real, demand: real, h: real, pnom: real, elapsed: nat): (r: real)
    requires pnom == 0.0 ==> supply == demand
    requires pnom != 0.0 ==> h != 0.0
    ensures supply == demand || elapsed == 0 ==> r == frequencyHz
  {
    frequencyHz + Rocof(supply - demand, h, pnom) * elapsed as real
  }

  /** With positive inertia and nominal power, a surplus raises the frequency and a deficit lowers it. */
  lemma SurplusRaisesFrequency(frequencyHz: real, supply: real, demand: real, h: real, pnom: real, elapsed: nat)
    requires 0.0 < h && 0.0 < pnom && 0 < elapsed
    ensures supply > demand ==> SwingFrequency(frequencyHz, supply, demand, h, pnom, elapsed) > frequencyHz
    ensures supply < demand ==> SwingFrequency(frequencyHz, supply, demand, h, pnom, elapsed) < frequencyHz
  {
    var denominator := 2.0 * h * (pnom / NOMINAL_FREQUENCY);
    assert 0.0 < pnom / NOMINAL_FREQUENCY;
    assert 0.0 < denominator by {
      PositiveProduct(2.0 * h, pnom / NOMINAL_FREQUENCY);
    }
    var rocof := Rocof(supply - demand, h, pnom);
    assert rocof == (supply - demand) / denominator;
    if supply > demand {
      assert 0.0 < rocof;
      PositiveProduct(rocof, elapsed as real);
    } else if supply < demand {
      assert rocof < 0.0;
      PositiveProduct(-rocof, elapsed as real);
    }
  }

  lemma PositiveProduct(a: real, b: real)
    requires 0.0 < a && 0.0 < b
    ensures 0.0 < a * b
  {
  }

  /** `n` one-second ticks with fixed totals. */
  function UnitSteps(frequencyHz: real, supply: real, demand: real, h: real, pnom: real, n: nat): real
    requires pnom == 0.0 ==> supply == demand
    requires pnom != 0.0 ==> h != 0.0
    decreases n
  {
    if n == 0 then frequencyHz
    else SwingFrequency(UnitSteps(frequencyHz, supply, demand, h, pnom, n - 1), supply, demand, h, pnom, 1)
  }

  /** Integrating tick by tick over `n` seconds is integrating once over `n` seconds. */
  lemma {:induction false} UnitStepsIntegrate(frequencyHz: real, supply: real, demand: real, h: real, pnom: real, n: nat)
    requires pnom == 0.0 ==> supply == demand
    requires pnom != 0.0 ==> h != 0.0
    ensures UnitSteps(frequencyHz, supply, demand, h, pnom, n) == SwingFrequency(frequencyHz, supply, demand, h, pnom, n)
    decreases n
  {
    if n > 0 {
      UnitStepsIntegrate(frequencyHz, supply, demand, h, pnom, n - 1);
      var rocof := Rocof(supply - demand, h, pnom);
      assert rocof * (n - 1) as real + rocof * 1 as real == rocof * n as real;
    }
  }

  /** `is_game_over` on values: the colony is lost, or the frequency left 50 Hz +- 0.5 Hz. */
  predicate GameOver(colonyHealth: real, frequencyHz: real) {
    colonyHealth <= 0.0 || Abs(frequencyHz - NOMINAL_FREQUENCY) > FREQUENCY_TOLERANCE
  }

  // ---------------------------------------------------------------------------
  // Folding the battery exchange into the totals
  // ---------------------------------------------------------------------------

  /** The totals after the battery consumed `consumed` from the grid (positive: charging). */
  function FoldBattery(supply: real, demand: real, consumed: real): (r: (real, real))
    ensures consumed > 0.0 ==> r == (supply, demand + consumed)
    ensures consumed < 0.0 ==> r == (supply - consumed, demand)
    ensures consumed == 0.0 ==> r == (supply, demand)
    ensures supply <= r.0 && demand <= r.1
    ensures r.1 - r.0 == (demand - supply) + consumed
  {
    if consumed > 0.0 then (supply, demand + consumed)
    else if consumed < 0.0 then (supply + -consumed, demand)
    else (supply, demand)
  }

  /**
   * The battery pulls the imbalance toward zero and never past it: afterwards the
   * imbalance has the same sign as before (or vanishes) and is no larger.
   */
  lemma BatteryNeverOvercorrects(gen: GeneratorState, mode: BatteryMode, chargePercentage: real,
                                 supply: real, demand: real, context: TickContext)
    requires context.gameVars.batteryCapacity != 0.0 && context.tickDelta != 0.0
    ensures var step := BatteryStep(gen, mode, chargePercentage, demand - supply, context);
            var totals := FoldBattery(supply, demand, step.powerConsumed);
            var before := demand - supply;
            var after := totals.1 - totals.0;
            && (before >= 0.0 ==> 0.0 <= after <= before)
            && (before <= 0.0 ==> before <= after <= 0.0)
  {
  }

  // ---------------------------------------------------------------------------
  // The game state
  // ---------------------------------------------------------------------------

  class GameState {
    var missionTimeSeconds: nat
    var lastTickTimeSeconds: nat

    var totalGridSupply: real
    var totalGridDemand: real
    var frequencyHz: real

    var colonyHealth: real

    var commsOnline: bool
    var operationsOnline: bool
    var lifeSupportEmergency: bool

    const solar: SolarState
    const battery: Battery

    var reactorState: GeneratorState
    var reactorCoolant: real
    var reactorPower: real
    var reactorTemperature: real

    var boostLifeSupport: nat
    var boostBattery: nat
    var boostCoolant: nat
    var boostRepair: nat

    var micrometeoriteEvent: EventState
    var lunarQuakeEvent: EventState
    var solarFlareEvent: EventState

    var supplyDropFlowState: OperationsState

    /** The clock never runs behind the time of the last tick. */
    predicate Valid()
      reads this
    {
      lastTickTimeSeconds <= missionTimeSeconds
    }

    /** `GameState::new()`. */
    constructor ()
      ensures Valid()
      ensures missionTimeSeconds == 0 && lastTickTimeSeconds == 0
      ensures totalGridSupply == 0.0 && totalGridDemand == 0.0
      ensures frequencyHz == 50.0 && colonyHealth == 100.0
      ensures fresh(solar) && solar.generatorState == Default() && !solar.shieldsActive
      ensures fresh(battery) && battery.generatorState == Default()
      ensures battery.chargePercentage == 100.0 && battery.mode == Auto
      ensures reactorState == Default()
      ensures reactorCoolant == 100.0 && reactorPower == 50.0 && reactorTemperature == 25.0
      ensures commsOnline && operationsOnline && !lifeSupportEmergency
      ensures boostLifeSupport == 0 && boostBattery == 0 && boostCoolant == 0 && boostRepair == 0
      ensures micrometeoriteEvent == EventState.Dormant && lunarQuakeEvent == EventState.Dormant && solarFlareEvent == EventState.Dormant
      ensures supplyDropFlowState == Operations.New()
    {
      missionTimeSeconds := 0;
      lastTickTimeSeconds := 0;
      totalGridSupply := 0.0;
      totalGridDemand := 0.0;
      frequencyHz := 50.0;
      colonyHealth := 100.0;
      solar := new SolarState();
      battery := new Battery();
      reactorState := Default();
      reactorCoolant := 100.0;
      commsOnline := true;
      operationsOnline := true;
      lifeSupportEmergency := false;
      reactorPower := 50.0;
      reactorTemperature := 25.0;
      boostLifeSupport := 0;
      boostBattery := 0;
      boostCoolant := 0;
      boostRepair := 0;
      micrometeoriteEvent := EventState.Dormant;
      lunarQuakeEvent := EventState.Dormant;
      solarFlareEvent := EventState.Dormant;
      supplyDropFlowState := Operations.New();
    }

    /** `lunar_phase_and_time`: the phase of the current mission time. */
    function LunarPhaseAndTime(gameVars: GameVariables): (p: LunarPhase)
      reads this
      requires gameVars.missionTimeScaleFactor != 0.0
      ensures 0.0 < gameVars.missionTimeScaleFactor ==> p.WellFormed()
    {
      PhaseAt(missionTimeSeconds, gameVars.missionTimeScaleFactor)
    }

    /** `tick_frequency_hz`: the stored frequency integrated over the time since the last tick. */
    function TickFrequencyHz(gameVars: GameVariables): (r: real)
      reads this
      requires Valid()
      requires gameVars.systemNominalPowerPnom == 0.0 ==> totalGridSupply == totalGridDemand
      requires gameVars.systemNominalPowerPnom != 0.0 ==> gameVars.systemInertiaH != 0.0
      ensures lastTickTimeSeconds == missionTimeSeconds ==> r == frequencyHz
      ensures totalGridSupply == totalGridDemand ==> r == frequencyHz
    {
      SwingFrequency(frequencyHz, totalGridSupply, totalGridDemand,
                     gameVars.systemInertiaH, gameVars.systemNominalPowerPnom,
                     missionTimeSeconds - lastTickTimeSeconds)
    }

    /** `is_game_over`. Right after a tick no time has elapsed, so it judges the stored frequency. */
    function IsGameOver(gameVars: GameVariables): (r: bool)
      reads this
      requires Valid()
      requires gameVars.systemNominalPowerPnom == 0.0 ==> totalGridSupply == totalGridDemand
      requires gameVars.systemNominalPowerPnom != 0.0 ==> gameVars.systemInertiaH != 0.0
      ensures colonyHealth <= 0.0 ==> r
      ensures lastTickTimeSeconds == missionTimeSeconds ==> (r <==> GameOver(colonyHealth, frequencyHz))
    {
      colonyHealth <= 0.0 || Abs(TickFrequencyHz(gameVars) - NOMINAL_FREQUENCY) > FREQUENCY_TOLERANCE
    }

    /**
     * `tick_operations`: ticks the supply drop at the current time. A completed
     * docking reaches an unimplemented boost award that panics, so callers must
     * not let a docking complete here.
     */
    method TickOperations()
      requires !supplyDropFlowState.AfterTick(missionTimeSeconds).1
      modifies this`supplyDropFlowState
      ensures supplyDropFlowState == old(supplyDropFlowState).AfterTick(missionTimeSeconds).0
    {
      var next, dockingCompleted := supplyDropFlowState.Tick(missionTimeSeconds);
      supplyDropFlowState := next;
      if dockingCompleted {
        assert false;
      }
    }

    /** The three hazard events, ticked at the current time in the order micrometeorite, quake, flare. */
    method TickEvents()
      modifies this`micrometeoriteEvent, this`lunarQuakeEvent, this`solarFlareEvent
      ensures micrometeoriteEvent == old(micrometeoriteEvent).AfterTick(missionTimeSeconds)
      ensures lunarQuakeEvent == old(lunarQuakeEvent).AfterTick(missionTimeSeconds)
      ensures solarFlareEvent == old(solarFlareEvent).AfterTick(missionTimeSeconds)
    {
      micrometeoriteEvent := micrometeoriteEvent.Tick(missionTimeSeconds);
      lunarQuakeEvent := lunarQuakeEvent.Tick(missionTimeSeconds);
      solarFlareEvent := solarFlareEvent.Tick(missionTimeSeconds);
    }

    /**
     * The power subsystems at the new mission time: the solar array (its output is
     * dropped), the bare reactor health state, then the battery.
     */
    method TickPower(context: TickContext)
      requires context.gameVars.missionTimeScaleFactor != 0.0
      requires context.gameVars.batteryCapacity != 0.0 && context.tickDelta != 0.0
      modifies solar, this`reactorState, battery, this`totalGridSupply, this`totalGridDemand
      ensures solar.generatorState == old(solar.generatorState).AfterTick(context)
      ensures solar.shieldsActive == old(solar.shieldsActive)
      ensures reactorState == old(reactorState).AfterTick(context)
      ensures battery.generatorState == old(battery.generatorState).AfterTick(context)
      ensures battery.mode == old(battery.mode)
      ensures var step := BatteryStep(battery.generatorState, battery.mode, old(battery.chargePercentage),
                                      old(totalGridDemand) - old(totalGridSupply), context);
              && battery.chargePercentage == step.chargePercentage
              && (totalGridSupply, totalGridDemand)
                 == FoldBattery(old(totalGridSupply), old(totalGridDemand), step.powerConsumed)
    {
      var lunarPhase := LunarPhaseAndTime(context.gameVars);
      var solarPower := solar.Tick(context, lunarPhase);

      reactorState := reactorState.Tick(context);

      TickBattery(context);
    }

    /** The battery acts on the imbalance before it; its exchange is folded into the totals. */
    method TickBattery(context: TickContext)
      requires context.gameVars.batteryCapacity != 0.0 && context.tickDelta != 0.0
      modifies battery, this`totalGridSupply, this`totalGridDemand
      ensures battery.generatorState == old(battery.generatorState).AfterTick(context)
      ensures battery.mode == old(battery.mode)
      ensures var step := BatteryStep(battery.generatorState, battery.mode, old(battery.chargePercentage),
                                      old(totalGridDemand) - old(totalGridSupply), context);
              && battery.chargePercentage == step.chargePercentage
              && (totalGridSupply, totalGridDemand)
                 == FoldBattery(old(totalGridSupply), old(totalGridDemand), step.powerConsumed)
    {
      var powerImbalance := totalGridDemand - totalGridSupply;
      var powerConsumedByBattery := battery.Tick(context, powerImbalance);
      if powerConsumedByBattery > 0.0 {
        totalGridDemand := totalGridDemand + powerConsumedByBattery;
      } else if powerConsumedByBattery < 0.0 {
        totalGridSupply := totalGridSupply + -powerConsumedByBattery;
      }
    }

    /** The context the subsystems are ticked with, at the given clock values. */
    static function Context(gameVars: GameVariables, missionTimeSeconds: nat, lastTickTimeSeconds: nat): TickContext {
      TickContext(gameVars, missionTimeSeconds as real, missionTimeSeconds as real - lastTickTimeSeconds as real)
    }

    /** `tick`: one second of mission time. */
    method Tick(gameVars: GameVariables)
      requires Valid()
      requires gameVars.missionTimeScaleFactor != 0.0
      requires gameVars.batteryCapacity != 0.0
      requires gameVars.systemNominalPowerPnom != 0.0 && gameVars.systemInertiaH != 0.0
      requires !supplyDropFlowState.AfterTick(missionTimeSeconds + 1).1
      modifies this`missionTimeSeconds, this`lastTickTimeSeconds
      modifies this`micrometeoriteEvent, this`lunarQuakeEvent, this`solarFlareEvent
      modifies solar, this`reactorState, battery, this`totalGridSupply, this`totalGridDemand
      modifies this`frequencyHz, this`supplyDropFlowState
      ensures Valid()
      ensures missionTimeSeconds == old(missionTimeSeconds) + 1
      ensures lastTickTimeSeconds == missionTimeSeconds
      ensures micrometeoriteEvent == old(micrometeoriteEvent).AfterTick(missionTimeSeconds)
      ensures lunarQuakeEvent == old(lunarQuakeEvent).AfterTick(missionTimeSeconds)
      ensures solarFlareEvent == old(solarFlareEvent).AfterTick(missionTimeSeconds)
      ensures var context := Context(gameVars, missionTimeSeconds, old(lastTickTimeSeconds));
              && solar.generatorState == old(solar.generatorState).AfterTick(context)
              && solar.shieldsActive == old(solar.shieldsActive)
              && reactorState == old(reactorState).AfterTick(context)
              && battery.generatorState == old(battery.generatorState).AfterTick(context)
              && battery.mode == old(battery.mode)
              && var step := BatteryStep(battery.generatorState, battery.mode, old(battery.chargePercentage),
                                         old(totalGridDemand) - old(totalGridSupply), context);
                 && battery.chargePercentage == step.chargePercentage
                 && (totalGridSupply, totalGridDemand)
                    == FoldBattery(old(totalGridSupply), old(totalGridDemand), step.powerConsumed)
      ensures frequencyHz == SwingFrequency(old(frequencyHz), totalGridSupply, totalGridDemand,
                                            gameVars.systemInertiaH, gameVars.systemNominalPowerPnom,
                                            missionTimeSeconds - old(lastTickTimeSeconds))
      ensures supplyDropFlowState == old(supplyDropFlowState).AfterTick(missionTimeSeconds).0
    {
      missionTimeSeconds := missionTimeSeconds + 1;
      var context := Context(gameVars, missionTimeSeconds, lastTickTimeSeconds);

      TickEvents();

      TickPower(context);
      frequencyHz := TickFrequencyHz(gameVars);

      TickOperations();

      lastTickTimeSeconds := missionTimeSeconds;
    }
  }

  /** Each tick integrates over exactly one second. */
  lemma TickIntegratesOneSecond(gameVars: GameVariables, missionTimeSeconds: nat, lastTickTimeSeconds: nat)
    requires lastTickTimeSeconds == missionTimeSeconds
    ensures GameState.Context(gameVars, missionTimeSeconds + 1, lastTickTimeSeconds).tickDelta == 1.0
  {
  }
}
