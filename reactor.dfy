/**
 * The fission reactor (reactor.rs). Its output ramps toward a commanded target at
 * a bounded rate, capped by the damage-derated nominal output, and ramps down to
 * zero whenever the generator is not Online.
 */
module Reactors {
  import opened Numeric
  import opened Config
  import opened Damages
  import opened Generators

  /** `set_target_power_output`: `target.min(nominal).max(0)`. */
  function ClampTarget(target: real, nominal: real): (r: real)
    ensures 0.0 <= r
    ensures 0.0 <= nominal ==> r <= nominal
    ensures 0.0 <= target <= nominal ==> r == target
    ensures 0.0 <= nominal < target ==> r == nominal
    ensures target <= 0.0 ==> r == 0.0
  {
    Max(Min(target, nominal), 0.0)
  }

  /** One ramp step from `x` toward `goal`, by at most `ramp`. */
  function RampToward(x: real, goal: real, ramp: real): real {
    if x < goal then Min(x + ramp, goal)
    else if x > goal then Max(x - ramp, goal)
    else x
  }

  /** A ramp step stays between start and goal, moves at most `ramp`, and closes the gap by exactly `ramp` unless it arrives. */
  lemma RampTowardSteps(x: real, goal: real, ramp: real)
    requires 0.0 <= ramp
    ensures var r := RampToward(x, goal, ramp);
            && Min(x, goal) <= r <= Max(x, goal)
            && Abs(r - x) <= ramp
            && (Abs(goal - x) <= ramp ==> r == goal)
            && (Abs(goal - x) > ramp ==> Abs(goal - r) == Abs(goal - x) - ramp)
  {
  }

  /** The Online arm: ramp toward min(target, derated nominal), then re-clamp to [0, derated nominal]. */
  function OnlineOutput(powerOutput: real, targetPowerOutput: real, effectiveNominalPower: real, rampAmount: real): real {
    var currentTarget := Min(targetPowerOutput, effectiveNominalPower);
    Min(Max(RampToward(powerOutput, currentTarget, rampAmount), 0.0), effectiveNominalPower)
  }

  /** The arm shared by Offline and Repairing: ramp toward zero, ignoring the target. */
  function DownOutput(powerOutput: real, rampAmount: real): real {
    if powerOutput > 0.0 then Max(powerOutput - rampAmount, 0.0) else 0.0
  }

  /** The output after one tick, given the generator state after its own tick. */
  function ReactorOutput(gen: GeneratorState, powerOutput: real, targetPowerOutput: real, context: TickContext): real {
    if gen.Online? then
      OnlineOutput(powerOutput, targetPowerOutput, gen.damage.Apply(context.gameVars.reactorNominalOutput),
                   context.gameVars.reactorPowerRampRate * context.tickDelta)
    else
      DownOutput(powerOutput, context.gameVars.reactorPowerRampRate * context.tickDelta)
  }

  class Reactor {
    var generatorState: GeneratorState
    var coreTemperature: real
    var coolantLevel: real
    var powerOutput: real
    var targetPowerOutput: real

    /** The derived `Default`: a default generator and every quantity zero. */
    constructor ()
      ensures generatorState == Default()
      ensures coreTemperature == 0.0 && coolantLevel == 0.0
      ensures powerOutput == 0.0 && targetPowerOutput == 0.0
    {
      generatorState := Default();
      coreTemperature := 0.0;
      coolantLevel := 0.0;
      powerOutput := 0.0;
      targetPowerOutput := 0.0;
    }

    /** `set_target_power_output`: accepted in every generator state; only the target changes. */
    method SetTargetPowerOutput(targetPower: real, gameVars: GameVariables)
      modifies this
      ensures targetPowerOutput == ClampTarget(targetPower, gameVars.reactorNominalOutput)
      ensures generatorState == old(generatorState) && powerOutput == old(powerOutput)
      ensures coreTemperature == old(coreTemperature) && coolantLevel == old(coolantLevel)
    {
      var nominalPower := gameVars.reactorNominalOutput;
      targetPowerOutput := Max(Min(targetPower, nominalPower), 0.0);
    }

    /** `tick`: tick the generator, then ramp (and re-clamp) the output; returns the new output. */
    method Tick(context: TickContext) returns (power: real)
      modifies this
      ensures generatorState == old(generatorState).AfterTick(context)
      ensures powerOutput == ReactorOutput(generatorState, old(powerOutput), targetPowerOutput, context)
      ensures power == powerOutput
      ensures targetPowerOutput == old(targetPowerOutput)
      ensures coreTemperature == old(coreTemperature) && coolantLevel == old(coolantLevel)
    {
      generatorState := generatorState.Tick(context);
      RampOutput(context);
      power := powerOutput;
    }

    /** Everything after the generator tick: ramp by the arm the new generator state selects. */
    method RampOutput(context: TickContext)
      modifies this
      ensures powerOutput == ReactorOutput(generatorState, old(powerOutput), targetPowerOutput, context)
      ensures generatorState == old(generatorState) && targetPowerOutput == old(targetPowerOutput)
      ensures coreTemperature == old(coreTemperature) && coolantLevel == old(coolantLevel)
    {
      var rampAmount := context.gameVars.reactorPowerRampRate * context.tickDelta;
      if generatorState.Online? {
        var effectiveNominalPower := generatorState.damage.Apply(context.gameVars.reactorNominalOutput);
        RampOnline(effectiveNominalPower, rampAmount);
      } else {
        RampDown(rampAmount);
      }
    }

    method RampOnline(effectiveNominalPower: real, rampAmount: real)
      modifies this
      ensures powerOutput == OnlineOutput(old(powerOutput), targetPowerOutput, effectiveNominalPower, rampAmount)
      ensures generatorState == old(generatorState) && targetPowerOutput == old(targetPowerOutput)
      ensures coreTemperature == old(coreTemperature) && coolantLevel == old(coolantLevel)
    {
      var currentTarget := Min(targetPowerOutput, effectiveNominalPower);
      if powerOutput < currentTarget {
        powerOutput := Min(powerOutput + rampAmount, currentTarget);
      } else if powerOutput > currentTarget {
        powerOutput := Max(powerOutput - rampAmount, currentTarget);
      }
      powerOutput := Min(Max(powerOutput, 0.0), effectiveNominalPower);
    }

    method RampDown(rampAmount: real)
      modifies this
      ensures powerOutput == DownOutput(old(powerOutput), rampAmount)
      ensures generatorState == old(generatorState) && targetPowerOutput == old(targetPowerOutput)
      ensures coreTemperature == old(coreTemperature) && coolantLevel == old(coolantLevel)
    {
      if powerOutput > 0.0 {
        powerOutput := Max(powerOutput - rampAmount, 0.0);
      } else {
        powerOutput := 0.0;
      }
    }
  }

  /** An Online reactor never exceeds its damage-derated nominal output, nor drops below zero. */
  lemma OnlineOutputBounds(damage: Damage, powerOutput: real, targetPowerOutput: real, context: TickContext)
    requires damage.Valid() && 0.0 <= context.gameVars.reactorNominalOutput
    ensures 0.0 <= ReactorOutput(Online(damage), powerOutput, targetPowerOutput, context)
                <= damage.Apply(context.gameVars.reactorNominalOutput)
  {
  }

  /**
   * An Online reactor starting within its limits moves toward min(target, derated
   * nominal) by at most one ramp step, never passes it, reaches it when it is
   * within one step, and stays put once there.
   */
  lemma OnlineRampsTowardTarget(damage: Damage, powerOutput: real, targetPowerOutput: real, context: TickContext)
    requires damage.Valid() && 0.0 <= context.gameVars.reactorNominalOutput
    requires 0.0 <= context.gameVars.reactorPowerRampRate && 0.0 <= context.tickDelta
    requires 0.0 <= targetPowerOutput
    requires 0.0 <= powerOutput <= damage.Apply(context.gameVars.reactorNominalOutput)
    ensures var goal := Min(targetPowerOutput, damage.Apply(context.gameVars.reactorNominalOutput));
            var ramp := context.gameVars.reactorPowerRampRate * context.tickDelta;
            var r := ReactorOutput(Online(damage), powerOutput, targetPowerOutput, context);
            && Min(powerOutput, goal) <= r <= Max(powerOutput, goal)
            && Abs(r - powerOutput) <= ramp
            && (Abs(goal - powerOutput) <= ramp ==> r == goal)
            && (Abs(goal - powerOutput) > ramp ==> Abs(goal - r) == Abs(goal - powerOutput) - ramp)
  {
    var ramp := context.gameVars.reactorPowerRampRate * context.tickDelta;
    assert 0.0 <= ramp;
  }

  /** Offline or Repairing: the output ramps down to zero, whatever the target. */
  lemma DownRampIgnoresTarget(gen: GeneratorState, powerOutput: real, t1: real, t2: real, context: TickContext)
    requires !gen.Online?
    requires 0.0 <= context.gameVars.reactorPowerRampRate && 0.0 <= context.tickDelta
    ensures ReactorOutput(gen, powerOutput, t1, context) == ReactorOutput(gen, powerOutput, t2, context)
    ensures var r := ReactorOutput(gen, powerOutput, t1, context);
            && 0.0 <= r
            && (powerOutput <= 0.0 ==> r == 0.0)
            && (0.0 < powerOutput ==> powerOutput - context.gameVars.reactorPowerRampRate * context.tickDelta <= r <= powerOutput)
  {
    var ramp := context.gameVars.reactorPowerRampRate * context.tickDelta;
    assert 0.0 <= ramp;
  }

  /** The generator is ticked before ramping: a repair due this tick ramps as an undamaged Online reactor. */
  lemma FinishedRepairRampsAsOnline(eventEnd: real, powerOutput: real, targetPowerOutput: real, context: TickContext)
    requires context.missionTime >= eventEnd
    ensures ReactorOutput(Repairing(eventEnd).AfterTick(context), powerOutput, targetPowerOutput, context)
            == ReactorOutput(Default(), powerOutput, targetPowerOutput, context)
  {
  }

  /** `n` ticks of an Online reactor whose generator state does not change. */
  function OnlineRun(damage: Damage, powerOutput: real, targetPowerOutput: real, context: TickContext, n: nat): real
    decreases n
  {
    if n == 0 then powerOutput
    else OnlineRun(damage, ReactorOutput(Online(damage), powerOutput, targetPowerOutput, context), targetPowerOutput, context, n - 1)
  }

  /** Ramping reaches min(target, derated nominal) within enough ticks and stays there. */
  lemma {:induction false} OnlineRunReachesTarget(damage: Damage, powerOutput: real, targetPowerOutput: real, context: TickContext, n: nat)
    requires damage.Valid() && 0.0 <= context.gameVars.reactorNominalOutput
    requires 0.0 <= context.gameVars.reactorPowerRampRate && 0.0 <= context.tickDelta
    requires 0.0 <= targetPowerOutput
    requires 0.0 <= powerOutput <= damage.Apply(context.gameVars.reactorNominalOutput)
    requires Abs(Min(targetPowerOutput, damage.Apply(context.gameVars.reactorNominalOutput)) - powerOutput)
             <= n as real * (context.gameVars.reactorPowerRampRate * context.tickDelta)
    ensures OnlineRun(damage, powerOutput, targetPowerOutput, context, n)
            == Min(targetPowerOutput, damage.Apply(context.gameVars.reactorNominalOutput))
    decreases n
  {
    var goal := Min(targetPowerOutput, damage.Apply(context.gameVars.reactorNominalOutput));
    var ramp := context.gameVars.reactorPowerRampRate * context.tickDelta;
    if n > 0 {
      var next := ReactorOutput(Online(damage), powerOutput, targetPowerOutput, context);
      OnlineRampsTowardTarget(damage, powerOutput, targetPowerOutput, context);
      OnlineOutputBounds(damage, powerOutput, targetPowerOutput, context);
      assert Abs(goal - next) <= (n - 1) as real * ramp;
      OnlineRunReachesTarget(damage, next, targetPowerOutput, context, n - 1);
    } else {
      assert powerOutput == goal;
    }
  }

  /** The commanded-target scenarios of the unit tests: 75 kept, 120 capped at 100, -10 floored at 0. */
  lemma TargetClampScenario()
    ensures ClampTarget(75.0, 100.0) == 75.0
    ensures ClampTarget(120.0, 100.0) == 100.0
    ensures ClampTarget(-10.0, 100.0) == 0.0
  {
  }

  /** The unit test with 25% damage, ramp 20 per second and target 90: 10, 30, 50, 70, 75, 75. */
  lemma DamagedRampScenario(context: TickContext)
    requires context.gameVars.reactorNominalOutput == 100.0
    requires context.gameVars.reactorPowerRampRate == 20.0 && context.tickDelta == 1.0
    ensures var gen := Online(New(0.25));
            var target := ClampTarget(90.0, 100.0);
            && ReactorOutput(gen, 10.0, target, context) == 30.0
            && ReactorOutput(gen, 30.0, target, context) == 50.0
            && ReactorOutput(gen, 50.0, target, context) == 70.0
            && ReactorOutput(gen, 70.0, target, context) == 75.0
            && ReactorOutput(gen, 75.0, target, context) == 75.0
  {
  }

  /**
   * The Offline and Repairing ramp-down tests: 50 -> 40 -> ... -> 0, and, with the
   * generator ticked at mission times 1, 2 and 3 before a repair due at 100,
   * 30 -> 20 -> 10 -> 0.
   */
  lemma DownRampScenario(context: TickContext)
    requires context.gameVars.reactorPowerRampRate == 10.0 && context.tickDelta == 1.0
    ensures ReactorOutput(Offline, 50.0, 50.0, context) == 40.0
    ensures OfflineRun(40.0, 50.0, context, 5) == 0.0
    ensures var c1 := TickContext(context.gameVars, 1.0, 1.0);
            var c2 := TickContext(context.gameVars, 2.0, 1.0);
            var c3 := TickContext(context.gameVars, 3.0, 1.0);
            var g1 := Repairing(100.0).AfterTick(c1);
            var g2 := g1.AfterTick(c2);
            var g3 := g2.AfterTick(c3);
            && ReactorOutput(g1, 30.0, 0.0, c1) == 20.0
            && ReactorOutput(g2, 20.0, 0.0, c2) == 10.0
            && ReactorOutput(g3, 10.0, 0.0, c3) == 0.0
  {
    assert OfflineRun(0.0, 50.0, context, 1) == 0.0;
    assert OfflineRun(10.0, 50.0, context, 2) == 0.0;
    assert OfflineRun(20.0, 50.0, context, 3) == 0.0;
    assert OfflineRun(30.0, 50.0, context, 4) == 0.0;
  }

  /** `n` ticks of an Offline reactor. */
  function OfflineRun(powerOutput: real, targetPowerOutput: real, context: TickContext, n: nat): real
    decreases n
  {
    if n == 0 then powerOutput
    else OfflineRun(ReactorOutput(Offline, powerOutput, targetPowerOutput, context), targetPowerOutput, context, n - 1)
  }
}
