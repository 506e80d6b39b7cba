/**
 * The solar array (solar.rs): a generator health state plus a shield switch.
 * Output is gated by health, by day and night, and by the shields.
 *
 * The Day output is `solar_nominal_output * damage_percentage / 100` as the code
 * is written: it grows with the damage, so an undamaged array yields nothing.
 */
module Solar {
  import opened Config
  import opened Damages
  import opened Generators
  import opened Lunar

  /** The power the array produces in the given (already ticked) health state. */
  function SolarOutput(gen: GeneratorState, shieldsActive: bool, lunarPhase: LunarPhase, nominal: real): (r: real)
    ensures !gen.Online? ==> r == 0.0
    ensures lunarPhase.Night? || shieldsActive ==> r == 0.0
    ensures gen.Online? && lunarPhase.Day? && !shieldsActive ==> r == gen.damage.InverseApply(nominal)
    ensures gen.Valid() && 0.0 <= nominal ==> 0.0 <= r <= nominal
  {
    if !gen.Online? then 0.0
    else
      var damagePercentage := gen.damage.Percentage();
      match lunarPhase
      case Day(_) => if !shieldsActive then nominal * (damagePercentage / 100.0) else 0.0
      case Night(_) => 0.0
  }

  class SolarState {
    var generatorState: GeneratorState
    var shieldsActive: bool

    /** `SolarState::new()`: a default (undamaged, Online) generator, shields off. */
    constructor ()
      ensures generatorState == Default() && !shieldsActive
    {
      generatorState := Default();
      shieldsActive := false;
    }

    /** `tick`: the generator is ticked first; the output depends on its new state. */
    method Tick(context: TickContext, lunarPhase: LunarPhase) returns (power: real)
      modifies this
      ensures generatorState == old(generatorState).AfterTick(context)
      ensures shieldsActive == old(shieldsActive)
      ensures power == SolarOutput(generatorState, shieldsActive, lunarPhase, context.gameVars.solarNominalOutput)
    {
      generatorState := generatorState.Tick(context);
      if !generatorState.Online? {
        return 0.0;
      }
      var damagePercentage := generatorState.damage.Percentage();
      match lunarPhase
      case Day(_) =>
        if !shieldsActive {
          power := context.gameVars.solarNominalOutput * (damagePercentage / 100.0);
        } else {
          power := 0.0;
        }
      case Night(_) =>
        power := 0.0;
    }
  }

  /** As written, an undamaged array produces nothing in any phase. */
  lemma UndamagedArrayYieldsNothing(shieldsActive: bool, lunarPhase: LunarPhase, nominal: real)
    ensures SolarOutput(Default(), shieldsActive, lunarPhase, nominal) == 0.0
  {
  }

  /** A repair that is due this tick counts as Online for this tick's output. */
  lemma FinishedRepairIsOnline(eventEnd: real, context: TickContext, shieldsActive: bool, lunarPhase: LunarPhase)
    requires context.missionTime >= eventEnd
    ensures Repairing(eventEnd).AfterTick(context).Online?
    ensures SolarOutput(Repairing(eventEnd).AfterTick(context), shieldsActive, lunarPhase, context.gameVars.solarNominalOutput)
            == SolarOutput(Default(), shieldsActive, lunarPhase, context.gameVars.solarNominalOutput)
  {
  }
}
