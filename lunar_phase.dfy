/** The lunar day cycle and the time left until the next sunrise or sunset (lunar_phase.rs). */
module Lunar {

  /** 29.5 days of 24 hours, in seconds. */
  const LUNAR_DAY_SECONDS: real := 29.5 * 24.0 * 60.0 * 60.0

  datatype LunarPhase = Day(elapsed: real) | Night(elapsed: real) {

    /** The ranges the phase computation produces: a Day in the first half of the
        cycle, a Night in the second. */
    predicate WellFormed() {
      if Day? then 0.0 <= elapsed < LUNAR_DAY_SECONDS / 2.0
      else LUNAR_DAY_SECONDS / 2.0 <= elapsed < LUNAR_DAY_SECONDS
    }

    /** `remaining`: seconds until the boundary that ends this phase. */
    function Remaining(): (r: real)
      ensures elapsed + r == (if Day? then LUNAR_DAY_SECONDS / 2.0 else LUNAR_DAY_SECONDS)
      ensures WellFormed() ==> 0.0 < r <= LUNAR_DAY_SECONDS / 2.0
    {
      match this
      case Day(timeInCycle) => (LUNAR_DAY_SECONDS / 2.0) - timeInCycle
      case Night(timeInCycle) => LUNAR_DAY_SECONDS - timeInCycle
    }
  }

  lemma LunarDayLength()
    ensures LUNAR_DAY_SECONDS == 2548800.0
  {
  }
}
