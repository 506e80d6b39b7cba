/**
 * The health state machine shared by the solar array, the reactor and the
 * battery (generator.rs): Online{damage} -> Offline -> Repairing{event_end} -> Online.
 */
module Generators {
  import opened Damages
  import opened Config

  datatype GeneratorState = Online(damage: Damage) | Offline | Repairing(eventEnd: real) {

    /** The damage of an Online generator is a valid ratio. */
    predicate Valid() {
      Online? ==> damage.Valid()
    }

    /**
     * `repair` is a pure transformer: a repair already under way and an undamaged
     * generator are left alone; otherwise the deadline is `now` plus the repair
     * time scaled by the damage, an Offline generator counting as fully damaged.
     */
    function Repair(currentMissionTime: real, gameVars: GameVariables): (r: GeneratorState)
      ensures Repairing? || (Online? && damage.IsUndamaged()) ==> r == this
      ensures Online? && !damage.IsUndamaged() ==>
                r.Repairing? && r.eventEnd == currentMissionTime + gameVars.repairTime * damage.value
      ensures Offline? ==> r == Repairing(currentMissionTime + gameVars.repairTime)
      ensures Valid() && 0.0 <= gameVars.repairTime && r != this ==>
                r.Repairing? && currentMissionTime <= r.eventEnd <= currentMissionTime + gameVars.repairTime
    {
      match this
      case Repairing(_) => this
      case Online(d) =>
        if d.IsUndamaged() then this
        else Repairing(currentMissionTime + d.InverseApply(gameVars.repairTime))
      case Offline =>
        var d := OfflineDamage();
        Repairing(currentMissionTime + d.InverseApply(gameVars.repairTime))
    }

    /** The state after `damage(amount)`: only an Online generator is affected. */
    function AfterDamage(amount: real): (r: GeneratorState)
      ensures !Online? ==> r == this
      ensures Online? && damage.value + amount >= 1.0 ==> r == Offline
      ensures Online? && damage.value + amount < 1.0 ==> r == Online(Damage(damage.value + amount))
      ensures Valid() && 0.0 <= amount ==> r.Valid()
    {
      match this
      case Online(d) =>
        var d' := d.AfterDamage(amount);
        if d'.IsOffline() then Offline else Online(d')
      case Offline => this
      case Repairing(_) => this
    }

    /** The state after `tick(context)`: a due repair completes, nothing else changes. */
    function AfterTick(context: TickContext): (r: GeneratorState)
      ensures r.Online? && r.damage.IsUndamaged() <==>
                (Online? && damage.IsUndamaged()) || (Repairing? && context.missionTime >= eventEnd)
      ensures !(Repairing? && context.missionTime >= eventEnd) ==> r == this
      ensures !(r.Repairing? && context.missionTime >= r.eventEnd)
      ensures Valid() ==> r.Valid()
    {
      match this
      case Repairing(eventEnd) =>
        if context.missionTime >= eventEnd then Online(Undamaged()) else this
      case Online(_) => this
      case Offline => this
    }

    /** `damage(&mut self, amount)`: damages the ratio in place and may overwrite the state with Offline. */
    method AddDamage(amount: real) returns (next: GeneratorState)
      ensures next == AfterDamage(amount)
    {
      next := this;
      match this
      case Online(d) =>
        var d' := d.AddDamage(amount);
        next := Online(d');
        if d'.IsOffline() {
          next := Offline;
        }
      case Offline =>
      case Repairing(_) =>
    }

    /** `tick(&mut self, context)`: overwrites the state when the repair deadline has passed. */
    method Tick(context: TickContext) returns (next: GeneratorState)
      ensures next == AfterTick(context)
    {
      next := this;
      if Repairing? && context.missionTime >= eventEnd {
        next := Online(Undamaged());
      }
    }
  }

  /** The derived `Default` (and the `GeneratorState::new()` the older callers use). */
  function Default(): (g: GeneratorState)
    ensures g.Online? && g.damage.IsUndamaged() && g.Valid()
  {
    Online(Undamaged())
  }

  /** `tick` is idempotent: a second tick at the same mission time changes nothing. */
  lemma TickIdempotent(g: GeneratorState, context: TickContext)
    ensures g.AfterTick(context).AfterTick(context) == g.AfterTick(context)
  {
  }

  /** The full lifecycle: saturating damage takes a generator Offline, a repair then
      takes the full repair time, and a tick past the deadline brings it back undamaged. */
  lemma Lifecycle(d: Damage, amount: real, now: real, gameVars: GameVariables, context: TickContext)
    requires d.Valid() && d.value + amount >= 1.0
    requires context.missionTime >= now + gameVars.repairTime
    ensures Online(d).AfterDamage(amount) == Offline
    ensures Offline.Repair(now, gameVars) == Repairing(now + gameVars.repairTime)
    ensures Repairing(now + gameVars.repairTime).AfterTick(context) == Default()
  {
  }
}
