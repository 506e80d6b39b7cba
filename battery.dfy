/**
 * The battery bank (battery.rs): a generator health state, a charge percentage
 * and an operating mode. Each tick it exchanges power with the grid according to
 * its mode and the signed grid imbalance (demand minus supply: positive means a
 * shortfall, negative a surplus). The value it returns is the power it consumed
 * from the grid: positive while charging, negative while discharging.
 *
 * Energy is `capacity * charge / 100`; the watt/kilowatt and watt-hour/kilowatt-hour
 * conversions of the source are identities on the same quantity and are not
 * modelled. The source divides by the tick length and by the capacity, so the
 * operations that reach those divisions require both to be nonzero.
 */
module Batteries {
  import opened Numeric
  import opened Config
  import opened Damages
  import opened Generators

  datatype BatteryMode = Auto | Charge | Discharge

  /** What one tick does to the charge, and what it returns. */
  datatype Exchange = Exchange(chargePercentage: real, powerConsumed: real)

  /** The charge percentage once `energyDelta` has been added to the stored energy. */
  function ChargeAfterEnergy(capacity: real, chargePercentage: real, energyDelta: real): real
    requires capacity != 0.0
  {
    (capacity * (chargePercentage / 100.0) + energyDelta) / capacity * 100.0
  }

  /** Adding energy moves the percentage by 100 * energy / capacity. */
  lemma ChargeAfterEnergyShift(capacity: real, chargePercentage: real, energyDelta: real)
    requires capacity != 0.0
    ensures ChargeAfterEnergy(capacity, chargePercentage, energyDelta)
            == chargePercentage + 100.0 * energyDelta / capacity
  {
    var stored := capacity * (chargePercentage / 100.0);
    assert stored / capacity == chargePercentage / 100.0;
    assert (stored + energyDelta) / capacity == stored / capacity + energyDelta / capacity;
    assert (stored + energyDelta) / capacity * 100.0 == chargePercentage + energyDelta / capacity * 100.0;
  }

  /** The most the Charge arm may draw in one tick: the damage-derated capacity spread over the tick. */
  function MaxChargePower(capacity: real, damagePercentage: real, tickDelta: real): real
    requires tickDelta != 0.0
  {
    var effectiveCapacity := capacity * (1.0 - damagePercentage / 100.0);
    effectiveCapacity / tickDelta
  }

  /** The most the Discharge arm may supply in one tick: the damage-derated stored energy spread over the tick. */
  function MaxDischargePower(capacity: real, chargePercentage: real, damagePercentage: real, tickDelta: real): real
    requires tickDelta != 0.0
  {
    var currentEnergyAvailable := capacity * (chargePercentage / 100.0);
    var effectiveCurrentEnergy := currentEnergyAvailable * (1.0 - damagePercentage / 100.0);
    effectiveCurrentEnergy / tickDelta
  }

  /** The Charge arm: draw the surplus, at most the derated capacity per tick; cap at 100 after adding. */
  function ChargeArm(chargePercentage: real, damagePercentage: real, powerImbalance: real,
                     capacity: real, tickDelta: real): Exchange
    requires capacity != 0.0 && tickDelta != 0.0
  {
    var actualChargePower := Min(-powerImbalance, MaxChargePower(capacity, damagePercentage, tickDelta));
    if actualChargePower > 0.0 then
      Exchange(Min(ChargeAfterEnergy(capacity, chargePercentage, actualChargePower * tickDelta), 100.0),
               actualChargePower)
    else
      Exchange(chargePercentage, 0.0)
  }

  /** The Discharge arm: cover the shortfall, at most the derated stored energy per tick; floor at 0. */
  function DischargeArm(chargePercentage: real, damagePercentage: real, powerImbalance: real,
                        capacity: real, tickDelta: real): Exchange
    requires capacity != 0.0 && tickDelta != 0.0
  {
    var actualDischargePower := Min(powerImbalance, MaxDischargePower(capacity, chargePercentage, damagePercentage, tickDelta));
    if actualDischargePower > 0.0 then
      Exchange(Max(ChargeAfterEnergy(capacity, chargePercentage, -(actualDischargePower * tickDelta)), 0.0),
               -actualDischargePower)
    else
      Exchange(chargePercentage, 0.0)
  }

  /** The Auto arm: an undamaged battery soaks up the whole surplus and never discharges; a damaged one idles. */
  function AutoArm(chargePercentage: real, damagePercentage: real, powerImbalance: real,
                   capacity: real, tickDelta: real): Exchange
    requires capacity != 0.0
  {
    if damagePercentage == 0.0 && powerImbalance < 0.0 then
      var chargePower := -powerImbalance;
      Exchange(Min(ChargeAfterEnergy(capacity, chargePercentage, chargePower * tickDelta), 100.0), chargePower)
    else
      Exchange(chargePercentage, 0.0)
  }

  /** One tick given the generator state after its own tick: a battery that is not Online idles. */
  function BatteryStep(gen: GeneratorState, mode: BatteryMode, chargePercentage: real,
                       powerImbalance: real, context: TickContext): (r: Exchange)
    requires context.gameVars.batteryCapacity != 0.0 && context.tickDelta != 0.0
    ensures !gen.Online? ==> r == Exchange(chargePercentage, 0.0)
    ensures r.powerConsumed == 0.0 ==> r.chargePercentage == chargePercentage
    ensures 0.0 <= r.powerConsumed <= -powerImbalance || -powerImbalance <= r.powerConsumed <= 0.0
    ensures r.powerConsumed < 0.0 ==> mode == Discharge
  {
    if !gen.Online? then Exchange(chargePercentage, 0.0)
    else
      var damagePercentage := gen.damage.Percentage();
      var capacity := context.gameVars.batteryCapacity;
      match mode
      case Charge => ChargeArm(chargePercentage, damagePercentage, powerImbalance, capacity, context.tickDelta)
      case Discharge => DischargeArm(chargePercentage, damagePercentage, powerImbalance, capacity, context.tickDelta)
      case Auto => AutoArm(chargePercentage, damagePercentage, powerImbalance, capacity, context.tickDelta)
  }

  class Battery {
    var generatorState: GeneratorState
    var chargePercentage: real
    var mode: BatteryMode

    /** `Battery::new()`: a default generator, fully charged, in Auto mode. */
    constructor ()
      ensures generatorState == Default() && chargePercentage == 100.0 && mode == Auto
    {
      generatorState := Default();
      chargePercentage := 100.0;
      mode := Auto;
    }

    /** `set_mode`: only the mode changes. */
    method SetMode(newMode: BatteryMode)
      modifies this
      ensures mode == newMode
      ensures generatorState == old(generatorState) && chargePercentage == old(chargePercentage)
    {
      mode := newMode;
    }

    /** `tick`: tick the generator, then exchange power with the grid by mode. */
    method Tick(context: TickContext, powerImbalance: real) returns (powerConsumed: real)
      requires context.gameVars.batteryCapacity != 0.0 && context.tickDelta != 0.0
      modifies this
      ensures generatorState == old(generatorState).AfterTick(context)
      ensures Exchange(chargePercentage, powerConsumed)
              == BatteryStep(generatorState, mode, old(chargePercentage), powerImbalance, context)
      ensures mode == old(mode)
    {
      generatorState := generatorState.Tick(context);
      if !generatorState.Online? {
        return 0.0;
      }
      var damagePercentage := generatorState.damage.Percentage();
      powerConsumed := ExchangeByMode(context.gameVars.batteryCapacity, context.tickDelta, damagePercentage, powerImbalance);
    }

    /** The match on the mode, for an Online battery with the given damage percentage. */
    method ExchangeByMode(capacity: real, tickDelta: real, damagePercentage: real, powerImbalance: real)
      returns (powerConsumed: real)
      requires capacity != 0.0 && tickDelta != 0.0
      modifies this
      ensures var e := old(chargePercentage);
              Exchange(chargePercentage, powerConsumed) ==
                match mode
                case Charge => ChargeArm(e, damagePercentage, powerImbalance, capacity, tickDelta)
                case Discharge => DischargeArm(e, damagePercentage, powerImbalance, capacity, tickDelta)
                case Auto => AutoArm(e, damagePercentage, powerImbalance, capacity, tickDelta)
      ensures generatorState == old(generatorState) && mode == old(mode)
    {
      match mode
      case Charge => powerConsumed := ChargeStep(capacity, tickDelta, damagePercentage, powerImbalance);
      case Discharge => powerConsumed := DischargeStep(capacity, tickDelta, damagePercentage, powerImbalance);
      case Auto => powerConsumed := AutoStep(capacity, tickDelta, damagePercentage, powerImbalance);
    }

    method ChargeStep(capacity: real, tickDelta: real, damagePercentage: real, powerImbalance: real)
      returns (powerConsumed: real)
      requires capacity != 0.0 && tickDelta != 0.0
      modifies this
      ensures Exchange(chargePercentage, powerConsumed)
              == ChargeArm(old(chargePercentage), damagePercentage, powerImbalance, capacity, tickDelta)
      ensures generatorState == old(generatorState) && mode == old(mode)
    {
      powerConsumed := 0.0;
      var maxChargePower := MaxChargePower(capacity, damagePercentage, tickDelta);
      var actualChargePower := Min(-powerImbalance, maxChargePower);
      if actualChargePower > 0.0 {
        var energyAdded := actualChargePower * tickDelta;
        chargePercentage := Min(ChargeAfterEnergy(capacity, chargePercentage, energyAdded), 100.0);
        powerConsumed := actualChargePower;
      }
    }

    method DischargeStep(capacity: real, tickDelta: real, damagePercentage: real, powerImbalance: real)
      returns (powerConsumed: real)
      requires capacity != 0.0 && tickDelta != 0.0
      modifies this
      ensures Exchange(chargePercentage, powerConsumed)
              == DischargeArm(old(chargePercentage), damagePercentage, powerImbalance, capacity, tickDelta)
      ensures generatorState == old(generatorState) && mode == old(mode)
    {
      powerConsumed := 0.0;
      var maxDischargePower := MaxDischargePower(capacity, chargePercentage, damagePercentage, tickDelta);
      var actualDischargePower := Min(powerImbalance, maxDischargePower);
      if actualDischargePower > 0.0 {
        var energyRemoved := actualDischargePower * tickDelta;
        chargePercentage := Max(ChargeAfterEnergy(capacity, chargePercentage, -energyRemoved), 0.0);
        powerConsumed := -actualDischargePower;
      }
    }

    method AutoStep(capacity: real, tickDelta: real, damagePercentage: real, powerImbalance: real)
      returns (powerConsumed: real)
      requires capacity != 0.0
      modifies this
      ensures Exchange(chargePercentage, powerConsumed)
              == AutoArm(old(chargePercentage), damagePercentage, powerImbalance, capacity, tickDelta)
      ensures generatorState == old(generatorState) && mode == old(mode)
    {
      powerConsumed := 0.0;
      if damagePercentage == 0.0 {
        if powerImbalance < 0.0 {
          var chargePower := -powerImbalance;
          var energyAdded := chargePower * tickDelta;
          chargePercentage := Min(ChargeAfterEnergy(capacity, chargePercentage, energyAdded), 100.0);
          powerConsumed := chargePower;
        }
      } else {
        powerConsumed := 0.0;
      }
    }
  }

  /** Charge mode draws p = min(surplus, derated capacity per tick) when p > 0, and caps the charge after adding. */
  lemma ChargeModeTick(damage: Damage, chargePercentage: real, powerImbalance: real, context: TickContext)
    requires context.gameVars.batteryCapacity > 0.0 && context.tickDelta > 0.0
    ensures var capacity := context.gameVars.batteryCapacity;
            var p := Min(-powerImbalance, damage.Apply(capacity) / context.tickDelta);
            var r := BatteryStep(Online(damage), Charge, chargePercentage, powerImbalance, context);
            && (p > 0.0 ==> r == Exchange(Min(chargePercentage + 100.0 * (p * context.tickDelta) / capacity, 100.0), p))
            && (p <= 0.0 ==> r == Exchange(chargePercentage, 0.0))
  {
    var capacity := context.gameVars.batteryCapacity;
    DeratedByPercentage(damage, capacity);
    var p := Min(-powerImbalance, damage.Apply(capacity) / context.tickDelta);
    assert MaxChargePower(capacity, damage.Percentage(), context.tickDelta) == damage.Apply(capacity) / context.tickDelta;
    ChargeAfterEnergyShift(capacity, chargePercentage, p * context.tickDelta);
  }

  /** The percentage form `x * (1 - damage_percentage / 100)` is `apply`. */
  lemma DeratedByPercentage(damage: Damage, x: real)
    ensures x * (1.0 - damage.Percentage() / 100.0) == damage.Apply(x)
  {
    assert damage.Percentage() / 100.0 == damage.value;
  }

  /** A full, undamaged battery in Charge mode still reports the whole surplus as consumed. */
  lemma ChargeConsumesThoughFull()
    ensures var context := TickContext(GameVariables(0.0, 0.0, 0.0, 0.0, 0.0, 50.0, 0.0, 0.0, 0.0), 1.0, 1.0);
            BatteryStep(Default(), Charge, 100.0, -10.0, context) == Exchange(100.0, 10.0)
  {
    assert Undamaged().Percentage() == 0.0;
    assert MaxChargePower(50.0, 0.0, 1.0) == 50.0;
    assert ChargeAfterEnergy(50.0, 100.0, 10.0) == 120.0;
    assert ChargeArm(100.0, 0.0, -10.0, 50.0, 1.0) == Exchange(100.0, 10.0);
  }

  /**
   * Discharge mode supplies q = min(shortfall, derated stored energy per tick) when q > 0.
   * For a valid damage and a nonnegative charge the floor at 0 never binds: at least
   * the damaged fraction of the charge remains.
   */
  lemma DischargeModeTick(damage: Damage, chargePercentage: real, powerImbalance: real, context: TickContext)
    requires context.gameVars.batteryCapacity > 0.0 && context.tickDelta > 0.0
    requires damage.Valid() && 0.0 <= chargePercentage
    ensures var capacity := context.gameVars.batteryCapacity;
            var stored := capacity * (chargePercentage / 100.0);
            var q := Min(powerImbalance, damage.Apply(stored) / context.tickDelta);
            var r := BatteryStep(Online(damage), Discharge, chargePercentage, powerImbalance, context);
            && (q > 0.0 ==> r == Exchange(chargePercentage - 100.0 * (q * context.tickDelta) / capacity, -q))
            && (q > 0.0 ==> chargePercentage * damage.value <= r.chargePercentage <= chargePercentage)
            && (q <= 0.0 ==> r == Exchange(chargePercentage, 0.0))
  {
    DischargeArmTick(damage, chargePercentage, powerImbalance, context.gameVars.batteryCapacity, context.tickDelta);
  }

  /** The Discharge arm in closed form, for an Online battery with the given damage. */
  lemma DischargeArmTick(damage: Damage, chargePercentage: real, powerImbalance: real, capacity: real, dt: real)
    requires capacity > 0.0 && dt > 0.0
    requires damage.Valid() && 0.0 <= chargePercentage
    ensures var q := Min(powerImbalance, damage.Apply(capacity * (chargePercentage / 100.0)) / dt);
            var r := DischargeArm(chargePercentage, damage.Percentage(), powerImbalance, capacity, dt);
            && (q > 0.0 ==> r == Exchange(chargePercentage - 100.0 * (q * dt) / capacity, -q))
            && (q > 0.0 ==> chargePercentage * damage.value <= r.chargePercentage <= chargePercentage)
            && (q <= 0.0 ==> r == Exchange(chargePercentage, 0.0))
  {
    var stored := capacity * (chargePercentage / 100.0);
    var q := Min(powerImbalance, damage.Apply(stored) / dt);
    assert MaxDischargePower(capacity, chargePercentage, damage.Percentage(), dt) == damage.Apply(stored) / dt by {
      DeratedByPercentage(damage, stored);
    }
    if q > 0.0 {
      DischargeLeavesDamagedShare(damage, capacity, chargePercentage, q, dt);
    }
  }

  /** Removing q over a tick, with q within the derated stored energy per tick, leaves the damaged share. */
  lemma DischargeLeavesDamagedShare(damage: Damage, capacity: real, chargePercentage: real, q: real, dt: real)
    requires capacity > 0.0 && dt > 0.0 && damage.Valid() && 0.0 <= chargePercentage
    requires 0.0 < q <= damage.Apply(capacity * (chargePercentage / 100.0)) / dt
    ensures ChargeAfterEnergy(capacity, chargePercentage, -(q * dt)) == chargePercentage - 100.0 * (q * dt) / capacity
    ensures chargePercentage * damage.value <= chargePercentage - 100.0 * (q * dt) / capacity <= chargePercentage
  {
    var stored := capacity * (chargePercentage / 100.0);
    var removed := q * dt;
    ChargeAfterEnergyShift(capacity, chargePercentage, -removed);
    MulBoundByQuotient(q, damage.Apply(stored), dt);
    assert damage.Apply(stored) == stored - stored * damage.value;
    ShareOfCapacity(capacity, chargePercentage, damage.value, removed);
    assert 0.0 <= removed;
    DivMonotone(0.0, 100.0 * removed, capacity);
  }

  /** From q <= a / t with t > 0 follows q * t <= a. */
  lemma MulBoundByQuotient(q: real, a: real, t: real)
    requires t > 0.0 && q <= a / t
    ensures q * t <= a
  {
    assert (a / t) * t == a;
  }

  /** Removing at most the undamaged part of the stored energy leaves at least the damaged share of the charge. */
  lemma ShareOfCapacity(capacity: real, chargePercentage: real, v: real, removed: real)
    requires capacity > 0.0 && 0.0 <= removed
    requires removed <= capacity * (chargePercentage / 100.0) - capacity * (chargePercentage / 100.0) * v
    ensures chargePercentage * v <= chargePercentage - 100.0 * removed / capacity
  {
    var stored := capacity * (chargePercentage / 100.0);
    assert 100.0 * removed / capacity <= 100.0 * (stored - stored * v) / capacity by {
      DivMonotone(100.0 * removed, 100.0 * (stored - stored * v), capacity);
    }
    assert 100.0 * (stored - stored * v) / capacity == chargePercentage - chargePercentage * v;
  }

  lemma DivMonotone(a: real, b: real, c: real)
    requires c > 0.0 && a <= b
    ensures a / c <= b / c
  {
  }

  /**
   * Auto mode: an undamaged battery facing a surplus charges by all of it and caps at
   * 100; with no surplus, or with any damage, it neither charges nor discharges.
   */
  lemma AutoModeTick(damage: Damage, chargePercentage: real, powerImbalance: real, context: TickContext)
    requires context.gameVars.batteryCapacity > 0.0 && context.tickDelta > 0.0
    ensures var capacity := context.gameVars.batteryCapacity;
            var r := BatteryStep(Online(damage), Auto, chargePercentage, powerImbalance, context);
            && (damage.IsUndamaged() && powerImbalance < 0.0 ==>
                  r == Exchange(Min(chargePercentage + 100.0 * (-powerImbalance * context.tickDelta) / capacity, 100.0),
                                -powerImbalance))
            && (!damage.IsUndamaged() || powerImbalance >= 0.0 ==> r == Exchange(chargePercentage, 0.0))
  {
    var capacity := context.gameVars.batteryCapacity;
    var damagePercentage := damage.Percentage();
    assert BatteryStep(Online(damage), Auto, chargePercentage, powerImbalance, context)
           == AutoArm(chargePercentage, damagePercentage, powerImbalance, capacity, context.tickDelta);
    if damage.IsUndamaged() && powerImbalance < 0.0 {
      var energyAdded := -powerImbalance * context.tickDelta;
      assert AutoArm(chargePercentage, damagePercentage, powerImbalance, capacity, context.tickDelta)
             == Exchange(Min(ChargeAfterEnergy(capacity, chargePercentage, energyAdded), 100.0), -powerImbalance);
      ChargeAfterEnergyShift(capacity, chargePercentage, energyAdded);
    } else {
      assert damagePercentage != 0.0 || powerImbalance >= 0.0;
    }
  }

  /** A tick keeps the charge percentage within [0,100] when the damage is valid. */
  lemma ChargeStaysInRange(gen: GeneratorState, mode: BatteryMode, chargePercentage: real,
                           powerImbalance: real, context: TickContext)
    requires context.gameVars.batteryCapacity > 0.0 && context.tickDelta > 0.0
    requires gen.Valid() && 0.0 <= chargePercentage <= 100.0
    ensures 0.0 <= BatteryStep(gen, mode, chargePercentage, powerImbalance, context).chargePercentage <= 100.0
  {
    if gen.Online? {
      match mode
      case Charge => ChargeModeTick(gen.damage, chargePercentage, powerImbalance, context);
      case Discharge => DischargeModeTick(gen.damage, chargePercentage, powerImbalance, context);
      case Auto => AutoModeTick(gen.damage, chargePercentage, powerImbalance, context);
    }
  }
}
