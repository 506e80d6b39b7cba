/**
 * The immutable balancing configuration and the per-tick context.
 *
 * The repository is mid-refactor and its files disagree about field names; this
 * model uses one consistent representation:
 *  - the configuration holds the union of the fields the core reads
 *    (`repair_time` and `reactor_power_ramp_rate` are read by generator.rs and
 *    reactor.rs although the config struct lacks them; `battery_capacity` is the
 *    struct's `battery_capacity_kwh`);
 *  - a tick context is the triple {configuration, mission time, tick delta};
 *  - physical quantities are plain reals; unit conversions that are identities on
 *    the same quantity (kW to W, Wh to kWh) are not modelled.
 */
module Config {

  datatype GameVariables = GameVariables(
    systemInertiaH: real,
    systemNominalPowerPnom: real,
    missionTimeScaleFactor: real,
    repairTime: real,
    solarNominalOutput: real,
    batteryCapacity: real,
    reactorNominalOutput: real,
    reactorPowerRampRate: real,
    supplyDropDockingDuration: real)

  datatype TickContext = TickContext(
    gameVars: GameVariables,
    missionTime: real,
    tickDelta: real)
}
