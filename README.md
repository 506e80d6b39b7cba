# Lunar grid simulation core, in Dafny

This project models the simulation core of lunar-grid-guardian, a real-time
game about keeping a lunar colony's electrical grid alive. The model covers:

- the orchestrating `GameState::tick`. Every tick it:
  - advances an integer mission clock by one second;
  - ticks three hazard events (micrometeorite, lunar quake, solar flare);
  - ticks the solar array, the reactor's health state and the battery;
  - folds the battery's exchange with the grid into the supply and demand totals;
  - integrates the grid frequency with the swing equation, `d(Δf)/dt = ΔP / (2 H Pnom / f0)`;
  - ticks the supply-drop docking sequence;
- the parts it is built from:
  - the `Damage` ratio;
  - the `GeneratorState` health machine (Online / Offline / Repairing);
  - the hazard `EventState` and the supply-drop `OperationsState`;
  - the lunar day/night cycle;
  - the solar array, the fission reactor (a ramp toward a commanded target) and the battery bank (Charge / Discharge / Auto).

The Dafny modules follow the Rust files one to one:

| file | module | source |
|---|---|---|
| `damage.dfy` | `Damages` | `damage.rs` |
| `generator.dfy` | `Generators` | `generator.rs` |
| `event_state.dfy` | `Events` | `event_state.rs` |
| `operations.dfy` | `Operations` | `operations.rs` |
| `lunar_phase.dfy` | `Lunar` | `lunar_phase.rs` |
| `solar.dfy` | `Solar` | `solar.rs` |
| `reactor.dfy` | `Reactors` | `reactor.rs` |
| `battery.dfy` | `Batteries` | `battery.rs` |
| `game_state.dfy` | `Grid` | `game_state.rs` |
| `config.dfy` | `Config` | `game_variables.rs` and `tick_context.rs` |
| `numeric.dfy` | `Numeric` | `min`, `max` and `abs` on reals |

**Which Rust types become which Dafny types.**

- Values (datatypes): the Rust `Copy` types `Damage`, `GeneratorState`, `EventState` and `OperationsState`, the battery mode, and the immutable `LunarPhase`, which has no methods that change it.
- Every `&mut self` method of these `Copy` types becomes an `AfterX` function (the specification) plus an imperative method. The method returns the successor value and is proved equal to that function. The owning object writes the successor back into its field.
- Classes with `modifies` frames: `SolarState`, `Reactor`, `Battery` and `GameState`, whose fields the source updates in place.

**Physical quantities** (`uom` types and `f32`) are modelled as mathematical reals. The conversions between watts and kilowatts, and between watt-hours and kilowatt-hours, cancel out, so they are not written.

**The source is partway through a refactor.** The model follows one consistent reading of it:

- Damage is a ratio in [0,1]. The older `damage_percentage` that the battery and solar code read is `100 * ratio` (`Damage.Percentage`).
- Every subsystem is ticked with the `TickContext` {configuration, mission time, time since the previous tick}. `GameState.Tick` builds this context from its two clock fields (`GameState.Context`). When the clock is up to date (`last_tick_time_seconds == mission_time_seconds`, as after `new()` and after every `Tick`), the next tick integrates over exactly one second (`TickIntegratesOneSecond`). The invariant `GameState.Valid()` only says that the last tick is not in the future.

**Where the code and its documentation disagree, the model follows the code:**

- The solar Day output is `nominal * damage_percentage / 100`. It grows with the damage, so an undamaged array produces nothing (`UndamagedArrayYieldsNothing`).
- The battery clamps the charge to [0,100] after adding or removing energy, not before. In Charge mode a full battery therefore still reports the whole draw as consumed (`ChargeConsumesThoughFull`).
- The frequency uses `ΔP = supply − demand`, while the battery is handed `demand − supply`.
- In `GameState::tick`:
  - the solar output is computed and then dropped;
  - the reactor is a bare `GeneratorState`, which only has its repair completed;
  - the supply-drop sequence is ticked after the frequency;
  - the supply and demand totals are never reset;
  - game over is `colony_health <= 0`, or a frequency more than 0.5 Hz away from 50 Hz.

## Model

| member | source | states |
|---|---|---|
| Damages.Damage.Percentage | src/damage.rs:8-11 | the percentage view of a valid ratio lies in [0,100] and is 0 exactly when undamaged |
| Damages.Damage.Apply | src/damage.rs:47-55 | scaling by the working part: within [0,x] for a valid ratio and x ≥ 0; identity when undamaged, 0 when offline |
| Damages.Damage.InverseApply | src/damage.rs:56-64 | scaling by the damaged part: within [0,x]; 0 when undamaged; x when offline |
| Damages.Damage.AfterDamage | src/damage.rs:29-34 | adds the amount and saturates at 1 (offline); no lower clamp; a valid ratio stays valid and never decreases under a nonnegative amount |
| Damages.Damage.AfterRepair | src/damage.rs:35-40 | subtracts the amount and saturates at 0 (undamaged); no upper clamp; a valid ratio stays valid and never increases |
| Damages.Damage.AddDamage | src/damage.rs:29-34 | the in-place add-then-clamp yields exactly `AfterDamage` |
| Damages.Damage.Repair | src/damage.rs:35-40 | the in-place subtract-then-clamp yields exactly `AfterRepair` |
| Damages.New | src/damage.rs:17-25 | the result is always valid; an argument in [0,1] is kept; a negative one becomes undamaged; one above 1 becomes offline |
| Damages.OfflineDamage | src/damage.rs:14-16 | `offline()` is valid, offline and not undamaged |
| Damages.Undamaged | src/damage.rs:8-11 | the derived default is valid, undamaged and not offline |
| Damages.Damage.Inner | src/damage.rs:26-28 | the ratio lies in [0,1] exactly when the damage is valid; `InnerNewRoundTrip` proves it round-trips through `new` |
| Damages.Damage.IsOffline | src/damage.rs:41-43 | ratio exactly 1; no contract of its own, `OfflineUndamagedEnds` proves that it is valid, excludes undamaged, and makes `apply` 0 and `inverse_apply` the identity |
| Damages.Damage.IsUndamaged | src/damage.rs:44-46 | ratio exactly 0; no contract of its own, `OfflineUndamagedEnds` proves that it is valid, excludes offline, and makes `apply` the identity and `inverse_apply` 0 |
| Damages.OfflineUndamagedEnds | src/damage.rs:41-64 | offline and undamaged are valid, mutually exclusive, and the two extremes of `apply` and `inverse_apply` |
| Damages.InnerNewRoundTrip | src/damage.rs:17-28 | `new(inner(d)) == d` for a valid ratio, and `inner(new(v)) == v` for v in [0,1] |
| Damages.ApplySplit | src/damage.rs:47-64 | `apply(x) + inverse_apply(x) == x` for every ratio |
| Damages.DamageRepairRoundTrip | src/damage.rs:29-40 | repairing a non-saturating damage amount restores the original ratio |
| Generators.GeneratorState.Repair | src/generator.rs:23-37 | Repairing and undamaged Online states are left alone; a damaged Online state gets the deadline now + repair_time·damage; Offline gets now + repair_time; any new deadline lies in [now, now + repair_time] |
| Generators.GeneratorState.AfterDamage | src/generator.rs:38-48 | only Online is affected; it goes Offline exactly when the damage reaches 1, otherwise its ratio grows by the amount; validity is kept |
| Generators.GeneratorState.AfterTick | src/generator.rs:50-58 | the result is undamaged Online iff the state already was, or a repair was due; nothing else changes; no due repair survives the tick; validity is kept |
| Generators.GeneratorState.AddDamage | src/generator.rs:38-48 | the in-place update equals `AfterDamage` |
| Generators.GeneratorState.Tick | src/generator.rs:50-58 | the in-place update equals `AfterTick` |
| Generators.Default | src/generator.rs:14-20 | the default generator is Online, undamaged and valid |
| Generators.TickIdempotent | src/generator.rs:50-58 | ticking twice with the same context is ticking once |
| Generators.Lifecycle | src/generator.rs:23-58 | saturating damage takes a generator Offline; its repair takes the full repair time; a tick past the deadline brings it back to the default |
| Events.EventState.AfterTick | src/event_state.rs:12-29 | a due Scheduled or Acknowledged event starts impacting until start + EVENT_DURATION; a finished impact becomes Dormant; every other state is unchanged; tick never produces Scheduled or Acknowledged from something else |
| Events.EventState.Tick | src/event_state.rs:12-29 | the guarded match that overwrites the state yields exactly `AfterTick` |
| Events.AtMostOneTransition | src/event_state.rs:12-29 | far past the impact window, one tick still only starts the impact; the second tick ends it |
| Events.AcknowledgedLikeScheduled | src/event_state.rs:12-29 | acknowledging does not change when or how an event impacts |
| Events.ImpactEndsFromStart | src/event_state.rs:1-29 | the impact ends EVENT_DURATION ticks after the scheduled start, however late it started |
| Operations.OperationsState.AfterTick | src/operations.rs:21-37 | the flag is set iff a docking was due, and then the state is Dormant; a due Scheduled drop awaits authorization; otherwise nothing changes |
| Operations.OperationsState.Tick | src/operations.rs:21-37 | the imperative tick returns exactly `AfterTick`'s state and flag |
| Operations.OperationsState.AfterAuthorize | src/operations.rs:42-51 | succeeds iff awaiting authorization, and then docking ends at now + the truncated docking duration; otherwise the state is unchanged |
| Operations.OperationsState.AuthorizeDocking | src/operations.rs:42-51 | the imperative authorization equals `AfterAuthorize` |
| Operations.New | src/operations.rs:15-17 | a new sequence is Dormant |
| Operations.DockingTicks | src/operations.rs:45 | `as u32` on the docking duration: truncation toward zero, saturating at 0 and at u32::MAX |
| Operations.Run | src/operations.rs:21-37 | repeated ticks report one flag per tick |
| Operations.DormantStaysQuiet | src/operations.rs:21-37 | a Dormant drop stays Dormant and never reports a docking |
| Operations.DockingCompletesOnce | src/operations.rs:21-37 | at non-decreasing times a docking reports completion on exactly one tick, the first at or after its end, and is Dormant afterwards |
| Operations.AuthorizeThenDock | src/operations.rs:21-51 | after a successful authorization, completion is reported once, on the first tick at or after now + docking duration |
| Lunar.LunarPhase.Remaining | src/lunar_phase.rs:11-20 | elapsed + remaining is the end of the phase (half day or full day); for a well-formed phase the remaining time is in (0, half a lunar day] |
| Lunar.LunarDayLength | src/lunar_phase.rs:1 | the lunar day is 2 548 800 seconds (29.5 days) |
| Solar.SolarOutput | src/solar.rs:21-39 | zero unless Online in the Day with shields down; then `inverse_apply(nominal)`; within [0, nominal] for a valid generator |
| Solar.SolarState.constructor | src/solar.rs:12-17 | a default generator with the shields down |
| Solar.SolarState.Tick | src/solar.rs:21-39 | ticks the generator first, keeps the shields, and returns `SolarOutput` of the new state |
| Solar.UndamagedArrayYieldsNothing | src/solar.rs:33-36 | as written, an undamaged array produces nothing |
| Solar.FinishedRepairIsOnline | src/solar.rs:27-38 | a repair due this tick produces as an undamaged Online array |
| Reactors.ClampTarget | src/reactor.rs:16-19 | the target is clamped into [0, nominal] |
| Reactors.RampTowardSteps | src/reactor.rs:29-35 | a ramp step stays between start and goal, moves at most the ramp, arrives when within one ramp, otherwise closes the gap by exactly the ramp |
| Reactors.Reactor.constructor | src/reactor.rs:8-14 | the derived default: a default generator and all quantities zero |
| Reactors.Reactor.SetTargetPowerOutput | src/reactor.rs:16-19 | only the target changes, to the clamped value, in every generator state |
| Reactors.Reactor.Tick | src/reactor.rs:21-48 | the generator is ticked, then the output ramps by the arm that the new state selects; the output is returned; target, temperature and coolant are unchanged |
| Reactors.Reactor.RampOutput | src/reactor.rs:22-46 | the ramp step after the generator tick equals `ReactorOutput` |
| Reactors.Reactor.RampOnline | src/reactor.rs:25-37 | the Online arm: ramp toward min(target, derated nominal), then re-clamp |
| Reactors.Reactor.RampDown | src/reactor.rs:38-45 | the Offline/Repairing arm: ramp toward 0 |
| Reactors.OnlineOutput | src/reactor.rs:25-37 | the Online arm: ramp toward min(target, derated nominal), then re-clamp to [0, derated nominal]; no contract of its own, its properties are proved by `OnlineOutputBounds`, `OnlineRampsTowardTarget` and `OnlineRunReachesTarget` |
| Reactors.DownOutput | src/reactor.rs:38-45 | the Offline/Repairing arm: ramp toward 0; no contract of its own, `DownRampIgnoresTarget` proves it is nonnegative, falls by at most one ramp and ignores the target |
| Reactors.ReactorOutput | src/reactor.rs:24-46 | the output after one tick, chosen by the ticked generator state; `Reactor.Tick` is proved equal to it, and the lemmas below prove its bounds, ramp and convergence |
| Reactors.OnlineOutputBounds | src/reactor.rs:25-37 | an Online reactor's output stays in [0, derated nominal] |
| Reactors.OnlineRampsTowardTarget | src/reactor.rs:25-37 | an Online reactor within its limits moves toward min(target, derated nominal) by at most one ramp step, without overshooting |
| Reactors.DownRampIgnoresTarget | src/reactor.rs:38-45 | when not Online the output ramps toward 0 by at most one step, independently of the target |
| Reactors.FinishedRepairRampsAsOnline | src/reactor.rs:21-26 | the generator is ticked before ramping, so a due repair ramps as an undamaged Online reactor |
| Reactors.OnlineRunReachesTarget | src/reactor.rs:25-37 | enough ticks reach min(target, derated nominal) and stay there |
| Reactors.TargetClampScenario | src/reactor.rs:124-164 | the unit tests' targets: 75 kept, 120 capped at 100, −10 floored at 0 |
| Reactors.DamagedRampScenario | src/reactor.rs:250-270 | 25 % damage, ramp 20, target 90: 10 → 30 → 50 → 70 → 75 → 75 |
| Reactors.DownRampScenario | src/reactor.rs:166-206 | Offline 50 → 40 → … → 0; and a repair due at 100, with the generator ticked at mission times 1, 2, 3 before each ramp: 30 → 20 → 10 → 0 |
| Batteries.ChargeAfterEnergyShift | src/battery.rs:66-76 | adding energy E moves the percentage by 100·E/capacity |
| Batteries.ChargeArm | src/battery.rs:56-79 | the Charge arm as written; no contract of its own, `ChargeModeTick` gives its closed form and `ChargeStaysInRange` its [0,100] bound |
| Batteries.DischargeArm | src/battery.rs:80-106 | the Discharge arm as written; no contract of its own, `DischargeArmTick` gives its closed form and the damaged share it keeps |
| Batteries.AutoArm | src/battery.rs:107-127 | both Auto arms as written; no contract of its own, `AutoModeTick` gives its closed form |
| Batteries.BatteryStep | src/battery.rs:47-130 | not Online: idle; no exchange keeps the charge; the consumed power lies between 0 and the surplus (−imbalance); only Discharge mode supplies power |
| Batteries.Battery.constructor | src/battery.rs:24-30 | a default generator, full charge, Auto mode |
| Batteries.Battery.SetMode | src/battery.rs:32-34 | only the mode changes |
| Batteries.Battery.Tick | src/battery.rs:47-130 | the generator is ticked, then the charge and the returned power are exactly `BatteryStep` of the new state; the mode is unchanged |
| Batteries.Battery.ExchangeByMode | src/battery.rs:55-128 | the match on the mode equals the arm of that mode |
| Batteries.Battery.ChargeStep | src/battery.rs:56-79 | the in-place Charge arm equals `ChargeArm` |
| Batteries.Battery.DischargeStep | src/battery.rs:80-106 | the in-place Discharge arm equals `DischargeArm` |
| Batteries.Battery.AutoStep | src/battery.rs:107-127 | the in-place Auto arms equal `AutoArm` |
| Batteries.ChargeModeTick | src/battery.rs:56-79 | Charge draws p = min(surplus, derated capacity / tick) when p > 0; the charge becomes min(charge + 100·p·tick/capacity, 100); otherwise nothing happens |
| Batteries.DeratedByPercentage | src/battery.rs:57-58 | the percentage derating `x·(1 − pct/100)` is `apply(x)` |
| Batteries.ChargeConsumesThoughFull | src/battery.rs:63-77 | a full undamaged battery in Charge mode still reports the whole surplus as consumed |
| Batteries.DischargeModeTick | src/battery.rs:80-106 | Discharge supplies q = min(shortfall, derated stored energy / tick) when q > 0; the charge falls by 100·q·tick/capacity and keeps at least the damaged share |
| Batteries.DischargeArmTick | src/battery.rs:80-106 | the closed form of the Discharge arm |
| Batteries.AutoModeTick | src/battery.rs:107-127 | an undamaged battery facing a surplus charges by all of it (capped at 100); with no surplus or any damage it idles |
| Batteries.ChargeStaysInRange | src/battery.rs:47-130 | every mode keeps a charge in [0,100] within [0,100] |
| Grid.Trunc | src/game_state.rs:87 | truncation toward zero of the quotient inside `f32 %` |
| Grid.TimeInCycle | src/game_state.rs:87 | the `%` remainder carries the dividend's sign: in [0, L) for nonnegative times and in (−L, 0] for negative ones |
| Grid.TimeInCyclePeriodic | src/game_state.rs:87 | for nonnegative times the cycle position repeats every lunar day |
| Grid.PhaseAt | src/game_state.rs:85-97 | Day exactly in the first half of the cycle; on a positive time scale the phase is well formed, with elapsed in [0, L) |
| Grid.PhaseRemainingBounded | src/game_state.rs:85-97 | on a positive time scale the time left in the phase is in (0, L/2] |
| Grid.Rocof | src/game_state.rs:115-132 | the swing-equation rate ΔP / (2 H (Pnom / f0)), 0 with no nominal power and no imbalance; no contract of its own, `SurplusRaisesFrequency` proves its sign follows supply − demand |
| Grid.SwingFrequency | src/game_state.rs:106-137 | with balanced totals or no elapsed time the frequency is unchanged |
| Grid.SurplusRaisesFrequency | src/game_state.rs:115-136 | with positive inertia and nominal power, a surplus raises the frequency and a deficit lowers it |
| Grid.UnitStepsIntegrate | src/game_state.rs:136 | n one-second integrations equal one integration over n seconds |
| Grid.GameOver | src/game_state.rs:101-102 | health ≤ 0, or more than 0.5 Hz from 50 Hz; no contract of its own, `GameState.IsGameOver` is proved equivalent to it right after a tick |
| Grid.FoldBattery | src/game_state.rs:173-177 | charging adds to demand, discharging adds to supply; the totals never decrease; the new imbalance is the old one plus the consumed power |
| Grid.BatteryNeverOvercorrects | src/game_state.rs:167-177 | the battery moves the imbalance toward zero and never past it |
| Grid.GameState.constructor | src/game_state.rs:56-82 | every field gets the documented initial value: clock 0, 50 Hz, health 100, default subsystems, dormant events and supply drop |
| Grid.GameState.LunarPhaseAndTime | src/game_state.rs:85-97 | the phase of the current clock; well formed on a positive time scale |
| Grid.GameState.TickFrequencyHz | src/game_state.rs:106-137 | the frequency is unchanged when no time has passed since the last tick or the totals balance |
| Grid.GameState.IsGameOver | src/game_state.rs:100-103 | a dead colony is always game over; right after a tick, game over iff health ≤ 0 or the frequency is more than 0.5 Hz from 50 Hz |
| Grid.GameState.TickOperations | src/game_state.rs:138-144 | the supply drop is ticked at the current time |
| Grid.GameState.TickEvents | src/game_state.rs:149-152 | the three events are ticked at the current time |
| Grid.GameState.TickPower | src/game_state.rs:154-177 | solar, reactor health and battery are ticked with the same context; the battery's exchange is folded into the totals |
| Grid.GameState.TickBattery | src/game_state.rs:165-177 | the battery acts on demand − supply, and its exchange is folded in by `FoldBattery` |
| Grid.GameState.Tick | src/game_state.rs:146-183 | the clock advances by one and the last-tick time catches up. Events, solar, reactor health and battery are ticked at the new time, with the time since the last tick elapsed (one second when the clock was up to date). The frequency is `SwingFrequency` over the folded totals. The supply drop is ticked. The clock invariant is kept |
| Grid.TickIntegratesOneSecond | src/game_state.rs:136-147 | a tick from an up-to-date clock integrates over exactly one second |

## Left out

- The user interface, the main loop and the power-flow helpers (`main.rs`, `power.rs`, `lib.rs`) are not part of this model. The default values of the game variables (`game_variables.rs`, lines 66-100) are not modelled either: every operation takes the configuration as a parameter.
- Floating point: `f32` rounding, NaN and infinities are not modelled; quantities are exact reals.
- Grid.Rocof: the infinite rate of change for an imbalance with zero nominal power (`game_state.rs:123-127`) is excluded by a precondition, as is the division by zero for zero inertia.
- Grid.GameState.Tick: requires nonzero nominal power and inertia. This is stronger than the source, which also accepts zero nominal power with balanced totals. The battery's exchange changes the totals inside the tick, so the balance cannot be stated before it.
- Grid.GameState.Tick: requires a nonzero battery capacity and a nonzero time scale, because the source divides by both.
- Batteries.BatteryStep: requires a nonzero capacity and tick length, because the source divides by both. `Batteries.Battery.Tick` requires the same.
- Grid.PhaseAt: requires a nonzero time scale, because the source divides by it. `Grid.GameState.LunarPhaseAndTime` requires the same.
- Grid.GameState.TickOperations: a completed docking reaches `todo!()` (`game_state.rs:142`), which panics. The random boost award is unimplemented, so `TickOperations` and `Tick` require that no docking completes during the call.
- Grid.TimeInCycle: models the `f32` remainder for the one modulus the source uses, the lunar day, and not for a general divisor.
- Grid.GameState.Tick: fields the tick does not touch are kept by its `modifies` frame rather than by separate `ensures`. These fields are the colony health, the mission-mode flags, the reactor readings and the boost counters.
- Grid.GameState.Tick: the source calls the subsystems with the mission time, from before the context refactor. The model hands them the context built from the clock fields.
- Grid.GameState.Tick: `mission_time_seconds` is a `u32`, and its wrap-around after 2^32 ticks is not modelled. Neither is the same wrap-around of the event and supply-drop times.
- In-place updates of the `Copy` values are modelled as returned successors that their owner writes back.
