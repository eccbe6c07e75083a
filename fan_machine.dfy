/**
 * The fan hysteresis machine (`_handle_fan_control`): AUTO and MANUAL,
 * each transition gated by a per-tick timer and carried out by a retry
 * helper.
 */
module FanMachine {
  import opened GovernorConfig
  import opened GpuState
  import opened FanRetry

  /** The handler calls a retry helper on this tick: its timer reaches the duration. */
  predicate FanFires(c: Config, g: Gpu) {
    if g.fan == Auto then g.currentTemp > c.highTemp && g.fanEnterTimer + 1 >= c.highDuration
    else g.currentTemp < c.lowTemp && g.fanRecoverTimer + 1 >= c.lowDuration
  }

  /** Some attempt of the manual-fan helper works for this device. */
  predicate ManualSucceeds(c: Config, g: Gpu, o: FanOracle) {
    exists a :: 0 <= a < MaxRetries && ManualAttemptOk(o, a, |g.fans|)
  }

  /** Some attempt of the auto-fan helper works. */
  predicate ResetSucceeds(o: FanOracle) {
    exists a :: 0 <= a < MaxRetries && At(o.resetOk, a)
  }

  /** `r` differs from `g` at most in the fan state, the four hysteresis timers and the counters. */
  predicate OnlyFanFields(g: Gpu, r: Gpu) {
    r == g.(fan := r.fan, fanEnterTimer := r.fanEnterTimer, fanRecoverTimer := r.fanRecoverTimer,
            powerTriggerTimer := r.powerTriggerTimer, powerCoolTimer := r.powerCoolTimer, stats := r.stats)
  }

  /** The engage path: AUTO, hot for `highDuration` ticks in a row. */
  function Engage(c: Config, g: Gpu, o: FanOracle): Step
    requires g.fan == Auto
  {
    var r := ManualRetry(g.index, g.fans, c.manualFanSpeed, o, 0);
    var g1 := if r.ok then g.(stats := ManualFanStats(g.stats)) else g;
    var g2 := if r.ok then g1.(fan := Manual, stats := g1.stats.(stateChanges := g1.stats.stateChanges + 1))
              else g1.(stats := g1.stats.(errors := g1.stats.errors + 1));
    Step(g2.(fanEnterTimer := 0, fanRecoverTimer := 0), r.ok, r.actions)
  }

  /** The recover path: MANUAL, cool for `lowDuration` ticks in a row. */
  function Recover(c: Config, g: Gpu, o: FanOracle): Step
    requires g.fan == Manual
  {
    var r := ResetRetry(g.index, o, 0);
    if r.ok then
      var g1 := g.(stats := AutoFanStats(g.stats));
      Step(g1.(fan := Auto, fanEnterTimer := 0, fanRecoverTimer := 0, powerTriggerTimer := 0, powerCoolTimer := 0,
               stats := g1.stats.(stateChanges := g1.stats.stateChanges + 1)),
           true, r.actions)
    else
      Step(g.(stats := g.stats.(errors := g.stats.errors + 1), fanRecoverTimer := 0), false, r.actions)
  }

  /**
   * One call of the fan handler on a device whose `currentTemp` is this
   * tick's reading.
   */
  function FanControl(c: Config, g: Gpu, o: FanOracle): Step
  {
    if g.fan == Auto then
      if g.currentTemp > c.highTemp then
        if g.fanEnterTimer + 1 >= c.highDuration then Engage(c, g, o)
        else Step(g.(fanEnterTimer := g.fanEnterTimer + 1), false, [])
      else Step(g.(fanEnterTimer := 0), false, [])
    else
      if g.currentTemp < c.lowTemp then
        if g.fanRecoverTimer + 1 >= c.lowDuration then Recover(c, g, o)
        else Step(g.(fanRecoverTimer := g.fanRecoverTimer + 1), false, [])
      else Step(g.(fanRecoverTimer := 0), false, [])
  }

  /** What one call of the fan handler does: `r` is its step. */
  lemma FanControlFacts(c: Config, g: Gpu, o: FanOracle, r: Step)
    requires r == FanControl(c, g, o)
    // nothing but the fan state, the timers and the counters changes; the power state never does
    ensures OnlyFanFields(g, r.gpu) && r.gpu.power == g.power
    // the caller's stats_has_changes is set exactly on a transition
    ensures r.changed <==> r.gpu.fan != g.fan
    // AUTO -> MANUAL exactly when the enter timer reaches its duration and the helper succeeds
    ensures (g.fan == Auto && r.gpu.fan == Manual) <==> (g.fan == Auto && FanFires(c, g) && ManualSucceeds(c, g, o))
    // MANUAL -> AUTO exactly when the recover timer reaches its duration and the helper succeeds
    ensures (g.fan == Manual && r.gpu.fan == Auto) <==> (g.fan == Manual && FanFires(c, g) && ResetSucceeds(o))
    // a helper is called exactly when a timer fires, and it issues what the helper issues
    ensures !FanFires(c, g) ==> r.actions == []
    ensures FanFires(c, g) && g.fan == Auto ==> r.actions == ManualRetry(g.index, g.fans, c.manualFanSpeed, o, 0).actions
    ensures FanFires(c, g) && g.fan == Manual ==> r.actions == ResetRetry(g.index, o, 0).actions
    // counters: one state change per transition, one error per failed helper, one fan-control (and one
    // speed-set on engaging) per successful helper; nothing else moves
    ensures r.gpu.stats.stateChanges == g.stats.stateChanges + (if r.changed then 1 else 0)
    ensures r.gpu.stats.errors == g.stats.errors + (if FanFires(c, g) && !r.changed then 1 else 0)
    ensures r.gpu.stats.fanControl == g.stats.fanControl + (if r.changed then 1 else 0)
    ensures r.gpu.stats.fanSpeedSet == g.stats.fanSpeedSet + (if r.changed && g.fan == Auto then 1 else 0)
    ensures r.gpu.stats == g.stats.(stateChanges := r.gpu.stats.stateChanges, errors := r.gpu.stats.errors,
                                    fanControl := r.gpu.stats.fanControl, fanSpeedSet := r.gpu.stats.fanSpeedSet)
    // a firing engage zeroes both fan timers, whatever the helper's outcome
    ensures FanFires(c, g) && g.fan == Auto ==> r.gpu.fanEnterTimer == 0 && r.gpu.fanRecoverTimer == 0
    // a successful recovery zeroes all four timers; a failed one zeroes the recover timer
    ensures g.fan == Manual && r.gpu.fan == Auto ==>
              r.gpu.fanEnterTimer == 0 && r.gpu.fanRecoverTimer == 0 && r.gpu.powerTriggerTimer == 0 && r.gpu.powerCoolTimer == 0
    ensures FanFires(c, g) && g.fan == Manual && r.gpu.fan == Manual ==> r.gpu.fanRecoverTimer == 0
    // the power timers are touched by nothing but a successful recovery
    ensures !(g.fan == Manual && r.gpu.fan == Auto) ==>
              r.gpu.powerTriggerTimer == g.powerTriggerTimer && r.gpu.powerCoolTimer == g.powerCoolTimer
    // a timer that does not fire accumulates while its condition holds and is zeroed otherwise
    ensures g.fan == Auto && !FanFires(c, g) ==>
              r.gpu.fanEnterTimer == (if g.currentTemp > c.highTemp then g.fanEnterTimer + 1 else 0)
    ensures g.fan == Manual && !FanFires(c, g) ==>
              r.gpu.fanRecoverTimer == (if g.currentTemp < c.lowTemp then g.fanRecoverTimer + 1 else 0)
    // exclusivity of the opposing fan timers is preserved, and then no timer reaches its duration
    ensures FanTimersExclusive(g) ==> FanTimersExclusive(r.gpu)
    ensures FanTimersExclusive(g) && c.highDuration >= 1 && c.lowDuration >= 1 ==>
              r.gpu.fanEnterTimer < c.highDuration && r.gpu.fanRecoverTimer < c.lowDuration
    // the power machine's invariant survives the fan handler
    ensures PowerTimersExclusive(c, g) ==> PowerTimersExclusive(c, r.gpu)
  {
    ManualRetryOk(g.index, g.fans, c.manualFanSpeed, o, 0);
    ResetRetryOk(g.index, o, 0);
  }
}
