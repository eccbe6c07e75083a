/**
 * The power-limit hysteresis machine (`_handle_power_limit`): NORMAL and
 * POWER_LIMITED, with no internal retry; a configuration flag pins it to
 * NORMAL.
 */
module PowerMachine {
  import opened GovernorConfig
  import opened GpuState

  /** Answers of the two `set_power_limit` calls the handler can make on one tick. */
  datatype PowerOracle = PowerOracle(limitOk: bool, restoreOk: bool)

  /** The engage half fires: NORMAL, above CRITICAL, the trigger timer reaches its duration. */
  predicate EngageFires(c: Config, g: Gpu) {
    g.power == Normal && g.currentTemp > c.criticalTemp && g.powerTriggerTimer + 1 >= c.criticalDuration
  }

  /** The restore half fires: POWER_LIMITED, below COOL, the cool timer reaches its duration. */
  predicate RestoreFires(c: Config, g: Gpu) {
    g.power == PowerLimited && g.currentTemp < c.coolTemp && g.powerCoolTimer + 1 >= c.coolDuration
  }

  /** `r` differs from `g` at most in the power state, the two power timers and the counters. */
  predicate OnlyPowerFields(g: Gpu, r: Gpu) {
    r == g.(power := r.power, powerTriggerTimer := r.powerTriggerTimer, powerCoolTimer := r.powerCoolTimer, stats := r.stats)
  }

  /** What a successful cap change adds to the counters. */
  function PowerChangeStats(s: Stats): Stats {
    s.(powerChange := s.powerChange + 1, stateChanges := s.stateChanges + 1)
  }

  function ErrorStats(s: Stats): Stats {
    s.(errors := s.errors + 1)
  }

  /** First half of the handler: accumulate above CRITICAL and apply the reduced cap. */
  function EngageHalf(c: Config, g: Gpu, ok: bool): (r: Step)
    ensures OnlyPowerFields(g, r.gpu) && r.gpu.powerCoolTimer == g.powerCoolTimer
    ensures EngageFires(c, g) ==>
              && r.actions == [SetPowerLimit(g.index, g.reducedPower)]
              && r.gpu.power == (if ok then PowerLimited else Normal)
              && r.changed == ok && r.gpu.powerTriggerTimer == 0
              && r.gpu.stats == (if ok then PowerChangeStats(g.stats) else ErrorStats(g.stats))
    ensures !EngageFires(c, g) ==> r.actions == [] && !r.changed && r.gpu.power == g.power && r.gpu.stats == g.stats
    // short of firing, the trigger timer counts above CRITICAL in NORMAL, holds in POWER_LIMITED, and is zeroed otherwise
    ensures !EngageFires(c, g) ==>
              r.gpu.powerTriggerTimer == (if g.currentTemp > c.criticalTemp then
                                            (if g.power == Normal then g.powerTriggerTimer + 1 else g.powerTriggerTimer)
                                          else 0)
    ensures (g.power == PowerLimited ==> g.powerTriggerTimer == 0) ==>
              (r.gpu.power == PowerLimited ==> r.gpu.powerTriggerTimer == 0)
    ensures c.criticalDuration >= 1 && (g.power == PowerLimited ==> g.powerTriggerTimer == 0) ==>
              r.gpu.powerTriggerTimer < c.criticalDuration
    ensures StatsLe(g.stats, r.gpu.stats)
  {
    if g.currentTemp > c.criticalTemp then
      if g.power == Normal then
        if g.powerTriggerTimer + 1 >= c.criticalDuration then
          var g1 := if ok then g.(power := PowerLimited, stats := PowerChangeStats(g.stats))
                    else g.(stats := ErrorStats(g.stats));
          Step(g1.(powerTriggerTimer := 0), ok, [SetPowerLimit(g.index, g.reducedPower)])
        else Step(g.(powerTriggerTimer := g.powerTriggerTimer + 1), false, [])
      else Step(g, false, [])
    else Step(g.(powerTriggerTimer := 0), false, [])
  }

  /** Second half of the handler: accumulate below COOL and restore the default cap. */
  function RestoreHalf(c: Config, g: Gpu, ok: bool): (r: Step)
    ensures OnlyPowerFields(g, r.gpu) && r.gpu.powerTriggerTimer == g.powerTriggerTimer
    ensures RestoreFires(c, g) ==>
              && r.actions == [SetPowerLimit(g.index, g.defaultPower)]
              && r.gpu.power == (if ok then Normal else PowerLimited)
              && r.changed == ok && r.gpu.powerCoolTimer == 0
              && r.gpu.stats == (if ok then PowerChangeStats(g.stats) else ErrorStats(g.stats))
    ensures !RestoreFires(c, g) ==> r.actions == [] && !r.changed && r.gpu.power == g.power && r.gpu.stats == g.stats
    // short of firing, the cool timer counts below COOL in POWER_LIMITED and is zeroed otherwise
    ensures !RestoreFires(c, g) ==>
              r.gpu.powerCoolTimer == (if g.currentTemp < c.coolTemp && g.power == PowerLimited then g.powerCoolTimer + 1 else 0)
    ensures r.gpu.power == Normal ==> r.gpu.powerCoolTimer == 0
    ensures r.gpu.power == PowerLimited ==> g.power == PowerLimited
    ensures c.coolDuration >= 1 ==> r.gpu.powerCoolTimer < c.coolDuration
    ensures StatsLe(g.stats, r.gpu.stats)
  {
    if g.currentTemp < c.coolTemp && g.power == PowerLimited then
      if g.powerCoolTimer + 1 >= c.coolDuration then
        var g1 := if ok then g.(power := Normal, stats := PowerChangeStats(g.stats))
                  else g.(stats := ErrorStats(g.stats));
        Step(g1.(powerCoolTimer := 0), ok, [SetPowerLimit(g.index, g.defaultPower)])
      else Step(g.(powerCoolTimer := g.powerCoolTimer + 1), false, [])
    else Step(g.(powerCoolTimer := 0), false, [])
  }

  /** One call of the power handler on a device whose `currentTemp` is this tick's reading. */
  function PowerLimit(c: Config, g: Gpu, o: PowerOracle): Step
  {
    if !c.enablePowerLimit then
      Step(g.(power := Normal, powerTriggerTimer := 0, powerCoolTimer := 0), false, [])
    else
      var e := EngageHalf(c, g, o.limitOk);
      var h := RestoreHalf(c, e.gpu, o.restoreOk);
      Step(h.gpu, e.changed || h.changed, e.actions + h.actions)
  }

  /** What one call of the power handler does: `r` is its step. */
  lemma PowerLimitFacts(c: Config, g: Gpu, o: PowerOracle, r: Step)
    requires r == PowerLimit(c, g, o)
    // nothing but the power state, the power timers and the counters changes
    ensures OnlyPowerFields(g, r.gpu)
    // disabled: pinned NORMAL with idle timers, no command, no transition
    ensures !c.enablePowerLimit ==>
              && r.gpu == g.(power := Normal, powerTriggerTimer := 0, powerCoolTimer := 0)
              && r.actions == [] && !r.changed
    // enabled: the exclusivity of the opposing timers is preserved
    ensures PowerTimersExclusive(c, g) ==> PowerTimersExclusive(c, r.gpu)
    // and no timer reaches its duration
    ensures c.criticalDuration >= 1 && c.coolDuration >= 1 && PowerTimersExclusive(c, g) ==>
              r.gpu.powerTriggerTimer < c.criticalDuration && r.gpu.powerCoolTimer < c.coolDuration
    // with COOL at or below CRITICAL the two halves never both fire on one tick
    ensures c.enablePowerLimit && c.coolTemp <= c.criticalTemp ==> |r.actions| <= 1
    // and the caller's stats_has_changes is set exactly on a transition
    ensures c.enablePowerLimit && c.coolTemp <= c.criticalTemp ==> (r.changed <==> r.gpu.power != g.power)
    // the engage path asks for the reduced cap; the state moves only if the call succeeds
    ensures c.enablePowerLimit && c.coolTemp <= c.criticalTemp && EngageFires(c, g) ==>
              && r.actions == [SetPowerLimit(g.index, g.reducedPower)]
              && r.gpu.power == (if o.limitOk then PowerLimited else Normal)
              && r.changed == o.limitOk
              && r.gpu.powerTriggerTimer == 0
              && r.gpu.stats == (if o.limitOk then PowerChangeStats(g.stats) else ErrorStats(g.stats))
    // the cool path asks for the default cap; the state moves only if the call succeeds
    ensures c.enablePowerLimit && RestoreFires(c, g) ==>
              && r.actions == [SetPowerLimit(g.index, g.defaultPower)]
              && r.gpu.power == (if o.restoreOk then Normal else PowerLimited)
              && r.changed == o.restoreOk
              && r.gpu.powerCoolTimer == 0
              && r.gpu.stats == (if o.restoreOk then PowerChangeStats(g.stats) else ErrorStats(g.stats))
    // no firing, no command, no transition, no counter
    ensures c.enablePowerLimit && !EngageFires(c, g) && !RestoreFires(c, g) ==>
              r.actions == [] && !r.changed && r.gpu.power == g.power && r.gpu.stats == g.stats
    // short of firing, the trigger timer counts above CRITICAL in NORMAL, holds in POWER_LIMITED, and is zeroed otherwise
    ensures c.enablePowerLimit && !EngageFires(c, g) ==>
              r.gpu.powerTriggerTimer == (if g.currentTemp > c.criticalTemp then
                                            (if g.power == Normal then g.powerTriggerTimer + 1 else g.powerTriggerTimer)
                                          else 0)
    // short of firing, the cool timer counts below COOL in POWER_LIMITED and is zeroed otherwise
    ensures c.enablePowerLimit && !EngageFires(c, g) && !RestoreFires(c, g) ==>
              r.gpu.powerCoolTimer == (if g.currentTemp < c.coolTemp && g.power == PowerLimited then g.powerCoolTimer + 1 else 0)
    // the tick that applies the reduced cap is above CRITICAL, hence not below COOL: the cool timer is zeroed
    ensures c.enablePowerLimit && c.coolTemp <= c.criticalTemp && EngageFires(c, g) ==> r.gpu.powerCoolTimer == 0
    // the counters never decrease
    ensures StatsLe(g.stats, r.gpu.stats)
  {
  }
}
