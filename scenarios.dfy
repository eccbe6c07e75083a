/**
 * Concrete runs of the governor under the deployment defaults, and two
 * consequences of the source's quirks: a temperature hovering just above
 * HIGH never engages the fan, and a device woken by another one is ready
 * again on its next stable tick.
 */
module Scenarios {
  import opened GovernorConfig
  import opened GpuState
  import opened FanRetry
  import opened FanMachine
  import opened PowerMachine
  import opened Cluster
  import opened ClusterProofs

  /** Device 0 as `initialize` builds it for a default cap of 300 W, reading `temp`. */
  function Device(temp: int): Gpu {
    NewGpu(0, 300, Default.reducedPowerPercent).(currentTemp := temp)
  }

  /**
   * Three ticks above HIGH (70): the first two only count, the third calls
   * the helper, which enables manual control and sets both fans of device
   * 0 (fans 0 and 1) to 75%.
   */
  lemma ThreeHotTicksEngage()
    ensures var o := FanOracle([true], [[true, true]], []);
      var f1 := FanControl(Default, Device(80), o);
      var f2 := FanControl(Default, f1.gpu, o);
      var f3 := FanControl(Default, f2.gpu, o);
      && f1.gpu.fan == Auto && f1.actions == [] && f1.gpu.fanEnterTimer == 1
      && f2.gpu.fan == Auto && f2.actions == [] && f2.gpu.fanEnterTimer == 2
      && f3.gpu.fan == Manual && f3.changed
      && f3.actions == [EnableManualFan(0), SetFanSpeed(0, 75), SetFanSpeed(1, 75)]
      && f3.gpu.fanEnterTimer == 0 && f3.gpu.fanRecoverTimer == 0
      && f3.gpu.stats == Device(80).stats.(stateChanges := 1, fanControl := 1, fanSpeedSet := 1)
  {
  }

  /**
   * The second fan fails in the first attempt; the second attempt sets
   * both. The counters rise once for the helper, not once per fan.
   */
  lemma SecondAttemptEngages()
    ensures var o := FanOracle([true, true], [[true, false], [true, true]], []);
      var f := FanControl(Default, Device(80).(fanEnterTimer := 2), o);
      && f.gpu.fan == Manual
      && f.actions == [EnableManualFan(0), SetFanSpeed(0, 75), SetFanSpeed(1, 75),
                       EnableManualFan(0), SetFanSpeed(0, 75), SetFanSpeed(1, 75)]
      && f.gpu.stats == Device(80).stats.(stateChanges := 1, fanControl := 1, fanSpeedSet := 1)
  {
  }

  /** Three failed attempts to enable manual control: still AUTO, one error, both fan timers zeroed. */
  lemma ThreeFailedAttemptsOneError()
    ensures var f := FanControl(Default, Device(80).(fanEnterTimer := 2), FanOracle([false, false, false], [], []));
      && f.gpu.fan == Auto && !f.changed
      && f.actions == [EnableManualFan(0), EnableManualFan(0), EnableManualFan(0)]
      && f.gpu.stats == Device(80).stats.(errors := 1)
      && f.gpu.fanEnterTimer == 0 && f.gpu.fanRecoverTimer == 0
  {
  }

  /**
   * `n` calls of the power handler, each on a reading of `temp` and each
   * answered `o`: the final record, whether any call moved the state, and
   * every command in order.
   */
  function PowerTicks(c: Config, g: Gpu, temp: int, o: PowerOracle, n: nat): Step
    decreases n
  {
    if n == 0 then Step(g, false, [])
    else
      var p := PowerTicks(c, g, temp, o, n - 1);
      var s := PowerLimit(c, p.gpu.(currentTemp := temp), o);
      Step(s.gpu, p.changed || s.changed, p.actions + s.actions)
  }

  /**
   * Short of CRITICAL_TEMP_DURATION, each tick above CRITICAL in NORMAL adds
   * one to the trigger timer and does nothing else: no command, no transition.
   */
  lemma {:induction false} HotTicksCount(c: Config, g: Gpu, temp: int, o: PowerOracle, n: nat)
    requires c.enablePowerLimit && g.power == Normal && g.powerCoolTimer == 0
    requires temp > c.criticalTemp && 1 <= n && g.powerTriggerTimer + n < c.criticalDuration
    ensures var r := PowerTicks(c, g, temp, o, n);
      && r.gpu == g.(currentTemp := temp, powerTriggerTimer := g.powerTriggerTimer + n)
      && r.actions == [] && !r.changed
    decreases n
  {
    if n > 1 {
      HotTicksCount(c, g, temp, o, n - 1);
    }
    var p := PowerTicks(c, g, temp, o, n - 1);
    var h := p.gpu.(currentTemp := temp);
    PowerLimitFacts(c, h, o, PowerLimit(c, h, o));
  }

  /**
   * Short of COOL_TEMP_DURATION, each tick below COOL in POWER_LIMITED adds
   * one to the cool timer and does nothing else.
   */
  lemma {:induction false} CoolTicksCount(c: Config, g: Gpu, temp: int, o: PowerOracle, n: nat)
    requires c.enablePowerLimit && g.power == PowerLimited && g.powerTriggerTimer == 0
    requires temp < c.coolTemp && 1 <= n && g.powerCoolTimer + n < c.coolDuration
    ensures var r := PowerTicks(c, g, temp, o, n);
      && r.gpu == g.(currentTemp := temp, powerCoolTimer := g.powerCoolTimer + n)
      && r.actions == [] && !r.changed
    decreases n
  {
    if n > 1 {
      CoolTicksCount(c, g, temp, o, n - 1);
    }
    var p := PowerTicks(c, g, temp, o, n - 1);
    var h := p.gpu.(currentTemp := temp);
    PowerLimitFacts(c, h, o, PowerLimit(c, h, o));
  }

  /**
   * From NORMAL with idle timers, CRITICAL_TEMP_DURATION ticks above CRITICAL:
   * all but the last only count, the last asks for the reduced cap, and the
   * state moves exactly when that call succeeds.
   */
  lemma EngagesAfterDuration(c: Config, g: Gpu, temp: int, o: PowerOracle)
    requires c.enablePowerLimit && c.coolTemp <= c.criticalTemp && c.criticalDuration >= 1
    requires g.power == Normal && g.powerTriggerTimer == 0 && g.powerCoolTimer == 0 && temp > c.criticalTemp
    ensures var r := PowerTicks(c, g, temp, o, c.criticalDuration);
      && PowerTicks(c, g, temp, o, c.criticalDuration - 1).actions == []
      && r.actions == [SetPowerLimit(g.index, g.reducedPower)]
      && r.gpu.power == (if o.limitOk then PowerLimited else Normal) && r.changed == o.limitOk
      && r.gpu.powerTriggerTimer == 0 && r.gpu.powerCoolTimer == 0
      && r.gpu.stats == (if o.limitOk then PowerChangeStats(g.stats) else ErrorStats(g.stats))
  {
    if c.criticalDuration > 1 {
      HotTicksCount(c, g, temp, o, c.criticalDuration - 1);
    }
    var p := PowerTicks(c, g, temp, o, c.criticalDuration - 1);
    var h := p.gpu.(currentTemp := temp);
    PowerLimitFacts(c, h, o, PowerLimit(c, h, o));
  }

  /**
   * From POWER_LIMITED with idle timers, COOL_TEMP_DURATION ticks below COOL:
   * all but the last only count, the last asks for the default cap, and the
   * state returns to NORMAL exactly when that call succeeds.
   */
  lemma RestoresAfterDuration(c: Config, g: Gpu, temp: int, o: PowerOracle)
    requires c.enablePowerLimit && c.coolDuration >= 1
    requires g.power == PowerLimited && g.powerTriggerTimer == 0 && g.powerCoolTimer == 0 && temp < c.coolTemp
    ensures var r := PowerTicks(c, g, temp, o, c.coolDuration);
      && PowerTicks(c, g, temp, o, c.coolDuration - 1).actions == []
      && r.actions == [SetPowerLimit(g.index, g.defaultPower)]
      && r.gpu.power == (if o.restoreOk then Normal else PowerLimited) && r.changed == o.restoreOk
      && r.gpu.powerTriggerTimer == 0 && r.gpu.powerCoolTimer == 0
      && r.gpu.stats == (if o.restoreOk then PowerChangeStats(g.stats) else ErrorStats(g.stats))
  {
    if c.coolDuration > 1 {
      CoolTicksCount(c, g, temp, o, c.coolDuration - 1);
    }
    var p := PowerTicks(c, g, temp, o, c.coolDuration - 1);
    var h := p.gpu.(currentTemp := temp);
    PowerLimitFacts(c, h, o, PowerLimit(c, h, o));
  }

  /**
   * Under the defaults, from a fresh device with a 300 W cap: six ticks at
   * 80 degrees apply 225 W (75%), then fifteen ticks at 40 degrees restore 300 W.
   */
  lemma PowerLimitThenRestore()
    ensures var ok := PowerOracle(true, true);
      var hot := PowerTicks(Default, Device(80), 80, ok, 6);
      var cool := PowerTicks(Default, hot.gpu, 40, ok, 15);
      && PowerTicks(Default, Device(80), 80, ok, 5).actions == []
      && hot.gpu.power == PowerLimited && hot.actions == [SetPowerLimit(0, 225)]
      && PowerTicks(Default, hot.gpu, 40, ok, 14).actions == []
      && cool.gpu.power == Normal && cool.actions == [SetPowerLimit(0, 300)]
      && cool.gpu.stats.powerChange == 2 && cool.gpu.stats.stateChanges == 2
  {
    var ok := PowerOracle(true, true);
    EngagesAfterDuration(Default, Device(80), 80, ok);
    var hot := PowerTicks(Default, Device(80), 80, ok, 6);
    RestoresAfterDuration(Default, hot.gpu, 40, ok);
  }

  /** A failed cap change: the state stays NORMAL, one error, the timer restarts. */
  lemma FailedPowerLimit()
    ensures var e := PowerLimit(Default, Device(80).(powerTriggerTimer := 5), PowerOracle(false, true));
      && e.gpu.power == Normal && !e.changed && e.actions == [SetPowerLimit(0, 225)]
      && e.gpu.powerTriggerTimer == 0 && e.gpu.stats == Device(80).stats.(errors := 1)
  {
  }

  /** `_update_gpu` on device k with each input of `ds` in turn. */
  function UpdateEach(c: Config, s: ClusterState, k: nat, ds: seq<DeviceInput>): (r: ClusterState)
    requires k < |s.gpus|
    ensures |r.gpus| == |s.gpus|
    decreases |ds|
  {
    if |ds| == 0 then s else UpdateEach(c, UpdateGpu(c, s, k, ds[0]), k, ds[1..])
  }

  /**
   * A reading that stays within 2 degrees of the baseline is a stable tick
   * however far above HIGH it is; the baseline never moves, the fan enter
   * timer never advances, and the fan stays AUTO: no command is ever issued.
   */
  lemma {:induction false} HoveringNeverEngages(c: Config, s: ClusterState, k: nat, ds: seq<DeviceInput>)
    requires k < |s.gpus| && s.gpus[k].fan == Auto && (!c.enablePowerLimit || s.gpus[k].power == Normal)
    requires forall i :: 0 <= i < |ds| ==>
               ds[i].temp != 0 && ds[i].temp > c.highTemp && Abs(ds[i].temp - s.gpus[k].lastTemp) < 2
    ensures var r := UpdateEach(c, s, k, ds);
      && r.gpus[k].fan == Auto && r.gpus[k].power == s.gpus[k].power
      && r.gpus[k].lastTemp == s.gpus[k].lastTemp
      && r.gpus[k].fanEnterTimer <= s.gpus[k].fanEnterTimer
      && r.actions == s.actions && r.statsHasChanges == s.statsHasChanges
    decreases |ds|
  {
    if |ds| > 0 {
      var s1 := UpdateGpu(c, s, k, ds[0]);
      UpdateGpuStable(c, s, k, ds[0]);
      HoveringNeverEngages(c, s1, k, ds[1..]);
    }
  }

  /**
   * A wake keeps the other devices' stability time: a device that had
   * reached the threshold is ready again on its very next stable tick.
   */
  lemma WokenDeviceReadyAgain(c: Config, s: ClusterState, k: nat, d: DeviceInput, j: nat, e: DeviceInput)
    requires c.enableDeepSleep && k < |s.gpus| && j < |s.gpus| && j != k
    requires WakesCluster(c, s, k, d) && s.gpus[j].heartbeatDuration >= c.deepSleepThreshold
    requires e.temp != 0 && IsStableTick(c, UpdateGpu(c, s, k, d).gpus[j], e.temp)
    ensures var w := UpdateGpu(c, s, k, d);
      && !w.gpus[j].deepSleepMode && !w.deepSleepActive
      && UpdateGpu(c, w, j, e).gpus[j].deepSleepMode
  {
    UpdateGpuOthers(c, s, k, d);
    var w := UpdateGpu(c, s, k, d);
    var g := SampleStep(w, j, e).gpus[j];
    HeartbeatFacts(c, g, w.deepSleepActive, Heartbeat(c, g, w.deepSleepActive));
  }
}
