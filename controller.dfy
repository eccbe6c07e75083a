/**
 * `GPUFanController`: the governor object whose methods update its fields
 * in place. Every method is proved to leave the state its specification
 * function in module Cluster describes.
 */
module Controller {
  import opened Wrappers
  import opened GovernorConfig
  import opened GpuState
  import opened FanRetry
  import opened FanMachine
  import opened PowerMachine
  import opened Cluster

  class GpuFanController {
    const cfg: Config
    var gpus: seq<Gpu>
    var display: Option<string>
    var statsCounter: int
    var powerCheckCounter: int
    var statsHasChanges: bool
    var deepSleepActive: bool
    var log: seq<Event>
    var actions: seq<Action>

    /** The fields as one value. */
    function State(): ClusterState
      reads this
    {
      ClusterState(gpus, display, statsCounter, powerCheckCounter, statsHasChanges, deepSleepActive, log, actions)
    }

    /** `__init__`: no device, no display, counters at zero, not asleep. */
    constructor (c: Config)
      ensures cfg == c && State() == Initial
    {
      cfg := c;
      gpus := [];
      display := None;
      statsCounter := 0;
      powerCheckCounter := 0;
      statsHasChanges := false;
      deepSleepActive := false;
      log := [];
      actions := [];
    }

    // -------------------------------------------------------------------
    // The two hysteresis handlers

    /** The first half of `_handle_power_limit`: accumulate above CRITICAL and apply the reduced cap. */
    method EngagePowerLimit(k: nat, limitOk: bool)
      requires k < |gpus|
      modifies this
      ensures var e := EngageHalf(cfg, old(gpus[k]), limitOk);
        State() == old(State()).(gpus := old(gpus)[k := e.gpu], statsHasChanges := old(statsHasChanges) || e.changed,
                                 actions := old(actions) + e.actions)
    {
      var g := gpus[k];
      if g.currentTemp > cfg.criticalTemp {
        if g.power == Normal {
          g := g.(powerTriggerTimer := g.powerTriggerTimer + 1);
          if g.powerTriggerTimer >= cfg.criticalDuration {
            actions := actions + [SetPowerLimit(g.index, g.reducedPower)];
            if limitOk {
              g := g.(power := PowerLimited, stats := PowerChangeStats(g.stats));
              statsHasChanges := true;
            } else {
              g := g.(stats := ErrorStats(g.stats));
            }
            g := g.(powerTriggerTimer := 0);
          }
        }
      } else {
        g := g.(powerTriggerTimer := 0);
      }
      gpus := gpus[k := g];
    }

    /** The second half of `_handle_power_limit`: accumulate below COOL and restore the default cap. */
    method RestorePowerLimit(k: nat, restoreOk: bool)
      requires k < |gpus|
      modifies this
      ensures var h := RestoreHalf(cfg, old(gpus[k]), restoreOk);
        State() == old(State()).(gpus := old(gpus)[k := h.gpu], statsHasChanges := old(statsHasChanges) || h.changed,
                                 actions := old(actions) + h.actions)
    {
      var g := gpus[k];
      if g.currentTemp < cfg.coolTemp && g.power == PowerLimited {
        g := g.(powerCoolTimer := g.powerCoolTimer + 1);
        if g.powerCoolTimer >= cfg.coolDuration {
          actions := actions + [SetPowerLimit(g.index, g.defaultPower)];
          if restoreOk {
            g := g.(power := Normal, stats := PowerChangeStats(g.stats));
            statsHasChanges := true;
          } else {
            g := g.(stats := ErrorStats(g.stats));
          }
          g := g.(powerCoolTimer := 0);
        }
      } else {
        g := g.(powerCoolTimer := 0);
      }
      gpus := gpus[k := g];
    }

    /** `_handle_power_limit` on device k. */
    method HandlePowerLimit(k: nat, o: PowerOracle)
      requires k < |gpus|
      modifies this
      ensures State() == PowerStep(cfg, old(State()), k, o)
    {
      if !cfg.enablePowerLimit {
        gpus := gpus[k := gpus[k].(power := Normal, powerTriggerTimer := 0, powerCoolTimer := 0)];
        return;
      }
      ghost var a0 := actions;
      ghost var e := EngageHalf(cfg, gpus[k], o.limitOk);
      EngagePowerLimit(k, o.limitOk);
      ghost var h := RestoreHalf(cfg, gpus[k], o.restoreOk);
      RestorePowerLimit(k, o.restoreOk);
      assert actions == a0 + (e.actions + h.actions);
    }

    /** `_handle_fan_control` on device k, carried out by the two retry helpers. */
    method HandleFanControl(k: nat, o: FanOracle)
      requires k < |gpus|
      modifies this
      ensures State() == FanStep(cfg, old(State()), k, o)
    {
      var g := gpus[k];
      if g.fan == Auto {
        if g.currentTemp > cfg.highTemp {
          g := g.(fanEnterTimer := g.fanEnterTimer + 1);
          if g.fanEnterTimer >= cfg.highDuration {
            var ok, g1, acts := EnableManualFanWithRetry(g, cfg.manualFanSpeed, o);
            actions := actions + acts;
            g := g1;
            if ok {
              g := g.(fan := Manual, stats := g.stats.(stateChanges := g.stats.stateChanges + 1));
              statsHasChanges := true;
            } else {
              g := g.(stats := g.stats.(errors := g.stats.errors + 1));
            }
            g := g.(fanEnterTimer := 0, fanRecoverTimer := 0);
          }
        } else {
          g := g.(fanEnterTimer := 0);
        }
      } else {
        if g.currentTemp < cfg.lowTemp {
          g := g.(fanRecoverTimer := g.fanRecoverTimer + 1);
          if g.fanRecoverTimer >= cfg.lowDuration {
            var ok, g1, acts := ResetAutoFanWithRetry(g, o);
            actions := actions + acts;
            g := g1;
            if ok {
              g := g.(fan := Auto, fanEnterTimer := 0, fanRecoverTimer := 0, powerTriggerTimer := 0, powerCoolTimer := 0,
                      stats := g.stats.(stateChanges := g.stats.stateChanges + 1));
              statsHasChanges := true;
            } else {
              g := g.(stats := g.stats.(errors := g.stats.errors + 1), fanRecoverTimer := 0);
            }
          }
        } else {
          g := g.(fanRecoverTimer := 0);
        }
      }
      gpus := gpus[k := g];
    }

    // -------------------------------------------------------------------
    // _update_gpu and its helpers

    /** `_get_cached_fan_speeds` on device k: one read per fan when the cache is stale. */
    method GetCachedFanSpeeds(k: nat, now: int, readings: seq<Option<int>>) returns (speeds: string)
      requires k < |gpus|
      modifies this
      ensures State() == CacheStep(cfg, old(State()), k, now, readings)
      ensures speeds == gpus[k].fanSpeeds
    {
      var g := gpus[k];
      if |g.fanSpeeds| == 0 || now - g.fanCacheTime >= cfg.fanReadInterval {
        var parts: seq<string> := [];
        for j := 0 to |g.fans|
          invariant parts == SpeedParts(readings, j)
        {
          var reading := ReadingAt(readings, j);
          if reading.Some? {
            parts := parts + [IntToString(reading.value) + "%"];
          } else {
            parts := parts + ["N/A"];
          }
        }
        g := g.(fanSpeeds := Join(parts, '|'), fanCacheTime := now);
        gpus := gpus[k := g];
      }
      speeds := g.fanSpeeds;
    }

    /** The wake: every device's readiness and start time cleared, one device at a time. */
    method ClearAllDeepSleep()
      modifies this
      ensures State() == old(State()).(gpus := ClearDeepSleep(old(gpus)))
    {
      for i := 0 to |gpus|
        invariant |gpus| == |old(gpus)|
        invariant forall j :: 0 <= j < i ==> gpus[j] == old(gpus)[j].(deepSleepMode := false, deepSleepStartTime := 0)
        invariant forall j :: i <= j < |gpus| ==> gpus[j] == old(gpus)[j]
        invariant State() == old(State()).(gpus := gpus)
      {
        gpus := gpus[i := gpus[i].(deepSleepMode := false, deepSleepStartTime := 0)];
      }
    }

    /** The heartbeat branch of `_update_gpu` on device k, whose record already holds the sample. */
    method HeartbeatTick(k: nat)
      requires k < |gpus|
      modifies this
      ensures State() == HeartbeatStep(cfg, old(State()), k)
    {
      var g := gpus[k];
      g := g.(heartbeatCounter := g.heartbeatCounter + 1);
      if g.heartbeatDuration < cfg.deepSleepThreshold {
        g := g.(heartbeatDuration := g.heartbeatDuration + cfg.checkInterval);
      }
      if cfg.enableDeepSleep && g.heartbeatDuration >= cfg.deepSleepThreshold {
        g := g.(deepSleepMode := true);
      }
      assert g == Stabilized(cfg, old(gpus[k]));
      ghost var report := HeartbeatReport(cfg, g, deepSleepActive);
      if g.heartbeatCounter >= cfg.heartbeatCounterThreshold {
        if deepSleepActive && g.deepSleepStartTime > 0 {
          // asleep: the cluster's line is written by the coordinator
        } else if g.deepSleepMode {
          log := log + [ReadyLine(g.index, g.currentTemp, g.lastTemp)];
          g := g.(heartbeatCounter := 0);
        } else if cfg.heartbeatVerbose {
          log := log + [HeartbeatLine(g.index, g.currentTemp, g.lastTemp)];
          g := g.(heartbeatCounter := 0);
        } else {
          g := g.(heartbeatCounter := 0);
        }
      } else {
        log := log + [Mark(g.index, g.deepSleepMode)];
      }
      assert g == report.gpu && log == old(log) + report.events;
      if g.currentTemp < cfg.highTemp {
        g := g.(fanEnterTimer := 0);
      }
      gpus := gpus[k := g];
    }

    /** Device k's new baseline and maxima. */
    method RebaselineOn(k: nat)
      requires k < |gpus|
      modifies this
      ensures State() == RebaselineStep(old(State()), k)
    {
      var g := gpus[k];
      g := g.(lastTemp := g.currentTemp, heartbeatCounter := 0, heartbeatDuration := 0);
      if g.currentTemp > g.maxTemp {
        g := g.(maxTemp := g.currentTemp);
      }
      if g.currentTemp > g.histMaxTemp {
        g := g.(histMaxTemp := g.currentTemp);
      }
      gpus := gpus[k := g];
    }

    /** Device k's status line, then its timers cleared below their thresholds. */
    method StatusAndClear(k: nat, speeds: string)
      requires k < |gpus| && speeds == gpus[k].fanSpeeds
      modifies this
      ensures State() == ClearStep(cfg, StatusStep(old(State()), k), k)
    {
      var g := gpus[k];
      log := log + [StatusLine(g.index, g.currentTemp, g.fan, speeds, g.currentPower, g.defaultPower)];
      if g.currentTemp < cfg.highTemp {
        g := g.(fanEnterTimer := 0);
      }
      if g.currentTemp < cfg.criticalTemp {
        g := g.(powerTriggerTimer := 0);
      }
      gpus := gpus[k := g];
    }

    /** The change branch up to the handlers. */
    method PrepareChange(k: nat, d: DeviceInput)
      requires k < |gpus|
      modifies this
      ensures State() == PrepareStep(cfg, old(State()), k, d)
    {
      RebaselineOn(k);
      var speeds := GetCachedFanSpeeds(k, d.now, d.fanReadings);
      StatusAndClear(k, speeds);
    }

    /** The change branch of `_update_gpu` on device k, whose record already holds the sample. */
    method ChangeTickOn(k: nat, d: DeviceInput)
      requires k < |gpus|
      modifies this
      ensures State() == ChangeTick(cfg, old(State()), k, d)
    {
      ghost var s0 := State();
      var g := gpus[k];
      if g.deepSleepMode {
        log := log + [WakeLine(g.index, g.lastTemp, g.currentTemp)];
        ClearAllDeepSleep();
        deepSleepActive := false;
      }
      assert State() == if s0.gpus[k].deepSleepMode then Wake(s0, k) else s0;
      PrepareChange(k, d);
      assert State() == Prepared(cfg, s0, k, d);
      HandlePowerLimit(k, d.powerAnswers);
      HandleFanControl(k, d.fanAnswers);
    }

    /** `_update_gpu` on device k; a failed sample (temperature 0) changes nothing. */
    method UpdateGpu(k: nat, d: DeviceInput)
      requires k < |gpus|
      modifies this
      ensures State() == Cluster.UpdateGpu(cfg, old(State()), k, d)
    {
      if d.temp == 0 {
        return;
      }
      var g := gpus[k];
      var stable := Abs(d.temp - g.lastTemp) < 2 && g.fan == Auto && (!cfg.enablePowerLimit || g.power == Normal);
      gpus := gpus[k := g.(currentTemp := d.temp, currentPower := d.powerLimit,
                           stats := g.stats.(tempChecks := g.stats.tempChecks + 1))];
      assert State() == SampleStep(old(State()), k, d);
      if stable {
        HeartbeatTick(k);
      } else {
        ChangeTickOn(k, d);
      }
    }

    // -------------------------------------------------------------------
    // _check_deep_sleep

    /** Every device's start time set to `now`. */
    method StampAll(now: int)
      modifies this
      ensures State() == old(State()).(gpus := StampStart(old(gpus), now))
    {
      for i := 0 to |gpus|
        invariant |gpus| == |old(gpus)|
        invariant forall j :: 0 <= j < i ==> gpus[j] == old(gpus)[j].(deepSleepStartTime := now)
        invariant forall j :: i <= j < |gpus| ==> gpus[j] == old(gpus)[j]
        invariant State() == old(State()).(gpus := gpus)
      {
        gpus := gpus[i := gpus[i].(deepSleepStartTime := now)];
      }
    }

    /** Every device's heartbeat counter reset. */
    method ResetAllHeartbeats()
      modifies this
      ensures State() == old(State()).(gpus := ResetHeartbeats(old(gpus)))
    {
      for i := 0 to |gpus|
        invariant |gpus| == |old(gpus)|
        invariant forall j :: 0 <= j < i ==> gpus[j] == old(gpus)[j].(heartbeatCounter := 0)
        invariant forall j :: i <= j < |gpus| ==> gpus[j] == old(gpus)[j]
        invariant State() == old(State()).(gpus := gpus)
      {
        gpus := gpus[i := gpus[i].(heartbeatCounter := 0)];
      }
    }

    /** `_check_deep_sleep`; `now` is the clock read. */
    method CheckDeepSleep(now: int)
      modifies this
      ensures State() == Cluster.CheckDeepSleep(cfg, old(State()), now)
    {
      if !cfg.enableDeepSleep {
        return;
      }
      ghost var s0 := State();
      var allReady := forall i :: 0 <= i < |gpus| ==> gpus[i].deepSleepMode;
      var anyReady := exists i :: 0 <= i < |gpus| && gpus[i].deepSleepMode;
      assert allReady && |gpus| > 0 ==> anyReady by {
        if allReady && |gpus| > 0 {
          assert gpus[0].deepSleepMode;
        }
      }
      if allReady && anyReady && !deepSleepActive {
        deepSleepActive := true;
        log := log + [EnterDeepSleep(cfg.checkInterval * cfg.deepSleepMultiplier)];
        StampAll(now);
      }
      assert State() == EnterSleep(cfg, s0, now);
      if !allReady && deepSleepActive {
        deepSleepActive := false;
      }
      assert State() == LeaveSleep(EnterSleep(cfg, s0, now), AllReady(s0.gpus));
      ClusterHeartbeatOn(now);
    }

    /** The cluster heartbeat at the end of `_check_deep_sleep`. */
    method ClusterHeartbeatOn(now: int)
      modifies this
      ensures State() == ClusterHeartbeat(cfg, old(State()), now)
    {
      if deepSleepActive {
        var needOutput := exists i :: 0 <= i < |gpus| && gpus[i].heartbeatCounter >= cfg.deepSleepCounterThreshold;
        if needOutput {
          var first := gpus[0];
          if first.deepSleepStartTime > 0 {
            log := log + [DeepSleepLine(FloorDiv(now - first.deepSleepStartTime, 60))];
            ResetAllHeartbeats();
          }
        }
      }
    }

    // -------------------------------------------------------------------
    // _print_statistics and _power_recovery_check

    /** Every device's window maximum reset. */
    method ResetMaxTemps()
      modifies this
      ensures State() == old(State()).(gpus := ResetWindow(old(gpus)))
    {
      for i := 0 to |gpus|
        invariant |gpus| == |old(gpus)|
        invariant forall j :: 0 <= j < i ==> gpus[j] == old(gpus)[j].(maxTemp := 0)
        invariant forall j :: i <= j < |gpus| ==> gpus[j] == old(gpus)[j]
        invariant State() == old(State()).(gpus := gpus)
      {
        gpus := gpus[i := gpus[i].(maxTemp := 0)];
      }
    }

    /** `_print_statistics`; `newDisplay` is what display detection returns. */
    method PrintStatistics(newDisplay: Option<string>)
      modifies this
      ensures State() == Cluster.PrintStatistics(old(State()), newDisplay)
    {
      var hasActivity := statsHasChanges;
      var i := 0;
      while !hasActivity && i < |gpus|
        invariant 0 <= i <= |gpus|
        invariant hasActivity ==> HasActivity(State())
        invariant !hasActivity ==> !statsHasChanges && forall j :: 0 <= j < i ==> gpus[j].maxTemp < 60
      {
        if gpus[i].maxTemp >= 60 {
          hasActivity := true;
        }
        i := i + 1;
      }
      if !hasActivity {
        ResetMaxTemps();
        return;
      }
      if Truthy(newDisplay) && newDisplay != display {
        log := log + [DisplayChanged(display, newDisplay.value)];
        display := newDisplay;
      }
      log := log + [StatsBlock(display, gpus)];
      ResetMaxTemps();
    }

    /** `_power_recovery_check`: one default-cap command per device that needs it, in device order. */
    method PowerRecoveryCheck()
      modifies this
      ensures State() == Cluster.PowerRecoveryCheck(cfg, old(State()))
    {
      if !cfg.enablePowerLimit {
        return;
      }
      for i := 0 to |gpus|
        invariant gpus == old(gpus)
        invariant State() == old(State()).(actions := old(actions) + Recoveries(gpus[..i]))
      {
        RecoveriesSnoc(gpus[..i], gpus[i]);
        assert gpus[..i + 1] == gpus[..i] + [gpus[i]];
        if gpus[i].currentPower < gpus[i].defaultPower && gpus[i].power != PowerLimited {
          actions := actions + [SetPowerLimit(gpus[i].index, gpus[i].defaultPower)];
        }
      }
      assert gpus[..|gpus|] == gpus;
    }

    // -------------------------------------------------------------------
    // initialize and run

    /**
     * `initialize`: `detected` is what display detection returns, `count`
     * the number of devices, `defaults` and `caps` the default and current
     * caps queried per device.
     */
    method Initialize(detected: Option<string>, count: nat, defaults: seq<int>, caps: seq<int>) returns (ok: bool)
      modifies this
      ensures var r := Cluster.Initialize(cfg, old(State()), detected, count, defaults, caps);
        ok == r.ok && State() == r.state
    {
      display := detected;
      if !Truthy(display) {
        return false;
      }
      if count == 0 {
        return false;
      }
      ghost var s1 := State();
      for i := 0 to count
        invariant InitFrom(cfg, State(), i, count, defaults, caps) == InitFrom(cfg, s1, 0, count, defaults, caps)
      {
        var defaultPower := PowerAt(defaults, i);
        if defaultPower == 0 {
          return false;
        }
        var g := NewGpu(i, defaultPower, cfg.reducedPowerPercent);
        ghost var restore := if cfg.enablePowerLimit && PowerAt(caps, i) < g.defaultPower
                             then [SetPowerLimit(i, g.defaultPower)] else [];
        ghost var next := State().(gpus := gpus + [g], actions := actions + [ResetAutoFan(i)] + restore);
        assert InitFrom(cfg, State(), i, count, defaults, caps) == InitFrom(cfg, next, i + 1, count, defaults, caps);
        actions := actions + [ResetAutoFan(i)];
        if cfg.enablePowerLimit && PowerAt(caps, i) < g.defaultPower {
          actions := actions + [SetPowerLimit(i, g.defaultPower)];
        } else {
          assert actions + restore == actions;
        }
        gpus := gpus + [g];
        assert State() == next;
      }
      return true;
    }

    /** The statistics pass of the run loop, when its counter has reached the threshold. */
    method StatsPassOn(newDisplay: Option<string>, statsThreshold: int)
      requires cfg.checkInterval > 0 && statsThreshold == StatsThreshold(cfg)
      modifies this
      ensures State() == StatsPass(cfg, old(State()), newDisplay)
    {
      if statsCounter >= statsThreshold {
        PrintStatistics(newDisplay);
        statsCounter := 0;
        statsHasChanges := false;
      }
    }

    /** The reconciliation pass of the run loop, when its counter has reached the threshold. */
    method PowerPassOn(powerCheckThreshold: int)
      requires cfg.checkInterval > 0 && powerCheckThreshold == PowerCheckThreshold(cfg)
      modifies this
      ensures State() == PowerPass(cfg, old(State()))
    {
      if powerCheckCounter >= powerCheckThreshold {
        PowerRecoveryCheck();
        powerCheckCounter := 0;
      }
    }

    /** The coordinator: `_update_gpu` on every device in index order. */
    method UpdateAll(ds: seq<DeviceInput>)
      modifies this
      ensures State() == UpdateFrom(cfg, old(State()), 0, ds)
    {
      ghost var s0 := State();
      var k := 0;
      while k < |gpus|
        invariant UpdatedSoFar(cfg, s0, ds, k, State())
      {
        UpdatedSoFarStep(cfg, s0, ds, k, State());
        UpdateGpu(k, DeviceAt(ds, k));
        k := k + 1;
      }
      UpdatedSoFarStep(cfg, s0, ds, k, State());
    }

    /** One pass of the run loop's body; returns the interval to sleep. */
    method RunTick(t: TickInput, statsThreshold: int, powerCheckThreshold: int) returns (interval: int)
      requires cfg.checkInterval > 0
      requires statsThreshold == StatsThreshold(cfg) && powerCheckThreshold == PowerCheckThreshold(cfg)
      modifies this
      ensures State() == Tick(cfg, old(State()), t)
      ensures interval == SleepInterval(cfg, State())
    {
      UpdateAll(t.devices);
      CheckDeepSleep(t.now);
      statsCounter := statsCounter + 1;
      powerCheckCounter := powerCheckCounter + 1;
      StatsPassOn(t.newDisplay, statsThreshold);
      PowerPassOn(powerCheckThreshold);
      interval := cfg.checkInterval;
      if cfg.enableDeepSleep && deepSleepActive {
        interval := cfg.checkInterval * cfg.deepSleepMultiplier;
      }
    }

    /**
     * `run` on a fresh controller: initialize, then one pass per element of
     * `ts` (the shutdown signal arrives after the last), then the final
     * report. Returns whether initialization succeeded and the intervals slept.
     */
    method Run(detected: Option<string>, count: nat, defaults: seq<int>, caps: seq<int>, ts: seq<TickInput>)
      returns (ok: bool, intervals: seq<int>)
      requires cfg.checkInterval > 0 && State() == Initial
      modifies this
      ensures State() == Cluster.Run(cfg, detected, count, defaults, caps, ts)
      ensures var init := Cluster.Initialize(cfg, Initial, detected, count, defaults, caps);
        ok == init.ok && intervals == (if ok then Intervals(cfg, init.state, ts) else [])
    {
      intervals := [];
      ok := Initialize(detected, count, defaults, caps);
      if !ok {
        return;
      }
      var statsThreshold := cfg.statsInterval / cfg.checkInterval;
      var powerCheckThreshold := cfg.powerCheckInterval / cfg.checkInterval;
      intervals := RunLoop(ts, statsThreshold, powerCheckThreshold);
      ReportMaxima();
    }

    /** The `while self.running` loop, for as many passes as there are inputs in `ts`. */
    method RunLoop(ts: seq<TickInput>, statsThreshold: int, powerCheckThreshold: int) returns (intervals: seq<int>)
      requires cfg.checkInterval > 0
      requires statsThreshold == StatsThreshold(cfg) && powerCheckThreshold == PowerCheckThreshold(cfg)
      modifies this
      ensures State() == RunTicks(cfg, old(State()), ts)
      ensures intervals == Intervals(cfg, old(State()), ts)
    {
      ghost var s0 := State();
      intervals := [];
      assert ts[0..] == ts;
      for i := 0 to |ts|
        invariant RunSoFar(cfg, s0, ts, i, State(), intervals)
      {
        RunSoFarStep(cfg, s0, ts, i, State(), intervals);
        var interval := RunTick(ts[i], statsThreshold, powerCheckThreshold);
        intervals := intervals + [interval];
      }
      assert ts[|ts|..] == [];
    }

    /** The final report after the loop: every device's all-time maximum, in order. */
    method ReportMaxima()
      modifies this
      ensures State() == old(State()).(log := old(log) + FinalReport(old(gpus)))
    {
      for i := 0 to |gpus|
        invariant gpus == old(gpus)
        invariant State() == old(State()).(log := old(log) + FinalReport(gpus[..i]))
      {
        assert FinalReport(gpus[..i + 1]) == FinalReport(gpus[..i]) + [FinalMax(gpus[i].index, gpus[i].histMaxTemp)];
        log := log + [FinalMax(gpus[i].index, gpus[i].histMaxTemp)];
      }
      assert gpus[..|gpus|] == gpus;
    }
  }

  /** Devices 0 to k-1 of `s0` have been updated, giving `s`: the rest lead where all of them lead from `s0`. */
  predicate UpdatedSoFar(c: Config, s0: ClusterState, ds: seq<DeviceInput>, k: nat, s: ClusterState) {
    && k <= |s.gpus| == |s0.gpus|
    && UpdateFrom(c, s, k, ds) == UpdateFrom(c, s0, 0, ds)
  }

  /** Updating one more device keeps `UpdatedSoFar`; after the last, `s` is the coordinator's result. */
  lemma UpdatedSoFarStep(c: Config, s0: ClusterState, ds: seq<DeviceInput>, k: nat, s: ClusterState)
    requires UpdatedSoFar(c, s0, ds, k, s)
    ensures k < |s.gpus| ==> UpdatedSoFar(c, s0, ds, k + 1, Cluster.UpdateGpu(c, s, k, DeviceAt(ds, k)))
    ensures k >= |s.gpus| ==> s == UpdateFrom(c, s0, 0, ds)
  {
  }

  /**
   * After i passes from `s0` the state is `s` and the intervals slept are
   * `intervals`: the remaining passes lead where all of them lead from `s0`.
   */
  predicate RunSoFar(c: Config, s0: ClusterState, ts: seq<TickInput>, i: nat, s: ClusterState, intervals: seq<int>)
    requires c.checkInterval > 0
  {
    && i <= |ts|
    && RunTicks(c, s, ts[i..]) == RunTicks(c, s0, ts)
    && intervals + Intervals(c, s, ts[i..]) == Intervals(c, s0, ts)
  }

  /** One more pass keeps `RunSoFar`. */
  lemma RunSoFarStep(c: Config, s0: ClusterState, ts: seq<TickInput>, i: nat, s: ClusterState, intervals: seq<int>)
    requires c.checkInterval > 0 && i < |ts| && RunSoFar(c, s0, ts, i, s, intervals)
    ensures var s1 := Tick(c, s, ts[i]);
      RunSoFar(c, s0, ts, i + 1, s1, intervals + [SleepInterval(c, s1)])
  {
    var s1 := Tick(c, s, ts[i]);
    assert ts[i..][0] == ts[i] && ts[i..][1..] == ts[i + 1..];
    assert Intervals(c, s, ts[i..]) == [SleepInterval(c, s1)] + Intervals(c, s1, ts[i + 1..]);
    assert intervals + ([SleepInterval(c, s1)] + Intervals(c, s1, ts[i + 1..]))
        == (intervals + [SleepInterval(c, s1)]) + Intervals(c, s1, ts[i + 1..]);
  }

  /** Appending a device to the list appends its command, if it needs one. */
  lemma {:induction false} RecoveriesSnoc(gs: seq<Gpu>, g: Gpu)
    ensures Recoveries(gs + [g]) == Recoveries(gs) + (if NeedsRecovery(g) then [SetPowerLimit(g.index, g.defaultPower)] else [])
    decreases |gs|
  {
    if |gs| > 0 {
      assert (gs + [g])[1..] == gs[1..] + [g];
      RecoveriesSnoc(gs[1..], g);
    }
  }
}
