/**
 * The controller's state (`GPUFanController`) as a value, and one
 * specification function per controller method: how each method changes
 * that state. The class in module Controller implements them in place.
 */
module Cluster {
  import opened Wrappers
  import opened GovernorConfig
  import opened GpuState
  import opened FanRetry
  import opened FanMachine
  import opened PowerMachine

  /**
   * The controller's fields: the devices in index order, the display handle,
   * the cadence counters and flags, plus the log written so far and the
   * commands sent to the devices so far.
   */
  datatype ClusterState = ClusterState(
    gpus: seq<Gpu>,
    display: Option<string>,
    statsCounter: int,
    powerCheckCounter: int,
    statsHasChanges: bool,
    deepSleepActive: bool,
    log: seq<Event>,
    actions: seq<Action>)

  /**
   * Everything the outside world answers while one device is updated: the
   * sample (`temp == 0` is the failure value), the clock, the fan
   * tachometer reads, and the outcomes of the actuation calls.
   */
  datatype DeviceInput = DeviceInput(
    temp: int,
    powerLimit: int,
    now: int,
    fanReadings: seq<Option<int>>,
    powerAnswers: PowerOracle,
    fanAnswers: FanOracle)

  /** The inputs of one pass of the run loop. */
  datatype TickInput = TickInput(devices: seq<DeviceInput>, now: int, newDisplay: Option<string>)

  /** The record of a device after a step, with the lines that step logged. */
  datatype Logged = Logged(gpu: Gpu, events: seq<Event>)

  /** The fan-speed string handed back, and the record with its cache. */
  datatype Cached = Cached(speeds: string, gpu: Gpu)

  const Initial := ClusterState([], None, 0, 0, false, false, [], [])

  function Abs(x: int): int { if x < 0 then -x else x }
  function Max(a: int, b: int): int { if a < b then b else a }

  /** Python truthiness of an optional string. */
  predicate Truthy(d: Option<string>) { d.Some? && |d.value| > 0 }

  /** The fields of a device that nothing after initialization changes. */
  predicate SameIdentity(a: Gpu, b: Gpu) {
    a.index == b.index && a.fans == b.fans && a.defaultPower == b.defaultPower && a.reducedPower == b.reducedPower
  }

  /** Every device is ready for deep sleep. */
  predicate AllReady(gs: seq<Gpu>) {
    forall i :: 0 <= i < |gs| ==> gs[i].deepSleepMode
  }

  // ---------------------------------------------------------------------
  // _update_gpu

  /** The record after a successful sample: reading stored, `temp_checks` counted. */
  function Sampled(g: Gpu, d: DeviceInput): Gpu {
    g.(currentTemp := d.temp, currentPower := d.powerLimit,
       stats := g.stats.(tempChecks := g.stats.tempChecks + 1))
  }

  /**
   * A heartbeat tick: the reading is within 2 degrees of the baseline, the
   * fan is AUTO and power limiting is off or the state is NORMAL.
   */
  predicate IsStableTick(c: Config, g: Gpu, temp: int) {
    Abs(temp - g.lastTemp) < 2 && g.fan == Auto && (!c.enablePowerLimit || g.power == Normal)
  }

  /** The heartbeat's consolidated line is held back while the cluster sleeps. */
  predicate Suppressed(g: Gpu, active: bool) {
    active && g.deepSleepStartTime > 0
  }

  /** The heartbeat bookkeeping: one more stable tick, the stability time, readiness. */
  function Stabilized(c: Config, g: Gpu): Gpu {
    var hd := if g.heartbeatDuration < c.deepSleepThreshold then g.heartbeatDuration + c.checkInterval
              else g.heartbeatDuration;
    g.(heartbeatCounter := g.heartbeatCounter + 1, heartbeatDuration := hd,
       deepSleepMode := if c.enableDeepSleep && hd >= c.deepSleepThreshold then true else g.deepSleepMode)
  }

  /** The heartbeat's output once the counter has reached the threshold: suppressed, or one line and a reset. */
  function HeartbeatReport(c: Config, g: Gpu, active: bool): Logged {
    if g.heartbeatCounter >= c.heartbeatCounterThreshold then
      if Suppressed(g, active) then Logged(g, [])
      else if g.deepSleepMode then Logged(g.(heartbeatCounter := 0), [ReadyLine(g.index, g.currentTemp, g.lastTemp)])
      else if c.heartbeatVerbose then Logged(g.(heartbeatCounter := 0), [HeartbeatLine(g.index, g.currentTemp, g.lastTemp)])
      else Logged(g.(heartbeatCounter := 0), [])
    else Logged(g, [Mark(g.index, g.deepSleepMode)])
  }

  /** The heartbeat branch of `_update_gpu` (it returns before either handler runs). */
  function Heartbeat(c: Config, g: Gpu, active: bool): Logged
  {
    var r := HeartbeatReport(c, Stabilized(c, g), active);
    Logged(r.gpu.(fanEnterTimer := if g.currentTemp < c.highTemp then 0 else g.fanEnterTimer), r.events)
  }

  /** What the heartbeat branch does: `r` is its result. */
  lemma HeartbeatFacts(c: Config, g: Gpu, active: bool, r: Logged)
    requires r == Heartbeat(c, g, active)
    // only the heartbeat bookkeeping and the fan enter timer change
    ensures r.gpu == g.(heartbeatCounter := r.gpu.heartbeatCounter, heartbeatDuration := r.gpu.heartbeatDuration,
                        deepSleepMode := r.gpu.deepSleepMode, fanEnterTimer := r.gpu.fanEnterTimer)
    // the stability time grows by one interval only while it is below the threshold
    ensures r.gpu.heartbeatDuration == (if g.heartbeatDuration < c.deepSleepThreshold
                                        then g.heartbeatDuration + c.checkInterval else g.heartbeatDuration)
    ensures c.checkInterval > 0 && DurationBounded(c, g) ==> DurationBounded(c, r.gpu)
    // the device becomes ready once deep sleep is enabled and the threshold is reached; nothing clears it here
    ensures r.gpu.deepSleepMode <==> g.deepSleepMode || (c.enableDeepSleep && r.gpu.heartbeatDuration >= c.deepSleepThreshold)
    // a stable tick never advances the fan enter timer; below HIGH it zeroes it
    ensures r.gpu.fanEnterTimer <= g.fanEnterTimer
    ensures g.currentTemp < c.highTemp ==> r.gpu.fanEnterTimer == 0
    // the counter is reset exactly when it reaches the threshold and the cluster is not asleep
    ensures r.gpu.heartbeatCounter ==
              (if g.heartbeatCounter + 1 >= c.heartbeatCounterThreshold && !Suppressed(g, active) then 0
               else g.heartbeatCounter + 1)
    // below the threshold one mark is written; at it, one line or nothing
    ensures g.heartbeatCounter + 1 < c.heartbeatCounterThreshold ==> r.events == [Mark(g.index, r.gpu.deepSleepMode)]
    ensures g.heartbeatCounter + 1 >= c.heartbeatCounterThreshold ==>
              r.events == (if Suppressed(g, active) then []
                           else if r.gpu.deepSleepMode then [ReadyLine(g.index, g.currentTemp, g.lastTemp)]
                           else if c.heartbeatVerbose then [HeartbeatLine(g.index, g.currentTemp, g.lastTemp)]
                           else [])
  {
  }

  /** The cache is stale: never filled, or at least `FAN_READ_INTERVAL` old. */
  predicate CacheStale(c: Config, g: Gpu, now: int) {
    |g.fanSpeeds| == 0 || now - g.fanCacheTime >= c.fanReadInterval
  }

  /** `_get_cached_fan_speeds`. */
  function CachedFanSpeeds(c: Config, g: Gpu, now: int, readings: seq<Option<int>>): (r: Cached)
    // the string handed back is always the cached one
    ensures r.speeds == r.gpu.fanSpeeds
    // a fresh cache is reused verbatim and the record is untouched
    ensures !CacheStale(c, g, now) ==> r.gpu == g
    // a stale cache is rebuilt from one read per fan, stamped with the time of the read
    ensures CacheStale(c, g, now) ==>
              r.gpu == g.(fanSpeeds := FormatSpeeds(readings, |g.fans|), fanCacheTime := now)
    // a device with fans always leaves a non-empty cache behind
    ensures |g.fans| > 0 ==> |r.gpu.fanSpeeds| > 0
  {
    if CacheStale(c, g, now) then
      var s := FormatSpeeds(readings, |g.fans|);
      Cached(s, g.(fanSpeeds := s, fanCacheTime := now))
    else Cached(g.fanSpeeds, g)
  }

  /** Every device's deep-sleep flag and start time cleared (nothing else, not the stability time). */
  function ClearDeepSleep(gs: seq<Gpu>): (r: seq<Gpu>)
    ensures |r| == |gs|
    ensures forall i :: 0 <= i < |gs| ==> r[i] == gs[i].(deepSleepMode := false, deepSleepStartTime := 0)
  {
    seq(|gs|, i requires 0 <= i < |gs| => gs[i].(deepSleepMode := false, deepSleepStartTime := 0))
  }

  /** The cluster-wide wake triggered by device k. */
  function Wake(s: ClusterState, k: nat): ClusterState
    requires k < |s.gpus|
  {
    s.(gpus := ClearDeepSleep(s.gpus), deepSleepActive := false,
       log := s.log + [WakeLine(s.gpus[k].index, s.gpus[k].lastTemp, s.gpus[k].currentTemp)])
  }

  /** A change tick's new baseline and window maxima. */
  function Rebaseline(g: Gpu): (r: Gpu)
    ensures r.lastTemp == g.currentTemp && r.heartbeatCounter == 0 && r.heartbeatDuration == 0
    ensures r.maxTemp >= g.currentTemp && r.maxTemp >= g.maxTemp && (r.maxTemp == g.currentTemp || r.maxTemp == g.maxTemp)
    ensures r.histMaxTemp >= g.currentTemp && r.histMaxTemp >= g.histMaxTemp
    ensures r.histMaxTemp == g.currentTemp || r.histMaxTemp == g.histMaxTemp
    ensures r == g.(lastTemp := r.lastTemp, heartbeatCounter := 0, heartbeatDuration := 0,
                    maxTemp := r.maxTemp, histMaxTemp := r.histMaxTemp)
  {
    g.(lastTemp := g.currentTemp, heartbeatCounter := 0, heartbeatDuration := 0,
       maxTemp := Max(g.maxTemp, g.currentTemp), histMaxTemp := Max(g.histMaxTemp, g.currentTemp))
  }

  /** Below HIGH the fan enter timer, below CRITICAL the power trigger timer, is zeroed. */
  function ClearTimers(c: Config, g: Gpu): Gpu {
    g.(fanEnterTimer := if g.currentTemp < c.highTemp then 0 else g.fanEnterTimer,
       powerTriggerTimer := if g.currentTemp < c.criticalTemp then 0 else g.powerTriggerTimer)
  }

  /**
   * A change tick on one device after the wake: the new baseline and maxima,
   * the fan-speed cache, the timer clearing, then the power handler and the
   * fan handler in that order. `status` is the line logged before the handlers run.
   */
  datatype Change = Change(gpu: Gpu, status: Event, changed: bool, actions: seq<Action>)

  function ChangeDevice(c: Config, g: Gpu, d: DeviceInput): Change
  {
    var g3 := Prepare(c, g, d);
    var p := PowerLimit(c, g3, d.powerAnswers);
    var f := FanControl(c, p.gpu, d.fanAnswers);
    Change(f.gpu, StatusLine(g3.index, g3.currentTemp, g3.fan, g3.fanSpeeds, g3.currentPower, g3.defaultPower),
           p.changed || f.changed, p.actions + f.actions)
  }

  /** What the change branch does to the device: `r` is its result. */
  lemma ChangeDeviceFacts(c: Config, g: Gpu, d: DeviceInput, r: Change)
    requires r == ChangeDevice(c, g, d)
    // the reading becomes the baseline and the heartbeat bookkeeping starts over
    ensures r.gpu.lastTemp == g.currentTemp && r.gpu.heartbeatCounter == 0 && r.gpu.heartbeatDuration == 0
    // both maxima cover the reading and never decrease
    ensures r.gpu.maxTemp >= g.currentTemp && r.gpu.maxTemp >= g.maxTemp
    ensures r.gpu.histMaxTemp >= g.currentTemp && r.gpu.histMaxTemp >= g.histMaxTemp
    ensures r.gpu.maxTemp <= g.maxTemp || r.gpu.maxTemp == g.currentTemp
    ensures r.gpu.histMaxTemp <= g.histMaxTemp || r.gpu.histMaxTemp == g.currentTemp
    // the sample, the identity and the deep-sleep fields pass through; the counters only grow
    ensures SameIdentity(g, r.gpu) && StatsLe(g.stats, r.gpu.stats)
    ensures r.gpu.currentTemp == g.currentTemp && r.gpu.currentPower == g.currentPower
    ensures r.gpu.deepSleepMode == g.deepSleepMode && r.gpu.deepSleepStartTime == g.deepSleepStartTime
    // the status line shows the reading, the fan state before the handlers and the cached speeds
    ensures r.status == StatusLine(g.index, g.currentTemp, g.fan, r.gpu.fanSpeeds, g.currentPower, g.defaultPower)
    ensures r.gpu.fanSpeeds == CachedFanSpeeds(c, g, d.now, d.fanReadings).speeds
    // a transition of either machine sets the change flag (COOL at or below CRITICAL keeps the
    // power machine from going there and back on one tick)
    ensures c.coolTemp <= c.criticalTemp ==>
              (r.changed <==> r.gpu.fan != g.fan || (c.enablePowerLimit && r.gpu.power != g.power))
    // a device that was not ready keeps the per-device invariant
    ensures Sane(c) && DeviceInv(c, g) && !g.deepSleepMode ==> DeviceInv(c, r.gpu)
  {
    var p := Prepare(c, g, d);
    var ph := PowerLimit(c, p, d.powerAnswers);
    var f := FanControl(c, ph.gpu, d.fanAnswers);
    PowerLimitFacts(c, p, d.powerAnswers, ph);
    FanControlFacts(c, ph.gpu, d.fanAnswers, f);
    PrepareFacts(c, g, d);
    if Sane(c) && DeviceInv(c, g) && !g.deepSleepMode {
      PrepareKeepsInv(c, g, d);
    }
  }

  /** The change branch before the handlers: new baseline and maxima, the cache, the timers cleared. */
  function Prepare(c: Config, g: Gpu, d: DeviceInput): Gpu {
    ClearTimers(c, CachedFanSpeeds(c, Rebaseline(g), d.now, d.fanReadings).gpu)
  }

  lemma PrepareFacts(c: Config, g: Gpu, d: DeviceInput)
    ensures var p := Prepare(c, g, d);
      && p == g.(lastTemp := g.currentTemp, heartbeatCounter := 0, heartbeatDuration := 0,
                 maxTemp := p.maxTemp, histMaxTemp := p.histMaxTemp, fanSpeeds := p.fanSpeeds, fanCacheTime := p.fanCacheTime,
                 fanEnterTimer := p.fanEnterTimer, powerTriggerTimer := p.powerTriggerTimer)
      && p.maxTemp == Max(g.maxTemp, g.currentTemp) && p.histMaxTemp == Max(g.histMaxTemp, g.currentTemp)
      && p.fanSpeeds == CachedFanSpeeds(c, g, d.now, d.fanReadings).speeds
      && p.fanEnterTimer <= g.fanEnterTimer && p.powerTriggerTimer <= g.powerTriggerTimer
      && (p.fanEnterTimer == 0 || p.fanEnterTimer == g.fanEnterTimer)
      && (p.powerTriggerTimer == 0 || p.powerTriggerTimer == g.powerTriggerTimer)
  {
    var g1 := Rebaseline(g);
    assert CacheStale(c, g1, d.now) == CacheStale(c, g, d.now);
  }

  lemma PrepareKeepsInv(c: Config, g: Gpu, d: DeviceInput)
    requires Sane(c) && DeviceInv(c, g) && !g.deepSleepMode
    ensures DeviceInv(c, Prepare(c, g, d))
  {
    PrepareFacts(c, g, d);
  }

  /** The power handler's step written back into the cluster. */
  function PowerStep(c: Config, s: ClusterState, k: nat, o: PowerOracle): ClusterState
    requires k < |s.gpus|
  {
    var p := PowerLimit(c, s.gpus[k], o);
    s.(gpus := s.gpus[k := p.gpu], statsHasChanges := s.statsHasChanges || p.changed, actions := s.actions + p.actions)
  }

  /** The fan handler's step written back into the cluster. */
  function FanStep(c: Config, s: ClusterState, k: nat, o: FanOracle): ClusterState
    requires k < |s.gpus|
  {
    var f := FanControl(c, s.gpus[k], o);
    s.(gpus := s.gpus[k := f.gpu], statsHasChanges := s.statsHasChanges || f.changed, actions := s.actions + f.actions)
  }

  /** Device k's new baseline and maxima. */
  function RebaselineStep(s: ClusterState, k: nat): ClusterState
    requires k < |s.gpus|
  {
    s.(gpus := s.gpus[k := Rebaseline(s.gpus[k])])
  }

  /** Device k's fan-speed cache brought up to date. */
  function CacheStep(c: Config, s: ClusterState, k: nat, now: int, readings: seq<Option<int>>): ClusterState
    requires k < |s.gpus|
  {
    s.(gpus := s.gpus[k := CachedFanSpeeds(c, s.gpus[k], now, readings).gpu])
  }

  /** Device k's status line, showing its cached speeds. */
  function StatusStep(s: ClusterState, k: nat): ClusterState
    requires k < |s.gpus|
  {
    var g := s.gpus[k];
    s.(log := s.log + [StatusLine(g.index, g.currentTemp, g.fan, g.fanSpeeds, g.currentPower, g.defaultPower)])
  }

  /** Device k's timers cleared below their thresholds. */
  function ClearStep(c: Config, s: ClusterState, k: nat): ClusterState
    requires k < |s.gpus|
  {
    s.(gpus := s.gpus[k := ClearTimers(c, s.gpus[k])])
  }

  /** The change branch up to the handlers: new baseline, cache, status line, timers cleared. */
  function PrepareStep(c: Config, s: ClusterState, k: nat, d: DeviceInput): ClusterState
    requires k < |s.gpus|
  {
    ClearStep(c, StatusStep(CacheStep(c, RebaselineStep(s, k), k, d.now, d.fanReadings), k), k)
  }

  /** The state before the change branch's handlers: the wake, if any, then the preparation. */
  function Prepared(c: Config, s: ClusterState, k: nat, d: DeviceInput): (r: ClusterState)
    requires k < |s.gpus|
    ensures |r.gpus| == |s.gpus|
  {
    PrepareStep(c, if s.gpus[k].deepSleepMode then Wake(s, k) else s, k, d)
  }

  /**
   * The change branch of `_update_gpu`; `s.gpus[k]` already holds the
   * sample: the wake, the preparation, the power handler, the fan handler.
   */
  function ChangeTick(c: Config, s: ClusterState, k: nat, d: DeviceInput): (r: ClusterState)
    requires k < |s.gpus|
    ensures |r.gpus| == |s.gpus|
  {
    FanStep(c, PowerStep(c, Prepared(c, s, k, d), k, d.powerAnswers), k, d.fanAnswers)
  }

  /** The cluster state the change branch starts from: after the wake, if the device was ready. */
  function Woken(s: ClusterState, k: nat): (r: ClusterState)
    requires k < |s.gpus|
    ensures |r.gpus| == |s.gpus|
  {
    if s.gpus[k].deepSleepMode then Wake(s, k) else s
  }

  // The change branch seen device-wise: device k becomes `ChangeDevice` of its woken record.

  lemma ChangeTickGpus(c: Config, s: ClusterState, k: nat, d: DeviceInput)
    requires k < |s.gpus|
    ensures ChangeTick(c, s, k, d).gpus == Woken(s, k).gpus[k := ChangeDevice(c, Woken(s, k).gpus[k], d).gpu]
  {
  }

  lemma ChangeTickActions(c: Config, s: ClusterState, k: nat, d: DeviceInput)
    requires k < |s.gpus|
    ensures ChangeTick(c, s, k, d).actions == Woken(s, k).actions + ChangeDevice(c, Woken(s, k).gpus[k], d).actions
  {
  }

  lemma ChangeTickRest(c: Config, s: ClusterState, k: nat, d: DeviceInput)
    requires k < |s.gpus|
    ensures var r := ChangeTick(c, s, k, d); var w := Woken(s, k); var ch := ChangeDevice(c, w.gpus[k], d);
      && r.statsHasChanges == (w.statsHasChanges || ch.changed)
      && r.log == w.log + [ch.status]
      && r.deepSleepActive == w.deepSleepActive && r.display == w.display
      && r.statsCounter == w.statsCounter && r.powerCheckCounter == w.powerCheckCounter
  {
  }

  /** Device k's sample stored. */
  function SampleStep(s: ClusterState, k: nat, d: DeviceInput): ClusterState
    requires k < |s.gpus|
  {
    s.(gpus := s.gpus[k := Sampled(s.gpus[k], d)])
  }

  /** The heartbeat branch on device k, written back into the cluster. */
  function HeartbeatStep(c: Config, s: ClusterState, k: nat): ClusterState
    requires k < |s.gpus|
  {
    var h := Heartbeat(c, s.gpus[k], s.deepSleepActive);
    s.(gpus := s.gpus[k := h.gpu], log := s.log + h.events)
  }

  /** The tick wakes the cluster: a change tick on a device that was ready for deep sleep. */
  predicate WakesCluster(c: Config, s: ClusterState, k: nat, d: DeviceInput)
    requires k < |s.gpus|
  {
    d.temp != 0 && !IsStableTick(c, s.gpus[k], d.temp) && s.gpus[k].deepSleepMode
  }

  /** `_update_gpu` on device k. */
  function UpdateGpu(c: Config, s: ClusterState, k: nat, d: DeviceInput): (r: ClusterState)
    requires k < |s.gpus|
    ensures |r.gpus| == |s.gpus|
    // a failed sample leaves everything as it was
    ensures d.temp == 0 ==> r == s
  {
    if d.temp == 0 then s
    else if IsStableTick(c, s.gpus[k], d.temp) then HeartbeatStep(c, SampleStep(s, k, d), k)
    else ChangeTick(c, SampleStep(s, k, d), k, d)
  }

  // ---------------------------------------------------------------------
  // _check_deep_sleep

  /** Every device's start time set to `now`. */
  function StampStart(gs: seq<Gpu>, now: int): (r: seq<Gpu>)
    ensures |r| == |gs|
    ensures forall i :: 0 <= i < |gs| ==> r[i] == gs[i].(deepSleepStartTime := now)
  {
    seq(|gs|, i requires 0 <= i < |gs| => gs[i].(deepSleepStartTime := now))
  }

  /** Every device's heartbeat counter reset. */
  function ResetHeartbeats(gs: seq<Gpu>): (r: seq<Gpu>)
    ensures |r| == |gs|
    ensures forall i :: 0 <= i < |gs| ==> r[i] == gs[i].(heartbeatCounter := 0)
  {
    seq(|gs|, i requires 0 <= i < |gs| => gs[i].(heartbeatCounter := 0))
  }

  /** Some device has counted enough heartbeats for the cluster's line. */
  predicate ClusterHeartbeatDue(c: Config, gs: seq<Gpu>) {
    exists i :: 0 <= i < |gs| && gs[i].heartbeatCounter >= c.deepSleepCounterThreshold
  }

  /** Entering deep sleep: every device ready, at least one device, not yet active. */
  function EnterSleep(c: Config, s: ClusterState, now: int): ClusterState {
    if AllReady(s.gpus) && |s.gpus| > 0 && !s.deepSleepActive then
      s.(deepSleepActive := true, gpus := StampStart(s.gpus, now),
         log := s.log + [EnterDeepSleep(c.checkInterval * c.deepSleepMultiplier)])
    else s
  }

  /**
   * The cluster heartbeat while asleep: once some device has counted enough
   * ticks and the first device has a start time, one line with the whole
   * minutes slept, and every counter is reset.
   */
  function ClusterHeartbeat(c: Config, s: ClusterState, now: int): ClusterState {
    if s.deepSleepActive && ClusterHeartbeatDue(c, s.gpus) && |s.gpus| > 0 && s.gpus[0].deepSleepStartTime > 0 then
      s.(log := s.log + [DeepSleepLine(FloorDiv(now - s.gpus[0].deepSleepStartTime, 60))],
         gpus := ResetHeartbeats(s.gpus))
    else s
  }

  /** Leaving deep sleep: some device was not ready when the pass began. */
  function LeaveSleep(s: ClusterState, allReady: bool): ClusterState {
    if !allReady && s.deepSleepActive then s.(deepSleepActive := false) else s
  }

  /** `_check_deep_sleep`. */
  function CheckDeepSleep(c: Config, s: ClusterState, now: int): (r: ClusterState)
    ensures |r.gpus| == |s.gpus|
  {
    if !c.enableDeepSleep then s
    else
      ClusterHeartbeat(c, LeaveSleep(EnterSleep(c, s, now), AllReady(s.gpus)), now)
  }

  /** What `_check_deep_sleep` does: `r` is its result. */
  lemma CheckDeepSleepFacts(c: Config, s: ClusterState, now: int, r: ClusterState)
    requires r == CheckDeepSleep(c, s, now)
    // only start times and heartbeat counters move, readiness above all stays put
    ensures forall i :: 0 <= i < |s.gpus| ==>
              r.gpus[i] == s.gpus[i].(deepSleepStartTime := r.gpus[i].deepSleepStartTime,
                                      heartbeatCounter := r.gpus[i].heartbeatCounter)
    ensures r.actions == s.actions && r.display == s.display && r.statsHasChanges == s.statsHasChanges
    ensures r.statsCounter == s.statsCounter && r.powerCheckCounter == s.powerCheckCounter
    ensures !c.enableDeepSleep ==> r == s
    ensures s.log <= r.log
    ensures |s.gpus| == 0 ==> r.deepSleepActive == s.deepSleepActive
    // with deep sleep enabled and at least one device: asleep exactly when every device is ready
    ensures c.enableDeepSleep && |s.gpus| > 0 ==> (r.deepSleepActive <==> AllReady(s.gpus))
    // on entry every device gets the same start time, `now`
    ensures !s.deepSleepActive && r.deepSleepActive ==>
              forall i :: 0 <= i < |r.gpus| ==> r.gpus[i].deepSleepStartTime == now
    // the cluster heartbeat resets every device's counter
    ensures |r.log| > |s.log| && r.log[|r.log| - 1].DeepSleepLine? ==>
              forall i :: 0 <= i < |r.gpus| ==> r.gpus[i].heartbeatCounter == 0
  {
  }

  // ---------------------------------------------------------------------
  // _print_statistics

  /** Every device's window maximum reset. */
  function ResetWindow(gs: seq<Gpu>): (r: seq<Gpu>)
    ensures |r| == |gs|
    ensures forall i :: 0 <= i < |gs| ==> r[i] == gs[i].(maxTemp := 0)
  {
    seq(|gs|, i requires 0 <= i < |gs| => gs[i].(maxTemp := 0))
  }

  /** There was something to report: a transition, or a window maximum of at least 60 degrees. */
  predicate HasActivity(s: ClusterState) {
    s.statsHasChanges || exists i :: 0 <= i < |s.gpus| && s.gpus[i].maxTemp >= 60
  }

  /** The display handle after the re-check: a new non-empty handle is adopted. */
  function AdoptDisplay(s: ClusterState, newDisplay: Option<string>): ClusterState {
    if Truthy(newDisplay) && newDisplay != s.display then
      s.(display := newDisplay, log := s.log + [DisplayChanged(s.display, newDisplay.value)])
    else s
  }

  /** `_print_statistics`; `newDisplay` is what display detection returns. */
  function PrintStatistics(s: ClusterState, newDisplay: Option<string>): ClusterState
  {
    if !HasActivity(s) then s.(gpus := ResetWindow(s.gpus))
    else
      var s1 := AdoptDisplay(s, newDisplay);
      s1.(log := s1.log + [StatsBlock(s1.display, s1.gpus)], gpus := ResetWindow(s1.gpus))
  }

  /** What `_print_statistics` does: `r` is its result. */
  lemma PrintStatisticsFacts(s: ClusterState, newDisplay: Option<string>, r: ClusterState)
    requires r == PrintStatistics(s, newDisplay)
    // every window maximum is reset; nothing else of any device changes
    ensures r.gpus == ResetWindow(s.gpus)
    ensures r.actions == s.actions && r.deepSleepActive == s.deepSleepActive && r.statsHasChanges == s.statsHasChanges
    ensures r.statsCounter == s.statsCounter && r.powerCheckCounter == s.powerCheckCounter
    // no activity: nothing is written and the display is not even re-checked
    ensures !HasActivity(s) ==> r.log == s.log && r.display == s.display
    // activity: the block ends the log, showing the window maxima before the reset
    ensures HasActivity(s) ==> |r.log| > |s.log| && r.log[|r.log| - 1] == StatsBlock(r.display, s.gpus)
    // a new display is adopted only when there is activity and it is non-empty and different
    ensures r.display == (if HasActivity(s) && Truthy(newDisplay) && newDisplay != s.display then newDisplay else s.display)
  {
  }

  // ---------------------------------------------------------------------
  // _power_recovery_check

  /** A device whose queried cap is below its default while the governor did not limit it. */
  predicate NeedsRecovery(g: Gpu) {
    g.currentPower < g.defaultPower && g.power != PowerLimited
  }

  /** The default caps re-issued by a reconciliation pass, in device order. */
  function Recoveries(gs: seq<Gpu>): seq<Action>
  {
    if |gs| == 0 then []
    else
      var rest := Recoveries(gs[1..]);
      if NeedsRecovery(gs[0]) then [SetPowerLimit(gs[0].index, gs[0].defaultPower)] + rest else rest
  }

  /** Every command of the pass restores some device that needs it, and there are no more commands than devices. */
  lemma {:induction false} RecoveriesSound(gs: seq<Gpu>)
    ensures forall a :: a in Recoveries(gs) ==>
              exists g :: g in gs && NeedsRecovery(g) && a == SetPowerLimit(g.index, g.defaultPower)
    ensures |Recoveries(gs)| <= |gs|
    decreases |gs|
  {
    if |gs| > 0 {
      RecoveriesSound(gs[1..]);
      assert forall g :: g in gs[1..] ==> g in gs;
    }
  }

  /**
   * On devices listed in increasing index order, the commands target strictly
   * increasing devices: at most one per device, in device order.
   */
  lemma {:induction false} RecoveriesInDeviceOrder(gs: seq<Gpu>)
    requires forall i, j :: 0 <= i < j < |gs| ==> gs[i].index < gs[j].index
    ensures forall a :: 0 <= a < |Recoveries(gs)| ==> Recoveries(gs)[a].SetPowerLimit?
    ensures |gs| > 0 ==> forall a :: 0 <= a < |Recoveries(gs)| ==> gs[0].index <= Recoveries(gs)[a].gpu
    ensures forall a, b :: 0 <= a < b < |Recoveries(gs)| ==> Recoveries(gs)[a].gpu < Recoveries(gs)[b].gpu
    decreases |gs|
  {
    if |gs| > 0 {
      RecoveriesInDeviceOrder(gs[1..]);
    }
  }

  /** Every device that needs it gets its default cap back. */
  lemma {:induction false} RecoveriesComplete(gs: seq<Gpu>)
    ensures forall g :: g in gs && NeedsRecovery(g) ==> SetPowerLimit(g.index, g.defaultPower) in Recoveries(gs)
    decreases |gs|
  {
    if |gs| > 0 {
      RecoveriesComplete(gs[1..]);
      assert forall g :: g in gs ==> g == gs[0] || g in gs[1..];
    }
  }

  /** `_power_recovery_check`: the outcome of each call is only logged. */
  function PowerRecoveryCheck(c: Config, s: ClusterState): ClusterState {
    if !c.enablePowerLimit then s else s.(actions := s.actions + Recoveries(s.gpus))
  }

  // ---------------------------------------------------------------------
  // run

  /** The inputs for device k; a device without any is a failed sample. */
  function DeviceAt(ds: seq<DeviceInput>, k: int): DeviceInput {
    if 0 <= k < |ds| then ds[k] else DeviceInput(0, 0, 0, [], PowerOracle(false, false), FanOracle([], [], []))
  }

  /** `_update_gpu` on devices k, k+1, ... in index order. */
  function UpdateFrom(c: Config, s: ClusterState, k: nat, ds: seq<DeviceInput>): (r: ClusterState)
    ensures |r.gpus| == |s.gpus|
    decreases |s.gpus| - k
  {
    if k >= |s.gpus| then s
    else UpdateFrom(c, UpdateGpu(c, s, k, DeviceAt(ds, k)), k + 1, ds)
  }

  /** The statistics pass is due on this tick. */
  predicate StatsDue(c: Config, s: ClusterState)
    requires c.checkInterval > 0
  {
    s.statsCounter + 1 >= StatsThreshold(c)
  }

  /** The reconciliation pass is due on this tick. */
  predicate PowerCheckDue(c: Config, s: ClusterState)
    requires c.checkInterval > 0
  {
    s.powerCheckCounter + 1 >= PowerCheckThreshold(c)
  }

  /** Both cadence counters advance by one. */
  function Count(s: ClusterState): ClusterState {
    s.(statsCounter := s.statsCounter + 1, powerCheckCounter := s.powerCheckCounter + 1)
  }

  /** The statistics pass, when its counter has reached the threshold: it restarts the counter and clears the flag. */
  function StatsPass(c: Config, s: ClusterState, newDisplay: Option<string>): ClusterState
    requires c.checkInterval > 0
  {
    if s.statsCounter >= StatsThreshold(c) then
      PrintStatistics(s, newDisplay).(statsCounter := 0, statsHasChanges := false)
    else s
  }

  /** The reconciliation pass, when its counter has reached the threshold: it restarts the counter. */
  function PowerPass(c: Config, s: ClusterState): ClusterState
    requires c.checkInterval > 0
  {
    if s.powerCheckCounter >= PowerCheckThreshold(c) then PowerRecoveryCheck(c, s).(powerCheckCounter := 0)
    else s
  }

  /** The periodic passes at the end of a tick, given the state after the coordinator. */
  function Cadence(c: Config, s: ClusterState, newDisplay: Option<string>): (r: ClusterState)
    requires c.checkInterval > 0
    ensures |r.gpus| == |s.gpus|
  {
    PowerPass(c, StatsPass(c, Count(s), newDisplay))
  }

  /** What the periodic passes do: `r` is their result. */
  lemma CadenceFacts(c: Config, s: ClusterState, newDisplay: Option<string>, r: ClusterState)
    requires c.checkInterval > 0
    requires r == Cadence(c, s, newDisplay)
    ensures r.statsCounter == (if StatsDue(c, s) then 0 else s.statsCounter + 1)
    ensures r.powerCheckCounter == (if PowerCheckDue(c, s) then 0 else s.powerCheckCounter + 1)
    // the statistics pass clears the change flag
    ensures StatsDue(c, s) ==> !r.statsHasChanges
    ensures !StatsDue(c, s) ==> r.statsHasChanges == s.statsHasChanges && r.gpus == s.gpus
    // the statistics pass resets the window maxima and nothing else of the records
    ensures StatsDue(c, s) ==> r.gpus == ResetWindow(s.gpus)
    // the reconciliation pass only issues commands
    ensures r.actions == s.actions + (if PowerCheckDue(c, s) && c.enablePowerLimit then Recoveries(r.gpus) else [])
    ensures s.log <= r.log
    ensures r.deepSleepActive == s.deepSleepActive
  {
    var s3 := Count(s);
    var s4 := StatsPass(c, s3, newDisplay);
    if StatsDue(c, s) {
      PrintStatisticsFacts(s3, newDisplay, PrintStatistics(s3, newDisplay));
    }
    assert s.log <= s4.log && s4.actions == s.actions && s4.deepSleepActive == s.deepSleepActive;
    assert s4.gpus == (if StatsDue(c, s) then ResetWindow(s.gpus) else s.gpus);
    assert r == PowerPass(c, s4);
  }

  /** One pass of the run loop's body. */
  function Tick(c: Config, s: ClusterState, t: TickInput): (r: ClusterState)
    requires c.checkInterval > 0
    ensures |r.gpus| == |s.gpus|
  {
    Cadence(c, CheckDeepSleep(c, UpdateFrom(c, s, 0, t.devices), t.now), t.newDisplay)
  }

  /** The sleep at the end of a pass. */
  function SleepInterval(c: Config, s: ClusterState): int {
    if c.enableDeepSleep && s.deepSleepActive then c.checkInterval * c.deepSleepMultiplier else c.checkInterval
  }

  /** The run loop over a finite number of passes (the shutdown signal arrives after the last). */
  function RunTicks(c: Config, s: ClusterState, ts: seq<TickInput>): (r: ClusterState)
    requires c.checkInterval > 0
    ensures |r.gpus| == |s.gpus|
    decreases |ts|
  {
    if |ts| == 0 then s else RunTicks(c, Tick(c, s, ts[0]), ts[1..])
  }

  /** The interval slept after each pass. */
  function Intervals(c: Config, s: ClusterState, ts: seq<TickInput>): (r: seq<int>)
    requires c.checkInterval > 0
    ensures |r| == |ts|
    decreases |ts|
  {
    if |ts| == 0 then []
    else var s1 := Tick(c, s, ts[0]); [SleepInterval(c, s1)] + Intervals(c, s1, ts[1..])
  }

  /** The final report: every device's all-time maximum, in order. */
  function FinalReport(gs: seq<Gpu>): (r: seq<Event>)
    ensures |r| == |gs|
    ensures forall i :: 0 <= i < |gs| ==> r[i] == FinalMax(gs[i].index, gs[i].histMaxTemp)
  {
    seq(|gs|, i requires 0 <= i < |gs| => FinalMax(gs[i].index, gs[i].histMaxTemp))
  }

  // ---------------------------------------------------------------------
  // initialize

  /** The oracle's default cap for device i; 0, the failure value, when there is none. */
  function PowerAt(ps: seq<int>, i: int): int {
    if 0 <= i < |ps| then ps[i] else 0
  }

  /** Whether `initialize` succeeded, and the state it leaves. */
  datatype Init = Init(ok: bool, state: ClusterState)

  /**
   * The per-device part of `initialize` from device i on: build the record,
   * hand the fans to the driver, restore a lowered cap, count the
   * initialization. A default cap of 0 stops it, leaving earlier records in place.
   */
  function InitFrom(c: Config, s: ClusterState, i: nat, count: nat, defaults: seq<int>, caps: seq<int>): (r: Init)
    decreases count - i
  {
    if i >= count then Init(true, s)
    else if PowerAt(defaults, i) == 0 then Init(false, s)
    else
      var g := NewGpu(i, PowerAt(defaults, i), c.reducedPowerPercent);
      var restore := if c.enablePowerLimit && PowerAt(caps, i) < g.defaultPower
                     then [SetPowerLimit(i, g.defaultPower)] else [];
      InitFrom(c, s.(gpus := s.gpus + [g], actions := s.actions + [ResetAutoFan(i)] + restore), i + 1, count, defaults, caps)
  }

  /**
   * `initialize`: `display` is what detection returns, `count` the number of
   * devices, `defaults` and `caps` the queried default and current caps.
   */
  function Initialize(c: Config, s: ClusterState, display: Option<string>, count: nat,
                      defaults: seq<int>, caps: seq<int>): Init
  {
    var s1 := s.(display := display);
    if !Truthy(display) || count == 0 then Init(false, s1)
    else InitFrom(c, s1, 0, count, defaults, caps)
  }

  /** `run`: initialize, then the passes, then the final report; when initialization fails nothing else happens. */
  function Run(c: Config, display: Option<string>, count: nat, defaults: seq<int>, caps: seq<int>,
               ts: seq<TickInput>): ClusterState
    requires c.checkInterval > 0
  {
    var init := Initialize(c, Initial, display, count, defaults, caps);
    if !init.ok then init.state
    else
      var s := RunTicks(c, init.state, ts);
      s.(log := s.log + FinalReport(s.gpus))
  }
}
