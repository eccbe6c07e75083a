/**
 * One device's record (`GPUState`), the actuation commands and report
 * lines the governor produces, and the per-device invariants.
 */
module GpuState {
  import opened Wrappers
  import opened GovernorConfig

  datatype FanState = Auto | Manual
  datatype PowerState = Normal | PowerLimited

  /** The per-device counters; none of them is ever reset. */
  datatype Stats = Stats(
    fanControl: nat,
    fanSpeedSet: nat,
    powerChange: nat,
    tempChecks: nat,
    stateChanges: nat,
    errors: nat,
    initializations: nat)

  const ZeroStats := Stats(0, 0, 0, 0, 0, 0, 0)

  /** Every counter of `b` is at least the same counter of `a`. */
  predicate StatsLe(a: Stats, b: Stats) {
    && a.fanControl <= b.fanControl
    && a.fanSpeedSet <= b.fanSpeedSet
    && a.powerChange <= b.powerChange
    && a.tempChecks <= b.tempChecks
    && a.stateChanges <= b.stateChanges
    && a.errors <= b.errors
    && a.initializations <= b.initializations
  }

  /**
   * The device record. `currentPower` holds the queried power limit (the
   * sampling call reads `power.limit`), not the power draw.
   */
  datatype Gpu = Gpu(
    index: int,
    fans: seq<int>,
    fan: FanState,
    power: PowerState,
    defaultPower: int,
    reducedPower: int,
    currentPower: int,
    currentTemp: int,
    lastTemp: int,
    maxTemp: int,
    histMaxTemp: int,
    fanEnterTimer: nat,
    fanRecoverTimer: nat,
    powerTriggerTimer: nat,
    powerCoolTimer: nat,
    heartbeatCounter: nat,
    heartbeatDuration: int,
    deepSleepMode: bool,
    deepSleepStartTime: int,
    fanSpeeds: string,
    fanCacheTime: int,
    stats: Stats)

  /** A command sent to the device query interface. */
  datatype Action =
    | SetPowerLimit(gpu: int, watts: int)
    | EnableManualFan(gpu: int)
    | SetFanSpeed(fan: int, speed: int)
    | ResetAutoFan(gpu: int)

  /**
   * The effect of one state-machine handler on a device: the new record,
   * whether a transition set the cluster's `stats_has_changes`, and the
   * commands issued.
   */
  datatype Step = Step(gpu: Gpu, changed: bool, actions: seq<Action>)

  /** The report lines and marks the governor writes to its log. */
  datatype Event =
    | Mark(gpu: int, sleeping: bool)                 // '.' or the sleeping mark
    | ReadyLine(gpu: int, temp: int, base: int)      // stable long enough for deep sleep
    | HeartbeatLine(gpu: int, temp: int, base: int)  // verbose heartbeat line
    | WakeLine(gpu: int, from: int, to: int)
    | StatusLine(gpu: int, temp: int, fan: FanState, speeds: string, power: int, defaultPower: int)
    | EnterDeepSleep(interval: int)
    | DeepSleepLine(minutes: int)
    | DisplayChanged(previous: Option<string>, current: string)
    | StatsBlock(display: Option<string>, gpus: seq<Gpu>)
    | FinalMax(gpu: int, temp: int)

  /** The two fans wired to device i. */
  function Fans(i: int): (fs: seq<int>)
    ensures |fs| == 2 && fs[0] == 2 * i && fs[1] == 2 * i + 1
  {
    [2 * i, 2 * i + 1]
  }

  /** Fan f belongs to device i exactly when halving f gives i: no two devices share a fan. */
  lemma FansOwner(i: int, j: int, f: int)
    ensures f in Fans(i) <==> f / 2 == i
    ensures i != j ==> !(f in Fans(i) && f in Fans(j))
  {
  }

  /** Python's `int(a / b)`: the quotient truncated toward zero. */
  function TruncDiv(a: int, b: int): (q: int)
    requires b > 0
    ensures a >= 0 ==> b * q <= a < b * q + b
    ensures a < 0 ==> b * q - b < a <= b * q
  {
    if a >= 0 then a / b else -((-a) / b)
  }

  /** `int(default * percent / 100)`. */
  function ReducedPower(defaultPower: int, percent: int): int {
    TruncDiv(defaultPower * percent, 100)
  }

  /**
   * For non-negative values the reduced cap is the integer quotient, and
   * with a percentage of at most 100 it never exceeds the default cap.
   */
  lemma ReducedPowerBounds(defaultPower: int, percent: int)
    requires defaultPower >= 0 && 0 <= percent <= 100
    ensures ReducedPower(defaultPower, percent) == defaultPower * percent / 100
    ensures 0 <= ReducedPower(defaultPower, percent) <= defaultPower
  {
    var p := defaultPower * percent;
    assert 0 <= p <= defaultPower * 100 by {
      assert defaultPower * percent <= defaultPower * 100;
    }
    var q := p / 100;
    assert 100 * q <= p < 100 * q + 100;
    assert q <= defaultPower;
  }

  /** The record `initialize` builds for device i before it is stored. */
  function NewGpu(i: int, defaultPower: int, percent: int): (g: Gpu)
    ensures g.index == i && g.fans == Fans(i)
    ensures g.fan == Auto && g.power == Normal
    ensures g.defaultPower == defaultPower && g.reducedPower == ReducedPower(defaultPower, percent)
    ensures g.fanEnterTimer == 0 && g.fanRecoverTimer == 0
    ensures g.powerTriggerTimer == 0 && g.powerCoolTimer == 0
    ensures g.heartbeatCounter == 0 && g.heartbeatDuration == 0 && !g.deepSleepMode && g.deepSleepStartTime == 0
    ensures g.currentTemp == 0 && g.lastTemp == 0 && g.currentPower == 0
    ensures g.maxTemp == 0 && g.histMaxTemp == 0
    ensures g.fanSpeeds == "" && g.fanCacheTime == 0
    ensures g.stats == ZeroStats.(initializations := 1)
  {
    Gpu(i, Fans(i), Auto, Normal, defaultPower, ReducedPower(defaultPower, percent),
        0, 0, 0, 0, 0, 0, 0, 0, 0, 0, 0, false, 0, "", 0,
        ZeroStats.(initializations := 1))
  }

  // ---------------------------------------------------------------------
  // Per-device invariants

  /** The opposing fan timers are never both live. */
  predicate FanTimersExclusive(g: Gpu) {
    && (g.fan == Auto ==> g.fanRecoverTimer == 0)
    && (g.fan == Manual ==> g.fanEnterTimer == 0)
  }

  /**
   * With power limiting enabled the opposing power timers are never both
   * live; with it disabled the machine is pinned NORMAL with idle timers.
   */
  predicate PowerTimersExclusive(c: Config, g: Gpu) {
    if c.enablePowerLimit then
      && (g.power == Normal ==> g.powerCoolTimer == 0)
      && (g.power == PowerLimited ==> g.powerTriggerTimer == 0)
    else
      g.power == Normal && g.powerTriggerTimer == 0 && g.powerCoolTimer == 0
  }

  /** Every hysteresis timer is below the duration that fires it. */
  predicate TimersBounded(c: Config, g: Gpu) {
    && g.fanEnterTimer < c.highDuration
    && g.fanRecoverTimer < c.lowDuration
    && g.powerTriggerTimer < c.criticalDuration
    && g.powerCoolTimer < c.coolDuration
  }

  /** The stability time never overshoots the threshold by a whole interval. */
  predicate DurationBounded(c: Config, g: Gpu) {
    0 <= g.heartbeatDuration < c.deepSleepThreshold + c.checkInterval
  }

  /** A device is ready for deep sleep only when it is nominal and has been stable long enough. */
  predicate ReadyIsNominal(c: Config, g: Gpu) {
    g.deepSleepMode ==>
      && c.enableDeepSleep
      && g.fan == Auto
      && (!c.enablePowerLimit || g.power == Normal)
      && g.heartbeatDuration >= c.deepSleepThreshold
  }

  predicate DeviceInv(c: Config, g: Gpu) {
    && FanTimersExclusive(g)
    && PowerTimersExclusive(c, g)
    && TimersBounded(c, g)
    && DurationBounded(c, g)
    && ReadyIsNominal(c, g)
    && 0 <= g.maxTemp <= g.histMaxTemp
  }

  lemma NewGpuInv(c: Config, i: int, defaultPower: int)
    requires Sane(c)
    ensures DeviceInv(c, NewGpu(i, defaultPower, c.reducedPowerPercent))
  {
  }

  // ---------------------------------------------------------------------
  // Text of the fan-speed string

  function DigitChar(d: int): char
    requires 0 <= d < 10
  {
    "0123456789"[d]
  }

  /** Decimal digits of n. */
  function NatToString(n: nat): (s: string)
    ensures |s| > 0
    ensures forall k :: 0 <= k < |s| ==> '0' <= s[k] <= '9'
    decreases n
  {
    if n < 10 then [DigitChar(n)] else NatToString(n / 10) + [DigitChar(n % 10)]
  }

  /** Python's `str(i)`. */
  function IntToString(i: int): (s: string)
    ensures |s| > 0
  {
    if i < 0 then "-" + NatToString(-i) else NatToString(i)
  }

  /** One fan's part: `"<speed>%"`, or `"N/A"` when the read failed. */
  function SpeedText(r: Option<int>): (s: string)
    ensures |s| > 0
  {
    match r
    case Some(v) => IntToString(v) + "%"
    case None => "N/A"
  }

  /** `sep.join(parts)`. */
  function Join(parts: seq<string>, sep: char): (r: string)
    ensures |parts| == 0 ==> r == []
    ensures |parts| > 0 ==> |r| >= |parts[0]| && r[..|parts[0]|] == parts[0]
  {
    if |parts| == 0 then []
    else if |parts| == 1 then parts[0]
    else parts[0] + [sep] + Join(parts[1..], sep)
  }

  /** The reading the oracle gives for fan j; a missing answer is a failed read. */
  function ReadingAt(readings: seq<Option<int>>, j: int): Option<int> {
    if 0 <= j < |readings| then readings[j] else None
  }

  /** The parts of the fan-speed string, one per fan, in fan order. */
  function SpeedParts(readings: seq<Option<int>>, n: nat): (parts: seq<string>)
    ensures |parts| == n
    ensures forall j :: 0 <= j < n ==> parts[j] == SpeedText(ReadingAt(readings, j))
  {
    seq(n, j requires 0 <= j < n => SpeedText(ReadingAt(readings, j)))
  }

  /** The fan-speed string for a device with n fans: empty exactly when it has no fan. */
  function FormatSpeeds(readings: seq<Option<int>>, n: nat): (s: string)
    ensures (|s| == 0) <==> n == 0
  {
    var parts := SpeedParts(readings, n);
    assert n > 0 ==> |parts[0]| > 0;
    Join(parts, '|')
  }
}
