/** The small Option type used for readings and the display handle. */
module Wrappers {
  datatype Option<+T> = None | Some(value: T)
}

/**
 * The governor's configuration: the values the installer pastes into the
 * generated script's `Config` class. They are fixed at process start.
 */
module GovernorConfig {

  datatype Config = Config(
    // temperature thresholds, degrees Celsius
    highTemp: int,
    criticalTemp: int,
    lowTemp: int,
    coolTemp: int,
    // durations, in ticks, that a condition must hold before a transition
    highDuration: int,
    criticalDuration: int,
    lowDuration: int,
    coolDuration: int,
    // fan and power settings
    manualFanSpeed: int,
    reducedPowerPercent: int,
    enablePowerLimit: bool,
    // cadence, in seconds
    checkInterval: int,
    statsInterval: int,
    powerCheckInterval: int,
    fanReadInterval: int,
    // deep sleep
    enableDeepSleep: bool,
    deepSleepThreshold: int,
    deepSleepMultiplier: int,
    // heartbeat reporting: the two rounded tick counts are taken as given
    heartbeatCounterThreshold: int,
    deepSleepCounterThreshold: int,
    heartbeatVerbose: bool)

  /** The deployment defaults. */
  const Default := Config(
    70, 75, 65, 45,
    3, 6, 10, 15,
    75, 75, true,
    5, 300, 60, 10,
    true, 900, 10,
    12, 12, false)

  /**
   * Python's `a // b` for a positive divisor: the floor of the quotient.
   * (Dafny's `/` is Euclidean; for b > 0 the two agree.)
   */
  function FloorDiv(a: int, b: int): (q: int)
    requires b > 0
    ensures b * q <= a < b * q + b
  {
    a / b
  }

  /** Ticks between two statistics passes. */
  function StatsThreshold(c: Config): int
    requires c.checkInterval > 0
  {
    FloorDiv(c.statsInterval, c.checkInterval)
  }

  /** Ticks between two power-reconciliation passes. */
  function PowerCheckThreshold(c: Config): int
    requires c.checkInterval > 0
  {
    FloorDiv(c.powerCheckInterval, c.checkInterval)
  }

  /**
   * The configurations under which the hysteresis timers stay below their
   * durations and the stability time stays bounded: every duration is at
   * least one tick, the poll interval is positive and the deep-sleep
   * threshold is not negative.
   */
  predicate Sane(c: Config) {
    && c.highDuration >= 1
    && c.criticalDuration >= 1
    && c.lowDuration >= 1
    && c.coolDuration >= 1
    && c.checkInterval > 0
    && c.deepSleepThreshold >= 0
  }
}
