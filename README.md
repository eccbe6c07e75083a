# GPU thermal governor — Dafny model

This project models the governor daemon that the all-in-one installer writes
out, `GPUFanController` with its `GPUState` records and `Config`. Each
device runs two hysteresis machines, both gated by per-tick timers:

- a fan machine (AUTO ⇄ MANUAL), carried out by retry helpers that try up to
  three times;
- a power-limit machine (NORMAL ⇄ POWER_LIMITED) with no retry.

Around them:

- Stable readings (within 2 °C of the baseline, nominal state) become
  heartbeat ticks. They count towards deep-sleep readiness.
- The cluster enters deep sleep when every device is ready. The run loop
  then stretches its interval by `DEEP_SLEEP_MULTIPLIER`.
- A change of 2 °C or more on any device wakes the whole cluster.
- The run loop also runs a periodic statistics pass and a periodic power
  reconciliation pass.

The modules:

- `GovernorConfig` holds the configuration record and the integer cadence
  thresholds.
- `GpuState` holds the device record, the commands sent to devices, the log
  events and the per-device invariant.
- `FanRetry` holds the two retry helpers: recursive specification
  functions, plus methods with loops proved against them.
- `FanMachine` and `PowerMachine` hold the two per-device handlers, as
  functions with a facts lemma each.
- `Cluster` holds the controller state as a value and one specification
  function per controller method: `_update_gpu`, `_check_deep_sleep`,
  `_print_statistics`, `_power_recovery_check`, `_get_cached_fan_speeds`,
  `initialize` and `run`.
- `ClusterProofs` proves the controller invariant `Valid` and the
  monotonicity relation `Evolves` over every pass, initialization included.
- `Controller` has the class `GpuFanController`, whose methods update its
  fields in place. Each one is proved to produce exactly the state its
  specification function describes.
- `Scenarios` holds concrete runs under the deployment defaults, and the
  hovering quirk as an inductive lemma.

Calls to `nvidia-smi` and `nvidia-settings` become inputs:

- a reading per device;
- answer lists for the actuation calls;
- tachometer readings;
- the clock;
- the display detected at initialization and at each statistics pass.

Commands the governor issues are recorded in `actions`. Log lines the
cadence depends on are recorded as `Event` values in `log`.

Quirks of the source that the model keeps:

- A stable tick never advances `fan_enter_timer`. A reading that hovers
  within 2 °C of a baseline above HIGH therefore never engages the fan
  (`HoveringNeverEngages`).
- A wake clears only `deep_sleep_mode` and `deep_sleep_start_time` on the
  other devices. Their stability time survives, so they are ready again on
  their next stable tick (`WokenDeviceReadyAgain`).
- The per-device counters are never reset.
- `current_power` holds the queried `power.limit`, not the draw.
- The heartbeat slice of `_update_gpu` returns before either handler runs.

## Model

| member | source | states |
|---|---|---|
| GovernorConfig.FloorDiv | 2-python-allinone/gpu_fan_control_installer.py:398-399 | Python's `//` by a positive divisor: the quotient q satisfies b·q ≤ a < b·q + b |
| GpuState.Fans | 2-python-allinone/gpu_fan_control_installer.py:369 | device i drives exactly fans 2i and 2i+1, in that order |
| GpuState.FansOwner | 2-python-allinone/gpu_fan_control_installer.py:369 | fan f belongs to device i exactly when f / 2 = i, so no two devices share a fan |
| GpuState.TruncDiv | 2-python-allinone/gpu_fan_control_installer.py:375 | `int(a / b)` rounds towards zero: floor for a ≥ 0, ceiling for a < 0 |
| GpuState.ReducedPowerBounds | 2-python-allinone/gpu_fan_control_installer.py:375 | for a non-negative default cap and a percentage of at most 100, the reduced cap is the integer quotient and lies between 0 and the default cap |
| GpuState.NewGpu | 2-python-allinone/gpu_fan_control_installer.py:155-181 | a fresh record is AUTO/NORMAL, all timers and the heartbeat counter are zero, it is not ready and has no deep-sleep start, the readings, maxima and power reading are 0, the fan-speed cache is empty and stamped 0, it is indexed i with fans 2i and 2i+1, and its only counter is one initialization |
| GpuState.NewGpuInv | 2-python-allinone/gpu_fan_control_installer.py:368-389 | a freshly initialized record satisfies the per-device invariant (exclusive and bounded timers, bounded stability time, ready only when nominal, window max ≤ all-time max) |
| GpuState.SpeedParts | 2-python-allinone/gpu_fan_control_installer.py:693-698 | one part per fan, in fan order: the percentage read, or "N/A" when the read failed |
| GpuState.FormatSpeeds | 2-python-allinone/gpu_fan_control_installer.py:699 | the joined speed string is empty exactly when the device has no fans |
| FanRetry.ManualAttempt | 2-python-allinone/gpu_fan_control_installer.py:664-670 | one attempt: the commands are enable-manual followed by the speed-sets in fan order, stopping at the first failure. The attempt succeeds iff enabling works and every fan's speed-set works |
| FanRetry.EnableManualFanWithRetry | 2-python-allinone/gpu_fan_control_installer.py:662-677 | the loop issues exactly the commands `ManualRetry` describes. It succeeds iff one of the three attempts succeeds, and only success counts one fan-control and one speed-set |
| FanRetry.ResetAutoFanWithRetry | 2-python-allinone/gpu_fan_control_installer.py:679-687 | the loop issues exactly the commands `ResetRetry` describes. It succeeds iff one of the three resets works, and only success counts one fan-control |
| FanRetry.ManualRetry | 2-python-allinone/gpu_fan_control_installer.py:662-677 | definition of `_enable_manual_fan_with_retry` from attempt r on: the commands issued and whether some attempt succeeded. Its contract is in `ManualRetryOk`, `ManualRetryAttempts` and `ManualRetryAccumulates` |
| FanRetry.ResetRetry | 2-python-allinone/gpu_fan_control_installer.py:679-687 | definition of `_reset_auto_fan_with_retry` from attempt r on. Its contract is in `ResetRetryOk`, `ResetRetryAttempts` and `ResetRetryAccumulates` |
| FanRetry.ManualRetryOk | 2-python-allinone/gpu_fan_control_installer.py:662-677 | the manual helper from attempt r succeeds iff some attempt a with r ≤ a < 3 works |
| FanRetry.ManualRetryAttempts | 2-python-allinone/gpu_fan_control_installer.py:663-677 | at most 3 − r attempts; a failed helper makes all of them |
| FanRetry.ResetRetryOk | 2-python-allinone/gpu_fan_control_installer.py:679-687 | the reset helper from attempt r succeeds iff some attempt a with r ≤ a < 3 gets a working reset |
| FanRetry.ResetRetryAttempts | 2-python-allinone/gpu_fan_control_installer.py:680-687 | only reset commands for this device, at most 3 − r. Every reset but the last failed; success ends on a working reset; failure makes all three |
| FanRetry.SpeedSetsTargets | 2-python-allinone/gpu_fan_control_installer.py:666-667 | the speed-sets address the device's fans in order, each at the manual speed, at most one per fan |
| FanRetry.SpeedSetsStop | 2-python-allinone/gpu_fan_control_installer.py:666-669 | every speed-set before the last one worked; the sequence covers all fans or ends on the failing one |
| FanRetry.AttemptsAppend | 2-python-allinone/gpu_fan_control_installer.py:663 | attempts over concatenated command lists add up |
| FanRetry.SpeedSetsNoAttempt | 2-python-allinone/gpu_fan_control_installer.py:666-669 | speed-sets never start an attempt |
| FanRetry.ManualRetryAccumulates | 2-python-allinone/gpu_fan_control_installer.py:663-676 | the helper's outcome unrolls one attempt: a working attempt ends it with success; a failed one is followed by the rest of the retries |
| FanRetry.ResetRetryAccumulates | 2-python-allinone/gpu_fan_control_installer.py:680-686 | the reset helper's outcome unrolls one attempt in the same way |
| FanMachine.FanControl | 2-python-allinone/gpu_fan_control_installer.py:620-660 | definition of `_handle_fan_control` on one device, with the retry helpers' answers as input. Its contract is `FanControlFacts` |
| FanMachine.FanControlFacts | 2-python-allinone/gpu_fan_control_installer.py:620-660 | the exact rules of the fan machine:<br>• AUTO→MANUAL iff the enter timer reaches HIGH_TEMP_DURATION above HIGH and the helper succeeds; MANUAL→AUTO iff the recover timer reaches LOW_TEMP_DURATION below LOW and the reset helper succeeds<br>• the change flag is set iff the state changed; a helper is called only when a timer fires<br>• counters: one state change per transition, one error per failed helper<br>• timers: zeroed as the source zeroes them; the opposing fan timers stay exclusive, stay below their durations, and the power invariant is kept<br>• the power state and every other field are untouched |
| PowerMachine.PowerLimit | 2-python-allinone/gpu_fan_control_installer.py:576-618 | definition of `_handle_power_limit`: the engage half, then the restore half on its result. Its contract is `PowerLimitFacts` |
| PowerMachine.EngageHalf | 2-python-allinone/gpu_fan_control_installer.py:583-600 | above CRITICAL in NORMAL the trigger timer counts, and at CRITICAL_TEMP_DURATION one call asks for the reduced cap. Success moves to POWER_LIMITED and counts a power change and a state change; failure counts an error. Either way the timer restarts. Short of firing, nothing is issued, the state and counters stay, and the trigger timer is one higher above CRITICAL in NORMAL, unchanged above CRITICAL in POWER_LIMITED, and zero at or below CRITICAL |
| PowerMachine.RestoreHalf | 2-python-allinone/gpu_fan_control_installer.py:602-618 | below COOL in POWER_LIMITED the cool timer counts, and at COOL_TEMP_DURATION one call asks for the default cap. Success returns to NORMAL; failure counts an error. Either way the timer restarts. Short of firing, nothing is issued, the state and counters stay, and the cool timer is one higher below COOL in POWER_LIMITED and zero otherwise |
| PowerMachine.PowerLimitFacts | 2-python-allinone/gpu_fan_control_installer.py:576-618 | the exact rules of the power machine:<br>• disabled: pinned NORMAL with idle timers and no command<br>• enabled: the engage and restore paths issue their single command and move the state only on success<br>• no firing means no command and no counter<br>• short of firing, the trigger timer is one higher above CRITICAL in NORMAL, held above CRITICAL in POWER_LIMITED, zero otherwise; the cool timer is one higher below COOL in POWER_LIMITED, zero otherwise, and zero on the tick that applies the reduced cap<br>• timers stay exclusive and below their durations; the counters never decrease<br>• with COOL ≤ CRITICAL: at most one command per tick, and the change flag is set iff the state changed |
| Cluster.Heartbeat | 2-python-allinone/gpu_fan_control_installer.py:475-495 | definition of the stable-tick branch of `_update_gpu` on one device. Its contract is `HeartbeatFacts` |
| Cluster.HeartbeatFacts | 2-python-allinone/gpu_fan_control_installer.py:453-495 | a stable tick:<br>• the stability time grows by CHECK_INTERVAL only while below DEEP_SLEEP_THRESHOLD<br>• the device becomes ready iff deep sleep is on and the threshold is reached, and readiness is never cleared here<br>• the fan enter timer never advances, and is zeroed below HIGH<br>• the counter writes a mark below its threshold; at it, the counter resets and writes the ready line or the verbose line, unless the cluster already sleeps<br>• nothing else changes |
| Cluster.CachedFanSpeeds | 2-python-allinone/gpu_fan_control_installer.py:689-701 | a fresh non-empty cache is returned verbatim. An empty or stale one (age ≥ FAN_READ_INTERVAL) is rebuilt from one read per fan and stamped with the read time. The returned string is always the cached one |
| Cluster.ClearDeepSleep | 2-python-allinone/gpu_fan_control_installer.py:503-505 | every device loses its readiness and its start time; nothing else of any record changes |
| Cluster.Rebaseline | 2-python-allinone/gpu_fan_control_installer.py:512-520 | the reading becomes the baseline; heartbeat counter and stability time are zeroed; both maxima rise to cover the reading and otherwise keep their value |
| Cluster.PrepareFacts | 2-python-allinone/gpu_fan_control_installer.py:509-533 | before the handlers: new baseline, maxima as max(old, reading), speeds from the cache. The fan enter timer is zeroed below HIGH and the power trigger timer below CRITICAL; nothing else changes |
| Cluster.PrepareKeepsInv | 2-python-allinone/gpu_fan_control_installer.py:509-533 | the change-tick preparation keeps the per-device invariant of a device that was not ready |
| Cluster.ChangeDeviceFacts | 2-python-allinone/gpu_fan_control_installer.py:509-537 | a change tick on one device:<br>• new baseline and maxima; the sample, the identity and the readiness pass through; the counters only grow<br>• the status line shows the fan state before the handlers and the cached speeds<br>• with COOL ≤ CRITICAL the change flag is set iff a machine transitioned<br>• the per-device invariant is kept |
| Cluster.ChangeTick | 2-python-allinone/gpu_fan_control_installer.py:497-537 | definition of the change branch of `_update_gpu` on device k: wake, prepare, power handler, fan handler. Its contract is in `ChangeTickGpus`, `ChangeTickActions`, `ChangeTickRest` and `ClusterProofs.UpdateGpuChange` |
| Cluster.ChangeTickGpus | 2-python-allinone/gpu_fan_control_installer.py:497-537 | on a change tick the device's record is the woken cluster's record after the change step; every other device keeps its woken record |
| Cluster.ChangeTickActions | 2-python-allinone/gpu_fan_control_installer.py:535-537 | a change tick appends the commands of the power handler and then the fan handler |
| Cluster.ChangeTickRest | 2-python-allinone/gpu_fan_control_installer.py:497-537 | a change tick logs the status line after the wake line, ORs the handlers' transitions into the change flag, and keeps the counters and the display |
| Cluster.UpdateGpu | 2-python-allinone/gpu_fan_control_installer.py:439-441 | a failed sample (temperature 0) leaves everything as it was |
| Cluster.StampStart | 2-python-allinone/gpu_fan_control_installer.py:556-557 | every device gets the same start time; nothing else changes |
| Cluster.ResetHeartbeats | 2-python-allinone/gpu_fan_control_installer.py:573-574 | every heartbeat counter is zeroed; nothing else changes |
| Cluster.CheckDeepSleep | 2-python-allinone/gpu_fan_control_installer.py:539-574 | definition of `_check_deep_sleep`. Its contract is `CheckDeepSleepFacts` |
| Cluster.CheckDeepSleepFacts | 2-python-allinone/gpu_fan_control_installer.py:539-574 | disabled: no change. Enabled with at least one device: after the pass the cluster sleeps iff every device was ready. On entry every device is stamped `now`; the cluster heartbeat resets every counter. Only start times and counters change, with no command |
| Cluster.ResetWindow | 2-python-allinone/gpu_fan_control_installer.py:711-736 | every window maximum is zeroed; nothing else changes |
| Cluster.PrintStatistics | 2-python-allinone/gpu_fan_control_installer.py:703-736 | definition of `_print_statistics`. Its contract is `PrintStatisticsFacts` |
| Cluster.PrintStatisticsFacts | 2-python-allinone/gpu_fan_control_installer.py:703-736 | the window maxima are always reset. Without activity (no change flag, no window max ≥ 60) nothing is logged and the display is not rechecked. With activity the statistics block, showing the maxima before the reset, ends the log. A non-empty different display is adopted |
| Cluster.Recoveries | 2-python-allinone/gpu_fan_control_installer.py:741-745 | definition of the commands `_power_recovery_check` issues. Its contract is in `RecoveriesSound`, `RecoveriesComplete`, `RecoveriesInDeviceOrder` and `Controller.RecoveriesSnoc` |
| Cluster.PowerRecoveryCheck | 2-python-allinone/gpu_fan_control_installer.py:738-748 | definition of `_power_recovery_check`: disabled, nothing; enabled, the commands of `Recoveries` are appended and each outcome is only logged. Its contract is in the `Recoveries` lemmas and `CadenceFacts` |
| Cluster.RecoveriesSound | 2-python-allinone/gpu_fan_control_installer.py:741-745 | every restore command is a device's default cap, for a device whose limit is below its default while not POWER_LIMITED; there are no more commands than devices |
| Cluster.RecoveriesInDeviceOrder | 2-python-allinone/gpu_fan_control_installer.py:741-745 | the restore commands follow the device order. When the devices are listed in increasing index order, their targets strictly increase, so there is at most one command per device |
| Cluster.RecoveriesComplete | 2-python-allinone/gpu_fan_control_installer.py:741-745 | every such device gets its default cap re-issued |
| Cluster.Cadence | 2-python-allinone/gpu_fan_control_installer.py:408-421 | definition of the pass's counters and its periodic statistics and reconciliation passes. Its contract is `CadenceFacts` |
| Cluster.CadenceFacts | 2-python-allinone/gpu_fan_control_installer.py:411-421 | both counters count and restart at their thresholds. The statistics pass clears the change flag and resets the window maxima. The reconciliation pass only issues commands. Without the statistics pass the records and the flag are untouched |
| Cluster.UpdateFrom | 2-python-allinone/gpu_fan_control_installer.py:404-405 | definition of the device loop of one pass, in index order. Its contract is the device count; `Controller.GpuFanController.UpdateAll` is proved against it and `ClusterProofs.UpdateFromPreservesValid` keeps the invariant |
| Cluster.Tick | 2-python-allinone/gpu_fan_control_installer.py:401-428 | definition of one pass of `run`'s loop: devices, `_check_deep_sleep`, cadence. Its contract is in `ClusterProofs.TickPreservesValid` and `ClusterProofs.TickSleepsIffAllReady` |
| Cluster.RunTicks | 2-python-allinone/gpu_fan_control_installer.py:401-432 | definition of the loop over a finite sequence of passes. Its contract is `ClusterProofs.RunTicksPreservesValid` |
| Cluster.Intervals | 2-python-allinone/gpu_fan_control_installer.py:424-432 | definition of the interval slept after each pass: `SleepInterval` of the state that pass leaves. `ClusterProofs.NoDeepSleepWhenDisabled` proves every interval is CHECK_INTERVAL with deep sleep off, and `ClusterProofs.TickSleepsIffAllReady` gives the rule for one pass |
| Cluster.InitFrom | 2-python-allinone/gpu_fan_control_installer.py:368-389 | definition of `initialize`'s device loop from device i on. Its contract is `ClusterProofs.InitFromFacts` |
| Cluster.Initialize | 2-python-allinone/gpu_fan_control_installer.py:355-392 | definition of `initialize`. Its contract is `ClusterProofs.InitializeFacts` |
| Cluster.Run | 2-python-allinone/gpu_fan_control_installer.py:394-436 | definition of `run`: initialize, the loop, the final maxima report. Its contract is `ClusterProofs.RunValid` |
| Cluster.FinalReport | 2-python-allinone/gpu_fan_control_installer.py:434-436 | one line per device, in order, with its all-time maximum |
| ClusterProofs.EvolvesTrans | 2-python-allinone/gpu_fan_control_installer.py:401-421 | what no step undoes (identity, counters, all-time maximum, log, commands) composes across steps |
| ClusterProofs.UpdateGpuOthers | 2-python-allinone/gpu_fan_control_installer.py:498-506 | updating one device changes the others only by a wake, which clears only their readiness and start time; their stability time survives, and a wake ends the cluster's sleep |
| ClusterProofs.UpdateGpuOther | 2-python-allinone/gpu_fan_control_installer.py:503-505 | the same for a single other device |
| ClusterProofs.UpdateGpuStable | 2-python-allinone/gpu_fan_control_installer.py:453-495 | a stable tick keeps baseline, maxima, fan and power state, the recover and power timers; it issues no command; the enter timer never grows |
| ClusterProofs.UpdateGpuChange | 2-python-allinone/gpu_fan_control_installer.py:497-537 | a change tick rebaselines, clears the stability state and raises both maxima. It logs the wake line (when it wakes the cluster) and then the status line; after a wake no device is ready |
| ClusterProofs.UpdateGpuEvolves | 2-python-allinone/gpu_fan_control_installer.py:438-537 | `_update_gpu` never undoes identity, counters, all-time maxima, log or commands |
| ClusterProofs.UpdateGpuPreservesValid | 2-python-allinone/gpu_fan_control_installer.py:438-537 | `_update_gpu` keeps the controller invariant: per-device invariants and the rule that the cluster sleeps only with every device ready |
| ClusterProofs.UpdateFromPreservesValid | 2-python-allinone/gpu_fan_control_installer.py:404-405 | the device loop of a pass keeps the controller invariant, and undoes nothing a step never undoes |
| ClusterProofs.CheckDeepSleepPreservesValid | 2-python-allinone/gpu_fan_control_installer.py:539-574 | `_check_deep_sleep` keeps the invariant and the monotonicity relation |
| ClusterProofs.CadencePreservesValid | 2-python-allinone/gpu_fan_control_installer.py:411-421 | the counter updates and both periodic passes keep the invariant (counters below their thresholds) |
| ClusterProofs.RecoveriesOnePerDevice | 2-python-allinone/gpu_fan_control_installer.py:738-748 | on a state meeting the controller invariant, the reconciliation pass issues at most one command per device, in device order |
| ClusterProofs.TickPreservesValid | 2-python-allinone/gpu_fan_control_installer.py:401-428 | one pass of the run loop keeps the invariant and the monotonicity relation |
| ClusterProofs.RunTicksPreservesValid | 2-python-allinone/gpu_fan_control_installer.py:401-432 | any number of passes keep them |
| ClusterProofs.TickSleepsIffAllReady | 2-python-allinone/gpu_fan_control_installer.py:404-426 | after a pass with deep sleep enabled, the cluster sleeps iff every device is ready, and the sleep interval is CHECK_INTERVAL × DEEP_SLEEP_MULTIPLIER exactly then |
| ClusterProofs.NoDeepSleepWhenDisabled | 2-python-allinone/gpu_fan_control_installer.py:424-426 | with deep sleep disabled the cluster never sleeps and every interval is CHECK_INTERVAL |
| ClusterProofs.InitFromFacts | 2-python-allinone/gpu_fan_control_installer.py:368-389 | the device loop succeeds iff every default cap can be read. Each record it builds is the fresh record for its index and satisfies the invariant; earlier records are kept |
| ClusterProofs.InitializeFacts | 2-python-allinone/gpu_fan_control_installer.py:355-392 | initialization succeeds iff a display is found, at least one device exists and every default cap is readable; it then leaves one fresh record per device and a valid controller |
| ClusterProofs.RunValid | 2-python-allinone/gpu_fan_control_installer.py:394-436 | after a successful initialization and any passes the controller is valid with one record per device, and the run ends by logging every all-time maximum |
| Controller.GpuFanController.constructor | 2-python-allinone/gpu_fan_control_installer.py:326-333 | no device, no display, counters zero, flags false |
| Controller.GpuFanController.EngagePowerLimit | 2-python-allinone/gpu_fan_control_installer.py:583-600 | the engage half in place |
| Controller.GpuFanController.RestorePowerLimit | 2-python-allinone/gpu_fan_control_installer.py:602-618 | the restore half in place |
| Controller.GpuFanController.HandlePowerLimit | 2-python-allinone/gpu_fan_control_installer.py:576-618 | `_handle_power_limit` in place: the new state is the power step |
| Controller.GpuFanController.HandleFanControl | 2-python-allinone/gpu_fan_control_installer.py:620-660 | `_handle_fan_control` in place through the two retry methods: the new state is the fan step |
| Controller.GpuFanController.GetCachedFanSpeeds | 2-python-allinone/gpu_fan_control_installer.py:689-701 | the cache in place; returns the cached string |
| Controller.GpuFanController.ClearAllDeepSleep | 2-python-allinone/gpu_fan_control_installer.py:503-505 | the wake's loop over all devices |
| Controller.GpuFanController.HeartbeatTick | 2-python-allinone/gpu_fan_control_installer.py:454-495 | the heartbeat branch in place |
| Controller.GpuFanController.RebaselineOn | 2-python-allinone/gpu_fan_control_installer.py:509-520 | rebaseline in place |
| Controller.GpuFanController.StatusAndClear | 2-python-allinone/gpu_fan_control_installer.py:525-533 | status line and timer clearing in place |
| Controller.GpuFanController.PrepareChange | 2-python-allinone/gpu_fan_control_installer.py:509-533 | the preparation of a change tick in place |
| Controller.GpuFanController.ChangeTickOn | 2-python-allinone/gpu_fan_control_installer.py:497-537 | the change branch in place |
| Controller.GpuFanController.UpdateGpu | 2-python-allinone/gpu_fan_control_installer.py:438-537 | `_update_gpu` in place |
| Controller.GpuFanController.StampAll | 2-python-allinone/gpu_fan_control_installer.py:556-557 | the start-time loop |
| Controller.GpuFanController.ResetAllHeartbeats | 2-python-allinone/gpu_fan_control_installer.py:573-574 | the counter-reset loop |
| Controller.GpuFanController.CheckDeepSleep | 2-python-allinone/gpu_fan_control_installer.py:539-574 | `_check_deep_sleep` in place |
| Controller.GpuFanController.ClusterHeartbeatOn | 2-python-allinone/gpu_fan_control_installer.py:564-574 | the cluster heartbeat in place, whole minutes by floor division |
| Controller.GpuFanController.ResetMaxTemps | 2-python-allinone/gpu_fan_control_installer.py:735-736 | the window-reset loop |
| Controller.GpuFanController.PrintStatistics | 2-python-allinone/gpu_fan_control_installer.py:703-736 | `_print_statistics` in place |
| Controller.GpuFanController.PowerRecoveryCheck | 2-python-allinone/gpu_fan_control_installer.py:738-748 | `_power_recovery_check`'s loop issues exactly the restore commands `Recoveries` lists |
| Controller.GpuFanController.Initialize | 2-python-allinone/gpu_fan_control_installer.py:355-392 | `initialize`'s loop in place: its result and new state are those of the initialization function |
| Controller.GpuFanController.UpdateAll | 2-python-allinone/gpu_fan_control_installer.py:404-405 | the device loop of a pass |
| Controller.GpuFanController.StatsPassOn | 2-python-allinone/gpu_fan_control_installer.py:414-417 | the statistics pass and its reset |
| Controller.GpuFanController.PowerPassOn | 2-python-allinone/gpu_fan_control_installer.py:419-421 | the reconciliation pass and its reset |
| Controller.GpuFanController.RunTick | 2-python-allinone/gpu_fan_control_installer.py:403-428 | one pass in place; returns the sleep interval of the new state |
| Controller.GpuFanController.RunLoop | 2-python-allinone/gpu_fan_control_installer.py:401-432 | the loop over all passes: the state and intervals of the run function |
| Controller.GpuFanController.Run | 2-python-allinone/gpu_fan_control_installer.py:394-436 | `run`: initialization, integer thresholds, the loop, the final report |
| Controller.GpuFanController.ReportMaxima | 2-python-allinone/gpu_fan_control_installer.py:434-436 | the final report loop |
| Controller.UpdatedSoFarStep | 2-python-allinone/gpu_fan_control_installer.py:404-405 | one more device update keeps the loop invariant, and after the last device the state is the pass's device updates |
| Controller.RunSoFarStep | 2-python-allinone/gpu_fan_control_installer.py:401-428 | one more pass keeps the run loop's invariant |
| Controller.RecoveriesSnoc | 2-python-allinone/gpu_fan_control_installer.py:741-745 | the restore list of one more device is the old list plus that device's command, if it needs one |
| Scenarios.ThreeHotTicksEngage | 2-python-allinone/gpu_fan_control_installer.py:622-636 | under the defaults, three ticks above 70 °C: the first two only count; the third enables manual control and sets fans 0 and 1 to 75 % |
| Scenarios.SecondAttemptEngages | 2-python-allinone/gpu_fan_control_installer.py:662-673 | a second fan failing in the first attempt: the retry repeats the whole attempt, and the counters rise once |
| Scenarios.ThreeFailedAttemptsOneError | 2-python-allinone/gpu_fan_control_installer.py:622-677 | three failed enables: still AUTO, one error, both fan timers zeroed |
| Scenarios.HotTicksCount | 2-python-allinone/gpu_fan_control_installer.py:583-600 | short of CRITICAL_TEMP_DURATION, n handler calls above CRITICAL in NORMAL raise the trigger timer by n and do nothing else: no command, no transition |
| Scenarios.CoolTicksCount | 2-python-allinone/gpu_fan_control_installer.py:602-618 | short of COOL_TEMP_DURATION, n handler calls below COOL in POWER_LIMITED raise the cool timer by n and do nothing else |
| Scenarios.EngagesAfterDuration | 2-python-allinone/gpu_fan_control_installer.py:576-618 | from NORMAL with idle timers, CRITICAL_TEMP_DURATION calls above CRITICAL: the first ones issue nothing, the last asks for the reduced cap, and the state, counters and change flag follow the call's success |
| Scenarios.RestoresAfterDuration | 2-python-allinone/gpu_fan_control_installer.py:576-618 | from POWER_LIMITED with idle timers, COOL_TEMP_DURATION calls below COOL: the first ones issue nothing, the last asks for the default cap, and the state returns to NORMAL exactly when the call succeeds |
| Scenarios.PowerLimitThenRestore | 2-python-allinone/gpu_fan_control_installer.py:576-618 | under the defaults, from a fresh 300 W device: five ticks at 80 °C issue nothing and the sixth caps to 225 W; then fourteen ticks at 40 °C issue nothing and the fifteenth restores 300 W, with two power changes and two state changes counted |
| Scenarios.FailedPowerLimit | 2-python-allinone/gpu_fan_control_installer.py:589-598 | a failed cap change stays NORMAL, counts one error and restarts the timer |
| Scenarios.UpdateEach | 2-python-allinone/gpu_fan_control_installer.py:438-537 | repeated `_update_gpu` calls on device k, one per input, with nothing in between (not the other devices, not `_check_deep_sleep`, not the periodic passes); the number of devices never changes |
| Scenarios.HoveringNeverEngages | 2-python-allinone/gpu_fan_control_installer.py:448-495 | readings within 2 °C of the baseline, however far above HIGH, are all stable ticks. The fan stays AUTO, the enter timer never grows, and no command is issued |
| Scenarios.WokenDeviceReadyAgain | 2-python-allinone/gpu_fan_control_installer.py:457-506 | a device whose stability time had reached the threshold, woken by another device, is ready again on its next stable tick |

## Left out

- The installer (everything after the embedded script, from line 765 on) is not modelled. Nor are the bodies of the `NvidiaHelper` queries (184–306): their results are inputs. A missing answer in an answer list counts as a failed call.
- The log's text, timestamps, the progress marks' newline handling and the log file are left out. Only the lines the cadence depends on are kept, as `Event` values, and failures show in the error counter.
- Signals, the `running` flag and `time.sleep` are left out. The run loop is a finite sequence of passes; the shutdown signal arrives after the last one.
- The `except` branch of the run loop is not modelled. No modelled operation can raise.
- `main` and its root check are left out.
- `reduced_power` is computed in the source with float division and `int()`. The model uses exact integer division rounding towards zero, so float rounding on very large caps is not modelled.
- The clock is an integer with one read per device update and one per deep-sleep check. Sub-second precision of the fan cache age is not modelled.
- `HEARTBEAT_COUNTER_THRESHOLD` and `DEEP_SLEEP_COUNTER_THRESHOLD` come from `round()` on generated constants. They are configuration fields, taken as given.
- Display detection is an input (`initialize`'s result and each statistics pass's `newDisplay`), as are the device count and the default and current caps.
- `GPUState` objects are mutated through the controller's dictionary. The model keeps them as value records in a sequence inside the controller, so aliasing between records is not modelled.
- Cluster.ChangeDeviceFacts: the change flag is proved to mean "a machine transitioned" only when COOL ≤ CRITICAL. With COOL above CRITICAL, engage and restore can both fire on one tick. The flag is then set although the state ends where it began.
- PowerMachine.PowerLimitFacts: the same condition bounds the power handler to one command per tick and makes the change flag mean a state change.
