/**
 * What the controller keeps true from initialization on, and what a tick
 * never undoes, proved about the specification functions of module Cluster.
 */
module ClusterProofs {
  import opened Wrappers
  import opened GovernorConfig
  import opened GpuState
  import opened FanMachine
  import opened PowerMachine
  import opened Cluster

  /** The records are stored in index order with the fans and the reduced cap `initialize` gave them. */
  predicate Indexed(c: Config, gs: seq<Gpu>) {
    forall i :: 0 <= i < |gs| ==>
      gs[i].index == i && gs[i].fans == Fans(i) && gs[i].reducedPower == ReducedPower(gs[i].defaultPower, c.reducedPowerPercent)
  }

  /** The controller's invariant. */
  predicate Valid(c: Config, s: ClusterState) {
    && Sane(c)
    && Indexed(c, s.gpus)
    && (forall i :: 0 <= i < |s.gpus| ==> DeviceInv(c, s.gpus[i]))
    // the cluster sleeps only with deep sleep enabled, at least one device, and every device ready
    && (s.deepSleepActive ==> c.enableDeepSleep && |s.gpus| > 0 && AllReady(s.gpus))
    // the cadence counters stay below their thresholds
    && 0 <= s.statsCounter < Max(StatsThreshold(c), 1)
    && 0 <= s.powerCheckCounter < Max(PowerCheckThreshold(c), 1)
  }

  /** A record moves on without losing its identity, its counters or its all-time maximum. */
  predicate DeviceEvolves(a: Gpu, b: Gpu) {
    SameIdentity(a, b) && StatsLe(a.stats, b.stats) && a.histMaxTemp <= b.histMaxTemp
  }

  /**
   * What no step undoes: the identity of each record, its counters, its
   * all-time maximum, the lines already logged and the commands already issued.
   */
  predicate Evolves(s: ClusterState, r: ClusterState) {
    && |r.gpus| == |s.gpus|
    && (forall i :: 0 <= i < |s.gpus| ==> DeviceEvolves(s.gpus[i], r.gpus[i]))
    && s.log <= r.log
    && s.actions <= r.actions
  }

  lemma EvolvesTrans(a: ClusterState, b: ClusterState, d: ClusterState)
    ensures Evolves(a, b) && Evolves(b, d) ==> Evolves(a, d)
  {
  }

  /** A step that replaces one record and extends the log and the commands. */
  lemma ReplaceEvolves(s: ClusterState, r: ClusterState, k: nat)
    requires k < |s.gpus| && |r.gpus| == |s.gpus|
    requires forall j :: 0 <= j < |s.gpus| && j != k ==> r.gpus[j] == s.gpus[j]
    requires DeviceEvolves(s.gpus[k], r.gpus[k]) && s.log <= r.log && s.actions <= r.actions
    ensures Evolves(s, r)
  {
  }

  // ---------------------------------------------------------------------
  // _update_gpu

  /**
   * The other devices: untouched, except that a wake clears their readiness
   * and start time and keeps their stability time, so a device that stayed
   * stable is ready again on its next heartbeat.
   */
  lemma UpdateGpuOthers(c: Config, s: ClusterState, k: nat, d: DeviceInput)
    requires k < |s.gpus|
    ensures var r := UpdateGpu(c, s, k, d);
      && (forall j :: 0 <= j < |s.gpus| && j != k ==>
            r.gpus[j] == (if WakesCluster(c, s, k, d)
                          then s.gpus[j].(deepSleepMode := false, deepSleepStartTime := 0) else s.gpus[j]))
      && (forall j :: 0 <= j < |s.gpus| && j != k ==> r.gpus[j].heartbeatDuration == s.gpus[j].heartbeatDuration)
      && r.deepSleepActive == (if WakesCluster(c, s, k, d) then false else s.deepSleepActive)
  {
    var r := UpdateGpu(c, s, k, d);
    forall j | 0 <= j < |s.gpus| && j != k
      ensures r.gpus[j] == (if WakesCluster(c, s, k, d)
                            then s.gpus[j].(deepSleepMode := false, deepSleepStartTime := 0) else s.gpus[j])
    {
      UpdateGpuOther(c, s, k, d, j);
    }
    if d.temp != 0 && !IsStableTick(c, s.gpus[k], d.temp) {
      ChangeTickRest(c, SampleStep(s, k, d), k, d);
    }
  }

  /** One other device j through `_update_gpu` on device k. */
  lemma UpdateGpuOther(c: Config, s: ClusterState, k: nat, d: DeviceInput, j: nat)
    requires k < |s.gpus| && j < |s.gpus| && j != k
    ensures UpdateGpu(c, s, k, d).gpus[j] ==
              (if WakesCluster(c, s, k, d) then s.gpus[j].(deepSleepMode := false, deepSleepStartTime := 0) else s.gpus[j])
  {
    if d.temp != 0 && !IsStableTick(c, s.gpus[k], d.temp) {
      var s1 := SampleStep(s, k, d);
      ChangeTickGpus(c, s1, k, d);
      assert s1.gpus[k].deepSleepMode == s.gpus[k].deepSleepMode && s1.gpus[j] == s.gpus[j];
    }
  }

  /**
   * A heartbeat tick issues no command, sets no change flag and keeps the
   * baseline, the maxima, both machines' states and every timer except the
   * fan enter timer, which it never advances.
   */
  lemma UpdateGpuStable(c: Config, s: ClusterState, k: nat, d: DeviceInput)
    requires k < |s.gpus| && d.temp != 0 && IsStableTick(c, s.gpus[k], d.temp)
    ensures var r := UpdateGpu(c, s, k, d); var g := s.gpus[k]; var h := r.gpus[k];
      && r.actions == s.actions && r.statsHasChanges == s.statsHasChanges && r.deepSleepActive == s.deepSleepActive
      && h.currentTemp == d.temp && h.lastTemp == g.lastTemp && h.maxTemp == g.maxTemp && h.histMaxTemp == g.histMaxTemp
      && h.fan == Auto && h.power == g.power
      && h.fanEnterTimer <= g.fanEnterTimer && h.fanRecoverTimer == g.fanRecoverTimer
      && h.powerTriggerTimer == g.powerTriggerTimer && h.powerCoolTimer == g.powerCoolTimer
      && h.heartbeatCounter <= g.heartbeatCounter + 1
  {
  }

  /**
   * A change tick: the reading becomes the baseline, the heartbeat
   * bookkeeping restarts, both maxima cover the reading, the device is no
   * longer ready, and the log gains the wake line (when it woke the cluster)
   * and the status line.
   */
  lemma UpdateGpuChange(c: Config, s: ClusterState, k: nat, d: DeviceInput)
    requires k < |s.gpus| && d.temp != 0 && !IsStableTick(c, s.gpus[k], d.temp)
    ensures var r := UpdateGpu(c, s, k, d); var h := r.gpus[k];
      && h.currentTemp == d.temp && h.lastTemp == d.temp
      && h.heartbeatCounter == 0 && h.heartbeatDuration == 0
      && h.maxTemp >= d.temp && h.histMaxTemp >= d.temp
      && h.maxTemp >= s.gpus[k].maxTemp && h.histMaxTemp >= s.gpus[k].histMaxTemp
      && !h.deepSleepMode
      && |r.log| == |s.log| + (if WakesCluster(c, s, k, d) then 2 else 1)
      && r.log[|r.log| - 1].StatusLine?
      && (WakesCluster(c, s, k, d) ==>
            r.log[|s.log|] == WakeLine(s.gpus[k].index, s.gpus[k].lastTemp, d.temp) && AllNotReady(r.gpus))
  {
    var s1 := s.(gpus := s.gpus[k := Sampled(s.gpus[k], d)]);
    assert UpdateGpu(c, s, k, d) == ChangeTick(c, s1, k, d);
    var w := Woken(s1, k);
    var ch := ChangeDevice(c, w.gpus[k], d);
    ChangeDeviceFacts(c, w.gpus[k], d, ch);
    ChangeTickGpus(c, s1, k, d);
    ChangeTickRest(c, s1, k, d);
  }

  /** No device is ready for deep sleep. */
  predicate AllNotReady(gs: seq<Gpu>) {
    forall i :: 0 <= i < |gs| ==> !gs[i].deepSleepMode
  }

  lemma HeartbeatEvolves(c: Config, s: ClusterState, k: nat, d: DeviceInput)
    requires k < |s.gpus| && d.temp != 0 && IsStableTick(c, s.gpus[k], d.temp)
    ensures Evolves(s, UpdateGpu(c, s, k, d))
  {
    var g := Sampled(s.gpus[k], d);
    var h := Heartbeat(c, g, s.deepSleepActive);
    var r := UpdateGpu(c, s, k, d);
    assert r == s.(gpus := s.gpus[k := h.gpu], log := s.log + h.events);
    ReplaceEvolves(s, r, k);
  }

  lemma WakeEvolves(s: ClusterState, k: nat)
    requires k < |s.gpus|
    ensures Evolves(s, Wake(s, k))
  {
  }

  lemma ChangeTickEvolves(c: Config, s: ClusterState, k: nat, d: DeviceInput)
    requires k < |s.gpus|
    ensures Evolves(s, ChangeTick(c, s, k, d))
  {
    var w := Woken(s, k);
    if s.gpus[k].deepSleepMode { WakeEvolves(s, k); }
    var ch := ChangeDevice(c, w.gpus[k], d);
    ChangeDeviceFacts(c, w.gpus[k], d, ch);
    ChangeTickGpus(c, s, k, d);
    ChangeTickActions(c, s, k, d);
    ChangeTickRest(c, s, k, d);
    var r := ChangeTick(c, s, k, d);
    ReplaceEvolves(w, r, k);
    EvolvesTrans(s, w, r);
  }

  lemma UpdateGpuEvolves(c: Config, s: ClusterState, k: nat, d: DeviceInput)
    requires k < |s.gpus|
    ensures Evolves(s, UpdateGpu(c, s, k, d))
  {
    if d.temp != 0 {
      if IsStableTick(c, s.gpus[k], d.temp) {
        HeartbeatEvolves(c, s, k, d);
      } else {
        var s1 := s.(gpus := s.gpus[k := Sampled(s.gpus[k], d)]);
        ReplaceEvolves(s, s1, k);
        ChangeTickEvolves(c, s1, k, d);
        EvolvesTrans(s, s1, ChangeTick(c, s1, k, d));
      }
    }
  }

  lemma HeartbeatPreservesValid(c: Config, s: ClusterState, k: nat, d: DeviceInput)
    requires Valid(c, s) && k < |s.gpus| && d.temp != 0 && IsStableTick(c, s.gpus[k], d.temp)
    ensures Valid(c, UpdateGpu(c, s, k, d))
  {
    var s1 := SampleStep(s, k, d);
    SampledPreservesValid(c, s, k, d);
    var h := Heartbeat(c, s1.gpus[k], s1.deepSleepActive);
    HeartbeatKeepsInv(c, s1.gpus[k], s1.deepSleepActive);
    var r := HeartbeatStep(c, s1, k);
    assert r.gpus == s1.gpus[k := h.gpu] && r.deepSleepActive == s1.deepSleepActive;
    forall i | 0 <= i < |r.gpus| ensures DeviceInv(c, r.gpus[i]) && SameIdentity(s1.gpus[i], r.gpus[i]) {
      if i != k {
        assert r.gpus[i] == s1.gpus[i];
        assert DeviceInv(c, s1.gpus[i]);
      }
    }
    if r.deepSleepActive {
      assert forall i :: 0 <= i < |r.gpus| ==> r.gpus[i].deepSleepMode by {
        forall i | 0 <= i < |r.gpus| ensures r.gpus[i].deepSleepMode {
          assert s1.gpus[i].deepSleepMode;
        }
      }
    }
    ValidFromParts(c, s1, r);
  }

  /** The heartbeat keeps the per-device invariant of a nominal device, and never clears readiness. */
  lemma HeartbeatKeepsInv(c: Config, g: Gpu, active: bool)
    requires Sane(c) && DeviceInv(c, g) && g.fan == Auto && (!c.enablePowerLimit || g.power == Normal)
    ensures var h := Heartbeat(c, g, active).gpu;
      DeviceInv(c, h) && SameIdentity(g, h) && (g.deepSleepMode ==> h.deepSleepMode)
  {
    HeartbeatFacts(c, g, active, Heartbeat(c, g, active));
  }

  /** The invariant of a step's result, from its parts. */
  lemma ValidFromParts(c: Config, s: ClusterState, r: ClusterState)
    requires Valid(c, s) && |r.gpus| == |s.gpus|
    requires forall i :: 0 <= i < |r.gpus| ==> DeviceInv(c, r.gpus[i]) && SameIdentity(s.gpus[i], r.gpus[i])
    requires r.deepSleepActive ==> c.enableDeepSleep && |r.gpus| > 0 && AllReady(r.gpus)
    requires r.statsCounter == s.statsCounter && r.powerCheckCounter == s.powerCheckCounter
    ensures Valid(c, r)
  {
  }

  lemma WakePreservesValid(c: Config, s: ClusterState, k: nat)
    requires Valid(c, s) && k < |s.gpus|
    ensures Valid(c, Wake(s, k))
  {
    var r := Wake(s, k);
    forall i | 0 <= i < |r.gpus| ensures DeviceInv(c, r.gpus[i]) && SameIdentity(s.gpus[i], r.gpus[i]) {
      assert r.gpus[i] == s.gpus[i].(deepSleepMode := false, deepSleepStartTime := 0);
    }
    ValidFromParts(c, s, r);
  }

  /** Device k keeps its invariant through the change branch because the wake (if any) leaves it not ready. */
  lemma ChangeTickPreservesValid(c: Config, s: ClusterState, k: nat, d: DeviceInput)
    requires Valid(c, s) && k < |s.gpus|
    ensures Valid(c, ChangeTick(c, s, k, d))
  {
    var w := Woken(s, k);
    if s.gpus[k].deepSleepMode { WakePreservesValid(c, s, k); }
    assert !w.gpus[k].deepSleepMode && !w.deepSleepActive;
    var ch := ChangeDevice(c, w.gpus[k], d);
    ChangeDeviceFacts(c, w.gpus[k], d, ch);
    ChangeTickGpus(c, s, k, d);
    ChangeTickRest(c, s, k, d);
    var r := ChangeTick(c, s, k, d);
    assert DeviceInv(c, w.gpus[k]);
    ReplaceDevice(c, w, k, ch.gpu, r);
    ValidFromParts(c, w, r);
  }

  /** Putting a record with the same identity and the invariant in place of device k keeps every device's invariant. */
  lemma ReplaceDevice(c: Config, w: ClusterState, k: nat, g: Gpu, r: ClusterState)
    requires Valid(c, w) && k < |w.gpus| && r.gpus == w.gpus[k := g]
    requires DeviceInv(c, g) && SameIdentity(w.gpus[k], g)
    ensures forall i :: 0 <= i < |r.gpus| ==> DeviceInv(c, r.gpus[i]) && SameIdentity(w.gpus[i], r.gpus[i])
  {
  }

  /** Storing the sample keeps the invariant: it touches no field the invariant reads. */
  lemma SampledPreservesValid(c: Config, s: ClusterState, k: nat, d: DeviceInput)
    requires Valid(c, s) && k < |s.gpus|
    ensures Valid(c, s.(gpus := s.gpus[k := Sampled(s.gpus[k], d)]))
  {
    var r := s.(gpus := s.gpus[k := Sampled(s.gpus[k], d)]);
    forall i | 0 <= i < |r.gpus| ensures DeviceInv(c, r.gpus[i]) && SameIdentity(s.gpus[i], r.gpus[i]) {
      if i == k {
        assert DeviceInv(c, s.gpus[k]);
      }
    }
    assert AllReady(r.gpus) == AllReady(s.gpus) by {
      assert forall i :: 0 <= i < |r.gpus| ==> r.gpus[i].deepSleepMode == s.gpus[i].deepSleepMode;
    }
    ValidFromParts(c, s, r);
  }

  lemma UpdateGpuPreservesValid(c: Config, s: ClusterState, k: nat, d: DeviceInput)
    requires Valid(c, s) && k < |s.gpus|
    ensures Valid(c, UpdateGpu(c, s, k, d))
  {
    if d.temp != 0 {
      if IsStableTick(c, s.gpus[k], d.temp) {
        HeartbeatPreservesValid(c, s, k, d);
      } else {
        var s1 := s.(gpus := s.gpus[k := Sampled(s.gpus[k], d)]);
        SampledPreservesValid(c, s, k, d);
        ChangeTickPreservesValid(c, s1, k, d);
        assert UpdateGpu(c, s, k, d) == ChangeTick(c, s1, k, d);
      }
    }
  }

  /** `UpdateFrom` keeps the invariant, by induction over the devices still to update. */
  lemma {:induction false} UpdateFromPreservesValid(c: Config, s: ClusterState, k: nat, ds: seq<DeviceInput>, r: ClusterState)
    requires r == UpdateFrom(c, s, k, ds)
    ensures Valid(c, s) ==> Valid(c, r) && Evolves(s, r)
    decreases |s.gpus| - k
  {
    if k < |s.gpus| {
      var s1 := UpdateNext(c, s, k, ds);
      UpdateFromPreservesValid(c, s1, k + 1, ds, r);
      EvolvesTrans(s, s1, r);
    }
  }

  /** One device of `UpdateFrom`: the state after it is valid and evolved, and the rest of the pass starts there. */
  lemma UpdateNext(c: Config, s: ClusterState, k: nat, ds: seq<DeviceInput>) returns (s1: ClusterState)
    requires k < |s.gpus|
    ensures Valid(c, s) ==> Valid(c, s1) && Evolves(s, s1)
    ensures |s1.gpus| == |s.gpus| && UpdateFrom(c, s, k, ds) == UpdateFrom(c, s1, k + 1, ds)
  {
    s1 := UpdateGpu(c, s, k, DeviceAt(ds, k));
    if Valid(c, s) {
      UpdateGpuPreservesValid(c, s, k, DeviceAt(ds, k));
      UpdateGpuEvolves(c, s, k, DeviceAt(ds, k));
    }
  }

  // ---------------------------------------------------------------------
  // _check_deep_sleep, the periodic passes, the tick

  lemma CheckDeepSleepPreservesValid(c: Config, s: ClusterState, now: int)
    requires Valid(c, s)
    ensures Valid(c, CheckDeepSleep(c, s, now)) && Evolves(s, CheckDeepSleep(c, s, now))
  {
    var r := CheckDeepSleep(c, s, now);
    CheckDeepSleepFacts(c, s, now, r);
    forall i | 0 <= i < |r.gpus|
      ensures DeviceInv(c, r.gpus[i]) && SameIdentity(s.gpus[i], r.gpus[i]) && DeviceEvolves(s.gpus[i], r.gpus[i])
        && r.gpus[i].deepSleepMode == s.gpus[i].deepSleepMode
    {
      assert DeviceInv(c, s.gpus[i]);
    }
    assert AllReady(r.gpus) == AllReady(s.gpus);
    ValidFromParts(c, s, r);
  }

  lemma CadencePreservesValid(c: Config, s: ClusterState, newDisplay: Option<string>)
    requires Valid(c, s)
    ensures Valid(c, Cadence(c, s, newDisplay)) && Evolves(s, Cadence(c, s, newDisplay))
  {
    var r := Cadence(c, s, newDisplay);
    CadenceFacts(c, s, newDisplay, r);
    forall i | 0 <= i < |r.gpus|
      ensures DeviceInv(c, r.gpus[i]) && DeviceEvolves(s.gpus[i], r.gpus[i])
        && r.gpus[i].deepSleepMode == s.gpus[i].deepSleepMode
        && r.gpus[i].index == s.gpus[i].index && r.gpus[i].fans == s.gpus[i].fans
    {
      assert DeviceInv(c, s.gpus[i]);
    }
    assert AllReady(r.gpus) == AllReady(s.gpus);
  }

  /** On a valid state the reconciliation pass restores each device at most once, in device order. */
  lemma RecoveriesOnePerDevice(c: Config, s: ClusterState)
    requires Valid(c, s)
    ensures forall a :: 0 <= a < |Recoveries(s.gpus)| ==> Recoveries(s.gpus)[a].SetPowerLimit?
    ensures forall a, b :: 0 <= a < b < |Recoveries(s.gpus)| ==> Recoveries(s.gpus)[a].gpu < Recoveries(s.gpus)[b].gpu
  {
    RecoveriesInDeviceOrder(s.gpus);
  }

  /** A tick keeps the invariant and undoes nothing. */
  lemma TickPreservesValid(c: Config, s: ClusterState, t: TickInput)
    requires Valid(c, s)
    ensures Valid(c, Tick(c, s, t)) && Evolves(s, Tick(c, s, t))
  {
    var s1 := UpdateFrom(c, s, 0, t.devices);
    UpdateFromPreservesValid(c, s, 0, t.devices, UpdateFrom(c, s, 0, t.devices));
    var s2 := CheckDeepSleep(c, s1, t.now);
    CheckDeepSleepPreservesValid(c, s1, t.now);
    CadencePreservesValid(c, s2, t.newDisplay);
    EvolvesTrans(s, s1, s2);
    EvolvesTrans(s, s2, Tick(c, s, t));
  }

  /** Any number of ticks keeps the invariant and undoes nothing. */
  lemma {:induction false} RunTicksPreservesValid(c: Config, s: ClusterState, ts: seq<TickInput>)
    requires Valid(c, s)
    ensures Valid(c, RunTicks(c, s, ts)) && Evolves(s, RunTicks(c, s, ts))
    decreases |ts|
  {
    if |ts| > 0 {
      var s1 := Tick(c, s, ts[0]);
      TickPreservesValid(c, s, ts[0]);
      RunTicksPreservesValid(c, s1, ts[1..]);
      EvolvesTrans(s, s1, RunTicks(c, s1, ts[1..]));
    }
  }

  /**
   * After a tick with deep sleep enabled the cluster sleeps exactly when
   * every device is ready, and the loop then sleeps `multiplier` intervals.
   */
  lemma TickSleepsIffAllReady(c: Config, s: ClusterState, t: TickInput)
    requires c.checkInterval > 0 && c.enableDeepSleep && |s.gpus| > 0
    ensures var r := Tick(c, s, t);
      && (r.deepSleepActive <==> AllReady(r.gpus))
      && SleepInterval(c, r) == (if AllReady(r.gpus) then c.checkInterval * c.deepSleepMultiplier else c.checkInterval)
  {
    var s1 := UpdateFrom(c, s, 0, t.devices);
    var s2 := CheckDeepSleep(c, s1, t.now);
    var r := Cadence(c, s2, t.newDisplay);
    CheckDeepSleepFacts(c, s1, t.now, s2);
    CadenceFacts(c, s2, t.newDisplay, r);
    assert AllReady(r.gpus) == AllReady(s2.gpus) by {
      if StatsDue(c, s2) {
        assert forall i :: 0 <= i < |s2.gpus| ==> r.gpus[i].deepSleepMode == s2.gpus[i].deepSleepMode;
      }
    }
    assert AllReady(s2.gpus) == AllReady(s1.gpus) by {
      assert forall i :: 0 <= i < |s1.gpus| ==> s2.gpus[i].deepSleepMode == s1.gpus[i].deepSleepMode;
    }
  }

  /** With deep sleep disabled the cluster never sleeps and the interval is always the check interval. */
  lemma {:induction false} NoDeepSleepWhenDisabled(c: Config, s: ClusterState, ts: seq<TickInput>)
    requires Valid(c, s) && !c.enableDeepSleep
    ensures !RunTicks(c, s, ts).deepSleepActive
    ensures forall i :: 0 <= i < |ts| ==> Intervals(c, s, ts)[i] == c.checkInterval
    decreases |ts|
  {
    if |ts| > 0 {
      var s1 := Tick(c, s, ts[0]);
      TickPreservesValid(c, s, ts[0]);
      NoDeepSleepWhenDisabled(c, s1, ts[1..]);
      assert Intervals(c, s, ts) == [SleepInterval(c, s1)] + Intervals(c, s1, ts[1..]);
    }
  }

  // ---------------------------------------------------------------------
  // initialize

  /** Device i from `count` on all have a readable default cap. */
  predicate DefaultsReadable(defaults: seq<int>, i: nat, count: nat) {
    forall j :: i <= j < count ==> PowerAt(defaults, j) != 0
  }

  lemma {:induction false} InitFromFacts(c: Config, s: ClusterState, i: nat, count: nat, defaults: seq<int>, caps: seq<int>)
    requires Sane(c) && Indexed(c, s.gpus) && |s.gpus| == i && i <= count
    requires forall j :: 0 <= j < |s.gpus| ==> DeviceInv(c, s.gpus[j])
    ensures var r := InitFrom(c, s, i, count, defaults, caps);
      && (r.ok <==> DefaultsReadable(defaults, i, count))
      && r.state.display == s.display && r.state.deepSleepActive == s.deepSleepActive
      && r.state.statsCounter == s.statsCounter && r.state.powerCheckCounter == s.powerCheckCounter
      && s.gpus <= r.state.gpus && Indexed(c, r.state.gpus)
      && (forall j :: 0 <= j < |r.state.gpus| ==> DeviceInv(c, r.state.gpus[j]))
      && (forall j :: i <= j < |r.state.gpus| ==> r.state.gpus[j] == NewGpu(j, PowerAt(defaults, j), c.reducedPowerPercent))
      && (r.ok ==> |r.state.gpus| == count)
    decreases count - i
  {
    if i < count && PowerAt(defaults, i) != 0 {
      var g := NewGpu(i, PowerAt(defaults, i), c.reducedPowerPercent);
      NewGpuInv(c, i, PowerAt(defaults, i));
      var restore := if c.enablePowerLimit && PowerAt(caps, i) < g.defaultPower then [SetPowerLimit(i, g.defaultPower)] else [];
      var s1 := s.(gpus := s.gpus + [g], actions := s.actions + [ResetAutoFan(i)] + restore);
      InitFromFacts(c, s1, i + 1, count, defaults, caps);
    }
  }

  /**
   * `initialize` succeeds exactly when a display is found, there is at least
   * one device and every device has a readable default cap; it then leaves
   * one fresh record per device, in index order, and the invariant holds.
   */
  lemma InitializeFacts(c: Config, display: Option<string>, count: nat, defaults: seq<int>, caps: seq<int>)
    requires Sane(c)
    ensures var r := Initialize(c, Initial, display, count, defaults, caps);
      && (r.ok <==> Truthy(display) && count > 0 && DefaultsReadable(defaults, 0, count))
      && r.state.display == display
      && (r.ok ==> |r.state.gpus| == count && Valid(c, r.state)
                   && forall i :: 0 <= i < count ==> r.state.gpus[i] == NewGpu(i, PowerAt(defaults, i), c.reducedPowerPercent))
  {
    if Truthy(display) && count > 0 {
      InitFromFacts(c, Initial.(display := display), 0, count, defaults, caps);
    }
  }

  /** A run keeps the invariant from initialization on, and its final report shows every all-time maximum. */
  lemma RunValid(c: Config, display: Option<string>, count: nat, defaults: seq<int>, caps: seq<int>, ts: seq<TickInput>)
    requires Sane(c)
    ensures var init := Initialize(c, Initial, display, count, defaults, caps);
      init.ok ==>
        var s := RunTicks(c, init.state, ts);
        && Valid(c, s) && |s.gpus| == count
        && Run(c, display, count, defaults, caps, ts).log == s.log + FinalReport(s.gpus)
        && forall i :: 0 <= i < count ==> s.gpus[i].index == i && s.gpus[i].histMaxTemp >= 0
  {
    var init := Initialize(c, Initial, display, count, defaults, caps);
    InitializeFacts(c, display, count, defaults, caps);
    if init.ok {
      RunTicksPreservesValid(c, init.state, ts);
    }
  }
}
