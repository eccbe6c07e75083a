/**
 * The bounded retry helpers `_enable_manual_fan_with_retry` and
 * `_reset_auto_fan_with_retry`. The outcome of every call into the device
 * query interface is an oracle input; the commands issued are returned.
 */
module FanRetry {
  import opened GpuState

  /** The helpers' default `max_retries`. */
  const MaxRetries: nat := 3

  /**
   * Answers of the fan actuation calls: `enableOk[r]` and `resetOk[r]` for
   * attempt r, `speedOk[r][j]` for the speed-set of the j-th fan in attempt
   * r. An answer that is missing counts as a failed call.
   */
  datatype FanOracle = FanOracle(enableOk: seq<bool>, speedOk: seq<seq<bool>>, resetOk: seq<bool>)

  /** The oracle's answer number i; false when there is none. */
  predicate At(s: seq<bool>, i: int) {
    0 <= i < |s| && s[i]
  }

  predicate SpeedOk(o: FanOracle, r: int, j: int) {
    0 <= r < |o.speedOk| && At(o.speedOk[r], j)
  }

  /** Attempt r of the manual-fan helper succeeds: enabling works and so does every fan's speed-set. */
  predicate ManualAttemptOk(o: FanOracle, r: int, nFans: nat) {
    At(o.enableOk, r) && forall j :: 0 <= j < nFans ==> SpeedOk(o, r, j)
  }

  /** Whether a helper reported success, and the commands it issued, in order. */
  datatype Retry = Retry(ok: bool, actions: seq<Action>)

  /** The speed-sets of attempt r from the j-th fan on: in fan order, stopping after the first failure. */
  function SpeedSets(fans: seq<int>, speed: int, o: FanOracle, r: int, j: nat): seq<Action>
    decreases |fans| - j
  {
    if j >= |fans| then []
    else [SetFanSpeed(fans[j], speed)] + (if SpeedOk(o, r, j) then SpeedSets(fans, speed, o, r, j + 1) else [])
  }

  /** The commands of attempt r: enable manual control, and only if that worked, the speed-sets. */
  function ManualAttemptActions(gpu: int, fans: seq<int>, speed: int, o: FanOracle, r: int): seq<Action> {
    [EnableManualFan(gpu)] + (if At(o.enableOk, r) then SpeedSets(fans, speed, o, r, 0) else [])
  }

  /** `_enable_manual_fan_with_retry` from attempt r on. */
  function ManualRetry(gpu: int, fans: seq<int>, speed: int, o: FanOracle, r: nat): Retry
    decreases MaxRetries - r
  {
    if r >= MaxRetries then Retry(false, [])
    else
      var acts := ManualAttemptActions(gpu, fans, speed, o, r);
      if ManualAttemptOk(o, r, |fans|) then Retry(true, acts)
      else
        var rest := ManualRetry(gpu, fans, speed, o, r + 1);
        Retry(rest.ok, acts + rest.actions)
  }

  /** `_reset_auto_fan_with_retry` from attempt r on. */
  function ResetRetry(gpu: int, o: FanOracle, r: nat): Retry
    decreases MaxRetries - r
  {
    if r >= MaxRetries then Retry(false, [])
    else if At(o.resetOk, r) then Retry(true, [ResetAutoFan(gpu)])
    else
      var rest := ResetRetry(gpu, o, r + 1);
      Retry(rest.ok, [ResetAutoFan(gpu)] + rest.actions)
  }

  /** What a successful manual-fan helper adds to the counters: one each, not one per fan. */
  function ManualFanStats(s: Stats): Stats {
    s.(fanControl := s.fanControl + 1, fanSpeedSet := s.fanSpeedSet + 1)
  }

  /** What a successful auto-fan helper adds to the counters. */
  function AutoFanStats(s: Stats): Stats {
    s.(fanControl := s.fanControl + 1)
  }

  /** The number of attempts in a command list: each attempt starts with one enable or reset command. */
  function Attempts(acts: seq<Action>): nat {
    if |acts| == 0 then 0
    else (if acts[0].EnableManualFan? || acts[0].ResetAutoFan? then 1 else 0) + Attempts(acts[1..])
  }

  lemma {:induction false} AttemptsAppend(a: seq<Action>, b: seq<Action>)
    ensures Attempts(a + b) == Attempts(a) + Attempts(b)
  {
    if |a| == 0 {
      assert a + b == b;
    } else {
      assert (a + b)[1..] == a[1..] + b;
      AttemptsAppend(a[1..], b);
    }
  }

  /** The speed-sets of one attempt from fan j on address fans j, j+1, ... in order, at the requested speed. */
  lemma {:induction false} SpeedSetsTargets(fans: seq<int>, speed: int, o: FanOracle, r: int, j: nat)
    requires j <= |fans|
    decreases |fans| - j
    ensures var ss := SpeedSets(fans, speed, o, r, j);
      && |ss| <= |fans| - j
      && (j < |fans| ==> |ss| > 0)
      && (forall k :: 0 <= k < |ss| ==> ss[k] == SetFanSpeed(fans[j + k], speed))
  {
    if j < |fans| && SpeedOk(o, r, j) {
      SpeedSetsTargets(fans, speed, o, r, j + 1);
      var rest := SpeedSets(fans, speed, o, r, j + 1);
      var ss := [SetFanSpeed(fans[j], speed)] + rest;
      forall k | 0 <= k < |ss| ensures ss[k] == SetFanSpeed(fans[j + k], speed) {
        if k > 0 { assert ss[k] == rest[k - 1]; }
      }
    }
  }

  /** Every speed-set but the last succeeded, and they stop at the last fan or at the first failure. */
  lemma {:induction false} SpeedSetsStop(fans: seq<int>, speed: int, o: FanOracle, r: int, j: nat)
    requires j <= |fans|
    decreases |fans| - j
    ensures var ss := SpeedSets(fans, speed, o, r, j);
      && (forall i :: j <= i < j + |ss| - 1 ==> SpeedOk(o, r, i))
      && (|ss| == |fans| - j || !SpeedOk(o, r, j + |ss| - 1))
  {
    if j < |fans| && SpeedOk(o, r, j) {
      SpeedSetsStop(fans, speed, o, r, j + 1);
      var rest := SpeedSets(fans, speed, o, r, j + 1);
      assert SpeedSets(fans, speed, o, r, j) == [SetFanSpeed(fans[j], speed)] + rest;
    }
  }

  /** The speed-sets open no attempt of their own. */
  lemma {:induction false} SpeedSetsNoAttempt(fans: seq<int>, speed: int, o: FanOracle, r: int, j: nat)
    decreases |fans| - j
    ensures Attempts(SpeedSets(fans, speed, o, r, j)) == 0
  {
    if j < |fans| {
      var rest := if SpeedOk(o, r, j) then SpeedSets(fans, speed, o, r, j + 1) else [];
      if SpeedOk(o, r, j) {
        SpeedSetsNoAttempt(fans, speed, o, r, j + 1);
      }
      AttemptsAppend([SetFanSpeed(fans[j], speed)], rest);
      assert Attempts([SetFanSpeed(fans[j], speed)]) == 0;
    }
  }

  /** The manual-fan helper succeeds exactly when one of its remaining attempts does. */
  lemma {:induction false} ManualRetryOk(gpu: int, fans: seq<int>, speed: int, o: FanOracle, r: nat)
    decreases MaxRetries - r
    ensures ManualRetry(gpu, fans, speed, o, r).ok <==>
            exists a :: r <= a < MaxRetries && ManualAttemptOk(o, a, |fans|)
  {
    if r < MaxRetries && !ManualAttemptOk(o, r, |fans|) {
      ManualRetryOk(gpu, fans, speed, o, r + 1);
      if exists a :: r <= a < MaxRetries && ManualAttemptOk(o, a, |fans|) {
        var a :| r <= a < MaxRetries && ManualAttemptOk(o, a, |fans|);
        assert a != r;
      }
    }
  }

  /**
   * The manual-fan helper makes at most `MaxRetries` attempts, and all of
   * them when it fails.
   */
  lemma {:induction false} ManualRetryAttempts(gpu: int, fans: seq<int>, speed: int, o: FanOracle, r: nat)
    requires r <= MaxRetries
    decreases MaxRetries - r
    ensures var R := ManualRetry(gpu, fans, speed, o, r);
      && Attempts(R.actions) <= MaxRetries - r
      && (!R.ok ==> Attempts(R.actions) == MaxRetries - r)
  {
    if r < MaxRetries {
      var acts := ManualAttemptActions(gpu, fans, speed, o, r);
      var sets := if At(o.enableOk, r) then SpeedSets(fans, speed, o, r, 0) else [];
      SpeedSetsNoAttempt(fans, speed, o, r, 0);
      assert Attempts(sets) == 0;
      AttemptsAppend([EnableManualFan(gpu)], sets);
      assert Attempts([EnableManualFan(gpu)]) == 1;
      if !ManualAttemptOk(o, r, |fans|) {
        ManualRetryAttempts(gpu, fans, speed, o, r + 1);
        AttemptsAppend(acts, ManualRetry(gpu, fans, speed, o, r + 1).actions);
      }
    }
  }

  /** The auto-fan helper succeeds exactly when one of its remaining attempts does. */
  lemma {:induction false} ResetRetryOk(gpu: int, o: FanOracle, r: nat)
    decreases MaxRetries - r
    ensures ResetRetry(gpu, o, r).ok <==> exists a :: r <= a < MaxRetries && At(o.resetOk, a)
  {
    if r < MaxRetries && !At(o.resetOk, r) {
      ResetRetryOk(gpu, o, r + 1);
      if exists a :: r <= a < MaxRetries && At(o.resetOk, a) {
        var a :| r <= a < MaxRetries && At(o.resetOk, a);
        assert a != r;
      }
    }
  }

  /**
   * The auto-fan helper issues one reset command per attempt: at most
   * `MaxRetries`, all of them when it fails, and it stops at the first that works.
   */
  lemma {:induction false} ResetRetryAttempts(gpu: int, o: FanOracle, r: nat)
    requires r <= MaxRetries
    decreases MaxRetries - r
    ensures var R := ResetRetry(gpu, o, r);
      && |R.actions| <= MaxRetries - r
      && (forall k :: 0 <= k < |R.actions| ==> R.actions[k] == ResetAutoFan(gpu))
      && (forall a :: r <= a < r + |R.actions| - 1 ==> !At(o.resetOk, a))
      && (!R.ok ==> |R.actions| == MaxRetries - r)
      && (R.ok ==> |R.actions| > 0 && At(o.resetOk, r + |R.actions| - 1))
  {
    if r < MaxRetries && !At(o.resetOk, r) {
      ResetRetryAttempts(gpu, o, r + 1);
      var rest := ResetRetry(gpu, o, r + 1).actions;
      var acts := [ResetAutoFan(gpu)] + rest;
      forall k | 0 <= k < |acts| ensures acts[k] == ResetAutoFan(gpu) {
        if k > 0 { assert acts[k] == rest[k - 1]; }
      }
      assert forall a :: r <= a < r + |acts| - 1 ==> !At(o.resetOk, a);
    }
  }

  /**
   * One attempt of the manual-fan helper: enable manual control, then set
   * each fan in turn, stopping at the first fan that fails.
   */
  method ManualAttempt(g: Gpu, speed: int, o: FanOracle, retry: int) returns (success: bool, attempt: seq<Action>)
    ensures attempt == ManualAttemptActions(g.index, g.fans, speed, o, retry)
    ensures success == ManualAttemptOk(o, retry, |g.fans|)
  {
    attempt := [EnableManualFan(g.index)];
    success := At(o.enableOk, retry);
    if success {
      var sets := [];
      var j := 0;
      while j < |g.fans|
        invariant 0 <= j <= |g.fans|
        invariant SpeedSets(g.fans, speed, o, retry, 0) == sets + SpeedSets(g.fans, speed, o, retry, j)
        invariant forall i :: 0 <= i < j ==> SpeedOk(o, retry, i)
        invariant success
      {
        ghost var rest := SpeedSets(g.fans, speed, o, retry, j + 1);
        assert SpeedSets(g.fans, speed, o, retry, j) ==
               [SetFanSpeed(g.fans[j], speed)] + (if SpeedOk(o, retry, j) then rest else []);
        sets := sets + [SetFanSpeed(g.fans[j], speed)];
        if !SpeedOk(o, retry, j) {
          assert sets == SpeedSets(g.fans, speed, o, retry, 0);
          success := false;
          break;
        }
        assert sets + rest == SpeedSets(g.fans, speed, o, retry, 0);
        j := j + 1;
      }
      assert sets == SpeedSets(g.fans, speed, o, retry, 0);
      attempt := attempt + sets;
    }
  }

  /**
   * `_enable_manual_fan_with_retry`: up to three attempts; each enables
   * manual control and, if that works, sets every fan to `speed`, giving up
   * on the attempt at the first fan that fails. On success the device's
   * `fan_control` and `fan_speed_set` counters rise by one.
   */
  method EnableManualFanWithRetry(g: Gpu, speed: int, o: FanOracle) returns (ok: bool, g': Gpu, acts: seq<Action>)
    ensures Retry(ok, acts) == ManualRetry(g.index, g.fans, speed, o, 0)
    ensures ok <==> exists r :: 0 <= r < MaxRetries && ManualAttemptOk(o, r, |g.fans|)
    ensures g' == if ok then g.(stats := ManualFanStats(g.stats)) else g
  {
    ghost var whole := ManualRetry(g.index, g.fans, speed, o, 0);
    acts := [];
    for retry := 0 to MaxRetries
      invariant whole == Retry(ManualRetry(g.index, g.fans, speed, o, retry).ok,
                               acts + ManualRetry(g.index, g.fans, speed, o, retry).actions)
    {
      var success, attempt := ManualAttempt(g, speed, o, retry);
      ManualRetryAccumulates(g.index, g.fans, speed, o, retry, acts, whole);
      acts := acts + attempt;
      if success {
        g' := g.(stats := ManualFanStats(g.stats));
        ManualRetryOk(g.index, g.fans, speed, o, 0);
        return true, g', acts;
      }
    }
    assert acts + [] == acts;
    ok, g' := false, g;
    ManualRetryOk(g.index, g.fans, speed, o, 0);
  }

  /** The commands of attempt r join those already issued, and either end the helper or precede the remaining attempts. */
  lemma ManualRetryAccumulates(gpu: int, fans: seq<int>, speed: int, o: FanOracle, r: nat, acts: seq<Action>, whole: Retry)
    requires r < MaxRetries
    requires whole == Retry(ManualRetry(gpu, fans, speed, o, r).ok, acts + ManualRetry(gpu, fans, speed, o, r).actions)
    ensures var attempt := ManualAttemptActions(gpu, fans, speed, o, r);
      && (ManualAttemptOk(o, r, |fans|) ==> whole == Retry(true, acts + attempt))
      && (!ManualAttemptOk(o, r, |fans|) ==>
            whole == Retry(ManualRetry(gpu, fans, speed, o, r + 1).ok,
                           (acts + attempt) + ManualRetry(gpu, fans, speed, o, r + 1).actions))
  {
    var attempt := ManualAttemptActions(gpu, fans, speed, o, r);
    var rest := ManualRetry(gpu, fans, speed, o, r + 1);
    assert acts + (attempt + rest.actions) == (acts + attempt) + rest.actions;
  }

  /**
   * `_reset_auto_fan_with_retry`: up to three attempts to hand the fans
   * back to the driver; on success `fan_control` rises by one.
   */
  method ResetAutoFanWithRetry(g: Gpu, o: FanOracle) returns (ok: bool, g': Gpu, acts: seq<Action>)
    ensures Retry(ok, acts) == ResetRetry(g.index, o, 0)
    ensures ok <==> exists r :: 0 <= r < MaxRetries && At(o.resetOk, r)
    ensures g' == if ok then g.(stats := AutoFanStats(g.stats)) else g
  {
    ghost var whole := ResetRetry(g.index, o, 0);
    acts := [];
    for retry := 0 to MaxRetries
      invariant whole == Retry(ResetRetry(g.index, o, retry).ok, acts + ResetRetry(g.index, o, retry).actions)
    {
      ResetRetryAccumulates(g.index, o, retry, acts, whole);
      acts := acts + [ResetAutoFan(g.index)];
      if At(o.resetOk, retry) {
        g' := g.(stats := AutoFanStats(g.stats));
        ResetRetryOk(g.index, o, 0);
        return true, g', acts;
      }
    }
    assert acts + [] == acts;
    ok, g' := false, g;
    ResetRetryOk(g.index, o, 0);
  }

  /** The reset command of attempt r joins those already issued, and either ends the helper or precedes the remaining attempts. */
  lemma ResetRetryAccumulates(gpu: int, o: FanOracle, r: nat, acts: seq<Action>, whole: Retry)
    requires r < MaxRetries
    requires whole == Retry(ResetRetry(gpu, o, r).ok, acts + ResetRetry(gpu, o, r).actions)
    ensures At(o.resetOk, r) ==> whole == Retry(true, acts + [ResetAutoFan(gpu)])
    ensures !At(o.resetOk, r) ==>
              whole == Retry(ResetRetry(gpu, o, r + 1).ok, (acts + [ResetAutoFan(gpu)]) + ResetRetry(gpu, o, r + 1).actions)
  {
    var rest := ResetRetry(gpu, o, r + 1);
    assert acts + ([ResetAutoFan(gpu)] + rest.actions) == (acts + [ResetAutoFan(gpu)]) + rest.actions;
  }
}
