/** How old a sample can be when it is trained on, over every run. */
module AsyncStaleness {
  import opened Basics
  import opened AsyncModel
  import opened AsyncFrames
  import opened AsyncCapacity
  import opened AsyncConservation

  /** One more version is possible once the monitor has unpaused between pause and resume. */
  function Breach(r: Rollouter): nat { if r.breached then 1 else 0 }

  // ---------------------------------------------------------------- the trainer's clock

  /** Samples the trainer has consumed when it starts a version. */
  function Cycles(c: Limits, version: int): int {
    (version - c.baseVersion) * c.Cycle()
  }

  /** Samples that k training steps use. */
  function Used(c: Limits, k: int): int { k * c.requiredSamples }

  function Consumed(c: Limits, t: Trainer): int {
    Cycles(c, t.version) + Used(c, t.localStep - 1) + |t.batch|
  }

  ghost predicate ClockInv(c: Limits, s: State) {
    && s.t.version >= c.baseVersion
    && 1 <= s.t.localStep <= c.triggerSteps
    && |s.t.batch| <= c.requiredSamples
    && (!s.t.stopped ==> |s.q.taken| == Consumed(c, s.t))
    && (!s.t.stopped && !s.t.phase.Collecting? ==> s.t.localStep == 1 && s.t.batch == [])
  }

  lemma NextCycle(c: Limits, version: int)
    ensures Cycles(c, version + 1) == Cycles(c, version) + c.Cycle()
  {
    var k := version - c.baseVersion;
    assert (k + 1) * c.Cycle() == k * c.Cycle() + c.Cycle();
  }

  lemma CycleSteps(c: Limits, k: nat)
    requires 1 <= k <= c.triggerSteps
    ensures Used(c, 0) == 0 <= Used(c, k - 1)
    ensures Used(c, k - 1) + c.requiredSamples == Used(c, k) <= c.Cycle()
    ensures k == c.triggerSteps ==> Used(c, k) == c.Cycle()
    ensures k < c.triggerSteps ==> Used(c, k) + c.requiredSamples <= c.Cycle()
  {
    var n := c.triggerSteps - k;
    assert k * c.requiredSamples + n * c.requiredSamples == c.triggerSteps * c.requiredSamples;
    if n > 0 { assert n * c.requiredSamples == c.requiredSamples + (n - 1) * c.requiredSamples; }
  }

  lemma TrainKeepsClock(c: Limits, s: State, step: Step)
    requires c.Valid() && ClockInv(c, s) && TrainEnabled(c, s, step)
    ensures ClockInv(c, ApplyTrain(c, s, step))
  {
    hide Cycles, Used, Limits.Cycle;
    CycleSteps(c, s.t.localStep);
    NextCycle(c, s.t.version);
  }

  /** The u-th message used is used at the version whose cycle holds u. */
  ghost predicate UseClockInv(c: Limits, s: State) {
    forall u :: 0 <= u < |s.t.trained| ==> InVersion(c, u, s.t.trained[u].version)
  }

  ghost predicate InVersion(c: Limits, index: int, version: int) {
    Cycles(c, version) <= index < Cycles(c, version) + c.Cycle()
  }

  lemma TrainKeepsUseClock(c: Limits, s: State, step: Step)
    requires c.Valid() && TrainEnabled(c, s, step) && ClockInv(c, s) && TakenInv(s) && UseClockInv(c, s)
    ensures UseClockInv(c, ApplyTrain(c, s, step))
  {
    hide Cycles, Used, Limits.Cycle;
    if step.STrain? {
      CycleSteps(c, s.t.localStep);
      assert |TrainedMsgs(s.t.trained)| == |s.t.trained|;
    }
  }

  lemma {:induction false} UseClockHolds(c: Limits, steps: seq<Step>)
    requires c.Valid() && After(c, steps).Some?
    ensures UseClockInv(c, After(c, steps).value)
  {
    hide ApplyRollout, ApplyTrain, RolloutEnabled, TrainEnabled, ClockInv, PhaseInv, StampInv, DeadlineInv, TakenInv;
    if steps != [] {
      var last := |steps| - 1;
      UseClockHolds(c, steps[..last]);
      var s := After(c, steps[..last]).value;
      if RolloutEnabled(c, s, steps[last]) {
        RolloutFrame(c, s, steps[last]);
      } else {
        StalenessHolds(c, steps[..last]);
        EndHolds(c, steps[..last]);
        TrainKeepsUseClock(c, s, steps[last]);
      }
    }
  }

  // ---------------------------------------------------------------- versions and pausing

  ghost predicate PhaseInv(c: Limits, s: State) {
    && s.r.version >= c.baseVersion
    && (s.r.lock.ByPause? <==> s.sync.Pausing?)
    && (s.r.lock.ByUpdate? <==> s.sync.Updating?)
    && (s.r.monitorTrigger <==> s.sync.Quiet? || s.sync.PauseRequested? || s.sync.Pausing?)
    && (s.sync.Pausing? ==> s.r.paused)
    && (s.t.phase.InSync? <==> s.sync.PauseRequested? || s.sync.Pausing? || s.sync.Paused?)
    && (s.t.phase.InSync? ==> s.syncVersion == s.t.version)
    && s.t.version == s.r.version + Ahead(s)
    && (s.sync.UpdateRequested? ==> s.syncVersion == s.r.version + 1)
    && s.r.weights == s.r.version + (if s.sync.UpdateRequested? then 1 else 0)
    && (!s.r.monitorTrigger && !s.r.breached ==> s.r.paused && s.r.running == map[])
  }

  // How far the trainer's version is ahead of the rollouter's.
  function Ahead(s: State): nat {
    (if s.t.phase.WaitLast? then 1 else 0)
    + (if s.t.phase.InSync? || s.sync.UpdateRequested? then 1 else 0)
  }

  /** A stamp put in flight is at most one version old, and current once a pause has completed. */
  ghost predicate StampInv(c: Limits, s: State) {
    forall id :: id in s.r.running && s.r.running[id].Putting? ==>
      && c.baseVersion <= s.r.running[id].stamp <= s.r.version <= s.r.running[id].stamp + 1
      && (!s.r.breached || s.sync.Paused? || s.sync.UpdateRequested? ==> s.r.running[id].stamp == s.r.version)
  }

  lemma RolloutKeepsPhase(c: Limits, s: State, step: Step)
    requires c.Valid() && PhaseInv(c, s) && StampInv(c, s) && RolloutEnabled(c, s, step)
    ensures var s' := ApplyRollout(c, s, step); PhaseInv(c, s') && StampInv(c, s')
  {
    RolloutFrame(c, s, step);
    TaskFrame(c, s, step);
    hide ApplyRollout, RolloutEnabled;
  }

  lemma TrainKeepsPhase(c: Limits, s: State, step: Step)
    requires c.Valid() && PhaseInv(c, s) && StampInv(c, s) && TrainEnabled(c, s, step)
    ensures var s' := ApplyTrain(c, s, step); PhaseInv(c, s') && StampInv(c, s')
  {
    hide PhaseInv, StampInv, TrainEnabled, ApplyTrain;
    if step.SGet? || step.STrain? || step.SFinalTrigger? || step.SBeginSync? || step.SPauseBegin? || step.SPauseEnd? {
      EarlyKeepsPhase(c, s, step);
    } else {
      LateKeepsPhase(c, s, step);
    }
  }

  lemma EarlyKeepsPhase(c: Limits, s: State, step: Step)
    requires c.Valid() && PhaseInv(c, s) && StampInv(c, s) && TrainEnabled(c, s, step)
    requires step.SGet? || step.STrain? || step.SFinalTrigger? || step.SBeginSync? || step.SPauseBegin? || step.SPauseEnd?
    ensures var s' := ApplyTrain(c, s, step); PhaseInv(c, s') && StampInv(c, s')
  {
  }

  lemma LateKeepsPhase(c: Limits, s: State, step: Step)
    requires c.Valid() && PhaseInv(c, s) && StampInv(c, s) && TrainEnabled(c, s, step)
    requires !step.SGet? && !step.STrain? && !step.SFinalTrigger? && !step.SBeginSync? && !step.SPauseBegin? && !step.SPauseEnd?
    ensures var s' := ApplyTrain(c, s, step); PhaseInv(c, s') && StampInv(c, s')
  {
  }

  // ---------------------------------------------------------------- deadlines

  /** Every sample stamped `stamp` is put before the trainer has consumed this many samples. */
  function Deadline(c: Limits, stamp: int, breach: nat): int {
    (stamp - c.baseVersion + 1 + breach) * c.Cycle()
  }

  /** The consumption index a message will have is below its deadline plus the queue's capacity. */
  ghost predicate InTime(c: Limits, s: State, m: Msg, index: int) {
    m.Sample? ==> m.stamp <= s.r.version && index < Deadline(c, m.stamp, Breach(s.r)) + c.MaxQueue()
  }

  ghost predicate DeadlineInv(c: Limits, s: State) {
    && (!s.t.stopped ==> forall j :: 0 <= j < |s.q.items| ==> InTime(c, s, s.q.items[j], |s.q.taken| + j))
    && (!s.t.stopped ==> forall i :: 0 <= i < |s.t.batch| ==>
          InTime(c, s, s.t.batch[i], |s.q.taken| - |s.t.batch| + i))
    && (forall i :: 0 <= i < |s.t.batch| ==> s.t.batch[i].Sample?)
    && (forall u :: 0 <= u < |s.t.trained| ==> Fresh(c, s.t.trained[u], Breach(s.r)))
  }

  /** A use of a sample is never before its version and at most this many versions after. */
  ghost predicate Fresh(c: Limits, u: Use, breach: nat) {
    c.Cycle() >= 1 && u.msg.Sample? &&
    u.msg.stamp <= u.version <= u.msg.stamp + CeilDiv(c.MaxQueue(), c.Cycle()) + breach
  }

  lemma Scale(a: int, b: int, k: nat)
    requires a <= b
    ensures a * k <= b * k
  {
    assert b * k - a * k == (b - a) * k >= 0;
  }

  lemma PutBeforeDeadline(c: Limits, s: State, id: nat)
    requires c.Valid() && ClockInv(c, s) && PhaseInv(c, s) && StampInv(c, s) && !s.t.stopped
    requires id in s.r.running && s.r.running[id].Putting?
    ensures |s.q.taken| <= Deadline(c, s.r.running[id].stamp, Breach(s.r))
  {
    var k := s.t.version - c.baseVersion;
    var bound := s.r.running[id].stamp - c.baseVersion + 1 + Breach(s.r);
    if s.t.phase.Collecting? {
      CycleSteps(c, s.t.localStep);
      assert (k + 1) * c.Cycle() == k * c.Cycle() + c.Cycle();
      Scale(k + 1, bound, c.Cycle());
    } else {
      Scale(k, bound, c.Cycle());
    }
  }

  lemma CyclePositive(c: Limits)
    requires c.Valid()
    ensures c.Cycle() >= 1
  {
    CycleSteps(c, c.triggerSteps);
    assert c.triggerSteps * c.requiredSamples >= c.requiredSamples;
  }

  lemma TrainedInTime(c: Limits, version: int, stamp: int, breach: nat, index: int)
    requires c.Valid() && index >= (version - c.baseVersion) * c.Cycle()
    requires index < Deadline(c, stamp, breach) + c.MaxQueue()
    ensures c.Cycle() >= 1 && version <= stamp + CeilDiv(c.MaxQueue(), c.Cycle()) + breach
  {
    CyclePositive(c);
    var k, q := c.Cycle(), c.MaxQueue();
    var late := version - stamp - 1 - breach;
    assert late * k == (version - c.baseVersion) * k - Deadline(c, stamp, breach);
    var ceil := CeilDiv(q, k);
    assert ceil * k >= q;
    if late >= ceil { Scale(ceil, late, k); }
  }

  lemma RolloutKeepsDeadlines(c: Limits, s: State, step: Step)
    requires c.Valid() && RolloutEnabled(c, s, step) && |s.q.items| <= c.MaxQueue()
    requires ClockInv(c, s) && PhaseInv(c, s) && StampInv(c, s) && DeadlineInv(c, s)
    ensures DeadlineInv(c, ApplyRollout(c, s, step))
  {
    RolloutFrame(c, s, step);
    hide RollouterAfter;
    if step.SPut? && !s.t.stopped { PutBeforeDeadline(c, s, step.id); }
  }

  lemma BreachExtends(c: Limits, stamp: int)
    ensures Deadline(c, stamp, 0) <= Deadline(c, stamp, 1)
  {
    Scale(stamp - c.baseVersion + 1, stamp - c.baseVersion + 2, c.Cycle());
  }

  lemma BreachKeepsDeadlines(c: Limits, s: State)
    requires c.Valid() && DeadlineInv(c, s)
    ensures DeadlineInv(c, s.(r := MonitorUnpause(s.r)))
  {
    forall m: Msg | m.Sample? ensures Deadline(c, m.stamp, 0) <= Deadline(c, m.stamp, 1) {
      BreachExtends(c, m.stamp);
    }
  }

  lemma BatchIsFresh(c: Limits, s: State)
    requires c.Valid() && TrainEnabled(c, s, STrain)
    requires ClockInv(c, s) && PhaseInv(c, s) && DeadlineInv(c, s)
    ensures forall i :: 0 <= i < |s.t.batch| ==> Fresh(c, Use(s.t.batch[i], s.t.version), Breach(s.r))
  {
    forall i | 0 <= i < |s.t.batch| ensures Fresh(c, Use(s.t.batch[i], s.t.version), Breach(s.r)) {
      assert (s.t.localStep - 1) * c.requiredSamples >= 0;
      assert InTime(c, s, s.t.batch[i], |s.q.taken| - |s.t.batch| + i);
      TrainedInTime(c, s.t.version, s.t.batch[i].stamp, Breach(s.r), |s.q.taken| - |s.t.batch| + i);
    }
  }

  lemma TrainKeepsDeadlines(c: Limits, s: State, step: Step)
    requires c.Valid() && TrainEnabled(c, s, step)
    requires ClockInv(c, s) && PhaseInv(c, s) && StampInv(c, s) && DeadlineInv(c, s)
    ensures DeadlineInv(c, ApplyTrain(c, s, step))
  {
    hide ClockInv, StampInv, Fresh, InTime;
    if step.STrain? {
      TrainKeepsFresh(c, s);
    } else if step.SGet? {
      GetKeepsDeadlines(c, s);
    } else if step.SMonitorUnpause? {
      BreachKeepsDeadlines(c, s);
    } else {
      SteerKeepsDeadlines(c, s, step);
    }
  }

  lemma TrainKeepsFresh(c: Limits, s: State)
    requires c.Valid() && TrainEnabled(c, s, STrain)
    requires ClockInv(c, s) && PhaseInv(c, s) && DeadlineInv(c, s)
    ensures DeadlineInv(c, ApplyTrain(c, s, STrain))
  {
    BatchIsFresh(c, s);
    hide ClockInv, PhaseInv, Fresh;
  }

  lemma GetKeepsDeadlines(c: Limits, s: State)
    requires c.Valid() && TrainEnabled(c, s, SGet) && DeadlineInv(c, s)
    ensures DeadlineInv(c, ApplyTrain(c, s, SGet))
  {
    hide Fresh;
  }

  // The version only grows, and messages and uses stay.
  lemma SteerKeepsDeadlines(c: Limits, s: State, step: Step)
    requires c.Valid() && TrainEnabled(c, s, step) && PhaseInv(c, s) && DeadlineInv(c, s)
    requires !step.STrain? && !step.SGet? && !step.SMonitorUnpause?
    ensures DeadlineInv(c, ApplyTrain(c, s, step))
  {
    var s' := ApplyTrain(c, s, step);
    assert s'.q == s.q && s'.t.batch == s.t.batch && s'.t.trained == s.t.trained && s'.t.stopped == s.t.stopped;
    assert s'.r.version >= s.r.version && s'.r.breached == s.r.breached;
    hide ApplyTrain, TrainEnabled, PhaseInv, Fresh;
  }

  lemma {:induction false} StalenessHolds(c: Limits, steps: seq<Step>)
    requires c.Valid() && After(c, steps).Some?
    ensures var s := After(c, steps).value;
            ClockInv(c, s) && PhaseInv(c, s) && StampInv(c, s) && DeadlineInv(c, s)
  {
    hide RollouterAfter, ApplyTrain, RolloutEnabled, TrainEnabled;
    if steps != [] {
      var last := |steps| - 1;
      StalenessHolds(c, steps[..last]);
      CapacityHolds(c, steps[..last]);
      var s := After(c, steps[..last]).value;
      if RolloutEnabled(c, s, steps[last]) {
        RolloutKeepsPhase(c, s, steps[last]);
        RolloutKeepsDeadlines(c, s, steps[last]);
      } else {
        TrainKeepsClock(c, s, steps[last]);
        TrainKeepsPhase(c, s, steps[last]);
        TrainKeepsDeadlines(c, s, steps[last]);
      }
    }
  }

  /** The freshness guarantee: a sample is used at most ceil(queue size / samples per version)
      versions after its stamp, plus one if the monitor ever unpaused between pause and resume. */
  lemma SamplesAreFresh(c: Limits, steps: seq<Step>, use: Use)
    requires c.Valid() && After(c, steps).Some? && use in After(c, steps).value.t.trained
    ensures var r := After(c, steps).value.r;
            && c.Cycle() >= 1 && use.msg.Sample?
            && use.msg.stamp <= use.version
            && use.version - use.msg.stamp <= CeilDiv(c.MaxQueue(), c.Cycle()) + (if r.breached then 1 else 0)
  {
    StalenessHolds(c, steps);
    var s := After(c, steps).value;
    var u :| 0 <= u < |s.t.trained| && s.t.trained[u] == use;
    assert Fresh(c, s.t.trained[u], Breach(s.r));
  }

  lemma CeilOfMultiple(k: nat, n: nat)
    requires k >= 1
    ensures CeilDiv(n * k, k) == n
  {
    assert n * k + k - 1 == k * n + (k - 1);
    assert (k * n + (k - 1)) / k == n by { DivSmallRemainder(k, n, k - 1); }
  }

  lemma DivSmallRemainder(k: nat, n: nat, r: nat)
    requires r < k
    ensures (k * n + r) / k == n
  {
    var d := (k * n + r) / k;
    assert k * d <= k * n + r < k * d + k;
    if d < n { Scale(d + 1, n, k); }
    if d > n { Scale(n + 1, d, k); }
  }

  /** In terms of a whole configured threshold the first part is 1 + threshold versions. */
  lemma FreshnessFromThreshold(required: nat, trigger: nat, threshold: nat, handles: nat, partial: bool, base: nat)
    requires required >= 1 && trigger >= 1 && handles >= 1
    ensures var c := SetMaxRequiredSamples(required, trigger, threshold as real, handles, partial, base);
            && c.Cycle() >= 1 && c.maxRequired == (1 + threshold) * c.Cycle()
            && CeilDiv(c.MaxQueue(), c.Cycle()) == 1 + threshold
  {
    var c := SetMaxRequiredSamples(required, trigger, threshold as real, handles, partial, base);
    var k := c.Cycle();
    CyclePositive(c);
    assert (k as real) * (threshold as real + 1.0) == (k * (threshold + 1)) as real;
    CeilOfMultiple(k, 1 + threshold);
  }

  /** With pause to resume exclusive, weights change only while nothing is generated, and a
      sample is stamped with the version of the weights that finished it. */
  lemma StampsAreTrue(c: Limits, steps: seq<Step>)
    requires c.Valid() && After(c, steps).Some? && !After(c, steps).value.r.breached
    ensures var s := After(c, steps).value;
            && (s.sync.Paused? ==> s.r.running == map[])
            && (s.r.running != map[] ==> s.r.version == s.r.weights)
            && (forall id :: id in s.r.running && s.r.running[id].Putting? ==> s.r.running[id].stamp == s.r.weights)
  {
    StalenessHolds(c, steps);
  }
}
