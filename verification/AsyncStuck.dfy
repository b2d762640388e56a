/**
 When a regular run comes to a complete stop. Under partial rollout cancelled samples can use up the
 whole staleness allowance, which the processor checks before it looks into the cancel queue.
 */
module AsyncStuck {
  import opened Basics
  import opened AsyncModel
  import opened AsyncFrames
  import opened AsyncCapacity
  import opened AsyncConservation
  import opened AsyncStaleness
  import opened AsyncSynchronous
  import opened AsyncEnding
  import opened AsyncRuns
  import opened AsyncExact
  import opened AsyncProgress

  // ---------------------------------------------------------------- how many samples are cancelled

  /** Samples under way and samples consumed: only taking a new one adds to it. */
  function Mark(s: State): nat { Load(s) + |s.q.taken| }

  function Tasks(r: Rollouter): nat { |r.cancelled| + |r.running| + Hand(r) }

  // The version whose samples are being consumed once the weights of the next are on their way.
  function NextReset(s: State): int {
    s.r.version + (if s.sync.Pausing? || s.sync.Paused? || s.sync.UpdateRequested? then 1 else 0)
  }

  // A sample in hand that the coming reset will not count.
  predicate Doomed(s: State) {
    s.r.proc.Holding? && (s.sync.Pausing? || s.sync.Paused? || s.sync.UpdateRequested? || s.sync.Updating?)
  }

  /** At most one task more than may run at once is cancelled, and that only after a whole version was
      consumed since the allowance was last full. */
  ghost predicate ExcessInv(c: Limits, s: State) {
    Regular(s) && !s.t.stopped && s.r.cancelled != [] ==>
      && Tasks(s.r) <= c.maxConcurrent + 1
      && (s.r.proc.Checked? ==> Tasks(s.r) <= c.maxConcurrent && Mark(s) < c.maxRequired + Cycles(c, NextReset(s)))
      && (Tasks(s.r) == c.maxConcurrent + 1 && |s.r.cancelled| <= c.maxConcurrent ==>
            Doomed(s) || Mark(s) <= c.maxRequired + Cycles(c, s.r.version))
      && (|s.r.cancelled| > c.maxConcurrent ==> Mark(s) + c.Cycle() <= c.maxRequired + Cycles(c, NextReset(s)))
  }

  lemma CheckedWithoutCancelled(c: Limits, s: State, step: Step)
    requires c.Valid() && RolloutEnabled(c, s, step) && Plain(step)
    ensures ApplyRollout(c, s, step).r.proc.Checked? ==> s.r.proc.Checked? || s.r.cancelled == []
  {
  }

  lemma PlainKeepsExcess(c: Limits, s: State, step: Step)
    requires c.Valid() && RolloutEnabled(c, s, step) && ExcessInv(c, s) && Plain(step)
    ensures ExcessInv(c, ApplyRollout(c, s, step))
  {
    PlainFrame(c, s, step);
    PlainSameVersion(c, s, step);
    CheckedWithoutCancelled(c, s, step);
    hide ApplyRollout, RolloutEnabled, Cycles, Limits.Cycle;
  }

  lemma TakeKeepsExcess(c: Limits, s: State, step: Step)
    requires c.Valid() && RolloutEnabled(c, s, step) && ExcessInv(c, s) && PhaseInv(c, s) && CapacityInv(c, s)
    requires step.SFeed? || step.STakeCancelled? || step.STakePending?
    ensures ExcessInv(c, ApplyRollout(c, s, step))
  {
    hide Cycles, Limits.Cycle;
    CyclePositive(c);
  }

  lemma StartKeepsExcess(c: Limits, s: State)
    requires c.Valid() && RolloutEnabled(c, s, SStart) && ExcessInv(c, s) && PhaseInv(c, s)
    requires s.r.proc.id !in s.r.running
    ensures ExcessInv(c, ApplyRollout(c, s, SStart))
  {
    hide Cycles, Limits.Cycle;
    RunningPut(s.r.running, s.r.proc.id, Generating);
  }

  lemma RealPutKeepsExcess(c: Limits, s: State, id: nat)
    requires c.Valid() && RolloutEnabled(c, s, SPut(id)) && ExcessInv(c, s) && CapacityInv(c, s) && LockInv(s)
    ensures ExcessInv(c, ApplyRollout(c, s, SPut(id)))
  {
    hide Cycles, Limits.Cycle;
    RunningMinus(s.r.running, id);
    RealAppend(s.q.items, Sample(id, s.r.running[id].stamp));
  }

  lemma StampKeepsExcess(c: Limits, s: State, id: nat)
    requires c.Valid() && RolloutEnabled(c, s, SStamp(id)) && ExcessInv(c, s)
    ensures ExcessInv(c, ApplyRollout(c, s, SStamp(id)))
  {
    hide Cycles, Limits.Cycle;
    RunningPut(s.r.running, id, Putting(s.r.version));
  }

  lemma StopKeepsExcess(c: Limits, s: State)
    requires c.Valid() && RolloutEnabled(c, s, SSendStop) && ExcessInv(c, s) && CapacityInv(c, s) && LockInv(s)
    ensures ExcessInv(c, ApplyRollout(c, s, SSendStop))
  {
    hide Cycles, Limits.Cycle;
    RealAppend(s.q.items, Stop);
  }

  lemma PutKeepsExcess(c: Limits, s: State, step: Step)
    requires c.Valid() && RolloutEnabled(c, s, step) && ExcessInv(c, s) && CapacityInv(c, s) && LockInv(s)
    requires step.SSendStop? || step.SStamp? || step.SPut?
    ensures ExcessInv(c, ApplyRollout(c, s, step))
  {
    hide ExcessInv, RolloutEnabled, ApplyRollout, CapacityInv, LockInv;
    if step.SPut? {
      RealPutKeepsExcess(c, s, step.id);
    } else if step.SStamp? {
      StampKeepsExcess(c, s, step.id);
    } else {
      StopKeepsExcess(c, s);
    }
  }

  // A task is cancelled only during a pause, when the trainer has just finished a version.
  lemma CancelKeepsExcess(c: Limits, s: State, id: nat)
    requires c.Valid() && RolloutEnabled(c, s, SCancel(id)) && ExcessInv(c, s) && CapacityInv(c, s)
    requires PhaseInv(c, s) && ClockInv(c, s) && WaitInv(s)
    ensures ExcessInv(c, ApplyRollout(c, s, SCancel(id)))
  {
    hide Cycles, Limits.Cycle;
    RunningMinus(s.r.running, id);
    NextCycle(c, s.r.version);
    CycleSteps(c, s.t.localStep);
  }

  lemma GetKeepsExcess(c: Limits, s: State)
    requires c.Valid() && TrainEnabled(c, s, SGet) && ExcessInv(c, s)
    ensures ExcessInv(c, ApplyTrain(c, s, SGet))
  {
    hide Cycles, Limits.Cycle;
    RealDropFirst(s.q.items);
  }

  lemma SteerKeepsExcess(c: Limits, s: State, step: Step)
    requires c.Valid() && TrainEnabled(c, s, step) && !step.SGet? && ExcessInv(c, s) && PhaseInv(c, s)
    ensures ExcessInv(c, ApplyTrain(c, s, step))
  {
    TrainFrame(c, s, step);
    ResetFrame(c, s, step);
    var s' := ApplyTrain(c, s, step);
    CyclePositive(c);
    NextCycle(c, s.r.version);
    hide Cycles, Limits.Cycle, ApplyTrain, TrainEnabled, PhaseInv;
  }

  lemma ResetFrame(c: Limits, s: State, step: Step)
    requires c.Valid() && TrainEnabled(c, s, step) && !step.SGet? && PhaseInv(c, s)
    ensures var s' := ApplyTrain(c, s, step);
            && (Regular(s') ==> Regular(s)) && (s.t.stopped ==> s'.t.stopped)
            && (s'.r.version == s.r.version || s'.r.version == s.r.version + 1)
            && (NextReset(s') == NextReset(s) || (NextReset(s) == s.r.version && NextReset(s') == s.r.version + 1))
            && (Regular(s') && Doomed(s) ==> Doomed(s'))
  {
  }

  lemma ExcessStep(c: Limits, steps: seq<Step>, step: Step)
    requires c.Valid() && After(c, steps).Some? && Enabled(c, After(c, steps).value, step)
    requires ExcessInv(c, After(c, steps).value)
    ensures ExcessInv(c, Apply(c, After(c, steps).value, step))
  {
    hide ExcessInv, ApplyRollout, ApplyTrain, RolloutEnabled, TrainEnabled, WaitInv;
    hide ClockInv, PhaseInv, StampInv, DeadlineInv, CapacityInv, LockInv;
    var s := After(c, steps).value;
    StalenessHolds(c, steps);
    CapacityHolds(c, steps);
    WaitHolds(c, steps);
    if !RolloutEnabled(c, s, step) {
      if step.SGet? { GetKeepsExcess(c, s); } else { SteerKeepsExcess(c, s, step); }
    } else if Plain(step) {
      PlainKeepsExcess(c, s, step);
    } else if step.SCancel? {
      CancelKeepsExcess(c, s, step.id);
    } else if step.SStart? {
      HandIsFree(c, steps, step);
      StartKeepsExcess(c, s);
    } else if step.SSendStop? || step.SStamp? || step.SPut? {
      PutKeepsExcess(c, s, step);
    } else {
      WorkIsTake(c, s, step);
      TakeKeepsExcess(c, s, step);
    }
  }

  lemma WorkIsTake(c: Limits, s: State, step: Step)
    requires RolloutEnabled(c, s, step) && !Plain(step)
    requires !step.SStart? && !step.SSendStop? && !step.SStamp? && !step.SPut? && !step.SCancel?
    ensures step.SFeed? || step.STakeCancelled? || step.STakePending?
  {
  }

  lemma {:induction false} ExcessHolds(c: Limits, steps: seq<Step>)
    requires c.Valid() && After(c, steps).Some?
    ensures ExcessInv(c, After(c, steps).value)
  {
    if steps != [] {
      var last := |steps| - 1;
      ExcessHolds(c, steps[..last]);
      ExcessStep(c, steps[..last], steps[last]);
    }
    hide RollouterAfter, ApplyTrain, RolloutEnabled, TrainEnabled;
  }

  // ---------------------------------------------------------------- the stop under partial rollout

  /** The trainer is through with its version and fewer messages than one version's worth are left. */
  lemma {:induction false} Drain(c: Limits, s: State) returns (s': State)
    requires c.Valid() && c.maxRequired > c.Cycle() && Reachable(c, s) && Fresh0(c, s) && Gap(c, s) == 0
    ensures Reachable(c, s') && Fresh0(c, s') && Gap(c, s') == 0 && |s'.q.items| < c.Cycle()
    decreases |s.q.items|
  {
    hide Reachable, Cycles, Limits.Cycle;
    CyclePositive(c);
    if |s.q.items| < c.Cycle() {
      s' := s;
    } else {
      NextCycle(c, s.t.version);
      var a := NextVersion(c, s, c.Cycle());
      s' := Drain(c, a);
    }
  }

  ghost predicate AllGenerating(r: Rollouter) {
    forall id :: id in r.running ==> r.running[id].Generating? && id < r.fed
  }

  /** n more samples are taken and started, and none of them finishes. */
  lemma {:induction false} Launch(c: Limits, s: State, n: nat) returns (s': State)
    requires c.Valid() && Reachable(c, s) && Working(c, s.r) && s.r.proc.Idle? && AllGenerating(s.r)
    requires s.r.staleness + n <= c.maxRequired && |s.q.items| < c.maxRequired && |s.r.running| + n <= c.maxConcurrent
    ensures Reachable(c, s') && Working(c, s'.r) && s'.r.proc.Idle? && AllGenerating(s'.r)
    ensures |s'.r.running| == |s.r.running| + n && s'.r.staleness == s.r.staleness + n
    ensures s'.r.version == s.r.version && s'.r.handReset == s.r.handReset && s' == s.(r := s'.r)
    decreases n
  {
    hide Reachable;
    if n == 0 {
      s' := s;
    } else {
      var a := Launch(c, s, n - 1);
      var b := Take(c, a);
      s' := Submit(c, b);
      RunningPut(b.r.running, b.r.proc.id, Generating);
    }
  }

  /** The pause cancels every one of them. */
  lemma {:induction false} CancelAll(c: Limits, s: State) returns (s': State)
    requires c.Valid() && Reachable(c, s) && AllGenerating(s.r) && s.r.cancelling
    ensures Reachable(c, s') && s'.r.running == map[] && |s'.r.cancelled| == |s.r.cancelled| + |s.r.running|
    ensures s' == s.(r := s.r.(running := map[], finished := s'.r.finished, cancelled := s'.r.cancelled))
    decreases |s.r.running|
  {
    hide Reachable;
    if s.r.running == map[] {
      s' := s;
    } else {
      var id :| id in s.r.running;
      RunningMinus(s.r.running, id);
      var a := Go(c, s, SCancel(id));
      s' := CancelAll(c, a);
    }
  }

  /** All the allowance is under way when the trainer pauses the rollouter, and most of it is cancelled. */
  lemma CancelledAllowance(c: Limits) returns (s: State)
    requires c.Valid() && c.partialRollout && c.maxRequired > c.Cycle() && c.maxConcurrent > c.maxRequired - c.Cycle()
    ensures Reachable(c, s) && Regular(s) && s.sync.Quiet? && s.r.proc.Idle? && !s.r.paused && s.r.lock.Free?
    ensures s.r.staleness == c.maxRequired && s.r.running == map[] && s.r.finished == 0 && !s.r.monitorArmed
    ensures s.r.pending == [] && !s.r.feedDone && s.r.monitorTrigger
    ensures AllReal(s.q.items) && |s.q.items| == c.Cycle() - 1 && Ready(c, s.t) && |s.q.taken| == Cycles(c, s.t.version)
  {
    hide Reachable, Cycles, Limits.Cycle;
    CyclePositive(c);
    var a := Race(c, c.Cycle());
    var b := Drain(c, a);
    var d := MakeMany(c, b, c.Cycle() - 1 - |b.q.items|);
    var e := Launch(c, d, c.maxRequired - c.Cycle() + 1);
    var f := BeginPause(c, e);
    var g := CancelAll(c, f);
    var h := Broadcast(c, g);
    s := UpdateAndResume(c, h);
  }

  /** The processor parks on the used-up allowance, the trainer takes what is left and waits for more. */
  lemma GetStuck(c: Limits) returns (s: State)
    requires c.Valid() && c.partialRollout && c.maxRequired > c.Cycle() && c.maxConcurrent > c.maxRequired - c.Cycle()
    ensures Reachable(c, s) && Regular(s) && Parked(c, s)
  {
    hide Reachable, Cycles, Limits.Cycle;
    var a := CancelledAllowance(c);
    NextCycle(c, a.t.version);
    var b := Go(c, a, SDecidePause);
    var d := Go(c, b, SSetPaused);
    var e := Go(c, d, SFeedDone);
    CyclePositive(c);
    s := ConsumeMany(c, e, c.Cycle() - 1);
  }

  ghost predicate Parked(c: Limits, s: State) {
    && s.r.proc.Parked? && s.r.paused && s.r.feedDone && s.r.lock.Free? && s.r.ActiveTasks() == 0
    && s.r.running == map[] && s.r.staleness >= c.maxRequired && !s.r.monitorArmed
    && s.sync.Quiet? && s.q.items == [] && Ready(c, s.t)
  }

  lemma NoStep(c: Limits, s: State, step: Step)
    requires Parked(c, s)
    ensures !Enabled(c, s, step)
  {
  }

  // ---------------------------------------------------------------- when a run stops

  /** The run is not over, and nothing useful can happen. */
  ghost predicate Stuck(c: Limits, s: State) {
    !Over(s) && forall step :: Enabled(c, s, step) ==> !Useful(s, step)
  }

  predicate CanStop(c: Limits) {
    c.partialRollout && c.maxRequired > c.Cycle() && c.maxConcurrent > c.maxRequired - c.Cycle()
  }

  lemma ParkedHasLeft(c: Limits, steps: seq<Step>)
    requires c.Valid() && c.Cycle() <= c.maxRequired && !CanStop(c) && After(c, steps).Some?
    requires Starved(c, After(c, steps).value) && After(c, steps).value.r.proc.Parked?
    ensures After(c, steps).value.r.staleness < c.maxRequired
  {
    hide After, AllowanceInv, StampInv, DeadlineInv, ClockInv, PhaseInv, QueueInv, SplitInv, EndInv, TakenInv, LockInv;
    hide Cycles, DoneInv, BudgetInv, CycleInv;
    var s := After(c, steps).value;
    AllowanceHolds(c, steps);
    IdsHold(c, steps, 0);
    StalenessHolds(c, steps);
    EndHolds(c, steps);
    CapacityHolds(c, steps);
    StarvedCount(c, s);
    DoneHolds(c, steps);
    ExcessHolds(c, steps);
    CyclePositive(c);
    if c.maxRequired == c.Cycle() { SynchronyHolds(c, steps); }
  }

  lemma GoesOn(c: Limits, s: State)
    requires c.Valid() && c.Cycle() <= c.maxRequired && !CanStop(c) && Reachable(c, s) && Regular(s)
    ensures !Stuck(c, s)
  {
    var steps :| After(c, steps) == Some(s);
    hide After, Enabled, Useful, Starved, CanStop;
    if Starved(c, s) && s.r.proc.Parked? { ParkedHasLeft(c, steps); }
    if !Over(s) { var step := Progress(c, steps); }
  }

  /** A regular run can come to a stop exactly under partial rollout, with more than one version's worth of
      samples, and more concurrent tasks than the allowance exceeds one version. */
  lemma RunCanStop(c: Limits)
    requires c.Valid() && c.Cycle() <= c.maxRequired
    ensures (exists s :: Reachable(c, s) && Regular(s) && Stuck(c, s)) <==> CanStop(c)
  {
    if CanStop(c) {
      var s := GetStuck(c);
      forall step ensures !Enabled(c, s, step) { NoStep(c, s, step); }
      assert Stuck(c, s);
    } else {
      forall s | Reachable(c, s) && Regular(s) ensures !Stuck(c, s) { GoesOn(c, s); }
    }
  }
}
