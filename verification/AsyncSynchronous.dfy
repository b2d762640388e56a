/** Without a staleness allowance the asynchronous program trains synchronously. */
module AsyncSynchronous {
  import opened AsyncModel
  import opened AsyncFrames
  import opened AsyncCapacity
  import opened AsyncConservation
  import opened AsyncStaleness

  /** Samples ever taken from the pending queue. */
  function Started(s: State): int {
    Hand(s.r) + |s.r.running| + |s.r.cancelled| + |s.q.produced| - (if s.r.stopSent then 1 else 0)
  }

  // The version whose budget is being spent: the new version starts when its reset ends.
  function BudgetVersion(s: State): int {
    s.r.version - (if s.sync.Updating? then 1 else 0)
  }

  // The trainer has finished the version the rollouter still spends samples on.
  predicate Behind(s: State) { s.t.version > BudgetVersion(s) }

  ghost predicate BudgetInv(c: Limits, s: State) {
    !s.t.stopped ==>
      && Started(s) <= Cycles(c, BudgetVersion(s)) + s.r.staleness
      && Started(s) <= Cycles(c, BudgetVersion(s)) + c.Cycle()
      && (s.r.proc.Checked? ==> s.r.staleness < c.maxRequired)
      && (Behind(s) ==> Exhausted(c, s))
      && (forall id :: id in s.r.running && s.r.running[id].Putting? ==> s.r.running[id].stamp == s.r.version)
  }

  /** Nothing is outstanding and nothing can be taken until the next reset. */
  ghost predicate Exhausted(c: Limits, s: State) {
    && s.t.version == BudgetVersion(s) + 1
    && Started(s) == |s.q.taken| == Cycles(c, s.t.version)
    && s.r.running == map[] && s.r.cancelled == [] && !s.r.proc.Holding? && !s.r.proc.Checked?
    && s.r.staleness >= c.maxRequired
    && s.t.batch == []
  }

  /** The consumption index of a message lies inside the cycle of its stamp. */
  ghost predicate InCycle(c: Limits, m: Msg, index: int) {
    m.Sample? ==> index < Cycles(c, m.stamp) + c.Cycle()
  }

  ghost predicate CycleInv(c: Limits, s: State) {
    && (!s.t.stopped ==> forall j :: 0 <= j < |s.q.items| ==> InCycle(c, s.q.items[j], |s.q.taken| + j))
    && (!s.t.stopped ==> forall i :: 0 <= i < |s.t.batch| ==>
          InCycle(c, s.t.batch[i], |s.q.taken| - |s.t.batch| + i))
    && (forall u :: 0 <= u < |s.t.trained| ==>
          s.t.trained[u].msg.Sample? && s.t.trained[u].version <= s.t.trained[u].msg.stamp)
  }

  lemma StartedMoves(c: Limits, s: State, step: Step)
    requires c.Valid() && RolloutEnabled(c, s, step) && EndInv(s)
    requires step.SStart? ==> s.r.proc.id !in s.r.running
    ensures Started(ApplyRollout(c, s, step)) ==
            Started(s) + (if step.STakePending? && s.r.pending[0].Item? then 1 else 0)
  {
    if Plain(step) { PlainStarts(c, s, step); } else { WorkStarts(c, s, step); }
    hide ApplyRollout, RolloutEnabled;
  }

  lemma PlainStarts(c: Limits, s: State, step: Step)
    requires c.Valid() && RolloutEnabled(c, s, step) && Plain(step)
    ensures Started(ApplyRollout(c, s, step)) == Started(s)
  {
    PlainFrame(c, s, step);
    hide ApplyRollout, RolloutEnabled;
  }

  lemma WorkStarts(c: Limits, s: State, step: Step)
    requires c.Valid() && RolloutEnabled(c, s, step) && EndInv(s) && !Plain(step)
    requires step.SStart? ==> s.r.proc.id !in s.r.running
    ensures Started(ApplyRollout(c, s, step)) ==
            Started(s) + (if step.STakePending? && s.r.pending[0].Item? then 1 else 0)
  {
    if step.SStart? { RunningPut(s.r.running, s.r.proc.id, Generating); }
    if step.SStamp? { RunningPut(s.r.running, step.id, Putting(s.r.version)); }
    if step.SPut? || step.SCancel? { RunningMinus(s.r.running, step.id); }
  }

  lemma PlainKeepsBudget(c: Limits, s: State, step: Step)
    requires c.Valid() && c.maxRequired <= c.Cycle() && RolloutEnabled(c, s, step) && Plain(step)
    requires EndInv(s) && BudgetInv(c, s)
    ensures BudgetInv(c, ApplyRollout(c, s, step))
  {
    PlainFrame(c, s, step);
    PlainSameVersion(c, s, step);
    hide ApplyRollout, RolloutEnabled;
  }

  lemma WorkKeepsBudget(c: Limits, s: State, step: Step)
    requires c.Valid() && c.maxRequired <= c.Cycle() && RolloutEnabled(c, s, step) && !Plain(step)
    requires EndInv(s) && BudgetInv(c, s)
    requires step.SStart? ==> s.r.proc.id !in s.r.running
    ensures BudgetInv(c, ApplyRollout(c, s, step))
  {
    WorkStarts(c, s, step);
    TaskFrame(c, s, step);
    hide Started, ApplyTrain;
  }

  lemma RolloutKeepsBudget(c: Limits, s: State, step: Step)
    requires c.Valid() && c.maxRequired <= c.Cycle() && RolloutEnabled(c, s, step)
    requires EndInv(s) && BudgetInv(c, s)
    requires step.SStart? ==> s.r.proc.id !in s.r.running
    ensures BudgetInv(c, ApplyRollout(c, s, step))
  {
    if Plain(step) { PlainKeepsBudget(c, s, step); } else { WorkKeepsBudget(c, s, step); }
    hide BudgetInv, ApplyRollout, RolloutEnabled;
  }

  lemma StepsFillCycle(c: Limits, s: State)
    requires c.Valid() && ClockInv(c, s) && !s.t.stopped
    ensures Cycles(c, s.t.version) <= |s.q.taken| - |s.t.batch|
    ensures |s.t.batch| == c.requiredSamples && s.t.localStep == c.triggerSteps ==>
              |s.q.taken| == Cycles(c, s.t.version + 1)
  {
    CycleSteps(c, s.t.localStep);
    NextCycle(c, s.t.version);
  }

  // The trainer can complete a version only when the rollouter has used its whole budget.
  lemma TrainStepKeepsBudget(c: Limits, s: State)
    requires c.Valid() && c.maxRequired <= c.Cycle() && TrainEnabled(c, s, STrain)
    requires EndInv(s) && QueueInv(s.q) && ClockInv(c, s) && PhaseInv(c, s) && BudgetInv(c, s)
    ensures BudgetInv(c, ApplyTrain(c, s, STrain))
  {
    StepsFillCycle(c, s);
    NextCycle(c, s.t.version);
  }

  lemma ResetKeepsBudget(c: Limits, s: State)
    requires c.Valid() && c.maxRequired <= c.Cycle() && TrainEnabled(c, s, SUpdateEnd)
    requires EndInv(s) && QueueInv(s.q) && ClockInv(c, s) && PhaseInv(c, s) && BudgetInv(c, s)
    ensures BudgetInv(c, ApplyTrain(c, s, SUpdateEnd))
  {
    NextCycle(c, BudgetVersion(s));
  }

  lemma OtherKeepsBudget(c: Limits, s: State, step: Step)
    requires c.Valid() && c.maxRequired <= c.Cycle() && TrainEnabled(c, s, step) && !step.STrain? && !step.SUpdateEnd?
    requires EndInv(s) && QueueInv(s.q) && ClockInv(c, s) && PhaseInv(c, s) && BudgetInv(c, s)
    ensures BudgetInv(c, ApplyTrain(c, s, step))
  {
    hide ClockInv;
    assert BudgetVersion(ApplyTrain(c, s, step)) == BudgetVersion(s);
    TrainFrame(c, s, step);
  }

  lemma TrainKeepsBudget(c: Limits, s: State, step: Step)
    requires c.Valid() && c.maxRequired <= c.Cycle() && TrainEnabled(c, s, step)
    requires EndInv(s) && QueueInv(s.q) && ClockInv(c, s) && PhaseInv(c, s) && BudgetInv(c, s)
    ensures BudgetInv(c, ApplyTrain(c, s, step))
  {
    hide BudgetInv, ApplyTrain, TrainEnabled, EndInv, QueueInv, ClockInv, PhaseInv;
    if step.STrain? {
      TrainStepKeepsBudget(c, s);
    } else if step.SUpdateEnd? {
      ResetKeepsBudget(c, s);
    } else {
      OtherKeepsBudget(c, s, step);
    }
  }

  lemma PutInCycle(c: Limits, s: State, id: nat)
    requires c.Valid() && RolloutEnabled(c, s, SPut(id)) && !s.t.stopped
    requires QueueInv(s.q) && EndInv(s) && PhaseInv(c, s) && BudgetInv(c, s)
    ensures InCycle(c, Sample(id, s.r.running[id].stamp), |s.q.taken| + |s.q.items|)
  {
    RunningMinus(s.r.running, id);
    assert |s.q.taken| + |s.q.items| < Started(s);
  }

  lemma RolloutKeepsCycles(c: Limits, s: State, step: Step)
    requires c.Valid() && RolloutEnabled(c, s, step)
    requires QueueInv(s.q) && EndInv(s) && PhaseInv(c, s) && BudgetInv(c, s) && CycleInv(c, s)
    ensures CycleInv(c, ApplyRollout(c, s, step))
  {
    var s' := ApplyRollout(c, s, step);
    assert s'.t == s.t && s'.q.taken == s.q.taken;
    if step.SPut? && !s.t.stopped {
      PutInCycle(c, s, step.id);
    } else if !step.SSendStop? && !step.SPut? {
      assert s'.q == s.q;
    }
  }

  lemma BatchInCycle(c: Limits, s: State)
    requires c.Valid() && TrainEnabled(c, s, STrain) && ClockInv(c, s) && DeadlineInv(c, s) && CycleInv(c, s)
    ensures forall i :: 0 <= i < |s.t.batch| ==> s.t.version <= s.t.batch[i].stamp
  {
    forall i | 0 <= i < |s.t.batch| ensures s.t.version <= s.t.batch[i].stamp {
      var m := s.t.batch[i];
      assert InCycle(c, m, |s.q.taken| - |s.t.batch| + i);
      StepsFillCycle(c, s);
      NextCycle(c, m.stamp);
      if m.stamp < s.t.version {
        Scale(m.stamp + 1 - c.baseVersion, s.t.version - c.baseVersion, c.Cycle());
      }
    }
  }

  lemma TrainKeepsCycles(c: Limits, s: State, step: Step)
    requires c.Valid() && TrainEnabled(c, s, step) && ClockInv(c, s) && DeadlineInv(c, s) && CycleInv(c, s)
    ensures CycleInv(c, ApplyTrain(c, s, step))
  {
    if step.STrain? { BatchInCycle(c, s); }
  }

  // ---------------------------------------------------------------- no reset on a held sample, no cancel

  /** A generation can be cancelled only from a pause to the next resume. */
  ghost predicate CalmInv(s: State) {
    && (s.r.cancelling ==> !s.sync.Quiet? && !s.sync.PauseRequested?)
    && !s.r.handReset
    && (!s.r.breached ==> s.r.cancelled == [])
  }

  // From a pause to its reset the trainer is ahead, so everything is used up.
  lemma SyncFindsNothing(c: Limits, s: State)
    requires c.Valid() && EndInv(s) && PhaseInv(c, s) && BudgetInv(c, s)
    requires !s.sync.Quiet? && !s.sync.PauseRequested?
    ensures s.sync.Updating? ==> !s.r.proc.Holding?
    ensures !s.r.breached ==> s.r.running == map[]
  {
  }

  lemma RolloutKeepsCalm(c: Limits, s: State, step: Step)
    requires c.Valid() && c.maxRequired <= c.Cycle() && RolloutEnabled(c, s, step)
    requires EndInv(s) && PhaseInv(c, s) && BudgetInv(c, s) && CalmInv(s)
    ensures CalmInv(ApplyRollout(c, s, step))
  {
    RolloutFrame(c, s, step);
    if !s.sync.Quiet? && !s.sync.PauseRequested? { SyncFindsNothing(c, s); }
    if s.r.cancelled == [] { OnlyCancelCancels(c, s, step); }
    hide ApplyRollout, EndInv, PhaseInv, BudgetInv;
  }

  lemma OnlyCancelCancels(c: Limits, s: State, step: Step)
    requires c.Valid() && RolloutEnabled(c, s, step) && s.r.cancelled == []
    ensures ApplyRollout(c, s, step).r.cancelled == [] || (s.r.cancelling && s.r.running != map[])
  {
    if Plain(step) { PlainFrame(c, s, step); }
  }

  lemma TrainKeepsCalm(c: Limits, s: State, step: Step)
    requires c.Valid() && c.maxRequired <= c.Cycle() && TrainEnabled(c, s, step)
    requires EndInv(s) && PhaseInv(c, s) && BudgetInv(c, s) && CalmInv(s)
    ensures CalmInv(ApplyTrain(c, s, step))
  {
    if step.SUpdateEnd? { SyncFindsNothing(c, s); }
    hide EndInv, PhaseInv, BudgetInv;
  }

  // ---------------------------------------------------------------- every run

  lemma {:induction false} SynchronyHolds(c: Limits, steps: seq<Step>)
    requires c.Valid() && c.maxRequired <= c.Cycle() && After(c, steps).Some?
    ensures var s := After(c, steps).value; BudgetInv(c, s) && CycleInv(c, s) && CalmInv(s)
  {
    if steps != [] {
      var last := |steps| - 1;
      SynchronyHolds(c, steps[..last]);
      SynchronyStep(c, steps[..last], steps[last]);
    }
    hide RollouterAfter, ApplyTrain, RolloutEnabled, TrainEnabled;
  }

  lemma SynchronyStep(c: Limits, steps: seq<Step>, step: Step)
    requires c.Valid() && c.maxRequired <= c.Cycle() && After(c, steps).Some?
    requires var s := After(c, steps).value; Enabled(c, s, step) && BudgetInv(c, s) && CycleInv(c, s) && CalmInv(s)
    ensures var s' := Apply(c, After(c, steps).value, step); BudgetInv(c, s') && CycleInv(c, s') && CalmInv(s')
  {
    hide BudgetInv, CycleInv, CalmInv, ApplyRollout, ApplyTrain, RolloutEnabled, TrainEnabled;
    hide ClockInv, PhaseInv, StampInv, DeadlineInv, EndInv, TakenInv, SplitInv, QueueInv;
    IdsHold(c, steps, 0);
    EndHolds(c, steps);
    StalenessHolds(c, steps);
    var s := After(c, steps).value;
    if RolloutEnabled(c, s, step) {
      if step.SStart? { HandIsFree(c, steps, step); }
      RolloutKeepsBudget(c, s, step);
      RolloutKeepsCycles(c, s, step);
      RolloutKeepsCalm(c, s, step);
    } else {
      TrainKeepsBudget(c, s, step);
      TrainKeepsCycles(c, s, step);
      TrainKeepsCalm(c, s, step);
    }
  }

  lemma HandIsFree(c: Limits, steps: seq<Step>, step: Step)
    requires c.Valid() && After(c, steps).Some? && step.SStart? && RolloutEnabled(c, After(c, steps).value, step)
    ensures After(c, steps).value.r.proc.id !in After(c, steps).value.r.running
  {
    IdsHold(c, steps, After(c, steps).value.r.proc.id);
  }

  /** Threshold zero: in every run, every sample is used at exactly the version it is stamped with. */
  lemma ThresholdZeroIsSynchronous(c: Limits, steps: seq<Step>, use: Use)
    requires c.Valid() && c.maxRequired <= c.Cycle() && After(c, steps).Some?
    requires use in After(c, steps).value.t.trained
    ensures use.msg.Sample? && use.version == use.msg.stamp
  {
    SynchronyHolds(c, steps);
    SamplesAreFresh(c, steps, use);
  }
}
