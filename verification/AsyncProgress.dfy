/**
 The protocol goes on, and generates no more between two resets than the staleness allowance permits, as
 long as no reset landed on a held sample and the monitor did not unpause early.
 */
module AsyncProgress {
  import opened AsyncModel
  import opened AsyncFrames
  import opened AsyncCapacity
  import opened AsyncConservation
  import opened AsyncStaleness
  import opened AsyncSynchronous
  import opened AsyncEnding
  import opened AsyncRuns

  ghost predicate Regular(s: State) { !s.r.handReset && !s.r.breached }

  // ---------------------------------------------------------------- who waits for whom

  ghost predicate WaitInv(s: State) {
    && (s.r.lock.ByProcessor? ==> s.r.ActiveTasks() > 0)
    && (s.r.paused && (s.sync.Quiet? || s.sync.PauseRequested?) ==> s.r.proc.Parked?)
    && (!s.r.monitorTrigger && !s.r.breached ==> s.r.finished == 0)
    && (!s.r.breached && s.r.lock.ByUpdate? ==> s.r.lock.counted == |s.r.cancelled|)
    && (s.r.cancelling ==> !s.sync.Quiet? && !s.sync.PauseRequested?)
  }

  lemma PlainKeepsWait(c: Limits, s: State, step: Step)
    requires c.Valid() && RolloutEnabled(c, s, step) && PhaseInv(c, s) && WaitInv(s) && Plain(step)
    ensures WaitInv(ApplyRollout(c, s, step))
  {
  }

  lemma TakeKeepsWait(c: Limits, s: State, step: Step)
    requires c.Valid() && RolloutEnabled(c, s, step) && PhaseInv(c, s) && WaitInv(s)
    requires !Plain(step) && !step.SSendStop? && !step.SStamp? && !step.SPut? && !step.SCancel?
    ensures WaitInv(ApplyRollout(c, s, step))
  {
    if step.SStart? { RunningPut(s.r.running, s.r.proc.id, Generating); }
  }

  lemma TaskKeepsWait(c: Limits, s: State, step: Step)
    requires c.Valid() && RolloutEnabled(c, s, step) && PhaseInv(c, s) && WaitInv(s)
    requires step.SSendStop? || step.SStamp? || step.SPut? || step.SCancel?
    ensures WaitInv(ApplyRollout(c, s, step))
  {
    if step.SStamp? { RunningPut(s.r.running, step.id, Putting(s.r.version)); }
    if step.SPut? || step.SCancel? { RunningMinus(s.r.running, step.id); }
  }

  lemma TrainKeepsWait(c: Limits, s: State, step: Step)
    requires c.Valid() && TrainEnabled(c, s, step) && PhaseInv(c, s) && WaitInv(s)
    ensures WaitInv(ApplyTrain(c, s, step))
  {
  }

  lemma {:induction false} WaitHolds(c: Limits, steps: seq<Step>)
    requires c.Valid() && After(c, steps).Some?
    ensures WaitInv(After(c, steps).value)
  {
    hide ApplyRollout, ApplyTrain, RolloutEnabled, TrainEnabled, WaitInv, ClockInv, PhaseInv, StampInv, DeadlineInv;
    if steps != [] {
      var last := |steps| - 1;
      WaitHolds(c, steps[..last]);
      StalenessHolds(c, steps[..last]);
      var s := After(c, steps[..last]).value;
      if !RolloutEnabled(c, s, steps[last]) {
        TrainKeepsWait(c, s, steps[last]);
      } else if Plain(steps[last]) {
        PlainKeepsWait(c, s, steps[last]);
      } else if steps[last].SSendStop? || steps[last].SStamp? || steps[last].SPut? || steps[last].SCancel? {
        TaskKeepsWait(c, s, steps[last]);
      } else {
        TakeKeepsWait(c, s, steps[last]);
      }
    } else {
      assert WaitInv(Init(c)) by { InitWaits(c); }
    }
  }

  lemma InitWaits(c: Limits)
    ensures WaitInv(Init(c))
  {
  }

  // ---------------------------------------------------------------- the allowance

  /** The staleness count: at most the samples taken since the trainer's consumption of its version began,
      within the allowance, and below it when the processor is about to take. */
  ghost predicate AllowanceInv(c: Limits, s: State) {
    Regular(s) ==>
      && s.r.staleness <= c.maxRequired
      && (s.r.proc.Checked? ==> s.r.staleness < c.maxRequired)
      && (!s.t.stopped ==>
            s.r.staleness <= Started(s) - Cycles(c, BudgetVersion(s)) + (if PastDone(s.r.proc) then 1 else 0))
  }

  lemma RolloutKeepsAllowance(c: Limits, s: State, step: Step)
    requires c.Valid() && RolloutEnabled(c, s, step) && EndInv(s) && AllowanceInv(c, s)
    requires step.SStart? ==> s.r.proc.id !in s.r.running
    ensures AllowanceInv(c, ApplyRollout(c, s, step))
  {
    StartedMoves(c, s, step);
    RolloutFrame(c, s, step);
    TakeFrame(c, s, step);
    hide Started, ApplyRollout, RolloutEnabled, EndInv, Cycles;
  }

  lemma TakeFrame(c: Limits, s: State, step: Step)
    requires c.Valid() && RolloutEnabled(c, s, step)
    ensures var r' := ApplyRollout(c, s, step).r;
            && r'.staleness == s.r.staleness + (if step.STakePending? then 1 else 0)
            && (step.STakePending? ==> s.r.proc.Checked? && !r'.proc.Checked? && !PastDone(s.r.proc))
            && (step.STakePending? && !s.r.pending[0].Item? ==> PastDone(r'.proc))
            && (r'.proc.Checked? ==> s.r.proc.Checked? || s.r.staleness < c.maxRequired)
            && (PastDone(s.r.proc) ==> PastDone(r'.proc))
  {
    if Plain(step) { PlainFrame(c, s, step); }
  }

  // The count restarts from the samples under way, none of them in hand.
  lemma ResetKeepsAllowance(c: Limits, s: State)
    requires c.Valid() && TrainEnabled(c, s, SUpdateEnd)
    requires CapacityInv(c, s) && LockInv(s) && ClockInv(c, s) && PhaseInv(c, s) && QueueInv(s.q) && EndInv(s) && WaitInv(s)
    ensures AllowanceInv(c, ApplyTrain(c, s, SUpdateEnd))
  {
    hide Cycles, Used, Limits.Cycle;
    if !s.t.stopped {
      CycleSteps(c, s.t.localStep);
      if s.t.version > s.r.version { NextCycle(c, s.r.version); CyclePositive(c); }
    }
    OneStop(s.q.items);
  }

  lemma {:induction false} AllSamples(items: seq<Msg>)
    requires AllReal(items)
    ensures Real(items) == |items|
  {
    if items != [] { AllSamples(items[..|items| - 1]); }
  }

  lemma OneStop(items: seq<Msg>)
    requires forall i :: 0 <= i < |items| && items[i] == Stop ==> i == |items| - 1
    ensures |items| <= Real(items) + 1
  {
    if items != [] { AllSamples(items[..|items| - 1]); }
  }

  lemma OthersKeepAllowance(c: Limits, s: State, step: Step)
    requires c.Valid() && TrainEnabled(c, s, step) && !step.SUpdateEnd? && PhaseInv(c, s) && AllowanceInv(c, s)
    ensures AllowanceInv(c, ApplyTrain(c, s, step))
  {
    TrainFrame(c, s, step);
    SteeredFrame(c, s, step);
    hide ApplyTrain, TrainEnabled, Cycles;
  }

  // Apart from the reset no step of the trainer's side touches the count or the log of puts.
  lemma SteeredFrame(c: Limits, s: State, step: Step)
    requires c.Valid() && TrainEnabled(c, s, step) && !step.SUpdateEnd? && PhaseInv(c, s)
    ensures var s' := ApplyTrain(c, s, step);
            && s'.r.staleness == s.r.staleness && s'.r.handReset == s.r.handReset && (s.r.breached ==> s'.r.breached)
            && s'.q.produced == s.q.produced && (s.t.stopped ==> s'.t.stopped) && BudgetVersion(s') == BudgetVersion(s)
  {
    CountFrame(c, s, step);
    LogFrame(c, s, step);
    StoppedFrame(c, s, step);
    BudgetFrame(c, s, step);
    hide ApplyTrain, TrainEnabled, PhaseInv;
  }

  lemma CountFrame(c: Limits, s: State, step: Step)
    requires TrainEnabled(c, s, step) && !step.SUpdateEnd?
    ensures var r, r' := s.r, ApplyTrain(c, s, step).r;
            && r'.staleness == r.staleness && r'.handReset == r.handReset && (r.breached ==> r'.breached)
  {
    hide TrainEnabled, TrainerAfter, SyncAfter;
    assert ApplyTrain(c, s, step).r == Steered(c, s, step);
    hide ApplyTrain;
  }

  lemma LogFrame(c: Limits, s: State, step: Step)
    requires TrainEnabled(c, s, step)
    ensures ApplyTrain(c, s, step).q.produced == s.q.produced
  {
    hide TrainEnabled, TrainerAfter, Steered, SyncAfter;
  }

  lemma StoppedFrame(c: Limits, s: State, step: Step)
    requires TrainEnabled(c, s, step)
    ensures s.t.stopped ==> ApplyTrain(c, s, step).t.stopped
  {
    hide TrainEnabled, Steered;
  }

  lemma BudgetFrame(c: Limits, s: State, step: Step)
    requires TrainEnabled(c, s, step) && !step.SUpdateEnd? && PhaseInv(c, s)
    ensures BudgetVersion(ApplyTrain(c, s, step)) == BudgetVersion(s)
  {
    hide TrainerAfter;
  }

  lemma AllowanceStep(c: Limits, steps: seq<Step>, step: Step)
    requires c.Valid() && After(c, steps).Some? && Enabled(c, After(c, steps).value, step)
    requires AllowanceInv(c, After(c, steps).value)
    ensures AllowanceInv(c, Apply(c, After(c, steps).value, step))
  {
    hide AllowanceInv, ApplyRollout, ApplyTrain, RolloutEnabled, TrainEnabled, WaitInv;
    hide ClockInv, PhaseInv, StampInv, DeadlineInv, EndInv, TakenInv, SplitInv, QueueInv, CapacityInv, LockInv;
    var s := After(c, steps).value;
    IdsHold(c, steps, 0);
    EndHolds(c, steps);
    StalenessHolds(c, steps);
    CapacityHolds(c, steps);
    WaitHolds(c, steps);
    if RolloutEnabled(c, s, step) {
      if step.SStart? { HandIsFree(c, steps, step); }
      RolloutKeepsAllowance(c, s, step);
    } else if step.SUpdateEnd? {
      ResetKeepsAllowance(c, s);
    } else {
      OthersKeepAllowance(c, s, step);
    }
  }

  lemma {:induction false} AllowanceHolds(c: Limits, steps: seq<Step>)
    requires c.Valid() && After(c, steps).Some?
    ensures AllowanceInv(c, After(c, steps).value)
  {
    if steps != [] {
      var last := |steps| - 1;
      AllowanceHolds(c, steps[..last]);
      AllowanceStep(c, steps[..last], steps[last]);
    } else {
      InitAllowance(c);
    }
    hide AllowanceInv, ApplyRollout, ApplyTrain, RolloutEnabled, TrainEnabled;
  }

  lemma InitAllowance(c: Limits)
    requires c.Valid()
    ensures AllowanceInv(c, Init(c))
  {
  }

  // ---------------------------------------------------------------- progress

  /** The trainer has seen the end of the run and no synchronization is under way. */
  predicate Over(s: State) { s.t.stopped && s.t.phase.Collecting? && s.sync.Quiet? }

  /** A step that gets something done: feeding only for a waiting processor, the monitor only in a pause. */
  predicate Useful(s: State, step: Step) {
    && (step.SFeed? || step.SFeedDone? ==> s.r.proc.Checked? && s.r.pending == [])
    && (step.SMonitorCheck? || step.SMonitorUnpause? ==> s.r.paused)
  }

  lemma TaskStep(c: Limits, s: State) returns (step: Step)
    requires s.r.running != map[]
    ensures RolloutEnabled(c, s, step) && Useful(s, step)
  {
    var id :| id in s.r.running;
    step := if s.r.running[id].Generating? then SStamp(id) else SPut(id);
  }

  lemma SyncStep(c: Limits, s: State) returns (step: Step)
    requires PhaseInv(c, s) && WaitInv(s) && s.r.running == map[]
    requires !s.r.lock.Free? || !s.sync.Quiet? || s.t.phase.WaitLast?
    ensures Enabled(c, s, step) && Useful(s, step)
  {
    step := match s.r.lock
      case ByProcessor => SReap
      case ByPause => SPauseEnd
      case ByUpdate(_) => SUpdateEnd
      case Free =>
        match s.sync
        case PauseRequested => SPauseBegin
        case Paused => SWeights
        case UpdateRequested => SUpdateBegin
        case ResumeRequested => SResume
        case _ => SBeginSync;
  }

  // With nothing running, synchronized or queued the processor can go on, unless it is parked with the
  // allowance used up.
  lemma ProcessorStep(c: Limits, s: State) returns (step: Step)
    requires c.Valid() && PhaseInv(c, s) && WaitInv(s) && DoneInv(s.r) && EndInv(s)
    requires s.r.running == map[] && s.r.lock.Free? && s.sync.Quiet? && s.q.items == [] && !s.t.stopped
    requires s.r.proc.Parked? && s.r.paused && s.r.ActiveTasks() == 0 ==> s.r.staleness < c.maxRequired
    ensures Enabled(c, s, step) && Useful(s, step)
  {
    var r := s.r;
    step := match r.proc
      case Idle =>
        if r.paused || ShouldPause(c, r, s.q) then SDecidePause else if r.cancelled != [] then STakeCancelled else SCheck
      case PausePending => SSetPaused
      case Checked => if r.pending != [] then STakePending else SFeed
      case Holding(_) => if r.ActiveTasks() >= c.maxConcurrent then SAwaitTasks else SStart
      case Draining => if r.ActiveTasks() > 0 then SAwaitTasks else SDrained
      case Ended => SSendStop
      case Parked =>
        if r.ActiveTasks() > 0 then SAwaitTasks
        else if !r.paused then SUnpark
        else if r.monitorArmed then SMonitorUnpause else SMonitorCheck;
  }

  // The trainer waits on an empty queue with nothing running.
  ghost predicate Starved(c: Limits, s: State) {
    && Regular(s) && !s.t.stopped && s.sync.Quiet? && s.t.phase.Collecting? && |s.t.batch| < c.requiredSamples
    && s.r.running == map[] && s.q.items == []
  }

  // All of the allowance that is used up then lies in the cancel queue or was consumed in this version.
  lemma StarvedCount(c: Limits, s: State)
    requires c.Valid() && Starved(c, s) && AllowanceInv(c, s) && CapacityInv(c, s)
    requires ClockInv(c, s) && PhaseInv(c, s) && QueueInv(s.q) && EndInv(s)
    ensures s.r.proc.Parked? ==> s.r.staleness <= |s.r.cancelled| + |s.q.taken| - Cycles(c, s.r.version)
    ensures |s.q.taken| < Cycles(c, s.r.version) + c.Cycle()
  {
    hide Cycles, Used, Limits.Cycle;
    NextCycle(c, s.t.version);
    CycleSteps(c, s.t.localStep);
  }

  /** In a regular run some useful step is possible until the run is over, unless the trainer has taken
      everything and the processor is parked with the whole allowance used up. */
  lemma Progress(c: Limits, steps: seq<Step>) returns (step: Step)
    requires c.Valid() && After(c, steps).Some? && Regular(After(c, steps).value) && !Over(After(c, steps).value)
    requires var s := After(c, steps).value;
             Starved(c, s) && s.r.proc.Parked? ==> s.r.staleness < c.maxRequired
    ensures Enabled(c, After(c, steps).value, step) && Useful(After(c, steps).value, step)
  {
    var s := After(c, steps).value;
    StalenessHolds(c, steps);
    WaitHolds(c, steps);
    EndHolds(c, steps);
    DoneHolds(c, steps);
    if s.r.running != map[] {
      step := TaskStep(c, s);
    } else if !s.r.lock.Free? || !s.sync.Quiet? || s.t.phase.WaitLast? {
      step := SyncStep(c, s);
    } else if |s.t.batch| == c.requiredSamples {
      step := STrain;
    } else if s.q.items != [] {
      step := SGet;
    } else {
      assert Starved(c, s);
      step := ProcessorStep(c, s);
    }
    hide After, PhaseInv, StampInv, DeadlineInv, WaitInv, DoneInv, EndInv, TakenInv;
  }
}
