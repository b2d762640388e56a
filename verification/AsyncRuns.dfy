/** Building blocks for runs, for every configuration: making samples, consuming them, moving to the
    next version. Each lemma says how the state it reaches differs from the one it starts from. */
module AsyncRuns {
  import opened Basics
  import opened AsyncModel
  import opened AsyncCapacity
  import opened AsyncConservation
  import opened AsyncStaleness

  ghost predicate Reachable(c: Limits, s: State)
    requires c.maxRequired >= 1
  {
    exists steps :: After(c, steps) == Some(s)
  }

  lemma Extend(c: Limits, s: State, step: Step)
    requires c.maxRequired >= 1 && Reachable(c, s) && Enabled(c, s, step)
    ensures Reachable(c, Apply(c, s, step))
  {
    hide ApplyRollout, ApplyTrain, RolloutEnabled, TrainEnabled;
    var steps :| After(c, steps) == Some(s);
    var more := steps + [step];
    assert more[..|steps|] == steps;
    assert After(c, more) == Some(Apply(c, s, step));
  }

  lemma Go(c: Limits, s: State, step: Step) returns (s': State)
    requires c.maxRequired >= 1 && Reachable(c, s) && RolloutEnabled(c, s, step)
    ensures s' == ApplyRollout(c, s, step) && Reachable(c, s')
  {
    hide ApplyRollout, ApplyTrain, RolloutEnabled, TrainEnabled;
    Extend(c, s, step);
    s' := ApplyRollout(c, s, step);
  }

  lemma GoTrain(c: Limits, s: State, step: Step) returns (s': State)
    requires c.maxRequired >= 1 && Reachable(c, s) && TrainEnabled(c, s, step) && !RolloutEnabled(c, s, step)
    ensures s' == ApplyTrain(c, s, step) && Reachable(c, s')
  {
    hide ApplyRollout, ApplyTrain, RolloutEnabled, TrainEnabled;
    Extend(c, s, step);
    s' := ApplyTrain(c, s, step);
  }

  /** What the earlier files prove of every run, about a reachable state. */
  lemma Known(c: Limits, s: State)
    requires c.Valid() && Reachable(c, s)
    ensures CapacityInv(c, s) && LockInv(s) && ClockInv(c, s) && PhaseInv(c, s) && UseClockInv(c, s)
    ensures QueueInv(s.q) && TakenInv(s) && EndInv(s)
  {
    var steps :| After(c, steps) == Some(s);
    hide After, CapacityInv, LockInv, ClockInv, PhaseInv, UseClockInv, QueueInv, TakenInv, EndInv, StampInv, DeadlineInv;
    CapacityHolds(c, steps);
    StalenessHolds(c, steps);
    UseClockHolds(c, steps);
    IdsHold(c, steps, 0);
    EndHolds(c, steps);
  }

  // ---------------------------------------------------------------- quiet states

  ghost predicate AllReal(items: seq<Msg>) { forall i :: 0 <= i < |items| ==> items[i].Sample? }

  /** The rollouter works regularly on its last task, if any, with nothing cancelled or fed ahead. */
  ghost predicate Working(c: Limits, r: Rollouter) {
    && r.cancelled == [] && r.pending == [] && !r.feedDone && !r.stopSent
    && r.lock.Free? && !r.paused && !r.cancelling && !r.breached && r.monitorTrigger && !r.monitorArmed
    && r.ActiveTasks() <= c.maxConcurrent
  }

  /** Nothing is being generated or synchronized. */
  ghost predicate Calm(c: Limits, s: State) {
    && Working(c, s.r) && s.r.running == map[] && s.sync.Quiet? && !s.t.stopped && AllReal(s.q.items)
  }

  /** The trainer is collecting and its batch has room. */
  predicate Ready(c: Limits, t: Trainer) {
    !t.stopped && t.phase.Collecting? && |t.batch| < c.requiredSamples
  }

  lemma Start(c: Limits) returns (s: State)
    requires c.Valid()
    ensures s == Init(c) && Reachable(c, s) && Calm(c, s) && s.r.proc.Idle? && Ready(c, s.t)
  {
    s := Init(c);
    assert After(c, []) == Some(s);
  }

  // ---------------------------------------------------------------- making samples

  predicate MayTake(c: Limits, s: State) { s.r.staleness < c.maxRequired && |s.q.items| < c.maxRequired }

  /** A new sample is fed and taken. */
  lemma Take(c: Limits, s: State) returns (s': State)
    requires c.Valid() && Reachable(c, s) && Working(c, s.r) && s.r.proc.Idle? && MayTake(c, s)
    ensures Reachable(c, s') && Working(c, s'.r)
    ensures s' == s.(r := s.r.(fed := s.r.fed + 1, staleness := s.r.staleness + 1, proc := Holding(s.r.fed)))
  {
    hide Reachable;
    var a := Go(c, s, SFeed);
    var b := Go(c, a, SCheck);
    s' := Go(c, b, STakePending);
  }

  /** The sample in hand is started, after a task was reaped if need be. */
  lemma Submit(c: Limits, s: State) returns (s': State)
    requires c.Valid() && Reachable(c, s) && Working(c, s.r) && s.r.proc.Holding?
    requires |s.r.running| < c.maxConcurrent && s.r.proc.id !in s.r.running
    ensures Reachable(c, s') && Working(c, s'.r)
    ensures s' == s.(r := s.r.(running := s.r.running[s.r.proc.id := Generating], proc := Idle, finished := s'.r.finished))
  {
    hide Reachable;
    var a := s;
    if s.r.ActiveTasks() >= c.maxConcurrent {
      a := Go(c, s, SAwaitTasks);
      a := Go(c, a, SReap);
    }
    s' := Go(c, a, SStart);
    RunningPut(a.r.running, s.r.proc.id, Generating);
  }

  /** A running task is stamped and its sample put. */
  lemma Finish(c: Limits, s: State, id: nat) returns (s': State)
    requires c.Valid() && Reachable(c, s) && Working(c, s.r) && id in s.r.running && s.r.running[id].Generating?
    ensures Reachable(c, s') && Working(c, s'.r)
    ensures s' == s.(r := s.r.(running := s.r.running - {id}, finished := s.r.finished + 1),
                     q := Put(s.q, c.MaxQueue(), Sample(id, s.r.version)))
  {
    hide Reachable;
    RunningMinus(s.r.running, id);
    var a := Go(c, s, SStamp(id));
    s' := Go(c, a, SPut(id));
    assert a.r.running - {id} == s.r.running - {id};
  }

  /** A sample is fed, taken, started, finished and put. */
  lemma Make(c: Limits, s: State) returns (s': State)
    requires c.Valid() && Reachable(c, s) && Calm(c, s) && s.r.proc.Idle? && MayTake(c, s)
    ensures Reachable(c, s') && Calm(c, s') && s'.q == Put(s.q, c.MaxQueue(), Sample(s.r.fed, s.r.version))
    ensures s' == s.(r := s.r.(fed := s.r.fed + 1, staleness := s.r.staleness + 1, finished := s'.r.finished), q := s'.q)
  {
    hide Reachable;
    var a := Take(c, s);
    var b := Submit(c, a);
    s' := Finish(c, b, s.r.fed);
    assert b.r.running - {s.r.fed} == map[];
  }

  /** These many samples, all stamped with the current version. */
  lemma {:induction false} MakeMany(c: Limits, s: State, n: nat) returns (s': State)
    requires c.Valid() && Reachable(c, s) && Calm(c, s) && s.r.proc.Idle?
    requires s.r.staleness + n <= c.maxRequired && |s.q.items| + n <= c.maxRequired
    ensures Reachable(c, s') && Calm(c, s')
    ensures s' == s.(r := s.r.(fed := s'.r.fed, staleness := s.r.staleness + n, finished := s'.r.finished), q := s'.q)
    ensures |s'.q.items| == |s.q.items| + n && s'.q.taken == s.q.taken && s'.q.evicted == s.q.evicted
    ensures s.q.produced <= s'.q.produced && |s'.q.produced| == |s.q.produced| + n
    ensures n > 0 ==> var last := s'.q.produced[|s'.q.produced| - 1]; last.Sample? && last.stamp == s.r.version
    decreases n
  {
    hide Reachable;
    if n == 0 {
      s' := s;
    } else {
      var a := MakeMany(c, s, n - 1);
      s' := Make(c, a);
      hide Calm;
    }
  }

  // ---------------------------------------------------------------- consuming them

  /** The trainer's place: how many messages it has taken says which version it works on. */
  ghost predicate Placed(c: Limits, t: Trainer, taken: int, version: int) {
    if taken == Cycles(c, version + 1) then t.phase.WaitLast? && t.version == version + 1 && t.batch == [] && !t.stopped
    else Ready(c, t) && t.version == version
  }

  /** The trainer after one more message: trained when that fills its batch. */
  function TrainerTakes(c: Limits, t: Trainer, m: Msg): Trainer {
    var full := t.(batch := t.batch + [m]);
    if |full.batch| == c.requiredSamples then TrainStep(c, full) else full
  }

  lemma TakesPlace(c: Limits, t: Trainer, m: Msg)
    requires c.Valid() && Ready(c, t) && 1 <= t.localStep <= c.triggerSteps
    ensures Placed(c, TrainerTakes(c, t, m), Consumed(c, t) + 1, t.version)
  {
    hide Cycles, Used, Limits.Cycle;
    NextCycle(c, t.version);
    CycleSteps(c, t.localStep);
  }

  lemma GetMessage(c: Limits, s: State) returns (s': State)
    requires c.Valid() && Reachable(c, s) && Ready(c, s.t) && s.q.items != [] && s.q.items[0].Sample?
    ensures Reachable(c, s') && s' == s.(q := Get(s.q), t := s.t.(batch := s.t.batch + [s.q.items[0]]))
  {
    hide Reachable;
    s' := GoTrain(c, s, SGet);
  }

  lemma TrainBatch(c: Limits, s: State) returns (s': State)
    requires c.Valid() && Reachable(c, s) && !s.t.stopped && s.t.phase.Collecting? && |s.t.batch| == c.requiredSamples
    ensures Reachable(c, s') && s' == s.(t := TrainStep(c, s.t))
  {
    hide Reachable, TrainStep;
    s' := GoTrain(c, s, STrain);
  }

  /** The trainer takes the oldest message, and trains when that fills its batch. */
  lemma ConsumeOne(c: Limits, s: State) returns (s': State)
    requires c.Valid() && Reachable(c, s) && Ready(c, s.t) && s.q.items != [] && s.q.items[0].Sample?
    ensures Reachable(c, s') && s' == s.(q := Get(s.q), t := TrainerTakes(c, s.t, s.q.items[0]))
    ensures Placed(c, s'.t, |s'.q.taken|, s.t.version)
  {
    hide Reachable, Cycles, Used, Limits.Cycle, Placed, TrainStep, PhaseInv, CapacityInv, LockInv, UseClockInv;
    Known(c, s);
    TakesPlace(c, s.t, s.q.items[0]);
    s' := GetMessage(c, s);
    if |s'.t.batch| == c.requiredSamples { s' := TrainBatch(c, s'); }
  }

  /** These many messages, up to the end of the trainer's version. */
  lemma {:induction false} ConsumeMany(c: Limits, s: State, n: nat) returns (s': State)
    requires c.Valid() && Reachable(c, s) && Ready(c, s.t) && AllReal(s.q.items)
    requires n <= |s.q.items| && |s.q.taken| + n <= Cycles(c, s.t.version + 1)
    ensures Reachable(c, s') && s' == s.(q := s'.q, t := s'.t)
    ensures Placed(c, s'.t, |s'.q.taken|, s.t.version) && !s'.t.stopped
    ensures s'.q.items == s.q.items[n..] && |s'.q.taken| == |s.q.taken| + n
    ensures s'.q.produced == s.q.produced && s'.q.evicted == s.q.evicted && AllReal(s'.q.items)
    decreases n
  {
    hide Reachable;
    if n == 0 {
      s' := s;
      BeforeEnd(c, s);
    } else {
      var a := ConsumeMany(c, s, n - 1);
      s' := ConsumeOne(c, a);
    }
  }

  lemma BeforeEnd(c: Limits, s: State)
    requires c.Valid() && Reachable(c, s) && Ready(c, s.t)
    ensures Cycles(c, s.t.version) <= |s.q.taken| < Cycles(c, s.t.version + 1)
  {
    hide Reachable, Cycles, Used, Limits.Cycle;
    Known(c, s);
    NextCycle(c, s.t.version);
    CycleSteps(c, s.t.localStep);
  }

  // ---------------------------------------------------------------- the next version

  /** The trainer waits to start the synchronization of its new version. */
  ghost predicate AtSync(c: Limits, s: State) {
    && s.sync.Quiet? && s.t.phase.WaitLast? && !s.t.stopped
    && s.t.version == s.r.version + 1 && s.t.batch == [] && |s.q.taken| == Cycles(c, s.t.version)
  }

  /** From the trigger to the point where `pause` waits for the running tasks. */
  lemma BeginPause(c: Limits, s: State) returns (s': State)
    requires c.Valid() && Reachable(c, s) && AtSync(c, s) && s.r.lock.Free?
    ensures Reachable(c, s')
    ensures s' == State(PauseBegin(c, s.r), s.q, s.t.(phase := InSync), Pausing, s.t.version)
  {
    hide Reachable;
    var a := GoTrain(c, s, SBeginSync);
    s' := GoTrain(c, a, SPauseBegin);
  }

  /** The rest of `sync_weights`: the pause is over, the weights are broadcast. */
  lemma Broadcast(c: Limits, s: State) returns (s': State)
    requires c.Valid() && Reachable(c, s) && s.sync.Pausing? && s.r.running == map[]
    ensures Reachable(c, s')
    ensures s' == State(PauseEnd(s.r).(weights := s.syncVersion), s.q, s.t.(phase := Collecting), UpdateRequested, s.syncVersion)
  {
    hide Reachable;
    var a := GoTrain(c, s, SPauseEnd);
    s' := GoTrain(c, a, SWeights);
  }

  /** The asynchronous rest: the version is updated, the count reset, the rollouter resumed. */
  lemma UpdateAndResume(c: Limits, s: State) returns (s': State)
    requires c.Valid() && Reachable(c, s) && s.sync.UpdateRequested? && s.r.lock.Free?
    ensures Reachable(c, s')
    ensures s' == State(
              s.r.(version := s.syncVersion, staleness := s.r.ActiveTasks() + |s.r.cancelled| + |s.q.items|,
                   handReset := s.r.handReset || s.r.proc.Holding?,
                   paused := false, monitorTrigger := true, cancelling := false),
              s.q, s.t, Quiet, s.syncVersion)
  {
    hide Reachable;
    var a := GoTrain(c, s, SUpdateBegin);
    var b := GoTrain(c, a, SUpdateEnd);
    s' := GoTrain(c, b, SResume);
  }

  /** A whole synchronization of an idle rollouter, the trainer taking n messages before its reset. */
  lemma NextVersion(c: Limits, s: State, n: nat) returns (s': State)
    requires c.Valid() && Reachable(c, s) && Calm(c, s) && AtSync(c, s) && !s.r.proc.Holding?
    requires n <= |s.q.items| && n <= c.Cycle()
    ensures Reachable(c, s') && Calm(c, s') && s'.r.proc == s.r.proc && s'.r.handReset == s.r.handReset
    ensures s'.r.version == s.t.version && s'.r.staleness == |s'.q.items| && s'.r.fed == s.r.fed
    ensures Placed(c, s'.t, |s'.q.taken|, s.t.version)
    ensures s'.q.items == s.q.items[n..] && |s'.q.taken| == |s.q.taken| + n
    ensures s'.q.produced == s.q.produced && s'.q.evicted == s.q.evicted
  {
    hide Reachable;
    NextCycle(c, s.t.version);
    CyclePositive(c);
    var a := BeginPause(c, s);
    var b := Broadcast(c, a);
    var d := ConsumeMany(c, b, n);
    s' := UpdateAndResume(c, d);
  }
}
