/**
 The whole asynchronous program: the actors, and a ghost log of the protocol steps their calls amount to.
 Whatever the order of the calls, the fields are the state that the logged steps lead to, so what is proved
 of every run holds of the program.
 */
module AsyncProgram {
  import opened Basics
  import opened AsyncModel
  import opened AsyncFrames
  import opened AsyncCapacity
  import opened AsyncConservation
  import opened AsyncStaleness
  import opened AsyncOrder
  import opened AsyncProgress
  import opened AsyncActors

  lemma Logged(c: Limits, steps: seq<Step>, s: State, step: Step)
    requires c.maxRequired >= 1 && After(c, steps) == Some(s) && Enabled(c, s, step)
    ensures After(c, steps + [step]) == Some(Apply(c, s, step))
  {
    hide RolloutEnabled, TrainEnabled, ApplyRollout, ApplyTrain;
    assert (steps + [step])[..|steps|] == steps;
  }

  class FullyAsyncProgram {
    const c: Limits
    const mq: MessageQueue
    const rollouter: FullyAsyncRollouter
    const trainer: FullyAsyncTrainer
    const synchronizer: ParameterSynchronizer
    ghost var steps: seq<Step>

    /** The fields of all actors as a state of the protocol. */
    ghost function Now(): State
      reads this, mq, rollouter, trainer, synchronizer
    {
      State(rollouter.View(), mq.View(), trainer.View(), synchronizer.stage, synchronizer.currentVersion)
    }

    ghost predicate Valid()
      reads this, mq, rollouter, trainer, synchronizer
    {
      && c.Valid() && mq.Valid() && mq.running && mq.maxQueueSize == c.MaxQueue()
      && rollouter.mq == mq && rollouter.c == c && trainer.mq == mq && trainer.c == c
      && After(c, steps) == Some(Now())
    }

    constructor (c: Limits)
      requires c.Valid()
      ensures Valid() && steps == [] && this.c == c
      ensures fresh(mq) && fresh(rollouter) && fresh(trainer) && fresh(synchronizer)
    {
      this.c := c;
      var q := new MessageQueue(c.MaxQueue());
      mq := q;
      rollouter := new FullyAsyncRollouter(c, q);
      trainer := new FullyAsyncTrainer(c, q);
      synchronizer := new ParameterSynchronizer(c.baseVersion);
      steps := [];
    }

    // ---------------------------------------------------------------- the rollouter

    /** One pass of the feeding coroutine. */
    method Feed()
      requires Valid() && RolloutEnabled(c, Now(), SFeed)
      modifies this, rollouter
      ensures Valid() && steps == old(steps) + [SFeed]
    {
      hide After;
      Logged(c, steps, Now(), SFeed);
      rollouter.FeedSamples(true);
      steps := steps + [SFeed];
    }

    method FeedEnd()
      requires Valid() && RolloutEnabled(c, Now(), SFeedDone)
      modifies this, rollouter
      ensures Valid() && steps == old(steps) + [SFeedDone]
    {
      hide After;
      Logged(c, steps, Now(), SFeedDone);
      rollouter.FeedSamples(false);
      steps := steps + [SFeedDone];
    }

    method DecidePause()
      requires Valid() && RolloutEnabled(c, Now(), SDecidePause)
      modifies this, rollouter
      ensures Valid() && steps == old(steps) + [SDecidePause]
    {
      hide After;
      Logged(c, steps, Now(), SDecidePause);
      rollouter.DecidePause();
      steps := steps + [SDecidePause];
    }

    /** The sample taken back is the one cancelled longest ago. */
    method TakeCancelled()
      requires Valid() && RolloutEnabled(c, Now(), STakeCancelled)
      modifies this, rollouter
      ensures Valid() && steps == old(steps) + [STakeCancelled]
      ensures |Retaken(c, old(steps))| < |Cancellations(old(steps))|
      ensures rollouter.proc == Holding(Cancellations(old(steps))[|Retaken(c, old(steps))|])
    {
      hide After;
      Logged(c, steps, Now(), STakeCancelled);
      FirstCancelledFirst(c, steps);
      rollouter.TakeFromCancelQueue();
      steps := steps + [STakeCancelled];
    }

    /** The processor goes for a new sample: if no reset ever landed on a held one there is room for it. */
    method PassCheck()
      requires Valid() && RolloutEnabled(c, Now(), SCheck)
      modifies this, rollouter
      ensures Valid() && steps == old(steps) + [SCheck]
      ensures !rollouter.handReset ==> Load(Now()) < c.maxRequired
    {
      hide After;
      Logged(c, steps, Now(), SCheck);
      rollouter.AwaitPending();
      steps := steps + [SCheck];
      Room(c, steps);
    }

    /** The head of the processor loop: the pause check, then the choice of the source queue. */
    method ProcessorTurn() returns (pause: bool)
      requires Valid() && rollouter.proc.Idle?
      modifies this, rollouter
      ensures Valid() && steps == old(steps) + [Turn(old(Now()), pause)]
      ensures pause <==> old(rollouter.paused) || old(|mq.queue|) >= c.maxRequired
                         || old(rollouter.stalenessSamples) >= c.maxRequired
      ensures rollouter.proc.Checked? && !rollouter.handReset ==> Load(Now()) < c.maxRequired
    {
      hide After;
      var should := rollouter.ShouldPauseGeneration();
      pause := rollouter.paused || should;
      if pause {
        DecidePause();
      } else if rollouter.cancelQueue != [] {
        TakeCancelled();
      } else {
        PassCheck();
      }
      Room(c, steps);
    }

    static ghost function Turn(s: State, pause: bool): Step {
      if pause then SDecidePause else if s.r.cancelled != [] then STakeCancelled else SCheck
    }

    static lemma Room(c: Limits, log: seq<Step>)
      requires c.Valid() && After(c, log).Some?
      ensures var s := After(c, log).value; s.r.proc.Checked? && !s.r.handReset ==> Load(s) < c.maxRequired
    {
      CapacityHolds(c, log);
    }

    method PauseProcessor()
      requires Valid() && RolloutEnabled(c, Now(), SSetPaused)
      modifies this, rollouter
      ensures Valid() && steps == old(steps) + [SSetPaused]
    {
      hide After;
      Logged(c, steps, Now(), SSetPaused);
      rollouter.PauseProcessor();
      steps := steps + [SSetPaused];
    }

    method WakeProcessor()
      requires Valid() && RolloutEnabled(c, Now(), SUnpark)
      modifies this, rollouter
      ensures Valid() && steps == old(steps) + [SUnpark]
    {
      hide After;
      Logged(c, steps, Now(), SUnpark);
      rollouter.Wake();
      steps := steps + [SUnpark];
    }

    /** The processor receives the first sample fed that it has not received, or the end mark after all. */
    method ReceivePending()
      requires Valid() && RolloutEnabled(c, Now(), STakePending)
      modifies this, rollouter
      ensures Valid() && steps == old(steps) + [STakePending]
      ensures var next := |Received(c, old(steps))|;
              rollouter.proc == if next < rollouter.fed then Holding(next) else Draining
    {
      hide After;
      Logged(c, steps, Now(), STakePending);
      FirstFedFirst(c, steps);
      rollouter.ReceivePending();
      steps := steps + [STakePending];
    }

    method SubmitTask()
      requires Valid() && RolloutEnabled(c, Now(), SStart)
      modifies this, rollouter
      ensures Valid() && steps == old(steps) + [SStart]
      ensures rollouter.View().ActiveTasks() <= c.maxConcurrent
    {
      hide After;
      Logged(c, steps, Now(), SStart);
      rollouter.SubmitTask();
      steps := steps + [SStart];
      TaskLimit(c, steps);
    }

    method AwaitTasks()
      requires Valid() && RolloutEnabled(c, Now(), SAwaitTasks)
      modifies this, rollouter
      ensures Valid() && steps == old(steps) + [SAwaitTasks]
    {
      hide After;
      Logged(c, steps, Now(), SAwaitTasks);
      rollouter.AwaitTasks();
      steps := steps + [SAwaitTasks];
    }

    method ReapTasks()
      requires Valid() && RolloutEnabled(c, Now(), SReap)
      modifies this, rollouter
      ensures Valid() && steps == old(steps) + [SReap]
    {
      hide After;
      Logged(c, steps, Now(), SReap);
      rollouter.ReapTasks();
      steps := steps + [SReap];
    }

    method EndProcessor()
      requires Valid() && RolloutEnabled(c, Now(), SDrained)
      modifies this, rollouter
      ensures Valid() && steps == old(steps) + [SDrained]
    {
      hide After;
      Logged(c, steps, Now(), SDrained);
      rollouter.EndProcessor();
      steps := steps + [SDrained];
    }

    /** The final None drops nothing unless some reset landed on a held sample. */
    method SendStop()
      requires Valid() && RolloutEnabled(c, Now(), SSendStop)
      modifies this, rollouter, mq
      ensures Valid() && steps == old(steps) + [SSendStop]
      ensures !rollouter.handReset ==> mq.droppedSamples == 0
    {
      hide After;
      Logged(c, steps, Now(), SSendStop);
      var success := rollouter.SendStop();
      steps := steps + [SSendStop];
      NoneDropped(c, steps);
    }

    method StampResult(id: nat)
      requires Valid() && RolloutEnabled(c, Now(), SStamp(id))
      modifies this, rollouter
      ensures Valid() && steps == old(steps) + [SStamp(id)]
    {
      hide After;
      Logged(c, steps, Now(), SStamp(id));
      rollouter.StampResult(id);
      steps := steps + [SStamp(id)];
    }

    /** The put of a sample succeeds, and nothing was ever dropped, unless some reset landed on a held sample. */
    method PutResult(id: nat) returns (success: bool)
      requires Valid() && RolloutEnabled(c, Now(), SPut(id))
      modifies this, rollouter, mq
      ensures Valid() && steps == old(steps) + [SPut(id)]
      ensures !rollouter.handReset ==> success && mq.droppedSamples == 0
    {
      hide After;
      Logged(c, steps, Now(), SPut(id));
      success := rollouter.PutResult(id);
      steps := steps + [SPut(id)];
      NoneDropped(c, steps);
    }

    method Requeue(id: nat)
      requires Valid() && RolloutEnabled(c, Now(), SCancel(id))
      modifies this, rollouter
      ensures Valid() && steps == old(steps) + [SCancel(id)]
    {
      hide After;
      Logged(c, steps, Now(), SCancel(id));
      rollouter.Requeue(id);
      steps := steps + [SCancel(id)];
    }

    static lemma TaskLimit(c: Limits, log: seq<Step>)
      requires c.Valid() && After(c, log).Some?
      ensures After(c, log).value.r.ActiveTasks() <= c.maxConcurrent
    {
      CapacityHolds(c, log);
    }

    static lemma NoneDropped(c: Limits, log: seq<Step>)
      requires c.Valid() && After(c, log).Some?
      ensures !After(c, log).value.r.handReset ==> After(c, log).value.q.evicted == []
    {
      CapacityHolds(c, log);
    }

    // ---------------------------------------------------------------- the trainer

    /** The trainer gets the oldest message that was not dropped. */
    method CollectSample()
      requires Valid() && TrainEnabled(c, Now(), SGet)
      modifies this, trainer, mq
      ensures Valid() && steps == old(steps) + [SGet] && |old(mq.taken)| + |old(mq.evicted)| < |old(mq.produced)|
      ensures mq.taken == old(mq.taken) + [old(mq.produced)[|old(mq.taken)| + |old(mq.evicted)|]]
    {
      hide After;
      Logged(c, steps, Now(), SGet);
      Oldest(c, steps);
      trainer.CollectSample();
      steps := steps + [SGet];
    }

    static lemma Oldest(c: Limits, log: seq<Step>)
      requires c.Valid() && After(c, log).Some? && After(c, log).value.q.items != []
      ensures var q := After(c, log).value.q;
              |q.taken| + |q.evicted| < |q.produced| && q.items[0] == q.produced[|q.taken| + |q.evicted|]
    {
      IdsHold(c, log, 0);
    }

    /** Every sample trained on so far was fresh enough when it was used. */
    method TrainStep()
      requires Valid() && TrainEnabled(c, Now(), STrain)
      modifies this, trainer
      ensures Valid() && steps == old(steps) + [STrain]
      ensures forall u :: u in trainer.trained ==> Fresh(c, u, if rollouter.breached then 1 else 0)
    {
      hide After;
      Logged(c, steps, Now(), STrain);
      trainer.FitStep();
      steps := steps + [STrain];
      AllFresh(c, steps);
    }

    static lemma AllFresh(c: Limits, log: seq<Step>)
      requires c.Valid() && After(c, log).Some?
      ensures var s := After(c, log).value; forall u :: u in s.t.trained ==> Fresh(c, u, if s.r.breached then 1 else 0)
    {
      forall u | u in After(c, log).value.t.trained
        ensures Fresh(c, u, if After(c, log).value.r.breached then 1 else 0)
      {
        SamplesAreFresh(c, log, u);
      }
    }

    method FinalTrigger()
      requires Valid() && TrainEnabled(c, Now(), SFinalTrigger)
      modifies this, trainer
      ensures Valid() && steps == old(steps) + [SFinalTrigger]
    {
      hide After;
      Logged(c, steps, Now(), SFinalTrigger);
      trainer.FinalTrigger();
      steps := steps + [SFinalTrigger];
    }

    // ---------------------------------------------------------------- the synchronization

    /** The trainer has waited for the last synchronization and starts the next. */
    method SyncWeights()
      requires Valid() && TrainEnabled(c, Now(), SBeginSync)
      modifies this, trainer, synchronizer
      ensures Valid() && steps == old(steps) + [SBeginSync]
    {
      hide After;
      Logged(c, steps, Now(), SBeginSync);
      trainer.Enter(InSync);
      synchronizer.SyncWeights(trainer.currentParamVersion);
      steps := steps + [SBeginSync];
    }

    method PauseRollout()
      requires Valid() && TrainEnabled(c, Now(), SPauseBegin)
      modifies this, rollouter, synchronizer
      ensures Valid() && steps == old(steps) + [SPauseBegin]
    {
      hide After;
      Logged(c, steps, Now(), SPauseBegin);
      rollouter.Pause();
      synchronizer.Advance(Pausing);
      steps := steps + [SPauseBegin];
    }

    method PauseDone()
      requires Valid() && TrainEnabled(c, Now(), SPauseEnd)
      modifies this, rollouter, synchronizer
      ensures Valid() && steps == old(steps) + [SPauseEnd]
    {
      hide After;
      Logged(c, steps, Now(), SPauseEnd);
      rollouter.PauseDone();
      synchronizer.Advance(Paused);
      steps := steps + [SPauseEnd];
    }

    /** The weights change while nothing is being generated, if the monitor kept out of the pause. */
    method BroadcastWeights()
      requires Valid() && TrainEnabled(c, Now(), SWeights)
      modifies this, rollouter, trainer, synchronizer
      ensures Valid() && steps == old(steps) + [SWeights]
      ensures !rollouter.breached ==> rollouter.running == map[]
    {
      hide After;
      Logged(c, steps, Now(), SWeights);
      NothingGenerated(c, steps);
      rollouter.LoadWeights(synchronizer.currentVersion);
      trainer.Enter(Collecting);
      synchronizer.Advance(UpdateRequested);
      steps := steps + [SWeights];
    }

    static lemma NothingGenerated(c: Limits, log: seq<Step>)
      requires c.Valid() && After(c, log).Some? && After(c, log).value.sync.Paused?
      ensures !After(c, log).value.r.breached ==> After(c, log).value.r.running == map[]
    {
      StalenessHolds(c, log);
    }

    method UpdateParamVersion()
      requires Valid() && TrainEnabled(c, Now(), SUpdateBegin)
      modifies this, rollouter, synchronizer
      ensures Valid() && steps == old(steps) + [SUpdateBegin]
    {
      hide After;
      Logged(c, steps, Now(), SUpdateBegin);
      rollouter.UpdateParamVersion(synchronizer.currentVersion);
      synchronizer.Advance(Updating);
      steps := steps + [SUpdateBegin];
    }

    /** The staleness count restarts from what is under way: all of it, but for a sample in hand. If the
        monitor kept out of the pause, that is exactly what is queued and what was cancelled. */
    method UpdateDone()
      requires Valid() && TrainEnabled(c, Now(), SUpdateEnd)
      modifies this, rollouter, synchronizer
      ensures Valid() && steps == old(steps) + [SUpdateEnd]
      ensures Load(Now()) <= rollouter.stalenessSamples + (if rollouter.proc.Holding? then 1 else 0)
      ensures !rollouter.breached ==> rollouter.stalenessSamples == |rollouter.cancelQueue| + |mq.queue|
    {
      hide After;
      Logged(c, steps, Now(), SUpdateEnd);
      AllCounted(c, steps);
      rollouter.UpdateDone();
      synchronizer.Advance(ResumeRequested);
      steps := steps + [SUpdateEnd];
    }

    static lemma AllCounted(c: Limits, log: seq<Step>)
      requires c.Valid() && After(c, log).Some? && After(c, log).value.r.lock.ByUpdate?
      ensures var s := After(c, log).value; Load(s) <= s.r.lock.counted + |s.q.items| + Hand(s.r)
      ensures var r := After(c, log).value.r; !r.breached ==> r.lock.counted == |r.cancelled|
    {
      CapacityHolds(c, log);
      WaitHolds(c, log);
      RealAtMost(After(c, log).value.q.items);
    }

    method ResumeRollout()
      requires Valid() && TrainEnabled(c, Now(), SResume)
      modifies this, rollouter, synchronizer
      ensures Valid() && steps == old(steps) + [SResume]
    {
      hide After;
      Logged(c, steps, Now(), SResume);
      rollouter.ResumeRollout();
      synchronizer.Advance(Quiet);
      steps := steps + [SResume];
    }

    // ---------------------------------------------------------------- the monitor

    method MonitorCheck()
      requires Valid() && TrainEnabled(c, Now(), SMonitorCheck)
      modifies this, rollouter
      ensures Valid() && steps == old(steps) + [SMonitorCheck]
    {
      hide After;
      Logged(c, steps, Now(), SMonitorCheck);
      var unpause := rollouter.MonitorCheck();
      steps := steps + [SMonitorCheck];
    }

    method MonitorUnpause()
      requires Valid() && TrainEnabled(c, Now(), SMonitorUnpause)
      modifies this, rollouter
      ensures Valid() && steps == old(steps) + [SMonitorUnpause]
    {
      hide After;
      Logged(c, steps, Now(), SMonitorUnpause);
      rollouter.Unpause();
      steps := steps + [SMonitorUnpause];
    }

    // ---------------------------------------------------------------- schedules

    static predicate IsProcessorStep(step: Step) {
      step.SFeed? || step.SFeedDone? || step.SDecidePause? || step.SSetPaused? || step.SUnpark? ||
      step.STakeCancelled? || step.SCheck? || step.STakePending?
    }

    method PerformProcessor(step: Step)
      requires Valid() && RolloutEnabled(c, Now(), step) && IsProcessorStep(step)
      modifies this, mq, rollouter, trainer, synchronizer
      ensures Valid() && steps == old(steps) + [step]
    {
      if step.SFeed? {
        Feed();
      } else if step.SFeedDone? {
        FeedEnd();
      } else if step.SDecidePause? {
        DecidePause();
      } else if step.SSetPaused? {
        PauseProcessor();
      } else if step.SUnpark? {
        WakeProcessor();
      } else if step.STakeCancelled? {
        TakeCancelled();
      } else if step.SCheck? {
        PassCheck();
      } else {
        ReceivePending();
      }
    }

    method PerformTask(step: Step)
      requires Valid() && RolloutEnabled(c, Now(), step) && !IsProcessorStep(step)
      modifies this, mq, rollouter, trainer, synchronizer
      ensures Valid() && steps == old(steps) + [step]
    {
      if step.SStart? {
        SubmitTask();
      } else if step.SAwaitTasks? {
        AwaitTasks();
      } else if step.SReap? {
        ReapTasks();
      } else if step.SDrained? {
        EndProcessor();
      } else if step.SSendStop? {
        SendStop();
      } else if step.SStamp? {
        StampResult(step.id);
      } else if step.SPut? {
        var _ := PutResult(step.id);
      } else {
        Requeue(step.id);
      }
    }

    static predicate IsSyncStep(step: Step) {
      step.SPauseBegin? || step.SPauseEnd? || step.SWeights? || step.SUpdateBegin? ||
      step.SUpdateEnd? || step.SResume?
    }

    method PerformSync(step: Step)
      requires Valid() && TrainEnabled(c, Now(), step) && IsSyncStep(step)
      modifies this, mq, rollouter, trainer, synchronizer
      ensures Valid() && steps == old(steps) + [step]
    {
      if step.SPauseBegin? {
        PauseRollout();
      } else if step.SPauseEnd? {
        PauseDone();
      } else if step.SWeights? {
        BroadcastWeights();
      } else if step.SUpdateBegin? {
        UpdateParamVersion();
      } else if step.SUpdateEnd? {
        UpdateDone();
      } else {
        ResumeRollout();
      }
    }

    method PerformTrainer(step: Step)
      requires Valid() && TrainEnabled(c, Now(), step) && !IsSyncStep(step)
      modifies this, mq, rollouter, trainer, synchronizer
      ensures Valid() && steps == old(steps) + [step]
    {
      if step.SGet? {
        CollectSample();
      } else if step.STrain? {
        TrainStep();
      } else if step.SFinalTrigger? {
        FinalTrigger();
      } else if step.SBeginSync? {
        SyncWeights();
      } else if step.SMonitorCheck? {
        MonitorCheck();
      } else {
        MonitorUnpause();
      }
    }

    /** Any schedule of steps that the protocol allows can be carried out by the actors, and leads to the
        state the protocol says. */
    method Run(schedule: seq<Step>)
      requires Valid() && After(c, steps + schedule).Some?
      modifies this, mq, rollouter, trainer, synchronizer
      ensures Valid() && steps == old(steps) + schedule
      ensures After(c, old(steps) + schedule) == Some(Now())
      ensures Load(Now()) <= c.maxRequired + (if rollouter.handReset then 1 else 0)
      ensures !rollouter.handReset ==> mq.droppedSamples == 0
      ensures forall j :: 0 <= j < |Received(c, steps)| ==> Received(c, steps)[j] == j
      ensures Retaken(c, steps) <= Cancellations(steps)
    {
      hide After, Enabled, RolloutEnabled, TrainEnabled;
      ghost var log := steps + schedule;
      for i := 0 to |schedule|
        invariant Valid() && steps == old(steps) + schedule[..i] && After(c, log).Some?
        invariant log == old(steps) + schedule
      {
        ghost var done := steps;
        var step := schedule[i];
        NextEnabled(c, log, |steps|);
        assert log[..|steps|] == steps && log[|steps|] == step;
        Perform(step);
        assert done + [step] == old(steps) + schedule[..i + 1];
      }
      assert schedule[..|schedule|] == schedule;
      Bounds(c, steps);
      FirstFedFirst(c, steps);
      FirstCancelledFirst(c, steps);
    }

    method Perform(step: Step)
      requires Valid() && Enabled(c, Now(), step)
      modifies this, mq, rollouter, trainer, synchronizer
      ensures Valid() && steps == old(steps) + [step]
    {
      hide After;
      if IsSyncStep(step) {
        PerformSync(step);
      } else if step.SGet? || step.STrain? || step.SFinalTrigger? || step.SBeginSync? || step.SMonitorCheck?
             || step.SMonitorUnpause? {
        PerformTrainer(step);
      } else if IsProcessorStep(step) {
        PerformProcessor(step);
      } else {
        PerformTask(step);
      }
    }

    static lemma {:induction false} NextEnabled(c: Limits, log: seq<Step>, i: nat)
      requires c.maxRequired >= 1 && i < |log| && After(c, log).Some?
      ensures After(c, log[..i]).Some? && Enabled(c, After(c, log[..i]).value, log[i])
    {
      hide Enabled, Apply;
      var last := |log| - 1;
      if i < last {
        NextEnabled(c, log[..last], i);
        assert log[..last][..i] == log[..i];
      }
    }

    static lemma Bounds(c: Limits, log: seq<Step>)
      requires c.Valid() && After(c, log).Some?
      ensures var s := After(c, log).value; Load(s) <= c.maxRequired + Slack(s.r) && (!s.r.handReset ==> s.q.evicted == [])
    {
      CapacityHolds(c, log);
    }
  }
}
