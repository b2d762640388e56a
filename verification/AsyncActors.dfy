/**
 The actors of the asynchronous program as classes with the source's own fields. A method is one atomic
 section; its precondition is what the section has waited for, and its contract the field changes.
 `AsyncProgram` puts the actors together and ties every call to a step of the protocol.
 */
module AsyncActors {
  import opened Basics
  import opened AsyncModel

  class MessageQueue {
    const maxQueueSize: nat
    var queue: seq<Msg>
    var running: bool
    var totalProduced: nat
    var totalConsumed: nat
    var droppedSamples: nat
    ghost var produced: seq<Msg>
    ghost var taken: seq<Msg>
    ghost var evicted: seq<Msg>

    ghost predicate Valid() reads this {
      && maxQueueSize >= 1 && |queue| <= maxQueueSize
      && totalProduced == |produced| && totalConsumed == |taken| && droppedSamples == |evicted|
      && totalProduced == totalConsumed + droppedSamples + |queue|
    }

    ghost function View(): Queue reads this { Queue(queue, produced, taken, evicted) }

    constructor (maxQueueSize: nat)
      requires maxQueueSize >= 1
      ensures Valid() && View() == Queue([], [], [], []) && this.maxQueueSize == maxQueueSize && running
    {
      this.maxQueueSize := maxQueueSize;
      queue, running, totalProduced, totalConsumed, droppedSamples := [], true, 0, 0, 0;
      produced, taken, evicted := [], [], [];
    }

    /** The result is false when an older message was dropped; the new one is queued either way. */
    method PutSample(sample: Msg) returns (success: bool)
      requires Valid()
      modifies `queue, `totalProduced, `droppedSamples, `produced, `evicted
      ensures Valid() && View() == Put(old(View()), maxQueueSize, sample)
      ensures success <==> droppedSamples == old(droppedSamples)
      ensures success <==> old(|queue|) < maxQueueSize
    {
      var isDrop := false;
      if |queue| >= maxQueueSize {
        evicted := evicted + [queue[0]];
        queue := queue[1..];
        droppedSamples := droppedSamples + 1;
        isDrop := true;
      }
      queue := queue + [sample];
      produced := produced + [sample];
      totalProduced := totalProduced + 1;
      success := !isDrop;
    }

    /** After the wait for a message or for the shutdown: the oldest message and how many are left, or None
        from a queue that is closed and empty. */
    method GetSample() returns (r: Option<(Msg, nat)>)
      requires Valid() && (queue != [] || !running)
      modifies `queue, `totalConsumed, `taken
      ensures Valid() && (r.None? <==> old(queue) == [])
      ensures r.None? ==> View() == old(View())
      ensures r.Some? ==> View() == Get(old(View())) && r.value == (old(queue)[0], |queue|)
    {
      if !running && queue == [] { return None; }
      var data := queue[0];
      queue := queue[1..];
      taken := taken + [data];
      totalConsumed := totalConsumed + 1;
      return Some((data, |queue|));
    }

    method Shutdown()
      modifies `running
      ensures !running
    {
      running := false;
    }

    method GetQueueSize() returns (size: nat)
      ensures size == |queue|
    {
      size := |queue|;
    }
  }

  class FullyAsyncRollouter {
    const c: Limits
    const mq: MessageQueue
    var pendingQueue: seq<Pending>
    var fed: nat
    var feedDone: bool
    var proc: Proc
    var running: map<nat, Task>
    var finished: nat
    var cancelQueue: seq<nat>
    var stalenessSamples: nat
    var currentParamVersion: nat
    var weights: nat
    var paused: bool
    var monitorLoopTrigger: bool
    var monitorArmed: bool
    var cancelling: bool
    var lock: Lock
    var stopSent: bool
    ghost var handReset: bool
    ghost var breached: bool

    ghost function View(): Rollouter reads this {
      Rollouter(pendingQueue, fed, feedDone, proc, running, finished, cancelQueue, stalenessSamples,
                currentParamVersion, weights, paused, monitorLoopTrigger, monitorArmed, cancelling,
                lock, stopSent, handReset, breached)
    }

    constructor (c: Limits, mq: MessageQueue)
      ensures View() == Init(c).r && this.c == c && this.mq == mq
    {
      this.c, this.mq := c, mq;
      pendingQueue, fed, feedDone, proc := [], 0, false, Idle;
      running, finished, cancelQueue, stalenessSamples := map[], 0, [], 0;
      currentParamVersion, weights := c.baseVersion, c.baseVersion;
      paused, monitorLoopTrigger, monitorArmed, cancelling := false, true, false, false;
      lock, stopSent, handReset, breached := Free, false, false, false;
    }

    method ShouldPauseGeneration() returns (pause: bool)
      ensures pause <==> ShouldPause(c, View(), mq.View())
    {
      var queueSize := mq.GetQueueSize();
      if queueSize >= c.MaxQueue() {
        return true;
      }
      if stalenessSamples >= c.maxRequired {
        return true;
      }
      return false;
    }

    /** One pass of `_feed_samples`. */
    method FeedSamples(more: bool)
      modifies `pendingQueue, `fed, `feedDone
      ensures View() == if more then FeedSample(old(View())) else FeedDone(old(View()))
    {
      if more {
        pendingQueue := pendingQueue + [Item(fed)];
        fed := fed + 1;
      } else {
        pendingQueue := pendingQueue + [DoneMark];
        feedDone := true;
      }
    }

    /** The three ways on from the head of the processor loop. */
    method DecidePause()
      modifies `proc
      ensures proc == PausePending
    {
      proc := PausePending;
    }

    method TakeFromCancelQueue()
      requires cancelQueue != []
      modifies `proc, `cancelQueue
      ensures View() == TakeCancelled(old(View()))
    {
      proc := Holding(cancelQueue[0]);
      cancelQueue := cancelQueue[1..];
    }

    method AwaitPending()
      modifies `proc
      ensures proc == Checked
    {
      proc := Checked;
    }

    /** The pause decided on, under the lock. */
    method PauseProcessor()
      modifies `proc, `paused
      ensures proc == Parked && paused
    {
      proc, paused := Parked, true;
    }

    /** The processor is woken and starts its loop again. */
    method Wake()
      modifies `proc
      ensures proc == Idle
    {
      proc := Idle;
    }

    /** The return of `pending_queue.get()`. */
    method ReceivePending()
      requires pendingQueue != []
      modifies `pendingQueue, `stalenessSamples, `proc
      ensures View() == TakePending(old(View()))
    {
      var next := pendingQueue[0];
      pendingQueue := pendingQueue[1..];
      stalenessSamples := stalenessSamples + 1;
      match next {
        case Item(id) => proc := Holding(id);
        case DoneMark => proc := Draining;
      }
    }

    /** The submission under the lock, once a slot is free and `paused` is clear. */
    method SubmitTask()
      requires proc.Holding?
      modifies `running, `proc
      ensures View() == StartTask(old(View()))
    {
      running := running[proc.id := Generating];
      proc := Idle;
    }

    /** The processor's wait for a task, which keeps the lock, and the reaping of what is done. */
    method AwaitTasks()
      modifies `lock
      ensures lock == ByProcessor
    {
      lock := ByProcessor;
    }

    method ReapTasks()
      modifies `lock, `finished
      ensures lock == Free && finished == 0
    {
      lock, finished := Free, 0;
    }

    method EndProcessor()
      modifies `proc
      ensures proc == Ended
    {
      proc := Ended;
    }

    /** The final None, after the processor has ended. */
    method SendStop() returns (success: bool)
      requires mq.Valid()
      modifies `stopSent, mq`queue, mq`totalProduced, mq`droppedSamples, mq`produced, mq`evicted
      ensures stopSent && mq.Valid() && mq.View() == Put(old(mq.View()), mq.maxQueueSize, Stop)
      ensures success <==> old(|mq.queue|) < mq.maxQueueSize
    {
      success := mq.PutSample(Stop);
      stopSent := true;
    }

    /** A finished generation is stamped with the current version. */
    method StampResult(id: nat)
      modifies `running
      ensures View() == StampTask(old(View()), id)
    {
      running := running[id := Putting(currentParamVersion)];
    }

    /** The tail of `_process_single_sample_streaming`: the put of a stamped sample. */
    method PutResult(id: nat) returns (success: bool)
      requires mq.Valid() && id in running && running[id].Putting?
      modifies `running, `finished, mq`queue, mq`totalProduced, mq`droppedSamples, mq`produced, mq`evicted
      ensures View() == EndTask(old(View()), id) && mq.Valid()
      ensures mq.View() == Put(old(mq.View()), mq.maxQueueSize, Sample(id, old(running)[id].stamp))
      ensures success <==> old(|mq.queue|) < mq.maxQueueSize
    {
      success := mq.PutSample(Sample(id, running[id].stamp));
      running := running - {id};
      finished := finished + 1;
    }

    /** The branch of a cancelled generation. */
    method Requeue(id: nat)
      modifies `running, `finished, `cancelQueue
      ensures View() == CancelTask(old(View()), id)
    {
      running := running - {id};
      finished := finished + 1;
      cancelQueue := cancelQueue + [id];
    }

    /** `pause` up to the wait for the running tasks. */
    method Pause()
      modifies `lock, `paused, `cancelling
      ensures View() == PauseBegin(c, old(View()))
    {
      lock := ByPause;
      paused := true;
      if c.partialRollout { cancelling := true; }
    }

    /** The rest of `pause`, when no task is unfinished. */
    method PauseDone()
      modifies `finished, `monitorLoopTrigger, `lock
      ensures View() == PauseEnd(old(View()))
    {
      finished := 0;
      monitorLoopTrigger := false;
      lock := Free;
    }

    method LoadWeights(version: nat)
      modifies `weights
      ensures weights == version
    {
      weights := version;
    }

    /** `update_param_version` up to its await: version set, local counts read. */
    method UpdateParamVersion(version: nat)
      modifies `currentParamVersion, `lock
      ensures View() == UpdateBegin(old(View()), version)
    {
      currentParamVersion := version;
      lock := ByUpdate(|running| + finished + |cancelQueue|);
    }

    /** After the await: the count is overwritten, whatever happened in between. */
    method UpdateDone()
      requires lock.ByUpdate?
      modifies `stalenessSamples, `handReset, `lock
      ensures View() == UpdateEnd(old(View()), |mq.queue|)
    {
      var queueSize := mq.GetQueueSize();
      stalenessSamples := lock.counted + queueSize;
      handReset := handReset || proc.Holding?;
      lock := Free;
    }

    method ResumeRollout()
      modifies `cancelling, `paused, `monitorLoopTrigger
      ensures View() == Resume(old(View()))
    {
      cancelling, paused, monitorLoopTrigger := false, false, true;
    }

    /** The monitor's check, outside the lock: it goes on to unpause when nothing asks for a pause. */
    method MonitorCheck() returns (unpause: bool)
      modifies `monitorArmed
      ensures unpause <==> old(monitorLoopTrigger && !ShouldPause(c, View(), mq.View()))
      ensures monitorArmed <==> old(monitorArmed) || unpause
    {
      unpause := false;
      if monitorLoopTrigger {
        var should := ShouldPauseGeneration();
        unpause := !should;
      }
      monitorArmed := monitorArmed || unpause;
    }

    /** The monitor's unpausing section. */
    method Unpause()
      modifies `paused, `monitorArmed, `breached
      ensures View() == MonitorUnpause(old(View()))
    {
      breached := breached || !monitorLoopTrigger;
      paused, monitorArmed := false, false;
    }
  }

  class FullyAsyncTrainer {
    const c: Limits
    const mq: MessageQueue
    var currentParamVersion: nat
    var localTriggerStep: nat
    var queueSamples: seq<Msg>
    var phase: Phase
    var stopped: bool
    var finalDone: bool
    ghost var trained: seq<Use>

    ghost function View(): Trainer reads this {
      Trainer(currentParamVersion, localTriggerStep, queueSamples, trained, phase, stopped, finalDone)
    }

    constructor (c: Limits, mq: MessageQueue)
      ensures View() == Init(c).t && this.c == c && this.mq == mq
    {
      this.c, this.mq := c, mq;
      currentParamVersion, localTriggerStep, queueSamples := c.baseVersion, 1, [];
      phase, stopped, finalDone, trained := Collecting, false, false, [];
    }

    /** One pass of the collection loop of `_get_samples_from_queue`. */
    method CollectSample()
      requires mq.Valid() && mq.queue != []
      modifies `stopped, `queueSamples, mq`queue, mq`totalConsumed, mq`taken
      ensures mq.Valid() && mq.View() == Get(old(mq.View()))
      ensures View() == Collect(old(View()), old(mq.queue)[0])
    {
      var r := mq.GetSample();
      var sample := r.value.0;
      match sample {
        case Stop => stopped := true;
        case Sample(_, _) => queueSamples := queueSamples + [sample];
      }
    }

    method TriggerParameterSyncAfterStep(validate: bool)
      modifies `currentParamVersion, `localTriggerStep, `phase
      ensures View() == TriggerSync(c, old(View()), validate)
    {
      if localTriggerStep < c.triggerSteps && !validate {
        localTriggerStep := localTriggerStep + 1;
        return;
      }
      currentParamVersion := currentParamVersion + 1;
      localTriggerStep := 1;
      phase := WaitLast;
    }

    /** One pass of the step loop of `fit` over a full batch. */
    method FitStep()
      modifies `trained, `queueSamples, `currentParamVersion, `localTriggerStep, `phase
      ensures View() == TrainStep(c, old(View()))
    {
      trained := trained + Uses(queueSamples, currentParamVersion);
      queueSamples := [];
      TriggerParameterSyncAfterStep(false);
    }

    /** The additional synchronization after the last batch. */
    method FinalTrigger()
      modifies `finalDone, `currentParamVersion, `localTriggerStep, `phase
      ensures View() == TriggerSync(c, old(View()), true).(finalDone := true)
    {
      TriggerParameterSyncAfterStep(true);
      finalDone := true;
    }

    // The trainer's calls of the synchronizer, which it waits for.
    method Enter(p: Phase)
      modifies `phase
      ensures phase == p
    {
      phase := p;
    }
  }

  /** `sync_weights` and the two calls it leaves running. */
  class ParameterSynchronizer {
    var currentVersion: nat
    var stage: Sync

    constructor (version: nat)
      ensures currentVersion == version && stage == Quiet
    {
      currentVersion, stage := version, Quiet;
    }

    method SyncWeights(version: nat)
      modifies this
      ensures currentVersion == version && stage == PauseRequested
    {
      currentVersion, stage := version, PauseRequested;
    }

    method Advance(next: Sync)
      modifies `stage
      ensures stage == next
    {
      stage := next;
    }
  }
}
