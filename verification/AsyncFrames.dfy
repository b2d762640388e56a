/** What single steps leave alone, for proofs that need not look at every step. */
module AsyncFrames {
  import opened AsyncModel

  predicate PastDone(p: Proc) { p.Draining? || p.Ended? }

  /** The rollout steps that move no sample. */
  predicate Plain(step: Step) {
    step.SFeedDone? || step.SDecidePause? || step.SSetPaused? || step.SUnpark? || step.SCheck?
    || step.SAwaitTasks? || step.SReap? || step.SDrained?
  }

  lemma PlainFrame(c: Limits, s: State, step: Step)
    requires c.maxRequired >= 1 && RolloutEnabled(c, s, step) && Plain(step)
    ensures var r, r' := s.r, ApplyRollout(c, s, step).r;
            && ApplyRollout(c, s, step) == s.(r := r')
            && r'.fed == r.fed && r'.running == r.running && r'.cancelled == r.cancelled
            && r'.staleness == r.staleness && r'.stopSent == r.stopSent
            && r'.finished <= r.finished && (r.paused ==> r'.paused)
            && (r'.proc.Holding? || r.proc.Holding? ==> r'.proc == r.proc)
            && (r'.proc.Checked? ==> r.proc.Checked? || (r.staleness < c.maxRequired && |s.q.items| < c.maxRequired))
            && (r'.proc.Ended? ==> r.proc.Ended? || r.running == map[]) && (r.proc.Ended? ==> r'.proc.Ended?)
            && (PastDone(r'.proc) <==> PastDone(r.proc))
            && (r'.lock == r.lock || ((r.lock.Free? || r.lock.ByProcessor?) && (r'.lock.Free? || r'.lock.ByProcessor?)))
  {
  }

  // The fields that only the synchronizer and the monitor write.
  ghost predicate SameVersion(r: Rollouter, r': Rollouter) {
    && r'.version == r.version && r'.weights == r.weights
    && r'.monitorTrigger == r.monitorTrigger && r'.monitorArmed == r.monitorArmed
    && r'.cancelling == r.cancelling && r'.handReset == r.handReset && r'.breached == r.breached
  }

  lemma PlainSameVersion(c: Limits, s: State, step: Step)
    requires c.maxRequired >= 1 && RolloutEnabled(c, s, step) && Plain(step)
    ensures SameVersion(s.r, ApplyRollout(c, s, step).r)
  {
  }

  lemma WorkSameVersion(c: Limits, s: State, step: Step)
    requires c.maxRequired >= 1 && RolloutEnabled(c, s, step)
    requires step.SFeed? || step.STakeCancelled? || step.STakePending? || step.SStart?
    ensures SameVersion(s.r, ApplyRollout(c, s, step).r)
    ensures ApplyRollout(c, s, step).r.lock == s.r.lock && ApplyRollout(c, s, step).r.paused == s.r.paused
  {
  }

  lemma TaskSameVersion(c: Limits, s: State, step: Step)
    requires c.maxRequired >= 1 && RolloutEnabled(c, s, step)
    requires step.SSendStop? || step.SStamp? || step.SPut? || step.SCancel?
    ensures SameVersion(s.r, ApplyRollout(c, s, step).r)
    ensures ApplyRollout(c, s, step).r.lock == s.r.lock && ApplyRollout(c, s, step).r.paused == s.r.paused
  {
  }

  /** No step of the rollout side touches the trainer, the synchronizer, versions or the flags of the
      monitor, and only two steps touch the message queue. */
  lemma RolloutFrame(c: Limits, s: State, step: Step)
    requires c.maxRequired >= 1 && RolloutEnabled(c, s, step)
    ensures var s' := ApplyRollout(c, s, step);
            && s'.t == s.t && s'.sync == s.sync && s'.syncVersion == s.syncVersion && SameVersion(s.r, s'.r)
            && (s.r.paused ==> s'.r.paused) && s'.q.taken == s.q.taken
            && (!step.SPut? && !step.SSendStop? ==> s'.q == s.q)
            && (s'.r.lock == s.r.lock || ((s.r.lock.Free? || s.r.lock.ByProcessor?) && (s'.r.lock.Free? || s'.r.lock.ByProcessor?)))
  {
    hide RollouterAfter, SameVersion;
    if Plain(step) {
      PlainSameVersion(c, s, step);
      PlainFrame(c, s, step);
    } else if step.SSendStop? || step.SStamp? || step.SPut? || step.SCancel? {
      TaskSameVersion(c, s, step);
    } else {
      WorkSameVersion(c, s, step);
    }
  }

  /** Where the entries of the task table after a step come from. */
  ghost predicate TaskOrigin(r: Rollouter, step: Step, r': Rollouter) {
    forall id :: id in r'.running ==>
      || (id in r.running && r'.running[id] == r.running[id])
      || (step == SStamp(id) && id in r.running && r'.running[id] == Putting(r.version))
      || (step.SStart? && !r.paused && r.proc == Holding(id) && r'.running[id] == Generating)
  }

  lemma TaskFrame(c: Limits, s: State, step: Step)
    requires c.maxRequired >= 1 && RolloutEnabled(c, s, step)
    ensures TaskOrigin(s.r, step, ApplyRollout(c, s, step).r)
  {
    hide TaskOrigin;
    if Plain(step) { PlainTaskFrame(c, s, step); } else { WorkTaskFrame(c, s, step); }
  }

  lemma PlainTaskFrame(c: Limits, s: State, step: Step)
    requires c.maxRequired >= 1 && RolloutEnabled(c, s, step) && Plain(step)
    ensures TaskOrigin(s.r, step, ApplyRollout(c, s, step).r)
  {
    PlainFrame(c, s, step);
    hide ApplyRollout, RolloutEnabled;
  }

  lemma WorkTaskFrame(c: Limits, s: State, step: Step)
    requires c.maxRequired >= 1 && RolloutEnabled(c, s, step) && !Plain(step)
    ensures TaskOrigin(s.r, step, ApplyRollout(c, s, step).r)
  {
  }

  // The fields that the synchronizer and the monitor leave alone.
  ghost predicate SameSamples(r: Rollouter, r': Rollouter) {
    && r' == r.(finished := r'.finished, staleness := r'.staleness, version := r'.version, weights := r'.weights,
                paused := r'.paused, monitorTrigger := r'.monitorTrigger, monitorArmed := r'.monitorArmed,
                cancelling := r'.cancelling, lock := r'.lock, handReset := r'.handReset, breached := r'.breached)
    && r'.finished <= r.finished
  }

  /** The trainer's side and the synchronizer leave the samples before the queue where they are. */
  lemma TrainFrame(c: Limits, s: State, step: Step)
    requires TrainEnabled(c, s, step)
    ensures SameSamples(s.r, ApplyTrain(c, s, step).r)
    ensures step.SGet? || ApplyTrain(c, s, step).q == s.q
  {
    hide TrainEnabled, TrainerAfter;
  }
}
