/** What has become of every sample once the trainer has seen the end of the run. */
module AsyncEnding {
  import opened AsyncModel
  import opened AsyncFrames
  import opened AsyncCapacity
  import opened AsyncConservation

  /** The end mark is the last thing fed, and the processor has passed it or will meet it. */
  ghost predicate DoneInv(r: Rollouter) {
    && (forall i :: 0 <= i < |r.pending| && r.pending[i] == DoneMark ==> r.feedDone && i == |r.pending| - 1)
    && (r.feedDone ==> PastDone(r.proc) || (r.pending != [] && r.pending[|r.pending| - 1] == DoneMark))
    && (PastDone(r.proc) ==> r.feedDone && r.pending == [])
  }

  ghost predicate CancelInv(c: Limits, s: State) {
    && (s.r.cancelling ==> c.partialRollout)
    && (s.r.cancelled != [] ==> c.partialRollout)
    && (s.t.stopped ==> |s.t.batch| < c.requiredSamples)
  }

  lemma FeedKeepsDone(c: Limits, s: State, step: Step)
    requires c.Valid() && RolloutEnabled(c, s, step) && DoneInv(s.r)
    requires step.SFeed? || step.SFeedDone? || step.STakePending?
    ensures DoneInv(ApplyRollout(c, s, step).r)
  {
  }

  lemma OthersKeepDone(c: Limits, s: State, step: Step)
    requires c.Valid() && RolloutEnabled(c, s, step) && DoneInv(s.r)
    requires !step.SFeed? && !step.SFeedDone? && !step.STakePending?
    ensures DoneInv(ApplyRollout(c, s, step).r)
  {
    var r' := ApplyRollout(c, s, step).r;
    assert r'.pending == s.r.pending && r'.feedDone == s.r.feedDone && (PastDone(r'.proc) <==> PastDone(s.r.proc));
    hide ApplyRollout, RolloutEnabled;
  }

  lemma RolloutKeepsDone(c: Limits, s: State, step: Step)
    requires c.Valid() && RolloutEnabled(c, s, step) && DoneInv(s.r) && CancelInv(c, s)
    ensures DoneInv(ApplyRollout(c, s, step).r) && CancelInv(c, ApplyRollout(c, s, step))
  {
    hide DoneInv, ApplyRollout;
    RolloutFrame(c, s, step);
    CancelledFrame(c, s, step);
    if step.SFeed? || step.SFeedDone? || step.STakePending? {
      FeedKeepsDone(c, s, step);
    } else {
      OthersKeepDone(c, s, step);
    }
  }

  lemma CancelledFrame(c: Limits, s: State, step: Step)
    requires c.Valid() && RolloutEnabled(c, s, step)
    ensures ApplyRollout(c, s, step).r.cancelled != [] ==> s.r.cancelled != [] || s.r.cancelling
  {
    if Plain(step) { PlainFrame(c, s, step); }
  }

  lemma TrainKeepsDone(c: Limits, s: State, step: Step)
    requires c.Valid() && TrainEnabled(c, s, step) && DoneInv(s.r) && CancelInv(c, s)
    ensures DoneInv(ApplyTrain(c, s, step).r) && CancelInv(c, ApplyTrain(c, s, step))
  {
    TrainFrame(c, s, step);
    SteeredDone(s.r, ApplyTrain(c, s, step).r);
    hide DoneInv;
  }

  lemma SteeredDone(r: Rollouter, r': Rollouter)
    requires SameSamples(r, r') && DoneInv(r)
    ensures DoneInv(r')
  {
  }

  lemma {:induction false} DoneHolds(c: Limits, steps: seq<Step>)
    requires c.Valid() && After(c, steps).Some?
    ensures DoneInv(After(c, steps).value.r) && CancelInv(c, After(c, steps).value)
  {
    hide ApplyRollout, ApplyTrain, RolloutEnabled, TrainEnabled;
    if steps != [] {
      var last := |steps| - 1;
      DoneHolds(c, steps[..last]);
      var s := After(c, steps[..last]).value;
      if RolloutEnabled(c, s, steps[last]) {
        RolloutKeepsDone(c, s, steps[last]);
      } else {
        TrainKeepsDone(c, s, steps[last]);
      }
    }
  }

  /** When the trainer has taken the final None, each sample ever fed was trained on once, or is one of
      fewer than `required_samples` in an incomplete batch, or was evicted, which needs a reset on a held
      sample, or is stranded in the cancel queue, which needs partial rollout. */
  lemma EndOfRun(c: Limits, steps: seq<Step>, id: nat)
    requires c.Valid() && After(c, steps).Some? && After(c, steps).value.t.stopped
    ensures var s := After(c, steps).value;
            && |s.t.batch| < c.requiredSamples
            && (!c.partialRollout ==> s.r.cancelled == [])
            && (!s.r.handReset ==> s.q.evicted == [])
            && Copies(TrainedMsgs(s.t.trained), id) + Copies(s.q.evicted, id) + Copies(s.t.batch, id)
               + Tally(s.r.cancelled, id) == if id < s.r.fed then 1 else 0
  {
    hide After, CapacityInv, LockInv;
    DoneHolds(c, steps);
    EndHolds(c, steps);
    CapacityHolds(c, steps);
    if !After(c, steps).value.r.handReset { NothingEvicted(c, steps); }
    EachSampleInExactlyOnePlace(c, steps, id);
  }

  lemma StrandedStep(c: Limits, s: State, step: Step)
    requires c.Valid() && Enabled(c, s, step) && PastDone(s.r.proc)
    ensures PastDone(Apply(c, s, step).r.proc)
    ensures s.r.cancelled <= Apply(c, s, step).r.cancelled
  {
    if !RolloutEnabled(c, s, step) { TrainFrame(c, s, step); }
  }

  /** A sample in the cancel queue after the end mark was taken is never taken again. */
  lemma {:induction false} StrandedForever(c: Limits, steps: seq<Step>, more: seq<Step>)
    requires c.Valid() && After(c, steps).Some? && After(c, steps + more).Some?
    requires PastDone(After(c, steps).value.r.proc)
    ensures PastDone(After(c, steps + more).value.r.proc)
    ensures After(c, steps).value.r.cancelled <= After(c, steps + more).value.r.cancelled
  {
    hide ApplyRollout, ApplyTrain, RolloutEnabled, TrainEnabled;
    if more == [] {
      assert steps + more == steps;
    } else {
      var before := steps + more[..|more| - 1];
      assert (steps + more)[..|before|] == before;
      StrandedForever(c, steps, more[..|more| - 1]);
      StrandedStep(c, After(c, before).value, (steps + more)[|before|]);
    }
  }
}
