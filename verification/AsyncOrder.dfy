/** The order in which samples leave the rollouter's two queues: both are first in, first out. */
module AsyncOrder {
  import opened Basics
  import opened AsyncModel
  import opened AsyncFrames

  // ---------------------------------------------------------------- the pending queue

  /** The samples that the processor received from the pending queue in a run, in the order of receipt. */
  ghost function Received(c: Limits, steps: seq<Step>): (ids: seq<nat>)
    requires c.maxRequired >= 1 && After(c, steps).Some?
    ensures |ids| <= |steps|
  {
    if steps == [] then [] else
    var last := |steps| - 1;
    Received(c, steps[..last])
    + (if steps[last].STakePending? then InHand(After(c, steps).value.r.proc) else [])
  }

  function InHand(p: Proc): seq<nat> { if p.Holding? then [p.id] else [] }

  /** The fed samples from number `from` on, and the end mark while it is on its way; never more than 128. */
  ghost predicate Waiting(r: Rollouter, from: nat) {
    && from <= r.fed && |r.pending| <= 128
    && |r.pending| == r.fed - from + (if r.feedDone && !PastDone(r.proc) then 1 else 0)
    && (forall i :: 0 <= i < r.fed - from ==> r.pending[i] == Item(from + i))
    && (r.feedDone && !PastDone(r.proc) ==> r.pending[|r.pending| - 1] == DoneMark)
    && (PastDone(r.proc) ==> r.feedDone)
  }

  lemma WaitingStep(c: Limits, s: State, step: Step, from: nat)
    requires c.maxRequired >= 1 && RolloutEnabled(c, s, step) && Waiting(s.r, from)
    ensures var r' := ApplyRollout(c, s, step).r;
            if step.STakePending? && r'.proc.Holding? then r'.proc.id == from && Waiting(r', from + 1)
            else Waiting(r', from)
  {
    if Plain(step) && !step.SFeedDone? {
      PlainFrame(c, s, step);
      SamePending(c, s, step);
      hide RolloutEnabled, ApplyRollout;
    }
  }

  lemma SamePending(c: Limits, s: State, step: Step)
    requires c.maxRequired >= 1 && RolloutEnabled(c, s, step) && Plain(step) && !step.SFeedDone?
    ensures ApplyRollout(c, s, step).r.pending == s.r.pending && ApplyRollout(c, s, step).r.feedDone == s.r.feedDone
  {
    hide QueueAfter, RolloutEnabled;
    assert ApplyRollout(c, s, step).r == RollouterAfter(c, s, step);
    hide ApplyRollout;
  }

  lemma TrainWaits(c: Limits, s: State, step: Step, from: nat)
    requires TrainEnabled(c, s, step) && Waiting(s.r, from)
    ensures Waiting(ApplyTrain(c, s, step).r, from)
  {
    hide TrainEnabled, TrainerAfter, SyncAfter;
    assert ApplyTrain(c, s, step).r == Steered(c, s, step);
    hide ApplyTrain;
  }

  /** The j-th sample received in any run is the j-th one fed, and the rest waits in the order of feeding. */
  lemma {:induction false} FirstFedFirst(c: Limits, steps: seq<Step>)
    requires c.maxRequired >= 1 && After(c, steps).Some?
    ensures forall j :: 0 <= j < |Received(c, steps)| ==> Received(c, steps)[j] == j
    ensures Waiting(After(c, steps).value.r, |Received(c, steps)|)
  {
    hide RolloutEnabled, TrainEnabled, ApplyRollout, ApplyTrain, Waiting;
    if steps == [] {
      NothingFed(c);
    } else {
      var last := |steps| - 1;
      FirstFedFirst(c, steps[..last]);
      var s := After(c, steps[..last]).value;
      if RolloutEnabled(c, s, steps[last]) {
        WaitingStep(c, s, steps[last], |Received(c, steps[..last])|);
      } else {
        NotRollout(c, s, steps[last]);
        TrainWaits(c, s, steps[last], |Received(c, steps[..last])|);
      }
    }
  }

  lemma NothingFed(c: Limits)
    ensures Waiting(Init(c).r, 0)
  {
  }

  lemma NotRollout(c: Limits, s: State, step: Step)
    requires TrainEnabled(c, s, step)
    ensures !step.STakePending? && !step.STakeCancelled? && !step.SCancel?
  {
  }

  // ---------------------------------------------------------------- the cancel queue

  /** The samples cancelled in a run, in the order of their cancellation. */
  function Cancellations(steps: seq<Step>): seq<nat> {
    if steps == [] then [] else
    var last := |steps| - 1;
    Cancellations(steps[..last]) + (if steps[last].SCancel? then [steps[last].id] else [])
  }

  /** The samples that the processor took back from the cancel queue, in the order of taking. */
  ghost function Retaken(c: Limits, steps: seq<Step>): seq<nat>
    requires c.maxRequired >= 1 && After(c, steps).Some?
  {
    if steps == [] then [] else
    var last := |steps| - 1;
    Retaken(c, steps[..last])
    + (if steps[last].STakeCancelled? then InHand(After(c, steps).value.r.proc) else [])
  }

  lemma CancelQueueMoves(c: Limits, s: State, step: Step)
    requires c.maxRequired >= 1 && RolloutEnabled(c, s, step)
    ensures var r' := ApplyRollout(c, s, step).r;
            if step.SCancel? then r'.cancelled == s.r.cancelled + [step.id]
            else if step.STakeCancelled? then InHand(r'.proc) + r'.cancelled == s.r.cancelled
            else r'.cancelled == s.r.cancelled
  {
    if Plain(step) { PlainFrame(c, s, step); }
  }

  lemma CancelQueueStays(c: Limits, s: State, step: Step)
    requires TrainEnabled(c, s, step)
    ensures ApplyTrain(c, s, step).r.cancelled == s.r.cancelled
  {
    hide TrainEnabled, TrainerAfter, SyncAfter;
    assert ApplyTrain(c, s, step).r == Steered(c, s, step);
    hide ApplyTrain;
  }

  /** What was cancelled is taken back in the order of cancellation, and the rest waits in that order. */
  lemma {:induction false} FirstCancelledFirst(c: Limits, steps: seq<Step>)
    requires c.maxRequired >= 1 && After(c, steps).Some?
    ensures Retaken(c, steps) + After(c, steps).value.r.cancelled == Cancellations(steps)
  {
    hide RolloutEnabled, TrainEnabled, ApplyRollout, ApplyTrain;
    if steps != [] {
      var last := |steps| - 1;
      FirstCancelledFirst(c, steps[..last]);
      var s, s' := After(c, steps[..last]).value, After(c, steps).value;
      if RolloutEnabled(c, s, steps[last]) {
        CancelQueueMoves(c, s, steps[last]);
        var back := Retaken(c, steps[..last]);
        if steps[last].SCancel? { assert back + (s.r.cancelled + [steps[last].id]) == back + s.r.cancelled + [steps[last].id]; }
        if steps[last].STakeCancelled? {
          assert back + (InHand(s'.r.proc) + s'.r.cancelled) == back + InHand(s'.r.proc) + s'.r.cancelled;
        }
      } else {
        NotRollout(c, s, steps[last]);
        CancelQueueStays(c, s, steps[last]);
      }
    }
  }
}
