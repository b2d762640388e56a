/**
 How many samples the rollouter generates between two resets of its count, which the documentation limits to
 `max_required_samples` less the stale samples that the reset counts, and when that limit is kept.
 */
module AsyncLimit {
  import opened Basics
  import opened AsyncModel
  import opened AsyncFrames
  import opened AsyncCapacity
  import opened AsyncConservation
  import opened AsyncStaleness
  import opened AsyncSynchronous
  import opened AsyncRuns
  import opened AsyncExact
  import opened AsyncProgress

  /** Samples handed out for generation so far. */
  function Generated(s: State): int { Started(s) - Hand(s.r) }

  /** At the beginning of a run or right after a reset. */
  ghost predicate AtReset(steps: seq<Step>) { steps == [] || steps[|steps| - 1].SUpdateEnd? }

  ghost predicate NoReset(steps: seq<Step>) { forall i :: 0 <= i < |steps| ==> !steps[i].SUpdateEnd? }

  lemma StartsAreCounted(c: Limits, steps: seq<Step>, step: Step)
    requires c.Valid() && After(c, steps).Some? && Enabled(c, After(c, steps).value, step) && !step.SUpdateEnd?
    ensures var s := After(c, steps).value;
            var s' := Apply(c, s, step);
            Started(s') - Started(s) <= s'.r.staleness - s.r.staleness
  {
    hide ApplyRollout, ApplyTrain, RolloutEnabled, TrainEnabled;
    hide ClockInv, PhaseInv, StampInv, DeadlineInv, EndInv, TakenInv;
    var s := After(c, steps).value;
    EndHolds(c, steps);
    StalenessHolds(c, steps);
    if RolloutEnabled(c, s, step) {
      if step.SStart? { HandIsFree(c, steps, step); }
      StartedMoves(c, s, step);
      RolloutFrame(c, s, step);
      TakeFrame(c, s, step);
    } else {
      TrainFrame(c, s, step);
      SteeredFrame(c, s, step);
    }
  }

  lemma {:induction false} WindowCounts(c: Limits, steps: seq<Step>, more: seq<Step>)
    requires c.Valid() && After(c, steps).Some? && After(c, steps + more).Some? && NoReset(more)
    ensures var s, s' := After(c, steps).value, After(c, steps + more).value;
            Started(s') - Started(s) <= s'.r.staleness - s.r.staleness
  {
    hide ApplyRollout, ApplyTrain, RolloutEnabled, TrainEnabled, Started;
    if more == [] {
      assert steps + more == steps;
    } else {
      var before := steps + more[..|more| - 1];
      assert (steps + more)[..|before|] == before && (steps + more)[|before|] == more[|more| - 1];
      WindowCounts(c, steps, more[..|more| - 1]);
      StartsAreCounted(c, before, more[|more| - 1]);
    }
  }

  // ---------------------------------------------------------------- right after a reset

  /** The count has everything under way but the sample in hand; what is over the limit is in hand. */
  ghost predicate CountedAll(c: Limits, s: State) {
    && Load(s) - Hand(s.r) <= s.r.staleness
    && (s.r.proc.Holding? ==> s.r.handReset)
    && (!s.r.breached ==> s.r.staleness + Hand(s.r) <= c.maxRequired + Slack(s.r))
    && (!s.r.breached && s.r.proc.Checked? ==> s.r.staleness < c.maxRequired + Slack(s.r))
  }

  lemma ResetCounts(c: Limits, s: State)
    requires c.Valid() && TrainEnabled(c, s, SUpdateEnd)
    requires CapacityInv(c, s) && LockInv(s) && PhaseInv(c, s) && EndInv(s) && WaitInv(s)
    ensures CountedAll(c, ApplyTrain(c, s, SUpdateEnd))
  {
    OneStop(s.q.items);
    RealAtMost(s.q.items);
  }

  lemma ResetCountsAll(c: Limits, steps: seq<Step>)
    requires c.Valid() && After(c, steps).Some? && AtReset(steps)
    ensures CountedAll(c, After(c, steps).value)
  {
    if steps != [] {
      var before := steps[..|steps| - 1];
      hide CapacityInv, LockInv, PhaseInv, EndInv, WaitInv, CountedAll, ClockInv, StampInv, DeadlineInv, TakenInv;
      CapacityHolds(c, before);
      StalenessHolds(c, before);
      EndHolds(c, before);
      WaitHolds(c, before);
      ResetCounts(c, After(c, before).value);
    }
  }

  // ---------------------------------------------------------------- the limit

  lemma CheckFrame(c: Limits, s: State, step: Step)
    requires c.Valid() && TrainEnabled(c, s, step)
    ensures ApplyTrain(c, s, step).r.proc == s.r.proc
  {
    hide TrainEnabled, TrainerAfter, SyncAfter;
    assert ApplyTrain(c, s, step).r == Steered(c, s, step);
    hide ApplyTrain;
  }

  /** Between two resets only what was checked before the first one can go beyond the allowance. */
  lemma {:induction false} WindowAllowance(c: Limits, steps: seq<Step>, more: seq<Step>)
    requires c.Valid() && After(c, steps).Some? && After(c, steps + more).Some? && NoReset(more)
    ensures var r, r' := After(c, steps).value.r, After(c, steps + more).value.r;
            && (r'.staleness <= c.maxRequired || r'.staleness <= r.staleness + (if r.proc.Checked? then 1 else 0))
            && (r'.proc.Checked? ==> r'.staleness < c.maxRequired || (r.proc.Checked? && r'.staleness == r.staleness))
  {
    hide ApplyRollout, ApplyTrain, RolloutEnabled, TrainEnabled;
    if more == [] {
      assert steps + more == steps;
    } else {
      var before, step := steps + more[..|more| - 1], more[|more| - 1];
      assert (steps + more)[..|before|] == before && (steps + more)[|before|] == step;
      WindowAllowance(c, steps, more[..|more| - 1]);
      var s := After(c, before).value;
      if RolloutEnabled(c, s, step) {
        TakeFrame(c, s, step);
      } else {
        CheckFrame(c, s, step);
        CountFrame(c, s, step);
      }
    }
  }

  /** The limit of the documentation, with one more sample after a reset that landed on a held one. The
      monitor must have kept out of the pauses up to the reset. */
  lemma GenerationLimit(c: Limits, steps: seq<Step>, more: seq<Step>)
    requires c.Valid() && After(c, steps).Some? && After(c, steps + more).Some? && AtReset(steps) && NoReset(more)
    requires !After(c, steps).value.r.breached
    ensures var s, s' := After(c, steps).value, After(c, steps + more).value;
            Generated(s') - Generated(s) <= c.maxRequired - s.r.staleness + Slack(s.r)
  {
    hide Started, After;
    WindowCounts(c, steps, more);
    WindowAllowance(c, steps, more);
    ResetCountsAll(c, steps);
  }

  // ---------------------------------------------------------------- when it is kept

  lemma RolloutLoads(c: Limits, s: State, step: Step)
    requires c.Valid() && RolloutEnabled(c, s, step) && CapacityInv(c, s)
    ensures Load(ApplyRollout(c, s, step)) <= Load(s) + (if step.STakePending? && s.r.pending[0].Item? then 1 else 0)
  {
    if Plain(step) {
      PlainFrame(c, s, step);
      hide ApplyRollout, RolloutEnabled, CapacityInv;
    } else {
      WorkLoads(c, s, step);
    }
  }

  lemma PutLoads(c: Limits, s: State, step: Step)
    requires c.Valid() && RolloutEnabled(c, s, step) && CapacityInv(c, s) && (step.SPut? || step.SSendStop?)
    ensures Load(ApplyRollout(c, s, step)) <= Load(s)
  {
    if step.SPut? {
      RunningMinus(s.r.running, step.id);
      PutKeepsRoom(c, s.q, Sample(step.id, s.r.running[step.id].stamp));
    } else {
      PutKeepsRoom(c, s.q, Stop);
    }
    hide RolloutEnabled, CapacityInv, Put, Real;
  }

  lemma WorkLoads(c: Limits, s: State, step: Step)
    requires c.Valid() && RolloutEnabled(c, s, step) && CapacityInv(c, s) && !Plain(step)
    ensures Load(ApplyRollout(c, s, step)) <= Load(s) + (if step.STakePending? && s.r.pending[0].Item? then 1 else 0)
  {
    if step.SPut? || step.SSendStop? {
      PutLoads(c, s, step);
      hide RolloutEnabled, ApplyRollout, Load;
    } else {
      assert ApplyRollout(c, s, step).q == s.q;
      if step.SStart? { RunningPut(s.r.running, s.r.proc.id, Generating); }
      if step.SStamp? { RunningPut(s.r.running, step.id, Putting(s.r.version)); }
      if step.SCancel? { RunningMinus(s.r.running, step.id); }
      hide CapacityInv, Real;
    }
  }

  lemma TrainLoads(c: Limits, s: State, step: Step)
    requires c.Valid() && TrainEnabled(c, s, step)
    ensures Load(ApplyTrain(c, s, step)) <= Load(s)
    ensures Started(ApplyTrain(c, s, step)) == Started(s)
  {
    if step.SGet? { RealDropFirst(s.q.items); }
    hide TrainEnabled, TrainerAfter, SyncAfter;
    assert ApplyTrain(c, s, step).r == Steered(c, s, step);
  }

  /** The load grows only by what is taken. */
  lemma {:induction false} WindowLoads(c: Limits, steps: seq<Step>, more: seq<Step>)
    requires c.Valid() && After(c, steps).Some? && After(c, steps + more).Some?
    ensures var s, s' := After(c, steps).value, After(c, steps + more).value;
            Load(s') - Load(s) <= Started(s') - Started(s)
  {
    hide ApplyRollout, ApplyTrain, RolloutEnabled, TrainEnabled, Started, Load, EndInv, TakenInv, CapacityInv, LockInv;
    if more == [] {
      assert steps + more == steps;
    } else {
      var before, step := steps + more[..|more| - 1], more[|more| - 1];
      assert (steps + more)[..|before|] == before && (steps + more)[|before|] == step;
      WindowLoads(c, steps, more[..|more| - 1]);
      var s := After(c, before).value;
      if RolloutEnabled(c, s, step) {
        EndHolds(c, before);
        CapacityHolds(c, before);
        if step.SStart? { HandIsFree(c, before, step); }
        StartedMoves(c, s, step);
        RolloutLoads(c, s, step);
      } else {
        TrainLoads(c, s, step);
      }
    }
  }

  lemma {:induction false} LastReset(c: Limits, steps: seq<Step>) returns (from: seq<Step>, more: seq<Step>)
    requires c.Valid() && After(c, steps).Some?
    ensures steps == from + more && AtReset(from) && NoReset(more) && After(c, from).Some?
  {
    hide Enabled, Apply;
    if AtReset(steps) {
      from, more := steps, [];
    } else {
      var last := |steps| - 1;
      from, more := LastReset(c, steps[..last]);
      more := more + [steps[last]];
    }
  }

  /** More is generated in a window than the documentation says. */
  ghost predicate Exceeds(c: Limits, steps: seq<Step>, more: seq<Step>)
    requires c.Valid()
  {
    && After(c, steps).Some? && After(c, steps + more).Some? && AtReset(steps) && NoReset(more)
    && !After(c, steps).value.r.breached
    && Generated(After(c, steps + more).value) - Generated(After(c, steps).value)
       > c.maxRequired - After(c, steps).value.r.staleness
  }

  // Too much outside the hand was generated since the last reset.
  lemma OverloadExceeds(c: Limits, s: State) returns (steps: seq<Step>, more: seq<Step>)
    requires c.Valid() && Reachable(c, s) && Load(s) - Hand(s.r) > c.maxRequired && !s.r.breached
    ensures Exceeds(c, steps, more)
  {
    var all :| After(c, all) == Some(s);
    steps, more := LastReset(c, all);
    WindowLoads(c, steps, more);
    ResetCountsAll(c, steps);
    NeverUnbreached(c, steps, more);
    hide Started, After;
  }

  lemma {:induction false} NeverUnbreached(c: Limits, steps: seq<Step>, more: seq<Step>)
    requires c.Valid() && After(c, steps).Some? && After(c, steps + more).Some?
    ensures After(c, steps).value.r.breached ==> After(c, steps + more).value.r.breached
  {
    hide ApplyRollout, ApplyTrain, RolloutEnabled, TrainEnabled;
    if more == [] {
      assert steps + more == steps;
    } else {
      var before, step := steps + more[..|more| - 1], more[|more| - 1];
      assert (steps + more)[..|before|] == before && (steps + more)[|before|] == step;
      NeverUnbreached(c, steps, more[..|more| - 1]);
      BreachStays(c, After(c, before).value, step);
    }
  }

  lemma BreachStays(c: Limits, s: State, step: Step)
    requires c.Valid() && Enabled(c, s, step)
    ensures s.r.breached ==> Apply(c, s, step).r.breached
  {
    if RolloutEnabled(c, s, step) {
      RolloutFrame(c, s, step);
    } else if !step.SUpdateEnd? {
      CountFrame(c, s, step);
    }
    hide RolloutEnabled, ApplyRollout, TrainEnabled;
  }

  /** The limit is exceeded in some run exactly when `max_required_samples` is more than the samples of one
      version. */
  lemma LimitCanBeExceeded(c: Limits)
    requires c.Valid()
    ensures (exists steps, more :: Exceeds(c, steps, more)) <==> c.maxRequired > c.Cycle()
  {
    if c.maxRequired > c.Cycle() {
      var s := OverloadStarted(c);
      var steps, more := OverloadExceeds(c, s);
    } else {
      forall steps, more | After(c, steps).Some? && After(c, steps + more).Some? && AtReset(steps) && NoReset(more)
        ensures !Exceeds(c, steps, more)
      {
        if !After(c, steps).value.r.breached {
          GenerationLimit(c, steps, more);
          NoHandReset(c, After(c, steps).value);
        }
      }
    }
  }

  /** The sample that is too many is being generated. */
  lemma OverloadStarted(c: Limits) returns (s: State)
    requires c.Valid() && c.maxRequired > c.Cycle()
    ensures Reachable(c, s) && !s.r.breached && Load(s) - Hand(s.r) > c.maxRequired
  {
    hide Reachable;
    var a, id := Overload(c);
    var b := Finish(c, a, id);
    assert a.r.running - {id} == map[];
    RealAppend(a.q.items, Sample(id, a.r.version));
    s := Submit(c, b);
    RunningPut(b.r.running, a.r.proc.id, Generating);
  }
}
