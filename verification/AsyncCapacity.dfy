/** How many samples can be on the rollout side at once, over every run. */
module AsyncCapacity {
  import opened AsyncModel
  import opened AsyncFrames

  function Real(items: seq<Msg>): nat {
    if items == [] then 0 else Real(items[..|items| - 1]) + (if items[|items| - 1].Sample? then 1 else 0)
  }

  lemma RealAppend(items: seq<Msg>, m: Msg)
    ensures Real(items + [m]) == Real(items) + (if m.Sample? then 1 else 0)
  {
    assert (items + [m])[..|items|] == items;
  }

  lemma {:induction false} RealDropFirst(items: seq<Msg>)
    requires items != []
    ensures Real(items) == Real(items[1..]) + (if items[0].Sample? then 1 else 0)
    ensures Real(items) <= |items|
  {
    var last := |items| - 1;
    if last == 0 {
      assert items[1..] == [] && items[..last] == [];
    } else {
      RealDropFirst(items[..last]);
      assert items[..last][1..] == items[1..][..last - 1];
      assert items[1..][last - 1] == items[last];
    }
  }

  lemma RealAtMost(items: seq<Msg>)
    ensures Real(items) <= |items|
  {
    if items != [] { RealDropFirst(items); }
  }

  function Hand(r: Rollouter): nat { if r.proc.Holding? then 1 else 0 }

  /** Samples in hand, unfinished, cancelled or queued. */
  function Load(s: State): nat {
    Hand(s.r) + |s.r.running| + |s.r.cancelled| + Real(s.q.items)
  }

  function Slack(r: Rollouter): nat { if r.handReset then 1 else 0 }

  ghost predicate CapacityInv(c: Limits, s: State) {
    && Load(s) <= s.r.staleness + Slack(s.r)
    && Load(s) <= c.maxRequired + Slack(s.r)
    && (s.r.proc.Checked? || PastDone(s.r.proc) ==> Load(s) < c.maxRequired + Slack(s.r))
    && s.r.ActiveTasks() <= c.maxConcurrent
    && |s.q.items| <= c.MaxQueue()
    && (!s.r.handReset ==> s.q.evicted == [])
  }

  ghost predicate LockInv(s: State) {
    && (s.r.lock.ByUpdate? ==> |s.r.running| + |s.r.cancelled| <= s.r.lock.counted)
    && (s.r.lock.ByUpdate? <==> s.sync.Updating?)
    && (s.r.lock.ByPause? <==> s.sync.Pausing?)
    && (s.r.stopSent ==> s.r.proc.Ended?)
    && (s.r.proc.Ended? ==> s.r.running == map[])
    && (!s.r.stopSent ==> Real(s.q.items) == |s.q.items|)
  }

  lemma PutKeepsRoom(c: Limits, q: Queue, m: Msg)
    requires c.Valid() && |q.items| <= c.MaxQueue()
    ensures |Put(q, c.MaxQueue(), m).items| <= c.MaxQueue()
    ensures Real(Put(q, c.MaxQueue(), m).items) <= Real(q.items) + (if m.Sample? then 1 else 0)
    ensures m.Sample? && Real(q.items) == |q.items| ==>
              Real(Put(q, c.MaxQueue(), m).items) == |Put(q, c.MaxQueue(), m).items|
    ensures |q.items| < c.MaxQueue() ==> Put(q, c.MaxQueue(), m).evicted == q.evicted
  {
    RealAppend(q.items, m);
    if q.items != [] {
      RealDropFirst(q.items);
      RealAppend(q.items[1..], m);
      RealAtMost(q.items[1..]);
    }
  }

  lemma RunningMinus(running: map<nat, Task>, id: nat)
    requires id in running
    ensures |running - {id}| == |running| - 1
  {
    assert (running - {id}).Keys == running.Keys - {id};
  }

  lemma RunningPut(running: map<nat, Task>, id: nat, t: Task)
    ensures |running[id := t]| == |running| + (if id in running then 0 else 1)
  {
    assert running[id := t].Keys == running.Keys + {id};
  }

  // ---------------------------------------------------------------- one step

  lemma PlainKeepsCapacity(c: Limits, s: State, step: Step)
    requires c.Valid() && CapacityInv(c, s) && LockInv(s) && RolloutEnabled(c, s, step) && Plain(step)
    ensures var s' := ApplyRollout(c, s, step); CapacityInv(c, s') && LockInv(s')
  {
    PlainFrame(c, s, step);
    hide ApplyRollout, RolloutEnabled;
  }

  lemma TakeKeepsCapacity(c: Limits, s: State, step: Step)
    requires c.Valid() && CapacityInv(c, s) && LockInv(s) && RolloutEnabled(c, s, step)
    requires step.SFeed? || step.STakeCancelled? || step.STakePending? || step.SStart?
    ensures var s' := ApplyRollout(c, s, step); CapacityInv(c, s') && LockInv(s')
  {
    if step.SStart? { RunningPut(s.r.running, s.r.proc.id, Generating); }
  }

  lemma TaskKeepsCapacity(c: Limits, s: State, step: Step)
    requires c.Valid() && CapacityInv(c, s) && LockInv(s) && RolloutEnabled(c, s, step)
    requires step.SStamp? || step.SCancel?
    ensures var s' := ApplyRollout(c, s, step); CapacityInv(c, s') && LockInv(s')
  {
    RunningMinus(s.r.running, step.id);
    RunningPut(s.r.running, step.id, Putting(s.r.version));
  }

  lemma PutKeepsCapacity(c: Limits, s: State, step: Step)
    requires c.Valid() && CapacityInv(c, s) && LockInv(s) && RolloutEnabled(c, s, step)
    requires step.SPut? || step.SSendStop?
    ensures var s' := ApplyRollout(c, s, step); CapacityInv(c, s') && LockInv(s')
    ensures !s.r.handReset ==> |s.q.items| < c.MaxQueue()
  {
    if step.SPut? {
      RunningMinus(s.r.running, step.id);
      PutKeepsRoom(c, s.q, Sample(step.id, s.r.running[step.id].stamp));
    } else {
      PutKeepsRoom(c, s.q, Stop);
    }
  }

  lemma RolloutKeepsCapacity(c: Limits, s: State, step: Step)
    requires c.Valid() && CapacityInv(c, s) && LockInv(s) && RolloutEnabled(c, s, step)
    ensures var s' := ApplyRollout(c, s, step); CapacityInv(c, s') && LockInv(s')
  {
    hide ApplyRollout, CapacityInv, LockInv;
    if Plain(step) {
      PlainKeepsCapacity(c, s, step);
    } else if step.SStamp? || step.SCancel? {
      TaskKeepsCapacity(c, s, step);
    } else if step.SPut? || step.SSendStop? {
      PutKeepsCapacity(c, s, step);
    } else {
      TakeKeepsCapacity(c, s, step);
    }
  }

  lemma TrainKeepsCapacity(c: Limits, s: State, step: Step)
    requires c.Valid() && CapacityInv(c, s) && LockInv(s) && TrainEnabled(c, s, step)
    ensures var s' := ApplyTrain(c, s, step); CapacityInv(c, s') && LockInv(s')
  {
    TrainFrame(c, s, step);
    RealAtMost(s.q.items);
    if step.SGet? {
      RealDropFirst(s.q.items);
      RealAtMost(s.q.items[1..]);
    }
  }

  // ---------------------------------------------------------------- every run

  lemma {:induction false} CapacityHolds(c: Limits, steps: seq<Step>)
    requires c.Valid() && After(c, steps).Some?
    ensures CapacityInv(c, After(c, steps).value) && LockInv(After(c, steps).value)
  {
    hide ApplyRollout, ApplyTrain, RolloutEnabled, TrainEnabled;
    if steps != [] {
      var last := |steps| - 1;
      CapacityHolds(c, steps[..last]);
      var s := After(c, steps[..last]).value;
      if RolloutEnabled(c, s, steps[last]) {
        RolloutKeepsCapacity(c, s, steps[last]);
      } else {
        TrainKeepsCapacity(c, s, steps[last]);
      }
    }
  }

  /** The bound of the rollout side: one above `max_required_samples` at most, and only
      after some version reset landed while the processor held a sample. */
  lemma LoadIsBounded(c: Limits, steps: seq<Step>)
    requires c.Valid() && After(c, steps).Some?
    ensures var s := After(c, steps).value;
            && Load(s) <= c.maxRequired + 1
            && (!s.r.handReset ==> Load(s) <= c.maxRequired)
            && s.r.ActiveTasks() <= c.maxConcurrent
            && |s.q.items| <= c.maxRequired
  {
    CapacityHolds(c, steps);
  }

  /** In a run without such a reset nothing is ever evicted, by the final None neither. */
  lemma NothingEvicted(c: Limits, steps: seq<Step>)
    requires c.Valid() && After(c, steps).Some? && !After(c, steps).value.r.handReset
    ensures After(c, steps).value.q.evicted == []
  {
    CapacityHolds(c, steps);
  }
}
