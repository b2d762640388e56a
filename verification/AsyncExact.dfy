/**
 When the three things that can go wrong do go wrong: the load exceeds `max_required_samples`, a
 sample is evicted, a sample is stranded. And how old a sample really gets. Each answer is a
 condition on the configuration alone.
 */
module AsyncExact {
  import opened Basics
  import opened AsyncModel
  import opened AsyncFrames
  import opened AsyncCapacity
  import opened AsyncConservation
  import opened AsyncStaleness
  import opened AsyncSynchronous
  import opened AsyncEnding
  import opened AsyncRuns

  // ---------------------------------------------------------------- a sample held over a reset

  /** The trainer has finished its first version while the processor waits on the empty pending queue. */
  lemma FirstVersion(c: Limits) returns (s: State)
    requires c.Valid() && c.maxRequired > c.Cycle()
    ensures Reachable(c, s) && Calm(c, s) && AtSync(c, s) && s.r.proc.Checked?
    ensures s.q.items == [] && s.q.evicted == []
  {
    hide Reachable;
    CyclePositive(c);
    NextCycle(c, c.baseVersion);
    var a := Start(c);
    assert Cycles(c, c.baseVersion) == 0;
    var b := MakeMany(c, a, c.Cycle());
    var d := ConsumeMany(c, b, c.Cycle());
    s := Go(c, d, SCheck);
  }

  /** It takes a sample during the pause and holds it while the version is reset. */
  lemma HeldOverReset(c: Limits) returns (s: State)
    requires c.Valid() && c.maxRequired > c.Cycle()
    ensures Reachable(c, s) && Working(c, s.r) && s.r.proc.Holding? && s.r.running == map[] && s.r.staleness == 0
    ensures s.sync.Quiet? && Ready(c, s.t) && s.t.version == s.r.version && |s.q.taken| == Cycles(c, s.t.version)
    ensures s.q.items == [] && s.q.evicted == []
  {
    hide Reachable;
    var a := FirstVersion(c);
    var b := BeginPause(c, a);
    var d := Broadcast(c, b);
    var e := Go(c, d, SFeed);
    var f := Go(c, e, STakePending);
    s := UpdateAndResume(c, f);
  }

  /** One sample is being generated and the processor may take the next. */
  ghost predicate InFlight(c: Limits, s: State, id: nat) {
    && Working(c, s.r) && s.r.proc.Idle? && s.r.running == map[id := Generating] && id < s.r.fed
    && AllReal(s.q.items) && s.q.evicted == []
  }

  /** It is put while the next one is taken, and that one is started. */
  lemma Shift(c: Limits, s: State, id: nat) returns (s': State)
    requires c.Valid() && Reachable(c, s) && InFlight(c, s, id) && MayTake(c, s)
    ensures Reachable(c, s') && InFlight(c, s', s.r.fed) && s'.r.staleness == s.r.staleness + 1
    ensures |s'.q.items| == |s.q.items| + 1
  {
    hide Reachable;
    var a := Take(c, s);
    var b := Finish(c, a, id);
    assert a.r.running - {id} == map[];
    s' := Submit(c, b);
  }

  lemma {:induction false} ShiftMany(c: Limits, s: State, id: nat, n: nat) returns (s': State, id': nat)
    requires c.Valid() && Reachable(c, s) && InFlight(c, s, id)
    requires s.r.staleness + n <= c.maxRequired && |s.q.items| + n <= c.maxRequired
    ensures Reachable(c, s') && InFlight(c, s', id') && s'.r.staleness == s.r.staleness + n
    ensures |s'.q.items| == |s.q.items| + n
    decreases n
  {
    hide Reachable;
    if n == 0 {
      s', id' := s, id;
    } else {
      var a, k := ShiftMany(c, s, id, n - 1);
      s' := Shift(c, a, k);
      id' := a.r.fed;
    }
  }

  /** The count starts again without the sample held, so one too many is taken. */
  lemma Overload(c: Limits) returns (s: State, id: nat)
    requires c.Valid() && c.maxRequired > c.Cycle()
    ensures Reachable(c, s) && Working(c, s.r) && s.r.proc.Holding? && s.r.running == map[id := Generating]
    ensures id < s.r.proc.id && |s.q.items| == c.maxRequired - 1 && AllReal(s.q.items) && s.q.evicted == []
    ensures Load(s) == c.maxRequired + 1
  {
    hide Reachable;
    var a := HeldOverReset(c);
    HeldIsFed(c, a);
    var b := Submit(c, a);
    var d, k := ShiftMany(c, b, a.r.proc.id, c.maxRequired - 1);
    s := Take(c, d);
    id := k;
    Known(c, s);
    assert s.r.running.Keys == {id};
  }

  lemma HeldIsFed(c: Limits, s: State)
    requires c.Valid() && Reachable(c, s) && s.r.proc.Holding?
    ensures s.r.proc.id < s.r.fed
  {
    var steps :| After(c, steps) == Some(s);
    IdsHold(c, steps, s.r.proc.id);
  }

  /** Two more puts then find the queue full. */
  lemma Evict(c: Limits) returns (s: State)
    requires c.Valid() && c.maxRequired > c.Cycle()
    ensures Reachable(c, s) && s.q.evicted != [] && s.q.evicted[0].Sample?
  {
    hide Reachable;
    var a, id := Overload(c);
    var b := Finish(c, a, id);
    assert a.r.running - {id} == map[];
    var d := Submit(c, b);
    s := Finish(c, d, a.r.proc.id);
  }

  /** The load exceeds `max_required_samples` in some run exactly when that is more than the samples of
      one version. */
  lemma LoadCanExceed(c: Limits)
    requires c.Valid()
    ensures (exists s :: Reachable(c, s) && Load(s) > c.maxRequired) <==> c.maxRequired > c.Cycle()
  {
    if c.maxRequired > c.Cycle() {
      var s, _ := Overload(c);
    } else {
      forall s | Reachable(c, s) ensures Load(s) <= c.maxRequired {
        NoHandReset(c, s);
      }
    }
  }

  lemma NoHandReset(c: Limits, s: State)
    requires c.Valid() && c.maxRequired <= c.Cycle() && Reachable(c, s)
    ensures !s.r.handReset && Load(s) <= c.maxRequired && s.q.evicted == []
    ensures !s.r.breached ==> s.r.cancelled == []
  {
    var steps :| After(c, steps) == Some(s);
    SynchronyHolds(c, steps);
    CapacityHolds(c, steps);
  }

  /** A sample is evicted in some run exactly under the same condition. */
  lemma SampleCanBeEvicted(c: Limits)
    requires c.Valid()
    ensures (exists s, i :: Reachable(c, s) && 0 <= i < |s.q.evicted| && s.q.evicted[i].Sample?)
            <==> c.maxRequired > c.Cycle()
  {
    if c.maxRequired > c.Cycle() {
      var s := Evict(c);
      assert s.q.evicted[0].Sample?;
    } else {
      forall s | Reachable(c, s) ensures s.q.evicted == [] {
        NoHandReset(c, s);
      }
    }
  }

  // ---------------------------------------------------------------- a sample stranded

  /** The sample held and one version's worth less one more fill the next version, with room to spare. */
  lemma SecondVersion(c: Limits) returns (s: State)
    requires c.Valid() && c.maxRequired > c.Cycle()
    ensures Reachable(c, s) && Calm(c, s) && AtSync(c, s) && s.r.proc.Idle? && s.q.items == []
    ensures s.r.staleness < c.Cycle()
  {
    hide Reachable;
    CyclePositive(c);
    hide Cycles, Limits.Cycle, AtSync;
    var a := HeldOverReset(c);
    NextCycle(c, a.t.version);
    var b := PutHeld(c, a);
    var d := MakeMany(c, b, c.Cycle() - 1);
    s := ConsumeMany(c, d, c.Cycle());
    assert AtSync(c, s) by { assert Placed(c, s.t, |s.q.taken|, a.t.version); }
  }

  lemma PutHeld(c: Limits, s: State) returns (s': State)
    requires c.Valid() && Reachable(c, s) && Working(c, s.r) && s.r.proc.Holding? && s.r.running == map[]
    requires s.sync.Quiet? && Ready(c, s.t) && s.q.items == []
    ensures Reachable(c, s') && Calm(c, s') && s'.r.proc.Idle? && |s'.q.items| == 1 && s'.q.taken == s.q.taken
    ensures s'.t == s.t && s'.r.version == s.r.version && s'.r.staleness == s.r.staleness
  {
    hide Reachable;
    var a := Submit(c, s);
    s' := Finish(c, a, s.r.proc.id);
    assert a.r.running - {s.r.proc.id} == map[];
  }

  /** So a task can be running, and the processor past its check, when the next pause begins. */
  lemma SpareTask(c: Limits) returns (s: State, id: nat)
    requires c.Valid() && c.maxRequired > c.Cycle()
    ensures Reachable(c, s) && Working(c, s.r) && AtSync(c, s) && s.r.proc.Checked? && s.r.running == map[id := Generating]
    ensures s.q.items == []
  {
    hide Reachable, Cycles, Limits.Cycle;
    var a := SecondVersion(c);
    id := a.r.fed;
    var b := Take(c, a);
    var d := Submit(c, b);
    s := Go(c, d, SCheck);
  }

  /** The end mark is taken during the pause, before the task is cancelled. */
  lemma CancelledAtEnd(c: Limits) returns (s: State)
    requires c.Valid() && c.maxRequired > c.Cycle() && c.partialRollout
    ensures Reachable(c, s) && s.r.proc.Draining? && s.r.cancelled != [] && s.r.running == map[] && s.r.finished == 0
    ensures s.r.feedDone && !s.r.stopSent && !s.r.breached && s.q.items == [] && Ready(c, s.t)
  {
    hide Reachable;
    var a, id := SpareTask(c);
    var b := BeginPause(c, a);
    var d := Go(c, b, SFeedDone);
    var e := Go(c, d, STakePending);
    var f := Go(c, e, SCancel(id));
    assert e.r.running - {id} == map[];
    s := Broadcast(c, f);
  }

  lemma Strand(c: Limits) returns (s: State)
    requires c.Valid() && c.maxRequired > c.Cycle() && c.partialRollout
    ensures Reachable(c, s) && s.t.stopped && s.r.cancelled != [] && !s.r.breached
  {
    hide Reachable;
    var a := CancelledAtEnd(c);
    var b := Go(c, a, SDrained);
    var d := Go(c, b, SSendStop);
    s := GoTrain(c, d, SGet);
  }

  /** A run whose monitor never unpauses between pause and resume can end with a sample stranded exactly
      under partial rollout with more than one version's worth of samples. */
  lemma SampleCanBeStranded(c: Limits)
    requires c.Valid()
    ensures (exists s :: Reachable(c, s) && !s.r.breached && s.t.stopped && s.r.cancelled != [])
            <==> c.partialRollout && c.maxRequired > c.Cycle()
  {
    if c.partialRollout && c.maxRequired > c.Cycle() {
      var s := Strand(c);
    } else {
      forall s | Reachable(c, s) && !s.r.breached ensures s.r.cancelled == [] {
        if c.maxRequired <= c.Cycle() { NoHandReset(c, s); } else { NoneCancelled(c, s); }
      }
    }
  }

  lemma NoneCancelled(c: Limits, s: State)
    requires c.Valid() && !c.partialRollout && Reachable(c, s)
    ensures s.r.cancelled == []
  {
    var steps :| After(c, steps) == Some(s);
    DoneHolds(c, steps);
  }

  // ---------------------------------------------------------------- the exact age

  /** How far the trainer is from the end of the rollouter's version. */
  function Gap(c: Limits, s: State): int { Cycles(c, s.r.version + 1) - |s.q.taken| }

  /** Just after a reset, with nothing irregular so far. */
  ghost predicate Fresh0(c: Limits, s: State) {
    && Calm(c, s) && s.r.proc.Idle? && !s.r.handReset && s.q.evicted == []
    && s.r.staleness == |s.q.items| < c.maxRequired
    && Placed(c, s.t, |s.q.taken|, s.r.version) && 0 <= Gap(c, s) <= c.Cycle()
  }

  lemma FillUp(c: Limits, s: State) returns (s': State)
    requires c.Valid() && Reachable(c, s) && Calm(c, s) && s.r.proc.Idle? && s.r.staleness == |s.q.items| <= c.maxRequired
    ensures Reachable(c, s') && Calm(c, s') && s'.r.proc.Idle? && |s'.q.items| == c.maxRequired
    ensures s' == s.(r := s.r.(fed := s'.r.fed, staleness := s'.r.staleness, finished := s'.r.finished), q := s'.q)
    ensures |s.q.items| < c.maxRequired ==> s'.q.produced != [] && EndsWithVersion(s'.q.produced, s.r.version)
    ensures s'.q.taken == s.q.taken && s'.q.evicted == s.q.evicted && s.q.produced <= s'.q.produced
  {
    hide Reachable;
    s' := MakeMany(c, s, c.maxRequired - |s.q.items|);
  }

  ghost predicate EndsWithVersion(log: seq<Msg>, version: nat) {
    log != [] && log[|log| - 1].Sample? && log[|log| - 1].stamp == version
  }

  /** The rollouter fills the queue and the trainer finishes its version. */
  lemma FillAndFinish(c: Limits, s: State) returns (s': State)
    requires c.Valid() && c.maxRequired > c.Cycle() && Reachable(c, s) && Fresh0(c, s)
    ensures Reachable(c, s') && Calm(c, s') && AtSync(c, s') && s'.r.proc.Idle? && !s'.r.handReset && s'.q.evicted == []
    ensures s'.r.version == s.r.version && |s'.q.items| == c.maxRequired - Gap(c, s)
    ensures |s'.q.taken| == |s.q.taken| + Gap(c, s) && EndsWithVersion(s'.q.produced, s.r.version)
  {
    hide Reachable, Cycles, Limits.Cycle, EndsWithVersion;
    var a := FillUp(c, s);
    s' := a;
    if Gap(c, s) > 0 { s' := ConsumeMany(c, a, Gap(c, s)); }
  }

  /** Version after version the trainer takes what it can before the reset, and the gap closes. */
  lemma {:induction false} Race(c: Limits, n: nat) returns (s: State)
    requires c.Valid() && c.maxRequired > c.Cycle()
    ensures Reachable(c, s) && Fresh0(c, s)
    ensures n >= c.Cycle() ==> Gap(c, s) == 0
    ensures n < c.Cycle() ==> Gap(c, s) <= c.Cycle() - n
    decreases n
  {
    hide Reachable;
    CyclePositive(c);
    if n == 0 {
      s := Start(c);
      NextCycle(c, c.baseVersion);
      assert Cycles(c, c.baseVersion) == 0;
    } else {
      var a := Race(c, n - 1);
      var b := FillAndFinish(c, a);
      NextCycle(c, b.t.version);
      s := NextVersion(c, b, Min(c.Cycle(), |b.q.items|));
    }
  }

  /** The run goes on until the trainer has used more than i messages. */
  lemma {:induction false} RunOn(c: Limits, s: State, i: nat) returns (s': State)
    requires c.Valid() && c.maxRequired > c.Cycle() && Reachable(c, s) && Calm(c, s) && AtSync(c, s)
    requires s.r.proc.Idle? && !s.r.handReset && s.q.evicted == []
    ensures Reachable(c, s') && Calm(c, s') && AtSync(c, s') && !s'.r.handReset && s'.q.evicted == []
    ensures s.q.produced <= s'.q.produced && |s'.q.taken| > i
    decreases i - |s.q.taken|
  {
    hide Reachable;
    if |s.q.taken| > i {
      s' := s;
    } else {
      CyclePositive(c);
      NextCycle(c, s.t.version);
      hide Cycles, Limits.Cycle;
      var a := NextVersion(c, s, 0);
      QueueFits(c, a);
      var b := FillUp(c, a);
      var d := ConsumeMany(c, b, c.Cycle());
      s' := RunOn(c, d, i);
    }
  }

  lemma QueueFits(c: Limits, s: State)
    requires c.Valid() && Reachable(c, s)
    ensures |s.q.items| <= c.maxRequired
  {
    hide Reachable;
    Known(c, s);
  }

  lemma AgeOf(c: Limits, stamp: int, version: int)
    requires c.Valid() && InVersion(c, Cycles(c, stamp + 1) + c.maxRequired - 1, version)
    ensures c.Cycle() >= 1 && version - stamp == CeilDiv(c.MaxQueue(), c.Cycle())
  {
    CyclePositive(c);
    var k, d := c.Cycle(), version - stamp - 1;
    assert d * k == Cycles(c, version) - Cycles(c, stamp + 1);
    var r := c.maxRequired - 1 - d * k;
    assert 0 <= r < k;
    if d < 0 { Scale(d + 1, 0, k); }
    assert c.maxRequired + k - 1 == k * (d + 1) + r;
    DivSmallRemainder(k, d + 1, r);
  }

  /** Message i of a run that took it: used at the version whose cycle holds i. */
  lemma UseOf(c: Limits, s: State, i: nat) returns (u: Use)
    requires c.Valid() && Reachable(c, s) && AtSync(c, s) && s.q.evicted == [] && i < |s.q.taken|
    ensures i < |s.q.produced| && u in s.t.trained && u.msg == s.q.produced[i] && InVersion(c, i, u.version)
  {
    hide Reachable;
    Known(c, s);
    u := s.t.trained[i];
    assert TrainedMsgs(s.t.trained)[i] == u.msg && TrainedMsgs(s.t.trained) + [] + [] == TrainedMsgs(s.t.trained);
  }

  /** When the queue is filled just as the trainer is through with the version, the last sample put is
      the oldest there can be when its turn comes. */
  lemma OldUse(c: Limits) returns (s: State, u: Use)
    requires c.Valid() && c.maxRequired > c.Cycle()
    ensures Reachable(c, s) && !s.r.breached && !s.r.handReset && u in s.t.trained && u.msg.Sample?
    ensures c.Cycle() >= 1 && u.version == u.msg.stamp + CeilDiv(c.MaxQueue(), c.Cycle())
  {
    hide Reachable, Cycles, Limits.Cycle, CeilDiv, InVersion;
    CyclePositive(c);
    var a := Race(c, c.Cycle());
    var b := FillAndFinish(c, a);
    LogIsQueue(c, b);
    var i := |b.q.produced| - 1;
    s := RunOn(c, b, i);
    u := UseOf(c, s, i);
    AgeOf(c, a.r.version, u.version);
  }

  lemma LogIsQueue(c: Limits, s: State)
    requires c.Valid() && Reachable(c, s) && s.q.evicted == []
    ensures |s.q.produced| == |s.q.taken| + |s.q.items|
  {
    hide Reachable;
    Known(c, s);
  }

  /** The age bound of `SamplesAreFresh` is reached in a run without an early unpause exactly when there is
      more than one version's worth of samples; otherwise every use is of age 0. */
  lemma AgeBoundIsReached(c: Limits)
    requires c.Valid()
    ensures c.Cycle() >= 1
    ensures (exists s, u :: Reachable(c, s) && !s.r.breached && u in s.t.trained && u.msg.Sample?
                            && u.version - u.msg.stamp == CeilDiv(c.MaxQueue(), c.Cycle()))
            <==> c.maxRequired > c.Cycle()
  {
    CyclePositive(c);
    if c.maxRequired > c.Cycle() {
      var s, u := OldUse(c);
    } else {
      forall s, u | Reachable(c, s) && u in s.t.trained ensures u.msg.Sample? && u.version == u.msg.stamp {
        NoStaleUse(c, s, u);
      }
    }
  }

  lemma NoStaleUse(c: Limits, s: State, u: Use)
    requires c.Valid() && c.maxRequired <= c.Cycle() && Reachable(c, s) && u in s.t.trained
    ensures u.msg.Sample? && u.version == u.msg.stamp
  {
    var steps :| After(c, steps) == Some(s);
    ThresholdZeroIsSynchronous(c, steps, u);
  }
}
