/** No sample is lost or duplicated, and the queue is first in, first out, over every run. */
module AsyncConservation {
  import opened AsyncModel
  import opened AsyncFrames

  /** How many messages of a sequence carry the sample `id`. */
  function Copies(msgs: seq<Msg>, id: nat): nat {
    if msgs == [] then 0 else
    Copies(msgs[..|msgs| - 1], id) + One(msgs[|msgs| - 1], id)
  }

  function One(m: Msg, id: nat): nat { if m.Sample? && m.id == id then 1 else 0 }

  lemma CopiesAppend(msgs: seq<Msg>, m: Msg, id: nat)
    ensures Copies(msgs + [m], id) == Copies(msgs, id) + One(m, id)
  {
    assert (msgs + [m])[..|msgs|] == msgs;
  }

  lemma {:induction false} CopiesConcat(a: seq<Msg>, b: seq<Msg>, id: nat)
    ensures Copies(a + b, id) == Copies(a, id) + Copies(b, id)
  {
    if b == [] {
      assert a + b == a;
    } else {
      var last := |b| - 1;
      CopiesConcat(a, b[..last], id);
      assert a + b == (a + b[..last]) + [b[last]];
      CopiesAppend(a + b[..last], b[last], id);
    }
  }

  lemma CopiesDropFirst(msgs: seq<Msg>, id: nat)
    requires msgs != []
    ensures Copies(msgs, id) == One(msgs[0], id) + Copies(msgs[1..], id)
  {
    assert msgs == [msgs[0]] + msgs[1..];
    CopiesConcat([msgs[0]], msgs[1..], id);
    CopiesAppend([], msgs[0], id);
  }

  function Tally<T(==)>(s: seq<T>, x: T): nat {
    if s == [] then 0 else Tally(s[..|s| - 1], x) + (if s[|s| - 1] == x then 1 else 0)
  }

  lemma TallyAppend<T>(s: seq<T>, y: T, x: T)
    ensures Tally(s + [y], x) == Tally(s, x) + (if y == x then 1 else 0)
  {
    assert (s + [y])[..|s|] == s;
  }

  lemma {:induction false} TallyDropFirst<T>(s: seq<T>, x: T)
    requires s != []
    ensures Tally(s, x) == (if s[0] == x then 1 else 0) + Tally(s[1..], x)
  {
    var last := |s| - 1;
    if last == 0 {
      assert s[1..] == [] && s[..last] == [];
    } else {
      TallyDropFirst(s[..last], x);
      assert s[..last][1..] == s[1..][..last - 1];
      assert s[1..][last - 1] == s[last];
    }
  }

  /** Occurrences of an id on the rollout side, before the message queue. */
  function Upstream(r: Rollouter, id: nat): nat {
    Tally(r.pending, Item(id)) + (if r.proc == Holding(id) then 1 else 0)
    + (if id in r.running then 1 else 0) + Tally(r.cancelled, id)
  }

  ghost predicate IdInv(s: State, id: nat) {
    Upstream(s.r, id) + Copies(s.q.produced, id) == if id < s.r.fed then 1 else 0
  }

  /** A message put is held, taken or evicted; gets and evictions both remove the oldest one. */
  ghost predicate QueueInv(q: Queue) {
    && |q.produced| == |q.taken| + |q.evicted| + |q.items|
    && q.items == q.produced[|q.taken| + |q.evicted|..]
    && (q.evicted == [] ==> q.produced == q.taken + q.items)
  }

  ghost predicate SplitInv(q: Queue, id: nat) {
    Copies(q.produced, id) == Copies(q.taken, id) + Copies(q.evicted, id) + Copies(q.items, id)
  }

  /** The messages the trainer used, in the order of use. */
  function TrainedMsgs(uses: seq<Use>): seq<Msg> {
    seq(|uses|, i requires 0 <= i < |uses| => uses[i].msg)
  }

  ghost predicate TakenInv(s: State) {
    s.q.taken == TrainedMsgs(s.t.trained) + s.t.batch + (if s.t.stopped then [Stop] else [])
  }

  ghost predicate NewestIsStop(items: seq<Msg>) {
    items != [] && items[|items| - 1] == Stop
  }

  ghost predicate EndInv(s: State) {
    && (s.r.stopSent ==> s.r.proc.Ended?)
    && (s.r.proc.Ended? ==> s.r.running == map[])
    && (s.r.stopSent && !s.t.stopped ==> NewestIsStop(s.q.items))
    && (forall i :: 0 <= i < |s.q.items| && s.q.items[i] == Stop ==> s.r.stopSent && i == |s.q.items| - 1)
    && (s.t.stopped ==> s.r.stopSent && s.q.items == [])
  }

  lemma PutKeepsOrder(q: Queue, capacity: nat, m: Msg)
    requires capacity >= 1 && QueueInv(q)
    ensures QueueInv(Put(q, capacity, m))
  {
    assert q.taken + (q.items + [m]) == q.taken + q.items + [m];
  }

  lemma PutKeepsQueue(q: Queue, capacity: nat, m: Msg, id: nat)
    requires capacity >= 1 && QueueInv(q) && SplitInv(q, id)
    ensures QueueInv(Put(q, capacity, m)) && SplitInv(Put(q, capacity, m), id)
    ensures Copies(Put(q, capacity, m).produced, id) == Copies(q.produced, id) + One(m, id)
  {
    PutKeepsOrder(q, capacity, m);
    hide QueueInv, Copies;
    CopiesAppend(q.produced, m, id);
    if |q.items| >= capacity {
      CopiesDropFirst(q.items, id);
      CopiesAppend(q.items[1..], m, id);
      CopiesAppend(q.evicted, q.items[0], id);
    } else {
      CopiesAppend(q.items, m, id);
    }
  }

  lemma GetKeepsQueue(q: Queue, id: nat)
    requires QueueInv(q) && SplitInv(q, id) && q.items != []
    ensures QueueInv(Get(q)) && SplitInv(Get(q), id)
  {
    CopiesDropFirst(q.items, id);
    CopiesAppend(q.taken, q.items[0], id);
    hide Copies;
    assert q.taken + [q.items[0]] + q.items[1..] == q.taken + q.items;
  }

  // Upstream of the queue an id is moved, never copied; feeding adds the next id.
  lemma UpstreamMoves(c: Limits, s: State, step: Step, id: nat)
    requires c.Valid() && RolloutEnabled(c, s, step) && !step.SPut? && !step.SSendStop? && !step.SStart?
    ensures Upstream(ApplyRollout(c, s, step).r, id) ==
            Upstream(s.r, id) + (if step.SFeed? && s.r.fed == id then 1 else 0)
  {
    if step.SFeed? || step.STakeCancelled? || step.STakePending? || step.SCancel? {
      SampleMoves(c, s, step, id);
    } else if Plain(step) {
      PlainFrame(c, s, step);
      PlainFeedsNothing(c, s, step, id);
    } else {
      assert step.SStamp?;
    }
  }

  lemma PlainFeedsNothing(c: Limits, s: State, step: Step, id: nat)
    requires c.Valid() && RolloutEnabled(c, s, step) && Plain(step)
    ensures Tally(ApplyRollout(c, s, step).r.pending, Item(id)) == Tally(s.r.pending, Item(id))
  {
    if step.SFeedDone? {
      TallyAppend(s.r.pending, DoneMark, Item(id));
    } else {
      assert ApplyRollout(c, s, step).r.pending == s.r.pending;
    }
  }

  lemma SampleMoves(c: Limits, s: State, step: Step, id: nat)
    requires c.Valid() && RolloutEnabled(c, s, step)
    requires step.SFeed? || step.STakeCancelled? || step.STakePending? || step.SCancel?
    ensures Upstream(ApplyRollout(c, s, step).r, id) ==
            Upstream(s.r, id) + (if step.SFeed? && s.r.fed == id then 1 else 0)
  {
    hide Tally;
    if step.SFeed? {
      TallyAppend(s.r.pending, Item(s.r.fed), Item(id));
    } else if step.STakeCancelled? {
      TallyDropFirst(s.r.cancelled, id);
    } else if step.STakePending? {
      TallyDropFirst(s.r.pending, Item(id));
    } else {
      TallyAppend(s.r.cancelled, step.id, id);
    }
  }

  lemma EndTaskReleases(r: Rollouter, k: nat, id: nat)
    requires k in r.running
    ensures Upstream(EndTask(r, k), id) + (if k == id then 1 else 0) == Upstream(r, id)
  {
  }

  lemma PutMovesId(s: State, s': State, capacity: nat, m: Msg, id: nat)
    requires capacity >= 1 && s'.q == Put(s.q, capacity, m)
    requires Upstream(s'.r, id) + One(m, id) == Upstream(s.r, id) && s'.r.fed == s.r.fed
    requires IdInv(s, id) && QueueInv(s.q) && SplitInv(s.q, id)
    ensures IdInv(s', id) && QueueInv(s'.q) && SplitInv(s'.q, id)
  {
    PutKeepsQueue(s.q, capacity, m, id);
  }

  lemma RolloutKeepsId(c: Limits, s: State, step: Step, id: nat)
    requires c.Valid() && RolloutEnabled(c, s, step)
    requires IdInv(s, id) && QueueInv(s.q) && SplitInv(s.q, id)
    ensures var s' := ApplyRollout(c, s, step); IdInv(s', id) && QueueInv(s'.q) && SplitInv(s'.q, id)
  {
    hide QueueInv, SplitInv, Tally, Copies;
    var s' := ApplyRollout(c, s, step);
    if step.SPut? {
      EndTaskReleases(s.r, step.id, id);
      PutMovesId(s, s', c.MaxQueue(), Sample(step.id, s.r.running[step.id].stamp), id);
    } else if step.SSendStop? {
      PutMovesId(s, s', c.MaxQueue(), Stop, id);
    } else if !step.SStart? {
      assert s'.q == s.q;
      UpstreamMoves(c, s, step, id);
      hide Upstream;
    }
  }

  lemma PlainKeepsEnd(c: Limits, s: State, step: Step)
    requires c.Valid() && RolloutEnabled(c, s, step) && Plain(step) && EndInv(s)
    ensures EndInv(ApplyRollout(c, s, step))
  {
    PlainFrame(c, s, step);
    hide ApplyRollout, RolloutEnabled;
  }

  lemma PutKeepsEnd(c: Limits, s: State, step: Step)
    requires c.Valid() && RolloutEnabled(c, s, step) && (step.SPut? || step.SSendStop?) && EndInv(s)
    ensures EndInv(ApplyRollout(c, s, step))
  {
  }

  lemma MoveKeepsEnd(c: Limits, s: State, step: Step)
    requires c.Valid() && RolloutEnabled(c, s, step) && !Plain(step) && !step.SPut? && !step.SSendStop? && EndInv(s)
    ensures EndInv(ApplyRollout(c, s, step))
  {
    hide NewestIsStop;
    assert ApplyRollout(c, s, step).q == s.q;
  }

  lemma RolloutKeepsEnd(c: Limits, s: State, step: Step)
    requires c.Valid() && RolloutEnabled(c, s, step) && TakenInv(s) && EndInv(s)
    ensures var s' := ApplyRollout(c, s, step); TakenInv(s') && EndInv(s')
  {
    RolloutFrame(c, s, step);
    hide ApplyRollout, RolloutEnabled, EndInv, TrainedMsgs;
    if Plain(step) {
      PlainKeepsEnd(c, s, step);
    } else if step.SPut? || step.SSendStop? {
      PutKeepsEnd(c, s, step);
    } else {
      MoveKeepsEnd(c, s, step);
    }
  }

  lemma TrainKeepsQueue(c: Limits, s: State, step: Step, id: nat)
    requires c.Valid() && TrainEnabled(c, s, step) && IdInv(s, id) && QueueInv(s.q) && SplitInv(s.q, id)
    ensures var s' := ApplyTrain(c, s, step); IdInv(s', id) && QueueInv(s'.q) && SplitInv(s'.q, id)
  {
    if step.SGet? { GetKeepsQueue(s.q, id); }
  }

  lemma TrainKeepsEnd(c: Limits, s: State, step: Step)
    requires c.Valid() && TrainEnabled(c, s, step) && TakenInv(s) && EndInv(s)
    ensures var s' := ApplyTrain(c, s, step); TakenInv(s') && EndInv(s')
  {
    if step.STrain? {
      assert TrainedMsgs(s.t.trained + Uses(s.t.batch, s.t.version)) == TrainedMsgs(s.t.trained) + s.t.batch;
    }
  }

  lemma {:induction false} IdsHold(c: Limits, steps: seq<Step>, id: nat)
    requires c.Valid() && After(c, steps).Some?
    ensures var s := After(c, steps).value; IdInv(s, id) && QueueInv(s.q) && SplitInv(s.q, id)
  {
    if steps != [] {
      var last := |steps| - 1;
      IdsHold(c, steps[..last], id);
      var s := After(c, steps[..last]).value;
      if RolloutEnabled(c, s, steps[last]) {
        RolloutKeepsId(c, s, steps[last], id);
      } else {
        TrainKeepsQueue(c, s, steps[last], id);
      }
    }
  }

  lemma {:induction false} EndHolds(c: Limits, steps: seq<Step>)
    requires c.Valid() && After(c, steps).Some?
    ensures TakenInv(After(c, steps).value) && EndInv(After(c, steps).value)
  {
    if steps != [] {
      var last := |steps| - 1;
      EndHolds(c, steps[..last]);
      var s := After(c, steps[..last]).value;
      if RolloutEnabled(c, s, steps[last]) {
        RolloutKeepsEnd(c, s, steps[last]);
      } else {
        TrainKeepsEnd(c, s, steps[last]);
      }
    }
  }

  /** How often an id occurs over all the places a sample can be. */
  function Occurrences(s: State, id: nat): nat {
    Tally(s.r.pending, Item(id))                         // fed, not yet taken
    + (if s.r.proc == Holding(id) then 1 else 0)         // in the processor's hand
    + (if id in s.r.running then 1 else 0)               // being generated or put
    + Tally(s.r.cancelled, id)                           // cancelled, to be taken again
    + Copies(s.q.items, id) + Copies(s.q.evicted, id)      // queued, or dropped from a full queue
    + Copies(s.t.batch, id) + Copies(TrainedMsgs(s.t.trained), id)
  }

  /** Every id fed so far is in exactly one place, and no other id is anywhere. */
  lemma EachSampleInExactlyOnePlace(c: Limits, steps: seq<Step>, id: nat)
    requires c.Valid() && After(c, steps).Some?
    ensures var s := After(c, steps).value;
            Occurrences(s, id) == if id < s.r.fed then 1 else 0
  {
    IdsHold(c, steps, id);
    EndHolds(c, steps);
    var s := After(c, steps).value;
    var uses := TrainedMsgs(s.t.trained);
    CopiesConcat(uses, s.t.batch, id);
    if s.t.stopped {
      CopiesAppend(uses + s.t.batch, Stop, id);
    } else {
      assert uses + s.t.batch + [] == uses + s.t.batch;
    }
  }

  /** The queue is the log of puts without its first consumed + dropped entries, and the trainer
      uses messages in the order it took them. */
  lemma QueueIsSuffixOfLog(c: Limits, steps: seq<Step>)
    requires c.Valid() && After(c, steps).Some?
    ensures var s := After(c, steps).value;
            && |s.q.taken| + |s.q.evicted| <= |s.q.produced|
            && s.q.items == s.q.produced[|s.q.taken| + |s.q.evicted|..]
            && (s.q.evicted == [] ==> s.q.produced == s.q.taken + s.q.items)
            && TrainedMsgs(s.t.trained) + s.t.batch <= s.q.taken
  {
    IdsHold(c, steps, 0);
    EndHolds(c, steps);
  }

  /** The final None is never dropped: until the trainer takes it, it is the newest queue entry,
      and the trainer leaves nothing behind it. */
  lemma StopReachesTrainer(c: Limits, steps: seq<Step>)
    requires c.Valid() && After(c, steps).Some? && After(c, steps).value.r.stopSent
    ensures var s := After(c, steps).value;
            if s.t.stopped then s.q.items == [] else NewestIsStop(s.q.items)
  {
    EndHolds(c, steps);
  }
}
