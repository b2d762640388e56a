/**
 The pipelined schedulers: generators that overlap weight sync, generation, teacher requests and
 training. Each is run together with the loop of `fit` that consumes it; a yield is a call of
 `Train`, and a consumer that stops leaves the generator suspended there.
 */
module Schedulers {
  import opened Basics

  /** What the teacher part of a finished future holds. `copies` counts how often the answer's rows
      were appended to its result lists: every `get` appends them once more. */
  datatype Answer = NoTeacher | Failed | Rows(copies: nat)

  /** One iteration of the training loop: the batch, the actor updates that its generating weights
      had, the updates done when it is trained on, and its teacher answer. `held` says whether the
      shared teacher buffers hold that answer at that time. */
  datatype Step = Step(batch: nat, version: nat, updates: nat, answer: Answer, held: bool)

  /** How a run ends: the step limit, the generator running dry under `next`, a local variable
      that was never assigned, or (one_step_off_policy) the data iterator. */
  datatype Outcome = Finished | StopIteration | UnboundLocalError | IteratorEnded

  class GenerationBatchFuture {
    const batch: nat
    const version: nat
    var running: bool
    var request: Option<nat>
    var gets: nat

    constructor (batch: nat, version: nat)
      ensures this.batch == batch && this.version == version && running && request == None && gets == 0
    {
      this.batch, this.version := batch, version;
      running, request, gets := true, None, 0;
    }
  }

  /** The workers and the trainer's own counters. */
  class Cluster {
    const answers: nat -> bool   // which teacher requests succeed, by number
    const spoils: nat -> bool    // which of the others fail after the shared buffers were reset
    const totalSteps: nat
    var globalSteps: nat
    var updates: nat             // actor updates so far
    var loaded: nat              // the updates that the rollout workers' weights had when last synced
    var running: nat             // generations running
    var open: nat                // teacher requests without an answer read
    var requests: nat
    var holder: Option<nat>      // the request whose answer fills the shared buffers
    var overlapped: bool         // a sync or a generation was ever started while one was running
    var crowded: bool            // a teacher request was ever made while one was open
    var log: seq<Step>

    ghost predicate Idle()
      reads this
    {
      && updates == 0 && running == 0 && open == 0 && requests == 0 && holder == None
      && !overlapped && !crowded && log == []
    }

    /** `_async_gen_next_batch`. */
    method AsyncGenNextBatch(batch: nat, sync: bool) returns (f: GenerationBatchFuture)
      modifies `loaded, `running, `overlapped
      ensures fresh(f) && f.batch == batch && f.version == loaded
      ensures f.running && f.request == None && f.gets == 0
      ensures loaded == if sync then updates else old(loaded)
      ensures running == old(running) + 1
      ensures overlapped == (old(overlapped) || old(running) > 0)
    {
      overlapped := overlapped || running > 0;
      if sync { loaded := updates; }
      f := new GenerationBatchFuture(batch, loaded);
      running := running + 1;
    }

    /** `GenerationBatchFuture.get`. */
    method Get(f: GenerationBatchFuture) returns (a: Answer)
      requires f.running ==> running > 0
      requires f.request.Some? && f.gets == 0 ==> open > 0
      modifies `running, `open, `holder, f
      ensures !f.running && running == old(running) - (if old(f.running) then 1 else 0)
      ensures f.request == old(f.request)
      ensures f.request.None? ==> a == NoTeacher && f.gets == old(f.gets) && open == old(open)
      ensures f.request.Some? ==> f.gets == old(f.gets) + 1
      ensures f.request.Some? ==> open == old(open) - (if old(f.gets) == 0 then 1 else 0)
      ensures f.request.Some? ==> a == if answers(f.request.value) then Rows(f.gets) else Failed
      ensures holder == if a.Rows? then f.request
                        else if a.Failed? && spoils(f.request.value) then None else old(holder)
    {
      if f.running {
        f.running := false;
        running := running - 1;
      }
      match f.request
      case None => a := NoTeacher;
      case Some(k) =>
        if f.gets == 0 { open := open - 1; }
        f.gets := f.gets + 1;
        if answers(k) {
          holder := f.request;
          a := Rows(f.gets);
        } else {
          if spoils(k) { holder := None; }
          a := Failed;
        }
    }

    /** `_async_get_teacher_knowledge`: waits for the generation, then asks the teacher. */
    method AsyncGetTeacherKnowledge(f: GenerationBatchFuture)
      requires f.running ==> running > 0
      requires f.request == None
      modifies `running, `open, `holder, `requests, `crowded, f
      ensures !f.running && running == old(running) - (if old(f.running) then 1 else 0)
      ensures f.request == Some(old(requests)) && f.gets == old(f.gets)
      ensures requests == old(requests) + 1 && open == old(open) + 1 && holder == old(holder)
      ensures crowded == (old(crowded) || old(open) > 0)
    {
      var _ := Get(f);
      crowded := crowded || open > 0;
      f.request := Some(requests);
      requests := requests + 1;
      open := open + 1;
    }

    /** One pass of the training loop; `actor` says whether the actor is updated in it. */
    method Train(f: GenerationBatchFuture, a: Answer, actor: bool) returns (more: bool)
      modifies `log, `updates, `globalSteps
      ensures log == old(log) + [Step(f.batch, f.version, old(updates), a, f.request.Some? && holder == f.request)]
      ensures updates == old(updates) + (if actor then 1 else 0)
      ensures globalSteps == old(globalSteps) + 1
      ensures more == (old(globalSteps) < totalSteps)
    {
      more := globalSteps < totalSteps;
      log := log + [Step(f.batch, f.version, updates, a, f.request.Some? && holder == f.request)];
      if actor { updates := updates + 1; }
      globalSteps := globalSteps + 1;
    }
  }

  // ---------------------------------------------------------------- what the runs are

  /** `AsWritten`: GKD one-step-off, whose second branch is `if i == 1 … else`, so the first batch
      also runs the `else` block. `Elif`: the same with `elif`. */
  datatype Kind = AsWritten | Elif | TwoStep

  /** The batch of the j-th result. */
  function BatchOf(kind: Kind, j: nat): nat {
    if kind == AsWritten && j > 0 then j - 1 else j
  }

  /** How many results had been trained on when the weights that generated result j were synced. */
  function SyncedAt(kind: Kind, j: nat): nat {
    match kind
    case AsWritten => if j <= 2 then 0 else j - 1
    case Elif => if j <= 1 then 0 else j - 1
    case TwoStep => if j <= 2 then 0 else j - 2
  }

  /** How many results a generator over n batches has in all. */
  function Results(kind: Kind, n: nat): nat {
    if kind == AsWritten then n + 1 else n
  }

  /** The updates after j results: the requests that were answered. */
  function Updates(answers: nat -> bool, j: nat): nat {
    if j == 0 then 0 else Updates(answers, j - 1) + (if answers(j - 1) then 1 else 0)
  }

  function Expected(kind: Kind, answers: nat -> bool, j: nat): Step {
    Step(BatchOf(kind, j), Updates(answers, SyncedAt(kind, j)), Updates(answers, j),
         if answers(j) then Rows(1) else Failed, answers(j))
  }

  /** The results the training loop asks for: it stops after the step that reaches the total. */
  function Budget(globalSteps: nat, totalSteps: nat): nat {
    if globalSteps < totalSteps then totalSteps - globalSteps + 1 else 1
  }

  ghost predicate Follows(kind: Kind, answers: nat -> bool, log: seq<Step>) {
    forall j :: 0 <= j < |log| ==> log[j] == Expected(kind, answers, j)
  }

  /** The run over n batches with this budget is complete and orderly. */
  ghost predicate RanAs(kind: Kind, c: Cluster, n: nat, budget: nat, o: Outcome)
    reads c
  {
    && Follows(kind, c.answers, c.log)
    && |c.log| == (if budget <= Results(kind, n) then budget else Results(kind, n))
    && o == (if budget <= Results(kind, n) then Finished else StopIteration)
    && !c.overlapped && !c.crowded
  }

  // The log is as expected so far, and the budget is not used up.
  ghost predicate OnTrack(kind: Kind, c: Cluster, budget: nat)
    reads c
  {
    && Follows(kind, c.answers, c.log) && !c.overlapped && !c.crowded
    && c.updates == Updates(c.answers, |c.log|)
    && |c.log| < budget == |c.log| + Budget(c.globalSteps, c.totalSteps)
  }

  // Between the steps of a scheduler: `asked` is the future whose teacher request is open, if any;
  // it will be result `|c.log|`.
  ghost predicate Between(kind: Kind, c: Cluster, budget: nat, asked: GenerationBatchFuture?)
    reads c, asked
  {
    && OnTrack(kind, c, budget)
    && (c.holder.Some? ==> c.holder.value < |c.log|)
    && if asked == null then c.open == 0 && c.requests == |c.log| else
       && c.open == 1 && c.requests == |c.log| + 1 && Asked(kind, c.answers, asked, |c.log|)
  }

  // The future whose answer was just read, which is the next result.
  ghost predicate Read(kind: Kind, c: Cluster, f: GenerationBatchFuture, a: Answer)
    reads c, f
  {
    && Is(kind, c.answers, f, |c.log|) && f.request == Some(|c.log|)
    && a == (if c.answers(|c.log|) then Rows(1) else Failed)
    && (if c.answers(|c.log|) then c.holder == f.request else c.holder.Some? ==> c.holder.value < |c.log|)
  }

  ghost predicate Asked(kind: Kind, answers: nat -> bool, f: GenerationBatchFuture, j: nat)
    reads f
  {
    Is(kind, answers, f, j) && !f.running && f.request == Some(j) && f.gets == 0
  }

  ghost predicate Is(kind: Kind, answers: nat -> bool, f: GenerationBatchFuture, j: nat) {
    f.batch == BatchOf(kind, j) && f.version == Updates(answers, SyncedAt(kind, j))
  }

  // A generation that runs and will be result j.
  ghost predicate Generating(kind: Kind, c: Cluster, f: GenerationBatchFuture, j: nat)
    reads c, f
  {
    c.running == 1 && f.running && f.request == None && f.gets == 0 && Is(kind, c.answers, f, j)
  }

  // ---------------------------------------------------------------- the schedulers

  method Yield(ghost kind: Kind, ghost budget: nat, c: Cluster, f: GenerationBatchFuture, a: Answer)
    returns (more: bool)
    requires OnTrack(kind, c, budget) && Read(kind, c, f, a)
    modifies c`log, c`updates, c`globalSteps
    ensures |c.log| == old(|c.log|) + 1 && Follows(kind, c.answers, c.log)
    ensures if more then OnTrack(kind, c, budget) else |c.log| == budget
    ensures c.holder.Some? ==> c.holder.value < |c.log|
  {
    more := c.Train(f, a, a != Failed);
  }

  method GetAndYield(ghost kind: Kind, ghost budget: nat, c: Cluster, f: GenerationBatchFuture) returns (more: bool)
    requires Between(kind, c, budget, f)
    modifies c, f
    ensures c.running == old(c.running) && c.loaded == old(c.loaded)
    ensures |c.log| == old(|c.log|) + 1 && Follows(kind, c.answers, c.log)
    ensures !c.overlapped && !c.crowded
    ensures if more then Between(kind, c, budget, null) else |c.log| == budget
  {
    hide Follows, Updates, Is;
    var a := c.Get(f);
    more := Yield(kind, budget, c, f, a);
  }

  // The answer of the older future is read before the teacher is asked about the younger one.
  method GetThenAsk(ghost kind: Kind, ghost budget: nat, c: Cluster, f: GenerationBatchFuture, next: GenerationBatchFuture)
    returns (a: Answer)
    requires f != next && Between(kind, c, budget, f) && Generating(kind, c, next, |c.log| + 1)
    modifies c`running, c`open, c`holder, c`requests, c`crowded, f, next
    ensures OnTrack(kind, c, budget) && Read(kind, c, f, a)
    ensures c.running == 0 && c.open == 1 && c.requests == |c.log| + 2
    ensures Asked(kind, c.answers, next, |c.log| + 1)
  {
    hide Follows, Updates, Is;
    a := c.Get(f);
    c.AsyncGetTeacherKnowledge(next);
  }

  method OneStepOffScheduler(c: Cluster, n: nat) returns (o: Outcome)
    requires c.Idle()
    modifies c
    ensures if n == 0 then o == UnboundLocalError && c.log == []
            else RanAs(AsWritten, c, n, Budget(old(c.globalSteps), c.totalSteps), o)
  {
    ghost var budget := Budget(c.globalSteps, c.totalSteps);
    var prev: GenerationBatchFuture? := null;
    for i := 0 to n
      invariant c.running == 0 && (prev != null ==> fresh(prev))
      invariant |c.log| == i && Between(AsWritten, c, budget, prev)
      invariant (prev == null) == (i == 0)
      invariant i == 1 ==> c.loaded == 0
    {
      if i == 0 {
        prev := c.AsyncGenNextBatch(i, true);
        c.AsyncGetTeacherKnowledge(prev);
      }
      var fut := c.AsyncGenNextBatch(i, i != 1);
      var more := GetAndYield(AsWritten, budget, c, prev);
      if !more { return Finished; }
      prev := fut;
      c.AsyncGetTeacherKnowledge(prev);
    }
    if prev == null { return UnboundLocalError; }
    var more := GetAndYield(AsWritten, budget, c, prev);
    return if more then StopIteration else Finished;
  }

  /** The scheduler with `elif i == 1`. */
  method OneStepOffElif(c: Cluster, n: nat) returns (o: Outcome)
    requires c.Idle()
    modifies c
    ensures if n == 0 then o == UnboundLocalError && c.log == []
            else RanAs(Elif, c, n, Budget(old(c.globalSteps), c.totalSteps), o)
  {
    ghost var budget := Budget(c.globalSteps, c.totalSteps);
    var prev: GenerationBatchFuture? := null;
    for i := 0 to n
      invariant c.running == 0 && (prev != null ==> fresh(prev))
      invariant |c.log| == (if i == 0 then 0 else i - 1) && Between(Elif, c, budget, prev)
      invariant (prev == null) == (i == 0)
      invariant i == 1 ==> c.loaded == 0
    {
      var fut := c.AsyncGenNextBatch(i, i != 1);
      if i > 0 {
        var more := GetAndYield(Elif, budget, c, prev);
        if !more { return Finished; }
      }
      prev := fut;
      c.AsyncGetTeacherKnowledge(prev);
    }
    if prev == null { return UnboundLocalError; }
    var more := GetAndYield(Elif, budget, c, prev);
    return if more then StopIteration else Finished;
  }

  method TwoStepOffScheduler(c: Cluster, n: nat) returns (o: Outcome)
    requires c.Idle()
    modifies c
    ensures if n < 2 then o == UnboundLocalError && c.log == []
            else RanAs(TwoStep, c, n, Budget(old(c.globalSteps), c.totalSteps), o)
  {
    ghost var budget := Budget(c.globalSteps, c.totalSteps);
    var teacher: GenerationBatchFuture? := null;
    var rollout: GenerationBatchFuture? := null;
    for i := 0 to n
      invariant |c.log| == (if i < 2 then 0 else i - 2) && Between(TwoStep, c, budget, teacher)
      invariant (rollout == null) == (i == 0) && (teacher == null) == (i < 2)
      invariant teacher != null ==> fresh(teacher) && rollout != teacher
      invariant if rollout == null then c.running == 0 else fresh(rollout) && Generating(TwoStep, c, rollout, i - 1)
      invariant 0 < i < 3 ==> c.loaded == 0
    {
      if i == 0 {
        rollout := c.AsyncGenNextBatch(i, true);
      } else if i == 1 {
        teacher := rollout;
        c.AsyncGetTeacherKnowledge(teacher);
        rollout := c.AsyncGenNextBatch(i, false);
      } else {
        var a := GetThenAsk(TwoStep, budget, c, teacher, rollout);
        var done := teacher;
        teacher := rollout;
        rollout := c.AsyncGenNextBatch(i, i != 2);
        var more := Yield(TwoStep, budget, c, done, a);
        if !more { return Finished; }
      }
    }
    if teacher == null { return UnboundLocalError; }
    var a := GetThenAsk(TwoStep, budget, c, teacher, rollout);
    var more := Yield(TwoStep, budget, c, teacher, a);
    if !more { return Finished; }
    more := GetAndYield(TwoStep, budget, c, rollout);
    return if more then StopIteration else Finished;
  }

  // ---------------------------------------------------------------- one_step_off_policy

  /** Whether the j-th training step of a run that starts after `start` steps updates the actor. */
  function WarmedUp(start: nat, criticWarmup: nat): nat -> bool {
    (j: nat) => criticWarmup <= start + 1 + j
  }

  function ExpectedStep(actor: nat -> bool, j: nat): Step {
    Step(j, Updates(actor, if j == 0 then 0 else j - 1), Updates(actor, j), NoTeacher, false)
  }

  lemma NoUpdates(answers: nat -> bool)
    ensures Updates(answers, 0) == 0
  {
  }

  lemma NextUpdates(answers: nat -> bool, j: nat)
    ensures Updates(answers, j + 1) == Updates(answers, j) + (if answers(j) then 1 else 0)
  {
  }

  /** The loop of `fit` in one_step_off_policy over an iterator of n batches: batch j is trained at
      step j, on weights one training step old. */
  method OneStepOffTrainer(c: Cluster, n: nat, criticWarmup: nat) returns (o: Outcome)
    requires c.Idle()
    modifies c
    ensures var budget := Budget(old(c.globalSteps) + 1, c.totalSteps);
            && |c.log| == (if budget <= n then budget else n)
            && o == (if budget <= n then Finished else IteratorEnded)
    ensures forall j :: 0 <= j < |c.log| ==>
              c.log[j] == ExpectedStep(WarmedUp(old(c.globalSteps), criticWarmup), j)
    ensures !c.overlapped
  {
    hide Updates;
    ghost var actor := WarmedUp(c.globalSteps, criticWarmup);
    ghost var budget := Budget(c.globalSteps + 1, c.totalSteps);
    NoUpdates(actor);
    c.globalSteps := c.globalSteps + 1;
    var next := 0;
    var future: GenerationBatchFuture? := null;
    if next < n {
      future := c.AsyncGenNextBatch(next, true);
      next := next + 1;
    }
    while future != null
      invariant |c.log| < budget == |c.log| + Budget(c.globalSteps, c.totalSteps)
      invariant c.globalSteps == old(c.globalSteps) + 1 + |c.log| && c.updates == Updates(actor, |c.log|)
      invariant forall j :: 0 <= j < |c.log| ==> c.log[j] == ExpectedStep(actor, j)
      invariant !c.overlapped && next <= n
      invariant if future == null then c.running == 0 && next == n == |c.log| else
                && fresh(future) && future.running && future.request == None && c.running == 1
                && next == |c.log| + 1 && future.batch == |c.log|
                && future.version == Updates(actor, if |c.log| == 0 then 0 else |c.log| - 1)
      decreases n - |c.log|, future != null
    {
      var last := c.globalSteps >= c.totalSteps;
      NextUpdates(actor, |c.log|);
      var a := c.Get(future);
      var done := future;
      if !last {
        future := null;
        if next < n {
          future := c.AsyncGenNextBatch(next, true);
          next := next + 1;
        }
      }
      var _ := c.Train(done, a, criticWarmup <= c.globalSteps);
      if last { return Finished; }
    }
    return IteratorEnded;
  }

  // ---------------------------------------------------------------- what the runs mean

  /** All requests numbered i to j - 1 were answered. */
  ghost predicate AllAnswered(answers: nat -> bool, i: nat, j: nat) {
    forall k: nat :: i <= k < j ==> answers(k)
  }

  lemma {:induction false} UpdatesBetween(answers: nat -> bool, i: nat, j: nat)
    requires i <= j
    ensures 0 <= Updates(answers, j) - Updates(answers, i) <= j - i
    ensures Updates(answers, j) - Updates(answers, i) == j - i <==> AllAnswered(answers, i, j)
    decreases j - i
  {
    if i < j { UpdatesBetween(answers, i, j - 1); }
  }

  /** How many training steps lie between the sync of the weights that generate result j and the
      training on it. */
  function Window(kind: Kind, j: nat): nat {
    match kind
    case AsWritten => if j == 0 then 0 else if j == 2 then 2 else 1
    case Elif => if j == 0 then 0 else 1
    case TwoStep => if j < 2 then j else 2
  }

  /** Staleness of result j in actor updates: never more than its window, and exactly that when
      every teacher request in the window is answered. */
  lemma Staleness(kind: Kind, answers: nat -> bool, j: nat)
    ensures var e := Expected(kind, answers, j);
            && e.version <= e.updates <= e.version + Window(kind, j)
            && (e.updates == e.version + Window(kind, j) <==> AllAnswered(answers, SyncedAt(kind, j), j))
  {
    UpdatesBetween(answers, SyncedAt(kind, j), j);
  }

  function Batches(log: seq<Step>): seq<nat> { seq(|log|, j requires 0 <= j < |log| => log[j].batch) }

  function FirstBatches(n: nat): seq<nat> { seq(n, i requires 0 <= i < n => i) }

  /** A run that drains the generator: in order and once each, but for the first batch, which the
      scheduler as written hands out twice. */
  lemma DrainedRun(kind: Kind, answers: nat -> bool, log: seq<Step>, n: nat)
    requires Follows(kind, answers, log) && |log| == Results(kind, n) && n > 0
    ensures Batches(log) == (if kind == AsWritten then [0] else []) + FirstBatches(n)
  {
    var want := (if kind == AsWritten then [0] else []) + FirstBatches(n);
    assert |want| == |log|;
    forall j | 0 <= j < |log| ensures Batches(log)[j] == want[j] {
      assert log[j] == Expected(kind, answers, j);
    }
  }

  /** With a budget of one step per batch, the scheduler as written loses the last batch and the
      others lose none. */
  lemma OneStepPerBatch(kind: Kind, answers: nat -> bool, log: seq<Step>, n: nat)
    requires Follows(kind, answers, log) && |log| == n && n > 0
    ensures Batches(log) == if kind == AsWritten && n > 1 then [0] + FirstBatches(n - 1) else FirstBatches(n)
    ensures (n - 1 in Batches(log)) == (kind != AsWritten || n == 1)
  {
    var want := if kind == AsWritten && n > 1 then [0] + FirstBatches(n - 1) else FirstBatches(n);
    forall j | 0 <= j < n ensures Batches(log)[j] == want[j] {
      assert log[j] == Expected(kind, answers, j);
    }
    if kind != AsWritten || n == 1 { assert want[n - 1] == n - 1; }
  }

  /** How many of the first j training steps come after the critic's warm-up, when `start` were done before. */
  function StepsAfterWarmup(start: nat, criticWarmup: nat, j: nat): nat {
    if criticWarmup <= start + 1 then j
    else if start + 1 + j <= criticWarmup then 0
    else start + 1 + j - criticWarmup
  }

  lemma {:induction false} WarmedUpdates(start: nat, criticWarmup: nat, j: nat)
    ensures Updates(WarmedUp(start, criticWarmup), j) == StepsAfterWarmup(start, criticWarmup, j)
  {
    if j > 0 { WarmedUpdates(start, criticWarmup, j - 1); }
  }

  /** one_step_off_policy: the weights of batch j are min(j, 1) training steps old, so at most one
      actor update old, and exactly one once the critic is warmed up. */
  lemma TrainerStaleness(start: nat, criticWarmup: nat, j: nat)
    ensures var e := ExpectedStep(WarmedUp(start, criticWarmup), j);
            && e.batch == j && e.updates == StepsAfterWarmup(start, criticWarmup, j)
            && e.version == StepsAfterWarmup(start, criticWarmup, if j == 0 then 0 else j - 1)
            && e.updates == e.version + (if j > 0 && criticWarmup <= start + j then 1 else 0)
  {
    WarmedUpdates(start, criticWarmup, j);
    WarmedUpdates(start, criticWarmup, if j == 0 then 0 else j - 1);
  }
}
