/**
 The fully asynchronous rollout/trainer protocol as a labelled step relation.

 One step is one atomic section of the program: the code between two suspension
 points of the rollouter's event loop, one call served by the message queue, or
 one stretch of the trainer between two remote calls.
 */
module AsyncModel {
  import opened Basics

  /** Outcome of `set_max_required_samples` together with the trainer's own constants. */
  datatype Limits = Limits(
    requiredSamples: nat, triggerSteps: nat, maxRequired: nat, maxConcurrent: nat,
    partialRollout: bool, baseVersion: nat)
  {
    ghost predicate Valid() {
      requiredSamples >= 1 && triggerSteps >= 1 && 1 <= maxConcurrent <= maxRequired
    }

    // The queue is created with room for `max_required_samples` messages.
    function MaxQueue(): nat { maxRequired }

    // Samples the trainer consumes between two parameter versions.
    function Cycle(): nat { requiredSamples * triggerSteps }
  }

  const SERVER_CONCURRENCY := 16
  const PENDING_CAPACITY := 128

  function Min(a: int, b: int): int { if a <= b then a else b }

  function SetMaxRequiredSamples(requiredSamples: nat, triggerSteps: nat, threshold: real,
                                 serverHandles: nat, partialRollout: bool, baseVersion: nat): (c: Limits)
    requires requiredSamples >= 1 && triggerSteps >= 1 && threshold >= 0.0 && serverHandles >= 1
    ensures c.Valid()
    ensures c.maxConcurrent == if 16 * serverHandles <= c.maxRequired then 16 * serverHandles else c.maxRequired
    ensures c.Cycle() == requiredSamples * triggerSteps <= c.maxRequired
    ensures c.maxRequired as real <= (c.Cycle() as real) * (threshold + 1.0) < c.maxRequired as real + 1.0
  {
    var r, t := requiredSamples as real, triggerSteps as real;
    ScaledBudget(requiredSamples, triggerSteps, threshold);
    var maxRequired := (r * (threshold + 1.0) * t).Floor;
    Limits(requiredSamples, triggerSteps, maxRequired, Min(serverHandles * SERVER_CONCURRENCY, maxRequired),
           partialRollout, baseVersion)
  }

  lemma ScaledBudget(r: nat, t: nat, threshold: real)
    requires r >= 1 && t >= 1 && threshold >= 0.0
    ensures r * t >= 1
    ensures (r as real) * (threshold + 1.0) * (t as real) == ((r * t) as real) * (threshold + 1.0)
    ensures ((r * t) as real) * (threshold + 1.0) >= (r * t) as real
  {
    var k := (r * t) as real;
    assert k == (r as real) * (t as real);
    assert k * (threshold + 1.0) == k * threshold + k;
    assert k * threshold >= 0.0;
  }

  // ---------------------------------------------------------------- message queue

  /** What the rollouter puts: a generated sample, or the `None` that ends the run. */
  datatype Msg = Sample(id: nat, stamp: nat) | Stop

  /** Queue contents with three history sequences: all puts, all gets, all evictions. */
  datatype Queue = Queue(items: seq<Msg>, produced: seq<Msg>, taken: seq<Msg>, evicted: seq<Msg>)

  function Put(q: Queue, capacity: nat, m: Msg): Queue
    requires capacity >= 1
  {
    var full := |q.items| >= capacity;
    q.(items := (if full then q.items[1..] else q.items) + [m],
       evicted := if full then q.evicted + [q.items[0]] else q.evicted,
       produced := q.produced + [m])
  }

  function Get(q: Queue): Queue
    requires q.items != []
  {
    q.(items := q.items[1..], taken := q.taken + [q.items[0]])
  }

  // ---------------------------------------------------------------- rollouter

  datatype Pending = Item(id: nat) | DoneMark

  /** Where the processor coroutine stands. */
  datatype Proc =
    | Idle               // about to evaluate the pause condition
    | PausePending       // decided to pause, waiting for the lock to set the flag
    | Parked             // draining tasks, then waiting to be unpaused
    | Checked            // passed the pause check, waiting on the pending queue
    | Holding(id: nat)   // took a sample, waiting for a concurrency slot and for `paused` to clear
    | Draining           // received the end mark, waiting for the remaining tasks
    | Ended

  datatype Task = Generating | Putting(stamp: nat)

  /** Holder of the condition's lock; an update also carries the count it read before its await. */
  datatype Lock = Free | ByProcessor | ByPause | ByUpdate(counted: nat)

  /** `handReset` and `breached` are history flags; every other field is a field of the source. */
  datatype Rollouter = Rollouter(
    pending: seq<Pending>, fed: nat, feedDone: bool,
    proc: Proc, running: map<nat, Task>, finished: nat, cancelled: seq<nat>,
    staleness: nat, version: nat, weights: nat,
    paused: bool, monitorTrigger: bool, monitorArmed: bool, cancelling: bool,
    lock: Lock, stopSent: bool,
    handReset: bool, breached: bool)
  {
    // `len(self.active_tasks)`: unfinished tasks and finished ones not yet reaped.
    function ActiveTasks(): nat { |running| + finished }

    // The three places where the processor waits for a task while it holds the lock.
    predicate AwaitsTasks(c: Limits) {
      && ActiveTasks() > 0
      && (proc.Parked? || proc.Draining? || (proc.Holding? && ActiveTasks() >= c.maxConcurrent))
    }
  }

  predicate ShouldPause(c: Limits, r: Rollouter, q: Queue) {
    |q.items| >= c.MaxQueue() || r.staleness >= c.maxRequired
  }

  function FeedSample(r: Rollouter): Rollouter {
    r.(pending := r.pending + [Item(r.fed)], fed := r.fed + 1)
  }

  function FeedDone(r: Rollouter): Rollouter {
    r.(pending := r.pending + [DoneMark], feedDone := true)
  }

  function TakeCancelled(r: Rollouter): Rollouter
    requires r.cancelled != []
  {
    r.(proc := Holding(r.cancelled[0]), cancelled := r.cancelled[1..])
  }

  // The end mark counts as a sample here, exactly as in the source.
  function TakePending(r: Rollouter): Rollouter
    requires r.pending != []
  {
    r.(pending := r.pending[1..], staleness := r.staleness + 1,
       proc := match r.pending[0] case Item(id) => Holding(id) case DoneMark => Draining)
  }

  function StartTask(r: Rollouter): Rollouter
    requires r.proc.Holding?
  {
    r.(proc := Idle, running := r.running[r.proc.id := Generating])
  }

  function StampTask(r: Rollouter, id: nat): Rollouter {
    r.(running := r.running[id := Putting(r.version)])
  }

  function EndTask(r: Rollouter, id: nat): Rollouter {
    r.(running := r.running - {id}, finished := r.finished + 1)
  }

  function CancelTask(r: Rollouter, id: nat): Rollouter {
    EndTask(r, id).(cancelled := r.cancelled + [id])
  }

  function PauseBegin(c: Limits, r: Rollouter): Rollouter {
    r.(lock := ByPause, paused := true, cancelling := r.cancelling || c.partialRollout)
  }

  function PauseEnd(r: Rollouter): Rollouter {
    r.(lock := Free, finished := 0, monitorTrigger := false)
  }

  function UpdateBegin(r: Rollouter, version: nat): Rollouter {
    r.(lock := ByUpdate(r.ActiveTasks() + |r.cancelled|), version := version)
  }

  function UpdateEnd(r: Rollouter, queueSize: nat): Rollouter
    requires r.lock.ByUpdate?
  {
    r.(lock := Free, staleness := r.lock.counted + queueSize,
       handReset := r.handReset || r.proc.Holding?)
  }

  function Resume(r: Rollouter): Rollouter {
    r.(paused := false, monitorTrigger := true, cancelling := false)
  }

  function MonitorUnpause(r: Rollouter): Rollouter {
    r.(paused := false, monitorArmed := false, breached := r.breached || !r.monitorTrigger)
  }

  // ---------------------------------------------------------------- trainer and synchronizer

  datatype Phase = Collecting | WaitLast | InSync

  /** One training use: the message and the trainer's parameter version at that step. */
  datatype Use = Use(msg: Msg, version: nat)

  datatype Trainer = Trainer(
    version: nat, localStep: nat, batch: seq<Msg>, trained: seq<Use>,
    phase: Phase, stopped: bool, finalDone: bool)

  function Collect(t: Trainer, m: Msg): Trainer {
    match m
    case Stop => t.(stopped := true)
    case Sample(_, _) => t.(batch := t.batch + [m])
  }

  function Uses(batch: seq<Msg>, version: nat): seq<Use> {
    seq(|batch|, i requires 0 <= i < |batch| => Use(batch[i], version))
  }

  function TriggerSync(c: Limits, t: Trainer, validate: bool): Trainer {
    if t.localStep < c.triggerSteps && !validate then t.(localStep := t.localStep + 1)
    else t.(version := t.version + 1, localStep := 1, phase := WaitLast)
  }

  function TrainStep(c: Limits, t: Trainer): Trainer {
    TriggerSync(c, t.(batch := [], trained := t.trained + Uses(t.batch, t.version)), false)
  }

  datatype Sync =
    | Quiet | PauseRequested | Pausing | Paused | UpdateRequested | Updating | ResumeRequested

  // ---------------------------------------------------------------- the whole system

  datatype State = State(r: Rollouter, q: Queue, t: Trainer, sync: Sync, syncVersion: nat)

  datatype Step =
    | SFeed | SFeedDone
    | SDecidePause | SSetPaused | SUnpark | STakeCancelled | SCheck | STakePending
    | SStart | SAwaitTasks | SReap | SDrained | SSendStop
    | SStamp(id: nat) | SPut(id: nat) | SCancel(id: nat)
    | SGet | STrain | SFinalTrigger
    | SBeginSync | SPauseBegin | SPauseEnd | SWeights | SUpdateBegin | SUpdateEnd | SResume
    | SMonitorCheck | SMonitorUnpause

  /** The state once `fit` has started: the initial weight synchronization is already over. */
  function Init(c: Limits): State {
    State(
      Rollouter([], 0, false, Idle, map[], 0, [], 0, c.baseVersion, c.baseVersion,
                false, true, false, false, Free, false, false, false),
      Queue([], [], [], []),
      Trainer(c.baseVersion, 1, [], [], Collecting, false, false),
      Quiet, c.baseVersion)
  }

  predicate RolloutEnabled(c: Limits, s: State, step: Step) {
    var r := s.r;
    match step
    case SFeed => |r.pending| < PENDING_CAPACITY && !r.feedDone
    case SFeedDone => |r.pending| < PENDING_CAPACITY && !r.feedDone
    case SDecidePause => r.proc.Idle? && (r.paused || ShouldPause(c, r, s.q))
    case SSetPaused => r.proc.PausePending? && r.lock.Free?
    case SUnpark => r.proc.Parked? && r.ActiveTasks() == 0 && r.lock.Free? && !r.paused
    case STakeCancelled => r.proc.Idle? && !r.paused && !ShouldPause(c, r, s.q) && r.cancelled != []
    case SCheck => r.proc.Idle? && !r.paused && !ShouldPause(c, r, s.q) && r.cancelled == []
    case STakePending => r.proc.Checked? && r.pending != []
    case SStart => r.proc.Holding? && r.ActiveTasks() < c.maxConcurrent && r.lock.Free? && !r.paused
    case SAwaitTasks => r.AwaitsTasks(c) && r.lock.Free?
    case SReap => r.lock.ByProcessor? && r.finished > 0
    case SDrained => r.proc.Draining? && r.ActiveTasks() == 0
    case SSendStop => r.proc.Ended? && r.feedDone && !r.stopSent
    case SStamp(id) => id in r.running && r.running[id].Generating?
    case SPut(id) => id in r.running && r.running[id].Putting?
    case SCancel(id) => id in r.running && r.running[id].Generating? && r.cancelling
    case _ => false
  }

  predicate TrainEnabled(c: Limits, s: State, step: Step) {
    var r, t := s.r, s.t;
    match step
    case SGet => t.phase.Collecting? && !t.stopped && |t.batch| < c.requiredSamples && s.q.items != []
    case STrain => t.phase.Collecting? && !t.stopped && |t.batch| == c.requiredSamples
    case SFinalTrigger => t.phase.Collecting? && t.stopped && !t.finalDone && s.sync.Quiet?
    case SBeginSync => t.phase.WaitLast? && s.sync.Quiet?
    case SPauseBegin => s.sync.PauseRequested? && r.lock.Free?
    case SPauseEnd => s.sync.Pausing? && r.running == map[]
    case SWeights => s.sync.Paused?
    case SUpdateBegin => s.sync.UpdateRequested? && r.lock.Free?
    case SUpdateEnd => s.sync.Updating? && r.lock.ByUpdate?
    case SResume => s.sync.ResumeRequested? && r.lock.Free?
    case SMonitorCheck => r.monitorTrigger && !ShouldPause(c, r, s.q)
    case SMonitorUnpause => r.monitorArmed && r.lock.Free?
    case _ => false
  }

  predicate Enabled(c: Limits, s: State, step: Step) {
    RolloutEnabled(c, s, step) || TrainEnabled(c, s, step)
  }

  function RollouterAfter(c: Limits, s: State, step: Step): Rollouter
    requires RolloutEnabled(c, s, step)
  {
    var r := s.r;
    match step
    case SFeed => FeedSample(r)
    case SFeedDone => FeedDone(r)
    case SDecidePause => r.(proc := PausePending)
    case SSetPaused => r.(proc := Parked, paused := true)
    case SUnpark => r.(proc := Idle)
    case STakeCancelled => TakeCancelled(r)
    case SCheck => r.(proc := Checked)
    case STakePending => TakePending(r)
    case SStart => StartTask(r)
    case SAwaitTasks => r.(lock := ByProcessor)
    case SReap => r.(finished := 0, lock := Free)
    case SDrained => r.(proc := Ended)
    case SSendStop => r.(stopSent := true)
    case SStamp(id) => StampTask(r, id)
    case SPut(id) => EndTask(r, id)
    case SCancel(id) => CancelTask(r, id)
  }

  // Only two rollout steps put a message.
  function QueueAfter(c: Limits, s: State, step: Step): Queue
    requires c.maxRequired >= 1 && RolloutEnabled(c, s, step)
  {
    if step.SSendStop? then Put(s.q, c.MaxQueue(), Stop)
    else if step.SPut? then Put(s.q, c.MaxQueue(), Sample(step.id, s.r.running[step.id].stamp))
    else s.q
  }

  function ApplyRollout(c: Limits, s: State, step: Step): State
    requires c.maxRequired >= 1 && RolloutEnabled(c, s, step)
  {
    s.(r := RollouterAfter(c, s, step), q := QueueAfter(c, s, step))
  }

  function TrainerAfter(c: Limits, s: State, step: Step): Trainer
    requires TrainEnabled(c, s, step)
  {
    if step.SGet? then Collect(s.t, s.q.items[0])
    else if step.STrain? then TrainStep(c, s.t)
    else if step.SFinalTrigger? then TriggerSync(c, s.t, true).(finalDone := true)
    else if step.SBeginSync? then s.t.(phase := InSync)
    else if step.SWeights? then s.t.(phase := Collecting)
    else s.t
  }

  // What the synchronizer's calls and the monitor do to the rollouter.
  function Steered(c: Limits, s: State, step: Step): Rollouter
    requires TrainEnabled(c, s, step)
  {
    var r := s.r;
    if step.SPauseBegin? then PauseBegin(c, r)
    else if step.SPauseEnd? then PauseEnd(r)
    else if step.SWeights? then r.(weights := s.syncVersion)
    else if step.SUpdateBegin? then UpdateBegin(r, s.syncVersion)
    else if step.SUpdateEnd? then UpdateEnd(r, |s.q.items|)
    else if step.SResume? then Resume(r)
    else if step.SMonitorCheck? then r.(monitorArmed := true)
    else if step.SMonitorUnpause? then MonitorUnpause(r)
    else r
  }

  function SyncAfter(sync: Sync, step: Step): Sync {
    if step.SBeginSync? then PauseRequested
    else if step.SPauseBegin? then Pausing
    else if step.SPauseEnd? then Paused
    else if step.SWeights? then UpdateRequested
    else if step.SUpdateBegin? then Updating
    else if step.SUpdateEnd? then ResumeRequested
    else if step.SResume? then Quiet
    else sync
  }

  function ApplyTrain(c: Limits, s: State, step: Step): State
    requires TrainEnabled(c, s, step)
  {
    State(Steered(c, s, step), if step.SGet? then Get(s.q) else s.q, TrainerAfter(c, s, step),
          SyncAfter(s.sync, step), if step.SBeginSync? then s.t.version else s.syncVersion)
  }

  function Apply(c: Limits, s: State, step: Step): State
    requires c.maxRequired >= 1 && Enabled(c, s, step)
  {
    if RolloutEnabled(c, s, step) then ApplyRollout(c, s, step) else ApplyTrain(c, s, step)
  }

  /** The state a sequence of steps leads to, or None when some step is not enabled. */
  function After(c: Limits, steps: seq<Step>): Option<State>
    requires c.maxRequired >= 1
  {
    if steps == [] then Some(Init(c)) else
    var last := |steps| - 1;
    match After(c, steps[..last])
    case None => None
    case Some(s) => if Enabled(c, s, steps[last]) then Some(Apply(c, s, steps[last])) else None
  }
}
