/**
 Which parameters the old log-probabilities of a training step come from: the save, restore and
 clear calls around `compute_old_log_prob`, over whole runs of the fully asynchronous trainer.
 P stands for a set of model parameters.
 */
module ProximalLogProbs {
  import opened Basics

  /** Where the old log-probabilities of a step come from. */
  datatype OldLogProbs<P> = Computed(params: P) | FromRollout

  datatype Config = Config(useRolloutLogProbs: bool, computeProxLogProb: bool, syncEvery: nat)

  /** The model of a worker and its copies in CPU memory. The dictionary of copies is an attribute that
      the first save creates: None before that. */
  class ActorWorker<P> {
    var params: P
    var saved: Option<map<nat, P>>

    constructor (params: P)
      ensures this.params == params && saved == None
    {
      this.params, saved := params, None;
    }

    /** The copies that a restore or a clear finds. */
    ghost function Slots(): map<nat, P>
      reads `saved
    {
      if saved.Some? then saved.value else map[]
    }

    method SaveModelToCpu(n: nat)
      modifies `saved
      ensures saved == Some(old(Slots())[n := params])
    {
      if saved == None { saved := Some(map[]); }
      saved := Some(saved.value[n := params]);
    }

    /** False stands for the AttributeError of a worker that never saved anything. */
    method RestoreModelFromCpu(n: nat) returns (ok: bool)
      modifies `params
      ensures ok <==> saved.Some?
      ensures params == if n in Slots() then Slots()[n] else old(params)
    {
      if saved == None { return false; }
      if n in saved.value { params := saved.value[n]; }
      return true;
    }

    method ClearCpuModel(n: nat) returns (ok: bool)
      modifies `saved
      ensures ok <==> old(saved).Some?
      ensures saved == if ok then Some(old(Slots()) - {n}) else None
    {
      if saved == None { return false; }
      if n in saved.value {
        saved := Some(saved.value - {n});
      } else {
        assert saved.value - {n} == saved.value;
      }
      return true;
    }
  }

  /** The parameters after `steps` training steps from `start`; step i applies `learn(i, …)`. */
  function Learned<P>(learn: (nat, P) -> P, start: P, steps: nat): P {
    if steps == 0 then start else learn(steps - 1, Learned(learn, start, steps - 1))
  }

  /** The steps between two parameter syncs. */
  function Cycle(c: Config): (t: nat)
    ensures t > 0
  {
    if c.syncEvery == 0 then 1 else c.syncEvery
  }

  /** The number of steps done at the last sync at or before step i, when syncs are t steps apart. */
  function LastSync(i: nat, t: nat): (s: nat)
    requires t > 0
    ensures s <= i < s + t && Rem(s, t) == 0
  {
    if i < t then 0 else LastSync(i - t, t) + t
  }

  /** What step i ought to use. */
  function Expected<P>(c: Config, learn: (nat, P) -> P, start: P, i: nat): OldLogProbs<P> {
    if !c.useRolloutLogProbs then Computed(Learned(learn, start, i))
    else if c.computeProxLogProb then Computed(Learned(learn, start, LastSync(i, Cycle(c))))
    else FromRollout
  }

  class Trainer<P> {
    const c: Config
    const actor: ActorWorker<P>
    var localTriggerStep: nat
    var paramVersion: nat
    var rolloutParams: P               // what the last sync gave to the rollouter
    var log: seq<OldLogProbs<P>>       // one entry a step

    constructor (c: Config, actor: ActorWorker<P>)
      ensures this.c == c && this.actor == actor && localTriggerStep == 1 && paramVersion == 0
      ensures rolloutParams == actor.params && log == []
    {
      this.c, this.actor := c, actor;
      localTriggerStep, paramVersion, rolloutParams, log := 1, 0, actor.params, [];
    }

    /** The `old_log_prob` part of `_process_batch_common`. */
    method OldLogProb(localStep: Option<nat>) returns (o: OldLogProbs<P>)
      modifies actor
      ensures actor.params == old(actor.params)
      ensures o == if !c.useRolloutLogProbs || localStep == Some(1) then Computed(old(actor.params))
                   else if localStep.None? then FromRollout
                   else Computed(if 1 in old(actor.Slots()) then old(actor.Slots())[1] else old(actor.params))
      ensures actor.saved == if !c.useRolloutLogProbs || localStep.None? then old(actor.saved)
                             else if localStep == Some(1) then Some(old(actor.Slots())[1 := old(actor.params)])
                             else Some(old(actor.Slots()) - {localStep.value})
    {
      if !c.useRolloutLogProbs { return Computed(actor.params); }
      if localStep == Some(1) {
        actor.SaveModelToCpu(1);
        return Computed(actor.params);
      } else if localStep.Some? {
        var k := localStep.value;
        actor.SaveModelToCpu(k);
        var restored := actor.RestoreModelFromCpu(1);
        o := Computed(actor.params);
        var back := actor.RestoreModelFromCpu(k);
        var cleared := actor.ClearCpuModel(k);
        assert restored && back && cleared;  // the save comes first, so no call raises
        assert old(actor.Slots())[k := old(actor.params)] - {k} == old(actor.Slots()) - {k};
      } else {
        return FromRollout;
      }
    }

    /** `_trigger_parameter_sync_after_step`. */
    method TriggerParameterSync(validate: bool)
      modifies `localTriggerStep, `paramVersion, `rolloutParams
      ensures var sync := validate || old(localTriggerStep) >= c.syncEvery;
              && localTriggerStep == (if sync then 1 else old(localTriggerStep) + 1)
              && paramVersion == old(paramVersion) + (if sync then 1 else 0)
              && rolloutParams == (if sync then actor.params else old(rolloutParams))
    {
      if localTriggerStep < c.syncEvery && !validate {
        localTriggerStep := localTriggerStep + 1;
        return;
      }
      paramVersion := paramVersion + 1;
      localTriggerStep := 1;
      rolloutParams := actor.params;
    }

    /** What holds after `i` steps of a run that started from `start`. In proximal mode slot 1 holds
        the parameters of the last sync once a step of the cycle is done, and no other slot is used. */
    ghost predicate After(learn: (nat, P) -> P, start: P, i: nat)
      reads this, actor
    {
      && actor.params == Learned(learn, start, i)
      && |log| == i && (forall k :: 0 <= k < i ==> log[k] == Expected(c, learn, start, k))
      && localTriggerStep == i - LastSync(i, Cycle(c)) + 1
      && rolloutParams == Learned(learn, start, LastSync(i, Cycle(c)))
      && actor.Slots().Keys == (if i > 0 && c.useRolloutLogProbs && c.computeProxLogProb then {1} else {})
      && (i > 0 && c.useRolloutLogProbs && c.computeProxLogProb ==>
            actor.Slots()[1] == Learned(learn, start, LastSync(i - 1, Cycle(c))))
    }

    /** One step of `fit`: old log-probabilities, update, perhaps a sync. */
    method Step(learn: (nat, P) -> P, ghost start: P, i: nat)
      requires After(learn, start, i)
      modifies this, actor
      ensures After(learn, start, i + 1)
      ensures log == old(log) + [Expected(c, learn, start, i)] && actor.params == learn(i, old(actor.params))
    {
      NextSync(i, Cycle(c));
      var o := OldLogProb(if c.computeProxLogProb then Some(localTriggerStep) else None);
      log := log + [o];
      actor.params := learn(i, actor.params);
      TriggerParameterSync(false);
    }

    /** A run of any number of steps: every step uses the parameters it ought to, and the actor's own
        parameters go through the same values as if nothing was ever saved or restored. */
    method Fit(learn: (nat, P) -> P, steps: nat)
      requires localTriggerStep == 1 && log == [] && actor.saved == None && rolloutParams == actor.params
      modifies this, actor
      ensures After(learn, old(actor.params), steps)
    {
      ghost var start := actor.params;
      for i := 0 to steps
        invariant After(learn, start, i)
      {
        Step(learn, start, i);
      }
    }
  }

  lemma {:induction false} NextSync(i: nat, t: nat)
    requires t > 0
    ensures LastSync(i + 1, t) == if i + 1 - LastSync(i, t) == t then i + 1 else LastSync(i, t)
    ensures i > 0 ==> LastSync(i - 1, t) == if LastSync(i, t) == i then LastSync(i - 1, t) else LastSync(i, t)
  {
    if i >= t { NextSync(i - t, t); }
  }

  /** In proximal mode all steps between two syncs share the parameters of the first of the two, which
      are those the rollouter generates with, and a step right after a sync uses its own. */
  lemma {:induction false} ProximalStep<P>(c: Config, learn: (nat, P) -> P, start: P, i: nat)
    requires c.useRolloutLogProbs && c.computeProxLogProb
    ensures Expected(c, learn, start, i) == Expected(c, learn, start, LastSync(i, Cycle(c)))
    ensures Expected(c, learn, start, LastSync(i, Cycle(c))) == Computed(Learned(learn, start, LastSync(i, Cycle(c))))
  {
    SyncIsItsOwn(i, Cycle(c));
  }

  lemma {:induction false} SyncIsItsOwn(i: nat, t: nat)
    requires t > 0
    ensures LastSync(LastSync(i, t), t) == LastSync(i, t)
  {
    if i >= t { SyncIsItsOwn(i - t, t); }
  }
}
