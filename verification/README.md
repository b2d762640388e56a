# Verified models of the asynchronous training recipes

A Dafny project that models the parts of the repository whose correctness rests on ordering,
counting or index arithmetic, and proves what they promise. `dafny verify dfyconfig.toml` checks it.

| files | what they model |
|---|---|
| `AsyncModel`, `AsyncFrames` | `recipe/fully_async_policy`: rollouter, message queue, trainer and synchronizer as a step relation over atomic sections |
| `AsyncCapacity`, `AsyncConservation`, `AsyncOrder`, `AsyncStaleness`, `AsyncSynchronous`, `AsyncEnding` | what every run of that protocol keeps, and how a run ends |
| `AsyncRuns`, `AsyncExact` | runs for any configuration, and exactly which configurations reach the bounds |
| `AsyncProgress`, `AsyncLimit`, `AsyncStuck` | that a run goes on, how much is generated between two resets, and exactly when that limit can be exceeded and when a run can come to a stop |
| `AsyncActors`, `AsyncProgram` | the actors as classes with the source's fields, and the program they make up, whose every call is a step of the protocol |
| `Broadcast`, `BroadcastProofs` | `recipe/gkd/megatron_workers.py`: the bucketed weight broadcast, both sides |
| `Schedulers`, `TeacherBuffer` | `recipe/gkd` and `recipe/one_step_off_policy`: the pipelined schedulers with the loop that consumes them, and the teacher's reused buffer |
| `Json`, `JsonLoops` | `recipe/collabllm/utils.py`: the tolerant JSON parser and its loops |
| `JsonGrammar`, `JsonMeaning`, `JsonSound`, `JsonComplete`, `JsonRoundTrip` | the grammar of that parser as trees, exactly which texts it accepts and what they mean, and which dicts come back unchanged |
| `KlLoss` | `recipe/gkd/megatron_kl_loss.py`: the vocabulary-parallel KL forward pass |
| `Prime` | `recipe/prime`: leave-one-out baselines, returns, process rewards, normalisation |
| `BatchAlgebra` | `verl/protocol.py`: padding, chunking, concatenation, repetition, folding, union |
| `Dapo` | `recipe/dapo/dapo_ray_trainer.py`: group filtering and accumulation |
| `ProximalLogProbs` | `recipe/fully_async_policy`: which parameters the old log-probabilities come from |
| `Basics` | options, sums, products and remainders that several of these use |

How time and outside code are modelled. A step of the asynchronous protocol is the code between two
suspension points, one call served by the queue, or one stretch of the trainer between remote calls;
steps interleave freely. Generation, weight copies, teacher answers, optimiser steps and Python's
number parsing are function parameters or free choices. Numbers of the loss and the rewards are
reals; the exponential and the logarithm are parameters.

Facts about the code that the proofs brought out:

- With a staleness threshold of 0 the protocol is synchronous, as `recipe/fully_async_policy/README.md`
  says (`ThresholdZeroIsSynchronous`). Whenever `max_required_samples` exceeds the samples of one version,
  some use is `ceil(max_required_samples / samples per version)` versions old, `1 + threshold` for a whole
  threshold and so one more than it, because the trainer may collect samples between a weight sync and the
  reset of the count; otherwise every use is of age 0 (`SamplesAreFresh`, `AgeBoundIsReached`).
- Under exactly the same condition some run reaches a load of `max_required_samples + 1`, when a version
  reset lands while the processor holds a sample, and some run evicts a real sample (`LoadCanExceed`,
  `SampleCanBeEvicted`).
- Under the same condition again some run generates one sample more between two resets than the limit in
  `recipe/fully_async_policy/README.md`, and never two more (`GenerationLimit`, `LimitCanBeExceeded`).
- A run whose monitor keeps out of the pause can end with a cancelled sample left behind for ever exactly
  under partial rollout and that condition (`SampleCanBeStranded`).
- In such a run without such a reset something useful can happen until the run is over, unless partial
  rollout is on, that condition holds and more tasks may run at once than `max_required_samples` exceeds one version: then cancelled
  samples can use up the whole allowance, which is checked before the cancel queue is looked into, and
  nothing can happen any more (`Progress`, `RunCanStop`).
- `put_sample` returns False when it dropped an older sample; the new one is stored all the same
  (`AsyncActors.MessageQueue.PutSample`).
- Tensors are lost by the weight broadcast exactly when some tensor goes through the buffer and all
  that do are empty (`DeliveredExactlyOnce`).
- The GKD one-step-off scheduler hands out its first batch twice, because its second branch is `if` and
  not `elif`; with one step per batch the last batch is never trained on (`OneStepPerBatch`).
- PRIME's first process reward is the outcome at rate 1 exactly when the row has a valid token or the
  outcome is 0 (`GroundTruthReturn`); a group of one rollout raises a ZeroDivisionError, and a row without
  a marked entry, like an incomplete group, turns every marked reward of its group into NaN (`MaskedRloo`).

## Model

| member | source | states |
|---|---|---|
| AsyncModel.SetMaxRequiredSamples | recipe/fully_async_policy/fully_async_rollouter.py:174-197 | the sample budget is the whole part of samples per version times (1 + threshold), at least one version's worth; the concurrency is 16 per server handle, at most the budget |
| AsyncCapacity.CapacityHolds | recipe/fully_async_policy/fully_async_rollouter.py:420-494 | the counting invariant behind the bounds holds in every reachable state |
| AsyncCapacity.LoadIsBounded | recipe/fully_async_policy/fully_async_rollouter.py:645-667 | in hand + unfinished + cancelled + queued is at most max_required_samples + 1, and at most max_required_samples while no reset landed on a held sample; tasks and queue stay within their limits |
| AsyncCapacity.NothingEvicted | recipe/fully_async_policy/message_queue.py:67-96 | in every run without such a reset nothing is ever evicted, by the final None neither |
| AsyncConservation.EachSampleInExactlyOnePlace | recipe/fully_async_policy/fully_async_rollouter.py:381-526 | in every run, every id fed is in exactly one of the places a sample can be, and no other id is anywhere |
| AsyncConservation.QueueIsSuffixOfLog | recipe/fully_async_policy/message_queue.py:67-116 | the queue is the log of puts without its first consumed + dropped entries, and the trainer uses messages in the order it took them |
| AsyncConservation.StopReachesTrainer | recipe/fully_async_policy/fully_async_rollouter.py:571-575 | the final None is never dropped: it is the newest entry until the trainer takes it, and then the queue is empty |
| AsyncOrder.FirstFedFirst | recipe/fully_async_policy/fully_async_rollouter.py:381-462 | in every run the j-th sample received from the pending queue is the j-th one fed, and the others, at most 128, wait in the order of feeding, the end mark last |
| AsyncOrder.FirstCancelledFirst | recipe/fully_async_policy/fully_async_rollouter.py:433-526 | in every run cancelled samples are taken back in the order of their cancellation |
| AsyncStaleness.UseClockHolds | recipe/fully_async_policy/fully_async_trainer.py:462-487 | the k-th sample trained on in any run is used at the version number k divided by the samples per version, above the first |
| AsyncStaleness.SamplesAreFresh | recipe/fully_async_policy/fully_async_trainer.py:462-487 | every sample trained on in any run is at most ceil(queue size / samples per version) versions old, plus one if the monitor unpaused between pause and resume |
| AsyncStaleness.FreshnessFromThreshold | recipe/fully_async_policy/fully_async_rollouter.py:174-197 | for a whole threshold that bound is 1 + threshold |
| AsyncStaleness.StampsAreTrue | recipe/fully_async_policy/param_sync.py:78-108 | while the monitor keeps out of the pause nothing is generated while weights change, a running task works with the weights of the current version, and a finished sample's stamp is the version of the weights in use |
| AsyncSynchronous.ThresholdZeroIsSynchronous | recipe/fully_async_policy/README.md:125-141 | with no staleness allowance every sample is used at exactly the version it is stamped with, in every run |
| AsyncEnding.EndOfRun | recipe/fully_async_policy/fully_async_trainer.py:134-191 | when the trainer has taken the final None, each sample fed was trained on once, or is in an incomplete batch, or was evicted, only after a reset on a held sample, or is stranded in the cancel queue, only with partial rollout |
| AsyncEnding.StrandedForever | recipe/fully_async_policy/fully_async_rollouter.py:420-494 | what is in the cancel queue once the end mark was taken stays there in every continuation |
| AsyncExact.LoadCanExceed | recipe/fully_async_policy/fully_async_rollouter.py:209-217 | some run exceeds max_required_samples if and only if that is more than the samples of one version |
| AsyncExact.SampleCanBeEvicted | recipe/fully_async_policy/message_queue.py:67-96 | some run evicts a real sample if and only if the same holds |
| AsyncExact.SampleCanBeStranded | recipe/fully_async_policy/fully_async_rollouter.py:496-526 | some run whose monitor keeps out of the pause ends with a sample stranded if and only if partial rollout is on and the same holds |
| AsyncExact.AgeBoundIsReached | recipe/fully_async_policy/fully_async_trainer.py:134-191 | some run whose monitor keeps out of the pause has a use of the greatest age that SamplesAreFresh allows if and only if the same holds |
| AsyncLimit.GenerationLimit | recipe/fully_async_policy/README.md:131-137 | between two resets the rollouter generates at most max_required_samples less the stale samples counted by the first, plus one if some reset so far landed on a held sample; the monitor kept out of the pauses before |
| AsyncLimit.LimitCanBeExceeded | recipe/fully_async_policy/README.md:131-137 | some run generates more than that documented number if and only if max_required_samples is more than the samples of one version |
| AsyncProgress.Progress | recipe/fully_async_policy/fully_async_rollouter.py:420-494 | in a run without a reset on a held sample and with the monitor out of the pauses some useful step is possible until the run is over, unless the trainer has taken everything and the processor is parked with the allowance used up |
| AsyncStuck.RunCanStop | recipe/fully_async_policy/fully_async_rollouter.py:645-667 | a budget of at least one version: some such run comes to a complete stop if and only if partial rollout is on, the budget exceeds one version and the concurrency exceeds the difference |
| AsyncActors.MessageQueue.PutSample | recipe/fully_async_policy/message_queue.py:67-96 | the deque and its counters after a put; False exactly when an older message was dropped |
| AsyncActors.MessageQueue.GetSample | recipe/fully_async_policy/message_queue.py:98-116 | the oldest message leaves, and the size that is left is returned with it; None exactly from a queue that is closed and empty |
| AsyncProgram.FullyAsyncProgram.Run | recipe/fully_async_policy/fully_async_rollouter.py:381-693 | any schedule that the protocol allows can be carried out by the actors and leads their fields to the protocol's state; the load and the eviction bounds and the two orders hold of them |
| AsyncProgram.FullyAsyncProgram.ProcessorTurn | recipe/fully_async_policy/fully_async_rollouter.py:420-462 | pauses exactly when paused, the queue is full or the allowance is used up; else cancelled samples come first; when it goes for a new sample there is room for it, unless some reset landed on a held one |
| AsyncProgram.FullyAsyncProgram.ReceivePending | recipe/fully_async_policy/fully_async_rollouter.py:420-462 | the processor receives the first sample fed that it has not received, or the end mark after all of them |
| AsyncProgram.FullyAsyncProgram.TakeCancelled | recipe/fully_async_policy/fully_async_rollouter.py:420-462 | the sample taken back is the one cancelled longest ago |
| AsyncProgram.FullyAsyncProgram.PutResult | recipe/fully_async_policy/fully_async_rollouter.py:496-526 | the put of a sample succeeds, and nothing was dropped before, unless some reset landed on a held sample |
| AsyncProgram.FullyAsyncProgram.SendStop | recipe/fully_async_policy/fully_async_rollouter.py:571-575 | nor does the final None drop anything |
| AsyncProgram.FullyAsyncProgram.UpdateDone | recipe/fully_async_policy/fully_async_rollouter.py:209-217 | the new staleness count covers everything under way, but for a sample in the processor's hand; with the monitor out of the pauses it is exactly what is queued and cancelled |
| AsyncProgram.FullyAsyncProgram.BroadcastWeights | recipe/fully_async_policy/param_sync.py:78-108 | the weights change while nothing is being generated, if the monitor kept out of the pause |
| AsyncProgram.FullyAsyncProgram.CollectSample | recipe/fully_async_policy/fully_async_trainer.py:134-191 | the trainer gets the first message put that was neither taken nor dropped |
| AsyncProgram.FullyAsyncProgram.TrainStep | recipe/fully_async_policy/fully_async_trainer.py:253-296 | every sample the trainer has used was within the freshness bound when it was used |
| Broadcast.NumelAppend | recipe/gkd/megatron_workers.py:71-73 | the element count of a shape is the product of its dimensions |
| Broadcast.IndexOf | recipe/gkd/megatron_workers.py:84-90 | every place of a flattened tensor is that of exactly one index of its shape, the last dimension running fastest |
| Broadcast.CutFlat | recipe/gkd/megatron_workers.py:61-90 | cutting a buffer by keys and shapes gives back exactly the tensors that were flattened into it, whatever follows them |
| Broadcast.TensorBuffer.Append | recipe/gkd/megatron_workers.py:78-82 | the weight is copied behind the elements already there |
| Broadcast.TensorBuffer.ToTensors | recipe/gkd/megatron_workers.py:84-90 | the buffer's elements cut into the named tensors: the element with an index is found behind the tensors before, at the offset of the index |
| Broadcast.SyncActor | recipe/gkd/megatron_workers.py:585-616 | the actor sends exactly the planned groups, or fails its assertion exactly when the generator differs from the weights info in a name or a shape |
| Broadcast.SyncRollout | recipe/gkd/megatron_workers.py:771-828 | the rollout side's loop is the reception function |
| BroadcastProofs.SidesAgree | recipe/gkd/megatron_workers.py:593-616 | given what the actor sends, the rollout worker issues the same broadcasts with the same element counts and delivers what was sent, names and shapes included; after every weight its bucket is the actor's and fits the buffer |
| BroadcastProofs.DeliveredExactlyOnce | recipe/gkd/megatron_workers.py:809-828 | every tensor is delivered as often as it was sent and in order within its class, exactly when not all buffered tensors are empty |
| BroadcastProofs.FewBroadcasts | recipe/gkd/megatron_workers.py:593-616 | fewer than twice the least possible number of bucket broadcasts |
| Schedulers.Cluster.Get | recipe/gkd/ray_trainer.py:80-107 | waits for the generation; the answer is the teacher's, empty on failure, and holds its rows as often as it was asked for; which answer the shared buffers then hold, none if it failed after they were reset |
| Schedulers.OneStepOffScheduler | recipe/gkd/ray_trainer.py:392-459 | the whole run as written, for any number of batches, step limit and teacher failures: which batches, weights, updates and answers, no weight sync or generation during a generation, one open teacher request at most, the shared buffers hold the answer trained on; an unbound local without batches |
| Schedulers.OneStepOffElif | recipe/gkd/ray_trainer.py:392-459 | the same for the scheduler with `elif` |
| Schedulers.TwoStepOffScheduler | recipe/gkd/ray_trainer.py:461-531 | the same for the two-step scheduler; an unbound local with fewer than two batches |
| Schedulers.Staleness | recipe/gkd/ray_trainer.py:392-531 | a result is never staler than its window (two-step: min(j, 2); `elif`: min(j, 1); as written: 0, 1, 2, 1, 1, …), and exactly that when the teacher answers in the window |
| Schedulers.DrainedRun | recipe/gkd/ray_trainer.py:412-459 | a drained run has every batch once and in order, as written with the first batch twice |
| Schedulers.OneStepPerBatch | recipe/gkd/ray_trainer.py:425-459 | with one step per batch the scheduler as written never trains on the last batch; the others train on all |
| Schedulers.OneStepOffTrainer | recipe/one_step_off_policy/ray_trainer.py:441-478 | batches 0 to min(n, steps) - 1 are trained once each in order, on weights synced one training step earlier, no sync during a generation, whichever of iterator and limit ends the run |
| Schedulers.TrainerStaleness | recipe/one_step_off_policy/ray_trainer.py:311-346 | how many actor updates precede batch j, given the critic's warm-up; it is one update stale if the step before updated the actor, and else not at all |
| TeacherBuffer.GetTeacherKnowledge | recipe/gkd/teacher_utils.py:54-138 | which error there is, if any, and what the reused buffer then holds do not depend on what it held before |
| TeacherBuffer.Outcomes | recipe/gkd/teacher_utils.py:54-121 | exactly when a call succeeds and when it stops with which error: the requests are the batch in as many equal stretches as there are workers, the answers are their replies in that order, and each must fit the marks of its row |
| TeacherBuffer.AnySplit | recipe/gkd/teacher_utils.py:54-74 | for a teacher that answers sequence by sequence, every number of workers gives the same buffer; row i reads back its answer at the marked places and is zero elsewhere |
| TeacherBuffer.ReadsBack | recipe/gkd/teacher_utils.py:117-121 | a masked scatter reads back its rows in order |
| TeacherBuffer.SelectAt | recipe/gkd/teacher_utils.py:54-55 | a marked token of a sequence is sent behind the marked ones before it |
| TeacherBuffer.Padded.Reset | recipe/gkd/teacher_utils.py:97-115 | an all-zero buffer of the wanted shape, new or the old one zeroed |
| JsonLoops.Extract | recipe/collabllm/utils.py:210-219 | the loops of the program compute the recursive parser |
| JsonLoops.ReadObject | recipe/collabllm/utils.py:118-144 | the loop over members is the recursive one |
| JsonLoops.ReadString | recipe/collabllm/utils.py:86-108 | the loop over characters and escapes is the recursive one |
| JsonSound.ValueSound | recipe/collabllm/utils.py:53-208 | what the parser reads is the text of a tree of the grammar, and its value is what the tree means |
| JsonComplete.ValueBack | recipe/collabllm/utils.py:53-208 | the text of every tree is read, wherever an element may end behind it, and as every value it means |
| JsonMeaning.DictOfMore | recipe/collabllm/utils.py:118-137 | one assignment after the other makes the dict of the first spelling and the last value of each key, in the order of the first entries |
| JsonRoundTrip.ExtractExactly | recipe/collabllm/utils.py:53-219 | a value is returned exactly if the text is that of a dict of the grammar that means it, after a text without `{` and before one without `}`; every other text raises |
| JsonRoundTrip.ReadsWriting | recipe/collabllm/utils.py:53-219 | a dict written in any way that the grammar allows is read as its reread form, at any nesting |
| JsonRoundTrip.RoundTrip | recipe/collabllm/utils.py:53-219 | it comes back unchanged exactly when no string or key reads like a literal or a number and no dict repeats a key |
| JsonRoundTrip.CanBeWritten | recipe/collabllm/utils.py:53-219 | every value with string keys is written by some tree, if its numbers can be spelled |
| KlLoss.Forward | recipe/gkd/megatron_kl_loss.py:42-125 | any number of ranks computes the unsharded sum of p * (log p - log(1e-20 + q)) over the targets inside the vocabulary, q being the probabilities of the whole vocabulary, which are left in the shards |
| Basics.Locate | recipe/gkd/megatron_kl_loss.py:63-81 | every index below n blocks of equal size, such as a token of the vocabulary, lies in exactly one of them |
| KlLoss.ProbIsSoftmax | recipe/gkd/megatron_kl_loss.py:44-61 | for a true exponential those probabilities are the softmax of the logits |
| KlLoss.ProbsSumToOne | recipe/gkd/megatron_kl_loss.py:44-61 | they add up to one |
| Prime.MaskedRloo | recipe/prime/prime_core_algos.py:23-42 | on any input the in-place loop computes the leave-one-out rows, with NaN at the marked places of a group that is incomplete or has a row without marks, or raises for groups of none or one |
| Prime.RlooExactly | recipe/prime/prime_core_algos.py:23-42 | which entries are NaN, and what the others are: zero where unmarked, else the reward times n / (n - 1) less the sum of the group's masked means over n - 1 |
| Prime.LeavesOneOut | recipe/prime/prime_core_algos.py:23-42 | in every other group a row's masked mean becomes its own mean less the average mean of the other rows |
| Prime.GroupSumsToZero | recipe/prime/prime_core_algos.py:23-42 | and the means of the group then add up to zero |
| Prime.ReturnsAreSuffixSums | recipe/prime/prime_core_algos.py:74 | flip, cumsum and flip give the sum of the marked rewards from t on |
| Prime.ProcessRewards | recipe/prime/prime_dp_rm.py:187-215 | the in-place trimming, ground-truth adjustment and backward recurrence give the tails of the adapted rewards |
| Prime.AdaptedRewards | recipe/prime/prime_dp_rm.py:187-210 | the adapted rewards are q times beta on the valid tokens and zero behind them; with ground truth the last valid one makes the row add up to the outcome |
| Prime.TailIsDiscounted | recipe/prime/prime_dp_rm.py:212-215 | the recurrence in closed form: the sum over k of lam^k times entry t + k |
| Prime.GroundTruthReturn | recipe/prime/prime_dp_rm.py:205-210 | with ground truth and lam = 1 the first process reward is the outcome, exactly when the row has a valid token or the outcome is 0 |
| Prime.NormDivides | recipe/prime/prime_dp_rm.py:242-246 | batch normalisation divides by 1e-6 more than the largest absolute reward-to-go of all rows |
| Prime.NormBoundsTails | recipe/prime/prime_dp_rm.py:242-246 | after batch normalisation every reward-to-go lies strictly between -1 and 1 |
| BatchAlgebra.PadToDivisor | verl/protocol.py:73-98 | the padding loop: padded row i is row i mod n |
| BatchAlgebra.PadSizeIsLeast | verl/protocol.py:81-96 | the padded length is the least multiple of the divisor not below the length |
| BatchAlgebra.ConcatRow | verl/protocol.py:927-972 | row i of batch j stands at j * s + i of the concatenation |
| BatchAlgebra.ShardedExecution | verl/protocol.py:73-105 | pad, chunk, work row by row, concatenate, unpad: row i of the result is f of row i, for any number of chunks |
| BatchAlgebra.ConcatChunks | verl/protocol.py:875-914 | the chunks of a batch are as many as asked for, of equal size, and concatenate to the batch |
| BatchAlgebra.ChunkFails | verl/protocol.py:875-888 | chunking fails exactly for no chunks or a length that they do not divide |
| BatchAlgebra.FuturesRedistribute | verl/protocol.py:1203-1230 | when a future is handed to another worker group, what its members get, one chunk each, is together the concatenation of the first group's outputs |
| BatchAlgebra.RepeatRow | verl/protocol.py:982-1024 | where copy k of row i stands, interleaved and not |
| BatchAlgebra.RowsStayAligned | recipe/fully_async_policy/ray_trainer.py:305-321 | with prompts and inputs repeated alike, rollout k of input i and copy k of prompt i stand on the same row |
| BatchAlgebra.RolloutsUnite | recipe/fully_async_policy/ray_trainer.py:318-321 | the repeated prompts and their rollouts unite without a conflict exactly when every prompt agrees with its own rollouts |
| BatchAlgebra.PairWithRollouts | recipe/fully_async_policy/ray_trainer.py:318-321 | repeat and union fail exactly then, and otherwise join every rollout to its prompt in every tensor column and give it the prompt's entry in every other column |
| BatchAlgebra.FoldRow | verl/protocol.py:213-230 | row i of a fold holds the rows i * s to i * s + s - 1 |
| BatchAlgebra.FoldFails | verl/protocol.py:213-219 | folding fails exactly for no rows or a length that they do not divide |
| BatchAlgebra.UnfoldFold | verl/protocol.py:213-249 | unfolding a fold gives the batch back |
| BatchAlgebra.ColumnChunksAligned | verl/protocol.py:1026-1063 | row i * n + k holds part k of every split value of row i and the whole of the others |
| BatchAlgebra.UnfoldFails | verl/protocol.py:1026-1063 | it fails exactly if the number of parts is 0 or does not divide the length of a value to split |
| BatchAlgebra.UnionColumns | verl/protocol.py:108-121 | succeeds exactly without a conflict, then holds the entries of both; never loses or changes one of its own |
| BatchAlgebra.DataProto.Union | verl/protocol.py:792-809 | the same for tensors, others and meta_info together, and only for equal sizes |
| BatchAlgebra.UnionIsIdempotent | verl/protocol.py:187-198 | the same union again succeeds and changes nothing |
| Dapo.InformativeIsWorthwhile | recipe/dapo/dapo_ray_trainer.py:250-259 | the standard deviation of a prompt's metrics is positive exactly when two of them differ |
| Dapo.KeptInOrder | recipe/dapo/dapo_ray_trainer.py:255-267 | the kept groups are the worthwhile ones in their order |
| Dapo.KeptOfAppend | recipe/dapo/dapo_ray_trainer.py:263-267 | the groups kept of several generation batches come batch by batch |
| Dapo.FilterKeepsGroups | recipe/dapo/dapo_ray_trainer.py:229-267 | the filter on rows, by standard deviation, keeps exactly the groups with differing metrics (or of one), whole and in order, and counts them |
| Dapo.FilterGroups | recipe/dapo/dapo_ray_trainer.py:244-267 | the dictionary and index loops select the rows of the kept uids |
| Dapo.DapoTrainer.Accumulate | recipe/dapo/dapo_ray_trainer.py:226-288 | one generation batch: ready for an update, more to generate, or the limit reached |
| Dapo.DapoTrainer.Fit | recipe/dapo/dapo_ray_trainer.py:130-405 | every update takes consecutive generation batches, just enough and within the limit, and trains on their first kept groups; when a run ends by the step limit, by lack of data before the generation limit is used up, or by the error of that limit |
| Dapo.UpdatesAreWholeGroups | recipe/dapo/dapo_ray_trainer.py:285-288 | every filtered update is exactly train_batch_size whole groups of n rows, the first ones kept, in each of which two metrics differ unless n is 1 |
| Dapo.UnfilteredUpdates | recipe/dapo/dapo_ray_trainer.py:226-228 | without the filter update k trains on generation batch k as it is |
| ProximalLogProbs.Trainer.OldLogProb | recipe/fully_async_policy/ray_trainer.py:374-394 | save, restore and clear leave the actor's parameters as they were; which parameters the log-probabilities use |
| ProximalLogProbs.Trainer.TriggerParameterSync | recipe/fully_async_policy/fully_async_trainer.py:462-487 | when a step syncs, and what the rollouter then has |
| ProximalLogProbs.Trainer.Fit | recipe/fully_async_policy/fully_async_trainer.py:253-296 | over any number of steps: the parameters of every step's old log-probabilities, the actor's parameters as if nothing was ever restored, and only slot 1 saved |
| ProximalLogProbs.ProximalStep | recipe/fully_async_policy/ray_trainer.py:374-391 | in proximal mode the steps between two syncs share the parameters of the first of the two |
| ProximalLogProbs.ActorWorker.RestoreModelFromCpu | recipe/fully_async_policy/fsdp_workers.py:142-146 | a restore takes the slot's parameters, does nothing without the slot, and raises exactly before the first save |

## Left out

- AsyncModel.SetMaxRequiredSamples: `total_train_steps` is left out; it only feeds the trainer's progress bar.
- AsyncProgram.FullyAsyncProgram.PutResult: merges the put's remote call and the removal of the task into one step; between the two the source counts the sample in both places.
- AsyncActors.MessageQueue.PutSample: the statistics (`total_generated_samples`, memory estimates) and the serialisation of samples are not modelled.
- AsyncStaleness.SamplesAreFresh: the monitor's check and its unpausing are one step; a monitor that unpauses between pause and resume is covered by the additional version.
- `clear_queue` and `shutdown` of the message queue are called in the repository only when training is over, if at all, and the modelled program does not call them; its validation queue and the checkpoints carry no samples and are left out.
- The length of the feed is a free choice, and so is the extra sync at the end of training, which depends on a validation frequency.
- Schedulers.OneStepOffScheduler: checkpoints, metrics and validation inside the training loop are left out; a teacher failure is a free choice per request.
- Schedulers.OneStepOffTrainer: rewards, critic and reference steps are left out; the critic warm-up decides which steps update the actor.
- TeacherBuffer.GetTeacherKnowledge: one buffer stands for the two that are filled alike; a row's width (top-k) and dtypes are not modelled, and a future is asked once (the schedulers are proved to ask once).
- Broadcast.SyncActor: dtypes, their assertions and conversions, and views that alias the buffer after `to_tensors`, are not modelled.
- JsonRoundTrip.ExtractExactly: a float is the token that the number parser returns, so Python's equality of 1 and 1.0 as keys is not modelled; letter case is ASCII; Python's recursion limit is not modelled.
- KlLoss.Forward: one token of the batch, as tokens do not interact; `backward` is left out, because masked targets share column 0 and an in-place subtraction with repeated indices does not accumulate.
- Prime.MaskedRloo: NaN is the mean of nothing; infinities and rounding are not modelled, and the input rewards are numbers.
- Prime.ProcessRewards: one row, as rows do not interact; the copy of r into `token_level_score` and the sum of several reward sources are left out.
- BatchAlgebra.ShardedExecution: meta_info and its metrics, device placement and the automatic padding option are left out; an empty batch is left to the tensor library.
- BatchAlgebra.PairWithRollouts: the rollouts bring columns of tensors only; other columns and meta_info that they may bring meet the same union.
- BatchAlgebra.UnionColumns: equality of columns is plain equality; NaN entries and cyclic objects are not modelled.
- `split`, `reorder` and serialisation in `verl/protocol.py`: plain slicing and library byte layouts.
- Dapo.DapoTrainer.Fit: metrics are reals, so the rounding of `np.std` is not modelled; the reordering by `_balance_batch` after the batch is cut, advantages and the update itself are left out.
- ProximalLogProbs.Trainer.Fit: the forced sync after the last step and the sharding of saved states are left out.
- The copies of the JSON parser and of the DAPO loop elsewhere in the repository, dataset preprocessing, reward models and command-line entry points.
