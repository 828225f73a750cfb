# Verified model of a vLLM-based serving engine for diffusion language models

The repository serves language models, among them diffusion models that fill in masked output positions block by
block. This project models its decoding loop, its CPU attention kernels and the request bookkeeping around them,
and proves what they promise over all inputs, all runs and all orders of the parallel loops.

| file | models |
|---|---|
| `BlockDiffusion.dfy` | block-wise denoising: sampler, scheduler record, worker tokens and front end as one state machine |
| `DenoisingFailures.dfy` | runs in which denoising goes wrong, and when there are such runs |
| `Reals.dfy`, `Softmax.dfy`, `SoftmaxKernels.dfy`, `SplitAttention.dfy` | softmax reductions, and the merge of partial softmaxes |
| `Lanes.dfy`, `PagedHead.dfy`, `PagedAttention.dfy`, `PagedAttentionV2.dfy` | lane kernels and both paged attention kernels |
| `Radix.dfy`, `BlockCache.dfy`, `ReshapeAndCache.dfy`, `CachedAttention.dfy` | cache layout, the scatter kernel, and cache plus attention end to end |
| `SequenceData.dfy` | sequence state, its replication to workers, and the decode fast path |
| `OutputStream.dfy`, `StopStrings.dfy`, `StopRules.dfy` | streaming of text and tokens, stop rules over whole generations, and how much text must be held back |
| `ParallelSampling.dfy`, `SampleGroup.dfy`, `OutputMerge.dfy` | n-way sampling: assembly, exactly-once output, merging of deltas |
| `CudaGraphPadding.dfy` | capture sizes and the padding table |
| `ScalarType.dfy`, `FloatFormat.dfy` | ids of numeric types in Python and C++, and floating-point maxima |
| `BadWords.dfy` | the bad-words logits processor |
| `RmsNorm.dfy` | RMS norm, plain and fused with the residual addition |
| `Wrappers.dfy`, `Arithmetic.dfy` | optional values, quotients and remainders |

Conventions. Kernel arithmetic is over `real`; the exponential is any positive function with the addition law, and
`1 / sqrt` any function. Loops marked parallel take a schedule, a sequence with every work item once in any order.
Read-only tensors are sequences, written ones arrays, and objects with mutable fields classes; each state-changing
method is tied to a function on the object's abstract value, and statements about whole runs are proved for those
functions. Samplers, model predictions and message delays are inputs of a step, so a statement about every run
covers every behaviour of theirs.

Where the code falls short of what it is meant to do, one lemma gives a failing input or run, and another the exact
condition:

- The scheduler stores decoded tokens relative to the prompt in a list that starts with the prompt
  (`Denoising.MisplacedStep`, `Denoising.SchedulerCopyIff`).
- Predicting the mask token can leave masks in a finished output (`DenoisingFailures.MaskIsLeft`,
  `Denoising.RunAccounts`), and trip the scheduler's assertion on its counter (`DenoisingFailures.AssertionTrips`,
  `DenoisingFailures.SomeRunFailsIff`).
- Caching suffixes without prefixes moves a block that has been begun out of the executed stretch
  (`DenoisingFailures.BegunBlock`, `DenoisingFailures.SomeRunMissesBlockIff`). Only requests that can no longer meet
  their deadline, or that keep their confidence threshold, get that far. For the others the estimate of the remaining
  steps raises first, because no branch of it covers this configuration.
- The documentation of `stop` promises output without the stop strings, but only the first listed match is cut, and
  nothing is checked before the minimum number of tokens (`StopStrings.SurvivesEarly`, `StopStrings.SurvivesBehind`,
  `StopStrings.OutputIsCleanIff`).
- The largest value of an IEEE 754 format with one exponent bit is overstated (`FloatFormat.OneExponentBit`,
  `FloatFormat.LargestIff`).
- Type ids collide for members out of range (`ScalarTypes.OutOfRangeCollides`, `ScalarTypes.LookupsAreExact`).

One hazard of an interface is not reached by the engine: a snapshot of a sequence keeps its tokens pending, so a delta
that followed it would send them again (`Replication.TokenArrivesTwice`, `Replication.LooseReplicasAgreeIff`). The
engine appends tokens only after it has computed some, so nothing is pending at a snapshot, and its replicas always
agree (`Replication.ReplicasAgree`).

The comment on capture sizes describes `[1, 2, 4]` and multiples of eight; the code captures multiples of the block
size, which is what is modelled.

## Model

| member | source | states |
|---|---|---|
| `Unmasking.ChosenAre` | vllm/v1/sample/sampler.py:217-262 | A denoising step picks distinct masked positions of the block, at least one while any is left: exactly those whose confidence beats the threshold, or, if none does, the first of the most confident masked ones |
| `Unmasking.PicksHit` | vllm/v1/sample/sampler.py:206-270 | Seen from the whole token buffer, the picks are distinct masked absolute positions of the current block, and there are none only if the block has no mask |
| `Unmasking.BlockPicksAre` | vllm/v1/sample/sampler.py:255-270 | Every pick carries the token that the model predicted for its own position |
| `TokenBuffers.WriteMasks` | vllm/v1/worker/gpu_model_runner.py:1053-1062 | Storing picks at distinct masked positions removes one mask per pick, except for picks of the mask token itself |
| `TokenBuffers.WriteHits` | vllm/v1/worker/gpu_model_runner.py:1053-1062 | A picked position holds the token of its pick afterwards |
| `BlockDiffusion.Request.constructor` | vllm/v1/request.py:90-133 | A new request: prompt followed by masks, first block right behind the prompt, one block if no block size is given |
| `BlockDiffusion.Request.UpdateFromOutput` | vllm/v1/request.py:188-256 | The scheduler's record after a step, with block roll-over and all counters; false exactly when one of the assertions on count and positions fails |
| `BlockDiffusion.Detokenizer.constructor` | vllm/v1/engine/detokenizer.py:91-99 | The front end starts with a mask at every output position and a count of zero |
| `BlockDiffusion.Detokenizer.Update` | vllm/v1/engine/detokenizer.py:101-139 | The front end's tokens and count after a step: positions outside the output are ignored, and only masked ones are counted; reports completion by its count |
| `Denoising.NewIsFresh` | vllm/v1/request.py:90-133 | Creation fails exactly when a positive block size does not divide the output length; otherwise the request has the given prompt, mask and lengths, its output is all masks, and it is one block if no block size is given |
| `Denoising.StepFillsIn` | vllm/v1/sample/sampler.py:206-270 | In every reachable state of an unfinished request a step fills in at least one masked position of the current block, and never more than the masks it has left |
| `Denoising.StepWrites` | vllm/v1/worker/gpu_model_runner.py:1053-1062 | Position by position, the worker's tokens after a step: a position that was filled in holds the token predicted for it, all others are unchanged |
| `Denoising.FrontFollows` | vllm/v1/engine/detokenizer.py:119-127 | On the picks of a step the front end counts every pick and ends up with the worker's output tokens |
| `Denoising.FrontConserves` | vllm/v1/engine/detokenizer.py:101-139 | Whatever arrives, repeatedly or outside the output, tokens counted and masks left go up together by the mask tokens received |
| `Denoising.CompleteIff` | vllm/v1/engine/detokenizer.py:101-139 | A front end that has received no mask token counts its output as complete if and only if no mask is left |
| `Denoising.StepKeepsInv` | vllm/v1/request.py:188-256 | Every step that does not fail keeps block order, all three counters, agreement of worker and front end, and the conservation of masks per block and overall |
| `Denoising.StopsAfterLastBlock` | vllm/v1/core/sched/utils.py:24-35 | The request stops exactly when all of its blocks are finished, and never has more tokens than its output length |
| `Denoising.FailsIff` | vllm/v1/request.py:202-206 | A step fails exactly when it fills in more positions than the scheduler believes are left in the block |
| `Denoising.CanFailIff` | vllm/v1/request.py:202-206 | Step by step: in a reachable unfinished state some prediction makes the scheduler's assertion fail if and only if the mask token itself has been filled in within the current block |
| `DenoisingFailures.AssertionTrips` | vllm/v1/request.py:202-206 | For every request whose blocks have more than one token, a run of one step after which the scheduler's assertion fails in the next: the mask token filled in without confidence, then every masked position with confidence |
| `DenoisingFailures.SomeRunFailsIff` | vllm/v1/request.py:202-206 | Some run of a request trips the scheduler's assertion if and only if its blocks have more than one token |
| `DenoisingFailures.MaskIsLeft` | vllm/v1/request.py:188-256 | For every request, a run that stops with a mask left in the output |
| `Denoising.RunAccounts` | vllm/v1/request.py:188-287 | In every run, whatever is predicted: prompt kept; front end has the worker's output and the scheduler's count; at most one step per output token; recompute steps run and still expected add up to the number of blocks; and at the stop the output is complete if and only if the mask token was never filled in |
| `Denoising.Provenance` | vllm/v1/worker/gpu_model_runner.py:1053-1062 | In every run, each token of the worker is the one it had at the start or one that some step predicted for its own position |
| `Denoising.OutputIsPredicted` | vllm/v1/request.py:188-256 | In every run of a request, whatever is predicted, an output position is masked or holds a token that some step predicted for it |
| `Denoising.HonestRunsComplete` | vllm/v1/request.py:188-256 | If the mask token is never predicted, no assertion fails in any run, and within as many steps as output tokens the request has stopped, the prompt intact, with every output position holding a token that some step of the run predicted for that position |
| `Denoising.MisplacedStep` | vllm/v1/request.py:247-254 | For every non-empty prompt, a one-step run after which the scheduler's token list differs from the worker's tokens |
| `Denoising.SchedulerCopyIff` | vllm/v1/request.py:247-254 | The scheduler's list of all tokens equals the worker's tokens in every run if and only if the prompt is empty, since tokens are stored relative to the prompt in a list that starts with the prompt |
| `DenoisingFailures.BegunBlock` | vllm/v1/request.py:238-245 | If blocks have more than one token and there is a prompt or a second block, a run into a block that has been begun and that tokens precede |
| `DenoisingFailures.SomeRunMissesBlockIff` | vllm/v1/core/sched/tediserve_scheduler.py:953-966 | Some run reaches a step whose executed stretch leaves out part of the current block if and only if suffixes are cached without prefixes, the deadline can no longer be met or the threshold is kept (otherwise the estimate raises first), blocks have more than one token, and there is a prompt or a second block |
| `Denoising.BlockIsExecutedIff` | vllm/v1/core/sched/tediserve_scheduler.py:1132-1151 | The current block lies within the executed stretch if and only if it is not the case that suffixes alone are cached, the block has been begun and tokens precede it |
| `Denoising.ExecutedTokens` | vllm/v1/core/sched/tediserve_scheduler.py:1137-1144 | In every reachable state the executed stretch lies within the tokens and is the block, what precedes it unless cached, and what follows it unless cached; in the failing case it is the first tokens instead |
| `DenoisingFailures.EstimateIs` | vllm/v1/core/sched/tediserve_scheduler.py:953-968 | The estimate is unbound if and only if suffixes alone are cached; otherwise its parts add up to the larger of predicted and recomputing steps, and with prefixes cached one step is recomputed per block not yet begun |
| `SoftmaxKernels.ReduceSoftmax` | csrc/cpu/attention.cpp:81-105 | In place: entries become exp(x - max) / sum, padding becomes zero; returns maximum and sum |
| `SoftmaxKernels.ReduceSoftmaxAlibi` | csrc/cpu/attention.cpp:107-137 | The same after adding the position bias slope * (start + i - seq_len + 1) to every logit |
| `SoftmaxKernels.BiasIsDistance` | csrc/cpu/attention.cpp:107-137 | The position bias is minus the slope times the number of later tokens: nothing for the last token, and one slope more per token |
| `SoftmaxKernels.ReducePartitionSoftmax` | csrc/cpu/attention.cpp:139-156 | In place: partition sums become the merge factors exp(max_i - max) * sum_i / (merged sum + 1e-8) |
| `Softmax.ShiftInvariance` | csrc/cpu/attention.cpp:81-105 | Subtracting any number from all logits before exponentiation gives the textbook attention |
| `Softmax.AttentionIsMean` | csrc/cpu/attention.cpp:81-105 | The textbook attention is a weighted mean: it lies between any bounds of the values |
| `SplitAttention.MaxOfMaxes` | csrc/cpu/attention.cpp:142-145 | The maximum of the partition maxima is the global maximum |
| `SplitAttention.MergedSumIsDenominator` | csrc/cpu/attention.cpp:147-152 | The merged sum is the global softmax denominator, and it is at least one |
| `SplitAttention.MergeTheorem` | csrc/cpu/attention.cpp:139-156 | Merging the partition outputs gives the unsplit attention times R / (R + 1e-8), R the global denominator |
| `SplitAttention.MergeError` | csrc/cpu/attention.cpp:153-155 | For R at least one that is a relative error of at most 1e-8 |
| `Lanes.AccumulateFull` | csrc/cpu/attention.cpp:181-197 | Full block: every accumulator holds, lane by lane, the partial dot products of its tokens |
| `Lanes.AccumulatePartial` | csrc/cpu/attention.cpp:198-219 | Partial block: the same for every group that holds a valid token, without touching an accumulator beyond the last |
| `Lanes.StoreLogits` | csrc/cpu/attention.cpp:221-232 | The lane sums of a group are stored as scaled logits of its tokens, all within the block |
| `Lanes.QKBlock` | csrc/cpu/attention.cpp:174-233 | For every number of valid tokens from 1 to 16 and both cell widths, logit t of the block is scale times the dot product of the query with key t, and logits outside the block are unchanged |
| `Lanes.ReduceValueBlock` | csrc/cpu/attention.cpp:236-250 | Adds, lane by lane, the products of weights and values of a block to every accumulator of a head group |
| `PagedHead.ComputeLogits` | csrc/cpu/attention.cpp:303-315 | Through the block table, logit t of a head is the scaled dot product with the key of token t |
| `PagedHead.ComputeWeights` | csrc/cpu/attention.cpp:317-324 | The logits of a range become softmax weights, with or without position bias, and zero in the padding |
| `PagedHead.ComputeValues` | csrc/cpu/attention.cpp:326-349 | Per output element, the weighted sum of the value column over all slots of the blocks |
| `PagedHead.PaddingDot` | csrc/cpu/attention.cpp:336-349 | Slots of the last block beyond the sequence contribute nothing |
| `PagedHead.AttendRange` | csrc/cpu/attention.cpp:520-625 | One head over a range of tokens: output row, maximum and sum are those of the range alone |
| `PagedAttention.AttendHead` | csrc/cpu/attention.cpp:290-372 | One head of one sequence: the output row is the textbook attention, and no other row changes |
| `PagedAttention.PagedAttentionV1` | csrc/cpu/attention.cpp:254-375 | Whole kernel, rows in any order: every output row is the textbook attention of its head |
| `PagedAttentionV2.AttendPartitions` | csrc/cpu/attention.cpp:510-626 | First parallel loop, in any order: outputs, maxima and sums of every partition, or the final row if there is only one |
| `PagedAttentionV2.RescaleHeads` | csrc/cpu/attention.cpp:628-647 | Second loop: the sums of every head with several partitions become merge factors |
| `PagedAttentionV2.MergeGroups` | csrc/cpu/attention.cpp:649-688 | Third loop: every 16-element group of such a head becomes the factor-weighted sum of its partition outputs |
| `PagedAttentionV2.PagedAttentionSplit` | csrc/cpu/attention.cpp:479-689 | Whole kernel, all loops in any order: every row is exact for up to 512 tokens, and the attention times R / (R + 1e-8) beyond |
| `PagedAttentionV2.SplitIsClose` | csrc/cpu/attention.cpp:649-688 | The split value is the textbook attention for up to 512 tokens, and within a relative error of 1e-8 of it in any case |
| `PagedAttentionV2.KernelsAgree` | csrc/cpu/attention.cpp:479-689 | Both kernels give equal elements for one partition, and differ by at most 1e-8 of the element otherwise |
| `BlockCache.Layout.KeyRoundTrip` | csrc/cpu/cache.cpp:62-75 | Slot, head and dimension can be read back from a key address |
| `BlockCache.Layout.ValueRoundTrip` | csrc/cpu/cache.cpp:77-85 | Slot, head and dimension can be read back from a value address |
| `BlockCache.Layout.KeyCovers` | csrc/cpu/cache.cpp:62-75 | Every key address belongs to a slot, head and dimension |
| `BlockCache.Layout.ValueCovers` | csrc/cpu/cache.cpp:77-85 | Every value address belongs to a slot, head and dimension |
| `BlockCache.Layout.AddrInBounds` | csrc/cpu/cache.cpp:48-87 | Addresses of existing slots lie within the cache |
| `ReshapeAndCache.WriteToken` | csrc/cpu/cache.cpp:55-86 | One token and head: its rows are stored, nothing else changes; negative slots are skipped |
| `ReshapeAndCache.ReshapeAndCache` | csrc/cpu/cache.cpp:41-88 | For distinct slots and any order of the parallel loop, every row reads back and untouched slots keep their contents |
| `ReshapeAndCache.ScheduleIndependent` | csrc/cpu/cache.cpp:50-53 | That contract determines both caches completely, so every order ends in the same state |
| `ReshapeAndCache.StoredElsewhere` | csrc/cpu/cache.cpp:48-87 | A row in a slot that no token of a later call maps to stays where it is |
| `ReshapeAndCache.CacheInCalls` | csrc/cpu/cache.cpp:41-88 | After any sequence of calls, each in any order, every token that no later call overwrites reads back |
| `CachedAttention.EndToEnd` | csrc/cpu/attention.cpp:290-372 | If the caches hold a sequence's rows, the kernels read, through the block table, the textbook logits and value columns of those rows: scaled dot products, less the slope of the head for every later token |
| `CachedAttention.GroupedHeads` | csrc/cpu/attention.cpp:273-296 | The key/value head that a query head reads is the one whose group of consecutive heads it belongs to, and no other |
| `CachedAttention.GroupMember` | csrc/cpu/attention.cpp:504-532 | Head j of the group of key/value head kv, query head kv * group + j, reads key/value head kv |
| `CachedAttention.QueryRead` | csrc/cpu/attention.cpp:278-300 | The kernels read the query row of head h of sequence s at s strides and h rows into the query tensor |
| `CachedAttention.CacheAndAttend` | csrc/cpu/cache.cpp:41-88 | Scattering the tokens of every sequence over any number of calls that do not overwrite live ones, and then running the single-pass kernel, gives for every sequence and head, in its place in the output, the textbook attention over the original rows of the key/value head that serves it |
| `CachedAttention.CacheAndAttendSplit` | csrc/cpu/attention.cpp:479-689 | The same with the partitioned kernel: exact for up to 512 tokens, within a relative error of 1e-8 otherwise |
| `SequenceData.SequenceData.constructor` | vllm/sequence.py:229-242 | Token cache is prompt and output, nothing computed or pending |
| `SequenceData.SequenceData.AppendTokenId` | vllm/sequence.py:319-340 | Token joins output, cache and pending tokens; log-probability accumulates |
| `SequenceData.SequenceData.UpdateNumComputedTokens` | vllm/sequence.py:372-379 | Computed count grows and the stage becomes decoding when nothing is left; fails exactly when it would exceed the length |
| `SequenceData.SequenceData.ResetStateForRecompute` | vllm/sequence.py:389-396 | Back to prefill, with pending tokens dropped |
| `SequenceData.SequenceData.GetDeltaAndReset` | vllm/sequence.py:416-422 | Delta of pending tokens and counters; nothing is pending afterwards |
| `SequenceData.SequenceData.ApplyDelta` | vllm/sequence.py:424-429 | Receiver takes over tokens and counters |
| `SequenceData.SequenceData.GetNumNewTokens` | vllm/sequence.py:659-668 | One when decoding, else the uncomputed count |
| `Replication.StepKeepsInv` | vllm/core/scheduler.py:1603-1665 | Appends, computation, preemption, snapshot and delta sends, and deliveries in order all keep: each message, on arrival, brings the worker to the driver's state when it was sent |
| `Replication.ReplicasAgree` | vllm/worker/worker.py:447-480 | In every run, with any number of messages in flight, the driver has all tokens appended so far, the sum of their log-probabilities and the tokens computed since the last preemption; the worker equals the driver at the last delivered send, and the driver's output is the worker's plus pending tokens once the channel is empty |
| `Replication.SendThenDrain` | vllm/sequence.py:416-429 | After any run, a send followed by delivery of everything makes both agree on tokens, computed count, log-probability and stage |
| `Replication.LooseReplicasAgreeIff` | vllm/core/scheduler.py:1603-1660 | If tokens could be appended at any time: after every run, a send and the delivery of everything make both agree if and only if the send is a snapshot or nothing was pending at the last snapshot |
| `Replication.TokenArrivesTwice` | vllm/sequence.py:416-429 | A run of that kind after which the worker has a token twice |
| `Replication.DeltasAloneAgree` | vllm/sequence.py:389-429 | With deltas alone, both agree after a send if and only if no reset ever dropped pending tokens |
| `DecodePath.FastPathIsExact` | vllm/sequence.py:659-668 | In every run, across preemptions, computed never exceeds the length and the number of new tokens is the real uncomputed count at every step boundary |
| `DecodePath.OneTokenPerStep` | vllm/sequence.py:659-668 | A completing step leaves that count exact if and only if it samples one token |
| `OutputStream.Sequence.GetOutputTextToReturn` | vllm/sequence.py:545-562 | The whole text once finished, before that all but exactly the held-back characters; or the part of that not handed out before, with the offset advanced |
| `OutputStream.Sequence.GetOutputTokenIdsToReturn` | vllm/sequence.py:564-586 | All output tokens, or exactly those not handed out before, read off the tail of the token cache |
| `OutputStream.DeltasAddUp` | vllm/sequence.py:545-586 | Over any run the concatenated deltas are a prefix of text and tokens; after every emission all tokens and exactly all but the last held-back characters have been emitted, and everything once finished |
| `StopStrings.CheckStopStrings` | vllm/engine/output_processor/stop_checker.py:94-131 | The first listed stop string with a match that ends in the new characters, and where to cut |
| `StopStrings.CheckStopIs` | vllm/engine/output_processor/stop_checker.py:94-131 | Without reference to the search: a stop string is found if and only if one occurs such that it ends in the new characters; it is the first listed of these, at its first such place, and the text is cut there, or behind it if it is kept and something follows |
| `StopStrings.MaybeStopSequence` | vllm/engine/output_processor/stop_checker.py:31-92 | Status and truncated text after a token, and the exact condition of every way to stop: nothing before the minimum number of tokens, then end of sequence or stop tokens, then stop strings, then both length limits; otherwise nothing changes |
| `StopStrings.JudgeFollowsRules` | vllm/engine/output_processor/stop_checker.py:31-92 | The decision obeys those rules for every text, token and parameters |
| `StopRules.GenerationIs` | vllm/engine/output_processor/stop_checker.py:31-92 | A generation has the tokens of the steps it took, all of them unless it is finished, and their text, which is cut back at most by the step that finishes it |
| `StopRules.OutputIsBounded` | vllm/engine/output_processor/stop_checker.py:79-92 | If n output tokens are the maximum, at least the minimum, or reach the model length, then every generation and every streamed run has at most n, and n of them end it |
| `StopStrings.HoldBack` | vllm/sampling_params.py:353-356 | With the longest stop string less one character held back, everything streamed in any run is a prefix of the final truncated text, exactly the held-back characters are missing after every emission, and nothing at the end |
| `StopRules.SufficesIff` | vllm/sampling_params.py:353-356 | Holding back b characters is enough in every run if and only if no stop string can be cut more than b characters deep, or generation ends with its first token |
| `StopRules.LongestSuffices` | vllm/sampling_params.py:353-356 | The length that the code chooses is one less than the longest stop string; it is enough, and for a single stop string the least that is |
| `StopRules.ExposedLeaks` | vllm/engine/output_processor/stop_checker.py:94-131 | For a shorter buffer and a stop string that can be cut deeper, a run that streams text which the final output does not have |
| `StopRules.ShorterCanSuffice` | vllm/sampling_params.py:353-356 | With several stop strings a shorter buffer can be enough: when one stop string always cuts the other short |
| `StopStrings.CheckKeepsClean` | vllm/engine/output_processor/stop_checker.py:94-131 | If the first listed stop string occurs in every other one, a check after new characters leaves no stop string in the text |
| `StopStrings.SurvivesEarly` | vllm/engine/output_processor/stop_checker.py:43-46 | A generation that returns a stop string produced before the minimum number of tokens |
| `StopStrings.SurvivesBehind` | vllm/engine/output_processor/stop_checker.py:94-131 | A generation that returns a stop string because the first listed one follows it in the same step |
| `StopStrings.OutputIsCleanIff` | vllm/sampling_params.py:136-137 | The documented promise that the output does not contain the stop strings holds for every generation if and only if checks start with the first token and the first listed stop string occurs in all others |
| `Ranking.RankIsRanked` | vllm/sequence.py:1552-1557 | The ranking is strictly ordered by score and then by index, so without repetition |
| `Ranking.RankContains` | vllm/sequence.py:1552-1557 | Every sequence is ranked |
| `Ranking.TopBeatsRest` | vllm/sequence.py:1552-1558 | Each of the first m beats every sequence that is left out |
| `SampleGroup.ParallelSampleSequenceGroup.constructor` | vllm/sequence.py:1486-1526 | All sub-requests pending, none finished, all sequences in the assembled group |
| `SampleGroup.ParallelSampleSequenceGroup.FinishSeq` | vllm/sequence.py:1470-1474 | A sub-request moves from pending to finished |
| `SampleGroup.ParallelSampleSequenceGroup.SelectTop` | vllm/sequence.py:1547-1557 | The assembled group keeps the m best sequences in ranking order |
| `SampleGroup.ParallelSampleSequenceGroup.MaybeAssembleGroup` | vllm/sequence.py:1528-1562 | Streaming: the group is returned on reports of the first remaining sub-request; otherwise once, when the last remaining one has finished, with as many sequences as the limit says, or all if it is unset, zero or larger than their number |
| `SampleGroup.CollectOutputs` | vllm/outputs.py:232-297 | One numbered completion per sequence; a delta advances the offsets of each |
| `SampleGroup.ParallelSampleSequenceGroup.EmitList` | vllm/outputs.py:200-297 | Output of any list of the sequences; no other sequence changes; nothing before the end for final-only requests |
| `SampleGroup.ParallelSampleSequenceGroup.EmitGroup` | vllm/outputs.py:197-198 | Output of the assembled group |
| `SampleGroup.ParallelSampleSequenceGroup.FromRegistered` | vllm/outputs.py:180-198 | The path of a registered sub-request: assembly, finishing, clearing of the registry and output |
| `SampleGroup.ParallelSampleSequenceGroup.FromSeqGroup` | vllm/outputs.py:175-198 | The whole path of a report; a sub-request that is not registered is output on its own |
| `ParallelSampling.OutcomeKeepsInv` | vllm/sequence.py:1470-1562 | Generation, finishing, reports and engine clean-up in any interleaving keep: pending and finished partition the ids, pending ids are registered, and none is once all are done |
| `ParallelSampling.StreamingStep` | vllm/sequence.py:1531-1538 | While streaming, an event yields output if and only if it reports the first remaining sub-request |
| `ParallelSampling.DeltaReport` | vllm/outputs.py:232-297 | A streaming output has one entry per sample, at its index and with its finished flag, and is finished when all are |
| `ParallelSampling.SamplesAddUp` | vllm/sequence.py:319-340 | In every run each of the n samples has exactly the tokens, text, end and summed log-probability that its own events gave it |
| `ParallelSampling.StreamingLosesNothing` | vllm/outputs.py:182-198 | In every interleaving, the deltas of a sample are at all times a prefix of the text and tokens its events generated, and all of them once the last sub-request has been reported finished; then no id is registered |
| `ParallelSampling.AssemblyStep` | vllm/sequence.py:1540-1562 | Without streaming, an event yields output if and only if it reports the last remaining sub-request as finished |
| `ParallelSampling.AssembledOnce` | vllm/outputs.py:185-198 | Without streaming, every run yields nothing until then and exactly one output after: the complete generated texts and tokens of m samples for a limit m from 1 to n, and of all n otherwise; with a limit, best first by summed log-probability and then index, each better than every one left out; no id stays registered |
| `OutputMerge.RequestOutput.Absorb` | vllm/outputs.py:150-173 | A completion is merged into the first entry with its index, replaces it, or is appended |
| `OutputMerge.RequestOutput.Add` | vllm/outputs.py:144-173 | Merging a whole output, object by object |
| `OutputMerge.MergeKeepsUnique` | vllm/outputs.py:150-173 | Merging never lets two entries share an index |
| `OutputMerge.MergeAdds` | vllm/outputs.py:155-160 | For arbitrary entries, aggregation leaves per index the old text and tokens followed by everything that arrived for it |
| `OutputMerge.MergeReplaces` | vllm/outputs.py:161-173 | Without aggregation, the last entry that arrives for an index takes the place of the old one, and other indices keep theirs |
| `OutputMerge.FoldFinishes` | vllm/outputs.py:144-148 | The merged output is finished if and only if one of its parts is |
| `OutputMerge.DeltasFoldToCumulative` | vllm/outputs.py:144-173 | At every output of every streaming run, the merged deltas are exactly the entries a cumulative request would have yielded, with distinct indices |
| `CudaGraphPadding.SortDescIsSorted` | vllm/config.py:4455-4456 | Capture sizes end up as a descending permutation |
| `CudaGraphPadding.FillStretch` | vllm/config.py:4464-4470 | Fills the entries between neighbouring sizes with the least captured size that fits |
| `CudaGraphPadding.BuildTable` | vllm/config.py:4457-4472 | For every descending list, duplicates and zero included, the table is right from zero to the largest size |
| `CudaGraphPadding.CompilationConfig.InitWithCudagraphSizes` | vllm/config.py:4424-4472 | The user's sizes, or else the computed ones, sorted, with a table that maps every batch size up to the largest to the least captured size that fits |
| `CudaGraphPadding.PaddingIsLeast` | vllm/config.py:4667-4672 | Lookup succeeds if and only if some captured size fits, gives the least such, and is monotone and idempotent |
| `CudaGraphPadding.PaddingDomain` | vllm/config.py:4667-4672 | Lookup fails if and only if the batch size is beyond the table on either side; negative sizes count from its end |
| `CaptureSizes.LcmDivides` | vllm/config.py:4865-4883 | Being a multiple of block size and parallel size is being a multiple of their least common multiple |
| `CaptureSizes.CapturedAre` | vllm/config.py:4944-4970 | With one configured size exactly the positive multiples of the unit within that size and the token limit are captured |
| `CaptureSizes.SeveralCaptured` | vllm/config.py:4944-4970 | With several configured sizes exactly those within the token limit, and divisible by the parallel size under sequence parallelism, are captured |
| `CaptureSizes.CaptureOutcome` | vllm/config.py:4885-4970 | The exact conditions of both errors, and that sizes are captured only outside eager mode and with blocks of some tokens or several sizes |
| `CaptureSizes.PaddingRoundsUp` | vllm/config.py:4944-4970 | Then every batch that fits is padded to the least multiple of the unit, and fits if and only if such a multiple is within the limits |
| `CaptureSizes.SetCudagraphSizes` | vllm/config.py:4885-4970 | Completes a configuration, with both error cases; with one configured size that closed form for every batch size up to the largest captured one, with several exactly the sizes that pass the filters |
| `Bits.AndMask` | vllm/scalar_type.py:148-152 | Masking with w ones is reduction modulo 2^w, for negative numbers too |
| `Bits.OrDisjoint` | vllm/scalar_type.py:148-152 | Or-ing above the highest bit adds |
| `Bits.ExtractPack` | csrc/core/scalar_type.hpp:142-157 | For any list of fields, shift and mask read every packed field back, reduced to its width |
| `Bits.PackInjective` | vllm/scalar_type.py:138-166 | Two packed numbers are equal if and only if all fields agree modulo their widths |
| `Bits.PackWordIsPack` | csrc/core/scalar_type.hpp:124-137 | Packing in machine words never wraps while the fields fit below the sign bit |
| `ScalarTypes.IdIsPacked` | csrc/core/scalar_type.hpp:124-137 | The C++ id is the plain packed number of 58 bits |
| `ScalarTypes.IdIs` | vllm/scalar_type.py:138-166 | The id written out: exponent, mantissa, sign, bias, finiteness and NaN style at bits 0, 8, 16, 17, 49 and 50, each reduced to its width |
| `ScalarTypes.RoundTrip` | csrc/core/scalar_type.hpp:142-157 | A type is read back from its id if and only if its members are in range, negative 32-bit biases included |
| `ScalarTypes.IdMap.ComputeId` | vllm/scalar_type.py:138-166 | The Python loop computes the same number as C++ and records the type under it |
| `ScalarTypes.IdsInjective` | vllm/scalar_type.py:138-166 | Ids are equal if and only if the members agree modulo their widths; in range, if and only if the types are equal |
| `ScalarTypes.OutOfRangeCollides` | vllm/scalar_type.py:154-159 | Two different out-of-range types with the same id |
| `ScalarTypes.MapIsSound` | vllm/scalar_type.py:164 | In every run, each recorded type sits under its own id |
| `ScalarTypes.LookupsAreExact` | vllm/scalar_type.py:303-308 | In every run, looking up ids gives every type back if and only if no two different types agree modulo the widths |
| `ScalarTypes.InRangeLookups` | vllm/scalar_type.py:303-308 | Types with members in range are never confused, by either implementation |
| `FloatFormat.BuiltFields` | vllm/scalar_type.py:76-105 | Mantissa and exponent of the built double sit in their fields, which make it normal, finite and positive |
| `FloatFormat.BuiltIff` | vllm/scalar_type.py:73-89 | A double is built if and only if the mantissa has at most 52 bits and the exponent at most 11, or 10 without IEEE 754 NaNs; equivalently, if the fields of a double can hold the largest mantissa and exponent |
| `FloatFormat.BuiltValue` | csrc/core/scalar_type.hpp:178-213 | Its value is that of a normal number with the largest exponent and mantissa of the format |
| `FloatFormat.LargestIff` | vllm/scalar_type.py:72-105 | That is the largest finite value of the format, attained and not exceeded, if and only if the format is not IEEE 754 with a single exponent bit |
| `FloatFormat.OneExponentBit` | vllm/scalar_type.py:72-105 | An IEEE 754 format with one exponent bit whose built double is not its largest value |
| `FloatFormat.MinIsNegatedMax` | vllm/scalar_type.py:119-127 | Setting the sign bit gives a normal finite double of the opposite value |
| `FloatFormat.MinBuiltIff` | vllm/scalar_type.py:119-127 | A smallest value is built if and only if the type is signed and its largest value is built |
| `BadWords.NoneInvalid` | vllm/logits_process.py:105-119 | Nothing is reported if and only if every id is in the vocabulary |
| `BadWords.InvalidAre` | vllm/logits_process.py:105-119 | Every occurrence of an id outside the vocabulary is reported, and nothing else |
| `BadWords.NoBadWordsLogitsProcessor.constructor` | vllm/logits_process.py:52-54 | No bias has been built yet |
| `BadWords.NoBadWordsLogitsProcessor.CheckTokenIdsBounds` | vllm/logits_process.py:105-119 | The out-of-vocabulary ids, in order |
| `BadWords.NoBadWordsLogitsProcessor.InitWordBias` | vllm/logits_process.py:88-103 | The lazily built bias bans exactly the one-token words |
| `BadWords.NoBadWordsLogitsProcessor.LastTokenBias` | vllm/logits_process.py:64-81 | The bias against the past bans exactly the tokens that would complete a longer word; fails if and only if some word is empty |
| `BadWords.NoBadWordsLogitsProcessor.Call` | vllm/logits_process.py:56-86 | A logit becomes minus infinity if and only if its token would complete a banned sequence, all others are unchanged, and both errors occur exactly when they should |
| `BadWords.SafeGeneration` | vllm/logits_process.py:56-86 | A generation never picks a banned token if and only if it contains no banned sequence |
| `BadWords.Generate` | vllm/logits_process.py:56-86 | Sampling with the processor takes exactly the picks that are possible and complete no banned sequence: none is ever generated, and picks that contain none are all taken |
| `RmsNorm.SquareSum` | csrc/cpu/layernorm.cpp:16-23 | Eight strided lanes add up to the flat sum of squares |
| `RmsNorm.NormRow` | csrc/cpu/layernorm.cpp:14-39 | One row normalised, all others unchanged |
| `RmsNorm.NormedMeanSquare` | csrc/cpu/layernorm.cpp:24-39 | With unit weights and a true reciprocal root, normalising turns the mean square q of a row into q / (q + epsilon) |
| `RmsNorm.Norm` | csrc/cpu/layernorm.cpp:4-41 | All rows in any order; refuses, and changes nothing, exactly when the hidden size is not a multiple of eight |
| `RmsNorm.AddAndSquare` | csrc/cpu/layernorm.cpp:57-70 | First fused pass: the residual row becomes the sum, and the lanes its sum of squares |
| `RmsNorm.FusedAddNorm` | csrc/cpu/layernorm.cpp:44-87 | All rows in any order: residual rows become sums, input rows the normalised sums |
| `RmsNorm.FusedIsTwoSteps` | csrc/cpu/layernorm.cpp:44-87 | For any orders of the rows, the fused kernel leaves the sum in the residual, and in the input what normalising the sum gives, row by row |

## Left out

- Floating-point rounding, NaN, infinities and integer overflow in the kernels, and half and bfloat16 conversions;
  the fused norm in bfloat16 uses an unrounded sum and would differ from the two steps.
- The AVX512-BF16 lane variant and prefetching.
- Interleaving inside one work item of a parallel loop; items run one after the other in any order.
- Empty sequences in attention, block-sparse attention, and non-contiguous cache strides in the end-to-end statement.
- `copy_blocks`, the MLA cache kernel and activation kernels: they would only add easy members.
- StopRules.SufficesIff: covers stop checks from the first token on, and stop strings that are not kept, because otherwise text that is never checked, or never cut, may be shown; `StopStrings.HoldBack` covers every minimum.
- PagedAttentionV2.PagedAttentionSplit: the merge is stated with the code's 1e-8 in the denominator, not as exact.
- The rest of the TeDiServe scheduler: admission, load control, latency estimates and reconfiguration.
- How the model produces tokens and confidences; they are arbitrary inputs of a denoising step.
- Sharing of token lists by reference between scheduler, worker and outputs; lists are values here.
- BadWords.NoBadWordsLogitsProcessor.Call: requires logits of one vocabulary size over the life of a processor, because a size mismatch is a tensor error outside this code.
- Turning bad words into token ids, and the tokenizer.
- OutputMerge.RequestOutput.Add: requires distinct entries that the two outputs do not share, and leaves out log-probability lists.
- SampleGroup.ParallelSampleSequenceGroup.FromSeqGroup: a registered sub-request must be pending when it finishes, and streaming needs a pending one, because the source raises otherwise; sub-request ids are indices, and the cached-output path is left out.
- Aborted requests, and negative values of `n` in sampling parameters.
- CudaGraphPadding.CompilationConfig.InitWithCudagraphSizes: capture sizes are non-negative, and compile sizes are left out.
- Capture sizes of the V0 engine.
- ScalarType names, `is_ieee_754` and `has_nans` of the Python side, and the extremes of integer types: they would only add easy members.
- FloatFormat.LargestIff: leaves out types built with infinities but without IEEE 754 NaNs, because nothing defines which of their encodings are infinite and so which values are finite.
- Logprob lists, multimodal and LoRA fields, metrics and timestamps.
