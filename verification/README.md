# AgentJet: a verified model of the training data path

This project models the parts of AgentJet that decide which episodes reach training, and what becomes of their tokens, and
proves what those parts promise. `dafny verify dfyconfig.toml` checks everything.

Code that updates state in the original is imperative here: loops, classes and arrays whose methods are proved equal to a
function of their inputs or of the old state. The promises are then proved about those functions, over all inputs and all runs.
Concurrent code is a transition system whose steps interleave in any order; a run is any sequence of enabled steps.

## The modules

- `SwarmEpisode`, `TaskGroups`, `TaskTargets`, `RolloutPool`: one remote episode, the shared map of finished episodes, what its
  counts and the dummy filter mean for a batch, and the pool of threads that fills the map. A check takes a snapshot of the keys,
  reads one entry a step, and then clears, decides and raises flags in further steps.
- `PoolCounting`, `PoolStopping`: what such a count sees while others file, when the pool stops, and by how much it overshoots.
- `PoolClearing`, `PoolSchedules`, `BatchGuarantee`, `PoolExamples`: what a check that clears the map does to all this.
- `LossMask`, `Samples`, `BatchTensors`, `TimelineRows`: from the tokens of an LLM answer to a padded row of the training batch.
- `Advantage`, `LearningSignal`: group-relative advantages at episode and at sample level, loss weights, and what dropping dummy
  tasks does to them. Floating-point numbers are reals; the standard deviation is any non-negative function of the group.
- `PromptPatch`, `ToolGroups`: repairing the tokens of the tracked history, and merging chained tool responses.
- `Repetition`: the repetition detector.
- `TokenizerService`, `CacheRecency`: the tokenizer cache service as an event loop with out-of-order completions, and which keys its
  cache keeps.
- `GroupSemaphore`, `PeriodicDrain`: the bounded executors, and the training loop that relies on them.
- `TokenLimitSearch`: the least-squares search for the largest token count.
- `KeySubstitution`, `ExpressionKeys`, `ConfigExpression`, `ConfigAlign`, `YamlScanner`: rewriting, aligning and annotating configurations.
- `PyList`: Python's slices and list repetition.

## Where the code does not keep its promise

- A stop condition that finds too many cached episodes clears the map and still returns its verdict from the counts before the
  clear. If a worker's verdict was true it stops the pool, while the main thread polls an empty map for ever:
  `PoolSchedules.StuckReachableIff` says exactly when that can happen from there, and `PoolExamples.ClearingCheckStrandsMain` is a run.
  If the main thread's own verdict was true it stops the pool and may collect an empty batch: `BatchGuarantee.BatchIsSureIff` says
  exactly when every batch is sure to meet the target, and `PoolExamples.MainPollEmptiesBatch` is a run. The results about
  stopping therefore say "without clears"; in episode mode nothing is ever cleared and they hold outright.
- `filter_out_dummy_tasks` says dropped tasks have zero advantage. A lone episode is dropped too, and may carry signal unless its
  reward is zero: always under the episode-level estimator (`LearningSignal.DroppedTaskSignal`), and under the sample-level one if
  it has a single timeline (`LearningSignal.DroppedTaskSampleSignal`).
- `tokenize_steps` means to report a timeline without trained messages by an assertion. It never does: the index -1 reads the last
  mask entry and walks on, so the call either raises an index error or splits after 99 tokens: `Samples.UntrainedTimeline`.
- A submission that raises inside `submit_group` keeps its permit for ever: `GroupSemaphore.PermitsLeakExactlyOnRaise`.
- A first, blocking submission that raises has been counted but not buffered: `PeriodicDrain.FirstRejected`.
- The visitor that collects the keys of an expression never looks below an attribute, so it misses paths in the value of an attribute
  that is not a path itself: `ExpressionKeys.KeysAreMaximalPathsIff`, and `max(a.b, 1).real` in `ExpressionKeys.HiddenKeyIsMissed`.
  Such a path is looked up unbound: `ConfigExpression.HiddenPathIsLost`.
- Key substitution works on word ends, so a key that ends another identifier is replaced inside it:
  `ConfigExpression.RewritingRenamesIff` and `ConfigExpression.KeyEndsBuiltin`.
- A history longer than the prompt text is meant to be tolerated. The report of a mismatch reads the piece of text before the
  tokens are replaced, so a mismatch beyond the text raises: `PromptPatch.PatchRaisesIff` and `PromptPatch.MismatchBeyondText`.
- The line scanner attributes keys below a `_target_` mapping to its parent, the collector skips them: `YamlScanner.ScannerAgreesIff`.
- The content of a merged tool message keeps one newline too many: `ToolGroups.MergedRendersAlike`. Its tokens are rendered from
  the original messages and are not affected.

## Model

| member | source | states |
|---|---|---|
| PoolStopping.OvershootIsBounded | ajet/task_rollout/native_parallel_worker.py:448-455 | In every run without a clear, fewer episodes than there are threads are filed after the target was met |
| PoolStopping.EpisodeBatchSize | ajet/task_rollout/native_parallel_worker.py:349-353 | In episode mode every collected batch has at least `target * rollout_n` episodes and fewer than that plus the number of threads, with no assumption about clears |
| PoolStopping.NonDummyBatchIsFull | ajet/task_rollout/native_parallel_worker.py:586-588 | In non-dummy mode without clears, the batch has the target number of tasks with `rollout_n` episodes and two different rewards each, and exactly these tasks still have `rollout_n` episodes after dummy tasks are dropped |
| PoolStopping.MetPersists | ajet/task_rollout/native_parallel_worker.py:349-428 | No step of the pool other than a clear makes a met condition unmet, collecting included |
| PoolStopping.RunsPayForLateness | ajet/task_rollout/single_worker.py:200-209 | Invariant of every run without a clear: each late episode has its own worker that files nothing more, besides the one that met the target |
| PoolStopping.SubmitThreads | ajet/task_rollout/native_parallel_worker.py:304-313 | The submission loops give every thread its own observation slot `0..n-1`, with fewer than `max_parallel + rollout_n` threads and at least `max_parallel` of them unless tasks run short |
| RolloutPool.BatchConservesEpisodes | ajet/task_rollout/native_parallel_worker.py:532-557 | Over every interleaving: batch and discarded episodes together are exactly the filed ones; no episode appears twice, ids are distinct, and each was earned by an attempt |
| RolloutPool.RunsConserve | ajet/task_rollout/native_parallel_worker.py:532-557 | Invariant of every run: map or batch plus discarded equals inserted, every episode is under its own task, and collecting comes after all workers left |
| RolloutPool.RunsAreEarned | ajet/task_rollout/single_worker.py:187-196 | Invariant of every run: filed and held episodes were earned, with the rewards their attempt earned, filed ones hold a timeline, and all ids differ |
| RolloutPool.StopCondition | ajet/task_rollout/native_parallel_worker.py:349-428 | The three counting conditions evaluated by their loops: the verdict comes from the counts before the clear, and the map is emptied if and only if the target counts tasks and more than the cache limit of episodes are there |
| RolloutPool.MetIsMonotone | ajet/task_rollout/native_parallel_worker.py:328-347 | Filing an episode never makes a met condition unmet |
| RolloutPool.MetSurvivesCheckIff | ajet/task_rollout/native_parallel_worker.py:369-374 | After a successful check the next check succeeds if and only if the first did not overflow the cache limit |
| RolloutPool.ConservedWorkerStep | ajet/task_rollout/single_worker.py:171-209 | Every step of a worker keeps the conservation invariant |
| RolloutPool.ConservedMainStep | ajet/task_rollout/native_parallel_worker.py:517-557 | Every step of the main thread keeps the conservation invariant |
| SwarmEpisode.RegisterAndWait | ajet/task_runner/swarm_runner.py:70-106 | The receive loop on a mutable tracker and socket ends, resets and acks exactly as the message fold says |
| SwarmEpisode.EndsOnOutputIff | ajet/task_runner/swarm_runner.py:79-106 | The loop ends with an output if and only if the first event that is neither a recording, a reset nor a harmless timeout is a non-special message; the tracker then holds exactly the timelines recorded since the last reset, its flag is up if and only if madness was seen since, and every other ending leaves it empty |
| SwarmEpisode.EveryMessageIsAcked | ajet/task_runner/swarm_runner.py:79-104 | Receives and acks alternate strictly: one ack per message, before the next receive |
| SwarmEpisode.EpisodesAreEarnedIff | ajet/task_runner/swarm_runner.py:176-230 | The retries give an episode if and only if an attempt earned it after attempts that all raised: not stopped, ended on an output for that task, a timeline recorded since the last reset held, every merged timeline with the reported reward, times the factor if and only if madness was seen since that reset |
| SwarmEpisode.OutcomeIff | ajet/task_runner/swarm_runner.py:176-206 | An attempt gives an episode if and only if it earned it, and raises if and only if its output does not parse, or lacks a task or a single reward while a timeline is held |
| SwarmEpisode.PerformanceOfEarned | ajet/schema/trajectory.py:28-38 | The reward by which episodes of a task are compared is the one each of its timelines carries, or the raw one if merging left none |
| SwarmEpisode.ContextTracker.Reset | ajet/context_tracker/base_tracker.py:154-167 | Reset empties the timelines and clears the madness flag |
| TaskGroups.InsertKeepsFiling | ajet/task_rollout/single_worker.py:190-196 | Filing keeps keys distinct and every episode under its task, touches no other entry, and adds exactly this episode |
| TaskGroups.CountTasks | ajet/task_rollout/native_parallel_worker.py:328-347 | The counting loop returns the numbers of episodes, finished tasks and finished tasks with unequal rewards |
| TaskGroups.CountsAreMonotone | ajet/task_rollout/native_parallel_worker.py:328-347 | Filing adds one episode and never lowers either task count, nor raises it by more than one |
| TaskGroups.FilterOutDummies | ajet/task_rollout/native_parallel_worker.py:194-215 | The filter loop returns the groups that are not dummy, concatenated |
| TaskGroups.FilterWorksByGroup | ajet/task_rollout/native_parallel_worker.py:194-215 | On a batch collected from the map the filter drops exactly the dummy groups and leaves the others whole, in order and regroupable |
| TaskGroups.NonDummyTargetSurvivesFilter | ajet/task_rollout/native_parallel_worker.py:337-342 | After the filter at least as many finished tasks remain as were counted non-dummy |
| TaskGroups.CollectThenGroup | ajet/task_rollout/native_parallel_worker.py:555-556 | Collecting the map and grouping the batch again gives the map back |
| TokenizerService.RepliesRefineDispatch | ajet/tokenizer/service.py:241-303 | For every sequence of arrivals, hits and out-of-order completions: each message answers the request of its own route as a direct call would, none is answered twice, and without a crash all requests are answered once nothing is pending |
| TokenizerService.RepliesAreAnswers | ajet/tokenizer/service.py:205-303 | Over every run each message is the answer to its own request: the packed result or error of its tokenizer call, a message about an unknown operation or a frame that does not unpack, statistics, or the farewell |
| TokenizerService.EverythingIsAnswered | ajet/tokenizer/service.py:241-303 | If no shutdown arrived and every result packs, one turn with all workers finished leaves every request answered |
| CacheRecency.CacheIsLeastRecentlyUsed | ajet/tokenizer/service.py:275-300 | Over every run, with the keys touched computed from turns and messages alone: the cache holds exactly the keys touched with fewer than `cache_size` other keys touched since, in the order of their last touch; re-assigning a key is not a touch |
| CacheRecency.AnsweredAtOnceIff | ajet/tokenizer/service.py:281-288 | A call whose worker is not done in its own turn is answered in that turn if and only if its key is one of the `cache_size` touched last; that answer is then the only message and nothing becomes pending |
| CacheRecency.CountersCount | ajet/tokenizer/service.py:283-294 | Over every run, hits counts the calls that found their key among the last touched, and misses all other answers of the tokenizer |
| CacheRecency.StatisticsAreRight | ajet/tokenizer/service.py:262-274 | A statistics reply is the only message of its turn and tells hits, misses, the smaller of the cache size and the number of different keys touched, the cache size, the number of workers, at least one, and the number of requests not answered yet |
| CacheRecency.NewestIff | ajet/tokenizer/service.py:299-300 | A key is among the newest n if and only if it was touched and fewer than n other keys have been touched since |
| CacheRecency.RunsAreTracked | ajet/tokenizer/service.py:241-303 | One invariant for every run: the cache is in the order of the touches and the hits are counted |
| TokenizerService.BenignRunStaysUp | ajet/tokenizer/service.py:241-303 | The loop ends only on a shutdown request or on a result that cannot be packed |
| TokenizerService.RunsAreSound | ajet/tokenizer/service.py:241-303 | One invariant for every run: cached values are direct answers, sent and pending requests match their arrivals, each arrival is accounted for once, and hits plus misses are the answers of the tokenizer |
| TokenizerService.Server.ServeTurn | ajet/tokenizer/service.py:241-303 | One turn of the event loop on mutable cache, order, pending and counters equals the specified step |
| TokenizerService.Server.TakeResult | ajet/tokenizer/service.py:290-303 | Taking a finished worker's answer: cached if allowed, counted as a miss, sent to its own route; a result that cannot be packed ends the loop |
| TokenizerService.Server.StoreInCache | ajet/tokenizer/service.py:296-300 | Storing keeps the place of a key already cached and evicts from the old end |
| TokenizerService.CachedOperation | ajet/tokenizer/service.py:295-297 | The worker's operation allows caching exactly when the one the loop read does |
| CacheRecency.NewestOfTouch | ajet/tokenizer/service.py:282 | Touching a key moves it to the end of the newest keys whether or not it was among them |
| TokenizerService.EvictKeepsNewest | ajet/tokenizer/service.py:299-300 | The eviction loop leaves exactly the newest keys and their values |
| TokenizerService.StoreIsSound | ajet/tokenizer/service.py:296-300 | Storing a direct answer keeps every key in the order once and every cached value a direct answer |
| TokenizerService.FinishedWorkersAreHeard | ajet/tokenizer/service.py:290-303 | Draining with all workers finished leaves nothing pending |
| GroupSemaphore.ReleasedOnceAndOnlyAfterAll | ajet/utils/thread_executors.py:134-162 | In every interleaving: free permits plus unreleased groups equals the limit; a group is released at most once and only after every member was submitted, finished and counted down |
| GroupSemaphore.PermitsLeakExactlyOnRaise | ajet/utils/thread_executors.py:147-162 | When everything is at rest the missing permits are exactly the groups in which a submission raised, so all are back if and only if none did |
| GroupSemaphore.NotAtRestMayStep | ajet/utils/thread_executors.py:147-162 | A group that is not at rest always has an enabled step of its own |
| GroupSemaphore.StepKeepsGroup | ajet/utils/thread_executors.py:150-155 | Every step keeps: remaining plus counted members equals the size, and exactly one callback sees zero |
| GroupSemaphore.RunsKeepInvariant | ajet/utils/thread_executors.py:134-162 | The permit equation and the group invariants hold in every run |
| PeriodicDrain.ResultsInSubmissionOrder | ajet/utils/thread_executors.py:84-104 | Over every run: results returned so far followed by those still buffered are the results of the non-failing jobs, each once, in submission order |
| PeriodicDrain.BufferIsModulo | ajet/utils/thread_executors.py:84-104 | When no submission raises the buffer holds exactly the last `k mod N` jobs |
| PeriodicDrain.FirstRejected | ajet/utils/thread_executors.py:78-91 | If the first, blocking submission raises, the buffer is one short of the count until the first drain and as it should be afterwards |
| PeriodicDrain.Executor.SubmitWithPeriodicDrain | ajet/utils/thread_executors.py:84-104 | One submission on the mutable counter and buffer equals the specified step |
| PeriodicDrain.Train | tutorial/example_appworld_swarm/agent_roll.py:199-222 | The drains of the nested training loops are exactly the batches of `batch` whole consecutive task groups, across epochs and early breaks; an incomplete last batch stays undrained |
| PeriodicDrain.SubmitTask | tutorial/example_appworld_swarm/agent_roll.py:201-212 | Submitting a task's repeats drains exactly once, on the last repeat of the last task of a batch, and then returns that whole batch |
| PeriodicDrain.TrainEpoch | tutorial/example_appworld_swarm/agent_roll.py:200-219 | One epoch keeps the drains on batch boundaries and stops after the first task whose step reached the goal |
| PeriodicDrain.DrainPoint | tutorial/example_appworld_swarm/agent_roll.py:194-212 | The submission count is a multiple of `repeats * batch` exactly on the last repeat of the last task of a batch |
| Repetition.FiringIsSound | ajet/utils/compute_madness.py:65-78 | True implies a contiguous run of `patience_max` tokens with at most `remember_n_words` distinct values |
| Repetition.FiringIsComplete | ajet/utils/compute_madness.py:65-78 | A contiguous block of k <= `remember_n_words` distinct values and at least `(k + 1) * patience_max` tokens forces True, wherever it stands |
| Repetition.NoEvictionInsideBlock | ajet/utils/compute_madness.py:69-73 | A word that enters during the block is never evicted within it |
| Repetition.BlockBudget | ajet/utils/compute_madness.py:68-77 | From any state, a block over a vocabulary holds the detector off at most `patience_max` words per word not yet entered |
| Repetition.LeadingBlockFires | ajet/utils/compute_madness.py:65-78 | At the very start `k * patience_max + 1` tokens are enough |
| Repetition.LeadingBlockIsTight | ajet/utils/compute_madness.py:65-78 | For one repeated word the bound is exact: it fires if and only if there is one word more than `patience_max` |
| Repetition.FiringIsStable | ajet/utils/compute_madness.py:65-78 | Text that fires keeps firing whatever follows |
| Repetition.DetectRepeat | ajet/utils/compute_madness.py:65-78 | The loop with its window and patience counter decides exactly the recursive firing predicate |
| LossMask.MasksAgree | ajet/schema/extended_msg.py:215-236 | On a rendered message the mask made while splicing equals the regenerated one if and only if neither `begin_ids` nor the generated centre contains EOS (or, degenerately, `begin_ids` does and nothing was generated) |
| LossMask.SpliceIsAligned | ajet/context_tracker/base_tracker.py:71-105 | Splicing keeps the prompt and everything from the last EOS on; ids, log-probs and mask have one length, each generated token keeps its log-prob, and exactly those are trained |
| LossMask.TrainedMaskShape | ajet/schema/extended_msg.py:37-58 | The regenerated mask is 1 exactly from the end of the prompt to the first EOS, which counts unless the message lacked one |
| LossMask.TrainedMaskIff | ajet/schema/extended_msg.py:37-58 | For any tokens: the mask is 0 exactly in the first generation prompt, behind the first EOS, and on that EOS if the message lacked one |
| LossMask.UnexpectedBosIff | ajet/context_tracker/base_tracker.py:85-90 | The splice is refused if and only if the generated tokens open with the generation prompt |
| LossMask.FindSublist | ajet/schema/extended_msg.py:25-34 | Both search directions return the first or last occurrence, or -1 |
| LossMask.RegenerateMask | ajet/schema/extended_msg.py:215-236 | The three in-place blackout loops produce the specified mask |
| LossMask.ZeroOut | ajet/schema/extended_msg.py:45-58 | The in-place loop zeroes exactly the given range |
| LossMask.LastEosIsAfterBegin | ajet/context_tracker/base_tracker.py:71-72 | The backward search finds the last EOS, behind the prompt |
| Samples.SplitIsLossless | ajet/context_tracker/single_agent_tracking.py:256-322 | Whatever the timeline, a result splits all arrays at one index: prompt ++ response is the input, nothing trained in the prompt, prompt within its limit, arrays aligned |
| Samples.TokenizeSucceedsIff | ajet/context_tracker/single_agent_tracking.py:292-297 | On a timeline that passes the checks the call succeeds if and only if a trained token, or at least 100 tokens, follow the start of the first trained message; otherwise it is an index error |
| Samples.ResponseStartsTrained | ajet/context_tracker/single_agent_tracking.py:292-302 | With a trained token among those 100 the response starts on a trained token unless the prompt limit cuts first |
| Samples.TruncateIsIdempotent | ajet/schema/trajectory.py:116-173 | Truncation keeps arrays aligned, bounds the response, keeps the prompt and a leading part of the response, and a second truncation changes nothing |
| Samples.TruncateRaisesIff | ajet/schema/trajectory.py:117-150 | Truncation raises if and only if the arrays of a part differ in length, or the prompt exceeds its limit |
| Samples.UntrainedTimeline | ajet/context_tracker/single_agent_tracking.py:260-308 | Without a trained message the index walks from -1: the call fails with an index error on short input and otherwise splits after 99 tokens, so its own assertion is never the one that fails |
| Samples.ComputeTokenizeSteps | ajet/context_tracker/single_agent_tracking.py:248-343 | Both loops together compute the specified split |
| Samples.Concatenate | ajet/context_tracker/single_agent_tracking.py:265-288 | The concatenation loop yields the concatenated arrays and the start of the first trained message, or fails the author checks |
| Samples.MoveForward | ajet/context_tracker/single_agent_tracking.py:292-297 | The forward loop, with Python's negative index |
| Samples.Sample.TruncateOutputIds | ajet/schema/trajectory.py:116-173 | The in-place truncation of the object equals the specified one, and a failing call changes nothing |
| BatchTensors.PaddingIsLossless | ajet/task_rollout/native_parallel_worker.py:709-750 | Attended positions of a padded row give back the sample's ids, mask and positions; those of the prompt, response and log-probability fields give back prompt, response and log-probabilities |
| BatchTensors.RowPlaces | ajet/task_rollout/native_parallel_worker.py:709-750 | Every place of a row: a token of the sample, attended, with its mask, its position and, in the response, its log-probability; or padding, neither attended nor trained, with log-probability 0 |
| BatchTensors.RewardIsConserved | ajet/backbone/trainer_verl.py:61-89 | The token rewards of a row sum to the sample's step reward, all of it on the last real response token |
| BatchTensors.PadTwice | ajet/task_rollout/native_parallel_worker.py:709-727 | Padding to the widest of the batch and then to the full width is padding once |
| BatchTensors.RecomputedPositions | ajet/task_rollout/native_parallel_worker.py:729-730 | Response positions continue from the last prompt position as in the sample |
| BatchTensors.ParseRewards | ajet/backbone/trainer_verl.py:61-89 | The in-place assignment puts each row's reward where the specification says |
| BatchTensors.DropRemainder | ajet/task_rollout/native_parallel_worker.py:633-642 | Popping the drawn indices in descending order leaves exactly the samples outside the draw, a multiple of the world size |
| Advantage.MeanAdvantagesSumToZero | ajet/backbone/trainer_verl.py:197-239 | For a task with at least two episodes the per-episode mean advantages sum to zero |
| Advantage.ReplicationKeepsBaselines | ajet/backbone/trainer_verl.py:200-227 | Further samples of an episode that leave its mean unchanged change no baseline |
| Advantage.ReplicationKeepsAdvantages | ajet/backbone/trainer_verl.py:229-236 | Nor any advantage already in the batch |
| Advantage.EpisodeLevelRefinesSampleLevel | ajet/utils/advantage.py:31-57 | With one sample per episode the episode-level estimator is the sample-level one |
| Advantage.WeightsOfEpisodeSumToOne | ajet/backbone/trainer_verl.py:259-273 | The loss weights of an episode's samples sum to one |
| Advantage.WeightedSumIsSumOfMeans | ajet/backbone/trainer_verl.py:259-273 | The weighted sum over any set of episodes is the sum of their means |
| Advantage.ComputeEpisodeAdvantage | ajet/backbone/trainer_verl.py:200-236 | The dictionary loops and the assignment in place give every sample its distance to the mean of the task's episode means, divided by their deviation plus epsilon when normalising; a lone episode is compared with 0 in units of 1 |
| Advantage.EpisodeAdvantageIs | ajet/backbone/trainer_verl.py:218-236 | The same of the specified advantage, over the mean scores of the task's episodes |
| Advantage.ComputeSampleAdvantage | ajet/utils/advantage.py:31-57 | The sample-level loops overwrite each score with its distance to the mean of the task's scores, divided by their deviation plus epsilon when normalising; a lone sample is compared with 0 in units of 1 |
| Advantage.SampleAdvantageIs | ajet/utils/advantage.py:43-57 | The same of the specified advantage, over the scores of the task's samples |
| Advantage.ComputeLossWeights | ajet/backbone/trainer_verl.py:259-269 | The counting loop yields one over the number of samples of the episode |
| Advantage.ListedEpisodes | ajet/backbone/trainer_verl.py:210-213 | A task lists exactly the episodes with a sample in it, each once |
| Advantage.SumEpisodes | ajet/backbone/trainer_verl.py:202-208 | The reduction loop maps exactly the episodes present to their means |
| TaskTargets.FilterKeepsWholeTasks | ajet/task_rollout/native_parallel_worker.py:200-205 | The filter keeps a task's episodes all, in order, or none |
| TaskTargets.SurvivesIff | ajet/task_rollout/native_parallel_worker.py:194-215 | A task survives the filter, with all its episodes in order, if and only if two of its episodes have different rewards |
| TaskTargets.MixedTasksSurvive | ajet/task_rollout/native_parallel_worker.py:194-215 | The tasks with n episodes and two different rewards are the same before and after the filter, and after it no other task has n episodes |
| TaskTargets.CountsAreTasks | ajet/task_rollout/native_parallel_worker.py:328-347 | The counts of a well-filed map are the numbers of different tasks with at least n of its episodes, and of those among them with two different rewards |
| LearningSignal.AdvantageIsLocal | ajet/backbone/trainer_verl.py:210-236 | An advantage depends only on the samples of its own task, in order |
| LearningSignal.UniformTaskSignal | ajet/backbone/trainer_verl.py:215-236 | A task with one score throughout has zero advantage if and only if it has two episodes or more, or scores zero |
| TokenLimitSearch.DenominatorIsPositive | ajet/utils/find_max_ppo_token_len.py:173-181 | Strictly increasing probe sizes give a positive denominator |
| TokenLimitSearch.DenominatorIsZeroIff | ajet/utils/find_max_ppo_token_len.py:173-181 | The denominator is never negative and is zero if and only if all sizes are equal |
| TokenLimitSearch.FitMinimisesError | ajet/utils/find_max_ppo_token_len.py:173-185 | No line has a smaller squared error than the fitted one, the degenerate branch included |
| TokenLimitSearch.FitIsExact | ajet/utils/find_max_ppo_token_len.py:173-185 | Samples on a line give back that line |
| TokenLimitSearch.RampGrows | ajet/utils/find_max_ppo_token_len.py:207-235 | Appending an allowed probe keeps all promises about the ramp |
| TokenLimitSearch.CeilingIsBracketed | ajet/utils/find_max_ppo_token_len.py:249-264 | The reported ceiling is at least every size that fitted, below any that ran out of memory, and within the fitted line's ceiling when it extrapolates |
| TokenLimitSearch.LimitIsLargest | ajet/utils/find_max_ppo_token_len.py:247-263 | Unless the last size probed is larger, the limit is the largest size up to 97% of one that ran out of memory for which the line, or one sample in proportion, does not exceed the ceiling; a flat line gives the last size |
| TokenLimitSearch.WantedIsSafe | ajet/utils/find_max_ppo_token_len.py:221-222 | The wanted size is the largest, up to twice the last and up to the cap, for which the line stays within the safe level |
| TokenLimitSearch.NextIs | ajet/utils/find_max_ppo_token_len.py:215-235 | One sample doubles the size up to the cap; from two on the ramp ends if and only if the guarded step is under 256 tokens or under 2% of the last size in whole tokens |
| TokenLimitSearch.FirstSizeIsNearest | ajet/utils/find_max_ppo_token_len.py:209 | The first size probed is the one nearest to the start between 512 and the cap |
| TokenLimitSearch.MicroBatchHoldsTokens | ajet/utils/find_max_ppo_token_len.py:95-108 | The synthetic batch holds the tokens asked for within the sequence cap; one sequence fewer would not do, nor sequences one token shorter beyond eight; half of each is the response |
| KeySubstitution.SubIsByWord | ajet/utils/config_computer.py:126-127 | The regular expression replaces exactly the ends of words, scanning characters from left to right |
| KeySubstitution.OneChange | ajet/utils/config_computer.py:115-127 | Only the first key that a word ends with ever changes it |
| KeySubstitution.RewritingIsByWord | ajet/utils/config_computer.py:115-127 | The whole loop over all keys works word by word |
| KeySubstitution.SafeVarIsInjective | ajet/utils/config_computer.py:120-121 | Generated variables are distinct |
| ConfigExpression.RenamingKeepsMeaning | ajet/utils/config_computer.py:129-149 | Replacing keys by variables bound to their values keeps the value of every tree |
| ConfigExpression.PrintRenamed | ajet/utils/config_computer.py:115-127 | Renaming the tree and renaming the words of its text are the same |
| ConfigExpression.RewriteExpression | ajet/utils/config_computer.py:103-127 | The rewriting loop fails if and only if a key has no value, and otherwise yields the specified text and mapping |
| YamlScanner.ScannerAgreesIff | scripts/expand_config_targets.py:93-184 | On every printed list-free mapping the scanner spells the collected paths, in order, if and only if no `_target_` holds keys of its own |
| YamlScanner.StackSpellsPath | scripts/expand_config_targets.py:145-173 | At every line of a printed mapping the stack spells that line's path and leaves what lies below it alone |
| YamlScanner.CommentedLinesAreTargets | scripts/expand_config_targets.py:140-184 | A line is commented if and only if it spells a target, and the spelled targets are the collected ones |
| YamlScanner.SecondPassChangesNothing | scripts/expand_config_targets.py:140-184 | Running the scanner on its own output changes nothing, for any lines and targets |
| YamlScanner.MarkKeepsKey | scripts/expand_config_targets.py:174-179 | A comment added to a key line changes neither its indentation nor its key, and is not added twice |
| YamlScanner.MarkedIs | scripts/expand_config_targets.py:177-178 | A line that has the comment anywhere stays as it is; any other is cut behind its last visible character and goes on with two blanks, the comment and a newline |
| YamlScanner.NoiseIsIgnored | scripts/expand_config_targets.py:146-149 | Exactly the blank lines and those on which only blanks stand before a `#` are passed over |
| YamlScanner.SpecialLine | scripts/expand_config_targets.py:163-166 | A line whose key is `_target_` or a dash gets no comment, cuts the stack back and puts nothing on it |
| YamlScanner.SpelledIsCollectedIff | scripts/expand_config_targets.py:93-117 | What is spelled below a place is what the recursive collector adds there, exactly when `_target_` is plain |
| YamlScanner.AddComments | scripts/expand_config_targets.py:140-184 | The scanning loop with its two stacks yields the specified lines |
| YamlScanner.PopStacks | scripts/expand_config_targets.py:156-159 | The popping loop cuts both stacks back as specified |
| ConfigAlign.AlignmentHolds | ajet/utils/config_utils.py:151-186 | After the whole loop the budget target holds the budget, each target holds the value read from the unmodified source unless a later target is related to it, and unrelated paths are unchanged |
| ConfigAlign.TargetHoldsWhatIsRead | ajet/utils/config_utils.py:151-169 | Rule by rule, after the whole loop: a target that no later one leads to or goes on from holds what the unmodified source holds at the rule's path, or what is computed from what it holds at the rule's keys |
| ConfigAlign.BudgetIs | ajet/utils/config_utils.py:171-179 | The budget target holds the source's own setting, or the model length when that setting is `None` |
| ConfigAlign.UntouchedStays | ajet/utils/config_utils.py:151-179 | A path that no target leads to or goes on from is as it was |
| ConfigAlign.AlignedIff | ajet/utils/config_utils.py:151-179 | The alignment goes through if and only if every rule can be read, the budget or else the model length is there, and no assignment runs into something that is not a mapping |
| ConfigAlign.AlignParameters | ajet/utils/config_utils.py:151-186 | The loops over rules and targets, with the budget after them, equal the specified sequence of assignments |
| ConfigAlign.GetAfterSet | ajet/utils/config_utils.py:82-103 | A fetch after an assignment returns the value assigned |
| ConfigAlign.SetKeepsUnrelated | ajet/utils/config_utils.py:96-103 | Any path that is neither prefix nor extension keeps its value or its absence |
| ConfigAlign.SetRaisesIff | ajet/utils/config_utils.py:96-103 | An assignment raises if and only if something on the way is present and not a mapping |
| ConfigAlign.DiveToFetchValue | ajet/utils/config_utils.py:82-93 | The fetching loop, which stops at the first `None` on its way |
| ConfigAlign.FetchIs | ajet/utils/config_utils.py:82-93 | A fetch finds what is stored at the path, or `None` if one lies on the way; it reports a missing key if and only if a mapping on the way lacks the next one |
| ConfigAlign.RoundUp | ajet/utils/config_utils.py:228-236 | The rounding loop yields the least multiple of the world size not below the batch size |
| PromptPatch.SplitIsTheCutting | ajet/context_tracker/multiagent_tracking.py:396-407 | The chunks add up to the prompt, the marker stands only at chunk heads, and no other cutting has these properties |
| PromptPatch.SplitPrompt | ajet/context_tracker/multiagent_tracking.py:396-407 | The splitting loop yields the specified chunks |
| ToolGroups.GroupsAreTheGrouping | ajet/schema/extended_msg.py:371-385 | Grouping adds up to the messages and is the only way to cut them into single messages and whole runs of tool messages |
| ToolGroups.MergedRendersAlike | ajet/schema/extended_msg.py:325-329 | A merged message renders as its group does but for one newline before the last closing tag |
| ToolGroups.GroupMessages | ajet/schema/extended_msg.py:371-385 | The grouping loop yields the specified groups |
| PoolStopping.SignalledPollSucceeds | ajet/task_rollout/native_parallel_worker.py:448-455 | In every run without a clear: from a moment when anyone has seen the condition met, or any stop flag is up, and the main thread is about to poll, it never counts an unmet target again, and the batch meets the target |
| PoolStopping.CollectedMeetsTarget | ajet/task_rollout/native_parallel_worker.py:517-557 | In every run without a clear the collected batch meets the target |
| PoolStopping.TaskBatchIsFull | ajet/task_rollout/native_parallel_worker.py:355-374 | In task mode without clears, the collected batch has at least the target number of different tasks with `rollout_n` of its episodes each |
| RolloutPool.MetIff | ajet/task_rollout/native_parallel_worker.py:349-428 | On a well-filed map a condition is met if and only if there are enough episodes, or enough different tasks with `rollout_n` of them, or enough such tasks with two different rewards |
| RolloutPool.BatchMeetsIff | ajet/task_rollout/native_parallel_worker.py:349-428 | The same of a batch |
| PoolStopping.RunsAreTruthful | ajet/task_rollout/native_parallel_worker.py:448-455 | Invariant of every run: unless something was cleared, counts under way are in order, and a stop flag, a worker that left or a main thread that stopped means the condition holds of what was gathered |
| PoolCounting.SnapshotReads | ajet/utils/async_utils.py:141-145 | A count that has just taken its snapshot of the keys will see the whole map |
| PoolCounting.ReadingSurvivesFiling | ajet/utils/async_utils.py:141-145 | Episodes filed between two reads keep a count in order, and it will see no less |
| PoolCounting.ViewIsOlder | ajet/utils/async_utils.py:141-145 | What a count under way will have seen is never more than the map holds, entry by entry |
| PoolCounting.OlderCounts | ajet/task_rollout/native_parallel_worker.py:328-347 | An older state of the map has no more episodes, finished tasks or non-dummy tasks |
| PoolClearing.BatchIsFiledSinceClear | ajet/task_rollout/native_parallel_worker.py:532-557 | Over every run, clears included: the batch is exactly the episodes filed since the last clear, each once, and meets the target if and only if these do |
| PoolClearing.StuckIff | ajet/task_rollout/native_parallel_worker.py:517-530 | With all workers gone and the main thread about to poll, the pool is stuck if and only if the episodes filed since the last clear fall short of the target; without clears that needs every worker to have died of an exception |
| PoolClearing.StuckForever | ajet/task_rollout/native_parallel_worker.py:517-530 | A stuck pool stays stuck under every step |
| PoolClearing.LastWorkerDecides | ajet/task_rollout/native_parallel_worker.py:369-374 | When the last worker has counted a met target and all others have left: however its steps and those of the main thread interleave, if the main thread is about to poll once the worker has left, the pool is stuck if and only if the worker's check overflowed |
| PoolSchedules.StuckReachableIff | ajet/task_rollout/native_parallel_worker.py:369-374 | Over whole interleavings of all workers and the main thread: once a worker has counted a met target on a map it is about to clear, a stuck pool in which no further worker died can be reached if and only if the main thread has not itself counted enough by then |
| BatchGuarantee.BatchIsSureIff | ajet/task_rollout/native_parallel_worker.py:369-374 | Over whole interleavings: once the main thread has counted enough in a run without clears, every batch it can still collect meets the target if and only if nobody is about to clear, no count under way exceeds the cache limit, and either nobody will begin another count or the cached episodes plus one for each worker that may still file stay within the limit |
| BatchGuarantee.EmptyBatchReachable | ajet/task_rollout/native_parallel_worker.py:369-374 | With a clear pending, by a worker or by the main thread, the main thread can end up with an empty batch although it has counted enough |
| PoolExamples.ClearingCheckStrandsMain | ajet/task_rollout/native_parallel_worker.py:369-374 | A concrete run with one thread in which a check clears the map, reports success, and leaves the main thread polling for ever |
| PoolExamples.MainPollEmptiesBatch | ajet/task_rollout/native_parallel_worker.py:524-530 | A concrete run with one thread in which the main thread's own poll counts enough, clears the map, and an empty batch is collected |
| LearningSignal.DroppedTaskSignal | ajet/task_rollout/native_parallel_worker.py:176-205 | Under the episode-level estimator, a sample of a dropped task has zero advantage if and only if its group has two episodes or more, or its reward is zero |
| LearningSignal.DroppedTaskSampleSignal | ajet/utils/advantage.py:43-57 | Under the sample-level estimator, if and only if the episodes of its group have two timelines or more together, or its reward is zero |
| LearningSignal.LoneEpisodeOfTwoTimelines | ajet/utils/advantage.py:43-57 | One rewarded episode of two timelines is dropped; its samples have zero advantage at sample level and a non-zero one at episode level |
| LearningSignal.UniformTaskSampleSignal | ajet/utils/advantage.py:43-57 | A task with one score throughout has zero sample-level advantage if and only if it has two samples or more, or scores zero |
| LearningSignal.FilterKeepsAdvantages | ajet/task_rollout/native_parallel_worker.py:194-215 | Samples of kept tasks have the advantage they had before the filter, under both estimators |
| LearningSignal.SampleAdvantageIsLocal | ajet/utils/advantage.py:41-57 | A sample-level advantage depends only on the samples of its own task, in order |
| TokenLimitSearch.Search | ajet/utils/find_max_ppo_token_len.py:207-235 | The probe loop ends without the time budget; sizes grow strictly, at most double and stay under max(512, cap); each is the next size the rule gives for the samples before it; the loop ends only on an out-of-memory probe, an exhausted budget, or when the rule says enough; it finds nothing if and only if no time was left or the first size failed |
| TokenLimitSearch.NextSize | ajet/utils/find_max_ppo_token_len.py:215-235 | The next size: wanted by the line for the safe level, at most doubled, at most the cap, guarded; none when the step is too small |
| TokenLimitSearch.Guard | ajet/utils/find_max_ppo_token_len.py:223-226 | The halving loop yields the specified size |
| TokenLimitSearch.GuardIsFirstAllowed | ajet/utils/find_max_ppo_token_len.py:223-226 | That size is the wanted one after the fewest halvings of the step for which the line stays within the ceiling |
| TokenLimitSearch.FindLimit | ajet/utils/find_max_ppo_token_len.py:207-264 | The whole search with the least-squares fit: it fails exactly when not even the first probe fitted, and otherwise its limit lies between the sizes that fitted and the one that did not, within the line's ceiling when it extrapolates |
| KeySubstitution.WordIsRenamedIff | ajet/utils/config_computer.py:115-127 | When keys and generated variables do not end with each other, longest-first rewriting renames a word rightly if and only if it is a key or ends with none |
| KeySubstitution.CleanWordIsRenamed | ajet/utils/config_computer.py:115-127 | A word that is a key or ends with none is renamed rightly as soon as no generated variable ends with a key |
| KeySubstitution.TextIsInjective | ajet/utils/config_computer.py:126-127 | Texts with words and the same separators in the same places are equal only word by word |
| ExpressionKeys.KeysAreVisiblePaths | ajet/utils/config_computer.py:50-64 | A key is collected if and only if, at some place outside all attributes, it is a maximal dotted path that is not built in |
| ExpressionKeys.KeysAreMaximalPathsIff | ajet/utils/config_computer.py:50-64 | The keys are all maximal dotted paths that are not built in if and only if each one inside the value of an attribute that is not a path also stands elsewhere |
| ExpressionKeys.AllPathsAreMaximalPaths | ajet/utils/config_computer.py:50-78 | The paths of a full walk are exactly the maximal dotted paths that are not built in, wherever they stand |
| ExpressionKeys.NothingHidden | ajet/utils/config_computer.py:56-64 | When every attribute is a dotted path nothing is hidden from the visitor |
| ExpressionKeys.HiddenKeyIsMissed | ajet/utils/config_computer.py:56-64 | In `max(a.b, 1).real` the visitor finds no key, although `a.b` stands in it |
| ExpressionKeys.StructureExtractor.Visit | ajet/utils/config_computer.py:50-64 | The visitor adds exactly the specified keys to its set |
| ConfigExpression.RewritingKeepsMeaning | ajet/utils/config_computer.py:110-154 | When no key ends another word or a generated variable, and no path is hidden from the visitor, the rewritten text is the text of a tree with the value of the original in which every dotted path is bound |
| ConfigExpression.HiddenPathIsLost | ajet/utils/config_computer.py:129-149 | When a path is hidden and no key, some values and operations tell the rewritten expression from the original |
| ConfigExpression.RewritingRenamesIff | ajet/utils/config_computer.py:115-127 | The rewritten text equals the renamed tree's text if and only if no word other than a key ends with a key |
| ConfigExpression.KeysAreWords | ajet/utils/config_computer.py:50-78 | Each key is a whole word of the printed text |
| ConfigExpression.VarsDoNotOccur | ajet/utils/config_computer.py:118-121 | Under these conditions no generated variable is a path of the expression |
| ConfigExpression.KeyEndsBuiltin | ajet/utils/config_computer.py:126-127 | The text `min(n, 3)` is rewritten to `mivar_0(var_0, 3)` |
| PromptPatch.EnsureMatch | ajet/context_tracker/multiagent_tracking.py:451-471 | In place, every message before the first that raises takes the chunk at its position, that one and all behind it stay as they were, and log-probs never change; a message raises if there is no chunk for it, or if it differs from its chunk and there is no piece of prompt text to report |
| PromptPatch.PatchPromptTokens | ajet/context_tracker/multiagent_tracking.py:396-439 | How patching ends, what it changes in place and how many messages it keeps |
| PromptPatch.PatchRaisesIff | ajet/context_tracker/multiagent_tracking.py:391-394 | With the generation prompt cut from the text only, patching raises if and only if the history is longer than the text by two or more, or by one with its last message different from the trailing chunk |
| PromptPatch.MismatchBeyondText | ajet/context_tracker/multiagent_tracking.py:454-470 | A concrete history one message longer than the prompt text: tolerated when that message is the generation prompt, an index error otherwise |
| PromptPatch.PatchedHistoryIsPromptIff | ajet/context_tracker/multiagent_tracking.py:451-471 | When no message raises, the patched history plus the trailing chunk is exactly the prompt if and only if the prompt has one chunk more than the history |
| BatchTensors.SamplesToRows | ajet/task_rollout/native_parallel_worker.py:666-735 | The packing loop, with both paddings, builds a row that holds each sample place by place, or rejects an empty batch and one with a sample that fails a check |
| BatchTensors.BuiltSampleIsAcceptableIff | ajet/task_rollout/native_parallel_worker.py:666-680 | A sample built from a timeline passes the checks if and only if the prompt limit is not zero and the first token is not trained |
| TimelineRows.TimelineToRow | ajet/task_rollout/native_parallel_worker.py:666-750 | From timeline to row, message by message: token k of message j stands behind all tokens of the messages before it, trained if and only if it should be, in the response with its own log-probability; a last message not from the LLM does not count, nothing else is attended or trained, and the whole step reward stands on the last token |
| TimelineRows.TimelineToSample | ajet/context_tracker/single_agent_tracking.py:244-322 | Such a timeline becomes a sample that passes the checks of the batch and holds it up to the response limit; the prompt ends where training starts, or at its limit |
| TimelineRows.TokenizedTimeline | ajet/context_tracker/single_agent_tracking.py:248-288 | All messages count but a last one that is not from the LLM; each of their tokens stands at the summed lengths of the messages before it, with its own log-probability or the invalid value, and a 1 in the mask if and only if it is trained |
| TimelineRows.AuthorsFailIff | ajet/context_tracker/single_agent_tracking.py:265-275 | The author checks fail if and only if an author that counts is unknown or the first message is from the LLM |
| Samples.SampleIsBuilt | ajet/schema/trajectory.py:78-173 | For a timeline with a trained token in reach building the sample never raises; the sample is well formed and holds the tokens up to the response limit |
| Samples.PromptIsThereIff | ajet/context_tracker/single_agent_tracking.py:292-312 | The prompt is not empty if and only if the prompt limit allows one and the first token is not trained |
| ToolGroups.ToolMessagesRenderAlike | ajet/schema/extended_msg.py:325-329 | The same for the tags of tool messages |
| ToolGroups.AloneStaysAsItIs | ajet/schema/extended_msg.py:322-323 | A tool message that stands alone keeps its content and its rendering |

## Left out

- The status previews and progress printing of the pool.
- Real tokenizers, chat templates, LLM servers and the HTTP and ZMQ transport: deterministic functions and abstract messages stand for them.
- Timeline merging, the swarm server and its client, `interchange_utils`: not part of this model; how many timelines merging leaves is a parameter.
- The two client-agreement stop conditions: their verdict comes from the server's snapshot and is not monotone.
- SwarmEpisode.EpisodesAreEarnedIff: attempts come as any finite list, so neither the number of retries nor the back-off times are bounded by it.
- RolloutPool.BatchConservesEpisodes: that ids are fresh is assumed of each new episode, as `uuid4` provides; batch statistics stamped onto trackers are not modelled.
- RolloutPool.RunsConserve: filing an episode and reading one entry of the map are single steps; the clear does not take the lock that filing takes, so in the source it may fall between looking a task up and storing its list.
- BatchGuarantee.BatchIsSureIff: assumes that merging keeps an episode of a single timeline, or no further episode could be filed.
- PoolStopping.OvershootIsBounded: assumes that no check cleared the map; the executor's limit on running threads only removes schedules.
- PoolStopping.SignalledPollSucceeds: assumes that no check cleared the map, since the source's verdict comes from counts before the clear.
- Floating-point rounding: counts, rewards, fits and `math.ceil` are exact.
- Multiplying advantages and loss weights with the response mask: a broadcast along the token axis.
- `compute_step_level_reward` beyond `gamma == 1`, which the source asserts, and the madness factor.
- `compute_reference_advantage`: used for logging only, and the same shape as the sample-level estimator.
- verl's `compute_position_id_with_mask`: the running sum of the mask minus one, clipped at zero.
- Samples.TokenizeSucceedsIff: concerns timelines whose authors are known and whose first trained message is not the first message; others fail the checks.
- The random draw of samples to drop is a parameter.
- TokenizerService.RepliesRefineDispatch: a negative cache size, for which eviction would raise, is not modelled; nor are the bytes of msgpack.
- `BoundedThreadPoolExecutor`: one semaphore permit per job, a simpler case of the group semaphore.
- PeriodicDrain.Train: rollouts are retried until they succeed, as the loop's executor is configured; the evaluation runs between tasks are not modelled.
- TokenLimitSearch.Search: the out-of-memory reports and peaks of the GPU are any function of the size; the text of the report and the final margin are not modelled.
- ConfigExpression.RewritingKeepsMeaning: parsing is taken to be the inverse of printing, with no blanks around dots and identifiers in ASCII; string literals, subscripts and comprehensions are not in the trees.
- KeySubstitution.WordIsRenamedIff: assumes that no key ends with a generated variable and no variable with a key; where words are clean the first half is not needed (`KeySubstitution.CleanWordIsRenamed`).
- ConfigExpression.RewritingRenamesIff: the same assumption.
- YamlScanner.ScannerAgreesIff: mappings without lists whose keys are printed plainly, one scalar a line, with any blank or comment lines between.
- ConfigAlign.AlignmentHolds: nested dictionaries are values, so sharing between source and target is not captured; it assumes no target goes on from one that was given a mapping, where the source would change its own input.
- ConfigAlign.AlignParameters: updates on values instead of in place, with dotted keys already split into parts; the copy of trinity's own section is not modelled.
- BatchTensors.SamplesToRows: takes the arrays of a sample's parts to have one length each, as the constructor of a sample asserts.
- PromptPatch.PatchPromptTokens: the number of pieces of the prompt text, and whether it opens with the marker, are parameters, as decoding is the tokenizer's.
- Merging the attributes of tool messages other than their content.
- Launchers, dashboards, judges, dataset readers, logging, memory checks, wall-clock time.
