# Treta: verified decision protocols

Treta turns opportunities into proposals, launches and strategy actions.  Its stores
and engines look like plain bookkeeping, but several of them carry protocols whose
guarantees hold only over whole runs.  This project models those protocols in Dafny 4.11
and proves what they keep.  `dafny verify dfyconfig.toml` checks everything.

Each stateful component appears three times: as a class whose methods change fields step by
step, as a function on values that says what one step does (each method's postcondition
equates the two), and as lemmas about that function over all inputs, runs or interleavings.

| file | what it holds |
|---|---|
| `Common.dfy`, `Text.dfy` | optional values, Python's bounded deque, whitespace stripping |
| `DailySelection.dfy` | the greedy daily selection and its optimality |
| `RedditIntelligence.dfy` | analysing posts, the mention caps, the pending query, the daily plan |
| `ContextBudget.dfy` | fitting a conversation into a token budget |
| `StrategyActions.dfy` | the bounded action store, its table and its restart; registering actions |
| `ActionExecution.dfy`, `ExecutionSafety.dfy` | executing an action; what all runs keep |
| `BreakerBound.dfy` | how many failures fit into a window of the circuit breaker |
| `AdaptivePolicy.dfy` | adaptive limits and strategy weights |
| `Autonomy.dfy`, `AutonomyLog.dfy` | automatic executions and their daily budget; the budget against a full log |
| `EventBus.dfy` | the event queue with its budget per trace |
| `ProductLifecycle.dfy`, `LifecycleEvents.dfy`, `LifecycleSafety.dfy` | proposals, launches and focus; when each event is accepted; what all runs keep |
| `RevenueAttribution.dfy`, `GumroadSync.dfy` | attributed sales and their summary; syncing with the sales feed |
| `StrategyCycle.dfy` | decision cycles, their lock and cooldown, interleaved |

Conventions.  Time is an integer clock and money is integer cents; ratios, averages and
weights are exact reals.  Generated identifiers are numbers.  A database table is the
sequence of its rows in insertion order.  Every reading of the clock is a separate
parameter, in program order.  Executors, feeds, random scores and the text analysis of a post
enter as parameters, so every result holds for all their outcomes.

Findings.  Some natural expectations are false of the code.  Each is recorded by a concrete run or
input, by the exact condition under which the expectation does hold, or by both:

- `LimitRespectedIff`: a limit below one still selects one signal.
- `CapsMayLapseAcrossWeeks` with `CapsHoldIff`: the mention caps hold over every run inside a span
  exactly when it is at most a week; `TwoWeekCapsHold` is the bound that every run keeps.
- `TrailingSpaceLosesText` with `LongestCutIff`, and `TruncateLoneMessage`: shortening can miss the
  longest fitting text, and a lone message over budget comes back twice.
- `CapacityZeroOverwrites` and `RegisterDuplicatesIff`: what overwrites or duplicates an action.
- `ThresholdIsNoBound` with `ThresholdBoundsIff` and `AttemptExceedsIff`: the breaker's threshold bounds
  every window exactly when the window is too short for threshold - 1 timeouts; the default settings do
  not keep it (`DefaultsExceedThreshold`).
- `BudgetCanBeExceeded` with `ShowsAllIff` and `TrueBudgetHolds`: the daily budget counts what the
  store still shows, so rejecting, re-executing or evicting an automatic execution frees budget.
- `TwoItemsFlagged` with `OneFlaggedIff`: automatic approval can leave two items flagged.
- `LostCursorIff`, `GeneratedIdsRepeat` with `GeneratedIdsCollideIff`, and `TidyIff`: recounted sales,
  repeated sale ids, stored zero counters.
- `UnlockedCallerRaces` with `SpacedIffLocked`: as deployed, decision cycles started by a queued event do
  not take the cycle lock and can race with the loop (`DeployedCycles`).

The focus engine's own description gives focus to a launch that is not yet "launched"; no launch ever
has that status, so the model follows the code (`FocusFallsOnNewestLaunch`).

## Model

| member | source | states |
|---|---|---|
| DailySelection.GetDailyTopActions | core/reddit_intelligence/service.py:102-122 | the loop returns the greedy choice; no admissible choice (nothing ignored, at most two per subreddit, at most `limit` in all) has a higher total score when the list is ranked and scores are not negative |
| DailySelection.GreedyOptimal | core/reddit_intelligence/service.py:102-122 | the greedy choice has the maximum total score among all admissible choices |
| DailySelection.GreedyLeads | core/reddit_intelligence/service.py:107-120 | on every prefix of the list the greedy choice has picked at least as many signals as any admissible choice |
| DailySelection.GreedyAdmissible | core/reddit_intelligence/service.py:108-120 | the selection itself obeys the rules: no ignored signal, at most two per subreddit, at most the limit |
| DailySelection.TakenIff | core/reddit_intelligence/service.py:108-120 | a signal is taken exactly when it is actionable, fewer than two from its subreddit were taken before it, and fewer than the limit in all |
| DailySelection.LimitRespectedIff | core/reddit_intelligence/service.py:116-120 | the result is no longer than the requested limit exactly when the limit is at least one or nothing is actionable: the source appends before it tests |
| RedditIntelligence.PendingRankedIsSorted | core/reddit_intelligence/repository.py:63-77 | the query returns exactly the pending rows, by score and then by recency |
| RedditIntelligence.PageIsRankedFromTable | core/reddit_intelligence/repository.py:63-77 | a page is ranked by score and holds pending rows only; with room for all of them it holds them all |
| RedditIntelligence.PageSize | core/reddit_intelligence/service.py:102-106 | the daily plan looks at all pending signals, or at the first thousand |
| RedditIntelligence.DailyPlanOptimalOverRuns | core/reddit_intelligence/service.py:80-122 | in every reachable table the daily plan is optimal among the first thousand pending signals; no assumption on scores is left, because every stored score is clamped |
| RedditIntelligence.DailyPlanOptimalOverall | core/reddit_intelligence/service.py:102-122 | it is optimal among all pending signals when there are at most a thousand or the page already fills the limit |
| RedditIntelligence.ScoresStayInRange | core/reddit_intelligence/service.py:63-80 | every stored score stays between 0 and 100 over every run |
| RedditIntelligence.RedditIntelligenceService.DailyPlan | core/reddit_intelligence/service.py:102-122 | what is selected is pending and actionable, and beats every admissible choice of the page |
| RedditIntelligence.RedditIntelligenceService.AnalysePost | core/reddit_intelligence/service.py:40-97 | one analysed post appends the signal that history, both caps and the score adjustments determine |
| RedditIntelligence.MentionIff | core/reddit_intelligence/service.py:40-61 | in counts: a mention is made exactly when a direct post's intent has rows that perform three points on average, or an implicit one's more than fifteen, and both caps leave room; a trend post is ignored and every other one answered without a mention |
| RedditIntelligence.ScoreMeans | core/reddit_intelligence/service.py:63-80 | the score in counts: keyword boost up to a hundred, plus eight or minus five by the subreddit's thirty days, between 0 and 100 |
| RedditIntelligence.NewSignalMeans | core/reddit_intelligence/service.py:84-97 | a new signal names its post, waits for an answer and has not performed yet |
| RedditIntelligence.CountsGrow | core/reddit_intelligence/repository.py:114-186 | what one more row adds to every count and sum the queries use, from zero on |
| RedditIntelligence.StepMeans | core/reddit_intelligence/repository.py:79-112 | feedback changes one row's performance to karma and twice the replies, a status update whether it is pending, a post appends a row |
| RedditIntelligence.RedditSignalRepository.SaveSignal | core/reddit_intelligence/repository.py:20-61 | the signal is appended to the table |
| RedditIntelligence.RedditSignalRepository.UpdateSignalStatus | core/reddit_intelligence/repository.py:79-92 | only the status of the named row changes |
| RedditIntelligence.RedditSignalRepository.UpdateFeedback | core/reddit_intelligence/repository.py:94-112 | only the performance of the named row changes, to karma plus twice the replies |
| RedditIntelligence.CapsHoldOverRuns | core/reddit_intelligence/service.py:52-61 | over every run inside one counting week, 5M <= 2N+3 for all signals and 10m <= 3n+7 in every subreddit |
| RedditIntelligence.MentionLeavesCapsHolding | core/reddit_intelligence/service.py:55-61 | right after any mention both bounds hold for the week counted at that moment, whatever happened before |
| RedditIntelligence.CapsMayLapseAcrossWeeks | core/reddit_intelligence/repository.py:158-180 | across a week boundary the bound can lapse: a concrete run of posts one second apart |
| RedditIntelligence.CapsHoldIff | core/reddit_intelligence/repository.py:158-180 | the caps hold at any time over every run of posts inside a span exactly when the span is at most a week |
| RedditIntelligence.TwoWeekCapsHold | core/reddit_intelligence/service.py:52-61 | over every run whatsoever, the mentions of the last week stay within both caps of the signals of the last two weeks, overall and in every subreddit |
| ContextBudget.CountTokens | core/context_controller.py:66-74 | the loop computes the length-based token count |
| ContextBudget.CostBounds | core/context_controller.py:66-74 | a message costs a quarter of its "role: content" text, rounded down, and at least one token |
| ContextBudget.TruncateContentToFit | core/context_controller.py:135-161 | it returns nothing exactly when even empty content does not fit; every result fits and is the last cut before the first one that does not fit |
| ContextBudget.SearchCut | core/context_controller.py:151-161 | the binary search terminates and finds the last fitting cut |
| ContextBudget.LongestCutIff | core/context_controller.py:151-161 | the kept cut is the longest that fits exactly when the full content, if it fits, is not separated from the shorter fitting cuts by a gap at the last character |
| ContextBudget.LongestCutWithoutTrailingSpace | core/context_controller.py:154-156 | for content not ending in whitespace the kept cut is the longest that fits, despite the stripping and the ellipsis |
| ContextBudget.TrailingSpaceLosesText | core/context_controller.py:154-156 | with trailing whitespace a longer fitting cut can be missed: a concrete message |
| ContextBudget.LastFittingUnique | core/context_controller.py:135-161 | the cut that the search is specified to return is unique |
| ContextBudget.ShortenedMeans | core/context_controller.py:151-161 | a cut keeps the role and a prefix of the content without trailing whitespace, and an ellipsis marks every cut that is neither empty nor whole |
| ContextBudget.ChooseSnapshot | core/context_controller.py:88-115 | the first snapshot in the middle is kept whole if it fits with both ends, shortened if some cut fits, dropped otherwise |
| ContextBudget.SnapshotIff | core/context_controller.py:89-95 | what truncation takes for a snapshot: a system message that begins with "Strategic Snapshot:" |
| ContextBudget.FoundSnapshotIsFirst | core/context_controller.py:89-95 | the one found is the first between the two ends |
| ContextBudget.SnapshotKeptWhole | core/context_controller.py:104-108 | in token costs: a snapshot that fits between the two ends is kept whole |
| ContextBudget.SnapshotShortenedIff | core/context_controller.py:109-115 | in token costs: one that does not fit is shortened exactly when an empty one fits, and dropped otherwise |
| ContextBudget.HistoryMeans | core/context_controller.py:96-102 | the history is the middle of the conversation, position by position, without the first snapshot |
| ContextBudget.KeepHistory | core/context_controller.py:117-121 | newest first, a history message is kept exactly when it still fits with those kept after it; order is preserved |
| ContextBudget.KeptInOrder | core/context_controller.py:117-121 | what is kept is exactly the marked messages, in their order |
| ContextBudget.TruncateMessages | core/context_controller.py:76-133 | within budget nothing changes; over budget the result is the first message, at most one snapshot, the kept history and the last message, as the plan says |
| ContextBudget.TruncateLoneMessage | core/context_controller.py:85-133 | a lone message over budget is both first and last, and comes back twice |
| ContextBudget.FitsIff | core/context_controller.py:76-133 | an over-budget conversation of two or more messages is made to fit exactly when the first message and an empty last one fit; otherwise exactly those two come back unchanged |
| ContextBudget.UserShortenedLast | core/context_controller.py:122-131 | the user message is shortened only when nothing from the middle was kept |
| ContextBudget.NothingCanBePutBack | core/context_controller.py:117-122 | when the user message is whole, no dropped history message can be put back within the budget |
| ContextBudget.NewestFirst | core/context_controller.py:118-121 | at the newest message where any other fitting choice of history differs, the truncation keeps that message |
| ContextBudget.BuildMessages | core/context_controller.py:20-64 | the result is the assembled conversation if it fits, else its truncation as planned; it meets the budget exactly when the system prompt and an empty user message do; the system prompt is first and the user speaks last |
| ContextBudget.Assemble | core/context_controller.py:30-49 | non-dictionary memories are dropped before the history limit applies, roleless ones after it |
| ContextBudget.AssembledMeans | core/context_controller.py:30-49 | position by position: the system prompt, the snapshot if there is one, the remembered history, the user message |
| ContextBudget.HistoryRemembers | core/context_controller.py:31-47 | the history holds, in memory order, exactly one message for each of the newest entries within the limit that has a role: its stripped role and its content, or else its text, or else nothing |
| StrategyActions.NormaliseIdempotent | core/strategy_action_store.py:257-297 | normalising a stored item again, at any later time, gives it back |
| StrategyActions.NormalisedFields | core/strategy_action_store.py:257-297 | what normalising fills in, corrects and keeps, field by field |
| StrategyActions.EvaluationIs | core/risk_evaluation_engine.py:26-53 | the risk and impact of each kind of action; only scaling looks at sales |
| StrategyActions.AddGrowsTable | core/strategy_action_store.py:246-255 | ids grow over the whole history, so an upsert never overwrites an evicted action and the table gains exactly one row |
| StrategyActions.SetStatusKeepsValid | core/strategy_action_store.py:358-371 | a status change touches one row and keeps memory equal to the newest part of the table |
| StrategyActions.FindAfterSetStatus | core/strategy_action_store.py:363-371 | after a status change every other action reads as before |
| StrategyActions.StatusMeans | core/strategy_action_store.py:358-371 | only an execution stamps the action; nothing but its status and that stamp changes |
| StrategyActions.FindIff | core/strategy_action_store.py:299-303 | the item found is the first in memory with the id, and none is found exactly when there is none |
| StrategyActions.RestartRecovers | core/strategy_action_store.py:117-135 | a store opened on the table equals the store that wrote it |
| StrategyActions.RowsSorted | core/strategy_action_store.py:117-135 | a store is opened on the rows of its table, each once, in the order of their creation |
| StrategyActions.RowsRenormalised | core/strategy_action_store.py:117-135 | each of them is normalised again, in place |
| StrategyActions.RunsStayRecoverable | core/strategy_action_store.py:47-68 | after every run of additions and status changes with increasing creation times: memory is the newest part of the table, the table holds every action ever added, and a restart yields the same store |
| StrategyActions.CapacityZeroOverwrites | core/strategy_action_store.py:246-255 | with capacity zero every action gets the same id and the table never holds more than one row |
| StrategyActions.RegisterDuplicatesIff | core/strategy_action_execution_layer.py:37-64 | registering duplicates a pending action exactly when an unknown type falls back to a review that is still pending in memory |
| StrategyActions.RegisterAllKeepsPendingUnique | core/strategy_action_execution_layer.py:28-66 | registering plans of known types never duplicates a pending action |
| StrategyActions.RegistrableIff | core/strategy_action_execution_layer.py:37-50 | a request is registered exactly when it names a kind, has a target and a reason, and is not already pending in memory under a known kind |
| StrategyActions.RegisteredFields | core/strategy_action_execution_layer.py:52-64 | a registered request becomes a pending action with its own fields, an unknown kind a review, and an id above every id in memory |
| StrategyActions.StrategyActionStore.constructor | core/strategy_action_store.py:39-68 | opening the store on a table normalises its rows in creation order and keeps the newest |
| StrategyActions.StrategyActionStore.NextId | core/strategy_action_store.py:246-255 | the loop returns one more than the highest id in memory |
| StrategyActions.StrategyActionStore.Add | core/strategy_action_store.py:305-333 | the new action is normalised, appended to the bounded deque and written through |
| StrategyActions.StrategyActionStore.SetStatus | core/strategy_action_store.py:358-371 | the action is changed in memory and in the table; an unknown id changes nothing |
| StrategyActions.StrategyActionStore.FindPendingAction | core/strategy_action_store.py:347-356 | the newest matching pending action is found, and an unknown type never matches |
| StrategyActions.NewestPendingFound | core/strategy_action_store.py:347-356 | the pending action found matches in kind, target and reason, and no newer one does |
| StrategyActions.StrategyActionStore.RegisterPendingActions | core/strategy_action_execution_layer.py:28-66 | blank and already pending requests are skipped, the others added in order |
| ActionExecution.ActionExecutionStore.TryStartExecution | core/action_execution_store.py:83-127 | a running row is inserted exactly when the newest one is neither queued nor running |
| ActionExecution.ActionExecutionStore.Complete | core/action_execution_store.py:129-150 | the named row gets its terminal status and finish time, nothing else changes |
| ActionExecution.ActionExecutionStore.ListForAction | core/action_execution_store.py:208-222 | only rows of the table that belong to the action; they are the end of its history; nothing of that history is missing unless the clamped limit is used up |
| ActionExecution.StrategyHandler.ShouldOpenCircuitBreaker | core/handlers/strategy_handler.py:64-84 | the scan opens the breaker exactly when the rows looked at hold as many recent failures as the threshold |
| ExecutionSafety.BreakerOpenIff | core/handlers/strategy_handler.py:64-84 | the breaker is open exactly when as many of the newest rows, three times the threshold, at least five and at most five hundred, failed within the window as the threshold |
| ActionExecution.StrategyHandler.CheckGates | core/handlers/strategy_handler.py:137-190 | the gates on the action and the breaker, in the source's order |
| ExecutionSafety.GatesOpenIff | core/handlers/strategy_handler.py:137-190 | the gates are open exactly when the action is known, has text in its payload, is neither completed, failed nor rejected, needs no approval or has it, and the breaker is closed |
| ExecutionSafety.GatedBecause | core/handlers/strategy_handler.py:154-190 | otherwise the first of these reasons, in this order, is given |
| ExecutionSafety.ApprovalIff | core/handlers/strategy_handler.py:31-54 | the event's own word decides on approval; without one, automatic execution counts as approval |
| ExecutionSafety.PayloadIff | core/handlers/strategy_handler.py:56-62 | the payload is enough exactly when target and reason hold more than whitespace |
| Text.SpacesAre | core/handlers/strategy_handler.py:56-62 | the whitespace that stripping removes, character by character |
| ActionExecution.StrategyHandler.StartExecution | core/handlers/strategy_handler.py:192-228 | a success or a fresh running row blocks; a stale running row is timed out first |
| ExecutionSafety.BlockedBecause | core/handlers/strategy_handler.py:192-228 | a success stays, a queued execution never gives way, and a running one only after the whole timeout |
| ExecutionSafety.NotBlockedIff | core/handlers/strategy_handler.py:192-228 | nothing blocks exactly when the newest execution neither succeeded nor is still in its time |
| ExecutionSafety.FirstRefusal | core/handlers/strategy_handler.py:127-228 | an attempt is refused by the gates before the newest execution is looked at, and a refused one changes nothing |
| ActionExecution.StrategyHandler.RecordOutcome | core/handlers/strategy_handler.py:229-392 | the running row and the action's status get what the outcome and its verification say |
| ActionExecution.StrategyHandler.ExecuteStrategyAction | core/handlers/strategy_handler.py:127-392 | one event changes both stores exactly as its specification says, or refuses and changes nothing |
| ExecutionSafety.ExecutionsAreSafe | core/handlers/strategy_handler.py:179-392 | in every reachable state, per action: only the newest row may be running, a success is the newest row (so at most one ever), an executed status means it succeeded, a failed status means it failed, and every timed-out row ran for the whole timeout |
| ExecutionSafety.OverMeansNoMoreExecutions | core/handlers/strategy_handler.py:179-182 | once an action is failed, rejected, completed or evicted, no later run of events adds an execution of it |
| ExecutionSafety.NoUnapprovedExecution | core/handlers/strategy_handler.py:35-54 | only an attempt at the action changes its history, and a risk that needs approval runs only on an explicit approval or, without one, on automatic execution |
| ExecutionSafety.OutcomeIsRecorded | core/handlers/strategy_handler.py:87-96 | an admitted attempt adds one execution: a success exactly for a non-empty output with no status or an accepted one, a failure exactly for an exception or any other output, still running exactly if the executor never returned, skipped exactly without an executor |
| ExecutionSafety.ActionFollowsOutcome | core/handlers/strategy_handler.py:229-392 | the action is executed and stamped, failed, or left alone exactly as that execution ended |
| ExecutionSafety.EarlierExecutionsStay | core/handlers/strategy_handler.py:192-205 | of the earlier executions only a running one changes: it is timed out |
| ExecutionSafety.OthersUnaffected | core/handlers/strategy_handler.py:127-392 | no other action and no other history changes |
| ExecutionSafety.LookbackExactOverRuns | core/handlers/strategy_handler.py:64-84 | for thresholds from 1 to 499, in every reachable state, scanning the newest max(5, 3T) rows decides the breaker exactly as scanning all rows |
| BreakerBound.FailuresPerWindow | core/handlers/strategy_handler.py:188-218 | over every run, any window of the breaker's length holds at most threshold failed or timed-out executions of an action, and one more only when its newest execution failed; it exceeds the threshold somewhere exactly when that failure came within a window of the timed-out execution threshold places before it |
| BreakerBound.AttemptExceedsIff | core/handlers/strategy_handler.py:188-209 | from a reachable state, an admitted attempt pushes some window above the threshold exactly when it fails and ends within a window of the time the execution threshold places before it finished |
| BreakerBound.ThresholdIsNoBound | core/handlers/strategy_handler.py:188-209 | the threshold itself is no bound: for any threshold and any window long enough for threshold - 1 timeouts, a concrete run exceeds it, because the breaker is read before the stale row is timed out |
| BreakerBound.ThresholdBoundsIff | core/handlers/strategy_handler.py:188-209 | the threshold bounds every window of every run exactly when the window is shorter than threshold - 1 timeouts |
| BreakerBound.DefaultsExceedThreshold | core/config.py:5-8 | the default settings do not keep the threshold |
| ExecutionSafety.HugeThresholdDisablesBreaker | core/action_execution_store.py:208-209 | a threshold above 500 can never be met by the clamped lookback |
| AdaptivePolicy.LimitsStayInRange | core/adaptive_policy_engine.py:123-139 | over any outcomes the limits stay in [4,8] and [1,5], the counters count, and one outcome moves each limit by at most one |
| AdaptivePolicy.SteadyOutcomesMoveLimits | core/adaptive_policy_engine.py:123-139 | n steady gains above 100 move the limits n steps apart until 4 and 5; n steady losses move them n steps together until 8 and 1 |
| AdaptivePolicy.NeutralOutcomesRaiseThreshold | core/autonomy_policy_engine.py:147-148 | automatic executions record no revenue, so on their own they raise the impact threshold to 8 |
| AdaptivePolicy.AdaptivePolicyEngine.RecordActionOutcome | core/adaptive_policy_engine.py:207-215 | the counters and both limits are updated from the outcome |
| AdaptivePolicy.OutcomeMeans | core/adaptive_policy_engine.py:123-139 | in counts: both counters first; the threshold moves down above seven successes in ten and up below four, the budget up above an average of a hundred and down below zero, each within its range |
| AdaptivePolicy.InitialPolicyMeans | core/adaptive_policy_engine.py:44-51 | a new policy has no outcomes, and both configured limits within their ranges |
| AdaptivePolicy.AdaptivePolicyEngine.RefreshStrategyWeights | core/adaptive_policy_engine.py:149-199 | every eligible weight becomes the clamped blend of itself and its normalised score; every other weight is untouched; the whole map is the specified refresh |
| AdaptivePolicy.RefreshedWeight | core/adaptive_policy_engine.py:141-175 | the weight of a kind with five decisions or more becomes seven tenths of itself, or of one, and three tenths of its score relative to the best such kind, between 0.1 and 3 |
| AdaptivePolicy.OtherWeights | core/adaptive_policy_engine.py:157-184 | every other weight stays, present or not |
| AdaptivePolicy.RefreshesActAlone | core/adaptive_policy_engine.py:166-184 | k refreshes of the whole map do to each eligible weight what k blends with its own score do |
| AdaptivePolicy.OthersUntouched | core/adaptive_policy_engine.py:157-184 | k refreshes leave the weight of every ineligible kind as it was |
| AdaptivePolicy.WeightsStayInRange | core/adaptive_policy_engine.py:168-175 | k refreshes keep a map of weights within [0.1, 3] |
| AdaptivePolicy.WeightsConverge | core/adaptive_policy_engine.py:168-175 | after k refreshes of the map on unchanged performance an eligible weight is in [0.1, 3] and its distance to max(0.1, normalised score) has shrunk by 0.7 each time |
| AdaptivePolicy.DecayedIsPower | core/adaptive_policy_engine.py:168-175 | the bound of that convergence is the starting distance times 0.7 to the power of k |
| AdaptivePolicy.OrderIsKept | core/adaptive_policy_engine.py:141-175 | two eligible kinds ordered the same way in weight and score stay so ordered over k refreshes of the map |
| Autonomy.AutonomyPolicyEngine.CountAutoExecutedLast24h | core/autonomy_policy_engine.py:73-80 | the loop counts the automatic executions of the trailing day |
| Autonomy.AutonomyPolicyEngine.ApplyPolicy | core/autonomy_policy_engine.py:94-189 | in partial mode the chosen actions are executed in order and their outcomes recorded; in any other mode nothing changes |
| Autonomy.ChosenIff | core/autonomy_policy_engine.py:73-135 | an application executes exactly the pending low-risk actions at or above the threshold for which the older ones of that kind and the automatic executions of the last day leave room |
| Autonomy.AutoCounted | core/autonomy_policy_engine.py:73-80 | the count is the number of actions in memory executed automatically since the cutoff |
| Autonomy.IdsAre | core/autonomy_policy_engine.py:135-189 | the report of an application names the executed actions in order |
| Autonomy.ApplyRecords | core/autonomy_policy_engine.py:94-148 | each executed action records one outcome without revenue; in any other mode nothing happens |
| Autonomy.DailyBudgetHolds | core/autonomy_policy_engine.py:113-135 | over every run of registrations, applications, outcomes, manual executions and rejections, the store never shows more than five automatic executions in the trailing day, and the limits stay in range |
| AutonomyLog.ShownOverRuns | core/autonomy_policy_engine.py:73-80 | over every run the count never exceeds the true number of automatic executions, and equals it while nothing was hidden |
| AutonomyLog.ShowsAllIff | core/autonomy_policy_engine.py:73-80 | from a state that shows every automatic execution, an event keeps it so exactly when it neither changes the status of such an execution nor evicts one |
| AutonomyLog.StampedOverRuns | core/strategy_action_store.py:358-371 | in every reachable state every automatic execution in memory carries its time |
| AutonomyLog.TrueBudgetHolds | core/autonomy_policy_engine.py:113-135 | on every run that hides no automatic execution, at most five really happened in the trailing day |
| AutonomyLog.BudgetCanBeExceeded | core/autonomy_policy_engine.py:113-135 | otherwise the true number has no bound but time: k rounds over a store of capacity one really execute k actions within one day |
| Autonomy.OnlyLowRiskAutoExecuted | core/autonomy_policy_engine.py:82-92 | an application changes an action only if it was pending, low-risk and at or above the impact threshold: a price test, or scaling with five sales, and only the latter above threshold 6 |
| Autonomy.ChosenAreStamped | core/strategy_action_execution_layer.py:76-77 | every chosen action ends up automatically executed, stamped with the time of its execution |
| Autonomy.ApplyExecutesOldest | core/autonomy_policy_engine.py:92-135 | each application takes the oldest eligible actions, as many as the budget leaves |
| EventBus.BusIsFaithful | core/bus.py:16-54 | after any run each counter is the number of queued events of its trace and within the limit, events leave in the order accepted, and the history is the newest 200 accepted events |
| EventBus.DroppedIff | core/bus.py:22-37 | an event is dropped exactly when its trace already has the limit queued |
| EventBus.TidyIff | core/bus.py:24-51 | no counter of zero is ever stored exactly when the limit is at least one or nothing was pushed |
| EventBus.BudgetKeyMeans | core/bus.py:22-23 | events share a budget when they name the same trace, by request id without a trace id, and globally when they name nothing |
| EventBus.HistoryHoldsTwoHundred | core/bus.py:16-41 | the history is never longer than two hundred events, and complete until then |
| EventBus.CascadeBus.PushEvent | core/bus.py:22-41 | push as specified, including the counter created by a refused event |
| EventBus.CascadeBus.PopEvent | core/bus.py:43-54 | the oldest event leaves and its counter is lowered or removed |
| EventBus.CascadeBus.Recent | core/bus.py:56-59 | the end of the history, as long as the request and the history allow, none for a limit below one |
| EventBus.RecentAreNewestAccepted | core/bus.py:36-59 | after any run, what is read from the history is the newest events ever accepted, up to 200 |
| ProductLifecycle.FindFocus | core/execution_focus_engine.py:10-35 | a building proposal, else an approved one, else the newest launch |
| LifecycleEvents.FocusMeans | core/execution_focus_engine.py:10-35 | the focus is on the newest building proposal, else the newest approved one, else the newest launch, else nothing |
| ProductLifecycle.ProductProposalStore.Add | core/product_proposal_store.py:64-69 | a draft is appended to the bounded deque and the proposals-only focus refreshed |
| ProductLifecycle.ProductProposalStore.TransitionStatus | core/product_proposal_store.py:80-100 | one proposal moves along an edge and the proposals-only focus is refreshed |
| ProductLifecycle.ProductProposalStore.Enforce | core/execution_focus_engine.py:37-49 | exactly the focused proposal is flagged |
| ProductLifecycle.ProductLaunchStore.RefreshExecutionFocus | core/product_launch_store.py:105-110 | both stores are flagged after the common selection |
| ProductLifecycle.ProductLaunchStore.AddFromProposal | core/product_launch_store.py:118-141 | an existing launch is returned, otherwise one is created and focus refreshed |
| ProductLifecycle.ProductLaunchStore.SetStatus | core/product_launch_store.py:231-234 | the launch's status is replaced and the focus of both stores refreshed |
| ProductLifecycle.OpportunityHandler.ValidateGlobal | core/control.py:169-181 | the check passes exactly when at most one proposal is active |
| LifecycleEvents.ActiveCounted | core/domain/integrity.py:24-27 | the count checked is the number of proposals approved, building or ready to launch |
| ProductLifecycle.OpportunityHandler.HandleTransition | core/handlers/opportunity_handler.py:85-124 | a transition event: validation, move, global check, focus, and the launch |
| LifecycleEvents.TransitionIff | core/handlers/opportunity_handler.py:85-106 | a transition event moves its proposal exactly when it is known, the edge is in the graph and has an event, and no other proposal is in the way; otherwise it changes nothing and says why |
| LifecycleEvents.MoveAllowedIff | core/domain/integrity.py:29-47 | the validation passes exactly along the listed edges, into the active statuses only while no other proposal has one |
| ProductLifecycle.OpportunityHandler.HandleLaunch | core/handlers/opportunity_handler.py:109-114 | the launch is created, marked and focused |
| LifecycleEvents.LaunchMeans | core/handlers/opportunity_handler.py:109-114 | the launch of a proposal is running, and a new one exactly when the proposal had none in the store |
| LifecycleEvents.LaunchedRuns | core/handlers/opportunity_handler.py:85-114 | a proposal launched from review has a running launch |
| ProductLifecycle.OpportunityHandler.HandleBuildPlan | core/handlers/opportunity_handler.py:150-192 | plan building approves a sourced draft on the way, without refreshing the launches' flags |
| LifecycleEvents.BuildPlanIff | core/handlers/opportunity_handler.py:150-192 | plan building accepts exactly a proposal being worked on, and a draft with a source while no other proposal is active, which it approves |
| ProductLifecycle.OpportunityHandler.HandleExecutePlan | core/handlers/opportunity_handler.py:253-259 | plan execution moves the proposal to review |
| LifecycleEvents.ExecutePlanIff | core/handlers/opportunity_handler.py:253-259 | plan execution accepts exactly a proposal that is ready to launch, and sends it to review |
| ProductLifecycle.OpportunityHandler.HandleLaunchTransition | core/handlers/opportunity_handler.py:143-148 | a launch moves along its own graph or the event fails |
| LifecycleEvents.LaunchTransitionIff | core/handlers/opportunity_handler.py:143-148 | a launch moves exactly along the listed edges, alone |
| LifecycleEvents.GeneratedMeans | core/product_proposal_store.py:64-69 | a generated proposal is a draft at the end of the store, with the next id and its source |
| LifecycleEvents.StoresStayBounded | core/product_proposal_store.py:64-69 | over every run neither store holds more than its capacity |
| LifecycleSafety.LifecycleIsSafe | core/domain/integrity.py:24-47 | over every run at most one proposal is approved, building or ready to launch; a proposal is flagged exactly when it is the proposals-only selection; the global check never fails |
| LifecycleSafety.OneLifePerProposal | core/domain/lifecycle.py:14-23 | over every run a proposal changes status at most six times, a launched one made exactly five changes (no stage is skipped), and at most one launch is created for it |
| LifecycleSafety.HandleStatus | core/domain/lifecycle.py:14-23 | every event moves every proposal along an edge of the graph or not at all, and creates a launch only for a proposal that goes from review to launched |
| LifecycleSafety.OneFlaggedIff | core/handlers/opportunity_handler.py:150-163 | from a state with at most one flagged item, an event keeps it so exactly when it is not an automatic approval made while a launch holds the flag |
| LifecycleSafety.OneFlaggedOverRuns | core/product_launch_store.py:105-110 | over every run without such an approval at most one item across proposals and launches is flagged |
| LifecycleSafety.TwoItemsFlagged | core/handlers/opportunity_handler.py:156-163 | a concrete run of the automatic approval that leaves two items flagged |
| LifecycleSafety.FocusFallsOnNewestLaunch | core/execution_focus_engine.py:31-33 | without an executing proposal a refresh flags exactly the newest launch, archived or not: no launch status is spelled "launched" |
| GumroadSync.CollectNew | core/services/gumroad_sync_service.py:72-79 | the sales are, in feed order, exactly the entries that have an id and stand before the cursor, each with its own id, cents, tracking and time |
| GumroadSync.ReadingMeans | core/services/gumroad_sync_service.py:72-79 | the same of the specification every sync is proved against |
| GumroadSync.SyncMeans | core/services/gumroad_sync_service.py:72-114 | a sync adds the number and the cents of those entries to the launch, makes the newest of them the cursor and stamps the time |
| GumroadSync.GumroadSyncService.SyncSales | core/services/gumroad_sync_service.py:56-124 | every linked launch is synced and stamped, every other kept, every new sale attributed once in order and credited to its tracking's subreddit if such counts are kept, and the report adds up |
| GumroadSync.NewestLaunchFirst | core/services/gumroad_sync_service.py:61-67 | launches are read newest first |
| GumroadSync.LinkedOneMore | core/services/gumroad_sync_service.py:61-67 | the launches counted as synced are those with a product |
| GumroadSync.CreditsAreExact | core/services/gumroad_sync_service.py:98-105 | each subreddit's count grows by exactly the synced sales whose tracking names it |
| GumroadSync.GumroadSyncService.SyncLaunch | core/services/gumroad_sync_service.py:68-114 | one launch gets the count and cents of its new sales, the newest id as cursor, and the time of the sync |
| GumroadSync.SalesCountedExactlyOnce | core/services/gumroad_sync_service.py:72-114 | if the feed grows only at its head and never repeats an id, then after any run of arrivals and syncs a launch has grown by exactly the number and the cents of the entries with an id in the feed at the last sync, each handed on exactly once |
| GumroadSync.SyncIsIdempotent | core/services/gumroad_sync_service.py:72-114 | a second sync with no new sale changes neither metrics nor cursor, only the time of the sync |
| GumroadSync.LostCursorIff | core/services/gumroad_sync_service.py:77-79 | when the feed drops sales, a sync reads exactly the fresh ones if and only if the sale at the cursor is still listed or no sale counted before is; otherwise it counts the rest again |
| GumroadSync.AttributionConserves | core/services/gumroad_sync_service.py:86-97 | attribution records one sale, to the cent, for each synced sale with a known tracking |
| RevenueAttribution.RevenueIsConserved | core/revenue_attribution/store.py:166-186 | splitting a delta over `count` sales loses or gains at most count/2 cents, nothing for one sale, and appends `count` sales |
| RevenueAttribution.TiesGoToEven | core/revenue_attribution/store.py:179 | an exact half of a cent goes to the even side |
| RevenueAttribution.RecordedSaleMeans | core/revenue_attribution/store.py:140-188 | each sale says its product and time, and channel, subreddit and post exactly when it was sold within the window after the tracking was created |
| RevenueAttribution.RecordedCount | core/revenue_attribution/store.py:154-160 | a call records the requested number of sales, at least one, and none for an unknown tracking |
| RevenueAttribution.GeneratedIdsCollideIff | core/revenue_attribution/store.py:172-173 | two calls for one tracking, with any sales recorded between them, generate a common sale id exactly when the log grew by an even number from the start of the first to the start of the second, no more than twice the first count less two |
| RevenueAttribution.GeneratedIdsRepeat | core/revenue_attribution/store.py:172-173 | two calls for two sales each repeat an id: a concrete run |
| RevenueAttribution.SingleSalesNeverCollide | core/revenue_attribution/store.py:160-173 | if every call that generates ids asks for one sale, no generated id ever repeats |
| RevenueAttribution.SummaryConservesOverRuns | core/revenue_attribution/store.py:200-237 | in every reachable store the totals are the sale count and cent sum, channel and product buckets add up to them, and subreddit buckets stay within the reddit channel |
| RevenueAttribution.GroupingConserves | core/revenue_attribution/store.py:206-228 | each bucket holds exactly the sales with its key, and the buckets together exactly the keyed sales |
| RevenueAttribution.BucketsMean | core/revenue_attribution/store.py:206-228 | each bucket holds the number and cents of exactly the sales of its product, its channel, or attributed to its subreddit |
| RevenueAttribution.RevenueAttributionStore.UpsertTracking | core/revenue_attribution/store.py:105-138 | product, subreddit, post, price and creation time are those given, else those stored, else the proposal, nothing or now |
| RevenueAttribution.UpsertMeans | core/revenue_attribution/store.py:121-137 | a new tracking sells its own proposal and was created now unless told otherwise; a later upsert replaces the proposal and every field it gives, and no other tracking changes |
| RevenueAttribution.TrackingKeepsField | core/revenue_attribution/store.py:123-132 | over every run of upserts and sales a known tracking keeps each field until an upsert gives it anew |
| RevenueAttribution.RevenueAttributionStore.RecordSale | core/revenue_attribution/store.py:153-189 | sales are appended for a known tracking, nothing for an unknown one |
| RevenueAttribution.RevenueAttributionStore.Summary | core/revenue_attribution/store.py:200-228 | one pass computes the totals and the three groupings |
| StrategyCycle.RunStrategyDecision | core/handlers/strategy_handler.py:415-485 | a cycle logs a skip exactly when some logged action is less than a cooldown old, nothing when its decision was processed before, and otherwise an action |
| StrategyCycle.CoolingDownIff | core/handlers/strategy_handler.py:112-125 | the cooldown is active exactly while some logged action is less than a cooldown old |
| StrategyCycle.ExcludedCyclesAreSpaced | core/strategic_loop_engine.py:56-65 | over every interleaving, for any callers and any choice of who takes the lock: cycles of one caller, or of two that lock, are at least the cooldown apart |
| StrategyCycle.EnterIff | core/ipc_http.py:629-654 | a caller starts a cycle exactly when it needs no lock or the lock is free; a request that finds it taken logs a skip, the loop does not |
| StrategyCycle.CheckIff | core/handlers/strategy_handler.py:112-125 | under interleaving too, a cycle passes the check exactly when every logged action is at least a cooldown old |
| StrategyCycle.PersistMeans | core/services/strategy_decision_orchestrator.py:86-107 | a cycle that passed persists once and logs an action, unless its decision is a duplicate |
| StrategyCycle.LeaveFreesLock | core/ipc_http.py:690-692 | whatever happened in its cycle, a caller that leaves holds no lock |
| StrategyCycle.FreshCycleExecutes | core/strategic_loop_engine.py:56-65 | nothing blocks for ever: with the lock free and every logged action a cooldown old, a cycle executes |
| StrategyCycle.OneCycleInFlight | core/ipc_http.py:629-692 | when every caller takes the lock, at most one cycle is in flight |
| StrategyCycle.TwoPerCooldown | core/dispatcher.py:212-221 | with at most one caller that does not lock, no three executed cycles fall within a cooldown |
| StrategyCycle.UnlockedCallerRaces | core/dispatcher.py:212-221 | a caller without the lock races with any other caller: a concrete interleaving in which both execute at the same instant |
| StrategyCycle.DeployedCycles | core/app.py:190-196 | as deployed, the dispatcher races with the loop although the loop holds the lock, and no more than two cycles fall within a cooldown |
| StrategyCycle.SpacedIffLocked | core/strategic_loop_engine.py:56-67 | with a positive cooldown, executed cycles are spaced over every interleaving exactly when every caller takes the lock or there is at most one caller |

## Left out

- HTTP routing, authentication, the user interface, voice and keyboard input, and the clients of OpenAI, Gumroad, Reddit and OpenClaw: plumbing around the protocols.
- SQLite and JSON persistence as such (failures, atomic writes, quarantine, migrations, the legacy JSON fallback): a table is a sequence that never fails.
- ISO timestamps, time zones, UUIDs and the text form of ids: integer clocks and numbers.
- Float rounding: cents and exact reals. The conversion rate and view count of a subreddit bucket are not computed.
- The tiktoken counter: opaque; the length-based fallback is modelled.
- Races of several threads on the event bus and on execution rows, and an executor that returns after its row was timed out: events are handled one at a time.
- The text search that finds a tracking id in a sale and a number of sales in a reasoning text, and the keyword search of a post: their results are parameters.
- Fixed texts, decision outcome rows, decision log payloads, product plans as such, and the generators of proposals and plans: they do not affect what is proved.
- The asynchronous configuration of autonomy, where an application only queues events: the daily budget is proved for the synchronous one.
- `strategy_performance` scores and the sort before the weight refresh: scores are inputs, and since kinds are distinct the order of updates does not matter.
- SQL ordering among equal creation times: additions are given increasing times.
- CapsHoldOverRuns: covers runs inside one counting week only, because over longer spans the bound is false (CapsHoldIff); TwoWeekCapsHold covers every run.
- FailuresPerWindow: covers actions whose type always has an executor, because rows skipped for lack of one push failures out of the lookback.
- ExcludedCyclesAreSpaced: a cycle is a sequence of atomic steps, and the lock itself is atomic.
- UpsertTracking: does not model the extra fields a caller may pass, nor blank ids, which raise.
