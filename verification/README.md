# A verified model of Cognix's coordination core

Cognix runs agents for a workspace: it schedules tasks over several runtime nodes, orders and applies
plans, drives agents through tool calls that people may have to approve, and keeps memory, rate limits
and token budgets around them. This project models the parts of that whose correctness does not show in
any single function body, and proves what they promise for every input, every run and every interleaving.
`dafny verify dfyconfig.toml` checks all of it.

## What is modelled

**Task leases** (`TaskTable`, `TaskClaims`, `LeaseProtocol`, `LeaseBelief`, `LeaseExclusion`, `LeaseCancel`,
`LeaseRetry`, `LeaseExhaustion`, `LeaseIdempotency`, `LeaseKeys`, `LeaseScenarios`, `DispatchLog`, `Dispatchers`,
`Retry`). `TaskStore` is a class over the task table with
one method per store update. `LeaseProtocol` is the state machine in which any number of nodes interleave
those updates at every await: claim, read back, idempotency check, heartbeat, persist, return, re-read,
complete, release, crash, reap, cancel, replay, and a moving clock that a node may have read some time before its
update lands. A worker's belief is the expiry it computed at its last successful claim or heartbeat.
`TaskClaims` says by the columns of the rows which tasks a node claims. `Dispatchers.Dispatcher` is one node's
bookkeeping, from await to await and over whole batches; `DispatchLog` says by columns what each of its steps does.

**Plans** (`PlanSort`, `PlanOrder`, `PlanApply`, `PlanOutcome`). The depth-first sort with its shared visited
set, the two loops of `apply_plan`, and what they come to, told from the outcomes alone. What a step's action does and what a task run returns are arbitrary
functions.

**Agents behind approvals** (`Messages`, `Permissions`, `Approvals`, `AgentTools`, `AgentLoop`,
`AgentEvents`, `AgentRounds`, `AgentActs`, `AgentResume`, `AgentConversations`). Tool execution behind the permission matrix, the approval file, the event stream and its
resumption. The model, the tools, the workspace policy, file faults and the people are arbitrary.

**Stores that stand for something simple** (`Facts`, `RateLimiter`,
`RateLimiterBounds`, `History`). The superseding fact
store stands for a map, the pruned limiter for one that never forgets, the popping loop for the longest
fitting suffix.

**Framing and budgets** (`Framing`, `McpClient`, `Budget`, `Text`). Content-Length frames byte by byte,
requests whose replies may be late, and the token budgets.

Clocks, uuids, JSON decoding, the token encoder and the schedule's next run time are parameters. Times
are whole seconds in the scheduler and reals in the limiter. A byte is the character with its code.
`LeaseProtocol` has one worker path per node and task; engine and dispatcher of one process share a node
id (cognix/api/state.py:166-168), and a second claim by the same owner is let in.

## What the proofs turned up

- `_sort_steps` says it falls back to the original order on cycles (cognix/planner/service.py:1329). It
  returns a depth-first post-order: `PlanOrder.CycleIsReversed`, and `PlanOrder.SortKeepsOrderedPlansOnly`
  says exactly when the original order survives.
- A failure reaches every transitive dependent only in plans where no two steps depend on each other
  (`PlanApply.FailurePropagationIsExact`).
- `estimate_tokens` says "rounded up" (cognix/memory/budget.py:97); it truncates
  (`Budget.EstimateRoundsUpExactlyWhen`, `Budget.OneWordRoundsDown`). `allocate` spreads an
  empty source's share over the active ones in proportion, as it says; what rounding, or a source with
  less content than its share, leaves over goes to the first source whole. A source without a default
  ratio, such as `atomic_facts`, gets nothing beside one that has (`Budget.NoRatioNoTokens`). A negative
  budget is handed out exactly only when every share is whole (`Budget.NegativeBudgets`).
- The retry rule counts recorded executions since creation or replay, whatever they returned
  (`LeaseRetry.EachFailureSettles`). The repository's README promises at lines 280-291 that failed runs, and
  timed-out ones by the same policy, retry until max_retries is exhausted. Without a key that is so while
  no run succeeds and every failure is recorded. Timed-out runs are cancelled before they are recorded and
  add nothing to the count, so a task with retries that only times out is run again and again
  (`LeaseKeys.TimeoutsNeverExhaust`); successes do count, so that after max_retries of them the first
  failure is final (`LeaseKeys.SuccessesUseUpRetries`).
- Retries and idempotency keys exclude each other: `check_idempotency` refuses a key once `last_run` is set,
  and a failed run that is recorded sets it too (cognix/scheduler/store.py:313, executor.py:357-365). From
  then on every run of a keyed task is skipped and counted as a success (`LeaseKeys.KeyedRunIsSkipped`), so a
  keyed task with retries records one execution and never becomes FAILED (`LeaseKeys.KeyedTaskIsNotRetried`,
  `LeaseKeys.RetriesRunOutExactlyWhen`). Until its first recorded run, timeouts repeat it like any other.
- A key that stands only on the row is cleared by `replay_failed` and never found again. The bound of one
  recorded execution plus one per replay holds exactly when the payload carries the key or max_retries is at
  least 1 (`LeaseKeys.KeyBoundIsExact`).
- A worker that lost its lease can still raise `run_count` and store its key: those two updates name no
  owner. They leave lease, state and schedule alone (`LeaseBelief.StaleStepsKeepLeases`).
- Heartbeats keep execution exclusive exactly when interval plus delay fits in the ttl; the interval alone
  does from a ttl of 10 seconds on (`LeaseExclusion.HeartbeatToleranceIsExact`).
- The limiter counts only what is recorded: each record that comes between a check and its own record may
  be one message over the limit (`RateLimiter.NoWindowOverflows`, `RateLimiterBounds.MinuteBoundIsReached`).
  An hourly limit above 60 times the minute limit is never used up
  (`RateLimiterBounds.HourFillsExactlyWhen`).
- The calls saved at an approval gate include calls of the same reply that already ran
  (`AgentResume.GateAfterRun`), and a resumption makes them again, unless the first call is the gated one
  (`AgentResume.GatedReplyRepeatsCalls`). The conversation handed to the model then repeats their answers
  (`AgentResume.ResumedReplyIsAnsweredExactlyWhen`).
- `resume_and_continue` prefers the snapshot in memory (cognix/core/agent.py:730), so approving an older
  request continues the conversation of the latest gate not yet resumed
  (`AgentConversations.ResumesOwnExactlyWhen`, `AgentConversations.OlderApprovalContinuesNewer`).
- Trimming a history looks at roles and costs only and can cut tool results off from the message that asked
  for them (`History.TrimKeepsOrphanedResult`).
- A read that the timeout cancels after any header line leaves the stream out of step
  (`Framing.CancelledReads`).

## Model

| member | source | states |
|---|---|---|
| `Retry.DelaysNeverDecrease` | cognix/scheduler/retry.py:8-14 | the delay never falls as attempts grow, exactly when the base is not negative |
| `Retry.TotalBackoffBounds` | cognix/scheduler/retry.py:8-14 | the sum of the first n delays is at most base·(2^n − 1) and at most n·max_seconds, and equals the former exactly when no delay is capped |
| `TaskTable.TaskStore.Create` | cognix/scheduler/store.py:22-51 | adds one unleased ACTIVE row with run count 0 and changes nothing else |
| `TaskTable.TaskStore.Cancel` | cognix/scheduler/store.py:80-98 | an existing row becomes CANCELED without next run or lease, whatever its state |
| `TaskTable.TaskStore.SelectDue` | cognix/scheduler/store.py:119-139 | distinct due rows, as many as exist up to the limit, in next_run order, none left out that is due earlier |
| `TaskClaims.SelectionByColumns` | cognix/scheduler/store.py:119-139 | what is selected is ACTIVE, due and free of an unexpired lease, in order of next run; such a row is passed over only when the limit is reached, by rows that are due no later |
| `TaskTable.TaskStore.ClaimDueTasks` | cognix/scheduler/store.py:110-155 | selects as above, then leases and reads back one candidate after the other with a clock read for each, while other nodes change the table in between; which of them it claims is said by `TaskClaims.ClaimIsExact` |
| `TaskClaims.ClaimIsExact` | cognix/scheduler/store.py:146-184 | whatever the other nodes do: a candidate is claimed if and only if, as they left the table before its lease, its row is ACTIVE and unowned, the node's own or expired by then, and it is still there when read back; such a row gets owner and expiry, and nothing else is changed |
| `TaskClaims.HeldIsNotClaimed` | cognix/scheduler/store.py:146-184 | a task on which another node holds an unexpired lease when its turn comes is not claimed, and the table stays as it is |
| `TaskTable.ClaimedAreCandidates` | cognix/scheduler/store.py:110-155 | whatever the other nodes do in between, every id is claimed at most once and only from the selection |
| `TaskTable.AloneClaimsAll` | cognix/scheduler/store.py:110-155 | with no other node and a clock that does not go back, every selected row is claimed, in order, and nothing but their leases changes |
| `TaskTable.TaskStore.AcquireLease` | cognix/scheduler/store.py:157-184 | succeeds exactly on an ACTIVE row that is unowned, the owner's own or expired, and then sets owner and expiry |
| `TaskTable.TaskStore.ExtendLease` | cognix/scheduler/store.py:186-207 | succeeds exactly for the owner of an ACTIVE row and moves only the expiry |
| `TaskTable.TaskStore.ReleaseLease` | cognix/scheduler/store.py:209-222 | succeeds exactly for the owner and clears only the lease |
| `TaskTable.TaskStore.CompleteLease` | cognix/scheduler/store.py:224-252 | succeeds exactly for the owner, clears the lease, sets next run and, if given, the state; otherwise the table is unchanged |
| `TaskTable.TaskStore.ReapOrphanedLeases` | cognix/scheduler/store.py:254-273 | clears exactly the expired leases, counts them, and leaves no orphan |
| `TaskTable.TaskStore.ReplayFailed` | cognix/scheduler/store.py:275-295 | succeeds exactly on FAILED rows, which become ACTIVE and due now, without lease, key or counted runs |
| `TaskTable.TaskStore.CheckIdempotency` | cognix/scheduler/store.py:297-321 | refuses exactly a key already on a row that has run; otherwise stores the key |
| `LeaseProtocol.Untouched` | cognix/scheduler/store.py:157-295 | a step on another task leaves row, workers and history of this one alone; only the reaper may clear its expired lease |
| `LeaseBelief.BeliefStep` | cognix/scheduler/store.py:157-295 | every step of every node, claim, heartbeat, release, completion, reaping, cancel and replay included, keeps the lease invariant: beliefs unique and backed by the row, owner null exactly when expiry is |
| `LeaseBelief.BeliefsHold` | cognix/scheduler/store.py:157-295 | with no timing assumption, in every reachable state at most one node believes in an unexpired lease on a task, and owner is null exactly when expiry is null |
| `LeaseBelief.OwnerIsLastAcquirer` | cognix/scheduler/store.py:157-207 | whoever owns a row claimed it and has owned it in every state since |
| `LeaseBelief.WritesNeedAnUnbrokenLease` | cognix/scheduler/store.py:186-252 | a heartbeat, release or completion changes the row only if its node claimed the lease and has not lost it since |
| `LeaseBelief.StaleStepsKeepLeases` | cognix/scheduler/store.py:157-321 | after a lost lease and before a new claim, a step of the node changes the table exactly when it is one of the two updates that name no owner (the run record, and storing a key not yet on the row), and even those leave every owner, expiry, state and next run as they were |
| `LeaseBelief.StaleWritesDoNothing` | cognix/scheduler/store.py:186-252 | a stale heartbeat, release or completion changes nothing |
| `LeaseBelief.StaleRecordIsCounted` | cognix/scheduler/executor.py:357-365 | a run in which a node whose lease was reaped still raises run_count |
| `LeaseExclusion.TimelyRunsExclude` | cognix/scheduler/dispatcher.py:179-281 | if no gap between refreshes, or to completion, exceeds the ttl, no two nodes are between claim and completion of one task in any interleaving |
| `LeaseExclusion.LateHeartbeatsOverlap` | cognix/scheduler/dispatcher.py:206-209 | when interval plus delay exceeds the ttl, a run with two nodes working on one task |
| `LeaseExclusion.HeartbeatToleranceIsExact` | cognix/scheduler/dispatcher.py:206-209 | all punctual runs are exclusive if and only if interval plus delay is at most the ttl; the interval fits from ttl 10, strictly from 11 |
| `LeaseCancel.CancelIsFinal` | cognix/scheduler/dispatcher.py:245-262 | after a cancel the row stays CANCELED with no next run and no lease whatever every node does, no claim succeeds, and a worker that re-reads the row stops |
| `LeaseExhaustion.RetriesExhaustExactly` | cognix/scheduler/dispatcher.py:283-313 | for a task without an idempotency key, in a run with timely heartbeats, no crash, cancel or replay of it and every run failing (and recorded, if max_retries is 0 or less): it records at most max_retries + 1 runs, and is idle and FAILED without next run or lease exactly when it has |
| `LeaseRetry.EachFailureSettles` | cognix/scheduler/dispatcher.py:283-313 | in every timely run, whatever earlier runs returned, keyed or not, with crashes and timeouts: a failure of an uncanceled task is retried, after the k-th delay, if and only if k is at most max_retries, where k is the number of executions recorded since creation or the last replay and at least 1; otherwise the task is FAILED with no next run |
| `LeaseRetry.CrashesBoundRuns` | cognix/scheduler/dispatcher.py:179-313 | a task that never succeeds and is not replayed records at most max_retries + 1 executions plus one for every worker that crashed on it |
| `LeaseKeys.KeyedTaskIsNotRetried` | cognix/scheduler/store.py:297-321 | in every timely run, crashes, cancels and any outcomes included, a task created with a key and at least one retry records at most one execution, is never FAILED and never replayed |
| `LeaseKeys.KeyedRunIsSkipped` | cognix/scheduler/store.py:297-321 | a key check on such a task skips the run if and only if an execution was recorded before, failed or not; after timeouts only, it lets the task run again |
| `LeaseKeys.RetriesRunOutExactlyWhen` | cognix/scheduler/dispatcher.py:187-203 | a task can become FAILED at all, and can do so after exactly max_retries + 1 recorded failures, if and only if it has no key or no retries |
| `LeaseKeys.TimeoutsNeverExhaust` | cognix/scheduler/executor.py:111-115 | for every n and every task with a retry, keyed or not, a run of n executions that all timed out and left it ACTIVE with run_count 0, ready to run again |
| `LeaseKeys.SuccessesUseUpRetries` | cognix/scheduler/executor.py:357-365 | for every task without a key and every n, a run of n successes after which the first failure is retried if and only if n is below max_retries |
| `LeaseKeys.KeyBoundIsExact` | cognix/scheduler/store.py:275-321 | for a task created with a key, executions stay within 1 plus the replays in all timely runs if and only if the payload carries the key or max_retries is at least 1 |
| `LeaseIdempotency.KeyStep` | cognix/scheduler/store.py:275-321 | every step keeps: executions are paid for by one first run plus the replays |
| `LeaseIdempotency.PayloadKeyStays` | cognix/scheduler/dispatcher.py:187-193 | no step changes the key a task's payload carries |
| `LeaseIdempotency.KeyedRunsBounded` | cognix/scheduler/executor.py:357-365 | with exclusive leases and a key in the payload, persisted executions are at most 1 plus the successful replays |
| `LeaseKeys.RowKeyIsLostByReplay` | cognix/scheduler/store.py:275-321 | for every key on the row only and every max_retries of 0 or less, a run with three executions after one replay |
| `Dispatchers.Dispatcher.Claim` | cognix/scheduler/dispatcher.py:111-125 | claims at most batch size and capacity, with other nodes acting between its leases, counts what it claimed, and the books balance |
| `Dispatchers.Dispatcher.Gather` | cognix/scheduler/dispatcher.py:125-313 | for all outcomes of the runs, in any interleaving and with any changes by other nodes: the log of its steps has one whole run for each claimed task and none for another, each step changes the table as `DispatchLog.StepRight` says by columns, every counter rises by the steps of its kind, and nothing is left in flight |
| `DispatchLog.BookAdvances` | cognix/scheduler/dispatcher.py:245-262 | a run is booked once, on the row read back: as a cancel exactly if that is CANCELED, as a failure exactly if the run failed and the row is another, and else as a success, whose lease is completed with the schedule's next run; a failure is settled next |
| `DispatchLog.SettleAdvances` | cognix/scheduler/dispatcher.py:283-313 | a failure is settled on the row read back: retried after the delay of its attempts, or FAILED without a next run, and counted as that; the run is then whole |
| `DispatchLog.DoneIsWhole` | cognix/scheduler/dispatcher.py:125-126 | a batch with nothing under way has made the whole run of every claimed task |
| `Dispatchers.Dispatcher.DispatchOnce` | cognix/scheduler/dispatcher.py:111-126 | claims as above, and then runs exactly what it claimed, with the steps, table and counters of the gather; returns how many it claimed |
| `Dispatchers.Dispatcher.RunLoop` | cognix/scheduler/dispatcher.py:128-150 | after any number of rounds every counter has risen by the steps of its kind, each of them right; claimed = success + failure + canceled and failure = retries scheduled + exhausted |
| `Dispatchers.ActiveFits` | cognix/scheduler/dispatcher.py:111-126 | whenever the books balance, which every method keeps, no more than max_concurrent tasks are active |
| `Dispatchers.Dispatcher.StartRun` | cognix/scheduler/dispatcher.py:179-205 | the task is active; the run is skipped and counted as skipped exactly when its key was seen |
| `Dispatchers.Dispatcher.EndRun` | cognix/scheduler/dispatcher.py:237-244 | the task leaves the active set and nothing else changes |
| `Dispatchers.Dispatcher.AfterRun` | cognix/scheduler/dispatcher.py:245-262 | on the row read back, exactly one of canceled, failure and success rises, as `DispatchLog.BooksAs` says; only success completes the lease, and only a failure is handed on |
| `Dispatchers.Dispatcher.CompleteFailedRun` | cognix/scheduler/dispatcher.py:283-313 | the table settles as the retry rule says, and retries scheduled or exhausted failures rise by one accordingly |
| `Dispatchers.Engine.SettleRun` | cognix/scheduler/engine.py:244-279 | on a failure the engine changes the table as the dispatcher does; on a cancel it releases its own lease only |
| `PlanSort.Sorter.Visit` | cognix/planner/service.py:1335-1345 | the visit that updates the shared visited set and result equals the recursive specification, and ends on cycles and missing references |
| `PlanSort.NoneUnvisited` | cognix/planner/service.py:1350-1352 | the final loop never finds a step to append |
| `PlanSort.SortSteps` | cognix/planner/service.py:1325-1354 | the code computes the specified sort |
| `PlanOrder.VisitSound` | cognix/planner/service.py:1335-1345 | a visit keeps: placed steps distinct, exactly the finished ones, each after its known dependencies unless on a cycle with them |
| `PlanOrder.SortedIsSound` | cognix/planner/service.py:1325-1354 | on every input each id comes out once, and each step after its known dependencies except those that reach back to it |
| `PlanOrder.SortIsPermutation` | cognix/planner/service.py:1325-1354 | with distinct ids the result is a permutation of the steps |
| `PlanOrder.SortOrdersAcyclicPlansOnly` | cognix/planner/service.py:1325-1354 | every step follows all its known dependencies if and only if no two different steps depend on each other |
| `PlanOrder.SortKeepsOrderedPlansOnly` | cognix/planner/service.py:1325-1354 | with distinct ids the order is unchanged if and only if no step lists a later one |
| `PlanOrder.SortIsIdempotent` | cognix/planner/service.py:1325-1354 | sorting a sorted acyclic plan changes nothing |
| `PlanOrder.DependenciesInListedOrder` | cognix/planner/service.py:1335-1345 | dependencies of the first step that have none themselves come out first, in the order in which it lists them, and then that step, whatever their order in the plan |
| `PlanOrder.CycleIsReversed` | cognix/planner/service.py:1329 | two steps that wait for each other come out swapped, not in the original order |
| `PlanApply.WorkspacePlan.FirstPass` | cognix/planner/service.py:320-561 | the first loop, with statuses updated in place, equals its step-by-step specification |
| `PlanApply.WorkspacePlan.RunOnce` | cognix/planner/service.py:566-618 | one task of the second loop settles its step as specified; what that comes to is said by `PlanOutcome` |
| `PlanApply.WorkspacePlan.Apply` | cognix/planner/service.py:296-621 | sort, both loops and the final status together equal the specification |
| `PlanApply.StatusesSettle` | cognix/planner/service.py:305-621 | on return no step is pending or executing; failed iff a step failed; needs_input iff none failed and an approval was asked for; applied only if all completed |
| `PlanApply.AcyclicFailures` | cognix/planner/service.py:320-351 | in an acyclic plan the failed steps are exactly those whose own action raised plus all their transitive dependents |
| `PlanApply.FailurePropagationIsExact` | cognix/planner/service.py:320-351 | that holds for all outcomes of the actions if and only if no two different steps depend on each other |
| `PlanApply.LateDepMissed` | cognix/planner/service.py:320-351 | where a dependency is sorted after its dependent, outcomes under which a failure does not reach the dependent |
| `PlanApply.AttemptedUnlessDependencyFailed` | cognix/planner/service.py:320-351 | in an acyclic plan an action is attempted exactly when none of the other steps it lists fails |
| `PlanOutcome.OutcomeLists` | cognix/planner/service.py:320-618 | from the outcomes alone: the failed steps are those whose action raised or that list an earlier failed one, and then those whose runs failed or were blocked; the approvals are the steps whose actions asked, and then those whose runs asked and were not blocked |
| `PlanOutcome.FailsExactlyWhen` | cognix/planner/service.py:320-618 | a step ends up failed if and only if it failed in the first loop, or its task was run at once and that run failed or was blocked |
| `PlanOutcome.StatusExactly` | cognix/planner/service.py:320-618 | a step is failed exactly then, needs input if its action asked, and is completed otherwise |
| `PlanOutcome.AppliedExactlyWhen` | cognix/planner/service.py:566-621 | a plan is applied if and only if no step failed or asked, and no task run at once failed, was blocked or asked |
| `Approvals.ApprovalStore.Create` | cognix/local/approvals.py:53-80 | appends one pending request |
| `Approvals.ApprovalStore.Get` | cognix/local/approvals.py:82-90 | the first request with the id, or none |
| `Approvals.ApprovalStore.WriteStatus` | cognix/local/approvals.py:215-243 | rebuilds the list with the status of that id set and reports whether it was there |
| `Approvals.ApprovalStore.Approve` | cognix/local/approvals.py:149-153 | approves only a pending request |
| `Approvals.ApprovalStore.Reject` | cognix/local/approvals.py:158-159 | rejects whatever the status |
| `Approvals.ApprovalStore.Complete` | cognix/local/approvals.py:161-162 | completes and stores the result |
| `Approvals.ApprovalStore.UpdateMetadata` | cognix/local/approvals.py:164-184 | replaces the saved snapshot of that id only |
| `Approvals.FindSetStatus` | cognix/local/approvals.py:215-243 | a status change is seen under its own id only, and creates no request |
| `AgentTools.FindNext` | cognix/core/agent.py:511-702 | how any act of any agent or person can change one request: it appears pending, and moves only along approve, reject and complete |
| `AgentTools.ToolRunsAreAuthorized` | cognix/core/agent.py:511-702 | in every run each act executes at most one tool, and only if matrix and policy allow the call then, or a person approved, while it was pending, an earlier request for the same agent, tool and arguments |
| `Permissions.DecidesExactly` | cognix/core/permissions.py:35-80 | by mode and level: dangerous operations are permitted to unrestricted agents only, writes to all but read-only, asking and planning ones, anything else to all; what is not permitted asks, but in read-only mode |
| `AgentTools.GateIsExact` | cognix/core/agent.py:511-646 | what a call of a known tool comes to by mode, level, policy and fault: it runs once, files exactly one pending request and runs nothing, is denied, or raises |
| `AgentTools.DangerNeedsApproval` | cognix/core/agent.py:511-702 | over any run, a dangerous tool runs only under an approval or for an unrestricted agent, and a writing one only under an approval or for an agent not in read-only, ask or plan mode |
| `AgentTools.ResumeIsExact` | cognix/core/agent.py:675-702 | a resumption goes through if and only if the request exists, is the agent's own, is approved and names a tool it has; it runs that tool with the request's arguments, stores the result, and leaves other requests alone |
| `AgentTools.ApprovalsAreUsedOnce` | cognix/core/agent.py:675-702 | each approval lets at most one resume through, and none after a rejection |
| `AgentTools.ReadOnlyNeverWrites` | cognix/core/permissions.py:35-80 | an agent kept in read-only mode never runs a write or dangerous tool, resumes included |
| `AgentLoop.Agent.RunTool` | cognix/core/agent.py:511-646 | the two gates written out: executions, requests, raised faults, state and pending request are those of the specified tool execution, and only an asking gate leaves the agent waiting |
| `AgentLoop.Agent.RunCall` | cognix/core/agent.py:274-315 | one call of a reply: events, tool message, and at a gate the snapshot and the waiting events |
| `AgentLoop.Agent.RunBatch` | cognix/core/agent.py:273-315 | the calls of one reply in order, up to a gate or failure |
| `AgentLoop.Agent.RunLoop` | cognix/core/agent.py:254-318 | the loop over model replies, including running out of iterations |
| `AgentLoop.Agent.Stream` | cognix/core/agent.py:223-326 | the method over the agent's fields equals the specified stream |
| `AgentLoop.Agent.CheckAndRun` | cognix/core/agent.py:675-702 | the four checks in order; if all pass, the tool runs and the request is completed, otherwise nothing changes |
| `AgentLoop.Agent.ResumeApproved` | cognix/core/agent.py:704-911 | the checks, the approved call, its completion and the continuation equal the specified resumption; a refusal changes nothing |
| `AgentLoop.ReplaceLastToolResult` | cognix/core/agent.py:913-919 | the most recent result of that tool gets the new content, and no other message changes |
| `AgentEvents.StreamFollowsProtocol` | cognix/core/agent.py:223-326 | every stream has exactly one terminal event, last; calls and results alternate with equal ids; an approval request comes only just before a waiting done; the final state matches |
| `AgentEvents.ResumeFollowsProtocol` | cognix/core/agent.py:704-911 | a resumed stream is one tool result followed by such a stream, unless an error in the left-over calls propagates |
| `AgentEvents.StreamAnswersEveryCall` | cognix/core/agent.py:272-293 | every assistant message with calls is followed by tool messages with the same ids in order, complete unless gated or failed |
| `AgentEvents.IterateModelCalls` | cognix/core/agent.py:254-318 | at most max_iterations model calls |
| `AgentRounds.ErrsExactlyWhen` | cognix/core/agent.py:250-326 | the loop goes through some rounds and stops for one reason: it errs if and only if the limit is used up, by exactly as many model calls, a model call fails or a call raises; it waits if and only if a call asks; else it ends in IDLE with done and the reply as last message, after one model call a round and one more |
| `AgentRounds.StreamAnswers` | cognix/core/agent.py:250-283 | if the first k replies carry calls that all go through, k is below the limit and reply k carries none, a stream makes k + 1 model calls and ends normally with that reply |
| `AgentRounds.ResumeAnswers` | cognix/core/agent.py:773-911 | a resumption whose saved calls go through goes on in the same way, with its own limit |
| `AgentRounds.BatchStops` | cognix/core/agent.py:273-315 | the calls of a reply are made one after the other until one asks or raises, and all of them otherwise |
| `AgentRounds.PermittedCallIsAnswered` | cognix/core/agent.py:274-293 | a call that needs neither approval nor policy runs once, and its result is the next message |
| `AgentRounds.AnswerIsDelivered` | cognix/core/agent.py:254-269 | the final reply is delivered in one delta before done; in ask and plan mode remembering the exchange in a workspace files one pending request, and nothing else in the world changes |
| `AgentRounds.ToollessStreamSpells` | cognix/core/agent.py:229-248 | without tools the deltas spell the message that the stream adds, unless a chunk fails |
| `AgentEvents.GateSavesTheRest` | cognix/core/agent.py:295-306 | the calls saved at a gate are exactly the later ones if and only if every earlier call shares the gated id and no later one does |
| `AgentResume.GatedReplyRepeatsCalls` | cognix/core/agent.py:295-306 | a gated reply has made its calls up to the gate, and working off the saved ones makes those again: every earlier call under another id is made twice, and each call is made once if and only if every earlier call shares the gated id and no later one does |
| `AgentResume.GateAfterRun` | cognix/core/agent.py:295-306 | a reply of a call that may run and one that asks stops at the second with the first run and saved |
| `AgentResume.ResumedReplyIsAnsweredExactlyWhen` | cognix/core/agent.py:773-830 | once a resumption has made the saved calls, the gated reply is answered once for each call, in order, if and only if every earlier call shares the gated id and no later one does |
| `AgentConversations.StreamKept` | cognix/core/agent.py:223-326 | a gated stream leaves the conversation about its message in memory and on the new request; any other stream leaves memory as it was; what was saved before stays |
| `AgentConversations.MemoryHolds` | cognix/core/agent.py:704-780 | after any streams, resumptions, decisions and restarts, memory holds exactly the conversation saved at the last gate that no resumption has gone on from |
| `AgentConversations.ResumesOwnExactlyWhen` | cognix/core/agent.py:730-760 | after any such turns, resuming a request continues the conversation saved on it if and only if memory is empty or the request is that gate; otherwise it continues that gate's conversation |
| `AgentConversations.OlderApprovalContinuesNewer` | cognix/core/agent.py:730-760 | two gated streams about "one" and "two"; with the first request approved, resuming it continues "two" |
| `AgentActs.StreamIsActs` | cognix/core/agent.py:223-326 | a stream is a sequence of the agent's own acts and approves or resumes nothing itself, so the run theorems apply to it |
| `AgentActs.ResumeIsActs` | cognix/core/agent.py:704-911 | a resumption is one resume of the named approval and then the agent's own acts |
| `AgentActs.ReadOnlyStreams` | cognix/core/agent.py:223-326 | whole streams and resumptions of a read-only agent run read tools only |
| `Facts.AtomicFactStore.Upsert` | cognix/memory/facts.py:99-187 | refuses a blank value, confirms an equal active one with the higher confidence and the newer source, otherwise supersedes and inserts; returns the active fact |
| `Facts.KeysAreNormalized` | cognix/memory/facts.py:266-288 | an upsert for no entity is one for "default" |
| `Facts.ActiveIsNewest` | cognix/memory/facts.py:266-288 | at most one fact of a key is active, it is the newest, and it is the one found |
| `Facts.UpsertHistory` | cognix/memory/facts.py:99-187 | an upsert changes the history of its own normalized key only |
| `Facts.UpsertKeepsSound` | cognix/memory/facts.py:99-187 | an upsert keeps: distinct ids, linked histories, neighbouring values differ, only the newest active |
| `Facts.UpsertRefinesMap` | cognix/memory/facts.py:99-187 | on the map the store stands for, an accepted upsert is one assignment and a blank one is refused |
| `Facts.StoreRefinesMap` | cognix/memory/facts.py:99-187 | after any sequence of upserts the store is sound and every key reads as its last accepted, stripped value |
| `Facts.FactsAreKept` | cognix/memory/facts.py:120-143 | no later upsert loses a fact, rewrites its value or link, or lowers its confidence |
| `Facts.LinksVisitHistory` | cognix/memory/facts.py:138-159 | following supersedes from the active fact gives the key's history, newest first |
| `Facts.LinksVisitEachOnce` | cognix/memory/facts.py:138-159 | that walk meets every fact ever stored for the key, no other, and none twice |
| `RateLimiter.TokenBucketRateLimiter.Configure` | cognix/bots/rate_limiter.py:24-29 | sets the bot's limits only |
| `RateLimiter.TokenBucketRateLimiter.Check` | cognix/bots/rate_limiter.py:31-61 | answers and prunes as specified: nothing older than an hour is kept of that bot, and other bots are left alone; without limits it allows and prunes nothing |
| `RateLimiter.TokenBucketRateLimiter.Record` | cognix/bots/rate_limiter.py:63-65 | appends the time to the bot's window only |
| `RateLimiter.TokenBucketRateLimiter.GetUsage` | cognix/bots/rate_limiter.py:67-78 | the counts are the numbers of kept times later than a minute and an hour ago |
| `RateLimiter.PruningIsInvisible` | cognix/bots/rate_limiter.py:31-78 | with a clock that never goes back, check and get_usage answer as on the full, never pruned history |
| `RateLimiter.NoWindowOverflows` | cognix/bots/rate_limiter.py:31-65 | if every record follows a check that said yes with at most d other records between, no minute and no hour at any instant holds more than its limit plus d |
| `RateLimiterBounds.MinuteBoundIsReached` | cognix/bots/rate_limiter.py:31-65 | for all positive limits and every d, a run in which a minute holds the smaller limit plus d: the bound cannot be lowered, and checks that run ahead of their records do exceed the limit |
| `RateLimiterBounds.HourBoundIsReached` | cognix/bots/rate_limiter.py:31-65 | for every d, a run in which an hour holds per_hour + d, when per_hour is at most 60 times per_minute |
| `RateLimiterBounds.HourFillsExactlyWhen` | cognix/bots/rate_limiter.py:31-65 | with a check before every record, the hourly limit can be used up if and only if it is at most 60 times the minute limit |
| `History.CountMessageTokens` | cognix/memory/token_counter.py:79-94 | four tokens a message plus its text, or its text parts |
| `History.CostIsTexts` | cognix/memory/token_counter.py:79-94 | a history costs four tokens a message and the tokens of its texts, and nothing else |
| `History.Context.AddMessage` | cognix/core/context.py:31-34 | appends the message |
| `History.Context.GetHistory` | cognix/core/context.py:36-67 | the limited window, or its trim when a token limit is given |
| `History.RecentIsNewest` | cognix/core/context.py:36-50 | the newest messages, as many as a positive limit says, or without as many of the oldest as a negative one says; all of them without a limit or with 0 |
| `History.Trim` | cognix/core/context.py:54-66 | the popping loop drops the least number of oldest non-system messages after which trimming may stop |
| `History.PopOldest` | cognix/core/context.py:58-65 | pops the oldest non-system message, if there is one |
| `History.TrimIsLongestSuffix` | cognix/core/context.py:54-66 | every system message is kept, the others kept are a suffix, one more would be over the limit, and the result is the only such one |
| `History.TrimFitsExactlyWhen` | cognix/core/context.py:54-66 | the trimmed history fits if and only if its system messages alone do, or without any its newest message |
| `History.TrimKeepsOrphanedResult` | cognix/core/context.py:54-66 | a window whose trim drops an assistant message and keeps the tool result that answers it |
| `Framing.ReadUndoesWrite` | cognix/mcp/client.py:142-165 | a written frame reads back as its body, whatever the body looks like, leaving what follows; an empty body is refused |
| `Framing.FramesRoundTrip` | cognix/mcp/client.py:142-165 | any concatenation of frames with non-empty bodies reads back as the same bodies in order |
| `Framing.FramesAreUnique` | cognix/mcp/client.py:142-147 | different lists of messages are written differently |
| `Framing.ReadIsStable` | cognix/mcp/client.py:149-165 | on any stream, a message that can be read is not changed by bytes that arrive later |
| `Framing.ReadConsumes` | cognix/mcp/client.py:149-165 | on any stream, a message is non-empty and is the end of what reading it consumed |
| `Framing.OtherHeadersDoNotMatter` | cognix/mcp/client.py:149-165 | any other ASCII header lines, before or after the length line, make no difference to what is read |
| `Framing.CutBodyIsRefused` | cognix/mcp/client.py:149-165 | a frame cut off inside its body is an error that uses up the stream |
| `Framing.ReadsThatFail` | cognix/mcp/client.py:149-165 | a read fails at the end of the stream, at a line that is not ASCII, and at a blank line without a length before it |
| `Framing.CancelledReads` | cognix/mcp/client.py:126-165 | wherever the timeout cuts a read off, the next read returns the message if and only if no line was taken; after the length line it fails, and after the blank line it takes the body for headers |
| `Framing.CancelledReadTakesInner` | cognix/mcp/client.py:126-165 | then a body that is a frame is read as the message inside it |
| `McpClient.Client.WriteMessage` | cognix/mcp/client.py:142-147 | sends one frame |
| `McpClient.Client.ReadMessage` | cognix/mcp/client.py:149-165 | the header loop and body read equal the specified read, errors and consumed bytes included |
| `McpClient.Client.Request` | cognix/mcp/client.py:114-135 | takes the next id, sends one frame, and ends and consumes as specified |
| `McpClient.OwnReply` | cognix/mcp/client.py:126-135 | whatever the server writes and wherever timeouts strike, a returned reply has the request's id, and is a result if and only if it carries no error and an object |
| `McpClient.LateRepliesAreNotReturned` | cognix/mcp/client.py:114-135 | over a session a reply is returned only for the request whose id it carries |
| `McpClient.SessionStaysInStep` | cognix/mcp/client.py:114-135 | with one reply per request in order and timeouts only between messages, every request times out or gets exactly its own reply |
| `McpClient.FramesAreOutput` | cognix/mcp/client.py:142-165 | frames as the client writes them are such a stream of replies |
| `Budget.Allocate` | cognix/memory/budget.py:46-91 | the loop and the bump of the first entry equal the specified allocation |
| `Budget.AllocateConserves` | cognix/memory/budget.py:84-89 | with an active source, exactly the whole of a non-negative budget is handed out |
| `Budget.AllocateIsUsable` | cognix/memory/budget.py:72-82 | one entry per active source in order, none negative, and none but the first above what it can use |
| `Budget.LaterSharesAreProportional` | cognix/memory/budget.py:60-82 | every source but the first gets the whole tokens of the part of the budget that its ratio is of all ratios, or all it can use if that is less |
| `Budget.DefaultSplit` | cognix/memory/budget.py:27-33 | when hot, procedural, cold and deep memory all have plenty, they get 40, 25, 25 and 10 hundredths |
| `Budget.NegativeBudgets` | cognix/memory/budget.py:72-89 | for a negative budget the sum is never below it, and equal if and only if every share is whole |
| `Budget.NoRatioNoTokens` | cognix/memory/budget.py:60-82 | a source without a default ratio, not first, gets nothing beside one that has a ratio |
| `Budget.FirstExceedsExactlyWhen` | cognix/memory/budget.py:84-89 | the first source gets more than it can use if and only if the budget exceeds its content plus the shares of the others |
| `Budget.SelectByBudget` | cognix/memory/pipeline.py:845-857 | the loop equals the specified selection; a budget of zero or less selects nothing |
| `Budget.SelectionIsMaximal` | cognix/memory/pipeline.py:845-857 | the selection stays within budget, and no item left out could be added |
| `Budget.PickedInOrder` | cognix/memory/pipeline.py:850-857 | selected items keep their order |
| `Budget.SelectionPrefersEarlier` | cognix/memory/pipeline.py:845-857 | any other choice within budget first departs by leaving out an item that the selection has |
| `Budget.SelectionsFitTogether` | cognix/memory/pipeline.py:779-808 | the selected facts, skills and cold memories together stay within the total budget |
| `Budget.EstimateRoundsUpExactlyWhen` | cognix/memory/budget.py:93-106 | the estimate is words times 1.3 rounded up if and only if the number of words is a multiple of ten, and one less otherwise |
| `Budget.OneWordRoundsDown` | cognix/memory/budget.py:93-106 | one word is estimated at 1 token where rounding up gives 2 |
| `Budget.TrimToBudget` | cognix/memory/budget.py:108-139 | the binary search keeps the longest run of leading words whose estimate fits |
| `Budget.TrimFitsTightly` | cognix/memory/budget.py:108-139 | the cut text has exactly those words, is within the limit, and with one more word would not be |
| `Text.SplitJoin` | cognix/memory/budget.py:125-139 | splitting on spaces undoes joining with one |
| `Text.StripSplits` | cognix/memory/facts.py:113-115 | what strip takes off is space on both sides, and all of it |

## Left out

- SQLAlchemy, SQLite, the JSON files and asyncio themselves: an update is one atomic step, a file one list.
- Operator steps that change a row under a running worker (`update_state`, `set_next_run`, `delete`): the exclusion and cancel claims are made without them.
- One clock for all nodes: nodes may read it late, but clocks that disagree are not modelled.
- The next run time of a schedule: an arbitrary value; nothing is claimed about one-shot schedules firing once.
- The engine as a node of the lease protocol: it has no heartbeat, so exclusion is claimed for dispatcher nodes; its settling of a run is modelled.
- Store calls that raise, and a run record that fails to persist: counted failures are those whose record was written. Timed-out runs are cancelled before that and are not counted.
- Dispatcher metrics that hold text or times, and draining on stop.
- Python's recursion limit, which a very long dependency chain would hit in the sort.
- What a plan step's action does, and exceptions that escape from the second loop; `resume_plan_approval`, plan generation, capability snapshots and approvals for missing input.
- `Agent.run` and `Agent.stream`. `Agent.stream` does not consume the pending approval event, so a stream of events started right after it may report that older approval; the claims about streams start with no event pending.
- AgentTools.ToolRunsAreAuthorized: the policy's answer is foreign, and the level of an approved call is looked up when it runs. Requests made by `_remember_exchange` carry the whole message where the code keeps its first 200 characters.
- Two resumptions of one approval at the same time: both pass the status check before either completes. Single use is claimed for sequential resumes.
- The context object that a stream, its caller and the snapshot in memory share: contexts are values here, so messages that a later stream adds to a context already saved in memory are not seen there.
- `respond`, which sets a status without a guard, and `complete_capability_blocked_questions`; `list_all` and its order.
- Facts.AtomicFactStore.Upsert: concurrent upserts of one key, and uuid collisions (12 hex digits); ids are taken to be fresh. `updated_at` ties are resolved towards the later row. Metadata and timestamps are not kept.
- Search, ranking and rendering of memories: floats and word lists.
- The 64 KiB limit on a header line and Python's limit on digits of a length; JSON itself, whose decoding is a parameter (the id compared is the integer a decoded id equals in Python).
- Building message dictionaries, `to_dict` and `from_dict` of a context, and its variables.
- Binary floating point in ratios, 1.3 and the limiter's clock: exact rationals and reals stand for them.
- Trimming of hot and deep memory: the code does not cut them to their allocation, so the total of a context is not bounded here.
