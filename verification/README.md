# eflow: workflow orchestration, modelled and proved

eflow drives tickets through workflow processes. This project models four of its parts in Dafny and
proves what they are for.

1. **Automation attempts and withdrawal.** Three tables (tickets, automation tasks, attempts) changed by
   row-locked transactions. `AutomationModel` and `WithdrawalModel` give each transaction as a function on
   the stored state; `AutomationDb` holds the tables as mutable fields and each transaction as a method
   proved equal to that function; `AutomationLaws` says, row by row and without those functions, what each
   answers and writes. `Transactions` proves what every transaction keeps, `EtaskSync` that task
   rows follow attempt rows, `AutoRetry` that automatic retrying stops, `TaskService` which transactions the
   task service issues. `WithdrawalProtocol` interleaves withdrawal calls, recoveries, completion callbacks
   and all other transactions as one state machine; `WithdrawalSafety` carries its invariant through every
   step, `WithdrawalTheorems` states the results, `WithdrawalService` ties the sequential service code to the
   machine's steps, `WithdrawalPlans` says which plans are harmless to apply as far as the attempts go on by
   themselves, and `WithdrawalRevocation` when revoking the engine is safe over everything that may follow.
2. **Canvas validator and converter.** `CanvasModel` (the indexes), `CanvasCycles` (Kahn's pass, cycle
   search), `CanvasScan` (breadth-first passes), `CanvasRules` (the rules on branches), `CanvasValidator` (the
   validators in order and what an accepted canvas is like), `CanvasBypass` (a canvas showing what acceptance
   does not give), `CanvasConverter` (handlers and proxy nodes), `EffectiveGraph` (the engine service leaving
   the proxies out again), `CanvasNames` (what is stored under which id, however the generated names fall),
   `CanvasRoundTrip` (when the two compose to the identity on edges), `CanvasCollision` (a canvas on which proxy
   names collide) and `CanvasPipeline` (from the drawn canvas to its highlighted display).
3. **flowx kernel and engine.** `FlowPlan` (definitions, validation, compiled indexes), `FlowTransition` and
   `FlowStep` (routing), `FlowTrace` (tracing back through gateways and when it ends), `FlowDepth` (running on
   through copies and finished workers, and when that ends), `FlowJoin` (sign
   arbitration, join barrier), `FlowSnapshot` (states of an instance), `FlowEffects` (what each operation does),
   `FlowHistory` (histories built from the operations, and what all of them keep), `FlowRun` (what a step of the
   engine is and is not, taken or failed), `FlowResults` (what each operation answers and leaves, from the state before
   it) and `FlowEngine` (start, pass, reject, revoke on one instance).
4. **Path highlighting.** `GatewayPaths` (the bounded search), `RecordStats` (batch counts) and
   `PathHighlight` (clearing, lighting and pruning the travelled edges).

`Prelude` and `Graphs` hold shared types and the theory of paths, cycles and reachability.

## Assumptions

- One transaction is one atomic step; a refused transaction changes nothing.
- etask's answer to a request identifier never changes (`EtaskSync.Faithful`). `EtaskSync.RejectKeepsMatchExactly`
  says exactly what goes wrong otherwise, `EtaskSync.RejectionMayBreakMatch` with a run that comes to it.
- Looking at the engine and acting on what was seen is one step of the withdrawal recovery.
- A withdrawal call revokes the engine, or rolls the ticket back, only in the round it prepared itself
  (`WithdrawalProtocol.InOwnRound`). The code does not enforce this;
  `WithdrawalTheorems.StaleFlowBreaksWithdrawal` is a schedule on which it fails and the withdrawal with it.
  `WithdrawalRevocation.RevocationSafeInRounds` shows that no weaker rule for revoking will do, and
  `WithdrawalRevocation.RevocationSafeExactly` says what makes a revocation safe whatever follows, without any rule for
  later events: that no other call of the instance is still before its own revocation.
- Tickets end only from the processing state, and finalisation is called only where the services call it.
- Canvas node ids are distinct, and do not contain the separator of the overlap key. That no generated proxy id equals
  a node id or another proxy's (`CanvasRoundTrip.FreshNames`) is not assumed: `CanvasRoundTrip.RoundTripExactly` says
  exactly when the generated names serve. It is the premise only of the results that name it: distinct ids, gateways
  named back by their targets, an acyclic drawn graph whoever approves. `CanvasCollision.PlainIdsAreFresh` shows that
  ids without underscores give it, `CanvasCollision.ProxyNamesMayCollide` what is lost on an accepted canvas without it.
- Lighting ahead is called only where it ends (`CanvasPipeline.CanvasLightingEnds`); `PathHighlight.LightingEndsExactly`
  says where that is.
- The gateways of a running flow definition form no ring (`FlowTrace.NoGatewayRing`).
  `FlowTrace.ValidationAdmitsGatewayRings` shows a definition that validation accepts and on which judging a join
  never ends; `FlowTrace.TraceEndsExactly` says for which nodes it does.
- Flow task ids are fresh, and each flow operation is all or nothing.

## Where the code and its documentation differ

- The canvas documentation asks all branches of a parallel split to converge on one gateway before the end.
  The validator asks for one gateway that every branch can reach. `CanvasBypass` has an accepted canvas with a
  branch that reaches the end past it; `CanvasValidator.SharedMergeFirstExactly` says when the documented
  property does hold.
- Cancelled automation tasks are to be retried by hand only. Checking and resetting are two transactions, so
  an automatic retry can revive a task cancelled in between (`AutoRetry.RetryMayReviveCancelled`).
- At most five attempts are made automatically with one recovery worker; with `n` workers up to `4 + n` are
  (`AutoRetry.AttemptsBounded`, `AutoRetry.BoundIsReached`).
- The query for a newer pending batch answers yes for any other pending batch, newer or older
  (`RecordStats.OlderBatchCounts` has two records on which it does).

## Model

| member | source | states |
|---|---|---|
| AutomationModel.RequestIdInjective | internal/repository/dao/task_attempt.go:107 | the printed request identifier determines the task and the attempt number |
| AutomationDb.Database.Begin | internal/repository/dao/task_attempt.go:68-123 | returns the live attempt if there is one, refuses unless the task waits and its kind may start under the ticket's status, else adds the next-numbered attempt and makes it current |
| AutomationDb.Database.BindExecution | internal/repository/dao/task_attempt.go:125-156 | binds an execution once; finished attempts keep their status, live ones and their task move to running |
| AutomationDb.Database.RejectSubmission | internal/repository/dao/task_attempt.go:182-205 | fails a live attempt and blocks its task only while the task is submitting |
| AutomationDb.Database.TerminateTask | internal/repository/dao/task_attempt.go:207-258 | cancels a task that may be terminated together with its live attempt |
| AutomationDb.Database.Complete | internal/repository/dao/task_attempt.go:260-306 | stores a result once: a live attempt takes the reported status, a cancellation as such, and the task the status of the same name if it is executing that attempt; nothing else changes |
| AutomationDb.Database.FindLastNumber | internal/repository/dao/task_attempt.go:96-103 | finds the highest attempt number of a task |
| AutomationDb.Database.Block | internal/repository/dao/task.go:98-106 | blocks waiting or failed tasks only |
| AutomationDb.Database.PrepareRetry | internal/repository/dao/task.go:108-124 | sets failed, blocked or cancelled tasks waiting and refuses all others |
| AutomationDb.Database.MarkAdvanced | internal/repository/dao/task.go:179-185 | records the advance once |
| AutomationDb.Database.CreateTask | internal/service/task/service.go:102-157 | adds the task of a node unless the node has one; a blocked draft gets no schedule |
| AutomationDb.Database.Prepare | internal/repository/dao/withdrawal.go:47-86 | freezes a processing ticket unless a task executes that no succeeded task names as compensation |
| AutomationDb.Database.ActivateCompensations | internal/repository/dao/withdrawal.go:88-136 | cancels pending tasks outside the plan, restarts unmarked pending ones in it, marks all of them |
| AutomationDb.Database.TryFinalize | internal/repository/dao/withdrawal.go:146-180 | withdraws the ticket exactly when every compensation has succeeded |
| AutomationDb.Database.Rollback | internal/repository/dao/withdrawal.go:182-188 | returns a withdrawing ticket to processing |
| AutomationLaws.BeginLaw | internal/repository/dao/task_attempt.go:68-123 | the answer and every row after it: the live attempt again, a refusal, or one new row numbered on from the highest, current, and its task submitting |
| AutomationLaws.BindLaw | internal/repository/dao/task_attempt.go:125-156 | an ended attempt too gets its execution; a live one runs then, and its task with it only from submitting; exact refusals; nothing else changes |
| AutomationLaws.RejectLaw | internal/repository/dao/task_attempt.go:182-205 | a live attempt fails, and its task, if it submits with that attempt, is blocked; nothing else changes |
| AutomationLaws.TerminateLaw | internal/repository/dao/task_attempt.go:207-258 | every stored task but a succeeded one is cancelled, its current attempt with it if live; nothing else changes |
| AutomationLaws.CompleteLaw | internal/repository/dao/task_attempt.go:260-306 | which attempt answers a request, and for it what Complete states, from the statuses alone |
| AutomationLaws.CreateLaw | internal/service/task/service.go:102-157 | every field of the new row, a blocked one without schedules; no row if the node has a task |
| AutomationLaws.PrepareLaw | internal/repository/dao/withdrawal.go:47-86 | each refusal exactly; else the ticket withdraws and no task of the instance stays marked, nothing else |
| AutomationLaws.ActivateLaw | internal/repository/dao/withdrawal.go:88-136 | each task of the instance by its status, mark and whether the plan names it: cancelled, restarted with its schedule kept, marked, or unchanged |
| AutomationLaws.FinalizeLaw | internal/repository/dao/withdrawal.go:146-180 | withdrawn exactly if every marked task succeeded, each refusal exactly, no task changes |
| AutomationDb.CollectTargets | internal/service/withdrawal/planner.go:56-78 | the planner's loop finds the nodes that succeeded tasks name, each once and in the order they are named first |
| Transactions.StepKeepsConsistent | internal/repository/dao/task_attempt.go:68-306 | every transaction keeps: live attempts are current and their task executes, one task per node, attempts numbered without gaps |
| Transactions.StepKeepsHistory | internal/repository/dao/task_attempt.go:125-306 | no transaction changes a finished attempt's status, a bound execution, a succeeded task, or a closed ticket |
| Transactions.RunKeepsHistory | internal/repository/dao/task_attempt.go:68-306 | the same over every sequence of transactions, so late events overwrite nothing |
| Transactions.OneLiveAttempt | internal/repository/dao/task_attempt.go:68-123 | in every reachable state two live attempts of one task are the same attempt, its current one |
| Transactions.AttemptNumbers | internal/repository/dao/task_attempt.go:96-120 | in every reachable state the attempts of a task are numbered 1..n in creation order |
| Transactions.RequestSelectsOne | internal/repository/dao/task_attempt.go:316-322 | in every reachable state a request identifier selects exactly one attempt |
| EtaskSync.StepKeepsSync | internal/repository/dao/task_attempt.go:125-205 | with stable etask answers every transaction keeps task rows and attempt rows in step |
| EtaskSync.TaskFollowsAttempt | internal/repository/dao/task_attempt.go:125-306 | in every reachable state a task submits, runs or has succeeded exactly when its current attempt does, running means bound to the execution etask answers, a failed task's current attempt failed, a cancelled one's ended without success |
| EtaskSync.RejectKeepsMatchExactly | internal/repository/dao/task_attempt.go:182-205 | a rejection keeps the rows in step if and only if the attempt was not yet running |
| EtaskSync.RejectionMayBreakMatch | internal/repository/dao/task_attempt.go:182-205 | a run from the empty tables, one request bound and then rejected, that leaves a running task with a failed current attempt |
| TaskService.Service.SubmitAttempt | internal/service/task/service.go:195-211 | a refusal rejects the attempt, an acceptance binds it, a lost connection leaves all as it was; each error exactly |
| TaskService.Service.StartTask | internal/service/task/service.go:159-193 | by the stored status: nothing, the submission again of an unbound live attempt, a block, or one begin followed by its submission; each error exactly |
| TaskService.Service.Retry | internal/service/task/service.go:252-307 | each refusal exactly: cancelled tasks only by hand and once their last execution is confirmed ended; automatic retries block after the maximum of attempts; a submitting task is resumed without a new reset; else one reset and a start |
| TaskService.Service.TerminateTask | internal/service/task/service.go:221-250 | each refusal exactly, for bad reasons, compensations and successes; the cancellation is also sent to etask exactly when the current attempt is cancelled |
| TaskService.Service.CompleteAttempt | internal/service/task/service.go:309-330 | stores the result of a known request, tries to finalize the withdrawal exactly when the stored attempt is a success of a compensation, and returns an error then exactly when the ticket is neither withdrawing nor withdrawn |
| TaskService.Service.ReconcileTask | internal/service/task/service.go:391-423 | completes the current attempt of a running bound task when etask knows its end, passing on the completion's error, and nothing otherwise; each error exactly |
| AutoRetry.AttemptsBounded | internal/service/task/service.go:252-286 | without manual retries and withdrawals, n recovery workers give a task at most 4 + n attempts, five for one worker |
| AutoRetry.RetriesLowerPotential | internal/service/task/task_recovery_job.go:45-88 | a natural-number measure never rises and falls with every automatic retry |
| AutoRetry.RetriesBounded | internal/service/task/task_recovery_job.go:45-88 | in every history the workers retry a task only finitely often, within an explicit bound |
| AutoRetry.BoundIsReached | internal/service/task/service.go:273-285 | for every number of workers there is a history from the empty state that reaches `4 + n` attempts |
| AutoRetry.MaximumExceededExactly | internal/service/task/service.go:273-285 | some automatic history makes more than five attempts if and only if there are at least two workers |
| AutoRetry.RetryMayReviveCancelled | internal/service/task/service.go:265-285 | a history from the empty state in which a task cancelled between check and reset is set waiting again by the automatic retry |
| AutoRetry.RevivedExactly | internal/service/task/service.go:265-285 | without manual retries a step sets a cancelled task waiting if and only if a worker acts that had checked it before |
| WithdrawalProtocol.PlanIsCoverage | internal/service/withdrawal/planner.go:56-78 | the plan holds exactly the nodes that some succeeded task of the instance names |
| WithdrawalProtocol.PlanInOrder | internal/service/withdrawal/planner.go:56-78 | of two targets, some succeeded task names the one before any names the other |
| WithdrawalSafety.NextKeepsInv | internal/service/withdrawal/service.go:50-92 | every step of the interleaved system, each call revoking and rolling back in its own round, keeps the system invariant |
| WithdrawalTheorems.WithdrawnIsQuiet | internal/repository/dao/withdrawal.go:47-180 | once a ticket is withdrawn no task of its instance executes, no attempt is live, and every applied target succeeded, over every interleaving |
| WithdrawalTheorems.QuietForever | internal/domain/task.go:57-61 | a withdrawn, quiet instance starts nothing under any further steps |
| WithdrawalTheorems.PlayKeepsHistory | internal/repository/dao/task_attempt.go:125-306 | no interleaving with withdrawals rewrites finished attempts, bound executions, successes or closed tickets |
| WithdrawalTheorems.ActiveAtPrepareIsTarget | internal/repository/dao/withdrawal.go:58-73 | every task executing when a withdrawal is prepared is a target of any plan built later |
| WithdrawalSafety.ActivationCovers | internal/repository/dao/withdrawal.go:88-136 | after activation only compensations execute if and only if the plan names the node of every executing ordinary task |
| WithdrawalPlans.PlanHarmlessExactly | internal/repository/dao/withdrawal.go:88-180 | while only attempts and tasks go on, and no step of another withdrawal call, a plan of any age lets the ticket be finalized with nothing executing if and only if it names the node of every ordinary task executing when it is applied |
| WithdrawalRevocation.NextKeepsOpen | internal/service/withdrawal/service.go:50-92 | in every state, until the engine is revoked a withdrawing ticket has a call of its latest withdrawal that is still before its revocation |
| WithdrawalRevocation.NextSettles | internal/service/withdrawal/service.go:75-92 | once the engine is revoked with no other call before its revocation, every event of the system, in its own round or not, keeps what makes a later finalisation quiet |
| WithdrawalRevocation.RevocationSafeExactly | internal/service/withdrawal/service.go:75-92 | in every reachable state, no continuation of a revocation by any events ends the ticket with something executing if and only if no other call of the instance is still before its revocation |
| WithdrawalRevocation.RevocationSafeInRounds | internal/service/withdrawal/service.go:75-92 | the same over continuations in which each call acts in its own round: safe if and only if the revoking call does so itself |
| WithdrawalTheorems.ActivationIdempotent | internal/repository/dao/withdrawal.go:88-136 | activating the same plan again at once changes nothing |
| WithdrawalTheorems.ReplayLeavesMarkedTasks | internal/repository/dao/withdrawal.go:120-135 | replaying a plan after any steps of the same withdrawal leaves marked tasks untouched, status and schedules included |
| WithdrawalTheorems.OriginalScheduleKept | internal/repository/dao/withdrawal.go:122-131 | a recorded original schedule survives every history |
| WithdrawalTheorems.AccelerationRecordsSchedule | internal/repository/dao/withdrawal.go:122-131 | acceleration records the schedule it replaces unless one is recorded |
| WithdrawalTheorems.StaleFlowBreaksWithdrawal | internal/service/withdrawal/service.go:50-92 | a call that revokes the engine in a later round than it prepared leaves a withdrawn ticket with a task still executing |
| WithdrawalService.Service.Revoke | internal/service/withdrawal/service.go:50-92 | from the state before: refused exactly as Prepare refuses; failed exactly if the build fails, else if the engine fails or is revoked, else if a named node has no task and cannot be prepared; else it succeeds; what each leaves in the tables; a run of protocol steps, after which the engine is untouched and no ticket changed, or the ticket is withdrawing or, on success, withdrawn |
| WithdrawalService.Service.ApplyPlan | internal/service/withdrawal/planner.go:108-122 | succeeds exactly if the ticket is withdrawing or withdrawn and every missing target can be prepared; the rows made, and what activating and finalizing leave; a withdrawn ticket stays so |
| WithdrawalService.Service.Resume | internal/service/withdrawal/recovery_job.go:80-90 | acts exactly on revoked instances whose ticket is withdrawing; fails exactly if the build fails or a named node without a task cannot be prepared; else every named node has its compensation and finalisation was tried |
| CanvasModel.BuildContext | internal/pkg/easyflow/converter.go:88-121 | both edge indexes list the edges in order, and every node is found under its id |
| CanvasModel.FromInOrder | internal/pkg/easyflow/converter.go:88-121 | the out-index of a node is its edges at exactly the positions where they leave it, in drawing order |
| CanvasModel.IntoInOrder | internal/pkg/easyflow/converter.go:88-121 | the predecessors of a node are the sources at exactly the positions where edges enter it, in drawing order |
| CanvasModel.DeduplicateEdges | internal/pkg/easyflow/converter.go:125-149 | one edge per pair of nodes is kept: the first with an expression, else the first; pairs stay in the order in which they are drawn first |
| CanvasCycles.ValidateAcyclic | internal/pkg/easyflow/validator.go:257-290 | accepts if and only if there is no directed cycle, whatever the order of the nodes |
| CanvasCycles.FindCyclePath | internal/pkg/easyflow/validator.go:293-336 | whenever the pass leaves nodes over, a genuine cycle among them is returned |
| CanvasScan.ReachableFromStart | internal/pkg/easyflow/validator.go:353-375 | the forward pass marks exactly the nodes reachable from the start |
| CanvasScan.ReachingEnd | internal/pkg/easyflow/validator.go:377-399 | the backward pass marks exactly the nodes that reach an end |
| CanvasScan.ScanBranchDownstream | internal/pkg/easyflow/validator.go:102-147 | returns exactly the merge gateways, and reports an end exactly when one is, reachable past non-stopping nodes, for both flag values |
| CanvasScan.ScanEdges | internal/pkg/easyflow/validator.go:102-147 | which edges such a walk follows, by node kind: none out of merge gateways and ends, nor, with the flag, out of conditions with several ways in |
| CanvasValidator.ValidateStartEnd | internal/pkg/easyflow/validator.go:220-246 | one start without incoming edges, at least one end, none with outgoing edges |
| CanvasValidator.ValidateReachability | internal/pkg/easyflow/validator.go:347-411 | every node lies between the start and some end |
| CanvasValidator.ValidateConditionDeadlock | internal/pkg/easyflow/validator.go:430-461 | no condition with several branches has one merge gateway all branches run into first |
| CanvasValidator.ValidateForkJoin | internal/pkg/easyflow/validator.go:473-513 | no branch of a parallel split reaches an end first, and all share a merge gateway |
| Prelude.NormalByWords | internal/pkg/easyflow/validator.go:645-650 | the normal forms that rules are compared by are equal exactly when the rules have the same words |
| Prelude.WordsExactly | internal/pkg/easyflow/validator.go:645-650 | the words of a text are the one sequence of words without white space that spells it |
| Prelude.TrimExactly | internal/service/task/service.go:221-225 | trimming takes off exactly the white space at both ends |
| CanvasRules.ValidateConditionExpressions | internal/pkg/easyflow/validator.go:576-618 | conditions with several branches, or behind a selective gateway, have a rule on every branch |
| CanvasRules.ValidateDuplicateExpressions | internal/pkg/easyflow/validator.go:630-692 | no two rules of one condition, or of all conditions behind one selective gateway, have the same words |
| CanvasValidator.ValidateAll | internal/pkg/easyflow/validator.go:28-56 | accepts exactly the canvases meeting all twelve requirements, and a reported cycle is one |
| CanvasValidator.AcceptedNodesOnPath | internal/pkg/easyflow/validator.go:220-247 | in an accepted canvas every node lies on a path from the one start to an end |
| CanvasValidator.AcceptedWalksEnd | internal/pkg/easyflow/validator.go:347-411 | every walk has fewer edges than there are nodes, and stops only at an end node |
| CanvasValidator.ForkPathsMerge | internal/pkg/easyflow/validator.go:473-513 | every walk from a branch of a parallel split to an end crosses a merge gateway before it |
| CanvasValidator.ForkBranchesMeet | internal/pkg/easyflow/validator.go:473-513 | all branches of a parallel split lead to one merge gateway |
| CanvasValidator.AcceptedChoicesToldApart | internal/pkg/easyflow/validator.go:566-692 | in an accepted canvas every rule is written where a condition has several ways on or stands behind a selective gateway, and no two of one choice have the same words |
| CanvasValidator.ConditionsDoNotBlock | internal/pkg/easyflow/validator.go:418-461 | in an accepted canvas no merge gateway waits for all branches of a condition: some branch passes another merge gateway or a condition with several ways in before it, on every walk to it |
| CanvasValidator.SelectivesSplit | internal/pkg/easyflow/validator.go:515-563 | in an accepted canvas a selective gateway has at least two ways on, all into conditions |
| CanvasValidator.SharedMergeFirstExactly | internal/pkg/easyflow/validator.go:463-513 | every branch walk meets a shared gateway first if and only if all branches see the same first gateways |
| CanvasBypass.AcceptedForkMayBypassSharedMerge | internal/pkg/easyflow/validator.go:463-513 | an accepted canvas with a branch walk to the end past every shared gateway |
| CanvasConverter.Conversion.GetOrGenerateProxyID | internal/pkg/easyflow/types.go:56-71 | names the target itself, or its proxy, created at first use, when the target is a splitting gateway |
| CanvasConverter.Conversion.GetOrGenerateProxyForGateway | internal/pkg/easyflow/types.go:75-90 | names the predecessor itself, or its proxy when it is a condition |
| CanvasConverter.Conversion.Handle | internal/pkg/easyflow/handlers.go:13-244 | each node kind's image or refusal, spelled out from the canvas edges, with the proxies it needs |
| CanvasConverter.ImageRenders | internal/pkg/easyflow/handlers.go:13-217 | the image by kind: type, approvers, predecessors in order, the join mode, one guard per way out of a condition with its own expression or `1 = 1` exactly without one, and the successors of the other gateways in order |
| CanvasConverter.RefusalRejects | internal/pkg/easyflow/handlers.go:200-217 | each refusal exactly: no codebook, compensating itself, or a compensation that is no automation node |
| CanvasConverter.Convert | internal/pkg/easyflow/converter.go:43-86 | deduplicates, indexes, validates, converts; refuses exactly the canvases that are not accepted |
| CanvasConverter.ConversionFailsExactly | internal/pkg/easyflow/handlers.go:200-217 | conversion fails exactly when some node is to be rejected, with the reason of the first one |
| CanvasNames.ProcessHolds | internal/pkg/easyflow/converter.go:62-75 | whatever names collide, under every id stands the image of the canvas node that keeps it, else the proxy of the edge that asked first for that name, else nothing |
| CanvasRoundTrip.ConvertedRenders | internal/pkg/easyflow/converter.go:62-75 | with fresh names the output has distinct ids and holds the image of every node, one proxy per edge needing one, nothing else |
| CanvasRoundTrip.PredecessorsExist | internal/pkg/easyflow/handlers.go:266-279 | every predecessor named in the output exists in it, however the proxies are named |
| CanvasRoundTrip.TargetsExist | internal/pkg/easyflow/handlers.go:94-195 | every target a gateway names exists, and with fresh names lists the gateway as predecessor |
| CanvasRoundTrip.RoundTripExactly | internal/service/engine/engine.go:587-618 | leaving the proxies out gives back exactly the canvas edges if and only if no user node is assigned to the proxies' user, no node loses its id to a proxy drawn later, and every condition before a gateway is led back to by one of that gateway's proxy names, each leading to the node of that id, else to the source of the edge that asked first for it |
| CanvasRoundTrip.FreshNamesServe | internal/pkg/easyflow/types.go:56-90 | names that collide with nothing meet that condition |
| CanvasRoundTrip.CollapseTerminates | internal/service/engine/engine.go:603-618 | resolving predecessors through proxies terminates on every converted canvas, whoever approves and however proxies are named |
| CanvasCollision.ProxyNamesMayCollide | internal/pkg/easyflow/types.go:64 | an accepted canvas on which two proxies get one id and only the first is made: a drawn edge is lost, one nobody drew closes a cycle of gateways, and lighting ahead runs round it beyond every depth |
| CanvasCollision.ProxiesMayChangePlaces | internal/pkg/easyflow/types.go:64 | names and an order of asking for which two conditions before one gateway each get the other's proxy, so that neither is lost |
| CanvasCollision.PlainIdsAreFresh | internal/pkg/easyflow/types.go:64 | node ids without underscores give every proxy a name of its own |
| CanvasPipeline.ConvertAndDraw | internal/pkg/easyflow/converter.go:43-86 | the whole way from canvas to drawn graph: succeeds exactly on accepted canvases no handler refuses; every node that keeps its id is rendered and every reference resolves; the graph has exactly the canvas edges, each once and without cycle, if and only if nobody is assigned to the proxies' user and the generated names serve; fresh names do, with distinct ids and an acyclic graph |
| CanvasPipeline.ProcessRenders | internal/pkg/easyflow/converter.go:43-86 | under the id of every canvas node that keeps it stands a node that renders it, read off the drawn edges |
| CanvasPipeline.RulesAsDrawn | internal/pkg/easyflow/handlers.go:173-180 | from the drawn edges: a converted condition has one rule per edge out of it, in drawing order with overlaps dropped, the edge's own expression or `1 = 1` exactly where it has none |
| CanvasPipeline.HighlightCanvas | internal/service/engine/engine.go:380-477 | for any task records on whose nodes lighting ahead ends, the highlighted edges are drawn edges hanging together from the root, and canvas edges when the canvas is given back |
| CanvasPipeline.ServingLightingEnds | internal/service/engine/engine.go:542-571 | lighting ahead ends on every converted canvas that is given back or has fresh names |
| CanvasPipeline.ProxyStandsForSource | internal/service/engine/engine.go:737-748 | with fresh names the proxy of a canvas edge, named in a task record, stands for exactly the source of that edge |
| CanvasPipeline.RecordThroughProxy | internal/service/engine/engine.go:415-431 | a record that came through the proxy of an edge lights a shortest way from the source of that edge to its node, wherever there is one within the bound |
| CanvasPipeline.LightOnCanvas | internal/service/engine/engine.go:542-571 | which drawn gateways pass the light on: parallel and selective ones with at most one way in, conditions with at most one way out, never inclusion gateways |
| CanvasRoundTrip.DrawnGraphAcyclic | internal/service/engine/engine.go:587-601 | with fresh names the drawn graph of a converted canvas has no cycle, whoever approves |
| EffectiveGraph.ResolvedAreBehind | internal/service/engine/engine.go:603-618 | resolving finds exactly the real nodes that feed a node directly or through proxies |
| EffectiveGraph.BuildEffectiveGraph | internal/service/engine/engine.go:587-601 | an edge wherever one real node feeds another, each once, for any order of the nodes |
| GatewayPaths.FindPathThroughGateways | internal/service/engine/engine.go:479-525 | a duplicate-free shortest path with only gateways in between; none is reported only if every such path has more than 21 nodes |
| RecordStats.CountRecords | internal/service/engine/engine.go:643-671 | the counts per node and batch |
| RecordStats.TallyMeaning | internal/service/engine/engine.go:674-721 | what the counts say about the records: some system pass, some pending, all passed |
| RecordStats.StatusAnalyzer.IsBatchTainted | internal/service/engine/engine.go:674-681 | yes exactly when a finished record of the batch was passed by the system |
| RecordStats.StatusAnalyzer.IsBatchEffectivelyPassed | internal/service/engine/engine.go:684-706 | the record passed, and with countersigning every record of its batch |
| RecordStats.StatusAnalyzer.HasNewerBatchPending | internal/service/engine/engine.go:709-721 | yes exactly when another batch of the node has an open record |
| RecordStats.OlderBatchCounts | internal/service/engine/engine.go:708-721 | two records: a passed one is held back by the open batch before it although no newer batch is open |
| PathHighlight.Highlighter.RecursiveReset | internal/service/engine/engine.go:527-540 | removes exactly the lit keys reachable from the node through lit gateways, and terminates on any lit map |
| PathHighlight.Highlighter.LightUpForward | internal/service/engine/engine.go:542-571 | wherever it ends, adds exactly the edge and the edges out of forwarding gateways reached through forwarding gateways |
| PathHighlight.Highlighter.Process | internal/service/engine/engine.go:415-448 | one record: what is cleared, a shortest way to it from the node its predecessor stands for, the way ahead, and which of these its status calls for |
| PathHighlight.LogicalPrevUnique | internal/service/engine/engine.go:737-748 | a predecessor stands for one node only: itself, or behind proxies the first node along first predecessors that is no proxy with predecessors |
| PathHighlight.ResolvedLogical | internal/service/engine/engine.go:737-748 | resolving a predecessor finds that node |
| PathHighlight.LightsByStatus | internal/service/engine/engine.go:415-448 | by status and batch: nothing, the way to the node alone, or also all that lies ahead, the latter exactly if it passed with no other batch open or has status 5 |
| PathHighlight.LightStops | internal/service/engine/engine.go:542-571 | nothing is lit out of a join that waits for several predecessors, an inclusion gateway, or a condition with several ways on |
| PathHighlight.LightPasses | internal/service/engine/engine.go:542-571 | every other gateway that is reached lights all its edges and what they lead to |
| PathHighlight.PruneFromRoot | internal/service/engine/engine.go:450-472 | keeps exactly the lit edges hanging together from the root |
| PathHighlight.TraversedEdges | internal/service/engine/engine.go:380-477 | processes the records in order and prunes from the root when there is one; the returned edges are edges of the drawn graph, and with a root their sources are reached from it along returned edges |
| PathHighlight.HighlightsHangTogether | internal/service/engine/engine.go:380-477 | every highlighted edge is an edge of the drawn graph and its source is reached from the root along highlighted edges |
| PathHighlight.UndecidedNodeDark | internal/service/engine/engine.go:415-448 | a record that does not light the way ahead leaves nothing lit out of its node |
| PathHighlight.LightingEndsExactly | internal/service/engine/engine.go:542-571 | lighting ahead of a node ends if and only if it leads to no ring of forwarding gateways |
| PathHighlight.AcyclicLightingEnds | internal/service/engine/engine.go:542-571 | on an acyclic drawn graph it ends for all records |
| FlowPlan.Validate | pkg/flowx/model/dsl.go:42-118 | accepts exactly the definitions with distinct named nodes, one start, an end, sound edges and sound degrees |
| FlowPlan.OneStart | pkg/flowx/model/dsl.go:42-118 | a start count of one means that exactly one position holds a start |
| FlowPlan.NewExecutionPlan | pkg/flowx/kernel/plan.go:25-48 | both edge indexes list the normalized edges in order, every node is found under its id, the start is found |
| FlowPlan.PlanEdgesExactly | pkg/flowx/kernel/plan.go:25-48 | the compiled edges of a node are exactly the definition's, each with its own rule, else the one its condition text parses to |
| FlowPlan.ValidPlanComplete | pkg/flowx/kernel/plan.go:25-56 | the plan of a valid definition knows its one start and both ends of every edge |
| FlowPlan.ValidPlanConnected | pkg/flowx/model/dsl.go:42-118 | in the plan of a valid definition gateways are entered and left, ends only entered, the start only left |
| FlowTransition.CalculateTransition | pkg/flowx/kernel/transition.go:82-121 | which edges out of a node are taken and which skipped, by kind and in order, and exactly when it fails |
| FlowTransition.TransitionByKind | pkg/flowx/kernel/transition.go:98-118 | exclusive: the target of the first edge whose rule holds, or nothing if none does; inclusive: the targets whose rules hold, in order, all others skipped; other nodes: all whose rules hold and no skips |
| FlowTransition.TransitionFailsExactly | pkg/flowx/kernel/transition.go:82-121 | undefined exactly for an unknown node with ways out, or if an edge that is looked at leads nowhere |
| FlowStep.ResolveNextStep | pkg/flowx/kernel/transition.go:25-79 | ready nodes are, once each, the non-gateways reached through open joins; blocked exactly when a reached join is shut; skips of each expanded gateway once; all breadth first, in the order in which targets are first listed; fails exactly when a needed transition is undefined; terminates on gateway cycles |
| FlowStep.ResolutionDecides | pkg/flowx/kernel/transition.go:25-79 | the same of the step that the engine and its histories take, for all rules and joins |
| FlowTrace.PrecedingExactly | pkg/flowx/kernel/transition.go:132-153 | tracing back finds, once each, exactly the activities that lead to the gateway through gateways only |
| FlowTrace.TraceEndsExactly | pkg/flowx/kernel/transition.go:132-153 | tracing back from a node ends if and only if no cycle of gateways lies behind it |
| FlowTrace.RankedExactly | pkg/flowx/kernel/transition.go:132-153 | the gateways can be ranked against tracing back if and only if they form no cycle |
| FlowTrace.RingsCompiled | pkg/flowx/kernel/plan.go:25-48 | whether gateways form a cycle can be read off the definition |
| FlowJoin.LatestExactly | pkg/flowx/kernel/transition.go:204-211 | the tasks a join judges are exactly those of the node with its highest batch code |
| FlowJoin.IsJoinSatisfied | pkg/flowx/kernel/transition.go:157-242 | a parallel join opens if and only if every preceding activity's latest batch meets its rule; an inclusive one if each meets it or was skipped and, if there are any, one meets it; all other nodes are open |
| FlowJoin.JoinByStatus | pkg/flowx/kernel/transition.go:157-242 | the same by the statuses of the latest tasks: one passed for a one-vote node, all passed for any other, at least one task each |
| FlowTrace.UpstreamExactly | pkg/flowx/kernel/transition.go:245-265 | a rejection falls back to what the trail of first deciding edges, each from an approval or a gateway, leads to: an approval, leading to the rejected node through gateways only, or nothing |
| FlowTrace.UpstreamByFirstEdge | pkg/flowx/kernel/transition.go:245-265 | the first edge in from an approval or a gateway decides alone: that approval, or what the gateway falls back to; without one there is nothing |
| FlowTrace.ValidationAdmitsGatewayRings | pkg/flowx/model/dsl.go:42-118 | a valid definition with a parallel join behind a ring of gateways, on which tracing back from the join's first branch runs beyond every depth |
| FlowEffects.ArbitrationByRule | pkg/flowx/kernel/arbitrator.go:25-90 | passing one task satisfies a one-vote node at once, any other node when all tasks of its turn passed |
| FlowEffects.PassSettles | pkg/flowx/engine.go:314-410 | task by task: the one passed is Passed, a pending one of its node and batch is Skipped if and only if the node takes one vote, every other is unchanged |
| FlowEffects.RejectSweeps | pkg/flowx/engine.go:571-579 | task by task: the one rejected is Rejected, other pending ones of its batch are Cancelled, the rest is unchanged |
| FlowEffects.RevokeCancels | pkg/flowx/engine.go:534-547 | task by task: every pending one is Cancelled, the rest is unchanged |
| FlowEffects.GuardRefuses | pkg/flowx/loader.go:44-64 | each refusal exactly, in terms of the task and its status |
| FlowEffects.OneVoteSettlesNode | pkg/flowx/kernel/arbitrator.go:31-38 | with one vote no task of the node's turn stays pending |
| FlowEffects.RejectLeavesNonePending | pkg/flowx/engine.go:571-579 | cancelling the batch's siblings on a rejection leaves no old task pending |
| FlowDepth.ReadyShallow | pkg/flowx/kernel/transition.go:25-79 | a step out of a node with no ring of gateways, copies and automatic nodes ahead leads to nodes with strictly less ahead of them |
| FlowDepth.AcyclicSuffices | pkg/flowx/dispatcher.go:149-266 | in a plan without such a ring one depth suffices for every node |
| FlowDepth.TrapDecided | pkg/flowx/dispatcher.go:229-266 | a step into copies that lead only to each other and to ends is never blocked and makes such a copy ready again |
| FlowDepth.ValidationAdmitsCopyRings | pkg/flowx/model/dsl.go:42-118 | a valid definition without gateway ring whose start leads into two copies leading to each other |
| FlowEngine.StartInLoop | pkg/flowx/engine.go:255-296 | starting an instance of that definition uses up every depth |
| FlowRun.ApplyFacts | pkg/flowx/dispatcher.go:29-62 | an applied decision records its skips; a shut join stops it there, else every ready approval gets pending tasks and an end alone finishes; no earlier task changes, also on an error; the depth is not used up where it suffices, and always where only a trap of copies is ready |
| FlowRun.ActivateFacts | pkg/flowx/dispatcher.go:65-96 | the nodes are served one after the other, each as its kind calls for; every approval gets pending tasks; an end finishes the instance unless an approval is among the nodes |
| FlowRun.MoveOnTakes | pkg/flowx/dispatcher.go:29-266 | a step without an error, person by person: one skipped task per skipped branch, one pending task per assignee, one passed per receiver of a copy and for finished work, whose variables count from then on, and the next step out of both |
| FlowRun.ErrorHasReason | pkg/flowx/dispatcher.go:29-266 | a step fails only with an error that a state it came to gives a reason for: an undefined transition, nothing ready, no assignees, a failed hook or worker, a kind without executor, or the depth |
| FlowRun.PlainStep | pkg/flowx/dispatcher.go:29-96 | into approvals and ends alone a step succeeds exactly if every approval has assignees |
| FlowRun.MoveOnSuffices | pkg/flowx/dispatcher.go:149-266 | every depth that suffices gives the same step |
| FlowEngine.FlowInstance.ExecuteApproval | pkg/flowx/dispatcher.go:119-147 | one pending task per assignee, an error without assignees |
| FlowEngine.FlowInstance.Start | pkg/flowx/engine.go:255-296 | each outcome exactly: without a start node nothing; else the step out of it in batch 1, kept unless it fails; the depth is not used up if no ring of gateways, copies and automatic nodes lies ahead and it exceeds what does |
| FlowEngine.FlowInstance.Pass | pkg/flowx/engine.go:314-410 | each refusal exactly, changing nothing; else the tasks settled as above, and the next step within the same batch exactly if the votes of the node suffice, all of it undone if that step fails; the depth is not used up where it suffices for the task's node |
| FlowEngine.FlowInstance.Reject | pkg/flowx/engine.go:427-499 | each refusal exactly, changing nothing; else the batch swept as above, and one pending task per assignee of the chosen target, or of the approval upstream, in the next batch, or the instance turned down |
| FlowEngine.FlowInstance.Revoke | pkg/flowx/engine.go:516-569 | each refusal exactly, changing nothing; else every pending task cancelled, and the instance ended or one starter task opened above all batches |
| FlowEngine.FlowInstance.LoadTask | pkg/flowx/loader.go:44-64 | the guards before an operation on a task, in order |
| FlowHistory.StepEvolves | pkg/flowx/engine.go:255-579 | each operation, by its own effect or refused, keeps pending tasks at the highest batch, keeps decided tasks, and leaves a stopped instance alone |
| FlowHistory.HistorySound | pkg/flowx/engine.go:255-579 | in every history of operations all pending tasks carry the instance's highest batch code |
| FlowHistory.HistoryKept | pkg/flowx/engine.go:255-579 | in every history of operations decided tasks keep their status and an instance that stopped running is frozen |
| FlowHistory.HistoryRejects | pkg/flowx/engine.go:427-499 | in every history, after a rejection only new tasks are pending, in a batch above all earlier ones, or the instance is turned down |
| FlowSnapshot.MaxBatchCode | pkg/flowx/session.go:54-65 | the batch code counted on from is the highest of any task, and at least 1 |

## Left out

- Columns for phase, error text, timestamps, runners, inputs and outputs, so that recording a submission error
  changes nothing here; SQL, tenants and isolation below the transaction.
- Tickets are named by their process instance, one ticket each.
- The planner's paged listing is one read of the instance's rows; lookups of workflows and properties become one
  yes-or-no outcome.
- Keyset cursors and staleness windows of the background jobs: each job is its handling of one row.
- WithdrawalService.Service.EnsureTask: a task created while the ticket is processing again is not started at once.
- Notifying etask and the physical cancellation protocol, beyond whether the signal is sent.
- Event names attached to converted nodes, node names and message texts.
- Rule text parsing and evaluation: rules are an uninterpreted predicate, condition texts an uninterpreted parser.
- Hooks, event bus, middleware, the plan cache and worker retry delays; assignees and worker results are
  uninterpreted functions of the node and the variables.
- FlowEngine.FlowInstance.MoveOn: consecutive synchronous nodes (copies, finished workers) are followed to a given depth,
  and exceeding it is an error the original does not have. `FlowDepth.Suffices` says where some depth is never exceeded,
  and `FlowRun.MoveOnSuffices` that it makes no difference then, so that nothing is lost; on a ring of such nodes, as in `FlowDepth.LOOP`, every depth is, where the original would not
  return. Whether a ring is entered when rules or joins stand in its way is not decided.
- Whether a finished flow instance still has pending tasks: only approvals count as waiting, so it may.
- Instances not yet started, deployment and versions of definitions.
- Timelines, statistics, notification templates, dispatch rules and all HTTP, RPC and messaging code.
