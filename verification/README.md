# Verified models of Griffino

Griffino runs plugins and wires them into blueprints, graphs of nodes that the
task scheduler executes. This project models the parts of Griffino whose
correctness lies in the interplay of several functions, and proves what they promise.

`dafny verify dfyconfig.toml` checks the whole project (Dafny 4.11).

## What is modelled

**The blueprint execution engine** (`internal/taskscheduler`).

- `Blueprint.dfy`: nodes, `findNode`, `countInEdges`, loop counts.
- `TaskRecord.dfy`: the Task and the closures of `store.go` that change it in place
  (`TaskCell`), tied to `Apply` and `Answer`; join arithmetic over histories.
- `TaskFields.dfy`: each field of the record after any history, told by the transactions
  that wrote it.
- `TaskStore.dfy`, `Clients.dfy`: the optimistic-lock loop `update`, once as a method
  under arbitrary interference and once as any number of clients whose WATCH, GET and
  EXEC steps interleave.
- `Engine.dfy`: the state machine. A handler is a stack of frames (the calls it is
  inside and the remaining iterations of its fan-out loops); an unanswered plugin
  message is a process of its own. One step takes the innermost frame of one process
  and commits at most one store transaction; the watchdog, plugin-down failures and
  store errors (`Abort`) interleave freely.
- `Numerals.dfy`, `Decisions.dfy`, `Outcomes.dfy`, `Finished.dfy`: which texts are loop
  counts, which edges IF and LOOP nodes take over whole runs, how nodes and replies end a
  task, and that a task that has ended accepts no reply.
- `Conservation.dfy`, `Terminal.dfy`, `Termination.dfy`, `Acyclic.dfy`, `Loops.dfy`,
  `JoinRuns.dfy`, `OnlyJoins.dfy`: what holds in every run of every blueprint.
  `StaleCallback.dfy` is a run whose callback contradicts the record.
- `Flow.dfy`, `Firing.dfy`, `Completion.dfy`, `Stranding.dfy`: which nodes of an acyclic
  fan-out/join blueprint fire, and exactly which of these blueprints complete in every
  maximal failure-free run. `FanOutJoin.dfy` and `StarvedJoin.dfy` are examples.
- `Watchdog.dfy`, `DoubleDispatch.dfy`: the table of in-flight nodes and
  `earliestExpired`, and a run in which the table loses a dispatch.
- `Handlers.dfy`: the handlers in their own recursive, imperative form. Each is
  proved to perform a run of the state machine, so what is proved of all runs holds
  for the depth-first order in which the code dispatches branches. A goroutine's stack
  is finite: `room` is the number of nested node executions it has space for, and a
  handler either returns or takes at least that many steps. No blueprint is excluded.
- `Schedules.dfy`: building concrete runs step by step.

**Secondary components**: `StartOrder.dfy` (service start order), `Router.dfy`
(provider selection), `UserConfig.dfy` and `UserConfigLaws.dfy` (mask, normalize and
preserve user configuration), `Sessions.dfy` (per-user session index),
`PluginStore.dfy` (encrypted plugin records), `AuditLog.dfy` (ordered keys, paging).

## Environment assumptions

- Node ids are distinct where a theorem says `DistinctIds`, and the blueprint does
  not change during a run. In the state machine a reply answers a message that was
  sent; `HandleUnknownResult` treats replies that name no node of the blueprint.
- Each plugin message is answered at most once. A repeated reply would advance its
  node again, because `RemoveActiveNode` does not check presence (`store.go:282-287`).
- A store error ends the handler it happens in (`Abort`), with two exceptions that the
  code only logs: a failing `AddActiveNode`, and a failing read in `sendCallback`, after
  which the handler's own copy of the Task is sent. These are choices of the outside
  world (`registered`, `readable`). Theorems that need the absence of aborts say so
  (`NoAborts`, `Tidy`, `SmoothRun`); the others hold with them.
- The results of expressions, the lookups of INPUT and OUTPUT nodes, the clock, the
  replies of plugins and the outcome of publishing are choices of the outside world
  (`Pick`), arbitrary in every step. The clock is later than Go's zero time.
- Only finitely many outside failures (watchdog, plugin down) hit one task.
- Cipher: opening what was sealed gives the plaintext back. Where a result says so, a
  sealed text is also no shorter than what it opens to.
- Session tokens are fresh when issued and TTLs are positive. Keys expire as Redis
  keys do; one operation takes no time.

## Where code, comments and expectations differ

- `failTask` returns nil after marking the task, so a fan-out loop goes on to dispatch
  its remaining branches after one of them failed. The model does the same.
- A join that absorbs the last live branch does not complete the task
  (`scheduler.go:337-341`), and `countInEdges` counts edges of nodes that never run, so
  a join can wait for ever. `StarvedJoin.JoinStarves` gives a run that ends with no
  branch left and the task still running. The exact condition is
  `Stranding.CompletionCondition`. That no edge leads from an unreachable node into a
  reachable join suffices (`UnmixedSuffices`) but is not needed: a handler runs its
  branches one after the other, so the order of `NextNodes` decides whether a starved
  join can absorb the last one (`StarvedJoin.EdgeOrderDecides`).
- When the read in `sendCallback` fails, the callback says `running` without a reason,
  next to the right event name (`Terminal.OneCallback`; `StaleCallback.StaleRun` is a run).
- A sweep reads the table, then marks the task failed: two steps, between which a
  reply may arrive. The model keeps them apart.
- A second dispatch of a node that is still in flight loses its deadline with the
  first reply (`Watchdog.SecondDispatchForgotten`, exactly when `Watchdog.TableStep`
  says; `DoubleDispatch.LostDeadline` is a run).
- `ListByUser` says it returns all active sessions. That fails when a user's TTL was
  shortened between two logins (`Sessions.ShorterTtlHidesSession`); the exact
  conditions are `CreateKeepsAgreement` and `RefreshKeepsAgreement`, and for whole
  sequences `AgreementAlongSequence`.
- Posting the masked view back is refused in two cases: the placeholder breaks a length
  bound of a stored nested secret (`UserConfigLaws.RefusedRoundTrip`), or a stored item
  lacks a required secret, because a first submission of the placeholder was accepted and
  then took the secret away (`DroppedSecretRefused`). `ReachableRoundTrip` says that these
  are the only cases, for every configuration that submissions can reach.
- A credential that starts with the ciphertext prefix is stored as it is and read through
  Open (`PluginStore.EncryptRoundTrip`).
- Audit keys of times before 1970 mostly sort in reverse; `AuditLog.KeyOrderExactly`
  says for which pairs of int64 times the keys are in order.

## Model

| member | source | states |
|---|---|---|
| Blueprints.FindNode | internal/taskscheduler/scheduler.go:783-790 | returns the first node with the id, or none when no node has it |
| Blueprints.CountInEdges | internal/taskscheduler/scheduler.go:796-806 | the nested counting loops compute the in-degree |
| Blueprints.InDegreeIsEdgeCount | internal/taskscheduler/scheduler.go:792-795 | in-degree is the size of the set of edges into the node; a node that names it twice contributes two |
| Numerals.CountRead | internal/taskscheduler/scheduler.go:390-401 | white space, an optional sign and the decimal numeral of an int64 are read as that count; larger numerals are conditions |
| Numerals.ConditionRead | internal/taskscheduler/scheduler.go:390-405 | text with any other character is a condition |
| Numerals.NothingRead | internal/taskscheduler/scheduler.go:390-405 | so is blank text |
| TaskRecord.TaskCell.MarkTerminal | internal/taskscheduler/store.go:232-244 | only a running task changes, exactly then the call reports a change |
| TaskRecord.TaskCell.MergeContext | internal/taskscheduler/store.go:247-257 | every output key ends up with the output's value, all else is kept |
| TaskRecord.TaskCell.AdvanceNode | internal/taskscheduler/store.go:260-266 | moves the current node and nothing else |
| TaskRecord.TaskCell.AddActiveNode | internal/taskscheduler/store.go:269-279 | registers node and deadline |
| TaskRecord.TaskCell.RemoveActiveNode | internal/taskscheduler/store.go:282-287 | removes the node, present or not |
| TaskRecord.TaskCell.AddBranches | internal/taskscheduler/store.go:290-295 | adds to the branch count only |
| TaskRecord.TaskCell.EndBranch | internal/taskscheduler/store.go:299-306 | one branch fewer, the remaining count is returned |
| TaskRecord.TaskCell.ArriveAtJoin | internal/taskscheduler/store.go:314-331 | counts an arrival or releases the join; exactly an absorbed branch lowers the branch count |
| TaskRecord.TaskCell.IncrLoopCount | internal/taskscheduler/store.go:334-345 | the new count of the LOOP node is returned |
| TaskRecord.TaskCell.Run | internal/taskscheduler/store.go:172-217 | every closure applies its operation to the decoded record and leaves the matching answer |
| TaskRecord.JoinArithmetic | internal/taskscheduler/store.go:308-331 | after k arrivals at a join of in-degree m >= 2, in any history, floor(k/m) proceeded and the counter is k mod m |
| TaskRecord.JoinBranchAccounting | internal/taskscheduler/types.go:98-102 | in any history, other joins included, the branch count fell by exactly k - floor(k/m) through this join, apart from what the rest of the history moved |
| TaskFields.ContextHolds | internal/taskscheduler/store.go:246-257 | after any history a context key holds what the last merge of the key wrote, or what it held before |
| TaskFields.CurrentNodeHolds | internal/taskscheduler/store.go:259-279 | the current node is the last one advanced to or registered |
| TaskFields.ActiveNodeHolds | internal/taskscheduler/store.go:268-287 | a node is in the table with its deadline exactly if its last registration came after its last removal |
| TaskFields.StatusHolds | internal/taskscheduler/store.go:229-244 | the first end of a running task decides status and reason |
| TaskFields.StatusKept | internal/taskscheduler/store.go:229-244 | without one, or once ended, neither changes |
| TaskFields.OneEndReported | internal/taskscheduler/store.go:229-244 | exactly the call that ended the task reports a change |
| TaskFields.LoopCountHolds | internal/taskscheduler/store.go:333-345 | a loop count rises by one for each iteration of its node and by nothing else |
| TaskFields.IterationNumbered | internal/taskscheduler/store.go:333-345 | each iteration learns its own number |
| TaskFields.BranchesLeft | internal/taskscheduler/store.go:297-306 | a leaf learns the count left after its own branch ended |
| TaskStores.TaskStore.Attempt | internal/taskscheduler/store.go:175-204 | a WATCH/GET/EXEC attempt commits exactly if nobody wrote since WATCH, on the value then current |
| TaskStores.TaskStore.Update | internal/taskscheduler/store.go:172-217 | success commits the operation exactly once on the current value and returns result and reply of that attempt; failure commits nothing; all earlier attempts met conflicts |
| TaskStores.TaskStore.Interfere | internal/taskscheduler/store.go:168-171 | other clients' commits keep the stored value equal to the replay of the log |
| TaskStores.ReplayIsFold | internal/taskscheduler/store.go:168-171 | a committed history of transactions leaves the sequential fold of their closures |
| TaskStores.ConcurrentJoin | internal/taskscheduler/scheduler_parallel_test.go:124-168 | of n arrivals at a join of in-degree n, interleaved with anything, exactly one proceeds, the counter is reset, and n - 1 branches are gone |
| Clients.AnyHistoryIsSequential | internal/taskscheduler/store.go:168-217 | under any interleaving of the clients' WATCH, GET and EXEC steps the record is the fold of the operations in commit order; a client that returned committed once, with the result and reply of that application; one that gave up, never |
| Clients.OneProceeds | internal/taskscheduler/scheduler_parallel_test.go:124-168 | n clients stepping through WATCH, GET and EXEC arrive at a join of in-degree n: the last to commit alone proceeds, and n branches become one |
| JoinRuns.RunIsHistory | internal/taskscheduler/scheduler.go:326-333 | the record after a run is the fold of the transactions it committed, and arrivals expect the static in-degree |
| JoinRuns.JoinArithmeticInRuns | internal/taskscheduler/scheduler.go:326-347 | in any run of any blueprint, k arrivals at a join of in-degree m >= 2 make floor(k/m) releases, leave k mod m counted and cost k - floor(k/m) branches |
| Engine.ExecShape | internal/taskscheduler/scheduler.go:447-471 | executing a node leads to one well-formed continuation, or none exactly when a join absorbs the branch |
| Conservation.TokenConservation | internal/taskscheduler/types.go:98-102 | in every reachable state of a running task, for every blueprint, ActiveBranches is the number of unanswered messages plus continuations held by handlers |
| Conservation.BranchCountNeverNegative | internal/taskscheduler/store.go:289-331 | the branch count never falls below the live branches, even after store errors, so never below zero |
| Conservation.LeafCompletionExact | internal/taskscheduler/scheduler.go:275-288 | EndBranch returns a count at or below 0 exactly when no other branch of the running task is live; then completeTask follows |
| Conservation.LastBranchEndsOnce | internal/taskscheduler/store.go:297-306 | at most one EndBranch of a run reports zero, and afterwards no branch is ever live |
| Terminal.TerminalIsAbsorbing | internal/taskscheduler/store.go:229-244 | after leaving running, status and fail reason never change, under any interleaving |
| Terminal.OneCallback | internal/taskscheduler/scheduler.go:609-696 | at most one callback, whose event agrees with the stored status; its status and reason are the stored ones exactly if sendCallback could read the record; exactly one for a finished task with a trigger plugin once all work is done |
| OnlyJoins.OnlyJoinsStrand | internal/taskscheduler/scheduler.go:322-341 | in every blueprint, cycles, IF and LOOP included: a run without store errors that leaves the task running with nothing to do has no live branch, and some JOIN of several edges has part of its arrivals |
| OnlyJoins.WithoutJoinsEnds | internal/taskscheduler/scheduler.go:275-442 | so a blueprint without such joins never leaves a task running |
| StaleCallback.StaleRun | internal/taskscheduler/scheduler.go:648-660 | a run that completes a task and tells the trigger plugin task.completed with status running |
| Termination.BudgetIncrement | internal/taskscheduler/store.go:334-345 | counting an iteration never raises the remaining LOOP budget, and lowers it while the node has any |
| Termination.EffectFuel | internal/taskscheduler/scheduler.go:275-442 | every step burns fuel unless it takes a LOOP body within the loop's bound |
| Termination.StepDescends | internal/taskscheduler/scheduler.go:36-39 | every step lowers the lexicographic measure (outside failures, LOOP budget, fuel) |
| Termination.EveryRunEnds | internal/taskscheduler/scheduler.go:275-471 | if the blueprint can be layered without LOOP body edges, no run goes on for ever |
| Acyclic.LayeredIffNoCycle | internal/taskscheduler/scheduler.go:36-39 | a layering exists exactly if no closed walk avoids all LOOP body edges |
| Acyclic.ShallowIffNoCycle | internal/taskscheduler/scheduler.go:310-318 | one handler's recursion can be bounded exactly if every closed walk passes a plugin node or takes a LOOP body edge |
| Acyclic.RunsEndWithoutCycle | internal/taskscheduler/scheduler.go:275-471 | if every closed walk takes a LOOP body edge, no run goes on for ever |
| Loops.LoopBudget | internal/taskscheduler/scheduler.go:385-442 | over any run a fixed-count LOOP n sends exactly its first n arrivals to the body and all later ones to the exit; a conditional LOOP takes its body at most 10000 times |
| Decisions.IfTakes | internal/taskscheduler/scheduler.go:361-380 | over any run an IF has taken its first edge as often as its expression was true when it was executed, the second as often as it was false |
| Decisions.CountedLoop | internal/taskscheduler/scheduler.go:394-441 | over any run a LOOP whose text is the numeral of n took its body in its first n executions and its exit in all later ones |
| Decisions.NegativeLoop | internal/taskscheduler/scheduler.go:394-441 | with a negative numeral it never takes the body |
| Decisions.ConditionalLoop | internal/taskscheduler/scheduler.go:405-441 | of its first 10000 executions a conditional LOOP took the body in those with a true expression and the exit in those with a false one; later ones take neither |
| Outcomes.IfOutcomes | internal/taskscheduler/scheduler.go:350-380 | too few edges, a failing expression and an unknown target fail the task with their reasons, an empty target completes it |
| Outcomes.LoopOutcomes | internal/taskscheduler/scheduler.go:385-441 | the same for LOOP, and the cap of 10000 iterations |
| Outcomes.BuiltinOutcomes | internal/taskscheduler/scheduler.go:454-535 | INPUT and OUTPUT merge their value and fan out, or fail the task; unknown capabilities fail it |
| Outcomes.PassedJoin | internal/taskscheduler/scheduler.go:327-331 | a join with at most one incoming edge is passed without a transaction |
| Outcomes.PluginOutcomes | internal/taskscheduler/scheduler.go:566-576 | a plugin node is registered with now plus its timeout, five minutes by default; a failing registration stops nothing |
| Outcomes.PublishOutcomes | internal/taskscheduler/scheduler.go:577-604 | the message becomes a process of its own, or the task fails |
| Outcomes.FanOutcomes | internal/taskscheduler/scheduler.go:290-298 | an unknown next node fails the task before anything is dispatched |
| Outcomes.EdgeLeads | internal/taskscheduler/scheduler.go:310-318 | walking an edge makes the node it names the current one and executes it |
| Outcomes.RefusedReply | internal/taskscheduler/scheduler.go:218-223 | a reported failure ends the task with the reason reported |
| Outcomes.InvalidOutput | internal/taskscheduler/scheduler.go:233-238 | an undecodable output ends the task after the node left the table |
| Outcomes.AcceptedReply | internal/taskscheduler/scheduler.go:225-252 | an accepted reply takes the node out of the table, merges exactly its output, and resumes at the node |
| Outcomes.ObservedFields | internal/taskscheduler/scheduler.go:152-179 | in any run the context is the trigger's, overwritten key by key by the last merge; the current node is the last one advanced to, or the entry |
| Outcomes.PluginDownEnds | internal/taskscheduler/scheduler.go:702-715 | a plugin-down failure names the triggering plugin |
| Outcomes.NoTriggerNoCallback | internal/taskscheduler/scheduler.go:643-646 | without a trigger plugin no callback is sent |
| Outcomes.BuiltinKinds | internal/taskscheduler/types.go:59-74 | the capability ids of built-in nodes |
| Finished.ReplyIgnored | internal/taskscheduler/scheduler.go:203-211 | a reply to a task that has ended changes nothing but ending its own process |
| Finished.FinishedTaskAcceptsNothing | internal/taskscheduler/scheduler.go:203-229 | however a run goes on after the end of its task, no further reply is accepted, and once those in hand are done with no node leaves the table |
| Flow.FlowStep | internal/taskscheduler/scheduler.go:310-347 | every failure-free step keeps the flow balance of every edge, node and join |
| Flow.MergingStep | internal/taskscheduler/scheduler.go:326-347 | a join turns m arrivals into one departure: arrivals equal its counter plus m times its releases |
| Firing.FiringSetExists | internal/taskscheduler/scheduler.go:322-347 | exactly one set of nodes satisfies the firing rule: a join of several edges fires if all its feeders do, another node if it is the entry or some feeder does |
| Completion.ForkJoinCompletes | internal/taskscheduler/scheduler.go:269-347 | every maximal failure-free run of a fork/join blueprint, under any interleaving, crosses each edge once, fires each join once and ends completed with no branch and no join count left |
| Completion.MaximalRun | internal/taskscheduler/scheduler.go:269-347 | every maximal failure-free run of an acyclic fan-out/join blueprint leaves exactly the firing nodes, once each, ends without branches and not failed, and completed unless a handler's last branch can strand |
| Completion.ShapedStep | internal/taskscheduler/scheduler.go:310-318 | below the frame at work a handler holds only fan-out loops, and its outermost frame follows last edges from where the handler started |
| Stranding.CompletionCondition | internal/taskscheduler/scheduler.go:322-341 | for acyclic fan-out/join blueprints: every maximal failure-free run ends completed if and only if no chain of last edges from the entry or a firing plugin node, through firing nodes, ends in a join that never fires |
| Stranding.StrandedRun | internal/taskscheduler/scheduler.go:337-341 | otherwise a schedule exists that leaves the task running with nothing left to do |
| Stranding.Drain | internal/taskscheduler/scheduler.go:310-318 | whatever one branch waits for, all other work can be finished without failure |
| Stranding.UnmixedSuffices | internal/taskscheduler/scheduler.go:322-325 | no edge from an unreachable node into a reachable join: then no branch strands |
| Completion.MaximalIsQuiet | internal/taskscheduler/scheduler.go:195-253 | a failure-free run cannot be extended exactly when all handlers returned and all messages were answered |
| Firing.AtMostOnce | internal/taskscheduler/scheduler.go:326-347 | in every state on the way a firing node was left at most once, another never; a node that cannot fire never gets all arrivals it waits for |
| Firing.Settles | internal/taskscheduler/store.go:308-331 | once no branch stands above, a firing node was left exactly once, with each edge crossed once and its join counter back at zero, another never |
| Completion.OrderlyStep | internal/taskscheduler/scheduler.go:275-347 | a failure-free step keeps: branch count equals live branches, flow balances; completeTask is due when none is left, unless the step absorbs the last one |
| Firing.EntryDegree | internal/taskscheduler/scheduler.go:146-191 | in a fork/join blueprint the entry is the only node without incoming edges |
| FanOutJoin.IsForkJoin | internal/taskscheduler/scheduler_parallel_test.go:28-46 | the blueprint A, B and C, J, D has the fork/join shape |
| StarvedJoin.JoinStarves | internal/taskscheduler/scheduler.go:322-341 | with an unreachable predecessor, a maximal failure-free run ends with the task running, no branch live and an arrival stuck at the join |
| StarvedJoin.EdgeOrderDecides | internal/taskscheduler/scheduler.go:310-318 | a fan-out to a leaf and to a starved join completes in every maximal run exactly if the join is named first |
| Watchdog.EarliestExpired | internal/taskscheduler/scheduler.go:769-779 | finds a minimal expired deadline exactly if one exists, in every map order |
| Watchdog.TableStep | internal/taskscheduler/store.go:268-287 | where no branch is about to fail the task, a step keeps the table equal to the set of unanswered nodes exactly if it takes back no reply to a node with a second unanswered dispatch |
| Watchdog.SweepIsExact | internal/taskscheduler/scheduler.go:742-764 | while no node holds two unanswered dispatches, every dispatch was registered and no branch is about to fail the task: the table lists exactly the unanswered nodes, each with the clock of its dispatch plus its timeout, and a sweep may fail the task exactly if one of them is overdue |
| Watchdog.NeverFailed | internal/taskscheduler/scheduler.go:623-640 | a branch about to fail the task stays so until the task has failed, so a running task without one never had one |
| Watchdog.SweepTest | internal/taskscheduler/scheduler.go:754-757 | earliestExpired on a running task's table reports an expired node exactly if some unanswered dispatch is overdue, and names one that was due first |
| Watchdog.DeadlineRun | internal/taskscheduler/scheduler.go:566-575 | in every run of every blueprint a registered deadline is that of the node's latest dispatch |
| Watchdog.SecondDispatchForgotten | internal/taskscheduler/store.go:282-287 | a reply removes the node's only deadline, so a right table stays right exactly if it was the only dispatch |
| DoubleDispatch.LostDeadline | internal/taskscheduler/store.go:282-287 | a reachable state with two unanswered dispatches of one node; after the first reply the task runs, one message is unanswered, the table is empty and no sweep at any time applies |
| Watchdog.SweptTaskFails | internal/taskscheduler/scheduler.go:758-762 | when the marking step follows the sweep's read, the task fails with the timeout reason and nothing else in it changes |
| Watchdog.PlainSweepIsExact | internal/taskscheduler/scheduler.go:566-575 | on acyclic fan-out/join blueprints no node is dispatched twice at once, so the watchdog is exact |
| Handlers.Scheduler.HandleFanOut | internal/taskscheduler/scheduler.go:275-320 | for every blueprint: performs a run of the state machine that ends with its own work done and nothing else of its handler touched, or uses up the room, after at least as many steps |
| Handlers.Scheduler.EndLeaf | internal/taskscheduler/scheduler.go:276-288 | likewise, for a leaf |
| Handlers.Scheduler.RejectFanOut | internal/taskscheduler/scheduler.go:291-298 | likewise, for an unresolved next node: nothing is dispatched |
| Handlers.Scheduler.OpenFanOut | internal/taskscheduler/scheduler.go:300-308 | the branch count grows before any edge is walked |
| Handlers.Scheduler.ResolveNext | internal/taskscheduler/scheduler.go:290-298 | accepts exactly the nodes all of whose next ids resolve |
| Handlers.Scheduler.WalkEdge | internal/taskscheduler/scheduler.go:310-318 | likewise for one edge: the branch runs to the end of its handler, the remaining edges stay to be walked |
| Handlers.Scheduler.Cross | internal/taskscheduler/scheduler.go:310-314 | advances to the target of the edge, which is executed next |
| Handlers.Scheduler.ExecuteNode | internal/taskscheduler/scheduler.go:447-471 | dispatches by node type; the room that a ranking computes suffices, LOOPs included |
| Handlers.Scheduler.RejectNode | internal/taskscheduler/scheduler.go:468-470 | an unknown built-in capability fails the task |
| Handlers.Scheduler.ExecutePluginNode | internal/taskscheduler/scheduler.go:539-605 | registers, then publishes; a run of the state machine |
| Handlers.Scheduler.PublishNode | internal/taskscheduler/scheduler.go:577-604 | the message becomes a process of its own, or the task fails |
| Handlers.Scheduler.ExecuteContextNode | internal/taskscheduler/scheduler.go:474-535 | INPUT and OUTPUT merge one value, then fan out, or fail the task |
| Handlers.Scheduler.HandleJoinNode | internal/taskscheduler/scheduler.go:326-347 | passes through, absorbs or releases, then fans out; a run of the state machine |
| Handlers.Scheduler.Arrive | internal/taskscheduler/scheduler.go:327-341 | counts the arrival unless the join has a single edge; the handler goes on exactly if the join is passed or released |
| Handlers.Scheduler.HandleIFNode | internal/taskscheduler/scheduler.go:350-381 | takes the first edge on true, the second on false, with the error paths |
| Handlers.Scheduler.TakeBranch | internal/taskscheduler/scheduler.go:369-380 | an empty target completes, an unknown one fails, another one is walked |
| Handlers.Scheduler.HandleLoopNode | internal/taskscheduler/scheduler.go:385-442 | body or exit by count or condition, with the error paths |
| Handlers.Scheduler.CountIteration | internal/taskscheduler/scheduler.go:393-428 | increments before deciding, and enforces the cap |
| Handlers.Scheduler.CompleteTask | internal/taskscheduler/scheduler.go:609-621 | the callback follows exactly if this call changed the status |
| Handlers.Scheduler.FailTask | internal/taskscheduler/scheduler.go:623-640 | likewise, for a failure |
| Handlers.Scheduler.SendCallback | internal/taskscheduler/scheduler.go:643-696 | sends the stored status and reason, those of the handler's own copy if the read fails, or nothing without a trigger plugin |
| Handlers.Scheduler.HandleNodeResult | internal/taskscheduler/scheduler.go:195-253 | a reply to an ended task changes neither record nor callbacks; a reported failure fails the task with the reported reason; else the branch advances |
| Handlers.Scheduler.HandleUnknownResult | internal/taskscheduler/scheduler.go:195-250 | a reply that names no node can fail the task or merge its output, moves no branch, join or loop, and is reported as not found |
| Handlers.Scheduler.TakeBack | internal/taskscheduler/scheduler.go:225-244 | removes the node from the table before merging its output |
| Handlers.Scheduler.MergeOutput | internal/taskscheduler/scheduler.go:233-252 | merges the output, then advances |
| Handlers.Scheduler.AdvanceTask | internal/taskscheduler/scheduler.go:258-267 | IF and LOOP pick an edge, other nodes fan out |
| Handlers.CreateAndStartTask | internal/taskscheduler/scheduler.go:146-191 | an empty blueprint is skipped; otherwise the recursion performs a run from the initial state and returns, or takes as many steps as there is room; it returns if every cycle passes a plugin node or a LOOP body and the room is the one computed; a fork/join blueprint of built-in nodes is then completed |
| Handlers.SynchronousCompletion | internal/taskscheduler/scheduler_parallel_test.go:28-72 | the depth-first schedule of a built-in fork/join blueprint ends completed with zero branches |
| StartOrder.Sorter.Visit | pkg/container/lifecycle.go:361-383 | terminates on cycles, lists each visited service after its dependencies except around cycles, and adds only what it depends on, itself last |
| StartOrder.TopoSort | pkg/container/lifecycle.go:357-396 | errs exactly if the main service or a depends_on target is missing; else a start order, in every map order, that begins with the main service's dependency closure and then the main service |
| StartOrder.AcyclicOrder | pkg/container/lifecycle.go:356-396 | a dependency that does not depend back starts strictly earlier |
| StartOrder.ValidateReferences | pkg/manifest/validator.go:35-53 | accepts exactly the references on which the sort cannot fail |
| StartOrder.StartValidated | pkg/manifest/validator.go:35-53 | a validated manifest always gets a start order |
| Router.MajorOf | internal/router/router.go:682-695 | of name@major.rest the major version is returned, whatever the name |
| Router.NoMajor | internal/router/router.go:686-689 | without a version there is no major |
| Router.HealthyProviders | internal/router/router.go:666-680 | keeps the healthy providers in order, all when none is healthy |
| Router.CompatibleProviders | internal/router/router.go:703-724 | the result is the filtered list itself: the fallback for an empty result is unreachable |
| Router.FindLeader | internal/router/router.go:646-654 | the subtracting scan finds the provider that owns the position |
| Router.Balancer.NextCount | internal/router/router.go:734-743 | returns the counter of its route and advances it alone, wrapping at 2^64 |
| Router.Balancer.OrderedProviders | internal/router/router.go:632-661 | the order is a rotation of the candidates, led by the one in whose stretch of the declared weights the counter value falls; the identity for fallback |
| Router.CandidatesAreSublist | internal/router/router.go:663-680 | candidates are an order-preserving part of the route's providers, empty only for an empty route |
| Router.UnhealthyOnlyWithoutHealthy | internal/router/router.go:663-680 | an unhealthy candidate appears only if every provider is unhealthy |
| Router.OneMajor | internal/router/router.go:697-724 | typed candidates share one major; a healthy provider is dropped exactly if it declares another |
| Router.CandidatesExactly | internal/router/router.go:663-724 | a provider is a candidate exactly if it is usable (healthy, or none is) and untyped or of the major that the first usable typed one declares |
| Router.UntypedCandidates | internal/router/router.go:711-713 | if no usable one is typed, all usable ones are candidates |
| Router.SignatureTells | internal/router/router.go:745-748 | routes differing in plugin, capability type or slot count separately |
| Router.FairShare | internal/router/router.go:641-654 | over as many consecutive counter values as the declared weights add up to, from any start, provider i leads exactly weight times, once if the weight is below 1 |
| Router.ServeWindow | internal/router/router.go:628-661 | that many consecutive calls up to the wrap give each candidate the lead exactly as often as its declared weight |
| UserConfig.NormalizeItem | internal/api/handlers_user_config.go:204-224 | accepts exactly items with all required and only valid known fields, and drops unknown ones |
| UserConfig.NormalizeUserConfigValue | internal/api/handlers_user_config.go:179-227 | group arrays are normalized item by item or refused as a whole |
| UserConfig.MaskConfigValue | internal/api/handlers_user_config.go:294-327 | exactly the secrets, nested ones included, become the placeholder |
| UserConfig.MaskUserConfigValues | internal/api/handlers_user_config.go:277-292 | masks each declared key by its parameter and keeps the rest |
| UserConfigLaws.ViewHidesSecrets | internal/api/handlers_user_config.go:275-327 | configurations that differ only in passwords and in password fields of group items have the same masked view |
| UserConfigLaws.ViewShowsPlaceholder | internal/api/handlers_user_config.go:296-297 | each stored top-level password shows as the placeholder |
| UserConfigLaws.ViewOfItem | internal/api/handlers_user_config.go:298-323 | in a group item each password field shows as the placeholder, any other as stored |
| UserConfigLaws.ViewOfOthers | internal/api/handlers_user_config.go:283-290 | other values show as stored |
| UserConfigLaws.ItemAccepted | internal/api/handlers_user_config.go:204-273 | an item is accepted exactly if its required fields are there and each non-null value has its field's type, integers whole, and keeps its bounds |
| UserConfigLaws.GroupAccepted | internal/api/handlers_user_config.go:179-227 | a group is accepted exactly if it is an array of permitted length of accepted objects |
| UserConfig.Draft.PreserveExistingPasswords | internal/api/handlers_user_config.go:332-375 | restores or removes submitted placeholders in place, parameter by parameter |
| UserConfig.PreserveSecrets | internal/api/handlers_user_config.go:354-371 | within one item, each placeholder becomes the old secret or disappears |
| UserConfig.SetUserConfigValues | internal/api/handlers_user_config.go:146-164 | stores the normalized and preserved submission, or refuses it |
| UserConfigLaws.MaskedViewRoundTrip | internal/api/handlers_user_config.go:277-375 | posting the masked view of values that normalize to themselves stores the same values, exactly if the placeholder fits the length bounds of the nested secrets; else it is refused |
| UserConfigLaws.ReachableRoundTrip | internal/api/handlers_user_config.go:146-375 | for every configuration that any submissions from an empty one reach: posting the masked view back stores the same values, exactly if the placeholder fits the bounds of the stored nested secrets and every stored item holds its required secrets; else it is refused |
| UserConfigLaws.ReachableNearly | internal/api/handlers_user_config.go:146-164 | what submissions reach is normalized but for required secrets that may be missing |
| UserConfigLaws.RefusedRoundTrip | internal/api/handlers_user_config.go:247-254 | a stored three-letter secret with maxLength 5: its masked view is refused |
| UserConfigLaws.DroppedSecretRefused | internal/api/handlers_user_config.go:369-371 | a first placeholder for a required secret is accepted and drops it; the masked view of the result is refused |
| UserConfigLaws.PlaceholderNeverStored | internal/api/handlers_user_config.go:140-164 | over any sequence of submissions from an empty configuration no stored secret is the placeholder |
| UserConfigLaws.SubmittedPassword | internal/api/handlers_user_config.go:335-342 | a submitted placeholder yields exactly the previous secret, or absence; anything else is stored as submitted |
| UserConfigLaws.SubmittedNestedSecret | internal/api/handlers_user_config.go:343-371 | likewise for a secret field of item i of a group array |
| UserConfigLaws.SubmittedValue | internal/api/handlers_user_config.go:146-159 | a declared value that is neither password nor group is stored as submitted, an undeclared one not at all |
| UserConfigLaws.NotSubmitted | internal/api/handlers_user_config.go:146-159 | what is not submitted is not stored |
| UserConfigLaws.SubmittedField | internal/api/handlers_user_config.go:212-224 | in a group item a declared field that is no password is stored as submitted, an undeclared one dropped |
| Sessions.SessionManager.Create | internal/auth/session.go:72-96 | stores and indexes the session, and moves the expiry of the whole index |
| Sessions.SessionManager.Get | internal/auth/session.go:98-113 | finds exactly the unexpired sessions |
| Sessions.SessionManager.Delete | internal/auth/session.go:116-123 | ends the session and prunes its user's index |
| Sessions.SessionManager.Refresh | internal/auth/session.go:126-139 | renews a live session together with its user's index |
| Sessions.SessionManager.ListByUser | internal/auth/session.go:143-176 | one summary for each live indexed token, the stale ones are pruned |
| Sessions.SessionManager.DeleteByUserSessionID | internal/auth/session.go:180-196 | finds exactly the indexed public ids and ends that session |
| Sessions.SafeMeansForever | internal/auth/session.go:69-71 | list and sessions agree now and at all later times exactly if every live session's index entry outlasts it |
| Sessions.CreateKeepsAgreement | internal/auth/session.go:90-93 | a login keeps the agreement exactly if no session of the user outlasts the new TTL |
| Sessions.RefreshKeepsAgreement | internal/auth/session.go:125-139 | the same for a renewal, counting the user's other sessions |
| Sessions.AgreementAlongSequence | internal/auth/session.go:72-196 | from any state in which they agree: along a sequence of operations list and sessions agree at every moment and for ever exactly if every login and renewal covers the user's other sessions when it is made |
| Sessions.AgreementFromStart | internal/auth/session.go:72-196 | the same from an empty store |
| Sessions.SessionLife | internal/auth/session.go:72-139 | after any sequence a session is live exactly until the TTL of its latest login or renewal in time has passed, unless deleted, with the user and time of its login |
| Sessions.DeletePrunes | internal/auth/session.go:115-123 | deleting a live session takes it out of the index |
| Sessions.ListPrunes | internal/auth/session.go:141-173 | listing takes exactly the expired tokens out |
| Sessions.ShorterTtlHidesSession | internal/auth/session.go:141-143 | a concrete login under a shortened TTL hides a live session from the list |
| Sessions.IndexAgreesWithSessions | internal/auth/session.go:72-196 | with non-decreasing TTLs, after any sequence of operations the list is exactly the user's live sessions, and revoking one ends it and no other |
| PluginStore.EncryptRoundTrip | internal/crypto/secret.go:92-122 | decrypting what was encrypted returns the plaintext exactly if it had no prefix, given that sealed texts are no shorter than what they open to; the ciphertext is empty or prefixed |
| PluginStore.PrefixedPlaintextUnreadable | internal/crypto/secret.go:105-122 | a plaintext that starts with the prefix is stored as it is and cannot be read back |
| PluginStore.EncryptIdempotent | internal/crypto/secret.go:90-95 | encrypting again changes nothing |
| PluginStore.SealedReadsTheSame | internal/store/store.go:207-219 | writing any record, fresh or just read from the bucket, protects its credentials and does not change what is read, a read error included |
| PluginStore.Store.Seal | internal/crypto/secret.go:92-102 | every seal uses a nonce no earlier one used |
| PluginStore.Store.EncryptInstance | internal/store/store.go:169-181 | both credentials are encrypted in place |
| PluginStore.Store.DecryptInstance | internal/store/store.go:183-195 | both are decrypted in place, or an error is reported exactly if one does not open |
| PluginStore.Store.MarshalInstance | internal/store/store.go:209-219 | serializes the encrypted record without writing the caller's instance or RuntimeInfo |
| PluginStore.Store.SavePlugin | internal/store/store.go:252-264 | exactly this id now reads as the record given, and its stored credentials are protected |
| PluginStore.Store.GetPlugin | internal/store/store.go:267-282 | absent ids read as none, records that do not open as an error, others as their plaintext |
| PluginStore.Store.ListPlugins | internal/store/store.go:285-302 | lists the plaintext of each record once, or fails exactly if one does not open |
| PluginStore.Store.DeletePlugin | internal/store/store.go:305-309 | exactly this id is gone |
| PluginStore.Store.UpdateStatus | internal/store/store.go:312-330 | only the status changes; legacy plaintext is encrypted on the way |
| PluginStore.Store.UpdateRuntimeInfo | internal/store/store.go:333-351 | only the runtime info changes; the caller's object is not written |
| PluginStore.Perform | internal/store/store.go:252-351 | each operation on a store that reads like a plain map leaves it reading like the updated plain map |
| PluginStore.PerformAll | internal/store/store.go:252-351 | after any sequence of operations reads return what a plain map would hold; a credential still in plaintext was never rewritten |
| AuditLog.KeyOrder | internal/store/audit.go:60-61 | keys of non-negative int64 times compare bytewise as the times do |
| AuditLog.KeyOrderExactly | internal/store/audit.go:60-61 | for all int64 times a < b: the keys are in order exactly if b is not before 1970, or a takes one more digit than b and its leading digits do not exceed b's |
| AuditLog.KeysTell | internal/store/audit.go:60-61 | entries of 1970 and later share a key exactly if they share time and id |
| AuditLog.NegativeKeysReversed | internal/store/audit.go:60-61 | between 1938 and 1970 keys always compare the other way round |
| AuditLog.Store.CreateAuditLog | internal/store/audit.go:42-70 | fills in id, time and level, and puts the entry into the ordered bucket |
| AuditLog.Store.ListAuditLogs | internal/store/audit.go:83-140 | returns one page of the reverse filtered scan and its total |
| AuditLog.ScanIsFilter | internal/store/audit.go:102-123 | the scan holds exactly the entries with the actor, action and resource asked for, within the times asked for |
| AuditLog.ScanNewestFirst | internal/store/audit.go:100-102 | its time stamps never increase and no entry repeats |
| AuditLog.FirstPages | internal/store/audit.go:130-139 | the first n pages together are the first n * size matches |
| AuditLog.PageHolds | internal/store/audit.go:84-139 | the length of a page by the requested number and size: default 20, at most 100 |
| AuditLog.PagesCoverAll | internal/store/audit.go:130-139 | pages 1 to ceil(total/size) are the whole list, nothing lost or repeated; later pages are empty |

## Left out

- Transport: AMQP, Redis, BoltDB, Docker and HTTP appear only as one process per unanswered message, versioned compare-and-set, expiring keys and an ordered bucket.
- Expression evaluation and JSON: conditions and decoding failures are choices of the outside world; a context value is an opaque string.
- Task fields that no decision reads: ids, display name, creation and update times, and the outputs a callback carries.
- Handlers.Scheduler.HandleFanOut: its steps are not interleaved with other handlers, because a method runs alone; interleaving is in the state machine, of which the method is proved to be one run. The same holds for the other handler methods. Store errors inside a handler are in the state machine (`Abort`) only.
- Handlers.Scheduler.ExecuteNode: what a goroutine does when its stack is exhausted (the process ends) is not modelled; the method stops and says so. The same holds for the other handler methods.
- Stranding.CompletionCondition: is about blueprints without IF and LOOP whose nodes of in-degree above 1 are JOINs, the use that `scheduler.go:322-325` documents for joins.
- `TaskStore.UpdateStatus` writes the status without a guard; no caller in the scheduler uses it.
- Trigger matching (`FindByTrigger`), the scans that collect running tasks, and `BlueprintStore.ListByUser`, which reverses key order.
- Blueprint port checking, schema seeding, metrics, logging, progress events, tray, CLI, registry, plugin start/stop/upgrade and health supervision.
- Router connection supervision, reconnecting and per-request failover (`tryProvider`); sums of weights beyond int64.
- StartOrder.ValidateReferences: the other checks of `Validate` (plugin ids, config service ids, interfaces, parameters).
- UserConfig.NormalizeItem: strings are measured in characters, where the code counts bytes; a float64 beyond int64 is still an integer.
- Sessions.SessionManager.ListByUser: Redis is read at one instant, adding a token to the index and moving the index's expiry are one step, and read errors are not modelled.
- PluginStore.PerformAll: credentials handed in do not start with the ciphertext prefix; `EncryptRoundTrip` says exactly what happens to others. Write errors of BoltDB and of the random source are not modelled, nor is the system state record, which is sealed in the same way.
- AuditLog.KeyOrderExactly: times whose nanoseconds overflow int64 (before 1678, after 2262) are not modelled.
- AuditLog.Store.ListAuditLogs: undecodable entries, which the code skips, are not in the bucket; page numbers whose offset overflows int64 are not modelled.
