# Verification of the AI orchestrator's decision logic

This project models, in Dafny, the parts of `lib/ai-orchestrator/src` that decide what an AI run may do and what it
may claim, together with the preview refresh of `artifacts/mockup-sandbox`, and proves what they promise. Check it with
`dafny verify dfyconfig.toml`.

| component | modules | in one sentence |
|---|---|---|
| plan coordinator | `ExecutionNodes`, `PlanBlocking`, `PlanWaves`, `PlanSettlement`, `PlanRuns`, `PlanTraces`, `PlanAborts`, `PlanProgress`, `PlanCoordinator`, `PlanGuarantees` | a dependency graph of nodes run in bounded waves under an arbitrary environment |
| JSON recovery | `JsonText`, `JsonScanner`, `JsonSanitizer`, `JsonRecovery` | the first JSON value of a model response, and the repair of its string literals, against the grammar of RFC 8259 |
| execution ledger | `LedgerState`, `LedgerRuns`, `ExecutionLedger` | budgeted admission, a bounded log, and reservations across awaits |
| evidence gates | `EvidenceRecords`, `EvidenceGate`, `EvidenceClaims` | the objective gate, its telemetry and their checker; claim validation and the final guard |
| context compression | `TextCompaction`, `ContextTrimming` | fitting a prompt context into a limit |
| manifest walk | `FileTree`, `ManifestWalk` | a bounded inventory of a directory tree |
| replanning | `ObjectivePaths`, `ClaimPlan`, `Replanning`, `ReplanProgress` | which declared paths to read next |
| context cache | `ContextKeys`, `ContextCache` | cache keys and keyed invalidation |
| LISTEN channel | `ListenSteps`, `ListenRuns` | the reconnecting invalidation channel |
| preview refresh | `RefreshSteps`, `RefreshRuns` | the coalescing refresh of a generated module |
| recovery envelopes | `ForensicMerge`, `RepairPlans` | merging packet-local findings and deriving what may be executed |

Code that changes state step by step is written as classes and methods with loops and proved against a specification
function; the results are lemmas about those functions. Concurrency is a state machine with one step per stretch of
code between two awaits, and a run is any sequence of enabled steps. What the code cannot control (what a run returns,
when it ends, an authorization, the abort, clocks, the file system, a connection) is an arbitrary parameter.

## What the proofs show that the code's comments do not

- A queued node handed in with three attempts passes the schema but can never start; a plan of one such node is blocked
  as stalled although it has no dependency (`PlanProgress.ExhaustedQueuedNodeStalls`). A completable plan, which holds no
  such node, is never blocked as stalled (`PlanGuarantees.BlockedForCause`).
- A queued node that is already at a lower limit of its own (`maxAttempts`) still runs once, because the limit is
  consulted only before a retry and on recovery: under a cooperative environment a completable plan keeps a node to its
  own limit exactly when it came within it and not queued at it (`PlanGuarantees.OwnLimitIff`, with `OwnLimitExample`).
- With repeated node ids, which the schema admits, `blockImpossibleNodes` can run for ever and can block a node that
  has passed (`PlanBlocking.RepeatedIds`); it ends exactly when no queued node that can no longer pass stands behind a
  passed or blocked node with its id (`PlanBlocking.LoopEndsIff`). Unique ids are the one precondition of the
  coordinator beyond the ranges of the node schema.
- An abort is meant to leave nodes to a later resume; it blocks nobody exactly when it falls outside two stretches of
  each wave (`PlanTraces.AbortBlocksIff`, `PlanGuarantees.AbortBlocksRunIff`). Seen between two start authorizations it blocks
  a node that never ran, and seen during the settlement it blocks nodes whose runs passed
  (`PlanTraces.AbortDuringStarts`, `PlanTraces.AbortDuringSettlement`). `PlanAborts.AbortChangesIff` says when the plan
  left behind differs from the one without the abort.
- Normalizing a path is idempotent exactly when it is rejected or its first kept segment does not begin and its last
  does not end in white space; the replan's results are stated for such paths (`ObjectivePaths.IdempotentIff`,
  `ReplanProgress.CleanInput`).
- Invalidating a slice leaves a stale context exactly when the project holds an entry requested without naming sections
  (`ContextCache.SliceLeavesStaleIff`).
- A connection attempt in progress when the channel is stopped can still install a client (`ListenRuns.StopIsFinalIff`),
  which stays until it reports an error or the channel is stopped again (`ListenRuns.LingersIff`). A client whose `on`
  throws can be displaced by the next one and is then never released (`ListenRuns.ThrowCanLeak`,
  `ListenRuns.LeakedForever`).
- A preview write that throws is not tried again while the files stay as they are (`RefreshRuns.FailedWriteIsNotRetried`),
  and a request queued behind a discovery that throws waits for the next call (`RefreshRuns.StrandedIff`).
- The sanitizer keeps the meaning of a value exactly when its strings hold no raw control character other than line
  feed, carriage return and tab (`JsonRecovery.EscapedMeaning`).

Where the code and its own comments differ, the model follows the code: a claim can be proven by indirect evidence
(`evidence-integrity.ts:821-823` speaks of direct evidence), and context trimming shortens the first long field of a
fixed order to 65 % (`context-compressor.ts:127-135` speaks of halving the longest field).

## Model

| member | source | states |
|---|---|---|
| `PlanCoordinator.ExecuteExecutionNodePlan` | lib/ai-orchestrator/src/execution-node-coordinator.ts:338-524 | For every plan with unique ids and every behaviour of runs, authorizations and abort, the loop ends (measure: one step per live node plus its attempts left) with a record of waves that is what the environment answered and returned at each time; the run ends exactly as that record says: cut short after the last calls, cancelled at the head of an iteration, with every node terminal, or stalled, and the last only in a plan that cannot complete; it reports `passed` exactly when all nodes passed, only a plan with an acyclic order of known, runnable dependencies can pass, and under a cooperative environment each such plan does |
| `PlanGuarantees.RunGuarantees` | lib/ai-orchestrator/src/execution-node-coordinator.ts:386-515 | What safety means over all waves: at most the clamped number of members with disjoint files, calls only on running nodes whose dependencies passed and whose start the environment authorized, each with the result `runNode` gave; no wave after a rate limit; calls on a node = attempts gained and within its budget; passed and blocked are never left; nothing passes without a run that returned `passed` and a completion the environment authorized |
| `PlanGuarantees.RunIsBacked` | lib/ai-orchestrator/src/execution-node-coordinator.ts:159-182 | Every member of every wave is asked about in its turn, with the attempt it is about to make, answered by the authorizer at that time, and run exactly when the answer allows it; every wave takes the first nodes of the one choice of runnable ones, as many as the cap allows |
| `PlanGuarantees.Cancellation` | lib/ai-orchestrator/src/execution-node-coordinator.ts:358-457 | A run is cancelled exactly when the caller has aborted by the time it ends; an abort before it begins cancels it without a wave; no wave starts and no start is authorized for a call once he has; when he has before the last call of a wave ended, nothing of that wave is settled and its running snapshot is returned |
| `PlanGuarantees.AbortBlocksRunIff` | lib/ai-orchestrator/src/execution-node-coordinator.ts:388-514 | The abort blocks some node exactly when its time falls, in some wave, after the first start authorization and before the runs, or after the runs and no later than the last time the settlement consults it |
| `PlanGuarantees.BlockedForCause` | lib/ai-orchestrator/src/execution-node-coordinator.ts:261-514 | A node that ends blocked was blocked on recovery, refused, settled as blocked or as a failure without another attempt, doomed by its dependencies after some wave, waiting when a rate limit was recorded, or stalled in a plan that cannot complete |
| `PlanGuarantees.OwnLimitKeptIff` | lib/ai-orchestrator/src/execution-node-coordinator.ts:489-494 | In every run a node ends within its own attempt limit exactly when it came within it and was not queued at it and run again |
| `PlanGuarantees.OwnLimitIff` | lib/ai-orchestrator/src/execution-node-coordinator.ts:489-494 | Under a cooperative environment a completable plan keeps a node to its own limit exactly when it was handed in within it and not queued at it; one queued at it runs once more |
| `PlanGuarantees.OwnLimitExample` | lib/ai-orchestrator/src/execution-node-coordinator.ts:239-244 | A queued node at its own limit makes a valid, completable plan |
| `PlanCoordinator.RunOneWave` | lib/ai-orchestrator/src/execution-node-coordinator.ts:386-515 | One wave is genuine and safe and has a net effect that is only that of its calls; it is cancelled exactly when the caller has aborted by the time its last call ended, and then leaves the running snapshot; otherwise every called node is settled and retry contexts carry the attempt that just failed |
| `PlanCoordinator.LaunchWave` | lib/ai-orchestrator/src/execution-node-coordinator.ts:387-443 | The wave is started from its own authorizations and all its calls are issued and resolved, in any completion order, on a clock of one tick for each |
| `PlanCoordinator.NextWave` | lib/ai-orchestrator/src/execution-node-coordinator.ts:380-443 | Runs the wave of the first nodes, in plan order, of the one choice of runnable nodes, as many as the cap allows; the record goes on with it, and unless it was cut short the whole loop invariant holds again with a smaller measure |
| `PlanCoordinator.RunIteration` | lib/ai-orchestrator/src/execution-node-coordinator.ts:358-516 | One iteration ends the run, cancels it, or keeps the loop invariant and shrinks the measure; the abort check at its head is exact |
| `PlanCoordinator.BlockBeforeWave` | lib/ai-orchestrator/src/execution-node-coordinator.ts:359-366 | After a rate limit exactly the queued nodes are blocked, with the provider reason; otherwise exactly the queued nodes that can no longer pass are; no queued node keeps an impossible dependency |
| `PlanCoordinator.StallNeedsIncompletable` | lib/ai-orchestrator/src/execution-node-coordinator.ts:380-384 | A queued node with nothing runnable exists only in a plan that has no acyclic order of runnable nodes |
| `PlanCoordinator.ClampParallelism` | lib/ai-orchestrator/src/execution-node-coordinator.ts:86-87 | Between 1 and 8 parallel nodes for every option: 3 when absent, 1 below one, 8 from eight on, the whole part in between |
| `PlanCoordinator.InitialPreviousAt` | lib/ai-orchestrator/src/execution-node-coordinator.ts:342-350 | A node is prepared with its own checkpointed failure and no other |
| `PlanCoordinator.IdsInPlanOrder` | lib/ai-orchestrator/src/execution-node-coordinator.ts:519-524 | The reported ids are those of the nodes with the status, in plan order, once for each such node |
| `PlanRuns.WaveShrinks` | lib/ai-orchestrator/src/execution-node-coordinator.ts:358-516 | A settled wave strictly lowers the measure, so the loop ends |
| `PlanRuns.MeasureMonotone` | lib/ai-orchestrator/src/execution-node-coordinator.ts:358-516 | The measure of a plan never grows while its nodes only lose what they can still cost |
| `PlanRuns.EvolvesTransitive` | lib/ai-orchestrator/src/execution-node-coordinator.ts:358-516 | Attempts only grow, terminal nodes stay and nodes keep their identity, across any number of steps |
| `PlanRuns.LaunchedIsSafe` | lib/ai-orchestrator/src/execution-node-coordinator.ts:386-443 | Starting a chosen wave and issuing its calls is safe whatever the calls return |
| `PlanRuns.LaunchedCall` | lib/ai-orchestrator/src/execution-node-coordinator.ts:398-409 | Each call is on a ready node, for the attempt just authorized, and carries the previous failure recorded for that node |
| `PlanRuns.LaunchedDisjoint` | lib/ai-orchestrator/src/task-session-state.ts:324-348 | Two calls of a wave never share a file |
| `PlanRuns.DependenciesKeepPassing` | lib/ai-orchestrator/src/execution-node-coordinator.ts:386-443 | Dependencies that have passed stay passed while a wave is started |
| `PlanRuns.SettledEffect` | lib/ai-orchestrator/src/execution-node-coordinator.ts:459-515 | The net effect of a settled wave: attempts change only by its calls and a node passes only on its own outcome and an authorized completion |
| `PlanRuns.AccountWave` | lib/ai-orchestrator/src/execution-node-coordinator.ts:386-515 | Calls made on a node and attempts it gained stay equal over a further wave |
| `PlanRuns.BudgetWave` | lib/ai-orchestrator/src/execution-node-coordinator.ts:490-513 | A further wave keeps every node within its attempt budget |
| `PlanRuns.InformWave` | lib/ai-orchestrator/src/execution-node-coordinator.ts:398-409 | Over a run, the first call on a node is told its checkpointed failure and each later one the failure of the attempt before |
| `PlanTraces.AbortBlocksIff` | lib/ai-orchestrator/src/execution-node-coordinator.ts:388-514 | In a wave that starts before the abort, the abort blocks some node exactly when it comes after the first start authorization and before the runs, or after the runs and no later than the last time the settlement consults it |
| `PlanTraces.AbortedIsBlocked` | lib/ai-orchestrator/src/execution-node-coordinator.ts:163-165 | A node whose start, completion or retry meets the abort ends the wave blocked |
| `PlanTraces.HarmlessAbort` | lib/ai-orchestrator/src/execution-node-coordinator.ts:388-514 | A settled wave in which the abort blocks nobody is a wave of the same environment without the abort |
| `PlanTraces.AbortDuringStarts` | lib/ai-orchestrator/src/execution-node-coordinator.ts:387-395 | An abort between two start authorizations leaves one node running and blocks the other, which never ran |
| `PlanTraces.AbortDuringSettlement` | lib/ai-orchestrator/src/execution-node-coordinator.ts:459-465 | An abort during the settlement of two runs that both returned `passed` blocks one of them |
| `PlanAborts.AbortChangesIff` | lib/ai-orchestrator/src/execution-node-coordinator.ts:388-514 | Against the same wave without the abort, the plan left behind differs exactly when the abort cuts short a wave that made calls or meets a node that would end otherwise without it |
| `PlanAborts.AbortBlameIff` | lib/ai-orchestrator/src/execution-node-coordinator.ts:388-514 | Of the nodes that would not end blocked without the abort, exactly those the abort meets do end blocked with it |
| `PlanTraces.ChainedSnoc` | lib/ai-orchestrator/src/execution-node-coordinator.ts:358-386 | A further genuine wave continues the record when it starts at the clock and on the exact blocking of the plan the last one left |
| `PlanTraces.SettledCompletion` | lib/ai-orchestrator/src/execution-node-coordinator.ts:459-515 | Each completion in the record is the answer given at its own time, and its node is settled from the result of its own call |
| `PlanProgress.NeverStalled` | lib/ai-orchestrator/src/execution-node-coordinator.ts:261-306 | With impossible nodes blocked, a completable plan that has a queued node has a runnable one |
| `PlanProgress.NobodyDoomed` | lib/ai-orchestrator/src/execution-node-coordinator.ts:261-288 | While nothing is blocked and dependencies are known, no node is impossible |
| `PlanProgress.NothingImpossible` | lib/ai-orchestrator/src/execution-node-coordinator.ts:261-288 | The blocking pass blocks nothing in a completable plan in which nothing is blocked yet |
| `PlanProgress.JustifyWave` | lib/ai-orchestrator/src/execution-node-coordinator.ts:380-515 | Nodes that pass in a wave extend the order in which the plan passed: a passed plan was acyclic |
| `PlanProgress.CooperativeWave` | lib/ai-orchestrator/src/execution-node-coordinator.ts:387-515 | When authorizations are granted, runs pass and nobody aborts, a wave blocks nothing and records no rate limit |
| `PlanProgress.ExhaustedQueuedNodeStalls` | lib/ai-orchestrator/src/task-session-state.ts:104-104 | A queued node given with three attempts is admitted by the schema, never becomes runnable, and makes a plan without dependencies incompletable |
| `PlanBlocking.RecoverInterruptedNodes` | lib/ai-orchestrator/src/execution-node-coordinator.ts:230-255 | Running and failed nodes return to the queue below their attempt limit and are blocked at it; all others, and all attempts, are unchanged |
| `PlanBlocking.BlockImpossibleNodes` | lib/ai-orchestrator/src/execution-node-coordinator.ts:261-288 | On every plan on which the loop ends, repeated ids included, exactly the ids are blocked whose first node is not terminal and of which some queued node cannot pass, passed copies of such an id among them; with unique ids exactly the queued nodes from which some chain of queued dependencies ends in a blocked or unknown one; nothing else changes |
| `PlanBlocking.LoopEndsIff` | lib/ai-orchestrator/src/execution-node-coordinator.ts:266-286 | The blocking loop ends exactly when no queued node that can no longer pass stands behind a passed or blocked node with its own id |
| `PlanBlocking.RepeatedIds` | lib/ai-orchestrator/src/execution-node-coordinator.ts:267-285 | Two plans with a repeated id that pass the schema: on one a pass changes nothing and reports a change for ever, on the other a passed node is blocked |
| `PlanBlocking.PassFrom` | lib/ai-orchestrator/src/execution-node-coordinator.ts:268-286 | One pass blocks only ids that cannot pass, reports no change only where nothing is left to block, and unless a node is trapped a reported change is a real one |
| `PlanBlocking.UniqueBlocking` | lib/ai-orchestrator/src/execution-node-coordinator.ts:261-288 | With unique ids blocking by id is blocking exactly the nodes that cannot pass |
| `PlanBlocking.BlockStalledNodes` | lib/ai-orchestrator/src/execution-node-coordinator.ts:290-306 | Every queued node is blocked, nothing else changes |
| `PlanBlocking.BlockRateLimitedNodes` | lib/ai-orchestrator/src/execution-node-coordinator.ts:359-365 | Every queued node is blocked with the provider reason, nothing else changes |
| `PlanBlocking.DoomedIsBlocked` | lib/ai-orchestrator/src/execution-node-coordinator.ts:268-286 | At a fixpoint no doomed node is still queued, however long its chain |
| `PlanBlocking.NewlyDoomed` | lib/ai-orchestrator/src/execution-node-coordinator.ts:268-286 | A node the pass is about to block could not pass in the plan the pass was given |
| `PlanBlocking.TransitionToBlockedAt` | lib/ai-orchestrator/src/execution-node-coordinator.ts:212-223 | Blocking is a point update of its own node and leaves terminal nodes alone |
| `PlanBlocking.SetLastFailureAt` | lib/ai-orchestrator/src/execution-node-coordinator.ts:115-132 | The failure note goes to its own node only |
| `PlanWaves.StartWave` | lib/ai-orchestrator/src/execution-node-coordinator.ts:387-395 | Each member of the wave is running with one more attempt or blocked with the refusal, by its own authorization asked in order; all other nodes are untouched |
| `PlanWaves.RunWave` | lib/ai-orchestrator/src/execution-node-coordinator.ts:398-443 | Every call ends exactly once, in any order; a call that ends once a rate limit is recorded, its own included, counts as that rate limit, any other as its own result |
| `PlanWaves.FirstLimitIff` | lib/ai-orchestrator/src/execution-node-coordinator.ts:411-423 | A rate limit is recorded exactly when some finished call was rate limited |
| `PlanWaves.BlockUnauthorizedAt` | lib/ai-orchestrator/src/execution-node-coordinator.ts:184-193 | A refused node is blocked with the reason; every other node is as before |
| `PlanSettlement.SettledFacts` | lib/ai-orchestrator/src/execution-node-coordinator.ts:459-515 | Settlement keeps attempts, leaves no node running or failed, passes exactly on an authorized `passed`, and queues again exactly an authorized failure below both limits, without rate limit or abort, whose retry is authorized |
| `PlanSettlement.SettleOutcome` | lib/ai-orchestrator/src/execution-node-coordinator.ts:459-515 | The step-by-step settlement of one node is its specified settlement, other nodes untouched, with the answers it got, the clock after it and the retry context it leaves |
| `PlanSettlement.SettleFailure` | lib/ai-orchestrator/src/execution-node-coordinator.ts:488-513 | A failed node is queued again only below its limits, without abort and with authorization, and otherwise blocked |
| `PlanSettlement.SettleWave` | lib/ai-orchestrator/src/execution-node-coordinator.ts:459-515 | Each running node of the wave is settled once, in order, one after the other on the clock, and no other node changes |
| `PlanSettlement.OrderIsIrrelevant` | lib/ai-orchestrator/src/execution-node-coordinator.ts:398-515 | What a call settles to depends on its own result and on the recorded rate limit alone, not on the order in which the calls ended |
| `PlanSettlement.TimesIncrease` | lib/ai-orchestrator/src/execution-node-coordinator.ts:459-495 | Completions are asked for at strictly increasing times, none before the last call has ended |
| `ExecutionNodes.TransitionAt` | lib/ai-orchestrator/src/task-session-state.ts:350-381 | With unique ids a transition throws exactly on an illegal move or a fourth attempt and otherwise rewrites its own node, counting an attempt only on a start |
| `ExecutionNodes.GetRunnableExecutionNodes` | lib/ai-orchestrator/src/task-session-state.ts:324-348 | The choice is ready, in plan order, pairwise disjoint in files and maximal: a ready node left out conflicts with an earlier chosen one |
| `ExecutionNodes.ChoiceIsUnique` | lib/ai-orchestrator/src/task-session-state.ts:324-348 | There is only one such choice: what may start is determined by the plan |
| `ExecutionNodes.EmptyChoice` | lib/ai-orchestrator/src/task-session-state.ts:324-348 | Nothing is chosen only when nothing is ready: file conflicts alone never stall a plan |
| `JsonScanner.FindBalancedJsonValue` | lib/ai-orchestrator/src/parsing.ts:141-179 | The result is the balanced value at the first bracket: quote-aware depth is positive throughout and zero only at its end; none exactly when that bracket is absent or never closed |
| `JsonScanner.BalancedUnique` | lib/ai-orchestrator/src/parsing.ts:141-179 | Two balanced values at one place are the same, so the result is determined by the text |
| `JsonScanner.PrintIsBalanced` | lib/ai-orchestrator/src/parsing.ts:145-176 | Every printed object or array is balanced whatever brackets, quotes and escapes its strings hold |
| `JsonScanner.ScannerRoundTrip` | lib/ai-orchestrator/src/parsing.ts:141-179 | For every object or array, every prefix without brackets and every suffix, the scanner returns exactly the printed value |
| `JsonScanner.NoBalancedProperPrefix` | lib/ai-orchestrator/src/parsing.ts:170-175 | A balanced value has no balanced proper prefix |
| `JsonScanner.RunAppend` | lib/ai-orchestrator/src/parsing.ts:151-176 | Scanning a concatenation is scanning its parts in turn |
| `JsonSanitizer.OnlyLiteralsAreTouched` | lib/ai-orchestrator/src/parsing.ts:102-116 | The text is cut into string literals and single characters; the pass rewrites the literals and keeps every other character in place |
| `JsonSanitizer.LiteralEndMatches` | lib/ai-orchestrator/src/parsing.ts:106-109 | The literal found is the one match of the pattern at that quote, and none is missed |
| `JsonSanitizer.UnchangedIff` | lib/ai-orchestrator/src/parsing.ts:109-116 | The pass is the identity exactly on texts whose string literals hold no control character |
| `JsonSanitizer.SanitizerRoundTrip` | lib/ai-orchestrator/src/parsing.ts:102-116 | Sanitizing the raw print of a value gives exactly the print of the escaped value |
| `JsonRecovery.EscapedMeaning` | lib/ai-orchestrator/src/parsing.ts:110-115 | Escaping yields strict strings, and the same value exactly when no string holds a control character other than LF, CR and TAB |
| `JsonRecovery.RecoveryRoundTrip` | lib/ai-orchestrator/src/parsing.ts:90-116 | From prose around a printed value, scanner and sanitizer recover a print of a value with strict strings and, but for dropped controls, the same meaning |
| `LedgerRuns.LedgerAdmission` | lib/ai-orchestrator/src/execution-ledger.ts:360-408 | Over every call sequence: counts equal the started events of the full history and never exceed a natural budget, admissions are true…true false…false across all kinds, and a terminal reason is there exactly after a refusal or the end |
| `LedgerRuns.LedgerReservations` | lib/ai-orchestrator/src/execution-ledger.ts:431-509 | Over every interleaving across both awaits: the log is the last min(n, 2048) events of the history; a request has one reserve call at most; every reconcile call settles the last booking made under its id before it, on the hooks that were current when the request of that booking was begun, however hooks are swapped while reserve or reconcile is awaited; a reservation is reconciled no more often than it was booked, with fresh ids at most once |
| `LedgerRuns.TerminalWrittenOnce` | lib/ai-orchestrator/src/execution-ledger.ts:398-398 | Once written, the terminal reason is the same after every further run of calls |
| `LedgerRuns.AdmittedExactly` | lib/ai-orchestrator/src/execution-ledger.ts:381-408 | After any run an admission succeeds exactly when none was refused before, the ledger was neither ended nor aborted, fewer of its kind were started than the budget allows, and the deadline is not reached |
| `LedgerRuns.StepKeeps` | lib/ai-orchestrator/src/execution-ledger.ts:381-523 | Every call keeps the invariant behind the results over runs, and a terminal reason once written |
| `LedgerRuns.ReconcileKeeps` | lib/ai-orchestrator/src/execution-ledger.ts:470-474 | Reconciling moves a reservation out of the open ones before the hook is awaited |
| `LedgerRuns.BeginKeepsBegun` | lib/ai-orchestrator/src/execution-ledger.ts:439-442 | A provider request takes the next number and the hooks current at that moment |
| `LedgerRuns.ReservedKeepsBegun` | lib/ai-orchestrator/src/execution-ledger.ts:442-454 | The awaited reserve call returns to the request that made it and books it with the hooks it was begun with, each request once |
| `LedgerRuns.AdmitKeepsAdmissions` | lib/ai-orchestrator/src/execution-ledger.ts:386-401 | Once an admission is refused every later one is |
| `LedgerState.NoCountsIsTotal` | lib/ai-orchestrator/src/execution-ledger.ts:339-348 | Every kind starts counted, at zero |
| `ExecutionLedger.Ledger.Admit` | lib/ai-orchestrator/src/execution-ledger.ts:381-408 | The in-place admission is the specified step and answers its verdict |
| `ExecutionLedger.Ledger.Complete` | lib/ai-orchestrator/src/execution-ledger.ts:409-430 | The in-place completion is the specified step, usage, rate-limit scope and retry delay included |
| `ExecutionLedger.Ledger.AdmitProviderRequest` | lib/ai-orchestrator/src/execution-ledger.ts:431-449 | Up to the await: admitted as a provider attempt; the hooks current at that moment are captured and called with the next sequence number, the named provider, model and operation, and at least 8192 tokens |
| `ExecutionLedger.Ledger.FinishReserve` | lib/ai-orchestrator/src/execution-ledger.ts:442-454 | After the await: an empty or over-long id throws, any other is kept with the captured hooks |
| `ExecutionLedger.Ledger.CompleteProviderRequest` | lib/ai-orchestrator/src/execution-ledger.ts:456-483 | The reservation is removed before it is handed, with its own hooks, status and usage, to the reconciliation; usage that is not reported is unknown |
| `ExecutionLedger.Ledger.SetTerminal` | lib/ai-orchestrator/src/execution-ledger.ts:517-523 | The first terminal reason stays, the event is logged, the signal is detached |
| `EvidenceGate.GateAndTelemetryAgree` | lib/ai-orchestrator/src/evidence-integrity.ts:1058-1269 | For every run ledger and gate input, attaching the gate adds no violation; the ledger is consistent exactly when every evidence file was freshly read, proven validations do not outnumber claims, and lineage is clean |
| `EvidenceGate.GatePartitions` | lib/ai-orchestrator/src/evidence-integrity.ts:1938-1965 | Required claims and edges are shared out, with multiplicity, between completed and missing: nothing lost, nothing on both sides |
| `EvidenceGate.ProvenMeans` | lib/ai-orchestrator/src/evidence-integrity.ts:1967-1988 | `PROVEN` exactly when there is no mismatch, scope violation or contradicted required claim, every required claim is closed, every required edge proven, and there is some evidence |
| `EvidenceGate.PartiallyProvenMeans` | lib/ai-orchestrator/src/evidence-integrity.ts:1967-1988 | `PARTIALLY_PROVEN` exactly when nothing stands against the run, something required is open and something required is closed |
| `EvidenceGate.VerdictIsClean` | lib/ai-orchestrator/src/evidence-integrity.ts:1192-1228 | A proven gate has nothing missing and, where anything is required, something proven; a partially proven one has something proven |
| `EvidenceGate.ValidateTelemetry` | lib/ai-orchestrator/src/evidence-integrity.ts:1058-1232 | The step-by-step checker finds exactly the specified violations, and is consistent exactly without one |
| `EvidenceGate.ValidateEvidenceLineage` | lib/ai-orchestrator/src/evidence-integrity.ts:671-683 | The loop reports exactly the records' lineage gaps |
| `EvidenceGate.LineageCleanIff` | lib/ai-orchestrator/src/evidence-integrity.ts:671-683 | No lineage violation exactly when every record has run, read attempt and, if cached, origin |
| `EvidenceGate.FileCountIff` | lib/ai-orchestrator/src/evidence-integrity.ts:1076-1081 | The evidence file count exceeds the read files exactly when some evidence file has no completed read of this run |
| `EvidenceGate.CarriedIsClean` | lib/ai-orchestrator/src/evidence-integrity.ts:1112-1229 | A carried gate result never makes the checker complain about claims, scopes, edges or verdict |
| `EvidenceRecords.SelectSplits` | lib/ai-orchestrator/src/evidence-integrity.ts:1938-1965 | Filtering by a test and by its negation shares out a list with multiplicity |
| `EvidenceClaims.ValidateClaim` | lib/ai-orchestrator/src/evidence-integrity.ts:794-885 | Proven exactly when a declared record passes every check, rejected exactly when none is declared, otherwise the first six failed checks |
| `EvidenceClaims.NothingProves` | lib/ai-orchestrator/src/evidence-integrity.ts:880-883 | When no record proves the claim some check failed, so the fallback reason is never used |
| `EvidenceClaims.FailsIff` | lib/ai-orchestrator/src/evidence-integrity.ts:824-878 | A record has a failed check exactly when it does not prove the claim |
| `EvidenceClaims.BindClaimToEvidence` | lib/ai-orchestrator/src/evidence-integrity.ts:768-790 | A binding exists exactly when some record is declared by the claim, and has a span for every record it names |
| `EvidenceClaims.BindingNamesRecords` | lib/ai-orchestrator/src/evidence-integrity.ts:772-784 | A binding names exactly the declared ids that have a record |
| `EvidenceClaims.GuardFinalJudgment` | lib/ai-orchestrator/src/evidence-integrity.ts:898-928 | Allowed exactly when there is a claim and every claim passes; a denial names the first claim that does not and what it lacks |
| `EvidenceClaims.GuardEndToEnd` | lib/ai-orchestrator/src/evidence-integrity.ts:794-928 | With distinct ids and validations of the same records, a claim passes exactly when it has a witness record and any preset binding is usable |
| `EvidenceClaims.AllowedJudgmentIsWitnessed` | lib/ai-orchestrator/src/evidence-integrity.ts:427-441 | Behind an allowed judgment every claim has a same-run, non-context, non-cached, non-test, scope-supporting record; a production claim a production one, and the run's own scope is then production or mixed |
| `ContextTrimming.TrimContextToFit` | lib/ai-orchestrator/src/context-compressor.ts:136-222 | For every context and limit the soft passes are followed by the hard ones: a fitting context is returned as it is; otherwise only texts change, none grows, the result fits or every text is down to one character, and fields outside the bulk sections are touched only once all bulk sections are at the floor |
| `ContextTrimming.SoftPass` | lib/ai-orchestrator/src/context-compressor.ts:182-188 | A soft pass applies the compactor of its field and strictly shortens its target and the whole context |
| `ContextTrimming.SoftPasses` | lib/ai-orchestrator/src/context-compressor.ts:169-189 | At most 64 times the first long field in priority order is shortened to the larger of 200 and 65 % of its length, until the context fits or no field is long |
| `ContextTrimming.HardPass` | lib/ai-orchestrator/src/context-compressor.ts:199-206 | A hard pass takes the excess from its target: afterwards the context fits or the target is down to one character |
| `ContextTrimming.HardPasses` | lib/ai-orchestrator/src/context-compressor.ts:194-207 | The non-empty texts lose the excess one after the other until the context fits; otherwise every text is tiny |
| `ContextTrimming.SizeOfUpdate` | lib/ai-orchestrator/src/context-compressor.ts:14-24 | Replacing a field changes the estimate by exactly the change of its cost |
| `ContextTrimming.CompactField` | lib/ai-orchestrator/src/context-compressor.ts:104-108 | Each field gets its own compactor, within the budget, and a text that fits is kept |
| `TextCompaction.TrimFacts` | lib/ai-orchestrator/src/context-compressor.ts:26-35 | Never over budget; text that fits is kept; otherwise the marker stands after a prefix of the text as soon as it has room |
| `TextCompaction.CompactGraph` | lib/ai-orchestrator/src/context-compressor.ts:41-92 | The accumulating loop computes the specified summary |
| `TextCompaction.KeepLines` | lib/ai-orchestrator/src/context-compressor.ts:81-87 | The loop keeps the longest prefix of non-empty lines that fits |
| `TextCompaction.KeptFacts` | lib/ai-orchestrator/src/context-compressor.ts:83-87 | The kept lines fit and one more would be empty or over budget |
| `TextCompaction.GraphNeverExceeds` | lib/ai-orchestrator/src/context-compressor.ts:41-92 | The graph summary never exceeds its budget, in every branch |
| `TextCompaction.WorkflowNeverExceeds` | lib/ai-orchestrator/src/context-compressor.ts:95-102 | The workflow summary never exceeds its budget |
| `TextCompaction.HeadingIsEmpty` | lib/ai-orchestrator/src/context-compressor.ts:68-78 | The heading is always empty: the block starts with the newline of its own pattern |
| `TextCompaction.WholeLinesAreKept` | lib/ai-orchestrator/src/context-compressor.ts:76-91 | The final character-level trim is taken exactly when the body budget is zero, or one with a non-empty prefix; from two on the result is the prefix and whole relationship lines within the remaining budget |
| `ManifestWalk.BuildProjectFileManifest` | lib/ai-orchestrator/src/filesystem-manifest.ts:100-138 | The recursive walk over shared lists computes the inventory of the tree |
| `ManifestWalk.Walker.Walk` | lib/ai-orchestrator/src/filesystem-manifest.ts:113-138 | A directory adds exactly its depth-first enumeration, cut at the first entry that does not fit |
| `ManifestWalk.ManifestBounds` | lib/ai-orchestrator/src/filesystem-manifest.ts:100-138 | Files and directories are prefixes of the complete lists, at most 240 and 120; truncation is reported exactly when one list does not fit, and without it both are complete |
| `ManifestWalk.ManifestIsExact` | lib/ai-orchestrator/src/filesystem-manifest.ts:100-138 | Only reachable entries are listed, none twice, and all of them when nothing was truncated |
| `ManifestWalk.InventoryIsTheCut` | lib/ai-orchestrator/src/filesystem-manifest.ts:119-134 | The inventory is the longest prefix of the enumeration that fits both caps, and truncation says that it is not all |
| `FileTree.ListedIffReachable` | lib/ai-orchestrator/src/filesystem-manifest.ts:113-130 | An entry is enumerated exactly when at most six names lead to it through directories that are not ignored, symbolic links excluded |
| `FileTree.VisitNoRepeats` | lib/ai-orchestrator/src/filesystem-manifest.ts:119-136 | No entry is enumerated twice |
| `FileTree.RelativeDistinguishes` | lib/ai-orchestrator/src/filesystem-manifest.ts:122-124 | A relative path determines the names it was joined from |
| `Replanning.DeriveObjectiveReplanTargets` | lib/ai-orchestrator/src/objective-replanning.ts:166-243 | The in-place construction through the path map yields the specified targets |
| `Replanning.Planner.Add` | lib/ai-orchestrator/src/objective-replanning.ts:195-220 | An add extends the target of its path in place, appends a new one below the cap, or does nothing, as specified |
| `Replanning.AddIsOneMore` | lib/ai-orchestrator/src/objective-replanning.ts:195-220 | Adding to the targets of some requests gives the targets of one more request, in every case |
| `Replanning.Cap` | lib/ai-orchestrator/src/objective-replanning.ts:182-185 | At most eight targets for every option: two when absent, none below zero, otherwise the option itself up to eight |
| `Replanning.TargetPathsFacts` | lib/ai-orchestrator/src/objective-replanning.ts:195-220 | Target paths are distinct, incomplete, requested, capped, and all of those when the cap is not reached |
| `ReplanProgress.ReplanIsExact` | lib/ai-orchestrator/src/objective-replanning.ts:166-243 | Targets are distinct, capped, declared and incomplete, name exactly the claims and edges that need them and the strongest reason, and below the cap leave no needed path out |
| `ReplanProgress.RequestsExactly` | lib/ai-orchestrator/src/objective-replanning.ts:222-241 | A request is made exactly when the objective, an unproven claim or an edge calls for that path |
| `ReplanProgress.NeedsOnlyShrink` | lib/ai-orchestrator/src/objective-replanning.ts:142-150 | Retaining more never makes a path needed again |
| `ReplanProgress.ReadingCompletes` | lib/ai-orchestrator/src/objective-replanning.ts:142-150 | Reading paths in full completes them and no others |
| `ReplanProgress.RoundShrinks` | lib/ai-orchestrator/src/objective-replanning.ts:166-243 | A round of complete reads leaves at most the needs that were not its targets |
| `ReplanProgress.RoundsFinish` | lib/ai-orchestrator/src/objective-replanning.ts:166-243 | n rounds of complete reads with cap c and n·c at least the needs end with no target and nothing needed |
| `ClaimPlan.NormalizeAllFacts` | lib/ai-orchestrator/src/objective-claim-plan.ts:34-36 | The kept paths are exactly the valid normal forms of the given ones, in order and as often as they occur |
| `ClaimPlan.MissingInOrder` | lib/ai-orchestrator/src/objective-claim-plan.ts:63-65 | Missing are exactly the required paths that are not retained, in order and as often as they occur |
| `ObjectivePaths.NormalizeYieldsNormal` | lib/ai-orchestrator/src/objective-paths.ts:6-20 | A path is rejected or becomes one that cannot leave its root: no empty, dot or dot-dot segment, no drive, backslash or NUL |
| `ObjectivePaths.IdempotentIff` | lib/ai-orchestrator/src/objective-paths.ts:6-20 | Normalizing is idempotent exactly on paths that are rejected or whose first kept segment does not begin and whose last kept segment does not end in white space |
| `ObjectivePaths.RejectedIff` | lib/ai-orchestrator/src/objective-paths.ts:8-20 | A path is rejected exactly when it is empty, absolute, has a NUL or a dot-dot segment, keeps no segment, or begins with a drive; otherwise its normal form joins the kept segments |
| `ObjectivePaths.BlankFreeSegments` | lib/ai-orchestrator/src/objective-paths.ts:6-20 | Normalizing is idempotent on every path no segment of which begins or ends in white space |
| `ObjectivePaths.EdgeBlankExample` | lib/ai-orchestrator/src/objective-paths.ts:7-18 | "./ a" normalizes to " a", and that to "a" |
| `ContextCache.CacheRefinesPlainMap` | lib/ai-orchestrator/src/context-cache-manager.ts:22-148 | Over every run of writes and invalidations the keyed cache answers each request as a plain map from project, section set, plan and root does |
| `ContextCache.KeyOfAnyListing` | lib/ai-orchestrator/src/context-cache-manager.ts:59-68 | The key depends only on the set of sections |
| `ContextCache.SliceLeavesStaleIff` | lib/ai-orchestrator/src/context-cache-manager.ts:86-103 | Invalidating a slice leaves in the cache a stale entry of the project exactly when one of its entries was requested without naming sections |
| `ContextCache.SliceLeavesStaleRequestIff` | lib/ai-orchestrator/src/context-cache-manager.ts:86-103 | The same for the requests the cache stands for |
| `ContextCache.HitsOfRequest` | lib/ai-orchestrator/src/context-cache-manager.ts:86-103 | A project hits exactly its own keys, a slice exactly those that meet its sections |
| `ContextCache.ContextCache.InvalidateContextSlice` | lib/ai-orchestrator/src/context-cache-manager.ts:86-103 | Removes exactly the keys the slice hits; only the whole-project slice notifies |
| `ContextCache.ContextCache.InvalidateContextCache` | lib/ai-orchestrator/src/context-cache-manager.ts:135-148 | Removes exactly the keys of the project prefix and notifies once if a notifier is set |
| `ContextCache.ContextCache.OnNotification` | lib/ai-orchestrator/src/context-cache-manager.ts:174-183 | A notification with a payload removes the keys of that project and is not passed on |
| `ContextCache.ContextCache.Get` | lib/ai-orchestrator/src/context-cache-manager.ts:105-111 | A bypassing read finds nothing, any other the stored entry, expired or not |
| `ContextCache.ContextCache.Set` | lib/ai-orchestrator/src/context-cache-manager.ts:113-124 | A bypassing write stores nothing; an aggressive one lives four times as long |
| `ContextCache.SliceToSections` | lib/ai-orchestrator/src/context-cache-manager.ts:71-79 | Only the project slice has no sections of its own; section names are free of separators |
| `ContextKeys.KeyDeterminesRequest` | lib/ai-orchestrator/src/context-cache-manager.ts:59-68 | For components without separators two requests share a key only when project, section set, plan and root agree |
| `ContextKeys.KeyDependsOnSetOfSections` | lib/ai-orchestrator/src/context-cache-manager.ts:65-65 | Order and repetition of sections do not change the key |
| `ContextKeys.ProjectHitsItsKeys` | lib/ai-orchestrator/src/context-cache-manager.ts:135-140 | The prefix test holds exactly for keys of that project |
| `ContextKeys.SliceHitsItsSections` | lib/ai-orchestrator/src/context-cache-manager.ts:93-101 | Reading the section part back finds a target exactly when the key was built with it |
| `ContextKeys.AscendingIsUnique` | lib/ai-orchestrator/src/context-cache-manager.ts:65-65 | A set of sections has one sorted listing |
| `RefreshRuns.RefreshLosesNoRequest` | artifacts/mockup-sandbox/mockupPreviewPlugin.ts:79-111 | Over every interleaving at most one discovery is in progress and never more begin than requests; when nothing throws, in every idle state the last completed discovery began at or after the last request and the file holds the current source |
| `RefreshRuns.IdleModuleIsCurrent` | artifacts/mockup-sandbox/mockupPreviewPlugin.ts:79-111 | When nothing throws, an idle refresh has written the module of the current files, unless they changed after the last request |
| `RefreshRuns.SettlesInTwo` | artifacts/mockup-sandbox/mockupPreviewPlugin.ts:104-108 | However many requests arrive during a discovery, one follow-up serves them all |
| `RefreshRuns.ReturnsWhetherItWrote` | artifacts/mockup-sandbox/mockupPreviewPlugin.ts:89-110 | The outermost call returns whether the module was written while it ran |
| `RefreshRuns.AgreementLostIff` | artifacts/mockup-sandbox/mockupPreviewPlugin.ts:93-99 | The file stops agreeing with the current source exactly when a needed write throws |
| `RefreshRuns.FailedWriteIsNotRetried` | artifacts/mockup-sandbox/mockupPreviewPlugin.ts:93-99 | After a write that threw, the file stays outdated as long as discoveries find the same text |
| `RefreshRuns.StrandedIff` | artifacts/mockup-sandbox/mockupPreviewPlugin.ts:100-105 | A queued request is stranded exactly when the discovery or write it waits for throws |
| `RefreshRuns.NextCallServesStranded` | artifacts/mockup-sandbox/mockupPreviewPlugin.ts:83-106 | The next call serves a stranded request by a follow-up of its own |
| `RefreshRuns.StepKeepsSteady` | artifacts/mockup-sandbox/mockupPreviewPlugin.ts:82-111 | Every step keeps the flag and the number of discoveries in agreement, and the chain's answer with its writes |
| `RefreshSteps.Refresher.Refresh` | artifacts/mockup-sandbox/mockupPreviewPlugin.ts:82-91 | A call queues while another is in progress and otherwise starts a discovery |
| `RefreshSteps.Refresher.Resume` | artifacts/mockup-sandbox/mockupPreviewPlugin.ts:91-110 | After a discovery: write when the text changed, clear the flag, and start the follow-up of a queued request |
| `RefreshSteps.Refresher.ResumeThrown` | artifacts/mockup-sandbox/mockupPreviewPlugin.ts:100-102 | A discovery that throws clears the flag and leaves the queue flag |
| `ListenRuns.ExactlyOne` | lib/ai-orchestrator/src/context-cache-manager.ts:154-239 | Until stopped, the channel is connecting, or holds one client, or waits for one timer: one and never two, with no other connection unreleased |
| `ListenRuns.SoundnessLostIff` | lib/ai-orchestrator/src/context-cache-manager.ts:171-205 | The only step that breaks this is a client one of whose three `on` calls throws: it is kept beside a timer |
| `ListenRuns.NoTimerAfterStop` | lib/ai-orchestrator/src/context-cache-manager.ts:216-237 | In every run, from the first stop on no timer is armed |
| `ListenRuns.StopIsFinalIff` | lib/ai-orchestrator/src/context-cache-manager.ts:159-237 | After stop no client is ever held again exactly when no connection attempt was in progress; then every connection is released |
| `ListenRuns.AttemptCanInstall` | lib/ai-orchestrator/src/context-cache-manager.ts:168-196 | An attempt in progress at a stop can still install a client, which then listens on a stopped channel |
| `ListenRuns.LingersIff` | lib/ai-orchestrator/src/context-cache-manager.ts:185-237 | Such a client stays held until it reports an error or the channel is stopped again, and no longer |
| `ListenRuns.SoundAgainIff` | lib/ai-orchestrator/src/context-cache-manager.ts:185-188 | After a throwing `on` the shapes are regained at the next step exactly by an error of that client, heard only if its error listener was in place |
| `ListenRuns.ThrowCanLeak` | lib/ai-orchestrator/src/context-cache-manager.ts:171-205 | If the timer of a throwing `on` fires first, the next client can take the place of the kept one, which then nothing knows |
| `ListenRuns.LeakedForever` | lib/ai-orchestrator/src/context-cache-manager.ts:208-228 | A connection that nothing knows any more is never released, in any run |
| `ListenRuns.StepKeepsSound` | lib/ai-orchestrator/src/context-cache-manager.ts:159-228 | Every ordinary step keeps the three shapes, the listeners and the held connections |
| `ListenSteps.InvalidationChannel.Connect` | lib/ai-orchestrator/src/context-cache-manager.ts:159-168 | Up to the first await: nothing once stopped, otherwise the timer is cleared and an attempt begins |
| `ListenSteps.InvalidationChannel.ScheduleReconnect` | lib/ai-orchestrator/src/context-cache-manager.ts:216-223 | One timer at most, and none once stopped |
| `ListenSteps.InvalidationChannel.OnListening` | lib/ai-orchestrator/src/context-cache-manager.ts:171-205 | The client is installed with its listeners; when the first, second or third registration throws it is kept with those registered before and a reconnect is scheduled |
| `ListenSteps.InvalidationChannel.OnFailure` | lib/ai-orchestrator/src/context-cache-manager.ts:198-205 | A failed connection or query releases what it acquired and schedules a reconnect |
| `ListenSteps.InvalidationChannel.StopChannel` | lib/ai-orchestrator/src/context-cache-manager.ts:233-237 | Stop clears the timer and releases the client |
| `ForensicMerge.MergeForensicRecoveryEnvelopes` | lib/ai-orchestrator/src/forensic-recovery.ts:131-201 | The staged loops compute the specified merge for every list of packets, failing ones included |
| `ForensicMerge.MergeIsLinked` | lib/ai-orchestrator/src/forensic-recovery.ts:134-178 | Merged findings are F-1 to F-n, and for every packet and every phase of it that names one of its findings, the phase stands at its place in the merged plan and points to the place of the last finding of that packet under the id |
| `ForensicMerge.PlanPointsToFindings` | lib/ai-orchestrator/src/forensic-recovery.ts:156-162 | Every merged phase points to a merged finding |
| `ForensicMerge.PacketsStayApart` | lib/ai-orchestrator/src/forensic-recovery.ts:146-162 | Phases of different packets never point to the same finding, equal packets included |
| `ForensicMerge.MergedIdsAreDistinct` | lib/ai-orchestrator/src/forensic-recovery.ts:149-153 | No two merged findings share an id |
| `ForensicMerge.FailedPacketsVanish` | lib/ai-orchestrator/src/forensic-recovery.ts:140-190 | A packet that fails part-way contributes nothing |
| `ForensicMerge.MergeConserves` | lib/ai-orchestrator/src/forensic-recovery.ts:149-178 | No finding and no linkable phase of a readable packet is lost, changed or reordered but for ids; the checklist holds each item once, in order of first appearance |
| `RepairPlans.BuildExecutableRepairPlan` | lib/ai-orchestrator/src/forensic-recovery.ts:416-496 | The loop yields exactly the accepted plans and the violations of the phases, in order |
| `RepairPlans.RepairPlanIsSafe` | lib/ai-orchestrator/src/forensic-recovery.ts:416-496 | A phase is accepted exactly when it is the first with a known finding, its files are that finding's, relative, in scope and read, its steps change source and it keeps to the registered profile; every phase is accounted for once; a plan has files of its own finding only, all read, in scope and project-relative, and its registered profile; no finding has two plans |
| `RepairPlans.MergedPlansAreKnown` | lib/ai-orchestrator/src/forensic-recovery.ts:432-436 | On a merged envelope no phase is refused for an unknown finding |

## Left out

- Provider clients, HTTP routes, database loaders, user interface and build scripts: input and output around the logic above.
- Observers (`emit`, `onChange`), log lines and wall-clock values: the code ignores what observers do; a clock reading is a parameter of each call.
- `ExecutionNodes`: node titles, profiles and the other descriptive fields, which no modelled branch reads; `allowedFiles` is taken as its normalized set.
- `PlanWaves.RunWave`: the abort signal handed to the runs after a rate limit; a run may react to it in any way, since its result is arbitrary.
- `JsonScanner`, `JsonSanitizer`: removal of thinking blocks and code fences before the scan, `JSON.parse` itself, the trailing-comma repair and the schemas after it. Scalars and white space are any text without quotes and brackets, which is wider than RFC 8259. A raw backslash directly before a raw control character is no escape of RFC 8259 and is excluded.
- `ExecutionLedger.Ledger`: the fields of a usage report, which is one value; the size of a token estimate, which is a given number; timeouts, the public snapshot and the report of a failed reconciliation. Budgets are integers.
- `EvidenceGate`, `EvidenceClaims`: the reason texts, the final answer type, and the evidence relevance gate, which is an arbitrary predicate of claim and record; source scopes are present on every record.
- `TextCompaction`: the fractions 0.55, 0.65 and 0.35 are whole hundredths of a length, rounded down; floating-point rounding is not modelled. Budgets of the graph summary are natural numbers.
- `ContextTrimming`: the context is a list of named fields whose values are texts, sized or free; JSON serialization of the health table is its given size.
- `ManifestWalk`: reading directories and sorting their entries; a tree is given with its entries in the walk's order. A failing read makes the whole manifest unavailable, which is not modelled, nor are the lists of package and configuration files, which are filters of the file list.
- `Replanning`: an option that is not a number (then no cap applies), and the discovery of further sources for project questions. The plan's list of evidence references is not modelled.
- `ContextCache`: what a cached context holds; strings compare by code points, which for section names is the order of the source.
- `ListenSteps`: a `release` or `removeAllListeners` that throws.
- `RefreshSteps`: the text of the generated module, which is arbitrary and not empty; a discovery sees the files of one moment between its start and its end.
- `ForensicMerge`: the prose fields of findings, copied as one text; `RepairPlans`: path canonicalization, scope, change vocabulary and profile registration are given functions.
- The other gates, classifiers, vocabularies and small decision tables of the repository: they would add only easy members.
