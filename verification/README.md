# Verified model of the agent orchestration core

A Dafny model of the four parts of the repository that keep state or run loops whose
guarantees have to hold on every input and every run, with proofs of those guarantees:

- **Scheduler** (`packages/scheduler`): weighted deficit round robin over projects, under
  global, project, adapter and account limits and write-scope exclusion.
- **Store** (`crates/vea-store`, `migrations`): commands appended to an event log, with
  receipts, two projections, cursors and an audit log; replay, repair and crash recovery.
- **Policy** (`crates/vea-policy`): the canonical writer, domain-separated digests, evaluation
  of proposed actions, and approvals bound to what was evaluated.
- **Graphs and frames** (`packages/domain`, `packages/protocol`): validation of task graphs with
  a sorted queue, and the length-prefixed frame decoder.

Code that updates variables or fields in the original is a method or a class here, proved equal
to a function; the theorems are about those functions. `dafny verify dfyconfig.toml` checks
everything.

| files | content |
|---|---|
| `Orders`, `Wrappers`, `Characters` | total orders and sorting, optional and failing results, classes of characters |
| `Scopes`, `ScopeOrders`, `ScopePaths` | scope conflicts; when their verdict depends on an order; what a prefix is, conflicts and the paths that scopes match |
| `Scheduler`, `Schedule` | one scheduling call as a function; the loops, proved equal to it |
| `SchedulerRuns`, `SchedulerSafety`, `SchedulerPartition`, `SchedulerAccounts`, `SchedulerFairness`, `SchedulerTicks` | theorems about one call and about chains of calls |
| `SchedulerAnswers`, `SchedulerTurns` | in which order tasks are taken and why the others are not; whose turn it is and what it costs |
| `SchedulerStarvation`, `SchedulerMonopoly` | the exact limit of work conservation; one project taking every run |
| `StoreModel`, `StoreTables`, `EventStore` | records and checks; the tables and all operations as functions; the store object |
| `StoreConsistency`, `StoreCommits`, `StoreRepair`, `StoreRecovery`, `StoreHistory`, `StoreGuarantees` | the invariant, exact commit conditions, repair, start-up, whole runs, what runs promise |
| `StoreCommands` | what each command writes, what a replay takes, which error refuses a command, what recovery and import write |
| `Canonical`, `JsonText`, `CanonicalReading`, `Records`, `Digests` | the writer, a reader of JSON text, reading back what was written, serialized records, digests |
| `Actions`, `ActionEncoding`, `Policies`, `PolicyEncoding`, `Approvals` | actions, policies, reading back their serialized forms, the decision, approvals end to end |
| `PathSegments` | paths, repository roots and hosts by their segments |
| `TaskGraphs`, `TaskGraphErrors`, `Framing` | Kahn's algorithm; what each error says; encoding and decoding of frames |

## Assumptions

- Weights, efforts and deficits are real numbers; rounding is not modelled.
- The order behind `localeCompare` is any total order (any relation at all where no order is needed).
- Task and project identifiers of a snapshot are distinct, and incoming deficits are not negative,
  in the theorems whose statements say so; the loops themselves are proved for any snapshot.
- Transactions and the mutex make each store operation one atomic step. Identifiers and clock
  readings are parameters. Identifiers of submitted commands are arbitrary; those that recovery
  generates are assumed fresh where a theorem says so, for exactly as many as are used.
- The request digest of the store stands for the envelope itself. JSON payloads, timestamps and
  weights survive storage exactly.
- In the policy part the hash is an arbitrary function to 32 bytes. The end-to-end theorem assumes
  that the six texts it speaks of do not collide, and nothing about other texts.

## What the code does not guarantee

- The comment at packages/scheduler/src/index.ts:150-152 says that handing over cursor and deficits
  keeps a high-weight project from monopolizing one-slot calls. Even equal weights do not prevent it:
  `OneProjectCanMonopolize` exhibits, for every n, n such calls in which one of two projects gets
  every run and the other, always with an admissible task, not even a quantum: each time, a dearer
  task arrives before the task the project was left with, so it is topped up again before its turn
  passes on. `MonopolyNeverEnds` is the endless chain of these calls.
- When quanta and service do stay fair: between two calls a project falls asleep when its deficit
  pays for the task it was left with but not for the one it brings next, and wakes up in the reverse
  case; both can be told before the call. Over any chain of calls, of any number of slots, in which
  two projects are busy, their lead in quanta is within 3 of the difference of their nets, sleeps
  less wakes (`LongRunQuanta`). So in an endless chain the lead is bounded if and only if that
  difference is (`LeadIsBoundedIffNetsAre`), and the service is proportional to the weights, up to a
  constant, under the same condition (`ServiceIsProportionalIffNetsAre`). With no sleep and no wake
  the lead is at most 2 (`SteadyQuanta`).
- With unknown scopes taken as harmless, the verdict of `writeScopesConflict` depends on the order
  of the scopes (`IgnoringUnknownDependsOnOrder`). Rearranging two non-empty lists can change it if
  and only if some pair of known prefixes overlaps and some scope is unknown (`OrderMatters`).
  Exchanging the lists can change it, for some arrangement of them, if and only if one list has an
  unknown scope and a known one that overlaps some but not all known scopes of the other
  (`SidesMatter`).
- Overlap is overlap of prefixes, not of the sets that the patterns match: a wildcard inside a
  segment is cut back to a prefix it does not stay under, so `src/a*` does not conflict with
  `src/ab.ts` (`PartialSegmentIsMissed`), nor `*.ts` with `a.ts` (`LeadingWildcardIsMissed`). A
  pattern stays under its prefix if and only if its first wildcard begins a segment
  (`MatchesAreUnderPrefix`). Such a scope, and no other, conflicts with every such scope that can
  match one of its paths (`CommonPathsConflictIff`).
- Tasks dropped inside the scheduling loop use up the same budget as idle visits, so a slot can
  stay free although a task could be selected. For projects of weight w at most k admitted tasks
  prevent that if and only if (65 - k) * 2w >= 6, with w between 0.1 and 100 as the scheduler clamps
  it (`WeightThreshold`): 62 tasks at weight 1, and 35 for all weights (`ConservationThreshold`).
  `CrowdStarves` is the case of one task more, in which the very next visit would have selected the
  task that is blocked.
- Recovery validates the settled record with the current clock, so start-up fails exactly when
  the clock is behind the authorization of some started side effect, or some side effect is started
  and the clock is beyond the largest safe integer (`OpenRecovers`).
- A push that fails discards the frames it had already decoded. Delivered are exactly the frames of
  the chunks before the failing one, so nothing is lost if and only if the failing chunk completes
  no frame before the bad one (`FramesBeforeError`); `GoodFrameIsLost` shows it for every good and bad
  body. The decoder then goes on: later pushes return all that follows a bad body, but an oversized
  header also drops what is behind it in its chunk (`LaterPushesResume`).
- A task whose identifier is empty ends Kahn's loop, so the order is complete exactly when the
  dependencies are acyclic and no identifier is empty (`KahnOrderComplete`).
- Verification compares every receipt with the events but does not look for missing receipts
  (`VerificationDetectsForgedReceipts`).

## Model

| member | source | states |
|---|---|---|
| `Scopes.WriteScopesConflict` | packages/scheduler/src/index.ts:47-68 | the nested loops with their early returns give the verdict of the first pair of scopes that decides |
| `Scopes.OverlapIffCommonPath` | packages/scheduler/src/index.ts:58-64 | two prefixes are reported as overlapping if and only if some path is, or lies under, both |
| `Scopes.ConflictMeaning` | packages/scheduler/src/index.ts:47-68 | with unknown scopes conflicting: a conflict if and only if a list is empty or some pair overlaps or has an unknown scope |
| `Scopes.ConflictSymmetric` | packages/scheduler/src/index.ts:47-68 | with unknown scopes conflicting, the test is symmetric |
| `Scopes.ConflictMonotone` | packages/scheduler/src/index.ts:47-68 | on non-empty lists, adding scopes never removes a conflict |
| `Scopes.ConflictIgnoringUnknown` | packages/scheduler/src/index.ts:57-57 | with unknown scopes harmless: a conflict if and only if an overlapping pair is met before the first pair with an unknown scope |
| `Scopes.IgnoringUnknownDependsOnOrder` | packages/scheduler/src/index.ts:57-57 | two lists with the same scopes in another order give different verdicts |
| `ScopeOrders.CanConflictIff` | packages/scheduler/src/index.ts:53-64 | with unknown scopes harmless, some arrangement of the two lists conflicts if and only if some pair of known prefixes overlaps |
| `ScopeOrders.CanPassIff` | packages/scheduler/src/index.ts:53-64 | some arrangement of two non-empty lists does not conflict if and only if no pair overlaps or some scope is unknown |
| `ScopeOrders.OrderMatters` | packages/scheduler/src/index.ts:57-57 | both verdicts occur among the arrangements of two non-empty lists if and only if some pair overlaps and some scope is unknown |
| `ScopeOrders.SidesMatter` | packages/scheduler/src/index.ts:57-57 | exchanging the two lists can change the verdict, for some arrangement of them, if and only if one has an unknown scope and a known one that overlaps some but not all known scopes of the other |
| `ScopePaths.MatchesAreUnderPrefix` | packages/scheduler/src/index.ts:40-45 | a known scope can match only paths under its prefix if and only if its first wildcard begins a segment |
| `ScopePaths.CommonPathsConflict` | packages/scheduler/src/index.ts:58-64 | lists with two such scopes that can match a common path are reported as conflicting |
| `ScopePaths.CommonPathsConflictIff` | packages/scheduler/src/index.ts:40-64 | a scope conflicts with every scope whose first wildcard begins a segment and that can match one of its paths, if and only if its own first wildcard, if any, begins a segment |
| `ScopePaths.PartialSegmentIsMissed` | packages/scheduler/src/index.ts:40-45 | `src/a*` and a path it matches are not reported as conflicting |
| `ScopePaths.LeadingWildcardIsMissed` | packages/scheduler/src/index.ts:42-44 | `*.ts` and a path it matches are not reported as conflicting |
| `ScopePaths.PrefixMeaning` | packages/scheduler/src/index.ts:40-45 | a scope says nothing exactly when it is empty, `*` or `**` but for its slashes and a leading `./`; its prefix is its text with slashes only, up to the first `?`, `*` or `[`, without one slash at the end |
| `Scopes.PlainPrefix` | packages/scheduler/src/index.ts:40-45 | a scope without wildcards, back-slashes or end separators is its own prefix |
| `Scheduler.AdvanceIsModulo` | packages/scheduler/src/index.ts:160-160 | the cursor moves to the next project modulo their number |
| `Schedule.CountActive` | packages/scheduler/src/index.ts:89-95 | the loop over active runs counts them per project, adapter and account and collects their write scopes |
| `Schedule.HasClash` | packages/scheduler/src/index.ts:123-125 | finds whether a task conflicts with some recorded list of scopes of its project |
| `Schedule.AdmitTasks` | packages/scheduler/src/index.ts:100-133 | every ready task is queued or blocked with the reason of the first check it fails |
| `Schedule.RouteRefusal` | packages/scheduler/src/index.ts:193-219 | the checks repeated before selection give the reason the specification gives |
| `Schedule.TakeHead` | packages/scheduler/src/index.ts:191-234 | a paid-for task is dropped or selected with all counters, scopes, deficit and cursor as specified |
| `Schedule.ServeVisit` | packages/scheduler/src/index.ts:158-234 | one iteration of the loop leaves the variables as one specified visit does |
| `Schedule.ServeQueues` | packages/scheduler/src/index.ts:153-235 | the loop terminates, by free slots and then remaining visits, with the result of the specified run |
| `Schedule.BlockRemaining` | packages/scheduler/src/index.ts:237-241 | what is left in the queues is blocked for concurrency unless it is blocked already |
| `Schedule.RunSchedule` | packages/scheduler/src/index.ts:82-247 | the whole procedure returns the decision that the theorems below are about |
| `SchedulerSafety.ConcurrencyIsBounded` | packages/scheduler/src/index.ts:139-235 | active plus selected runs never exceed the larger of the limit and the number already active: over all, per project, per adapter, per account |
| `SchedulerSafety.WriteScopesAreExclusive` | packages/scheduler/src/index.ts:193-200 | no selected task conflicts with an active run or an earlier selected task of its project |
| `SchedulerPartition.EveryTaskIsDecided` | packages/scheduler/src/index.ts:97-241 | every ready task is selected once or blocked with one reason, never both, and nothing else is |
| `SchedulerPartition.TrustAndRouteReasons` | packages/scheduler/src/index.ts:101-110 | trust is given exactly to tasks of a missing or untrusted project, route exactly to other tasks without a route |
| `SchedulerPartition.SelectionFollowsStableOrder` | packages/scheduler/src/index.ts:74-80 | each project's selections are a subsequence of the stable order (`SchedulerAnswers.TakenInOrder` spells that order out) |
| `SchedulerPartition.DecisionForgetsOrder` | packages/scheduler/src/index.ts:100-142 | permuting ready tasks and projects changes nothing |
| `SchedulerAnswers.TakenInOrder` | packages/scheduler/src/index.ts:74-80 | of two selected tasks of one project the earlier has the higher priority, or at equal priority the earlier readiness (none counts as earliest), or at equal readiness the smaller identifier |
| `SchedulerAnswers.NoOvertaking` | packages/scheduler/src/index.ts:100-235 | when a task is selected, every admissible task of its project that precedes it in that order was selected before, or was dropped for the reason that stood against it at some moment before |
| `SchedulerAnswers.WhyBlocked` | packages/scheduler/src/index.ts:107-241 | the reason of every task of a trusted project with a route: from what runs already a limit, then a conflict; else, against what was selected by some moment, the project limit, then a conflict, then a route limit; else it waited to the end and gets concurrency |
| `SchedulerTurns.DeficitsAddUp` | packages/scheduler/src/index.ts:179-224 | the reported deficit of a project is its old one plus twice its clamped weight for each quantum, less 1, 1, 2, 4 or 6 for each of its selected tasks by effort |
| `SchedulerTurns.TurnsGoRound` | packages/scheduler/src/index.ts:140-146 | turns begin at the project of the cursor, or at the least identifier, and go round in ascending order of identifiers |
| `SchedulerTurns.FirstTaken` | packages/scheduler/src/index.ts:140-235 | with a slot free, the first task selected is the first available one of the project whose turn comes first among those with available tasks, if one quantum is enough for it |
| `SchedulerTurns.SingleSlot` | packages/scheduler/src/index.ts:140-246 | the whole answer for a single slot: that one task, every deficit, and the next cursor, which stays if the project can pay for its next task (or, without one, for the same again) and otherwise moves on |
| `SchedulerAccounts.DeficitsAreAccounted` | packages/scheduler/src/index.ts:179-190 | final deficit is initial deficit plus quanta minus cost selected, stays non-negative, and stays below 6 plus the quantum |
| `SchedulerAccounts.WorkIsConservedByWeight` | packages/scheduler/src/index.ts:147-157 | free slots and a queued task at the end mean that so many tasks of its project were dropped that the quanta of the other of 64 visits do not pay for the dearest task |
| `SchedulerAccounts.WorkIsConserved` | packages/scheduler/src/index.ts:147-157 | whatever the weight, free slots and a queued task at the end mean that at least 35 tasks of its project were dropped |
| `SchedulerAccounts.ShortQueuesAreServed` | packages/scheduler/src/index.ts:147-157 | with at most 35 admitted tasks a project the visit cap never stops the loop: all slots are filled or all queues empty |
| `SchedulerStarvation.CrowdStarves` | packages/scheduler/src/index.ts:147-157 | for every weight, one admitted task beyond the limit lets the visit cap leave a slot free and a task blocked that the next visit would select |
| `SchedulerStarvation.WeightThreshold` | packages/scheduler/src/index.ts:147-157 | k admitted tasks of a project guarantee, on every snapshot, that all slots are filled or its queue is empty, if and only if 65 - k quanta of its weight pay for the dearest task |
| `SchedulerStarvation.ConservationThreshold` | packages/scheduler/src/index.ts:147-157 | at most k admitted tasks a project guarantee that all slots are filled or all queues empty, on every snapshot of any weights, if and only if k is at most 35 |
| `SchedulerFairness.QuantaAreFair` | packages/scheduler/src/index.ts:153-235 | in one call, two busy projects (always with a next task, losing none to a drop) get numbers of quanta that differ by at most 2 |
| `SchedulerFairness.ServiceIsFair` | packages/scheduler/src/index.ts:150-152 | cost served per quantum of two such projects differs by less than 4 + 6/quantum + 6/quantum' |
| `SchedulerTicks.DeficitsOverTicks` | packages/scheduler/src/index.ts:135-137 | deficit accounting and its bounds over any number of calls that feed back their results |
| `SchedulerTicks.DeficitsStayBounded` | packages/scheduler/src/index.ts:180-186 | one call keeps every deficit in [0, 206), whatever the weights |
| `SchedulerTicks.DeficitsStayBoundedOverTicks` | packages/scheduler/src/index.ts:135-137 | over any number of calls that feed back their deficits, with other projects and weights each time, every deficit stays in [0, 206) |
| `SchedulerTicks.LongRunQuanta` | packages/scheduler/src/index.ts:150-152 | over any chain of calls in which two projects are busy, the lead of one in quanta is within 3 of its sleeps less wakes between calls, less the same of the other; and at most 2 plus its sleeps plus the other's wakes |
| `SchedulerTicks.LeadIsBoundedIffNetsAre` | packages/scheduler/src/index.ts:150-152 | in an endless chain the lead of two busy projects is bounded if and only if the difference of their sleeps less wakes is |
| `SchedulerTicks.ServiceIsProportionalIffNetsAre` | packages/scheduler/src/index.ts:150-152 | in an endless chain the service of two busy projects is proportional to their weights, up to a constant, if and only if the difference of their sleeps less wakes is bounded |
| `SchedulerTicks.SteadyQuanta` | packages/scheduler/src/index.ts:150-152 | when what each can afford is handed over unchanged, the quanta differ by at most 2, however many calls |
| `SchedulerTicks.OneSlotIsBusy` | packages/scheduler/src/index.ts:150-152 | in a call with at most one free slot every project with an admissible task is busy |
| `SchedulerTicks.LongRunServiceIsProportional` | packages/scheduler/src/index.ts:150-152 | cost served per quantum of one busy project, less that of another, is within 5 + 6/quantum + 6/quantum' of the difference of their sleeps less wakes |
| `SchedulerMonopoly.OneProjectCanMonopolize` | packages/scheduler/src/index.ts:150-152 | for every n there are n chained one-slot calls in which one of two busy projects of equal weight gets every run and the other no quantum, with a lead of one more than the difference of the nets |
| `SchedulerMonopoly.MonopolyNeverEnds` | packages/scheduler/src/index.ts:150-152 | continued for ever, these calls are an endless chain with an unbounded lead |
| `EventStore.Store.InsertEventAndReceipt` | crates/vea-store/src/store.rs:638-714 | appends one event under the next sequence number and its receipt, or fails on a unique key |
| `EventStore.Store.ExecuteOnProject` | crates/vea-store/src/store.rs:501-549 | on success the tables are those of the specified project command, row for row |
| `EventStore.Store.ExecuteOnEffect` | crates/vea-store/src/store.rs:551-625 | on success the tables are those of the specified side-effect command, row for row |
| `EventStore.Store.Execute` | crates/vea-store/src/store.rs:128-164 | commits everything or, failing at whatever write, changes nothing; retries are answered from the receipt |
| `EventStore.Store.ReplayDerivedState` | crates/vea-store/src/store.rs:984-1067 | the loop over the log computes the replayed state or the first error |
| `EventStore.Store.RepairProjections` | crates/vea-store/src/store.rs:419-449 | rewrites the projections that differ, in one transaction, row by row in key order |
| `EventStore.Store.VerifyTables` | crates/vea-store/src/store.rs:393-458 | verification and repair change the tables as specified and leave them alone on an error |
| `EventStore.Store.RecoverStarted` | crates/vea-store/src/store.rs:460-492 | settles all side effects found started, or none |
| `EventStore.Store.Start` | crates/vea-store/src/store.rs:111-120 | start-up repairs and then recovers, as two transactions |
| `EventStore.Store.ImportProjects` | migrations/0002_events_audit.sql:81-140 | the five statements, each a loop over rows or events, leave exactly the imported tables |
| `StoreConsistency.ReplayEstablishes` | crates/vea-store/src/store.rs:984-1067 | a log that replays yields valid rows under their own keys, and no logged revision is ahead of its aggregate |
| `StoreConsistency.BuiltProjectReplays` | crates/vea-store/src/projects.rs:52-143 | what a project command writes is what replaying its event yields |
| `StoreConsistency.BuiltEffectReplays` | crates/vea-store/src/side_effects.rs:34-132 | what a side-effect command writes is what replaying its event yields |
| `StoreConsistency.NextRevisionIsFree` | migrations/0002_events_audit.sql:37-37 | in a consistent store the next revision of an aggregate never meets the unique key of the log |
| `StoreConsistency.UsedEventIdIsRefused` | migrations/0002_events_audit.sql:20-20 | an event id already in the log is refused |
| `StoreConsistency.GoodRowIsAllowed` | migrations/0001_core.sql:8-22 | a valid project meets the CHECK constraints of its table |
| `StoreConsistency.GoodEffectIsAllowed` | migrations/0002_events_audit.sql:159-178 | a valid side effect meets the CHECK constraints of its table |
| `StoreConsistency.ExecuteKeepsConsistency` | crates/vea-store/src/store.rs:128-164 | whatever is submitted, tables and replayed log still agree, receipts match events one to one, and repository roots stay distinct |
| `StoreCommits.ProjectCommitCondition` | crates/vea-store/src/store.rs:501-549 | a new project command commits if and only if the expected revision is current, the clock is not behind the creation, the trust change is permitted and a created root is unused |
| `StoreCommits.EffectCommitCondition` | crates/vea-store/src/store.rs:551-625 | a new side-effect command commits if and only if the expected revision and the phase fit and the clock is not behind the authorization or the start |
| `StoreCommits.CommitCondition` | crates/vea-store/src/store.rs:128-164 | a client's new command commits if and only if it is valid, not startup-only, and finds its aggregate as it expects |
| `StoreCommands.CommandIsCarriedOut` | crates/vea-store/src/store.rs:501-625 | a command that commits leaves one event with exactly its arguments, one receipt and one audit row; its row changes in exactly the fields it sets, besides revision, time and sequence number; all other rows and tables stay |
| `StoreCommands.RefusalsAreExact` | crates/vea-store/src/store.rs:128-164 | a command that fails does so with exactly this error: schema, validity, reused id, stale revision, existing or missing aggregate, root in use, forbidden transition, clock behind, in this order |
| `StoreCommands.UsedEventIdViolates` | crates/vea-store/src/store.rs:638-674 | a command that would commit fails with a constraint violation if the event id generated for it is in use |
| `StoreCommands.ReplayTakesWhatIsWritten` | crates/vea-store/src/store.rs:984-1067 | behind a log that replays, a replay takes exactly the events that a valid command, or the import of a project, could have written next, and yields the row it would have written; the error for others |
| `StoreRepair.ConsistentVerifies` | crates/vea-store/src/store.rs:393-458 | verification of a consistent store finds nothing and changes nothing |
| `StoreRepair.ProjectsReinserted` | crates/vea-store/src/projects.rs:145-205 | reinserting the replayed rows meets neither the unique root nor a CHECK constraint |
| `StoreRepair.EffectsReinserted` | crates/vea-store/src/side_effects.rs:134-196 | reinserting the replayed side effects meets no constraint |
| `StoreRepair.RepairRestores` | crates/vea-store/src/store.rs:419-457 | from arbitrary wrong projections and cursors, one repairing verification restores exactly the replayed state, reports whether it had to, and then adds one audit row |
| `StoreRepair.VerificationDetectsDamage` | crates/vea-store/src/store.rs:407-418 | without repair, verification succeeds if projections and cursors are the replayed ones, and is an integrity failure otherwise |
| `StoreRepair.VerificationDetectsForgedReceipts` | crates/vea-store/src/store.rs:932-973 | verification accepts a set of receipts if and only if each of them is a stored one |
| `StoreRepair.ReceiptMeaning` | crates/vea-store/src/store.rs:932-973 | in any numbered log a receipt is accepted if and only if the events of its command are an unbroken stretch from its first to its last position, all with its request, the last with its revision |
| `StoreRepair.RepairSettles` | crates/vea-store/src/store.rs:393-458 | a second verification finds nothing to repair |
| `StoreRecovery.OneRecovery` | crates/vea-store/src/store.rs:465-486 | settling a started side effect succeeds if and only if the clock is not behind its authorization, and changes nothing else |
| `StoreRecovery.RecoverySettles` | crates/vea-store/src/store.rs:460-492 | recovery succeeds if and only if every settling can, and settles exactly the side effects found, in order |
| `StoreRecovery.OpenRecovers` | crates/vea-store/src/store.rs:111-120 | start-up on any projections succeeds if and only if the clock allows it; afterwards nothing is started; on failure the repaired tables stay |
| `StoreRecovery.SecondOpenIsIdle` | crates/vea-store/src/store.rs:111-120 | with nothing started, start-up recovers nothing and changes nothing |
| `StoreRecovery.ReopeningIsIdle` | crates/vea-store/src/store.rs:460-492 | an immediate second start-up after a successful one recovers none |
| `StoreCommands.RecoveryIsCarriedOut` | crates/vea-store/src/store.rs:460-492 | recovery takes the started side effects in ascending order of action ids and writes for each one event by the system actor `startup-recovery`, one row that changes in nothing but its outcome, and one audit row |
| `StoreHistory.ExecuteOutcome` | crates/vea-store/src/store.rs:143-163 | a successful command is answered from its receipt without change, or appends exactly one event at the revision after the expected one |
| `StoreHistory.ReopenOutcome` | crates/vea-store/src/store.rs:460-492 | reopening keeps consistency and appends nothing but unknown outcomes |
| `StoreHistory.RunKeeps` | crates/vea-store/src/store.rs:128-164 | over any run of submissions, verifications and reopenings the store stays consistent and loses no event or receipt |
| `StoreHistory.UnknownOnlyFromReopening` | crates/vea-store/src/store.rs:130-135 | only start-up recovery ever records an unknown outcome |
| `StoreGuarantees.RetryReturnsReceipt` | crates/vea-store/src/store.rs:143-152 | the identical envelope sent again after any further history returns the original receipt marked replayed and changes nothing |
| `StoreGuarantees.ReusedIdConflicts` | crates/vea-store/src/store.rs:146-148 | the same command id with other content fails after any further history |
| `StoreGuarantees.OneEventPerCommand` | crates/vea-store/src/store.rs:932-939 | each command id with a receipt owns exactly one event, any other none |
| `StoreGuarantees.OneCommitPerExpectedRevision` | crates/vea-store/src/store.rs:627-636 | of all commands sent with one expected revision at most one commits, whatever happens in between |
| `StoreGuarantees.StaleRevisionConflicts` | crates/vea-store/src/store.rs:627-636 | a new valid command with another expected revision fails with both revisions in the error |
| `StoreGuarantees.RevisionsAreConsecutive` | crates/vea-store/src/projects.rs:288-293 | logged revisions of an aggregate are consecutive from 1 or an imported baseline and end at the current one |
| `StoreGuarantees.ActionsFollowTheLifeCycle` | crates/vea-store/src/side_effects.rs:237-314 | the log of an action is a prefix of authorized, started, then finished or unknown, and its row holds what they said |
| `StoreGuarantees.ProjectsHoldWhatWasWritten` | crates/vea-store/src/projects.rs:236-334 | every field of a project row holds what the last event that sets it says; repository and creation time are those of the first event |
| `StoreCommands.RevokedIsNotTrustedAtOnce` | crates/vea-store/src/projects.rs:97-110 | in every log that replays, a project whose trust was revoked is trusted again only after it has been untrusted in between |
| `StoreGuarantees.ImportReplays` | migrations/0002_events_audit.sql:81-140 | the imported log replays if and only if every imported row is valid |
| `StoreGuarantees.ImportIsConsistent` | migrations/0002_events_audit.sql:81-140 | importing version-1 rows gives a consistent store if and only if every row is valid |
| `StoreCommands.ImportIsSpelledOut` | migrations/0002_events_audit.sql:81-140 | the event, the receipt, the row and the audit row that the migration leaves for each imported project |
| `StoreGuarantees.RunsVerify` | crates/vea-store/src/store.rs:393-458 | from imported rows or an empty store through any run, verification never reports a mismatch and all histories are regular |
| `Canonical.Output.WriteValue` | crates/vea-policy/src/canonical.rs:96-140 | appends the canonical text to the output, or fails if and only if there is a float |
| `Canonical.Output.WriteItems` | crates/vea-policy/src/canonical.rs:110-119 | the loop over an array appends its text, or fails if and only if it holds a float |
| `Canonical.Output.WriteEntries` | crates/vea-policy/src/canonical.rs:120-137 | the loop over the sorted keys of an object appends its text, or fails if and only if it holds a float |
| `Canonical.CanonicalJson` | crates/vea-policy/src/canonical.rs:73-79 | returns the canonical text of a value without floats |
| `CanonicalReading.DecimalsRead` | crates/vea-policy/src/canonical.rs:100-105 | numbers followed by anything but a digit can be read in one way only |
| `CanonicalReading.QuotedRead` | crates/vea-policy/src/canonical.rs:106-109 | quoted strings can be read in one way only, whatever follows |
| `CanonicalReading.TextReads` | crates/vea-policy/src/canonical.rs:96-140 | the text of a value, whatever follows it, determines the value and the rest |
| `CanonicalReading.TextIsInjective` | crates/vea-policy/src/canonical.rs:96-140 | values without floats that have equal text are equal |
| `CanonicalReading.TextIsRead` | crates/vea-policy/src/canonical.rs:96-140 | a reader written from the grammar of RFC 8259 reads the text of a value, whatever admissible text follows, as a document that denotes the value, and leaves what follows |
| `CanonicalReading.DenotesOne` | crates/vea-policy/src/canonical.rs:120-137 | a document, with the members of each object in strictly ascending order, denotes one value at most |
| `CanonicalReading.EscapesAreShortest` | crates/vea-policy/src/canonical.rs:106-109 | of all ways to write a character in a string the writer uses a shortest one, with lower-case hexadecimal digits |
| `Records.RecordForgetsOrder` | crates/vea-policy/src/canonical.rs:122-123 | the order of distinct entries leaves no trace in the output |
| `Digests.DigestsAreValid` | crates/vea-policy/src/canonical.rs:81-94 | every digest has the form that validation demands |
| `Digests.DigestDeterminesInput` | crates/vea-policy/src/canonical.rs:81-86 | equal digests of inputs that do not collide come from equal inputs |
| `Digests.DomainsAreSeparate` | crates/vea-policy/src/canonical.rs:81-86 | no text hashed as an action, a policy or a binding is also hashed as another of these |
| `Policies.DigestsAreOf` | crates/vea-policy/src/engine.rs:144-193 | each of the three digests is `sha256:` and the hexadecimal digits of the hash of its own domain name and the canonical text |
| `Actions.ValidatePaths` | crates/vea-policy/src/action.rs:670-684 | the loop accepts if and only if there are 1 to 256 valid paths in strictly ascending order; the set of paths seen never decides |
| `Actions.ValidateSortedStrings` | crates/vea-policy/src/action.rs:701-717 | the loop accepts if and only if the strings are bounded, strictly ascending and not too many |
| `Actions.SplitJoins` | crates/vea-policy/src/action.rs:692-694 | the parts of a path hold no separator and joining them gives back the path |
| `PathSegments.ValidPathMeaning` | crates/vea-policy/src/action.rs:686-699 | a path is accepted if and only if it is short enough, without back-slashes and control characters, and no segment of it is empty, `.`, `..` or `.git` |
| `PathSegments.ValidPathDescends` | crates/vea-policy/src/action.rs:686-699 | an accepted path, followed from any directory, stays below it and never meets `.git` |
| `PathSegments.DestinationMeaning` | crates/vea-policy/src/action.rs:566-605 | a destination is accepted if and only if it is an https URL with a port whose host has two labels or more and is not four decimal numbers below 256, and whose path is printable and without a query |
| `PathSegments.RepoRootMeaning` | crates/vea-store/src/model.rs:622-633 | a repository root is accepted if and only if it is bounded text that begins with a separator and has no segment `..` |
| `Actions.MatchingIsInclusion` | crates/vea-policy/src/action.rs:347-470 | a capability covers an action if and only if it includes the least one the action needs; widening takes nothing away |
| `ActionEncoding.ActionTextIsInjective` | crates/vea-policy/src/action.rs:194-208 | actions with the same canonical text are the same action |
| `ActionEncoding.ActionTextIsRead` | crates/vea-policy/src/action.rs:194-208 | the canonical text of an action is JSON text from which the action is read back, field by field |
| `Policies.RuleDecides` | crates/vea-policy/src/engine.rs:236-284 | an action goes ahead without approval if and only if the rule for what it does says so, and with approval if and only if the rule demands one; the digests and limits that the answer carries |
| `Policies.DenialsAreExact` | crates/vea-policy/src/engine.rs:196-284 | each reason of a denial is given exactly in its case |
| `Policies.UndeniedIsSound` | crates/vea-policy/src/engine.rs:100-142 | an action that is not denied lives five minutes at most, has a provenance, names accepted paths in ascending order, has an observed destination if and only if it goes to one, and meets every limit of size and number |
| `Policies.DecisionsAreMonotone` | crates/vea-policy/src/engine.rs:196-285 | a policy with wider grants, rules as generous and limits as long never decides against an action where the other decides for it, nor asks for a shorter approval, if and only if it is valid itself or the other denies anyway |
| `Policies.OnlyReadsGoUnapproved` | crates/vea-policy/src/engine.rs:119-131 | without approval only file reads go ahead, and only of paths that some grant of the policy lists |
| `Policies.RequirementIgnoresClock` | crates/vea-policy/src/engine.rs:270-281 | the requirement depends on the clock only through the lifetime, carries the three digests, and its time limit is the smaller of rule and policy |
| `PolicyEncoding.PolicyTextIsInjective` | crates/vea-policy/src/engine.rs:144-155 | policies with the same canonical text are the same policy |
| `PolicyEncoding.BindingTextIsInjective` | crates/vea-policy/src/engine.rs:169-181 | bindings with the same text tie the same digests to the same state |
| `PolicyEncoding.PolicyTextIsRead` | crates/vea-policy/src/engine.rs:144-155 | the canonical text of a policy is JSON text from which the policy is read back |
| `PolicyEncoding.BindingTextIsRead` | crates/vea-policy/src/engine.rs:169-181 | the canonical text of a binding is JSON text from which the digests and the state are read back |
| `Approvals.BindingPinsEverything` | crates/vea-policy/src/engine.rs:183-193 | equal binding digests mean equal action, policy and observed state |
| `Approvals.ApproveExactly` | crates/vea-policy/src/approval.rs:65-100 | an approval is issued if and only if both identities are well-formed and the time asked for fits action and limit; it then holds exactly what the caller said and what was evaluated |
| `Approvals.VerifyExactly` | crates/vea-policy/src/approval.rs:103-146 | any grant, issued here or not, is accepted if and only if it is approved, well-formed, unused, in time and answers a fresh evaluation; otherwise the error names the first of these that fails |
| `Approvals.IssuedContents` | crates/vea-policy/src/approval.rs:65-100 | a grant issued for an evaluated action holds the identities and times the caller gave, lies inside the action's lifetime, lasts no longer than rule and policy allow, and carries the digests of what was evaluated |
| `Approvals.UnchangedVerifies` | crates/vea-policy/src/approval.rs:103-146 | with all unchanged, an unused grant verifies at every instant from its issue to its expiry |
| `Approvals.ApprovalBindsExactly` | crates/vea-policy/src/approval.rs:103-146 | a grant authorizes if and only if it is unused, not outside its time, and action, policy and state are those it was issued for |
| `TaskGraphs.CheckMembership` | packages/domain/src/index.ts:83-91 | zero counts for all tasks, and the errors about foreign projects and graphs |
| `TaskGraphs.LinkNodes` | packages/domain/src/index.ts:93-108 | counts and links the kept dependencies and reports the others |
| `TaskGraphs.Release` | packages/domain/src/index.ts:120-127 | counts the dependents of a placed task down and queues, in order, those left without dependencies |
| `TaskGraphs.Drain` | packages/domain/src/index.ts:116-128 | the loop over the sorted queue yields the greedy order: always the least task all of whose dependencies are placed |
| `TaskGraphs.ValidateTaskGraph` | packages/domain/src/index.ts:72-132 | a graph is reported valid if and only if it is well-formed, with the errors in order |
| `TaskGraphs.KahnOrderSound` | packages/domain/src/index.ts:110-128 | the order has no repeats and every kept dependency precedes its dependent |
| `TaskGraphs.KahnOrderComplete` | packages/domain/src/index.ts:130-130 | the order is as long as the node list if and only if identifiers are distinct and non-empty and the kept dependencies acyclic |
| `TaskGraphs.KahnOrderLeast` | packages/domain/src/index.ts:110-128 | the order comes first among all topological orders |
| `TaskGraphs.KahnOrderForgetsArrangement` | packages/domain/src/index.ts:110-128 | permuting nodes or dependency lists does not change the order |
| `TaskGraphErrors.ErrorsAreExact` | packages/domain/src/index.ts:72-132 | an error is reported if and only if the defect it names is there, phase after phase, and those of the graph itself and the cycle once |
| `Framing.FrameDecoder.constructor` | packages/protocol/src/index.ts:43-45 | a new decoder has an empty buffer and the given limit |
| `Framing.FrameDecoder.SetMaxBytes` | packages/protocol/src/index.ts:47-52 | the limit changes if and only if it is a positive safe integer, and the buffer stays |
| `Framing.FrameDecoder.Push` | packages/protocol/src/index.ts:54-72 | returns the frames of the buffered stream and keeps the residue, or the first error with what is left then |
| `Framing.SizeOfHeader` | packages/protocol/src/index.ts:34-35 | reading back a header gives the size written |
| `Framing.EncodedFrame` | packages/protocol/src/index.ts:29-37 | a frame is encoded if and only if its payload is within the limit and below 2^32 bytes: four bytes of length, the most significant first, then the payload |
| `Framing.AcceptedIffProtocolFrame` | packages/protocol/src/index.ts:75-90 | a value is accepted, unchanged, if and only if it is an object with version 1, string ids, a non-negative safe sequence number and a kind |
| `Framing.FirstDefectDecides` | packages/protocol/src/index.ts:75-90 | a value that is no protocol frame is refused for the first of these: no object, version, identifiers, sequence number, kind |
| `Framing.DecodedFramesAreValid` | packages/protocol/src/index.ts:67-68 | only protocol frames are handed out |
| `Framing.DecodeAppend` | packages/protocol/src/index.ts:54-72 | decoding a longer stream continues from the residue |
| `Framing.ChunkIndependence` | packages/protocol/src/index.ts:54-72 | however a stream is cut, the pushes return what one push would, or the same error after some of its frames (`FramesBeforeError` says which) |
| `Framing.SomeChunkFails` | packages/protocol/src/index.ts:54-72 | a stream with an error has a first chunk that fails |
| `Framing.FramesBeforeError` | packages/protocol/src/index.ts:54-72 | before an error exactly the frames of the chunks before the failing one are delivered; all good frames are if and only if the failing chunk completes none before the bad one |
| `Framing.GoodFrameIsLost` | packages/protocol/src/index.ts:66-70 | for every good and every bad body: pushed together the good frame is lost, pushed apart it is delivered |
| `Framing.BadBodyIsSkipped` | packages/protocol/src/index.ts:65-68 | behind good frames a bad body is skipped and everything behind it stays in the buffer |
| `Framing.OversizedHeaderDropsAll` | packages/protocol/src/index.ts:60-63 | behind good frames an oversized header empties the buffer |
| `Framing.LaterPushesResume` | packages/protocol/src/index.ts:54-72 | the pushes after a failed one return what one push of all that the error left would: everything behind a bad frame, or everything behind the chunk that completes an oversized header |
| `Framing.ResidueBound` | packages/protocol/src/index.ts:58-64 | after a successful push fewer than 4 + limit bytes wait |
| `Framing.RoundTrip` | packages/protocol/src/index.ts:29-73 | every list of frames within the limits, encoded and cut in any way, comes back exactly and leaves nothing behind |

## Left out

- QuantaAreFair: speaks of busy projects only; the loop promises nothing to a project that runs out of tasks or loses one to a drop.
- WorkIsConserved: 35 is what the smallest weight needs; `WorkIsConservedByWeight` has the bound of each weight.
- CommonPathsConflict: what a pattern matches is bounded from above by its literal beginning; which of these paths a glob matches is not modelled.
- Float rounding of weights, priorities and deficits, and non-finite weights in the store; the scheduler's fallback for a non-finite weight is modelled.
- The collation behind `localeCompare`, JavaScript prototype keys in plain records, and UTF-16 as opposed to character order.
- SQLite itself, file locks, permissions, `quick_check`, WAL files, backup, restore and migration bookkeeping.
- The text comparison of triggers; the tables are append-only by construction.
- Audit rows hold action, command, correlation and time only.
- 64-bit overflow in the store; validated numbers stay below 2^53.
- Windows paths in repository roots, and JSON parsing and printing in the frame protocol, which are a parameter.
- Which field an invalid action, policy or envelope is rejected for; the verdict is modelled, the message is not.
- The set of grants of a policy is the sequence in which it is iterated; the order of that set is not modelled.
- `risk_class` and `reversibility` of an action, queries of the store, routing, configuration, extensions, the task status table, the handshake and the user interface.
