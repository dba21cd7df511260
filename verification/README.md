# Run supervisor, scheduler, logs, timestamps and provenance: a Dafny model

wyd watches the processes that coding agents start, runs commands on their
behalf and remembers where each process came from. This project models its
decision logic and proves what it promises. It stands beside the Rust sources
and shares no code with them.

| file | what it models |
|---|---|
| `SchedulerSpec.dfy`, `SchedulerCaps.dfy`, `SchedulerOrder.dfy`, `SchedulerBypass.dfy`, `SchedulerExact.dfy`, `SchedulerIds.dfy`, `SchedulerEffects.dfy` | admission control as a pure state machine; what each operation answers and leaves, entry by entry; caps and work conservation; fairness over whole runs; how requests are passed over all the same; for which budgets exactly all this holds; where ids go |
| `Scheduler.dfy` | the scheduler object: fields edited in place, with its loops, proved equal to that state machine |
| `RunStore.dfy` | the durable table of runs, as a specification and as the store that edits it |
| `Supervisor.dfy`, `SupervisorInv.dfy`, `SupervisorSteps.dfy` | the supervisor as a concurrent protocol whose steps are the critical sections, its one inductive invariant and the proof that every step keeps it |
| `SupervisorHistory.dfy`, `SupervisorReads.dfy`, `SupervisorCaps.dfy`, `SupervisorFair.dfy`, `SupervisorDismissal.dfy`, `SupervisorRecovery.dfy`, `SupervisorRace.dfy`, `SupervisorCancels.dfy`, `SupervisorFlags.dfy`, `SupervisorEffects.dfy` | what follows from it: what each call does as a whole, one place and one worker per run, capacity given back once, forward-only histories, reads that never go back, the scheduler's theorems, fairness included, in every interleaving, no worker for a dismissed run, a crash at any step, and the one race with its exact condition |
| `LogSpec.dfy`, `Logs.dfy` | bounded stream files on one shared budget, interleaved, and the objects that write them |
| `Calendar.dfy`, `Timestamps.dfy` | the two calendar formulas, and printing and parsing of RFC 3339 timestamps character by character |
| `ProvenanceSpec.dfy`, `ProvenanceEffects.dfy`, `Provenance.dfy` | the provenance tables: passes, session ends, garbage collection and lookups |
| `Items.dfy`, `KillOrder.dfy`, `KillDepth.dfy`, `KillWalk.dfy`, `Collapse.dfy` | the item tree, the kill order, when it is deepest first, and the folding of helper processes |

## How the model is laid out

Code that edits fields is a class whose methods are proved equal to a function
on values (`...Spec`); the properties are lemmas about those functions and
about whole runs of them.

The supervisor is a transition system. Its state holds what the locks guard
(scheduler, registry, slots, durable rows) and one record per pending piece of
work of any thread; each event is one critical section. Any pending work may
go next, so the order in which one thread does its own work is one case among
all. Results of the operating system (exit, cleanup verdict, refusal) are
arbitrary parameters of the events. The fields `place`, `admitted`, `workers`
and `published` of a run are history: the invariant speaks of them and no step
decides anything by them.

Word sizes matter in two places and are written out there: the sum of memory
reservations is computed modulo 2^64, and the byte counters are 64-bit values
that are shown not to overflow. Times are natural numbers of one unit.

## What the proofs assume of callers

- Run ids are fresh, as the store's AUTOINCREMENT key makes them; for the whole
  supervisor this is proved (`SupervisorFair`).
- `NoOvertaking` needs logical time that does not go back, a steady budget (at
  most half of the u64 range, or all of it) and limits that are not loosened: no
  cap that can bind is raised. `OrderHoldsIff` shows that the condition on the
  budget is exact, and `LimitsKeepOrderIff` with the run in
  `RaisedLimitsOvertake` what a loosened limit does.
- Caps of at least one (`src/config.rs:73-74`) are assumed only by
  `NoStuckQueue`, `IdleQueueIsOversized`, `QuietMeansFinished`, `BudgetHoldsIff`
  and `OrderHoldsIff`.
- The memory cap needs every budget to be at most half of the u64 range:
  `BudgetHoldsIff` shows that this is exact, `AdmissionExactIffNoWrap` is the
  condition for one comparison, and `WrappedAdmissionExample` a run in which it
  fails. Work conservation holds for the largest budget too: `WorkIsConservedIff`.
  The two counts, `NoStuckQueue` and `QuietMeansFinished` need no such condition.
- A pass that records ownership names only sessions that it brings or that are
  stored.

## Where the code and its description differ

The code is followed; each difference is a lemma.

- A starved request is said to be admitted ahead of later short runs, so that a
  stream of small ones cannot bypass it forever (`src/runner/scheduler.rs:9-12`).
  It wins a slot exactly when it fits its caps and none before it does:
  `StarvedWinsIffFits`, `StarvedWinsIffFirstToFit`. When its memory does not fit
  it is bypassed, from the queue and by newcomers, as long as the stream lasts:
  `StarvedRequestIsBypassed`, `BypassedForEver`.
- A project's requests are first come, first served only among requests of at
  least equal size: `SmallerNewcomerOvertakes` beside `NoOvertaking`, with the
  exact conditions in `DirectOvertakeIff` and `SameProjectBypassIffTooBig`. After
  a limit was raised an equal one can overtake too: `RaisedLimitsOvertake`.
- Raising limits admits nobody until the next release, and meanwhile a request
  whose memory fits is told to wait for memory: `RaisingLimitsAdmitsNobody`,
  `RaisingLimitsMisreports`, with the exact condition in `ReportedReasonIsTrueIff`.
- Log files keep the head of a stream as long as no bytes are given back to the
  shared budget. Bytes given back would reopen a truncated stream:
  `PrunedByteReopensStream`, with the exact condition in `WriteKeepsHeadIff`.
  The supervisor prunes only at start-up (`src/runner/mod.rs:584-586`), before
  any stream is open, so `FilesAreHeads` covers its whole life.
- Timestamps survive the round trip up to the end of year 9999 and never after
  it: `RoundTripIff`.
- The kill order is said to be deepest first (`src/actions/process.rs:28-30`). It
  is so along direct parent links exactly when these have no cycle:
  `ChildrenFirstIffAcyclic`. Across processes that are not selected it depends on
  the order of the seeds: `DeepestFirstIff`. An item lists its own processes
  before those of nested items, so any such gap inside an item breaks the order:
  `GapInItemLosesDepth`, with an ordinary item in `AgentSignalledBeforeServer`.
- An explanation can pair a resource with the owner of another one:
  `ExplanationCanMix`, with the exact condition in `ExplanationFitsIff`.
- A cancel that looks a run up after its row is inserted and before it is
  registered finishes a copy, and a later read can show the run queued again:
  `EarlyCancelReadsGoBack`. Exactly such cancels, and those of ids still to
  come, can do that: `CancelIsHarmlessIff`. Such a
  cancel can also be lost altogether: `EarlyCancelIsLost`, with the exact
  condition in `CancelIsNeverLostIff`.

## Model

| member | source | states |
|---|---|---|
| `SchedulerSpec.CandidateIndex` | src/runner/scheduler.rs:337-370 | the chosen request fits all three caps, and nothing is chosen exactly when no global slot is free or nothing in the queue fits |
| `SchedulerCaps.AdmissionExactIffNoWrap` | src/runner/scheduler.rs:252-258 | the u64 comparison that admits agrees with exact arithmetic if and only if the sum of reservations and request stays below 2^64 |
| `SchedulerCaps.WrappedAdmissionExample` | src/runner/scheduler.rs:309-313 | from a fresh scheduler with a budget of 2^64-1: after one run that takes all of it, a second one starts because the sum wraps |
| `SchedulerCaps.StepKeepsBounded` | src/runner/scheduler.rs:139-231 | if every budget is at most half a word, no operation in any state makes the reservations wrap |
| `SchedulerCaps.RunKeepsBounded` | src/runner/scheduler.rs:139-231 | over any run whose limits keep every budget within half a word the sum of reservations never wraps |
| `SchedulerCaps.StepRespectsCaps` | src/runner/scheduler.rs:145-231 | no operation other than a change of limits enlarges an exceedance of the global or project cap, whatever the memory sums are, nor one of the memory cap where no sum can wrap |
| `SchedulerCaps.AdmittingStepIsWithinLimits` | src/runner/scheduler.rs:145-210 | whatever the limits were before, a step that admits a run leaves the global count and that run's project count within the limits in force, also where memory sums wrap, and the reserved memory where they cannot |
| `SchedulerCaps.RunRespectsLoosestCounts` | src/runner/scheduler.rs:139-231 | over any sequence of operations and limit changes, with any budgets, the global count and every project count stay within the loosest values their caps ever had |
| `SchedulerCaps.RunRespectsLoosestBudget` | src/runner/scheduler.rs:139-231 | over any sequence of operations and limit changes with budgets of at most half a word, the sum of reservations is exact and stays within the loosest budget |
| `SchedulerCaps.ReleaseConservesWork` | src/runner/scheduler.rs:187-210 | a release that frees a slot leaves no queued request that could be admitted |
| `SchedulerCaps.StepConservesWork` | src/runner/scheduler.rs:139-231 | under a steady budget (at most half a word, or the largest word) every operation, and every change of limits that raises no cap that can bind, keeps the queue free of admissible requests |
| `SchedulerCaps.RunConservesWork` | src/runner/scheduler.rs:139-231 | the same over whole runs |
| `SchedulerCaps.LimitsKeepWaitingIff` | src/runner/scheduler.rs:139-141 | for every budget and every state: a change of limits leaves the queue free of admissible requests wherever it was so, if and only if it raises no cap that can bind: slots unless the project cap is 0, the project cap unless the slots stay at or below the old one, the budget unless one of the counts is 0 |
| `SchedulerCaps.ReportedReasonIsTrue` | src/runner/scheduler.rs:295-304 | over any run with limits never loosened and steady budgets, the reason a queued request reports is true of it: its project is full, else all slots are taken, else its memory does not fit |
| `SchedulerCaps.ReportedReasonIsTrueIff` | src/runner/scheduler.rs:285-307 | in every state the reported reason is true if and only if the request has no room in exact arithmetic; where no sum wraps, that is if and only if it could not be admitted |
| `SchedulerCaps.IdleQueueIsOversized` | src/runner/scheduler.rs:309-319 | with nothing running and nothing held, only a request above the budget can be waiting, whatever the budget |
| `SchedulerCaps.NoStuckQueue` | src/runner/scheduler.rs:145-231 | with fixed limits and any budget, after any operations from a fresh scheduler, nothing running and nothing held implies an empty queue |
| `SchedulerCaps.RaisingLimitsAdmitsNobody` | src/runner/scheduler.rs:139-141 | after limits are raised a queued request can fit and still wait: a concrete run |
| `SchedulerCaps.RaisingLimitsMisreports` | src/runner/scheduler.rs:295-304 | at the end of that run the waiting request is told to wait for memory although its memory fits |
| `SchedulerCaps.SubmitVerdict` | src/runner/scheduler.rs:145-182 | the verdict in exact arithmetic: impossible if and only if above the budget, started if and only if all three caps have room, refused for a full queue if and only if neither, and otherwise last in line with its own or the default timeout |
| `SchedulerEffects.SubmitAnswers` | src/runner/scheduler.rs:145-182 | in any state, every amount in the answer and every field of the new slot or queue entry: a refusal names the request and the budget, or the bound of the queue, and changes nothing; when it starts, with sums modulo 2^64 |
| `SchedulerEffects.ReleaseAnswers` | src/runner/scheduler.rs:187-210 | the slot of that run and no other is given back, its reservation stays whole exactly when asked, and the answer lists in order the new slots, each with the project and memory that was asked for; the rest of the queue keeps its order |
| `SchedulerEffects.CancelAnswers` | src/runner/scheduler.rs:213-217 | a waiting request is taken out at its place and that is said; any other id changes nothing and that is said |
| `SchedulerEffects.ExpireAnswers` | src/runner/scheduler.rs:220-231 | exactly the requests past their deadline leave, are answered in queue order, and the others wait on in theirs |
| `SchedulerEffects.ReasonNames` | src/runner/scheduler.rs:295-304 | the project is named first, then the slots, and memory only when both have room |
| `SchedulerCaps.QueueStaysBounded` | src/runner/scheduler.rs:167-171 | over any run the queue never grows beyond the largest bound that was ever set |
| `SchedulerExact.BudgetHoldsIff` | src/runner/scheduler.rs:252-258 | over all runs with fixed limits the reserved memory stays within the budget if and only if that is at most half a word |
| `SchedulerExact.WorkIsConservedIff` | src/runner/scheduler.rs:187-210 | over all runs with fixed limits no admissible request ever waits, if and only if the budget is at most half a word or the largest word, or there is at most one slot, no project slot or no queue |
| `SchedulerExact.OrderHoldsIff` | src/runner/scheduler.rs:145-210 | over all legal runs with fixed limits nobody of a project is overtaken by a later request of at least its size, if and only if the budget is at most half a word or the largest word, or there is no queue |
| `SchedulerOrder.CandidateIsSimpleRule` | src/runner/scheduler.rs:337-370 | on a queue in arrival order the three-tier pick equals the simple rule: the first fitting request if starved, else the first fitting one of an idle project, else the first fitting one |
| `SchedulerOrder.CandidateAnswers` | src/runner/scheduler.rs:337-370 | in arrival order, who is chosen, said of queue, clock and slots: the first with room if it waited for the starvation time or nobody with room has an idle project, else the first of those |
| `SchedulerOrder.BypassNeedsIdleProject` | src/runner/scheduler.rs:348-370 | a fitting request is passed over only if it waited less than the starvation time and the winner's project has nothing running |
| `SchedulerOrder.StarvedWinsIffFits` | src/runner/scheduler.rs:337-347 | on any queue with a slot free, a starved request is chosen if and only if it fits and no starved request before it fits |
| `SchedulerOrder.StarvedWinsIffFirstToFit` | src/runner/scheduler.rs:337-370 | in arrival order it is chosen if and only if it fits and no request at all before it fits |
| `SchedulerOrder.SameProjectBypassIffTooBig` | src/runner/scheduler.rs:337-370 | of two requests of one project, the later wins exactly when the earlier one does not fit memory and the later does |
| `SchedulerOrder.StepKeepsFair` | src/runner/scheduler.rs:139-231 | every operation keeps the fairness invariant that the next row rests on |
| `SchedulerOrder.NoOvertaking` | src/runner/scheduler.rs:145-210 | over any run with limits never loosened and steady budgets: while a request waits, no later request of its project that asks for at least as much memory has been admitted, from the queue or directly |
| `SchedulerBypass.DirectOvertakeIff` | src/runner/scheduler.rs:145-158 | a newcomer starts directly ahead of a waiting request of its project if and only if both caps have a slot and its memory fits while the memory of the one waiting does not |
| `SchedulerBypass.EqualNewcomerOvertakesIff` | src/runner/scheduler.rs:145-158 | in any state, a newcomer of the project and size of a waiting request within the budget starts ahead of it, if and only if that request could be admitted |
| `SchedulerBypass.LimitsKeepOrderIff` | src/runner/scheduler.rs:139-158 | for every budget and every state: a change of limits lets no equal newcomer pass a request that had to wait, if and only if it raises no cap that can bind |
| `SchedulerBypass.RaisedLimitsOvertake` | src/runner/scheduler.rs:139-158 | a run from a fresh scheduler in which a limit is raised and an equal newcomer of the project starts while the earlier request waits on |
| `SchedulerBypass.SmallerNewcomerOvertakes` | src/runner/scheduler.rs:145-158 | a run from a fresh scheduler after which a smaller newcomer starts ahead of a waiting request of its project: the project order is not first come, first served for unequal sizes |
| `SchedulerBypass.StarvedRequestIsBypassed` | src/runner/scheduler.rs:187-210 | a run from a fresh scheduler after which a release passes over a request that has starved for an hour and admits a smaller, later one of the same project from the queue |
| `SchedulerBypass.BypassedForEver` | src/runner/scheduler.rs:145-210 | for every n, a legal run from a fresh scheduler in which a request that is starved and before its deadline still waits while n requests submitted after it were admitted |
| `SchedulerIds.SubmitMoves` | src/runner/scheduler.rs:145-182 | a submit puts a new id in exactly one of the slots and the queue, or nowhere when refused |
| `SchedulerIds.ReleaseMoves` | src/runner/scheduler.rs:187-210 | a release takes the id out of the slots, holds its reservation exactly when asked, and moves the admitted ids, each once, from queue to slots |
| `SchedulerIds.ReleaseWithoutSlot` | src/runner/scheduler.rs:187-210 | releasing an id without a slot changes nothing and admits nobody |
| `SchedulerIds.CancelMoves` | src/runner/scheduler.rs:213-217 | a queued id is removed exactly when it was queued, and nothing else moves |
| `SchedulerIds.ExpireMoves` | src/runner/scheduler.rs:220-231 | the expired ids are exactly the ones that left the queue, each once |
| `SchedulerObject.Scheduler.constructor` | src/runner/scheduler.rs:123-130 | a new scheduler runs, queues and holds nothing under the given limits |
| `SchedulerObject.Scheduler.Reserved` | src/runner/scheduler.rs:252-258 | the two summing loops return the sum of running and held reservations modulo 2^64 |
| `SchedulerObject.Scheduler.Submit` | src/runner/scheduler.rs:145-182 | the answer with its amounts, the new entry with its fields and the untouched rest, on every branch; equal to the specification |
| `SchedulerObject.Scheduler.PickNext` | src/runner/scheduler.rs:326-335 | moves the candidate from queue to slots, or changes nothing |
| `SchedulerObject.Scheduler.AdmitWaiting` | src/runner/scheduler.rs:205-209 | the draining loop admits exactly what the recursive specification admits, in its order |
| `SchedulerObject.Scheduler.Release` | src/runner/scheduler.rs:187-210 | frees or holds, then drains; equal to the specification, including the early return |
| `SchedulerObject.Scheduler.CancelQueued` | src/runner/scheduler.rs:213-217 | the retain loop takes the id out of the queue, keeps the others in order and reports whether it was there; slots and reservations stay |
| `SchedulerObject.Scheduler.Expire` | src/runner/scheduler.rs:220-231 | the retain loop keeps the live requests in order and reports the expired ones in order |
| `SchedulerObject.Scheduler.QueueEntries` | src/runner/scheduler.rs:285-307 | one entry per queued request, in order, with its position, its wait, and a reason that is true if and only if the request has no room in exact arithmetic |
| `RunTableSpec.Latest` | src/store.rs:1526-1534 | finds the highest id of a recent run with this request id, or shows there is none |
| `RunTableSpec.InsertKeepsSeparated` | src/store.rs:1513-1580 | two runs of one request id are more than 24 hours apart, for any clock value, also one that went backwards |
| `RunTableSpec.UpdatesKeepSeparated` | src/store.rs:1585-1605 | transitions, finishes and prunes keep that separation |
| `RunTableSpec.CreatesIffNoneRecent` | src/store.rs:1526-1544 | an insert creates a run if and only if every run of the request id is more than 86,400 seconds old; the new run takes the next id and nothing else changes; otherwise the table does not change, the latest recent run is met, and the fingerprint decides between existing and conflict |
| `RunTableSpec.RepeatMeetsTheRun` | src/store.rs:1536-1544 | a repeat within the day of the latest run returns that run's id or a conflict and changes nothing |
| `RunStoreObject.RunStore.Insert` | src/store.rs:1513-1580 | the lookup and the insert in place equal the specification |
| `RunStoreObject.RunStore.Transition` | src/store.rs:1585-1605 | a newer write sets phase, cleanup and revision of its row and nothing else; a stale write changes nothing; no revision ever falls |
| `RunStoreObject.RunStore.Finish` | src/store.rs:1777-1823 | the first finish of a run sets its phase, cleanup, revision and result and nothing else; any later one is ignored and no other row moves |
| `RunStoreObject.RunStore.Recover` | src/runner/mod.rs:1202-1268 | the recovery loop ends every unfinished row as lost, one revision up, without an exit code, a signal or a start, with cleanup complete exactly on the same boot with no survivors, incomplete exactly on the same boot with survivors, and unknown exactly after another boot; finished rows are untouched |
| `RunStoreObject.RunStore.Prune` | src/store.rs:1898-1927 | the rows dropped are exactly the finished ones created before the bound; every other row is still there, unchanged |
| `SupervisorInv.InitKeeps` | src/runner/mod.rs:565-588 | a supervisor whose stored runs have all ended and that holds nothing satisfies the invariant |
| `SupervisorRecovery.RecoveryRestarts` | src/runner/mod.rs:1202-1268 | from the table of any state of the protocol, recovery, and pruning after it, lead to an initial state; results recorded before are found unchanged and every other run ends as lost |
| `SupervisorRecovery.InterruptedRecovery` | src/runner/mod.rs:1202-1268 | a recovery that was interrupted after any of the runs, followed by a whole one, leaves what one uninterrupted recovery promises: unfinished rows end as lost, one revision up, and finished rows are untouched |
| `SupervisorRecovery.CrashSafety` | src/runner/mod.rs:1202-1268 | after a crash at any step of any interleaving, recovery and pruning, the invariant holds in every interleaving of the restarted supervisor |
| `SupervisorSteps.EnterFinishPlace` | src/runner/mod.rs:1642-1655 | `finish` never meets a terminal slot of a run it holds, and its revision is the stored one plus one |
| `SupervisorSteps.WritePlace` | src/runner/mod.rs:1590-1605 | the durable half of a transition is never refused as stale |
| `SupervisorSteps.StepKeepsInv` | src/runner/mod.rs:609-1687 | every critical section of start, admit, queue tick, worker, finish, cancel and get keeps the invariant |
| `SupervisorSteps.RunKeepsInv` | src/runner/mod.rs:609-1687 | the invariant holds in every interleaving |
| `SupervisorHistory.OneHolder` | src/runner/mod.rs:709-784 | no two pieces of work are responsible for the same run |
| `SupervisorHistory.UnfinishedIsInOnePlace` | src/runner/mod.rs:709-985 | an unfinished run is queued if and only if no work holds it, and never both queued and in a slot |
| `SupervisorHistory.AtMostOneWorker` | src/runner/mod.rs:770-784 | a run gets at most one worker, and only after it was admitted |
| `SupervisorHistory.NothingIsLost` | src/runner/mod.rs:609-985 | when no work is pending, each run has finished or is queued |
| `SupervisorHistory.CapacityComesBack` | src/runner/mod.rs:1673-1687 | when all runs have finished, no slot is taken and the held reservations are exactly those of admitted runs whose cleanup was not complete, once each; the reserved memory is their sum |
| `SupervisorHistory.UnadmittedReleaseIsFree` | src/runner/mod.rs:1673-1681 | finishing a queued or rejected run changes no reservation and admits nobody |
| `SupervisorHistory.StepGoesForward` | src/runner/mod.rs:1570-1671 | each step moves a run's row and slot only to a higher revision in a later phase; a finished row never changes |
| `SupervisorHistory.RunGoesForward` | src/runner/mod.rs:1570-1671 | over whole runs: the first recorded result is never replaced and no row is reopened |
| `SupervisorHistory.RowFollowsMemory` | src/runner/mod.rs:1570-1605 | the row of a live run is at most one revision behind its slot |
| `SupervisorHistory.SlotIsReleasedOnce` | src/runner/mod.rs:1673-1681 | a run that left the slots never takes or gives back a slot again |
| `SupervisorHistory.FinishedInQueueNeverRuns` | src/runner/mod.rs:844-869 | a run whose stored result came before any admission never gets a worker |
| `SupervisorDismissal.DismissedNeverRuns` | src/runner/mod.rs:746-869 | from the very step that refuses a run, expires it in the queue or takes it out of the queue to cancel it, no continuation gives it a worker, a slot or a reservation, also while its finish is still on the way |
| `SupervisorDismissal.StepKeepsDismissed` | src/runner/mod.rs:609-985 | no step of any thread queues or admits a run again that was dismissed before admission |
| `SupervisorDismissal.UnadmittedFinishNeverRuns` | src/runner/mod.rs:1607-1687 | the same from any stage of the finish of a run that was not admitted |
| `SupervisorHistory.RepeatedStartDoesNothing` | src/runner/mod.rs:636-657 | a repeated start inside the window makes no row, reservation or worker |
| `SupervisorEffects.StartRegisters` | src/runner/mod.rs:636-690 | a start from its insert to its registration: the new row, slot and registry entry, and nothing else |
| `SupervisorEffects.StartSubmits` | src/runner/mod.rs:709-766 | then the scheduler's answer decides: a worker is to be started, the run waits, or it is finished as refused |
| `SupervisorEffects.WorkerStarts` | src/runner/mod.rs:1673-1687 | of the runs admitted for a release the first gets one worker and the others wait for their turn |
| `SupervisorEffects.TransitionRecords` | src/runner/mod.rs:1570-1605 | a transition from memory to row: the new phase under the next revision in both, and nothing else |
| `SupervisorEffects.PollLooks` | src/runner/mod.rs:1292-1303 | before it spawns a worker finishes the run as cancelled if the flag is set, and goes on if it is not |
| `SupervisorEffects.WorkerEnds` | src/runner/mod.rs:1308-1568 | a cleared, running or stopped worker ends with the very result it has |
| `SupervisorEffects.FinishRecords` | src/runner/mod.rs:1609-1671 | a finish from slot to registry: the very result it was given, under the next revision, in the slot and in the row, and the run unlisted |
| `SupervisorEffects.FinishReleases` | src/runner/mod.rs:1673-1687 | then the slot is given back or its reservation held, and those admitted for it are to be started |
| `SupervisorEffects.TickExpires` | src/runner/mod.rs:844-869 | a tick takes out the requests past their deadline, all at once |
| `SupervisorEffects.ExpiredIsFinished` | src/runner/mod.rs:858-868 | and each is finished as timed out |
| `SupervisorEffects.LimitsChange` | src/runner/mod.rs:1030-1044 | new limits replace the old ones and move nobody |
| `SupervisorEffects.GetOfLive` | src/runner/mod.rs:875-896 | a read of a registered run returns its live slot |
| `SupervisorEffects.GetOfStored` | src/runner/mod.rs:1074-1111 | a read of a run that is only stored returns its row |
| `SupervisorEffects.GetOfNothing` | src/runner/mod.rs:1074-1188 | a read of an unknown run looks for the row twice and ends with nothing |
| `SupervisorEffects.CancelFinds` | src/runner/mod.rs:1074-1111 | a cancel finds the live slot, else a copy of the row, else it ends |
| `SupervisorEffects.CancelOfStarted` | src/runner/mod.rs:960-985 | a cancel of a starting, running or stopping run sets the flag of its slot and does nothing else |
| `SupervisorEffects.CancelOfWaiting` | src/runner/mod.rs:968-981 | a cancel of a waiting run takes just that run out of the queue and goes on to finish it with its result |
| `SupervisorEffects.CancelOfPassing` | src/runner/mod.rs:968-983 | a cancel of a run that is queued but not in the queue sets the flag of its slot and does nothing else |
| `SupervisorEffects.CancelOfFinished` | src/runner/mod.rs:965-967 | a cancel of a finished run ends and changes nothing |
| `SupervisorReads.StepKeepsReads` | src/runner/mod.rs:875-896 | every step keeps what pending reads rely on |
| `SupervisorReads.RunKeepsReads` | src/runner/mod.rs:1074-1111 | the same in every interleaving in which no cancel names a run that start has inserted but not registered, or one that is still to come |
| `SupervisorReads.ReadsNeverGoBack` | src/runner/mod.rs:875-896 | in every such interleaving a read returns the latest view returned before it began or a later one, and a finished view is returned unchanged ever after, also while the run moves from its slot to storage |
| `SupervisorCancels.CancelIsHarmlessIff` | src/runner/mod.rs:960-1111 | the exact condition, for any run and any state reached so: reads of the run stay monotone in every careful continuation of a cancel call if and only if the id is known and no start is between inserting that run and registering it |
| `SupervisorCancels.CarelessReadsGoBack` | src/runner/mod.rs:960-1111 | after any other cancel call there is a continuation without further cancels, under limits of at least one slot, in which a read returns the run finished at revision 1 and a later one shows it queued at revision 0 |
| `SupervisorFlags.CancelIsNeverLostIff` | src/runner/mod.rs:960-985 | in every careful continuation a cancel that goes on to set a flag has the live slot, if and only if the call was careful in the same sense |
| `SupervisorFlags.EarlyCancelIsLost` | src/runner/mod.rs:960-1111 | a cancel of a run that is inserted and not registered can be lost without a trace: the state after the whole call is the state before it |
| `SupervisorFlags.CancelTakesEffect` | src/runner/mod.rs:968-983 | a careful cancel of a queued run takes it out of the queue, and no worker ever starts for it, or goes on to set the flag of the live slot |
| `SupervisorFlags.FlaggedNeverSpawns` | src/runner/mod.rs:1284-1306 | a flag set on the live slot before the worker looks at it is never missed: in no continuation is the command spawned |
| `SupervisorRace.EarlyCancelReadsGoBack` | src/runner/mod.rs:960-985 | a complete run from an empty supervisor in which a cancel issued before registration makes a later read return an earlier state |
| `SupervisorCaps.StepDrivesScheduler` | src/runner/mod.rs:709-1687 | a critical section changes the scheduler by at most one of its own operations |
| `SupervisorCaps.RunDrivesScheduler` | src/runner/mod.rs:709-1687 | every interleaving is one run of the scheduler |
| `SupervisorCaps.CapsHoldInEveryInterleaving` | src/runner/mod.rs:709-766 | in every interleaving the global and project counts stay within the loosest values of their caps whatever the budgets are, and the reservations within the loosest budget when that is at most half a word |
| `SupervisorCaps.QuietMeansFinished` | src/runner/mod.rs:1673-1687 | with fixed limits and any budget, when no thread has work left and nothing is held, every accepted run has finished |
| `SupervisorFair.StepIsLegal` | src/runner/mod.rs:709-766 | each critical section extends the scheduler's history legally: a run is submitted at most once, with a fresh id |
| `SupervisorFair.NoOvertakingInEveryInterleaving` | src/runner/mod.rs:709-766 | in every interleaving, while a run waits, no run of its project submitted later that asks for at least as much memory has ever been admitted |
| `LogSpec.HalvesMakeAWrite` | src/runner/logs.rs:126-150 | reserving and storing back to back is one whole write |
| `LogSpec.WriteAnswers` | src/runner/logs.rs:126-150 | a write in closed form: the head of the chunk that both caps have room for is appended and counted in stream and budget, and the stream is marked exactly when something was left out |
| `LogSpec.OpenAndFree` | src/runner/logs.rs:78-122 | an opened stream has what was in its file, counted, and marked if that fills it; bytes given back leave the streams alone |
| `LogSpec.StepKeepsInv` | src/runner/logs.rs:69-150 | one step of one sink keeps the cross-sink invariant: heads, closedness after a drop, and the budget sum |
| `LogSpec.FilesAreHeads` | src/runner/logs.rs:126-150 | for any number of sinks interleaving on one budget with nothing given back, each file is its old content followed by a prefix of the bytes offered to it |
| `LogSpec.FilesStayWithinLimit` | src/runner/logs.rs:126-145 | no file outgrows its cap, whatever happens to the budget |
| `LogSpec.BudgetCountsBytes` | src/runner/logs.rs:69-76 | the budget in use is its initial value plus the bytes appended and granted, and stays within its limit if it started there |
| `LogSpec.TruncatedMeansLoss` | src/runner/logs.rs:126-150 | a fresh stream with a positive cap is marked truncated if and only if a byte was dropped |
| `LogSpec.WriteKeepsHeadIff` | src/runner/logs.rs:126-150 | for any cap and any starting content, when bytes may be given back, a write keeps the file a head if and only if nothing was dropped before it or the write stores nothing |
| `LogSpec.PrunedByteReopensStream` | src/runner/logs.rs:78-81 | a byte given back by a prune lets a truncated stream store again: the file is then not a prefix |
| `LogSpec.ChunksJoin` | src/runner/logs.rs:190-220 | successive reads of a growing file join to exactly the bytes between the first and the last cursor |
| `LogSpec.ReadAnswers` | src/runner/logs.rs:190-220 | a read starts at the cursor or the end, takes what there is up to the limit and says where it stopped and whether that is the end |
| `LogSpec.FilesOnlyGrow` | src/runner/logs.rs:126-150 | over any run, also when bytes are given back, files only grow, so cursors stay valid |
| `LogSpec.ReadsWhileWriting` | src/runner/logs.rs:190-220 | a client that reads piece by piece while the drains go on writing gets exactly the bytes of the last file between its cursors |
| `LogSpec.ReadsReachTheEnd` | src/runner/logs.rs:190-220 | enough reads of a finished file return all of the rest of it |
| `LogSpec.EofMeansNothingLeft` | src/runner/logs.rs:190-220 | the end flag is set if and only if the next read of the same file returns nothing, also for a missing file |
| `LogObject.GlobalBudget.Take` | src/runner/logs.rs:69-76 | grants the smaller of the request and the room, without u64 overflow |
| `LogObject.LogSink.constructor` | src/runner/logs.rs:98-122 | existing bytes count against the cap and are published; the other stream's state is untouched |
| `LogObject.LogSink.WriteAllBounded` | src/runner/logs.rs:126-150 | the write in place equals the specification's, keeps the sink's invariant and publishes the new counters |
| `LogObject.Drain` | src/runner/mod.rs:1781-1822 | a drain alone with its budget stores exactly the head of the chunks read before the run was over, up to the smaller of the two caps |
| `Calendar.CivilIsValid` | src/barman.rs:1469-1480 | every day number becomes a valid date, and the scanner's formula maps it back |
| `Calendar.DaysIsInverse` | src/scanner/docker.rs:239-244 | the writer's formula undoes the scanner's on every valid date |
| `Calendar.CivilFollowsTheCalendar` | src/barman.rs:1469-1480 | the date of day z+1 is the calendar successor, under the leap-year rule, of the date of day z, for every integer z |
| `Calendar.EpochIsDayZero` | src/barman.rs:1468-1470 | day 0 is 1970-01-01 |
| `Calendar.YearOfEraIs` | src/barman.rs:1473-1475 | the closed form finds the year for every day of every year of a 400-year era |
| `Calendar.NextIsLater` | src/scanner/docker.rs:239-244 | the next calendar day has the next day number |
| `Timestamps.PadParses` | src/barman.rs:1456-1466 | a zero-padded number of any width reads back as itself |
| `Timestamps.FourDigitYear` | src/barman.rs:1456-1466 | the year has four digits if and only if the second is before 253402300800 |
| `Timestamps.StampParses` | src/scanner/docker.rs:228-262 | any stamp with a four-digit year is read as the instant it names, or 0 before the epoch |
| `Timestamps.EveryZoneParses` | src/scanner/docker.rs:246-262 | with any fraction of a second and any zone of RFC 3339 section 5.6, the instant read is the one named in UTC |
| `Timestamps.WideYearFails` | src/scanner/docker.rs:228-238 | years of five and six digits are read as 0 |
| `Timestamps.ParseIsBounded` | src/scanner/docker.rs:228-262 | no string at all is read as a second beyond 3*10^11 |
| `Timestamps.RoundTripIff` | src/barman.rs:1456-1466 | parsing what was printed returns the second if and only if it is before year 10000 |
| `Timestamps.PrintedText` | src/barman.rs:1455-1466 | the printed text of any second, character by character: four digits of year, or as many as it needs, five fields of two digits, the punctuation and the final Z; the fields are the calendar date and the time of day |
| `Timestamps.IntegerIff` | src/scanner/docker.rs:228-238 | a field is a number if and only if it is one digit or more, after a sign or none |
| `Timestamps.SignedParses` | src/scanner/docker.rs:228-238 | the sign of a number counts |
| `Timestamps.UnreadableIsZero` | src/scanner/docker.rs:228-238 | text cut short, or without a number in one of its six fields, is read as 0 |
| `Timestamps.OtherZonesCountForNothing` | src/scanner/docker.rs:246-262 | a zone without a sign or without two numbers counts for nothing |
| `ProvenanceSpec.RunKeepsIntegrity` | src/store.rs:425-624 | over any sequence of operations whose passes name supplied or stored sessions, every edge points to a stored session and resource and every member to a stored resource |
| `ProvenanceSpec.StepKeepsIntegrity` | src/store.rs:425-915 | the same for one operation |
| `ProvenanceSpec.GcLeavesNothingDangling` | src/store.rs:899-911 | after a collection no member and no alias dangles |
| `ProvenanceSpec.SessionIsCollectedIff` | src/store.rs:798-865 | a session is collected if and only if it ended before the cutoff and owns no live process; its edges go with it and no other edge does |
| `ProvenanceSpec.ResourceIsCollectedIff` | src/store.rs:867-887 | a resource is collected if and only if it is old and no session is left to own it |
| `ProvenanceSpec.GcKeepsLiveOrigins` | src/store.rs:743-915 | for any retention and clock, a live process has the same owning sessions after a collection as before, and they are stored |
| `ProvenanceSpec.GcIsIdempotent` | src/store.rs:743-915 | a second collection at the same time changes nothing |
| `ProvenanceSpec.OriginSurvives` | src/store.rs:743-915 | over any run in which collections see the process alive and no pass speaks of it again, its owners stay the same and stay stored |
| `ProvenanceSpec.LastMentionCounts` | src/store.rs:470-620 | after a pass each resource has exactly the members and owner of its last mention, and a known one keeps its root and first sighting |
| `ProvenanceEffects.PassAnswers` | src/store.rs:425-624 | the whole of a pass, row by row: a mentioned session is seen now, ends as in its last mention, keeps its origin, and takes the last project brought without losing a stored one; a mentioned resource has the members and owner of its last mention and the origin of its first; the rest is unchanged; a member listed twice undoes all of it |
| `ProvenanceEffects.GcAnswers` | src/store.rs:743-915 | what goes and what stays in each of the five tables, with what stays unchanged |
| `ProvenanceEffects.EndAbsentAnswers` | src/store.rs:680-740 | only active sessions whose root is gone are touched, and only in their end |
| `ProvenanceEffects.EnsureAnswers` | src/store.rs:1143-1195 | a session is inserted if absent, started when its root did; one that is there is left alone |
| `ProvenanceEffects.AliasAnswers` | src/store.rs:1200-1216 | an alias is created or pointed at the session afresh; no other alias changes |
| `ProvenanceEffects.OwnersAre` | src/store.rs:629-655 | the lookup sees a process as a member of a resource or as its root |
| `ProvenanceSpec.EndAbsentEndsOnce` | src/store.rs:680-740 | afterwards active sessions are exactly those active before with a live root, and an end time once recorded is kept |
| `ProvenanceSpec.ExplainNeverMissesSession` | src/store.rs:1313-1352 | the missing-session error is unreachable in every run from an empty store |
| `ProvenanceSpec.ExplanationFitsIff` | src/store.rs:1313-1352 | every possible explanation pairs a resource with its own owner if and only if all resources containing the process are owned by one session |
| `ProvenanceSpec.ExplanationCanMix` | src/store.rs:1313-1352 | the two independent lookups can name a resource of another session: one pass on an empty store |
| `ProvenanceObject.RuntimeStore.ApplyOwnership` | src/store.rs:425-624 | the two loops leave the tables as the whole-pass row says, and a member listed twice rolls everything back |
| `ProvenanceObject.RuntimeStore.EndAbsentSessions` | src/store.rs:680-740 | the loop over active sessions equals the specification |
| `ProvenanceObject.RuntimeStore.CollectGarbage` | src/store.rs:743-915 | the scans, the delete loop and the final deletes equal the declarative collection |
| `ProvenanceObject.RuntimeStore.OwningSession` | src/store.rs:629-655 | returns some owner of a resource containing exactly this invocation, and none if and only if there is none |
| `ProvenanceObject.RuntimeStore.ExplainProcess` | src/store.rs:1313-1352 | gives a possible answer, and never the missing-session error on a store with integrity |
| `Items.ItemPids` | src/actions/process.rs:45-51 | the recursion with its loop lists the pids of the item, then those of each child in order |
| `KillOrder.PostorderIsExact` | src/actions/process.rs:53-71 | for any item and any links, also cyclic ones, each pid of the item is put out exactly once and no other |
| `KillWalk.PostorderIsDepthFirst` | src/actions/process.rs:53-82 | on any links, also cyclic ones, the order is that of a depth-first walk without memory, each pid where it comes first |
| `KillWalk.KidsInSnapshotOrder` | src/actions/process.rs:55-63 | children are visited in the order of the snapshot |
| `KillWalk.ListedInOrder` | src/actions/process.rs:45-51 | an item lists its own pids, then those of its children from the first to the last |
| `KillOrder.ChildrenFirstIffAcyclic` | src/actions/process.rs:53-82 | every selected process comes before its selected parent if and only if the selected parent links have no cycle |
| `KillDepth.DeepestFirstIff` | src/actions/process.rs:28-82 | every selected process comes before its nearest selected ancestor if and only if the selected parent links have no cycle and each process whose own parent is not selected stands among the seeds before every seed from which its nearest selected ancestor is reached |
| `KillDepth.GapPrecedesIff` | src/actions/process.rs:53-82 | a process without a selected parent is put out before another selected one if and only if it stands among the seeds before every seed that reaches that one over selected links |
| `KillDepth.GapInItemLosesDepth` | src/actions/process.rs:45-82 | in any item tree: a process listed under its nearest selected ancestor, with only unselected processes between them, is put out after that ancestor |
| `KillDepth.AgentSignalledBeforeServer` | src/classify/group.rs:233-251 | an agent, an unclassified shell and a server under it: the item that the grouping builds is signalled agent first |
| `KillOrder.SignalsExactlyTheItem` | src/actions/process.rs:30-43 | the identities are the item's pids that the snapshot knows, once each, with the start time of the last row of that pid, children before parents on acyclic links |
| `KillOrder.Traversal.Visit` | src/actions/process.rs:73-82 | the recursive walk over its mutable set and list equals the specification and terminates on every graph |
| `KillOrder.OrderForKill` | src/actions/process.rs:53-71 | filling the children map and walking every seed equals the specification |
| `Collapse.CollapseSettles` | src/classify/group.rs:255-273 | no item is left with a child of its own category and name at any depth, and the item holds the processes, in order, and the memory of its whole chain |
| `Collapse.CollapseKeepsGroups` | src/classify/group.rs:255-273 | every maximal chain of equal items appears as often as before: each became one item and nothing else was merged |
| `Collapse.CollapseConserves` | src/classify/group.rs:255-273 | the multiset of process ids and the total memory of the tree are unchanged |
| `Collapse.CollapseKeepsOrder` | src/classify/group.rs:255-273 | children keep their order: first those not folded, then what hung below those that were |
| `Collapse.CollapseFixesSettled` | src/classify/group.rs:255-273 | a tree is left alone if and only if it is settled |
| `Collapse.CollapseIsIdempotent` | src/classify/group.rs:255-273 | folding twice is folding once |
| `Collapse.Collapsed` | src/classify/group.rs:255-273 | the recursion and the absorbing loop equal the specification |

## Left out

- SupervisorReads.ReadsNeverGoBack: assumes careful cancels; SupervisorCancels.CancelIsHarmlessIff shows that this is exactly what it takes.
- SupervisorReads.StepKeepsReads: carries the same assumption about cancels.
- SupervisorReads.RunKeepsReads: carries the same assumption about cancels.
- SchedulerOrder.NoOvertaking: assumes limits that are never loosened, steady budgets and logical time that never goes back.
- SupervisorFair.NoOvertakingInEveryInterleaving: carries the same assumptions; the clock of the source is the larger of monotonic and wall time and could go back after a wall-clock jump forward and back.
- SupervisorCaps.QuietMeansFinished: is a safety statement about states without pending work; that threads do get scheduled is not modelled.
- ProvenanceSpec.OriginSurvives: says nothing once a later pass names the process or its resources again, because such a pass may rightly give it another owner.
- KillOrder.ChildrenFirstIffAcyclic: speaks of direct parents; KillDepth.DeepestFirstIff speaks of the nearest selected ancestor.
- KillDepth.AgentSignalledBeforeServer: takes the item as the grouping builds it; the grouping itself is not modelled.
- SchedulerCaps.ReportedReasonIsTrue: assumes limits that are never loosened and steady budgets; SchedulerCaps.ReportedReasonIsTrueIff holds without that.
- LogObject.Drain: is about a sink alone with its budget; sinks that share one are the subject of LogSpec.
- Process spawning, signals, cgroups, resource sampling and the worker's polling loop: the worker is reduced to its state changes, its look at the cancel flag before it spawns, and its result; its later looks at the flag are an arbitrary early result.
- SQLite: each store method is one atomic update of a table; database, thread-spawn and file-write failures are not modelled. A crash loses everything but the table, at any step (`SupervisorRecovery`).
- Pruning happens before the threads start, so the initial states of the supervisor are tables of finished runs, pruned or not; `RunStoreObject.RunStore.Prune` models the deletion by itself.
- The waiting part of `get` (condition variable and time limit), event lists, `output`, `list`, capacity and per-project usage reports.
- Free-text details of runs and events, usage figures, CPU percentages (floating point) and the text shown for a waiting reason.
- `RunSpec::fingerprint`, the hash behind session ids and the derivation of ownership from a process snapshot: opaque values.
- Requests with an invalid argv, cwd or environment are refused before any state is touched and are not modelled.
- Log bytes as UTF-8 text: chunks stay bytes.
- Timestamps with characters outside ASCII: slices at character boundaries are not modelled.
- Casts between u64 and i64 are taken to be in range.
- Browser roll-up, classification rules, project attribution, the decision log of the attribution resolver, vendor-alias lookups and the tracing of changes.
- User interfaces, sockets, Docker and MCP framing.
