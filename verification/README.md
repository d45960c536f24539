# Verified models of OpenKAT's hardest state machines and transformations

These Dafny modules model the parts of OpenKAT (the `nl-kat-coordination` repository) whose correctness
cannot be read off one function body: the boefje worker pool, the expansion of HTML tables, the
migration of origins with the script that prepares it, the two in-place tree transformations of the
object trees, the positions of dashboard items, cloning a plugin configuration, deduplicating raw
files, limiting the scan levels a normalizer may set, and the parsers for Content-Security-Policy
headers and SOA mailbox names.

`dafny verify dfyconfig.toml` checks the whole project.

## How it is organised

| modules | what they are about |
|---|---|
| `WorkerProtocol` | scheduler, output endpoint, manager process and worker processes as one transition system: one action per pop, put, `get`, write to `handling_tasks`, API call, handler result, death, replacement and exit step |
| `WorkerInvariant`, `WorkerSteps`, `WorkerCalls`, `WorkerMainSteps` | the inductive invariant, and that each action keeps it |
| `WorkerIteration`, `WorkerHistory`, `WorkerProgress` | one iteration of the worker loop as a whole whatever its calls answer, which actions end a process, what the bookkeeping records, and when the processes can go on |
| `WorkerRuns`, `WorkerTheorems`, `WorkerStatus`, `WorkerOverwrites`, `WorkerDuplicates` | what follows for all runs: where tasks can be, what is lost, which statuses change |
| `WorkerScenarios` | concrete runs that show that the named exceptions do occur |
| `WorkerManager` | `SchedulerWorkerManager` and the worker loop as imperative code over mutable fields, each method proved to execute a run of the protocol |
| `TableLayout`, `TableExpansion`, `TableTheorems`, `TableColumns` | where `table_to_2d` puts cells, the program itself filling its matrix in place, the comparison with the layout of the HTML Living Standard, and how many columns there are |
| `OriginMigration`, `OriginScan` | the put-before-delete log of the bulk endpoint, and the paged scan that selects the origins |
| `ReferenceTrees`, `ReferencePruning`, `ReferenceNodes` | pruning trees of references: its value, its characterisation, and the mutable nodes |
| `OoiTrees`, `OoiHoisting`, `OoiNodes` | filtering object trees by type: its value, what it does to the structure, and the mutable nodes |
| `OoiLocations` | building an object tree from a reference tree: which nodes it has, and their path-like location strings |
| `DashboardPositions` | add, delete and move on a table of positions, against an abstract sequence |
| `ConfigCloning` | the stores behind the plugin service, and cloning one organisation's configuration |
| `ScanProfiles` | the scan profiles of a normalizer, lowered in place to what the whitelist allows |
| `RawUpload` | deduplicating the raw files of one request by their sets of mime types |
| `CspParser`, `CspFindings`, `SoaRname`, `LetterCase` | the two parsers, what the first of them reports, and lower case |

Where the program changes things step by step the model does so too: classes with fields, loops with
invariants, a matrix filled in place, nodes whose children are reassigned. Each such method is proved
against a function of its inputs or of the old state, and the properties are proved about that
function.

## Results where the code and its promise differ

- **Worker pool.** A popped task can be lost, that is, be neither anywhere nor finished nor given back.
  When every call succeeds, exactly those tasks are lost whose worker died between taking them and
  writing `handling_tasks`, or that were duplicates whose worker died or that shared a normalizer's
  batch (`LostIff`); they stay DISPATCHED for ever (`LeaksArePermanent`). A call that fails can add
  further ones (`LostWhileRunning`); `EveryTaskAccounted` names all three kinds. `WindowLeak` is a run
  in which tasks are lost although every call succeeds. `exit` does not clean up after workers
  that were dead before it began.
- **Final statuses.** COMPLETED and FAILED are not final. The next action can overwrite one exactly if a
  patch of that task to another status is pending (`NextOverwritesIff`): of a worker that has seen its
  head RUNNING, of a container handler that gives its task up, of the cleanup after a dead worker, or of
  the output endpoint, which checks the status, then saves to Bytes, and only then patches. Some
  continuation overwrites it exactly if such a patch is pending, or if a container handler still runs
  for a task that is not FAILED, since it may find its container broken and then does not look at the
  status (`OverwrittenIffAtRisk`, `FinalForEverIff`). `CompletedThenFailed`, `FailedThenCompleted` and
  `CompletedThenGivenUp` are runs in which it happens.
- **Tables.** A cell with both a row span and a column span is counted once by the first pass but
  takes several columns in the second, so that a later cell can be dropped
  (`MixedSpansDropACell`); after a cell with column span 0 the next of its row always is
  (`NextIsDropped`). A cell's text is shown exactly if the column that the second pass gives it is below
  the count of the first (`ShownIff`), and then in the first slot of its own row (`OwnSlotKept`). The
  comment in the code rules out columns in which no cell starts. Without column spans there are none
  (`NoPhantomColumn`); without row spans the last column is one exactly if every widest row has a column
  span of 0 before its last cell (`LastColumnIff`, `ZeroLeavesAPhantom`).
- **An exit that never ends.** `exit` takes as many batches as it has counted in the queue, with a `get`
  that blocks, while the workers still run. It gets past this exactly if no worker takes a batch in
  between (`ExitGoesOnIff`, `ExitHangs`); apart from that no process ever gets stuck (`ManagerMovesIff`,
  `WorkerMovesIff`).
- **A failing call in a worker.** An HTTPError in the copy of raw files is only logged, and the process
  goes on. It ends exactly when the copy raises something else, when the patch to RUNNING fails before the
  process has ever started timing, or when a call of the finally block fails while a fatal exception is
  pending (`EndsIff`).
- **Migration.** Nothing becomes unsupported along the way exactly for those references that an origin
  supports whose id the migration does not write to (`SafeIffNotOverwritten`); with fresh ids these are
  all.
- **Cloning.** The stated requirement that only normalizers disabled in the source end up disabled is
  met exactly if the target had no others disabled (`OnlySourceDisabledIff`). Cloning an organisation
  to itself disables all its boefjes.
- **Dashboards.** A move on an instance that was loaded before another change never breaks the
  numbering, since the database rejects the clash. A deletion can: over every run of additions,
  deletions and moves all dashboards stay numbered from 1 to n exactly if no deleted instance was
  loaded with a position that shifts all or none of the remaining items (`RunKeepsOrderIff`).
- **SOA names.** A name has given labels exactly if it spells them (`SplitIff`). Splitting inverts escaping and joining exactly for the label lists that
  `RoundTrip` names: a last label that is empty or ends in a dot is damaged by `rstrip(".")`.
- **Object tree filter.** An included node can be lost (`RepeatedIdLosesAChild`). None is, and each
  hangs under the nearest remaining node above it, exactly if for every remaining node the ids of the
  included nodes nearest below it differ from each other and from its own (`HoistsIff`).

## Assumptions

Worker pool: signals arrive only between iterations of the main loop; each API call is atomic, and a
failed one either took effect or did not (`Unanswered`, `Refused`) and raises HTTPError;
`task_queue.put` does not raise; a popped task was QUEUED and becomes DISPATCHED, a pushed one becomes
QUEUED; a new process gets a pid that no process still in the pool has, but pids may otherwise be
reused. A request of a container to the output endpoint is two actions, the check of the status and the
patch, with everything in between left to the other processes; a container handler that finds its
container broken has not looked at the status.
The manager replaces workers in the pool itself instead of building a second list. The methods of
`WorkerManager` run without interference from other processes; the interleavings are those of the
protocol.

Migration: ids are tuples of their parts instead of strings joined with bars; the order of the listing
is the same while it is paged through; Bytes has one answer for each listed origin.

Dashboards: the database enforces its unique constraint and non-negative positions when a transaction
commits, and rolls back otherwise. Trees: no node object occurs twice in a tree. Cloning: the stores
are those in memory; a failing clone stops where it is.

## Model

| member | source | states |
|---|---|---|
| WorkerMainSteps.StepInv | boefjes/boefjes/worker/manager.py:56-295 | every action of scheduler, manager or worker, whoever dies and whichever call fails, keeps the invariant: each task held once, statuses that fit what holders do, records current or stale, lost tasks leaked |
| WorkerMainSteps.RunInv | boefjes/boefjes/worker/manager.py:56-295 | hence every run keeps it |
| WorkerTheorems.ReachableInv | boefjes/boefjes/worker/manager.py:46-80 | it holds in every reachable state |
| WorkerTheorems.EveryTaskAccounted | boefjes/boefjes/worker/manager.py:164-221 | leak characterisation: in every reachable state a popped task is in the queue, in a live worker's hand, with the main process, recorded for a dead worker not yet replaced, finished or given back, or one of the named exceptions |
| WorkerTheorems.NothingInFlightAfterExit | boefjes/boefjes/worker/manager.py:186-221 | after `exit` the only other leftovers are recorded for workers that it did not kill, being dead already |
| WorkerTheorems.LostIff | boefjes/boefjes/worker/manager.py:239-295 | in every run whose calls succeed, with or without deduplication, a popped task is nowhere, unfinished and not given back exactly if it is unrecorded or an orphaned duplicate |
| WorkerTheorems.OnlyTheWindowLeaks | boefjes/boefjes/worker/manager.py:239-265 | with deduplication off exactly the tasks are lost whose worker died between `get` and the `handling_tasks` write |
| WorkerTheorems.LeaksArePermanent | boefjes/boefjes/worker/manager.py:164-181 | an unrecorded or orphaned task stays DISPATCHED in every continuation, held and recorded by nobody |
| WorkerTheorems.ExclusiveOwnership | boefjes/boefjes/worker/manager.py:98-106 | in every reachable state a task is in at most one place |
| WorkerStatus.WhoChanges | boefjes/boefjes/worker/manager.py:171-181 | a terminal status is changed only by a worker whose patch of that head is pending, by the cleanup that is failing that task, or by the output endpoint's pending patch |
| WorkerStatus.NextOverwritesIff | boefjes/boefjes/api.py:78-107 | the next action can change a terminal status exactly if a patch of that task to another status is pending, be it of a worker, a container handler, the cleanup or the output endpoint |
| WorkerOverwrites.OverwrittenIffAtRisk | boefjes/boefjes/job_handler.py:83-115 | some continuation changes a terminal status exactly if such a patch is pending or a container handler still runs for the task and it is not FAILED |
| WorkerOverwrites.FinalForEverIff | boefjes/boefjes/job_handler.py:83-115 | in every run from the start a COMPLETED or FAILED task keeps its status in all continuations exactly if neither is so |
| WorkerStatus.NoRaceStep | boefjes/boefjes/job_handler.py:83-112 | pending patches concern unfinished tasks, and stay so in every step that neither finishes a task while another patch of it is pending nor gives up a task that is not running |
| WorkerStatus.FinalStatusStays | boefjes/boefjes/worker/manager.py:257-265 | a condition on the run itself: COMPLETED and FAILED are final over all runs of such steps from the start, despite stale records, reused pids, late requests of containers and failing calls |
| WorkerDuplicates.CompletionIsEarned | boefjes/boefjes/worker/manager.py:267-291 | a worker marks a duplicate COMPLETED only if, for that batch, the handler returned a value and then the raw-file copy returned |
| WorkerDuplicates.EveryDuplicateRequeued | boefjes/boefjes/worker/manager.py:271-280 | when the handler raised or returned None, every duplicate is queued again in any run in which the worker survives and calls succeed |
| WorkerDuplicates.QueueBound | boefjes/boefjes/worker/manager.py:56-66 | the local queue holds at most the pool size plus the batches of one pop, and the pool keeps its size |
| WorkerIteration.EndsIff | boefjes/boefjes/worker/manager.py:239-295 | a worker's own action takes it from alive to dead exactly if it is a copy that raises something else than an HTTPError, a failing patch to RUNNING before the process has started timing, or a failing call of the finally block with a fatal exception pending |
| WorkerIteration.CopyErrorWaits | boefjes/boefjes/worker/manager.py:279-293 | after an HTTPError in the copy the worker waits for its next batch, and no status has changed |
| WorkerHistory.PoppedIff | boefjes/boefjes/worker/manager.py:87-99 | over every run the popped tasks are exactly those that some pop dispatched, also one whose answer got lost |
| WorkerHistory.UnrecordedIff | boefjes/boefjes/worker/manager.py:239-245 | a task becomes unrecorded exactly as the head of a batch whose worker dies between taking and recording it |
| WorkerHistory.AbandonedIff | boefjes/boefjes/worker/manager.py:164-293 | in every reachable state exactly the tasks that a failing call was about become abandoned |
| WorkerHistory.TimedIff | boefjes/boefjes/worker/manager.py:247-258 | whether a process has started timing: it has once a patch to RUNNING succeeded in it, and a new process has not |
| WorkerProgress.ManagerMovesIff | boefjes/boefjes/worker/manager.py:56-221 | in every reachable state the main process can go on, unless it has exited or `exit` waits for a batch that is no longer in the queue |
| WorkerProgress.AsksIff | boefjes/boefjes/worker/manager.py:58-66 | after looking at the pool it asks for tasks exactly if the queue has at most one batch for each worker, and rests otherwise |
| WorkerProgress.WorkerMovesIff | boefjes/boefjes/worker/manager.py:239-295 | in every reachable state a living worker can go on, unless it waits and the queue is empty |
| WorkerProgress.MissingGrowsIff | boefjes/boefjes/worker/manager.py:191-192 | while `exit` empties the queue it misses one batch more exactly when a worker takes one |
| WorkerProgress.ExitGoesOnIff | boefjes/boefjes/worker/manager.py:191-199 | while it empties the queue, some continuation gets past that exactly if no batch is missing |
| WorkerProgress.ExitNeverEnds | boefjes/boefjes/worker/manager.py:191-192 | with a batch missing none does, whatever happens |
| WorkerScenarios.WindowLeak | boefjes/boefjes/worker/manager.py:240-245 | a run, all calls succeeding, after which two popped tasks are lost whatever follows |
| WorkerScenarios.LostWhileRunning | boefjes/boefjes/worker/manager.py:258-265 | a run in which a failing call leaves the head of a batch lost and RUNNING |
| WorkerScenarios.CompletedThenFailed | boefjes/boefjes/worker/manager.py:260-262 | a run in which a task goes from COMPLETED to FAILED |
| WorkerScenarios.FailedThenCompleted | boefjes/boefjes/api.py:75-107 | a run in which the cleanup fails a dead worker's task and the output endpoint then makes it COMPLETED |
| WorkerScenarios.CompletedThenGivenUp | boefjes/boefjes/job_handler.py:98-115 | a run after which a task is COMPLETED and no next action can change that, yet two actions later its handler has made it FAILED |
| WorkerScenarios.DuplicateOutdoesHead | boefjes/boefjes/job_handler.py:110-117 | a run that ends with the head FAILED by its own handler, which returns a value, and its duplicate COMPLETED |
| WorkerScenarios.ExitSkipsTheDead | boefjes/boefjes/worker/manager.py:203-214 | a run in which `exit` leaves a dead worker's task RUNNING |
| WorkerScenarios.ExitHangs | boefjes/boefjes/worker/manager.py:191-192 | a run, all calls succeeding, after which `exit` waits for ever |
| WorkerManager.SchedulerWorkerManager.constructor | boefjes/boefjes/worker/manager.py:23-51 | a new pool is an initial state of the protocol |
| WorkerManager.SchedulerWorkerManager.CleanupPendingWorkerTask | boefjes/boefjes/worker/manager.py:164-181 | the cleanup is a run of the protocol and touches no status but that of the recorded task, and that only from DISPATCHED or RUNNING to FAILED |
| WorkerManager.SchedulerWorkerManager.ReplaceBrokenWorkers | boefjes/boefjes/worker/manager.py:127-162 | afterwards the pool has its size and every worker is alive: those that were alive are the same, the others are new processes that have not started timing |
| WorkerManager.SchedulerWorkerManager.RunOnce | boefjes/boefjes/worker/manager.py:56-66 | one iteration of the main loop replaces dead workers and asks for tasks only if the queue has at most one batch for each worker; with deduplication the tasks form one batch, otherwise each its own |
| WorkerManager.SchedulerWorkerManager.FillQueue | boefjes/boefjes/worker/manager.py:82-107 | the queue grows by exactly the popped tasks in order, which were QUEUED and are DISPATCHED |
| WorkerManager.SchedulerWorkerManager.GiveBack | boefjes/boefjes/worker/manager.py:191-199 | the queue is emptied, and every task that was in it is QUEUED unless its push failed; those are tasks of the queue that count as abandoned |
| WorkerManager.SchedulerWorkerManager.KillAll | boefjes/boefjes/worker/manager.py:201-209 | exactly the workers that were alive are killed |
| WorkerManager.SchedulerWorkerManager.Exit | boefjes/boefjes/worker/manager.py:186-221 | `exit` is a run of the protocol that ends with an empty queue and no process, leaves the workers that were dead as they were, and the queue's tasks QUEUED unless their push failed |
| WorkerManager.SchedulerWorkerManager.TakeAndStart | boefjes/boefjes/worker/manager.py:239-249 | a worker takes the first batch, records its head and sets it RUNNING |
| WorkerManager.SchedulerWorkerManager.HandleAndReport | boefjes/boefjes/worker/manager.py:250-265 | the head gets the handler's status exactly if it is still RUNNING |
| WorkerManager.SchedulerWorkerManager.RunContainer | boefjes/boefjes/job_handler.py:49-117 | the container handler is a run of the protocol; it patches the task to FAILED exactly if the container ended without finishing it, or broke without storing its output, and saving to Bytes returned; and when it raises and when it returns a value |
| WorkerManager.SchedulerWorkerManager.SettleDuplicates | boefjes/boefjes/worker/manager.py:267-291 | all duplicates are queued again or completed together |
| WorkerManager.SchedulerWorkerManager.HandleNext | boefjes/boefjes/worker/manager.py:239-295 | one whole iteration of the worker loop is a run of the protocol, with its effect on queue, workers and statuses |
| WorkerManager.SchedulerWorkerManager.TakeAnyway | boefjes/boefjes/worker/manager.py:239-258 | when the patch to RUNNING fails, a process in its first iteration ends with its head recorded, and any other goes on to the finally block with the head counted as failed |
| WorkerManager.SchedulerWorkerManager.FinishDuplicates | boefjes/boefjes/worker/manager.py:271-293 | the process ends exactly if the copy raises something else than an HTTPError or a patch fails with a fatal exception pending; the duplicates up to the first failing patch get the status, and none COMPLETED when they are to be queued |
| WorkerManager.SchedulerWorkerManager.HandleNextAnyway | boefjes/boefjes/worker/manager.py:239-295 | whatever the calls answer, an iteration is a run of the protocol with exactly the statuses and the ending that `Iteration` gives; only its batch changes status, a normalizer's duplicates do not, and without output no duplicate is completed |
| TableExpansion.CountColumns | rocky/tools/add_ooi_information.py:84-103 | the first pass computes the column count of the layout |
| TableExpansion.SkipPending | rocky/tools/add_ooi_information.py:119-121 | the skip loop terminates, at the first column with nothing pending |
| TableExpansion.FillCell | rocky/tools/add_ooi_information.py:123-136 | one cell writes its text to exactly the slots of its spans inside the matrix, and records its span in each of its columns |
| TableExpansion.TableTo2D | rocky/tools/add_ooi_information.py:83-140 | for every table the matrix filled in place is the one that the layout defines |
| TableTheorems.EntryIsLastCover | rocky/tools/add_ooi_information.py:112-140 | for every table a slot is None exactly if no cell covers it, and else holds the text of the last cell in document order that does |
| TableTheorems.CoverIsUnique | rocky/tools/add_ooi_information.py:112-140 | without column spans at most one cell covers a slot: nothing is overwritten |
| TableTheorems.NoCellDropped | rocky/tools/add_ooi_information.py:88-103 | the list of the first pass and the map of the second agree: every cell gets a column below the count when none spans both rows and columns and only last cells reach to the last column |
| TableTheorems.ShownIff | rocky/tools/add_ooi_information.py:130-136 | in every table, a cell is the last to cover some slot of the matrix exactly if its column is below the count, that is, if writing its first slot raises no IndexError |
| TableTheorems.ShownText | rocky/tools/add_ooi_information.py:130-136 | and such a slot ends up with its text |
| TableTheorems.OwnSlotKept | rocky/tools/add_ooi_information.py:123-136 | in particular the first slot of its own row |
| TableTheorems.NextIsDropped | rocky/tools/add_ooi_information.py:125-125 | in every table, the cell after one with column span 0 covers no slot of the matrix |
| TableTheorems.NoTextDropped | rocky/tools/add_ooi_information.py:83-140 | hence the text of every cell is found when the two passes agree |
| TableTheorems.NothingLost | rocky/tools/add_ooi_information.py:83-140 | without column spans each cell's text stands in its own column in every row it spans, also with row span 0 |
| TableTheorems.NothingInvented | rocky/tools/add_ooi_information.py:83-140 | and every text in the matrix comes from a cell that spans that slot |
| TableColumns.NoPhantomColumn | rocky/tools/add_ooi_information.py:92-100 | without column spans the columns are exactly those in which some cell starts: no cell is dropped and no column is a phantom |
| TableColumns.SomeRowIsFull | rocky/tools/add_ooi_information.py:92-100 | in such a table with columns at all, some row of the matrix has a text in every column |
| TableColumns.HoldsItsColumn | rocky/tools/add_ooi_information.py:123-138 | without column spans a cell's text stands in its column from its own row for as many rows as it says, to the bottom for a row span of 0, and the cell is shown nowhere else in that column |
| TableColumns.LastColumnIff | rocky/tools/add_ooi_information.py:92-100 | without row spans a cell starts in the last column exactly if some widest row has no column span of 0 before its last cell |
| TableColumns.NoPhantomInRows | rocky/tools/add_ooi_information.py:92-100 | in particular whenever only last cells have a column span of 0 |
| TableColumns.ZeroLeavesAPhantom | rocky/tools/add_ooi_information.py:96-100 | a row whose first cell has column span 0 leaves a last column in which no cell starts |
| TableTheorems.ColumnsAreALayout | rocky/tools/add_ooi_information.py:114-138 | the columns follow the algorithm for forming a table, section 4.9.12.1 of the HTML Living Standard: left to right, each in the first column not blocked from above |
| TableTheorems.LayoutIsUnique | rocky/tools/add_ooi_information.py:114-138 | and they are the only columns that do |
| TableTheorems.MixedSpansDropACell | rocky/tools/add_ooi_information.py:98-103 | a table with a cell that spans rows and columns, in which another cell's text appears nowhere |
| OriginMigration.SerializeKeeps | octopoes/octopoes/models/origin.py:26-39 | storing an origin keeps its id and its set of results |
| OriginMigration.SerializedInOrder | octopoes/octopoes/repositories/origin_repository.py:58-64 | the stored document has each result once, at its first appearance and in order, and everything else of the origin as it was |
| OriginMigration.SameIdIff | octopoes/octopoes/models/origin.py:32-39 | two origins have the same id exactly if type, normalizer, source method and source agree |
| OriginMigration.MigrateOrigins | octopoes/octopoes/api/router.py:589-605 | the request is accepted exactly if all origins have a source method; then the whole log is committed, else nothing |
| OriginMigration.LogMoves | octopoes/octopoes/api/router.py:594-605 | the log moves exactly the given origins to their new ids and leaves the rest |
| OriginMigration.RenamesExactly | octopoes/octopoes/api/router.py:594-605 | with fresh ids the final store is the old one with the migrated ids renamed: results unchanged, none merged, none added |
| OriginMigration.SafeIffNotOverwritten | octopoes/octopoes/api/router.py:594-605 | a reference is supported after every prefix of the log exactly if it has a supporter whose id is not written to |
| OriginMigration.FreshIdsAreSafe | octopoes/octopoes/api/router.py:605-605 | with fresh ids every supported reference stays supported after every prefix |
| OriginMigration.DeleteFirstMoves | octopoes/octopoes/api/router.py:605-605 | deleting before putting would end in the same store |
| OriginMigration.DeletingFirstIsUnsafe | octopoes/octopoes/api/router.py:605-605 | but a reference with a single supporter would be unsupported on the way |
| OriginScan.VerdictIff | boefjes/tools/upgrade_v1_17_0.py:110-146 | each verdict is given exactly when due: skipped, unknown at 404, failed at another status, crashed at any other exception |
| OriginScan.JudgeRecord | boefjes/tools/upgrade_v1_17_0.py:110-148 | one origin is skipped, given a source method in place, not found, failed or a crash, each exactly when due |
| OriginScan.JudgePage | boefjes/tools/upgrade_v1_17_0.py:110-148 | one page extends the selection and the count of failures by exactly those of its origins, or stops exactly at an origin that needs an answer and gets an exception other than an HTTP status |
| OriginScan.MigrateOrganisation | boefjes/tools/upgrade_v1_17_0.py:97-159 | the scan terminates for every listing; it crashes exactly if Bytes is unreachable for an origin that needs its answer, and then the store is left alone; otherwise `failed` is the number of such origins with a status other than 404, and exactly the selection is handed over in one bulk migration that is never refused |
| OriginScan.SelectedExactly | boefjes/tools/upgrade_v1_17_0.py:110-122 | the selection is, once each and in order, every non-inference origin without a source method for which one is found, changed in that field only |
| OriginScan.SelectedIsListed | boefjes/tools/upgrade_v1_17_0.py:105-107 | for the listing of a store the selection meets what the migration theorems require |
| OriginScan.SecondRunSkipsTheMigrated | boefjes/tools/upgrade_v1_17_0.py:39-42 | whatever Bytes answers later, a second run selects none of the migrated origins |
| OriginScan.SecondRunSelectsNothing | boefjes/tools/upgrade_v1_17_0.py:39-42 | with the same answers a second run selects nothing: the script is idempotent |
| ReferenceTrees.KeepsIffMatch | octopoes/octopoes/models/tree.py:15-26 | the answer tells whether some node at or below is accepted |
| ReferenceTrees.SurvivorsAreMatched | octopoes/octopoes/models/tree.py:15-26 | below the root exactly the nodes with an accepted node at or below them survive, in order |
| ReferenceTrees.CollectAfterPrune | octopoes/octopoes/models/tree.py:28-36 | the references collected after filtering are the root and those on the way from it to an accepted node |
| ReferencePruning.PruneIsLargest | octopoes/octopoes/models/tree.py:15-26 | filtering gives the largest tree with the same root in which every leaf below the root is accepted |
| ReferencePruning.FixedIffJustified | octopoes/octopoes/models/tree.py:15-26 | it leaves a tree alone exactly if it is such a tree |
| ReferencePruning.PruneIdempotent | octopoes/octopoes/models/tree.py:15-26 | filtering again changes nothing, nor the answer |
| ReferenceNodes.ReferenceNode.FilterChildren | octopoes/octopoes/models/tree.py:15-26 | the method that reassigns the children in place does to the nodes what pruning does to their values |
| ReferenceNodes.ReferenceNode.CollectReferences | octopoes/octopoes/models/tree.py:28-36 | the nested loops collect the references of the tree |
| OoiTrees.FixedIffClean | rocky/tools/ooi_helpers.py:181-218 | a filtered tree has no excluded node below the root and sibling ids that differ from each other and from the parent's; trees like that, and no others, are left alone |
| OoiTrees.OnlyWantedRemain | rocky/tools/ooi_helpers.py:193-201 | below the root no node of a hidden type remains, and if there are types to show only nodes of those |
| OoiTrees.FilterIdempotent | rocky/tools/ooi_helpers.py:181-218 | filtering twice is filtering once, for all trees and filters |
| OoiHoisting.HoistsIff | rocky/tools/ooi_helpers.py:190-218 | the included nodes all stay in order, each under the nearest one above it that stays, exactly if there is no filter or the ids that meet under each remaining node differ |
| OoiHoisting.PreorderIff | rocky/tools/ooi_helpers.py:190-218 | under the same condition and no other, the preorder is the root and the preorder of the rest restricted to included types |
| OoiHoisting.FilterHoists | rocky/tools/ooi_helpers.py:190-218 | in particular when no id occurs twice in the tree |
| OoiHoisting.RepeatedIdLosesAChild | rocky/tools/ooi_helpers.py:206-212 | with repeated ids an included node can disappear |
| OoiNodes.OoiNode.FilterItem | rocky/tools/ooi_helpers.py:190-218 | the in-place rewriting gives the nodes of the filtered values, sharing nothing |
| OoiNodes.DedupeNodes | rocky/tools/ooi_helpers.py:206-212 | the loop keeps the first node of each id and drops the parent's id |
| OoiNodes.FilterOoiTree | rocky/tools/ooi_helpers.py:181-187 | what comes back is the given root object with its tree filtered |
| OoiLocations.CreateItem | rocky/tools/ooi_helpers.py:126-165 | the builder gives the tree of shown nodes, or fails exactly if an object it looks up is not in the store |
| OoiLocations.CreateObjectTree | rocky/tools/ooi_helpers.py:126-165 | with its defaults the builder gives the tree that depicts the reference tree, each node with a location of its own, or fails exactly if the store lacks an object of that tree |
| OoiLocations.ItemDepicts | rocky/tools/ooi_helpers.py:147-161 | the item of a node has its reference, and as children, in the order of relations and nodes, the items of exactly the child nodes that can be traversed and differ from the node itself |
| OoiLocations.StoredIff | rocky/tools/ooi_helpers.py:137-137 | an object is looked up exactly for the nodes of the built tree |
| OoiLocations.LocationsAreFaithful | rocky/tools/ooi_helpers.py:134-135 | for every tree the root is at "loc-1", different nodes get different location strings, and each node's depth is the number of numbers in its location |
| OoiLocations.ParentIsAbove | rocky/tools/ooi_helpers.py:134-159 | children are numbered from 1 on, and taking the last part away gives the parent's location |
| DashboardPositions.DashboardItems.MaxPosition | rocky/crisis_room/models.py:159-167 | the maximum of the positions on a dashboard, 0 if it has none |
| DashboardPositions.DashboardItems.Add | rocky/crisis_room/models.py:163-171 | a new item gets the position after the highest, or is refused beyond 16 |
| DashboardPositions.DashboardItems.UpdatePosition | rocky/crisis_room/models.py:129-154 | a move gives the rows of the move function, and never rows that the database rejects |
| DashboardPositions.DashboardItems.Delete | rocky/crisis_room/models.py:174-186 | a deletion shifts the later items or is rolled back |
| DashboardPositions.PositionsAreExact | rocky/crisis_room/models.py:32-33 | the positions on a dashboard are exactly 1 to n, each taken once |
| DashboardPositions.AddAppends | rocky/crisis_room/models.py:163-171 | adding appends to the sequence and is refused exactly if it has 16 items |
| DashboardPositions.MoveSwaps | rocky/crisis_room/models.py:129-154 | a move swaps neighbours or does nothing at the ends, and nothing at all with an outdated position |
| DashboardPositions.MoveStaysInRange | rocky/crisis_room/models.py:129-151 | whatever is in the table, nothing moves out of the positions 1 to 16 or without an item at both places |
| DashboardPositions.DeleteRemoves | rocky/crisis_room/models.py:174-186 | deleting keeps the order of the other items |
| DashboardPositions.DeleteKeepsOrderIff | rocky/crisis_room/models.py:179-183 | whatever position the deleted instance has, the numbering survives exactly if it does not shift all or none of the others |
| DashboardPositions.OthersUntouched | rocky/crisis_room/models.py:160-183 | adding, deleting and moving items leaves the sequences of the other dashboards alone |
| DashboardPositions.StepKeepsOrderIff | rocky/crisis_room/models.py:129-183 | one operation, whatever position its instance was loaded with, keeps every dashboard numbered 1 to n exactly if it is no such deletion |
| DashboardPositions.RunKeepsOrderIff | rocky/crisis_room/models.py:129-183 | over every run of additions, deletions and moves the positions on every dashboard are exactly 1 to n, n up to 16, exactly if no deletion is of that kind |
| DashboardPositions.FreshRunInOrder | rocky/crisis_room/models.py:129-183 | hence always when deleted instances have their current positions |
| DashboardPositions.FreshFromEmpty | rocky/crisis_room/models.py:129-183 | and so in every such run from the empty table on |
| DashboardPositions.TableFollows | rocky/crisis_room/models.py:129-183 | over every such run the table follows the abstract sequence of each dashboard: additions append, deletions remove, moves swap neighbours |
| DashboardPositions.EveryOrderIsReachable | rocky/crisis_room/models.py:129-154 | moves of the table lead from any order of a dashboard's items to any other |
| ConfigCloning.ConfigStorageMemory.Upsert | boefjes/boefjes/storage/memory.py:99-112 | an upsert changes one plugin's settings or state of one organisation and nothing else |
| ConfigCloning.PluginService.SetEnabledById | boefjes/boefjes/dependencies/plugins.py:209-217 | it succeeds exactly for known plugins and sets that state |
| ConfigCloning.PluginService.UpsertSettings | boefjes/boefjes/dependencies/plugins.py:112-116 | it succeeds exactly for settings that match the schema of a known boefje |
| ConfigCloning.PluginService.CatalogIff | boefjes/boefjes/dependencies/plugins.py:55-61 | which settings a clone copies: those of local boefjes, and of boefjes in the database that are neither local nor normalizers there |
| ConfigCloning.IsNormalizerIff | boefjes/boefjes/storage/memory.py:127-148 | a plugin counts as a normalizer exactly if its id has "norm" in it |
| ConfigCloning.PluginService.CopySettings | boefjes/boefjes/dependencies/plugins.py:98-103 | all non-empty settings of boefjes are copied if they all match their schema |
| ConfigCloning.PluginService.CloneSettingsToOrganisation | boefjes/boefjes/dependencies/plugins.py:88-110 | exactly when a clone to another organisation succeeds, and the target's states and settings afterwards; a failing one changes only states that a clone concerns and copies only settings of the source; everything stored for other organisations is untouched |
| ConfigCloning.SameBoefjes | boefjes/boefjes/dependencies/plugins.py:105-107 | the target's enabled boefjes become those of the source |
| ConfigCloning.DisabledOfBoth | boefjes/boefjes/dependencies/plugins.py:94-110 | its disabled normalizers become those of both |
| ConfigCloning.OnlySourceDisabledIff | boefjes/boefjes/dependencies/plugins.py:89-90 | the stated requirement on normalizers is met exactly if the target had no others disabled |
| ConfigCloning.StaysDisabled | boefjes/boefjes/dependencies/plugins.py:94-95 | a target that does not meet it |
| ConfigCloning.CloneIdempotent | boefjes/boefjes/dependencies/plugins.py:88-110 | cloning again changes no state, and concerns no other plugins than the first clone |
| ConfigCloning.CopyIdempotent | boefjes/boefjes/dependencies/plugins.py:98-103 | copying again changes no settings |
| ConfigCloning.PluginService.CloneTwice | boefjes/boefjes/dependencies/plugins.py:88-110 | when a clone succeeds a second one does too, with the same states and settings |
| ConfigCloning.EnabledAfterClone | boefjes/boefjes/dependencies/plugins.py:43-53 | as listed, with defaults: boefjes as in the source, normalizers enabled if they were in both |
| ScanProfiles.NormalizerHandler.SaveScanProfiles | boefjes/boefjes/job_handler.py:215-232 | the unfiltered list is saved exactly if it is not empty and the whitelist has the normalizer, with every level lowered to what the whitelist allows and none raised |
| ScanProfiles.NormalizerHandler.Validate | boefjes/boefjes/job_handler.py:222-226 | what passes the filter are exactly the profiles within the limit of a listed normalizer, and all of the list when all are |
| RawUpload.CreateRaw | bytes/bytes/api/router.py:164-213 | an upload stores the new files before the first that cannot be stored; the answer is the ids, a bad request if that file repeats a new set, and a server error otherwise |
| RawUpload.StoredAtTheEnd | bytes/bytes/api/router.py:194-196 | what was stored before is kept |
| RawUpload.EveryFileIsStored | bytes/bytes/api/router.py:175-213 | an accepted upload with unique names maps each name to a raw file whose mime types are exactly that file's tags |
| RawUpload.StoredFrom | bytes/bytes/api/router.py:181-204 | the new raw files are, in order, exactly those of the files that are neither known nor repeated and are saved, with id, set and content |
| RawUpload.IdOfIsKnown | bytes/bytes/api/router.py:181-184 | a known set gets the id of the first raw file that has it |
| RawUpload.PassesIff | bytes/bytes/api/router.py:175-206 | a file gets an id exactly if its set is known, or else is not repeated and the file is saved and announced |
| RawUpload.StoredSetsDiffer | bytes/bytes/api/router.py:181-191 | the new sets differ from each other and from those preloaded, also when the upload stops early |
| RawUpload.RejectedIffRepeated | bytes/bytes/api/router.py:188-191 | when storing never fails, it is rejected exactly if a set occurs twice and was not preloaded, at the first repetition |
| CspParser.ParseDirectives | octopoes/bits/parse_csp/parse_csp.py:27-44 | the loop yields the objects of the parsed directives and the problems, in order |
| CspParser.Run | octopoes/bits/parse_csp/parse_csp.py:9-55 | all that the bit yields for a header whose key is that of the policy up to the case of ASCII letters, and nothing for other keys |
| CspParser.StripKeepsTokens | octopoes/bits/parse_csp/parse_csp.py:23-31 | stripping a directive loses no token and leaves nothing exactly of one without tokens |
| CspParser.ParseIsWellFormed | octopoes/bits/parse_csp/parse_csp.py:31-39 | parsed names are distinct, non-empty and without capitals, and no name or source has a separator |
| CspParser.FirstOccurrenceWins | octopoes/bits/parse_csp/parse_csp.py:31-38 | the directives are exactly the first occurrences of the names, in order, with their sources; a name is its token with each capital replaced by its small form and nothing else changed |
| CspParser.SerialiseRoundTrip | octopoes/bits/parse_csp/parse_csp.py:20-47 | writing out well-formed directives and parsing them gives them back |
| CspParser.NormalForm | octopoes/bits/parse_csp/parse_csp.py:20-47 | parsing what a parsed header is written out to gives the same directives, for every header |
| CspFindings.JoinPieces | octopoes/bits/parse_csp/parse_csp.py:20-20 | the pieces have no semicolon, and joined by semicolons they are the header again |
| CspFindings.ObjectsTellAll | octopoes/bits/parse_csp/parse_csp.py:40-47 | from the yielded objects the directives can be read back, in order and with their sources |
| CspFindings.ProblemsInOrder | octopoes/bits/parse_csp/parse_csp.py:35-44 | in the order of the header, exactly the repetitions of a name and the first occurrences without a value are reported |
| CspFindings.EmptyIff | octopoes/bits/parse_csp/parse_csp.py:23-25 | a header without a directive has that as its only finding, and no other header has it |
| CspFindings.NoFindingsIff | octopoes/bits/parse_csp/parse_csp.py:23-55 | no finding exactly if there is a directive, every directive has a value and no name repeats |
| SoaRname.SplitSoaRname | octopoes/bits/email_from_soa/email_from_soa.py:11-29 | the character loop splits a name into its labels as its escapes define them |
| SoaRname.SplitIff | octopoes/bits/email_from_soa/email_from_soa.py:11-29 | for every name and list of labels: the name has these labels exactly if, without the dots at its end, it is made of ways to write them with dots between, and perhaps a lone backslash at the end |
| SoaRname.StripDotsIff | octopoes/bits/email_from_soa/email_from_soa.py:16-16 | what counts is the name without the dots at its end |
| SoaRname.RoundTrip | octopoes/bits/email_from_soa/email_from_soa.py:11-29 | escaping, joining, appending dots and splitting gives the labels back exactly if they are recoverable |
| SoaRname.DotAtTheEndIsLost | octopoes/bits/email_from_soa/email_from_soa.py:16-16 | what becomes of a last label that ends in a dot |
| SoaRname.EmptyLastIsLost | octopoes/bits/email_from_soa/email_from_soa.py:16-16 | an empty last label is dropped |
| SoaRname.AddressRecovered | octopoes/bits/email_from_soa/email_from_soa.py:32-52 | up to the case of ASCII letters, the e-mail address has the first label as local part and the rest as domain exactly if the first label has no at sign |
| SoaRname.NoAddressIff | octopoes/bits/email_from_soa/email_from_soa.py:32-35 | a name gives no address exactly if it has fewer than two labels |

## Left out

- TableTheorems.NoCellDropped: states a sufficient condition on the spans alone, and NoTextDropped with it; a table with a cell that spans both rows and columns may still keep all cells, depending on the rows around it. The exact condition for each cell is ShownIff.
- TableColumns.NoPhantomColumn: is about tables without column spans, and LastColumnIff about those without row spans; for tables with both, when the last column is a phantom is not stated.
- ConfigCloning.PluginService.CloneSettingsToOrganisation: does not say how far a failing clone gets, since the order in which it visits plugins is open.
- WorkerManager.SchedulerWorkerManager.HandleNext: gives the exact effect of an iteration whose calls all succeed; with failing calls HandleNextAnyway applies, and a process killed half-way is part of the protocol only.
- WorkerStatus.FinalStatusStays: is about runs without overlapping final patches, and sufficient only; the exact condition on a state is OverwrittenIffAtRisk.
- Negative spans and attributes that are no numbers, in tables.
- The fatal-exception path of `_fill_queue` around `task_queue.put`, hydration of popped tasks, why a container breaks, and signals inside an iteration of the main loop.
- Exceptions other than HTTPError in `_cleanup_pending_worker_task`, and closed process objects.
- The health check before the scan, and the loop over organisations around it, which only adds up.
- How ids are joined into strings, and whether a part could contain the separator.
- `tree_meta` beyond depth and location, the knowledge base and the other fields of tree items.
- Decimal escapes in SOA names, which the code does not know either, and letter case outside ASCII, in both parsers.
- Cascading deletion of a dashboard, edits of positions elsewhere, unique names of items, and two transactions that overlap.
- SQL storage of plugin configuration; settings are values, so sharing one dictionary between organisations is not captured.
- What Bytes preloads for a boefje run: the filter may give less than there is, so nothing is claimed across uploads.
- HTTP, RabbitMQ, Celery, Docker, XTDB, views and forms, the other bits, and the Mula and Octopoes services.
