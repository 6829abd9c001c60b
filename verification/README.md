# Verified model of the ledger's stock, migration and closing workflows

This project models, in Dafny, the parts of the accounting server and its command-line client in which several
decisions or several stores have to fit together, and proves what they keep. `dafny verify dfyconfig.toml` checks it.

Code that works by changing things step by step is modelled by methods with loops, over classes where the original
updates an object or a store. Each such method is tied to a function of its inputs or of the old state, and the laws
are proved about that function.

## Order stock

`StockServices` holds the two stores: inventory levels per product and warehouse, and the reservations recorded for
orders. A call can be refused or meet an outage; each request carries the outages it will meet (`Fault`).
`StockCheck`, `StockReservation` and `PickList` are the three handlers: a stock check that hands out what is available
line by line, a reserve or release of the order's demand per product in both stores, with a compensating call when a
reserve fails half-way, and a pick list that hands out what is reserved. The laws:

- the check is a greedy single pass, yet its verdict and its shortages per product are those of the totals
  (`StockCheckLaws`); what the reservation aggregates is exactly the demand (`AggregateLaws`);
- in one request both stores move alike, except for one call at most, and exactly when that call is lost
  (`StockReservationLaws`); over any run of requests, whatever fails, the stores drift apart by exactly those losses
  (`OrderStockRuns`);
- an order that is found ready can be reserved, a reserved order can be picked in full, and a release undoes a
  reserve, also after other orders' requests (`OrderStockFlow`, `PickListLaws`);
- every line of a check or a pick list has a closed form, checking all warehouses is checking one that holds all stock,
  a successful request reports each product's whole demand and final level, and every refusal and error has its own
  exact reason (`OrderStockAnswers`).

A release that inventory accepts and the order's store then loses is not compensated by the code. The model keeps
this, and `StoresPartExactlyWhen` says so exactly.

## Schema migrations

`MigrationFiles` is the listing, sorting and naming of files; `MigrationRunner` the up and down runs, with a failure
possible at any script, record or commit. `MigrationRunnerLaws` shows that over any sequence of runs the database
stays at a prefix of the versions. Two promises hold only conditionally, and the exact conditions are proved: up and
down files are listed in the same version order exactly when every two versions are ordered alike by both suffixes
(version names with dots need not be), and an up run followed by a down run with the same step count restores the
start exactly when `Cancels` holds. A step count of 0 means "all" on the way up and "one" on the way down. All that is
asked of the scripts is that each down script, run on what the migrations up to its own have made, gives back what was
there before; `RunsKeepTogetherExactlyWhen` shows that nothing less would do. `MigrationRunnerSuccess` says exactly when
a run reports success, with any step count, and where it stops when it does not.

## Data migration execution

`CutoverRun` is the execution run as an object, and `CutoverRunLaws` what its summary tells; `MigrationPlan` makes
plans; `BundleFiles` looks files up; `MigrationServer` is the server's loop, with its saved snapshots and imports as a
journal of events, and `MigrationClient` the command-line client's. An attempt may end after any event, also between
an import and the save that would record it; the next one resumes from the last saved snapshot. `MigrationResume` and
`MigrationProgress` prove what holds under any such schedule, `MigrationAnswers` which answer a request gets,
`MigrationStatus` what the saved status tells a watcher, and `RunStream` what the event stream shows of it.
`MigrationClientEndings` says where and how the client ends.

Client and server differ in one case: for a step whose file is missing the client stops, while the server imports an
empty file. `ClientAgreesExactlyWhen` gives the condition on plan, files and previous run under which they do the same.

## Journal, year end, reconciliation, spreadsheets

`JournalLock` models drafting, posting and voiding journal entries and importing opening balances behind the period
lock. The API documentation says that voiding creates a reversal entry (docs/API.md:1037). In the code, the voided
entry no longer counts, because balances add posted entries only, and the reversal, dated on the day of the void, is
posted as well; so from that day on the entry is subtracted twice. The model follows the code:
`VoidCancelsExactlyWhen` gives the exact condition under which a void cancels its entry. The lock checks the entry's
own date, not the date of the reversal; `VoidKeepsLockExactlyWhen` and `LockedBalancesMoveOnlyByVoids` say what this
means for balances as of locked days. The trial balance adds amounts as entered, while entries are balanced in the base
currency: an accepted entry can unbalance the trial balance (`TrialCanBeUnbalanced`), and `TrialKeptExactlyWhen` gives
the exact condition under which a request does not. `JournalAcceptance` says in the requests' own terms which of them
are accepted and on which day they count.

`YearEndReview` is the review of inventory costing and what it does to carry-forward readiness, `ReconciliationGate`
the evidence that completing a bank reconciliation requires, and `CellRefs` the cell references of exported
worksheets, in the form that ECMA-376 Part 1, section 18.18.7 gives them.

Quantities and amounts are reals; days are day numbers; what a clock, the network or a database may answer is a
parameter.

## Model

| member | source | states |
|---|---|---|
| `StockServices.InventoryService.ReserveStock` | internal/inventory/service.go:1882-1925 | a reserve moves the quantity from available to reserved at one level and nothing else, or is refused and changes nothing |
| `StockServices.InventoryService.ReleaseStock` | internal/inventory/service.go:1927-1968 | a release moves it back, and is refused when less is reserved there |
| `StockServices.OrdersService.UpsertStockReservation` | internal/orders/repository.go:352-379 | recording adds to the order's row for product and warehouse, or makes one |
| `StockServices.OrdersService.ReleaseStockReservation` | internal/orders/repository.go:381-415 | a release lowers the order's row, is refused when the row holds less, and can be reported as failed although it was written |
| `StockCheck.BuildOrderStockCheck` | cmd/api/handlers_business.go:5315-5389 | the loop over mutable per-product remainders returns, line by line, what is left of each product after the lines before it, with every error case |
| `StockCheck.CheckOneLine` | cmd/api/handlers_business.go:5331-5386 | one line is served from the cached or newly loaded remainder, and the cache afterwards holds exactly the products met with what is left of them |
| `StockCheckLaws.ReadyIffPrefixesFit` | cmd/api/handlers_business.go:5331-5386 | for any quantities, the check is ready exactly when no product is missing and every tracked line fits after the lines before it |
| `StockCheckLaws.ReadyIffDemandFits` | cmd/api/handlers_business.go:5328-5386 | for non-negative quantities, ready exactly when no product is missing and each tracked product's total demand is available |
| `StockCheckLaws.RemainingInClosedForm` | cmd/api/handlers_business.go:5356-5377 | what greedy serving leaves of a product is its availability less its demand, but not less than zero |
| `StockCheckLaws.TotalShortageIsExact` | cmd/api/handlers_business.go:5328-5386 | the shortages of a product add up to exactly what its demand exceeds its availability by |
| `StockCheckLaws.LineOrderDoesNotMatter` | cmd/api/handlers_business.go:5331-5386 | permuting the order's lines changes neither readiness nor any product's total shortage |
| `StockCheckLaws.NegativeQuantitiesMakeOrderMatter` | internal/orders/types.go:114-116 | with a negative quantity, which order validation refuses, readiness would depend on line order |
| `StockCheckLaws.LineResultsDependOnOrder` | cmd/api/handlers_business.go:5331-5386 | of two lines that fit alone but not together, the later one is found short, whichever it is |
| `OrderStockAnswers.ChecksInClosedForm` | cmd/api/handlers_business.go:5331-5386 | each line of a check names its line and product, shows what the demand before it leaves of the product, and is short by exactly what is missing from that |
| `OrderStockAnswers.AllWarehousesLikeOne` | cmd/api/handlers_business.go:5361-5373 | a check without a warehouse gives the very lines of a check of any one warehouse that holds all the stock |
| `OrderStockAnswers.WarehousesAreSummed` | cmd/api/handlers_business.go:5361-5373 | with one row per warehouse, what is available over all warehouses is the sum of what each of them has |
| `StockReservation.AggregateLines` | cmd/api/handlers_business.go:5692-5712 | the map and the order of first occurrence that the loop builds are the aggregates of the check's lines |
| `AggregateLaws.AggregateIsDemand` | cmd/api/handlers_business.go:5692-5712 | a product's aggregate is its total demand, whatever the stock |
| `AggregateLaws.FirstSeenIsTracked` | cmd/api/handlers_business.go:5692-5712 | the product list holds exactly the tracked products |
| `AggregateLaws.TrackedProductsInOrder` | cmd/api/handlers_business.go:5692-5712 | it holds each once, in the order in which the order's lines first name them |
| `AggregateLaws.AggregatesOfCheck` | cmd/api/handlers_business.go:5692-5712 | an order's aggregates are one per tracked product, each asking for the whole demand |
| `AggregateLaws.AggregatesIgnoreStock` | cmd/api/handlers_business.go:5692-5732 | checking the same order against other stock gives the same aggregates |
| `StockReservation.ApplyToProduct` | cmd/api/handlers_business.go:5722-5779 | one product is reserved or released in both stores, with the compensating release when the order's store refuses |
| `StockReservation.ApplyOrderStockReservation` | cmd/api/handlers_business.go:5676-5782 | the products are handled one after the other up to the first error; state and result are those of the specification |
| `StockReservation.HandleOrderStockReservation` | cmd/api/handlers_business.go:5599-5662 | the request checks the order, refuses an unready reserve and a release with missing products, and otherwise applies the action |
| `StockReservation.CheckHasStatus` | cmd/api/handlers_business.go:5664-5674 | true exactly when some line has the status |
| `StockReservationLaws.OneProductInStock` | cmd/api/handlers_business.go:5722-5779 | handling one product moves exactly its own level, by the units the ledger moves plus the leak |
| `StockReservationLaws.OneProductInLedger` | cmd/api/handlers_business.go:5722-5779 | it moves exactly the order's row for that product and warehouse |
| `StockReservationLaws.RollbackFailsOnlyByOutage` | cmd/api/handlers_business.go:5741-5757 | what was just reserved can always be released, unless inventory is out of reach |
| `StockReservationLaws.StoresPartExactlyWhen` | cmd/api/handlers_business.go:5722-5779 | handling a product moves inventory's reserved quantity and the order's own by different amounts exactly when the rollback of a reserve, or the ledger write of a release, is lost |
| `StockReservationLaws.RequestMoves` | cmd/api/handlers_business.go:5722-5779 | on every outcome, both stores moved alike for every product but for the leak; other warehouses and orders stay |
| `StockReservationLaws.StoresPartOnlyWhereItStopped` | cmd/api/handlers_business.go:5722-5779 | when a whole request moves the two stores by different amounts for a product, it stopped at that product, with the corresponding error |
| `StockReservationLaws.ReservePartsStoresExactlyWhen` | cmd/api/handlers_business.go:5741-5757 | a whole reserve moves the two stores by different amounts for a product exactly when it stopped there with a failed rollback |
| `OrderStockRuns.HandleMoves` | cmd/api/handlers_business.go:5599-5662 | one request moves inventory and the order's row by the same units, plus the request's leak |
| `OrderStockRuns.RunsDriftOnlyByLeaks` | cmd/api/handlers_business.go:5722-5779 | over any run, whatever fails, inventory and all orders' ledgers drift apart by exactly the leaks, and stock on hand never changes |
| `OrderStockRuns.RunsKeepSound` | cmd/api/handlers_business.go:5722-5779 | no recorded quantity ever becomes negative: nothing is released beyond what the order reserved |
| `OrderStockRuns.RunsWithoutLostWritesDoNotDrift` | cmd/api/handlers_business.go:5741-5757 | without lost rollbacks and ledger writes the stores never drift apart |
| `OrderStockFlow.ReadyOrdersAreReserved` | cmd/api/handlers_business.go:5640-5646 | without an outage, and with one row per product and warehouse, a reserve succeeds exactly when the check finds the order ready |
| `OrderStockFlow.DoneMovesDemand` | cmd/api/handlers_business.go:5692-5782 | a request that succeeds moves exactly the order's demand in both stores |
| `OrderStockFlow.ReleaseUndoesReserve` | cmd/api/handlers_business.go:5722-5779 | releasing an order right after reserving it succeeds and restores both stores |
| `OrderStockFlow.ReservationsStayReleasable` | cmd/api/handlers_business.go:5722-5779 | however many other orders reserve and release in between, what an order has reserved can still be released |
| `OrderStockAnswers.DoneReportsEveryProduct` | cmd/api/handlers_business.go:5692-5782 | a request that succeeds reports every tracked product once and in order, with its whole demand, the reserved and available quantity of its level when the request is done, and the status of the action |
| `OrderStockAnswers.RefusedExactlyWhen` | cmd/api/handlers_business.go:5631-5653 | which request is refused for an unknown order, unreadable levels, an unready reserve or a release with missing products, and that a refused request changes nothing |
| `OrderStockAnswers.OneProductTells` | cmd/api/handlers_business.go:5724-5774 | each error of one product has its own reason, and without any of these reasons the product is moved in both stores |
| `OrderStockAnswers.FailureTells` | cmd/api/handlers_business.go:5722-5779 | a failed request reports the error of the first product that could not be handled, as those before it left the stores |
| `OrderStockRuns.RunsKeepStatus` | internal/orders/repository.go:352-415 | over any run, whatever fails, an order's row is RELEASED exactly when nothing is left on it |
| `PickList.BuildOrderPickList` | cmd/api/handlers_business.go:5469-5561 | the loop over reserved remainders returns the picks of every line, with every error case |
| `PickList.PickOneLine` | cmd/api/handlers_business.go:5479-5558 | one line is picked from what the lines before it left of the reservation |
| `PickListLaws.EachLineIsSplit` | cmd/api/handlers_business.go:5520-5550 | what is picked and what is short add up to what is required, and neither is negative |
| `OrderStockAnswers.PicksInClosedForm` | cmd/api/handlers_business.go:5479-5558 | each line of a pick list shows what the demand before it leaves of the reservation and what the warehouse has, picks what it can of that, and is unreserved exactly when too little and nothing is left |
| `OrderStockAnswers.PicksShowOwnLevel` | cmd/api/handlers_business.go:5527-5540 | with one row per warehouse, the available quantity shown is that of the product's own level |
| `PickListLaws.TotalPickedIsExact` | cmd/api/handlers_business.go:5479-5558 | the picks of a product add up to exactly the smaller of reserved and demanded |
| `PickListLaws.PicksReadyIffCovered` | cmd/api/handlers_business.go:5479-5558 | ready exactly when no product is missing and reservations cover every tracked product's demand |
| `PickListLaws.ReadyPicksInFull` | cmd/api/handlers_business.go:5520-5550 | on a ready pick list every tracked line is picked in full |
| `OrderStockFlow.ReservedOrdersCanBePicked` | cmd/api/handlers_business.go:5469-5561 | once an order is reserved in a warehouse, its pick list there is ready and every tracked line is picked in full |
| `MigrationFiles.FilesAreSorted` | cmd/migrate/main.go:145-153 | a directory's files of one direction are exactly the matching ones, in strictly increasing order |
| `MigrationFiles.SameOrderIffAllAgree` | cmd/migrate/main.go:145-161 | up and down files list the same versions in the same order exactly when every two versions are ordered alike by both suffixes |
| `MigrationFiles.DotsCanTurnTheOrder` | cmd/migrate/main.go:145-161 | two versions with dots that the two suffixes order differently |
| `MigrationFiles.DotFreeVersionsAgree` | cmd/migrate/main.go:145-161 | version names without dots are always listed in the same order |
| `MigrationRunner.Pool.MigrateUp` | cmd/migrate/main.go:163-223 | the loop over sorted files, the applied set read once, the step limit and the per-file transaction leave the database that the specification gives, whatever fails |
| `MigrationRunner.Pool.MigrateDown` | cmd/migrate/main.go:225-292 | the same for the reversed files |
| `MigrationRunner.Pool.Transact` | cmd/migrate/main.go:194-216 | script and record take effect together or not at all |
| `MigrationRunnerLaws.RunKeepsPrefix` | cmd/migrate/main.go:163-292 | one run, whatever fails, moves from a prefix of the versions to a prefix, never past its target, and reaches it when it reports success |
| `MigrationRunnerSuccess.UpSucceedsExactlyWhen` | cmd/migrate/main.go:163-223 | an up run with any step count reports success exactly when the applied versions can be read and no file up to its target meets a fault or a failing script, and then it has reached the target |
| `MigrationRunnerSuccess.UpStopsAtFirstFailure` | cmd/migrate/main.go:163-223 | an up run that fails has applied everything before the first file that does not work, and nothing more |
| `MigrationRunnerSuccess.DownSucceedsExactlyWhen` | cmd/migrate/main.go:225-292 | a down run with any step count and any down scripts reports success exactly when the applied versions can be read, no file down to its target meets a fault, and their scripts succeed one after the other; then the schema is what they lead to |
| `MigrationRunnerSuccess.DefaultRunAppliesAll` | cmd/migrate/main.go:163-223 | on a fresh database the default run, when nothing goes wrong, applies every version and reports success |
| `MigrationRunnerSuccess.DefaultRollbackTakesOne` | cmd/migrate/main.go:225-292 | the default rollback takes back exactly the last version, or fails and changes nothing |
| `MigrationRunnerLaws.RunsKeepSchemaAndRecordTogether` | cmd/migrate/main.go:163-292 | after any sequence of runs the recorded versions are a prefix and the schema is their up scripts replayed in order |
| `MigrationRunnerLaws.RunsKeepTogetherExactlyWhen` | cmd/migrate/main.go:163-292 | every sequence of runs keeps schema and records together exactly when each down script undoes its up script on the schemas that the migrations lead to |
| `MigrationRunnerLaws.PairedFilesAreADirectory` | cmd/migrate/main.go:145-161 | paired files with dot-free version names meet what the run laws ask of a directory |
| `MigrationRunnerLaws.UpThenDown` | cmd/migrate/main.go:174-184 | up and then down with the same step count restores the records exactly when `Cancels` holds, and then the schema too |
| `CutoverRun.ExecutionRun.constructor` | internal/cutover/execute.go:165-216 | a new or resumed run is the one the specification gives |
| `CutoverRun.ExecutionRun.ApplyResume` | internal/cutover/execute.go:218-260 | exactly the planned steps whose number, kind and file succeeded before are taken over, and counted |
| `CutoverRun.ExecutionRun.Refresh` | internal/cutover/execute.go:262-336 | the tallies are the counts of the steps' statuses, and progress and status follow from them |
| `CutoverRun.ExecutionRun.MarkRunning` | internal/cutover/execute.go:352-367 | changes the indexed step and the summary only |
| `CutoverRun.ExecutionRun.Complete` | internal/cutover/execute.go:369-386 | changes the indexed step and the summary only |
| `CutoverRunLaws.SummaryTells` | internal/cutover/execute.go:262-336 | a refreshed summary counts every step once under its status, completed and remaining make up the total, and the percentage is 100 exactly when nothing remains |
| `CutoverRunLaws.ResumedCountTells` | internal/cutover/execute.go:218-260 | a new run tells how many of its steps were taken over, and is marked as resumed exactly when there are any |
| `CutoverRunLaws.TakenOverKeepsResponse` | internal/cutover/execute.go:224-253 | a step that is taken over keeps the response of the last success with its number, kind and file |
| `MigrationPlan.BuildPlan` | internal/cutover/plan.go:113-125 | steps are numbered from 1 in the files' order, with what was found out about each; the summary counts the steps that are not ready, and the plan is ready exactly when the bundle is valid, there is a step, and every step is ready |
| `MigrationPlan.PlannedInAnyOrder` | internal/cutover/plan.go:113-125 | sorting the files does not change that every step is made from one of them |
| `BundleFiles.IndexFiles` | cmd/api/handlers_migration_execute.go:426-432 | the map of files by kind and trimmed name, later files winning |
| `BundleFiles.RejectDuplicates` | cmd/oa/migration_manifest.go:101-111 | accepts exactly the bundles without two files of one key |
| `BundleFiles.LookupIsLossless` | cmd/oa/migration_execute.go:305-315 | every file is found under its key exactly when files with the same key are the same file |
| `MigrationServer.ExecuteMigration` | cmd/api/handlers_migration_execute.go:82-149 | whatever the point at which it is interrupted, what it has saved and imported is a prefix of the attempt's events; it is interrupted exactly when that is not all of them, and otherwise the answer shows the run last saved and is the one for a missing confirmation, a plan that is not ready, a refused import, or none of these |
| `MigrationServer.RunStep` | cmd/api/handlers_migration_execute.go:119-142 | a step is saved as running, imported, and saved with its result, in this order |
| `MigrationAnswers.AnswerTells` | cmd/api/handlers_migration_execute.go:82-149 | a request that nothing interrupts fails exactly when a step that the previous snapshot has not done is refused: all steps before it have succeeded, it has failed with the importer's error, and none after it was touched; otherwise all steps have succeeded, and so has the run |
| `MigrationResume.ResumeTakesOver` | internal/cutover/execute.go:218-260 | a resumed run has done exactly the steps the previous snapshot has done; with a ready plan all others are planned |
| `MigrationResume.TakenOverExactlyWhen` | internal/cutover/execute.go:218-260 | resuming with any plan, a step counts as done exactly when it is ready and a step of its number, kind and file had succeeded |
| `MigrationResume.SavedSuccessIsFinal` | cmd/api/handlers_migration_execute.go:114-143 | under any schedule of interrupted and resumed attempts, a step whose success was saved is never imported again and never forgotten |
| `MigrationResume.ImportsAreAnnounced` | cmd/api/handlers_migration_execute.go:119-124 | every import directly follows a saved snapshot that shows its step as running |
| `MigrationResume.EachStepOnceUnlessLost` | cmd/api/handlers_migration_execute.go:114-143 | a step is imported successfully at most once, plus once for every time its success was not saved |
| `MigrationResume.OneLossPerAttempt` | cmd/api/handlers_migration_execute.go:114-143 | one interruption loses at most one import, over all steps |
| `MigrationProgress.SucceededStepsFormAPrefix` | cmd/api/handlers_migration_execute.go:114-143 | from a fresh start, every saved snapshot shows a prefix of the plan as succeeded |
| `MigrationProgress.ResumeFinishesTheRest` | cmd/api/handlers_migration_execute.go:114-149 | an undisturbed attempt imports exactly the steps not done yet, in plan order, and saves a run with every step succeeded |
| `MigrationStatus.StatusFromSteps` | internal/cutover/execute.go:262-336 | for a confirmed run of a ready plan the status follows from the steps alone |
| `MigrationStatus.IdleAttemptStatus` | internal/cutover/execute.go:165-216 | an attempt whose plan is not ready starts as blocked; one that is only not confirmed asks for confirmation, unless every step was taken over as succeeded |
| `MigrationStatus.TerminalMeansOver` | cmd/api/handlers_migration_execute.go:387-397 | a saved snapshot has a terminal status exactly when the attempt that saved it imports nothing more |
| `MigrationClient.NewClientRun` | cmd/oa/migration_execute.go:276-287 | an unconfirmed run tells how to confirm each planned step |
| `MigrationClient.ExecuteMigrationRun` | cmd/oa/migration_execute.go:235-274 | the loop with its skips and early returns makes the imports, the run and the ending of the specification |
| `MigrationClientEndings.ClientEndsAtFirstTrouble` | cmd/oa/migration_execute.go:235-274 | for any plan, files and previous run, the client refuses an unready plan, asks for confirmation, or goes exactly to the first due step whose file is missing or whose import is refused; it imports the due steps before it in order, and skips those that are not ready |
| `MigrationClient.ClientAgreesExactlyWhen` | cmd/oa/migration_execute.go:247-274 | on a ready, confirmed plan, client and undisturbed server make the same imports and end with the same run, whatever the imports answer, exactly when every step still to be imported has its file |
| `MigrationClient.ClientAgreesWithServer` | cmd/api/handlers_migration_execute.go:114-124 | where the client stops at a missing file, the server has the same imports and then one more with an empty file; otherwise both do the same |
| `MigrationClient.SameExecutionOfOwnPlan` | cmd/oa/migration_execute.go:247-274 | for a plan made from the files it is executed with, client and server do the same |
| `MigrationClient.StepsFindTheirOwnFile` | cmd/oa/migration_execute.go:305-315 | without duplicate keys every step is executed with the file it was planned from |
| `RunStream.Connection.Stream` | cmd/api/handlers_migration_execute.go:296-338 | the loop sends exactly the trace in closed form: the loaded runs one by one up to the first terminal one, the limit or the end of the connection, then at most one error |
| `RunStream.StreamEndsOnce` | cmd/api/handlers_migration_execute.go:296-338 | events are numbered from 1 without gaps, only the last can be other than a snapshot, at most maxEvents carry a run, and one more can only be an error |
| `RunStream.EventShows` | cmd/api/handlers_migration_execute.go:296-336 | each event carries the run as it was loaded at that turn, is a complete event exactly when that run is terminal, and is an error event only after a failed load |
| `RunStream.StreamEndsFor` | cmd/api/handlers_migration_execute.go:296-338 | a stream that ends with a snapshot has used up the connection, lost its client, or reached its limit of events; so a failed load is always reported while the connection stands |
| `RunStream.CompletesIffEndIsSeen` | cmd/api/handlers_migration_execute.go:297-312 | the stream completes exactly when one of the first maxEvents runs the connection takes is terminal |
| `RunStream.CompleteMeansOver` | cmd/api/handlers_migration_execute.go:296-338 | watching an attempt, a complete event means that no import follows, and every snapshot shown was saved ahead of an import |
| `JournalLock.Validate` | internal/accounting/types.go:196-233 | accepts exactly entries with lines, one side per line, nothing negative, and equal non-zero base totals |
| `JournalLock.Journal.CreateEntry` | internal/accounting/service.go:300-367 | a valid request is kept as a draft with base amounts; anything else changes nothing |
| `JournalLock.Journal.PostEntry` | internal/accounting/service.go:741-763 | exactly a balanced draft is posted, and only with a reason |
| `JournalLock.Journal.VoidEntry` | internal/accounting/repository_gorm.go:705-733 | a posted entry is voided and its reversal, dated today and posted, is added, or neither |
| `JournalLock.Journal.Handle` | cmd/api/handlers.go:1753-1945 | a request changes the journal as specified exactly when lock, evidence and validation let it through |
| `JournalAcceptance.CreatableExactlyWhen` | internal/accounting/types.go:196-233 | an entry may be created exactly when no line has a negative rate or amount or amounts on both sides, and debits and credits, each at its line's rate, have the same non-zero total |
| `JournalAcceptance.CreatedOnGivenDay` | cmd/api/handlers.go:1766-1777 | a given date is the entry's date and the one the lock is asked about, whatever today is; a missing one is today's |
| `JournalAcceptance.CreateThenPostMovesBalance` | cmd/api/handlers.go:1753-1843 | creating and then posting an entry moves each balance by its lines, as of every day from its date on |
| `JournalAcceptance.LockDecides` | cmd/api/period_lock.go:23-52 | a lock takes away exactly the requests on days that it covers, and settings that cannot be read take away all |
| `JournalAcceptance.LaterLockAcceptsLess` | cmd/api/period_lock.go:23-52 | what a lock lets through, every earlier lock lets through |
| `JournalAcceptance.LifeOfAnEntry` | cmd/api/handlers.go:1753-1945 | where the lock lets its day through, an entry that may be created can be created, posted once and voided once, and nothing else |
| `JournalAcceptance.ImportIsCreateThenPost` | internal/accounting/opening_balances_import.go:149-163 | importing an opening balance is creating and posting it, refused as a whole when it cannot be created |
| `JournalLockLaws.RequestMovesBalance` | internal/accounting/repository_gorm.go:554-582 | what each accepted request adds to the balance of any account as of any day |
| `JournalLockLaws.VoidCancelsExactlyWhen` | internal/accounting/service.go:766-820 | a void takes its entry out of a balance exactly when the void is later than the balance's day or the entry does not touch the account |
| `JournalLockLaws.VoidCanSubtractTwice` | internal/accounting/service.go:766-820 | an accepted void after which a balance of 5 is -5 |
| `JournalLockLaws.LockedBalancesMoveOnlyByVoids` | cmd/api/period_lock.go:23-52 | over any run behind a lock, a balance as of a locked day changes by exactly the entries voided on a day up to it |
| `JournalLockLaws.LockedBalancesAreFrozen` | cmd/api/period_lock.go:23-52 | as long as nothing is voided on a locked day, no run changes any balance as of a locked day |
| `JournalLockLaws.VoidKeepsLockExactlyWhen` | cmd/api/handlers.go:1931-1935 | one void keeps the balance as of the lock day exactly when it happens after that day or does not touch the account |
| `JournalLockLaws.LockDoesNotFreezeVoids` | cmd/api/handlers.go:1931-1935 | a void behind a lock that reaches past today changes a locked balance |
| `JournalLockLaws.BooksStayBalanced` | internal/accounting/types.go:224-227 | over any run, as of every day, posted debits equal posted credits in the base currency |
| `JournalLockLaws.TrialCanBeUnbalanced` | internal/accounting/service.go:828-851 | an acceptable entry whose debits and credits, as the trial balance adds them, differ |
| `JournalLockLaws.RequestMovesTrial` | internal/accounting/repository_gorm.go:585-625 | what each accepted request adds to the difference of the trial balance as of any day |
| `JournalLockLaws.TrialKeptExactlyWhen` | internal/accounting/service.go:828-851 | an accepted request leaves that difference as it is exactly when what it posts or voids does not count as of the day, or has equal debits and credits as entered |
| `JournalLockLaws.TrialStaysBalanced` | internal/accounting/service.go:828-851 | as long as everything is entered with equal debits and credits, in whatever currencies, the trial balance is balanced as of every day |
| `JournalLockLaws.TwoRatesBalanceTrialExactlyWhen` | internal/accounting/service.go:828-851 | a valid entry, of any number of lines, with all debits at one rate and all credits at another is balanced in the trial balance exactly when the rates are the same |
| `YearEndReview.ReviewCosting` | cmd/api/handlers_year_end.go:611-633 | the counters are the numbers of lines that break each rule and any rule, and ready means that every line is sound |
| `YearEndReview.ReviewCountsLines` | cmd/api/handlers_year_end.go:611-633 | the counters are the numbers of lines with a negative quantity, a negative available quantity, a negative value, a quantity without a positive cost, and any of these |
| `YearEndReview.BlockingBounds` | cmd/api/handlers_year_end.go:611-631 | the blocking count is at least each rule's count and the sum of negative quantities and missing costs, and at most the sum of all and the line count |
| `YearEndReview.CountsAddUpExactlyWhen` | cmd/api/handlers_year_end.go:611-631 | the four counts add up to the blocking count exactly when no line breaks two rules |
| `YearEndReview.CloseStatus.AttachEvidence` | cmd/api/handlers_year_end.go:530-546 | evidence can only take readiness away, and does so exactly when it was evaluated and is not compliant |
| `YearEndReview.CloseStatus.AttachReview` | cmd/api/handlers_year_end.go:573-586 | the review can only take readiness away, and does so exactly at a fiscal year end with an unsound line |
| `YearEndReview.CloseStatus.AttachBoth` | cmd/api/handlers_year_end.go:78-86 | after both, the close is ready exactly when it was before and neither the evidence nor the review objects |
| `ReconciliationGate.NormalizeIds` | internal/documents/service.go:852-867 | trimmed ids, without blanks, each once, in order of first occurrence |
| `ReconciliationGate.NormalizedKeeps` | internal/documents/service.go:852-867 | exactly the non-blank trimmed ids remain |
| `ReconciliationGate.NormalizedIsDistinct` | internal/documents/service.go:852-867 | each entity is evaluated once |
| `ReconciliationGate.EvaluatePolicy` | internal/documents/service.go:271-301 | one result for each requested entity, and an error when there is none |
| `ReconciliationGate.RequireApprovedEvidence` | cmd/api/handlers_business.go:2696-2756 | with its skipped policy lookup and reused buffer the gate gives the verdict of the plain rule: all matched transactions if the policy blocks, else the marked ones |
| `ReconciliationGate.VerdictExactlyWhen` | cmd/api/handlers_business.go:2705-2756 | the gate passes exactly when nothing is selected, or the documents are there and every selected transaction with an id, of which there is one, has its evidence; each other verdict has its own exact condition |
| `ReconciliationGate.PassingMeansCompliant` | cmd/api/handlers_business.go:2705-2756 | when the gate passes, every transaction that must have evidence has it |
| `ReconciliationGate.RefusalNamesTheFailing` | cmd/api/handlers_business.go:2742-2753 | a refusal names exactly the transactions that must have evidence and lack it |
| `CellRefs.ColumnLetters` | cmd/api/report_xlsx.go:177-184 | the loop ends and gives the letters that name the column |
| `CellRefs.LettersNameTheirColumn` | cmd/api/report_xlsx.go:177-184 | reading a column's letters back gives the column |
| `CellRefs.ColumnsHaveTheirLetters` | cmd/api/report_xlsx.go:177-184 | every sequence of letters is the one its column gets |
| `CellRefs.LettersInColumnOrder` | cmd/api/report_xlsx.go:177-184 | columns are ordered as their letters are: shorter first, then letter by letter |
| `CellRefs.CellRefRoundTrip` | cmd/api/report_xlsx.go:177-185 | decoding a reference gives its row and column |
| `CellRefs.WorksheetRefs` | cmd/api/report_xlsx.go:140-151 | the nested loops write the references of all cells, rows and columns counted from 1 |
| `CellRefs.SheetRefsAreDistinct` | cmd/api/report_xlsx.go:140-151 | no reference occurs twice in a worksheet, whatever the lengths of its rows |

## Left out

- StockServices.InventoryService.ReserveStock: does not model the lot allocations kept beside the stock level and the lookup of the warehouse, because the handlers modelled here never read them.
- StockServices.InventoryService.ReleaseStock: does not model the lot allocations kept beside the stock level and the lookup of the warehouse, for the same reason.
- Concurrent requests for one order, and two migration processes at once: the code takes no lock, and the model runs one request after the other.
- Writes to inventory, and recordings of a reservation, that take effect and are reported as failed; for releases of a reservation this case is modelled.
- Product lookups that fail for one line and succeed for another: the catalogue does not change during a request.
- UUID spelling and decoding of requests.
- Rounding of quantities to the columns' precision in the database.
- Timestamps, durations and the active step that a run shows; resume keys and file keys are a triple and a pair instead of joined strings.
- Resuming from a snapshot other than the last one saved, or from one given in the request.
- Schedules of attempts in which plan or files change from one attempt to the next: steps are matched by number, kind and file, so a bundle that renumbers a step imports it again although its success was saved. MigrationResume.TakenOverExactlyWhen says for any plan which successes are taken over.
- A missing plan, a stream without a stored run, and the parsing of stream parameters.
- MigrationPlan.BuildPlan: takes the files in the order of the plan and what was found out about each as parameters, because validating a bundle is not part of this model; MigrationPlan.PlannedInAnyOrder covers every order.
- Reading the manifest of a bundle: resolving paths and checking hashes.
- The other handlers behind the period lock (invoices, payments, expenses, entry templates), and changing the lock itself.
- Identifiers, VAT and descriptions of journal lines, and parsing dates and CSV rows: days are numbers, and an unreadable lock date is a case of its own.
- Entry dates with a time of day: an entry's day is the day in UTC that the lock compares.
- How an evidence rule is evaluated for one entity: an entity either has an approved document or not.
- The contents of migration scripts: what a script does to the schema is a parameter.
- Cell values, XML escaping, zip parts, and safe archive file names.
- Merging of consolidated tenant ids.
