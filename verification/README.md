# Warehouse and procurement: a verified model

A Dafny model of the stateful core of a warehouse and procurement application, with proofs of what its
services keep over whole runs.  `dafny verify dfyconfig.toml` checks everything.

- **Stock ledger** (`Ledger`, `LedgerReplay`, `LedgerRuns`, `LedgerRows`, `LedgerShifts`, `LedgerForest`,
  `LedgerEdits`, `LedgerLimits`, `LedgerSemantics`, `LedgerService`, with `Sums` and `Forests`): operations with
  lines are created, back-dated, edited and reversed, and stock cards come and go; every request replays the touched
  materials. Quantities are integers in tenths, times integer microseconds.
- **Purchase life cycle** (`Purchases`, `PurchaseRuns`, `PurchaseRestore`, `PurchaseDates`, `PurchaseOutcomes`,
  `RecordOutcomes`, `PurchaseRows`, `RecordRows`, `PurchaseService`, with `PlanNumbers`, `Tables`, `Texts` and
  `Sets`): plans are numbered, renumbered, moved into records as snapshots, deleted by a nightly worker and
  restored.
- **Synchronisation** (`RecordSync`, `SyncRows`, `SyncTargets`, `TargetFilters`, `Pager`): external data is written
  back only forward and only into blanks; a client pages through what is still due.
- **Concurrent protocols**: webhook delivery with leases (`Webhook`, `WebhookRuns`, `WebhookOutcomes`) and
  reference-counted locks (`DigestLocks`), as steps of any number of workers in any order.
- **Algorithms**: UUIDv7 (`Identifiers`, `Hexadecimal`, `Bits`), a CSV scanner (`Csv`), decimal strings
  (`Decimals`), closure over schema references (`Schemas`).

A service that updates tables in place is a class whose methods (with the source's loops) are proved to leave
exactly the state that a specification function describes; lemmas then say what that function means.  A service
call is one transaction: it commits or leaves the tables as they were.

## What the proofs found

- An edit clamps what is left of a line to its new quantity but forgets what was reversed already, so a line
  can be reversed beyond its quantity (`LedgerEdits.OverReversalIsReachable`).  `LedgerLimits.EditOfFaithfulStaysWithinIff`
  says exactly which edits allow that, and `LedgerLimits.EveryRunStaysLimitedIff` exactly which runs keep every line
  within its quantity and every reversal on its original's materials throughout.
- More edits leave quantities that differ from what is left plus what was reversed, by growing a line for example:
  `LedgerEdits.EditKeepsFaithfulIff` says exactly which, and on runs without them the reversals add up
  (`LedgerEdits.EverySafeRun`).
- An edit, unlike a creation, may label any operation a reversal, and an outbound reversal needs no receiver
  (`LedgerSemantics.RelabellingDropsReceiver`).
- A record whose plan was cleaned up cannot be restored once the plan's stock material is deleted: the deletion
  unlinks plans but not snapshots (`PurchaseRestore.RestoreAfterDeletedStock`).
- Editing one record can change its plan date without changing the number that names the date; every other step
  keeps the two together (`PurchaseDates`).
- Without a list of fields the target query is documented to cover every field to be synchronised, but it leaves
  out the status; the two differ exactly by the lines that lack nothing else (`SyncTargets.DefaultCoversAllIff`).
- A webhook worker that outlasts its five-minute lease overwrites the outcome another worker reported; the last entry
  of the retry table is never used; and each crash of a worker allows one attempt beyond the fifth
  (`WebhookRuns.BoundIsReached`).
- The CSV scanner loses a final carriage return of a row that ends in a bare line feed, and a final unterminated row
  that is one empty cell.
- Identifiers stop increasing when the millisecond outgrows 48 bits.

## Model

| member | source | states |
|---|---|---|
| `LedgerReplay.ChainedIffTotalled` | backend/app/services/inventory_service.py:187-212 | walking a material's lines in (time, operation id) order from 0, each line starting where the one before ended, is the same as every stored total being the sum of the signed quantities before it and the balance being the sum of all |
| `LedgerReplay.ReplayTotals` | backend/app/services/inventory_service.py:187-212 | after a replay the replayed materials add up, from whatever totals were stored before |
| `LedgerReplay.ReplayCoversChanges` | backend/app/services/inventory_service.py:371-406 | replaying a superset of the touched materials makes every material of the store add up, if all did before the change |
| `LedgerReplay.ReplayFixpoint` | backend/app/services/inventory_service.py:187-212 | replay leaves all lines and balance quantities of a set of materials as they are if and only if they already add up, so replaying the whole ledger after a request changes no figure |
| `LedgerReplay.InsertionShifts` | backend/app/services/inventory_service.py:193-210 | adding an operation moves the totals of exactly the lines that sort after it, all by its signed quantity |
| `LedgerRuns.ReversalFits` | backend/app/services/inventory_service.py:275-300 | a reversal that passes the checks names only lines of the original and takes no more than is left of each |
| `LedgerRuns.CreatedKeepsValid` | backend/app/services/inventory_service.py:215-351 | a creation or reversal, successful or not, leaves the ledger of every material adding up, quantities positive, and remaining between 0 and quantity |
| `LedgerRuns.EditedKeepsValid` | backend/app/services/inventory_service.py:354-415 | the same for an edit, which may move the operation in time, change its direction, and add, change and drop lines |
| `LedgerRuns.ApplyKeepsValid` | backend/app/services/inventory_service.py:215-447 | the same for any request, retries and failures included |
| `LedgerRuns.EveryRunAddsUp` | backend/app/services/inventory_service.py:187-447 | on every run of requests from an empty ledger, stock materials created and deleted on the way included, every material's lines chain from 0 to its balance |
| `LedgerRows.CreationSucceedsIff` | backend/app/services/inventory_service.py:224-301 | a creation or reversal changes the ledger exactly if its client request id is new, direction, source, reason and receiver of the payload fit together, its user is there exactly for the mini program, all materials have balances, and a reversal finds that much left on every line of its original |
| `LedgerRows.CreationFailsBecause` | backend/app/services/inventory_service.py:224-301 | a creation that fails names the fault of its payload in the order of the checks, else a missing balance, else the first fault of a reversal |
| `LedgerRows.CreationStores` | backend/app/services/inventory_service.py:253-331 | it then stores, under the next id, the payload's date, direction, reason, receiver unit and name, subitem, source and client request id, with exactly the payload's lines and quantities, nothing of them reversed; it takes the quantities off what is left of the original; and nothing else changes but running totals and balances |
| `LedgerRows.ReversalStores` | backend/app/services/inventory_service.py:418-447 | a reversal is stored in the opposite direction with the request's reason and the original's subitem, now if that is more than a microsecond after the original and one microsecond after it otherwise |
| `LedgerRows.ReversalSucceedsIff` | backend/app/services/inventory_service.py:275-300 | a reversal changes the ledger exactly if the original exists, its client request id is new, and every line of it has that much left |
| `LedgerRows.EditSucceedsIff` | backend/app/services/inventory_service.py:357-370 | an edit succeeds exactly at the stored version, with a payload in order, balances for its materials, and the mini-program source exactly for an operation of a mini-program user |
| `LedgerRows.EditFailsBecause` | backend/app/services/inventory_service.py:354-370 | the same for an edit at the stored version |
| `LedgerRows.EditStores` | backend/app/services/inventory_service.py:371-406 | it then stores what the payload says under the next version, with exactly its lines; a kept line keeps at most what was left of it; client request id, original and mini-program user stay, and so does everything else but running totals and balances |
| `LedgerShifts.CreationShifts` | backend/app/services/inventory_service.py:215-314 | a creation, back-dated or not, shifts both totals of every line dated after its payload and the balances of its materials by its signed quantity, and leaves the lines up to its date and every other material as they were |
| `LedgerShifts.CreationStartsFromStock` | backend/app/services/inventory_service.py:193-210 | the lines of a creation start from the stock of their materials at the payload's date |
| `LedgerShifts.ReversalKeepsOriginalTotals` | backend/app/services/inventory_service.py:426-447 | a reversal is dated strictly after its original and changes none of the original's totals |
| `LedgerShifts.EditShifts` | backend/app/services/inventory_service.py:371-406 | an edit moves both totals of every other line by what the edited operation now adds before it (its new signed quantity if its new date sorts it there) less what it added before it until then, and the balance by what it now adds less what it added |
| `LedgerRuns.RetryChangesNothing` | backend/app/services/inventory_service.py:224-228 | a creation or reversal whose client request id is stored changes nothing, succeeds (unless it is a reversal of an operation that does not exist) and answers with the stored operation |
| `LedgerRuns.RetriesAreInvisible` | backend/app/services/inventory_service.py:224-250 | dropping from any run all requests that are retries when they arrive gives the same final ledger |
| `LedgerRuns.IdentitiesAreKept` | backend/app/services/inventory_service.py:215-447 | over every run no operation disappears or changes its client request id or original, and no two share a client request id |
| `LedgerRuns.EditWithoutChanges` | backend/app/services/inventory_service.py:371-406 | saving an operation as it is stored changes versions only: no quantity, remaining quantity, total or balance |
| `LedgerRuns.DroppedHasNoStock` | backend/app/services/material_service.py:96-112 | a stock material can be deleted only while its balance is zero, although only operations on it are asked for |
| `LedgerSemantics.EveryRunMakesSense` | backend/app/services/inventory_service.py:165-184 | after every run, edits included, every stored operation has a receiver exactly as its direction allows (outbound unless labelled a reversal, never inbound), a reason if outbound, the initialisation label only if inbound, and a mini-program user only if outbound and manual |
| `LedgerSemantics.RunsWithoutEditsLabelReversals` | backend/app/services/inventory_service.py:238-239 | on runs without edits exactly the operations with an original carry the reversal label |
| `LedgerSemantics.EditKeepsLabelsIff` | backend/app/services/inventory_service.py:357-367 | an edit keeps that exactly if it asks for the reversal label on a reversal and on nothing else |
| `LedgerSemantics.RelabellingDropsReceiver` | backend/app/services/inventory_service.py:357-367 | an edit that labels any operation an outbound reversal succeeds, whether or not it names a receiver |
| `LedgerForest.RunsWithoutEditsAreFaithful` | backend/app/services/inventory_service.py:275-312 | on every run without edits each line's quantity is its remaining quantity plus the quantities of its direct reversals, and reversals run against their originals on the originals' materials |
| `LedgerForest.TreeStaysWithinRoot` | backend/app/services/inventory_service.py:426-447 | the net effect of an operation together with all reversals of it and of those lies between its remaining quantity and its quantity, with its sign |
| `LedgerForest.BalanceIsSumOfTrees` | backend/app/services/inventory_service.py:187-212 | the balance of a material is the sum of the net effects of its reversal trees |
| `LedgerForest.EveryRunWithoutEdits` | backend/app/services/inventory_service.py:215-447 | the three results above for every run without edits from an empty ledger |
| `LedgerEdits.EditKeepsFaithfulIff` | backend/app/services/inventory_service.py:371-406 | from a ledger whose reversals add up, a successful edit leaves one whose reversals add up exactly if: each kept line keeps its quantity or has nothing reversed and does not grow; a reversal keeps its quantities on its original's materials and names no other; neither a reversal nor a reversed operation changes direction; and no reversed line is dropped |
| `LedgerEdits.RequestKeepsFaithfulIff` | backend/app/services/inventory_service.py:215-447 | the same for any request: every other request keeps the reversals adding up |
| `LedgerEdits.EverySafeRun` | backend/app/services/inventory_service.py:215-447 | on every run from an empty ledger whose edits are safe when they arrive: lines account for their quantities, reversal trees stay within their roots, and balances are the sums of the trees |
| `LedgerEdits.LoweringAllowsOverReversal` | backend/app/services/inventory_service.py:398 | lowering a partly reversed line always leaves remaining + reversed above the new quantity |
| `LedgerEdits.ReversalSucceeds` | backend/app/services/inventory_service.py:275-347 | as much as is left of a line can be reversed, whatever was reversed of it before: the reversal succeeds, takes that much off, and is counted among the reversals |
| `LedgerEdits.LoweringThenReversing` | backend/app/services/inventory_service.py:398 | after such a lowering, reversing what is said to be left succeeds and leaves more reversed than the line's quantity; if nothing is left, more was reversed already |
| `LedgerEdits.OverReversalIsReachable` | backend/app/services/inventory_service.py:398 | from any empty ledger with a material four successful requests (10.0 in, 6.0 reversed, lowered to 5.0, 4.0 reversed) leave 10.0 reversed of a line of 5.0 |
| `LedgerLimits.EditStaysWithinIff` | backend/app/services/inventory_service.py:398 | from a ledger in which what is left and what was reversed of each line stay within its quantity, a successful edit leaves one exactly if: each kept line has nothing reversed or still holds what is left and what was reversed of it; and a reversal grows by no more than its original's line has room for |
| `LedgerLimits.EditOfFaithfulStaysWithinIff` | backend/app/services/inventory_service.py:398 | from a ledger whose reversals add up, the same exactly if no kept line with something reversed is lowered and a reversal grows on no material of its original |
| `LedgerLimits.LimitedIsNotOverReversed` | backend/app/services/inventory_service.py:275-312 | in such a ledger no line is reversed beyond its quantity |
| `LedgerLimits.RequestStaysLimitedIff` | backend/app/services/inventory_service.py:215-447 | a request keeps lines within their quantities and reversals on the materials of their originals exactly if it is no successful edit, or one that leaves that room, drops no reversed line and keeps a reversal on its original's materials |
| `LedgerLimits.AddingBackOverReverses` | backend/app/services/inventory_service.py:389-398 | a reversed line that was dropped and is added again has more left and reversed than its quantity |
| `LedgerLimits.EveryRunStaysLimitedIff` | backend/app/services/inventory_service.py:215-447 | a run from an empty ledger keeps that after every one of its requests exactly if all its edits meet this condition when they arrive |
| `LedgerRows.CardsComeAndGo` | backend/app/services/material_service.py:96-139 | a stock card is added with a zero balance exactly if it is not there, is dropped exactly if no line is on it, and nothing else changes |
| `LedgerService.StockLedger.AddMaterial` | backend/app/services/material_service.py:115-139 | adds a zero balance, or fails for a material that is there, and keeps every ledger adding up |
| `LedgerService.StockLedger.DropMaterial` | backend/app/services/material_service.py:96-112 | removes the balance of a material without operations, fails for any other, and keeps every ledger adding up |
| `LedgerService.StockLedger.ReplayMaterials` | backend/app/services/inventory_service.py:187-212 | the loop over materials and over their lines leaves exactly the replayed store; it fails if a balance is missing |
| `LedgerService.StockLedger.CreateOperation` | backend/app/services/inventory_service.py:215-351 | updates the tables to exactly what the specification says, with its error, and keeps every ledger adding up |
| `LedgerService.StockLedger.UpdateOperation` | backend/app/services/inventory_service.py:354-415 | the same for an edit |
| `LedgerService.StockLedger.ReverseOperation` | backend/app/services/inventory_service.py:418-447 | the same for a reversal |
| `LedgerRows.FaultIsFirst` | backend/app/services/inventory_service.py:282-295 | a rejected reversal names the first line that the original does not have, or how much is left of the first that asks for more |
| `LedgerService.StockLedger.CheckReversal` | backend/app/services/inventory_service.py:275-300 | finds the first line that the original does not have or not enough of |
| `PlanNumbers.PlanNosCompare` | backend/app/services/material_service.py:246-255 | plan numbers of one date compare as texts exactly as their indices compare as numbers |
| `PlanNumbers.LaterIsGreatest` | backend/app/services/material_service.py:246-256 | the later of the two tables' maxima is the greatest number of both, and absent exactly if both are empty |
| `PurchaseRuns.NextPlanNoIsFresh` | backend/app/services/material_service.py:241-265 | the next plan number is well-formed, of the date, in neither table, and one above the highest index in use; the daily limit is reported if and only if number 999 of the date is in use |
| `PurchaseRuns.CreatePlanKeeps` | backend/app/services/material_service.py:268-314 | creating a plan keeps the invariant (plan numbers well-formed and distinct, snapshots well-formed and distinct, a shared number only along a reference, references distinct and not dangling, every header with a line, every stock link to a stock material) and adds one open item if it succeeds |
| `PurchaseRuns.UpdatePlanKeeps` | backend/app/services/material_service.py:317-355 | an update, which renumbers on a new date, keeps the invariant and the open items |
| `PurchaseRuns.PatchPlansKeep` | backend/app/services/material_service.py:393-420 | so does a batch update in which each plan sees the numbers given to those before it |
| `PurchaseRuns.DeletePlanKeeps` | backend/app/services/material_service.py:424-440 | deleting succeeds only for a plan that no line references, keeps the invariant and removes one open item |
| `PurchaseRuns.DeleteStockKeeps` | backend/app/services/material_service.py:96-112 | deleting a stock material unlinks its plans and keeps the invariant |
| `PurchaseRuns.MovePlansKeeps` | backend/app/services/purchase_request_service.py:90-177 | moving plans into a record keeps the invariant and loses no open item |
| `PurchaseRuns.UpdateRecordKeeps` | backend/app/services/purchase_request_service.py:211-248 | editing a record keeps the invariant |
| `PurchaseRuns.UpdateRecordsKeeps` | backend/app/services/purchase_request_service.py:251-348 | a batch update of records, which renumbers snapshots on a new date, keeps the invariant |
| `PurchaseRuns.SyncKeeps` | backend/app/services/purchase_record_sync_service.py:88-166 | writing external data back to records keeps the invariant and the open items |
| `PurchaseRuns.RestorePlanKeeps` | backend/app/services/purchase_request_service.py:351-412 | restoring keeps the invariant and the open items, whether the plan still exists or is rebuilt |
| `PurchaseRuns.CandidatesAreReferenced` | backend/app/services/purchase_plan_cleanup_service.py:43-58 | the guard on blank snapshots never holds anything back: the candidates are exactly the referenced plans |
| `PurchaseRuns.CleanupKeeps` | backend/app/services/purchase_plan_cleanup_service.py:37-79 | a clean-up round deletes min(50, candidates) plans, all of them referenced, and keeps the invariant and the open items |
| `PurchaseRuns.StepKeeps` | backend/app/services/purchase_request_service.py:90-412 | every step of the life cycle, data written back by the synchronisation included, keeps the invariant, and open items (unreferenced plans plus record lines) change by +1 on a creation, -1 on a deletion and not at all on any other step |
| `PurchaseRuns.RunKeeps` | backend/app/services/purchase_request_service.py:90-412 | the same over every run |
| `PurchaseRestore.MovedPlanHasLine` | backend/app/services/purchase_request_service.py:149-174 | every moved plan gets a new line that is its snapshot |
| `PurchaseRestore.RunKeepsLine` | backend/app/services/purchase_request_service.py:90-412 | no run of steps without an edit or restore of the line changes what a restore reads of it, data written back included; its plan reference stays or is cleared |
| `PurchaseRestore.RestoreRebuilds` | backend/app/services/purchase_request_service.py:351-412 | restoring a line that still holds the snapshot of a cleaned-up plan succeeds exactly at its header's version and if the linked stock material, if any, still exists; it then adds one plan under the next id, the original but for urgency, status and version, and drops the line as below |
| `PurchaseRestore.RestoreUndoesMove` | backend/app/services/purchase_request_service.py:149-412 | move, then any run of steps without an edit or restore of the line (data may be written back to it) that sees the plan cleaned up, then restore: the plan is back under a new id with its number, business fields and image order |
| `PurchaseRestore.RestoreUndoesMoveAndCleanup` | backend/app/services/purchase_request_service.py:149-412 | move, clean-up, restore in a row always succeeds with that result |
| `PurchaseRestore.RestoreReopens` | backend/app/services/purchase_request_service.py:351-412 | restoring a line whose plan still exists succeeds exactly at its header's version and answers with the plan, which becomes normal under its next version and keeps all else; other plans stay; the line is gone, and its header with its last line, or else one version on |
| `PurchaseRestore.RestoreUndoesMoveAtOnce` | backend/app/services/purchase_request_service.py:149-412 | move and restore with no clean-up in between: the plan is back under its own id and next version, and if it was the only one moved all record lines and headers are as before |
| `PurchaseRestore.RestoreAfterDeletedStock` | backend/app/services/purchase_request_service.py:386 | the restore that fails: the stock material of the plan was deleted after the clean-up |
| `PurchaseDates.StepKeepsDates` | backend/app/services/material_service.py:241-421 | every step but an edit of a single record, data written back included, keeps every number naming the date of its row |
| `PurchaseDates.UpdateRecordDatedIff` | backend/app/services/purchase_request_service.py:231 | an edit of a record keeps that exactly if it keeps the line's plan date |
| `PurchaseDates.RedatingARecordBreaks` | backend/app/services/purchase_request_service.py:231 | any edit of one record with images that exist that changes the plan date succeeds and leaves a number that names another date |
| `PurchaseDates.RedatedRecord` | backend/app/services/purchase_request_service.py:231 | a valid store with one record, and an edit of it that does so |
| `PurchaseRows.CreateStores` | backend/app/services/material_service.py:268-314 | a creation adds one plan under the next id, with an unused number of its date and the payload's fields and defaults, and touches nothing else |
| `PurchaseRows.UpdateStores` | backend/app/services/material_service.py:317-355 | an update rewrites one plan to the payload, keeping what that leaves out, under its next version, with a new unused number exactly if the date changes, and touches nothing else |
| `PurchaseRows.UpdateWithoutChanges` | backend/app/services/material_service.py:317-355 | saving a plan as it is stored changes its version only |
| `PurchaseRows.UpdatePlansStores` | backend/app/services/material_service.py:358-421 | a batch takes the given fields over into each plan it names, once, and touches nothing else; a batch that fails changes nothing |
| `RecordRows.MoveStores` | backend/app/services/purchase_request_service.py:90-177 | a move succeeds exactly for coded plans that no line references; it adds one header as the payload says and, in the order of the plan ids, one line per plan that copies it, and touches nothing else |
| `RecordRows.UpdateRecordStores` | backend/app/services/purchase_request_service.py:211-248 | an edit succeeds exactly for an existing record at its header's version with images that exist; line and header then hold the payload under their next versions, and number, plan reference and everything else stay |
| `RecordRows.UpdateRecordsStores` | backend/app/services/purchase_request_service.py:251-348 | a batch takes the given fields over into each line it names and, once, into each of their headers, and touches nothing else |
| `RecordRows.DeleteStockClears` | backend/app/services/material_service.py:96-112 | a stock material is deleted exactly at the version named and without operations; that clears the links of exactly its plans and of no snapshot |
| `RecordRows.DeletePlanDrops` | backend/app/services/material_service.py:424-440 | a plan is deleted exactly at the version named and if no line references it, and nothing else goes |
| `PurchaseOutcomes.CreateSucceedsIff` | backend/app/services/material_service.py:268-314 | a creation succeeds exactly if the linked stock material and the images exist and number 999 of the date is free |
| `PurchaseOutcomes.UpdateSucceedsIff` | backend/app/services/material_service.py:317-355 | an update succeeds exactly if the plan exists in the given version, its links exist, and a changed date has a number left |
| `PurchaseOutcomes.BatchRenumbersInARow` | backend/app/services/material_service.py:393-400 | a batch that moves plans to one date succeeds exactly if all versions are right and enough numbers are left, and gives the redated plans, in batch order, the numbers that follow the highest one in use |
| `PurchaseOutcomes.UpdatePlansSucceedsIff` | backend/app/services/material_service.py:358-421 | a batch of plans succeeds exactly if it names distinct plans at their versions and a common new date, if given, has enough numbers left |
| `RecordOutcomes.RecordsRenumberInARow` | backend/app/services/purchase_request_service.py:262-327 | a batch that gives records one plan date succeeds exactly if it names distinct, current records and enough numbers of the date are left, and gives the redated snapshots, in batch order, the numbers that follow the highest one in use |
| `RecordOutcomes.UndatedRecordsSucceedIff` | backend/app/services/purchase_request_service.py:251-296 | a batch of records without a date succeeds exactly if it names distinct, current records |
| `PurchaseService.DrainMeaning` | backend/app/services/purchase_plan_cleanup_service.py:37-79 | the clean-up as a whole deletes exactly the referenced plans, leaves every line as it was but for its reference, and leaves the headers |
| `PurchaseService.CleanupProgress` | backend/app/services/purchase_plan_cleanup_service.py:37-79 | each round takes min(50, remaining) off the remaining candidates |
| `PurchaseService.PurchaseDesk.UpdatePlan` | backend/app/services/material_service.py:317-355 | writes the fields in place, as the source does, to exactly what the specification says, or fails with its error and leaves the tables |
| `PurchaseService.PurchaseDesk.UpdatePlans` | backend/app/services/material_service.py:358-421 | the same; a failure on the way undoes the plans already written |
| `PurchaseService.PurchaseDesk.MovePlans` | backend/app/services/purchase_request_service.py:90-177 | the same, one line per plan in the order of the plan ids |
| `PurchaseService.PurchaseDesk.UpdateRecord` | backend/app/services/purchase_request_service.py:211-248 | the same, field by field, for a record line and its header |
| `PurchaseService.PurchaseDesk.UpdateRecords` | backend/app/services/purchase_request_service.py:251-348 | the same: versions checked first, each header written once, then each line in turn; a failure undoes all |
| `PurchaseService.PurchaseDesk.CleanupOnce` | backend/app/services/purchase_plan_cleanup_service.py:37-79 | unlinks and deletes exactly the plans the specification says, and answers with their number |
| `PurchaseService.PurchaseDesk.ApplyTraceSync` | backend/app/services/purchase_record_sync_service.py:88-166 | fills headers and lines in place, field by field, exactly as specified, and counts the changed rows |
| `PurchaseService.PurchaseDesk.Drain` | backend/app/services/purchase_plan_cleanup_service.py:90-96 | the loop terminates and leaves exactly the drained store |
| `RecordSync.ProgressIsMax` | backend/app/services/purchase_record_sync_service.py:24-28 | a payload moves a status of the chain to the higher of its own and the target's rank, and no other status |
| `RecordSync.ProgressAllIsMax` | backend/app/services/purchase_record_sync_service.py:150-158 | any series of targets takes a status of the chain to the highest rank among itself and them; a status outside never moves |
| `RecordSync.OrderDoesNotMatter` | backend/app/services/purchase_record_sync_service.py:150-158 | two series with the same targets end at the same status |
| `RecordSync.SyncIsIdempotent` | backend/app/services/purchase_record_sync_service.py:88-166 | writing the same payload again changes nothing and reports (0, 0) |
| `RecordSync.SyncOnlyFills` | backend/app/services/purchase_record_sync_service.py:122-160 | what is not blank is never overwritten, and a version goes up by one exactly where something changed |
| `RecordSync.SyncAllMeaning` | backend/app/services/purchase_record_sync_service.py:88-166 | after any series of payloads for a trace number each of its lines has the status and the salesperson that folding the payloads gives |
| `RecordSync.SyncAllFillsHeaders` | backend/app/services/purchase_record_sync_service.py:122-141 | and the header of each of its lines has, in each of the five fields, the first value that fills it |
| `RecordSync.FirstGivenMeaning` | backend/app/services/purchase_record_sync_service.py:142-149 | a blank field ends with the first value given that is not blank, stripped |
| `RecordSync.FirstDateMeaning` | backend/app/services/purchase_record_sync_service.py:131-136 | a missing date ends with the first date given; a stored one stays, and it stays missing if none is given |
| `SyncRows.SyncFillsRows` | backend/app/services/purchase_record_sync_service.py:88-166 | one payload is accepted exactly for a trace number some line has; its lines and their headers take the payload where they are blank and move up the chain of statuses, each under its next version exactly if it changed; everything else stays, and the counts are the numbers of headers and lines that differ |
| `SyncRows.BlankIff` | backend/app/services/purchase_record_sync_service.py:44-45 | a text is blank exactly if it is missing or has nothing but whitespace |
| `SyncTargets.SqlBlankIsBlank` | backend/app/repositories/purchase_request_repository.py:70-90 | what the query takes for blank the service takes for blank |
| `SyncTargets.BlanksAgreeIff` | backend/app/repositories/purchase_request_repository.py:70-90 | the query and the service agree on whether a text is blank exactly unless it is whitespace that is not all spaces, so on every stripped text |
| `SyncTargets.DefaultCoversAllIff` | backend/app/repositories/purchase_request_repository.py:91-94 | asking for no field in particular finds the same lines as asking for all seven exactly if no due line lacks nothing but a final status |
| `SyncTargets.DefaultLeavesOutStatus` | backend/app/repositories/purchase_request_repository.py:91-94 | a valid store whose one line, complete but only applied for, is due when all fields are asked for and not by default |
| `SyncTargets.SyncOnlySettles` | backend/app/repositories/purchase_request_repository.py:69-103 | writing data back never makes a line due |
| `SyncTargets.FullPayloadSettles` | backend/app/repositories/purchase_request_repository.py:69-103 | after a payload with contract, vessel, salesperson and the final status no line of its trace number is due under the script's four fields |
| `SyncTargets.StillDueIsShown` | backend/app/repositories/purchase_request_repository.py:94-118 | paging from the start while any payloads are written back between the pages: when an empty page comes, every trace number still due has been shown |
| `TargetFilters.CutoffKeepsFrom` | backend/app/repositories/purchase_request_repository.py:99-103 | under a cutoff exactly the due rows are listed whose trimmed order number is there and not before it |
| `TargetFilters.RaisingCutoffDrops` | backend/app/repositories/purchase_request_repository.py:99-103 | raising the cutoff never adds a row |
| `TargetFilters.OwnNumberIsLastCutoff` | backend/app/repositories/purchase_request_repository.py:99-103 | a due row is listed under every cutoff up to its own order number and under none after it |
| `TargetFilters.OrderNoMattersToCutoffOnly` | backend/app/repositories/purchase_request_repository.py:99-103 | without a cutoff order numbers, missing ones included, change nothing |
| `TargetFilters.DueIfWaiting` | backend/app/repositories/purchase_request_repository.py:69-98 | without a cutoff a line is due exactly if its trace number is there and not all spaces and it waits for one of the fields asked for, or by default for any but the status |
| `TargetFilters.FieldsAddUp` | backend/app/repositories/purchase_request_repository.py:91-98 | asking for more fields finds exactly what asking for them apart finds |
| `Pager.GroupedMeaning` | backend/app/repositories/purchase_request_repository.py:104-116 | one group for each trace number, with its full count and latest row, in strictly descending order of latest rows |
| `Pager.PageMeaning` | backend/app/services/purchase_record_sync_service.py:64-85 | a page is the first groups up to the limit, has_more says whether there are others, next_cursor is the last one's latest row, and a page is empty only if nothing is due below the cursor |
| `Pager.NoMoreShowsAll` | backend/app/services/purchase_record_sync_service.py:72 | without has_more every remaining trace number is on the page |
| `Pager.WalkShowsAll` | backend/app/repositories/purchase_request_repository.py:94-118 | following next_cursor over a fixed table terminates and shows every trace number, the first time with its full count and latest row |
| `Pager.WalkDescends` | backend/app/repositories/purchase_request_repository.py:94-118 | the cursors go strictly down along the whole walk |
| `Pager.RepeatsHappen` | backend/app/repositories/purchase_request_repository.py:115-116 | a trace number can be shown twice |
| `Pager.NothingOmitted` | backend/app/repositories/purchase_request_repository.py:115-116 | even while other rows change between pages, a row that stays due has its trace number shown |
| `Pager.Client.Targets` | example/script/huayou-new-sync.user.js:321-334 | answers an empty list only if nothing is due, starting over from no cursor if need be |
| `Pager.Client.RunsToTheEnd` | example/script/huayou-new-sync.user.js:321-334 | the runs over a fixed table, from the stored cursor up to the first empty page, show exactly the walk along next_cursor |
| `Pager.Client.Run` | example/script/huayou-new-sync.user.js:446-508 | stores the smallest cursor of the page, which is its next_cursor |
| `Webhook.FiveFailures` | backend/app/services/webhook_service.py:36-37 | a delivery that always fails is eligible again exactly from 1, 5, 15 and 60 minutes after its first four attempts on, however long they take, and is given up after the fifth; the fifth entry of the table is never used |
| `Webhook.LeaseRunsOut` | backend/app/services/webhook_service.py:354-386 | a claimed delivery can be claimed again exactly from five minutes after the claim on |
| `Webhook.Outbox.ClaimNext` | backend/app/services/webhook_service.py:354-386 | claims the eligible delivery with the lowest id, or none exactly if there is none |
| `Webhook.Outbox.Finish` | backend/app/services/webhook_service.py:389-416 | leaves the delivery succeeded exactly on success, failed exactly on a failure from the fifth attempt on, and else pending for 1, 5, 15 or 60 minutes, whatever the row says |
| `Webhook.Outbox.DeliverPendingOnce` | backend/app/services/webhook_service.py:419-441 | one undisturbed round takes the lowest eligible delivery through one attempt, with that outcome |
| `WebhookRuns.StepKeeps` | backend/app/services/webhook_service.py:354-416 | while no live claim outlasts its lease, every step of any number of workers, crashes included, keeps: claims agree with their rows, no two are on one delivery, and attempts beyond five make up for crashes |
| `WebhookRuns.EveryTimelyRun` | backend/app/services/webhook_service.py:354-441 | on every such run from an empty outbox at most one worker holds a delivery, its attempts are the stored ones, and a delivery is claimed at most five times plus once for each claim lost in a crash |
| `WebhookRuns.BoundIsReached` | backend/app/services/webhook_service.py:354-416 | for every number of crashes some such run claims a delivery five times and once more for each of them |
| `WebhookRuns.AttemptsCountClaims` | backend/app/services/webhook_service.py:374-376 | attempts counts the claims, on every run, timely or not |
| `WebhookOutcomes.ClaimStarts` | backend/app/services/webhook_service.py:354-386 | a claim puts one delivery under way with one attempt more and changes no other |
| `WebhookOutcomes.ReportDecides` | backend/app/services/webhook_service.py:389-416 | a report, however late, decides its delivery as above and changes no other |
| `WebhookOutcomes.EveryDeliveryIsDecided` | backend/app/services/webhook_service.py:389-416 | on every timely run from an empty outbox a delivery is SUCCEEDED exactly if a report on it was a success, and FAILED exactly if none was and one was on a fifth attempt or later; only the last report on it can be either |
| `WebhookRuns.TerminalStaysOverRuns` | backend/app/services/webhook_service.py:389-416 | within the lease SUCCEEDED and FAILED rows are never touched again |
| `WebhookRuns.TerminalStaysIffNotHeld` | backend/app/services/webhook_service.py:389-416 | over all runs, within the lease or not, the row of a finished delivery never changes exactly if no worker still holds it |
| `WebhookRuns.LateReportReopens` | backend/app/services/webhook_service.py:389-416 | a run in which a worker that outlasted its lease reopens a delivered message |
| `DigestLocks.StepKeeps` | backend/app/services/file_service.py:58-70 | entering, taking, releasing, giving up and leaving keep the lock table sound |
| `DigestLocks.EveryInterleaving` | backend/app/services/file_service.py:58-70 | under every interleaving an entry is present exactly while it has users, its count is their number, tasks with one digest share one lock, and no two of them are in the guarded section |
| `DigestLocks.SomeoneCanGoOn` | backend/app/services/file_service.py:63-65 | while a task waits, some task with its digest can go on |
| `DigestLocks.Locks.EnterFor` | backend/app/services/file_service.py:60-62 | finds or makes the entry and counts the task |
| `DigestLocks.Locks.AcquireFor` | backend/app/services/file_service.py:64 | takes the lock exactly if nobody holds it |
| `DigestLocks.Locks.StopUsing` | backend/app/services/file_service.py:64-66 | gives the lock up, or the waiting for it |
| `DigestLocks.Locks.LeaveFor` | backend/app/services/file_service.py:66-70 | uncounts the task and drops the entry with its last user |
| `Identifiers.AssembleIsSum` | backend/app/core/identifiers.py:32-39 | the or-ed fields do not overlap (section 5.7 of RFC 9562) |
| `Identifiers.TextIsManagedName` | backend/app/services/file_service.py:39-41 | every identifier has version 7 and variant 10 and the form that file_service.py recognises in front of .png |
| `Identifiers.LaterIsLarger` | backend/app/core/identifiers.py:15-40 | a later identifier is larger than any earlier one, as a number and as a text, for any clock readings and draws, while the millisecond fits 48 bits (section 6.2 of RFC 9562) |
| `Identifiers.NextIsLargerIff` | backend/app/core/identifiers.py:15-40 | with no bound on the clock: a stalled or backward clock gives a larger identifier except in the very last state of 48 bits and 74 random bits; a later reading does exactly if, cut to 48 bits, it and the draw are larger |
| `Identifiers.OrderBreaksAt48Bits` | backend/app/core/identifiers.py:32 | the carry out of the last millisecond of the 48 bits wraps to a smaller identifier |
| `Identifiers.Generator.Uuid7` | backend/app/core/identifiers.py:15-40 | advances the generator and answers the canonical text, larger than the one before |
| `Csv.ParseCsv` | example/script/huayou-new-sync.user.js:134-163 | the character loop computes the specified scan |
| `Csv.CrlfRoundTrip` | example/script/huayou-new-sync.user.js:134-163 | parsing inverts writing by section 2 of RFC 4180 for all non-empty rows and all cell contents, quoted or bare |
| `Csv.LfRoundTripIff` | example/script/huayou-new-sync.user.js:152-153 | with bare line feeds it does so exactly if no row's last cell ends in CR |
| `Csv.UnterminatedRoundTripIff` | example/script/huayou-new-sync.user.js:158-161 | a last row without line break is read back exactly if it is not one empty cell and does not end in CR |
| `Csv.RereadingIsStable` | example/script/huayou-new-sync.user.js:134-163 | what was read from any text, written back quoted, reads the same |
| `Decimals.NormalizeMeaning` | frontend/src/utils/decimal.ts:14-20 | the normal form has the same value and no needless zero or point |
| `Decimals.NormalizeIsIdempotent` | frontend/src/utils/decimal.ts:14-20 | normalising twice is normalising once |
| `Decimals.NormalFormsAreUnique` | frontend/src/utils/decimal.ts:14-20 | normal forms with equal values are equal |
| `Decimals.CompareIsOrder` | frontend/src/utils/decimal.ts:22-34 | compareDecimal is the order of the values, for digits of any length, and 0 exactly if the normal forms are equal |
| `Decimals.SubtractIsExact` | frontend/src/utils/decimal.ts:36-49 | subtractDecimal prints the normal form of the exact difference, with a minus sign exactly if it is negative |
| `Schemas.ReferenceMentions` | backend/app/mcp_server.py:115-120 | a dictionary with a schema's path under $ref mentions that schema, and what its other values mention |
| `Schemas.CollectedExactly` | backend/app/mcp_server.py:112-130 | the collected names are exactly those reachable through references, over any graph of schemas, cyclic or not |
| `Schemas.Collector.CollectNode` | backend/app/mcp_server.py:115-128 | the recursion that grows the shared set terminates and collects as specified |
| `Schemas.ReferencedSchemas` | backend/app/mcp_server.py:112-131 | the answer holds exactly the reachable schemas |

## Left out

- Stock is not claimed to stay non-negative: nothing in the services enforces it.
- Operation numbers, name, model and unit snapshots of operation lines, the event log, the webhook enqueued by an operation, and the answers' read models.
- Line ids of operations: an operation has at most one line per material, so (time, operation id) already orders the lines of a material.
- The check that stock materials of a payload exist: balances reference stock materials, so the balance check comes first and covers it.
- Duplicate client request ids that collide at the database between two transactions, gaps that rollbacks leave in ids, and the three-attempt retry around plan creation: a service call is one atomic transaction.
- Column overflow (18-digit quantities, the tiny integer of webhook attempts) and the quantity precision check, which integers in tenths make unnecessary.
- Whitespace beyond ASCII in stripping, and database collations: texts compare by code unit.
- Stock materials are ids, with versions in the purchase part; their fields, images and the policy of replenishment are not modelled.  The ledger and the purchase part are two models: in the second, whether a material has operations is a parameter, and in the first deleting one takes no version.
- Ids of new stock materials come with the request, and a repeated one stands for a repeated name, specification and unit.
- The clock: the date of today, the default order number and all times are parameters; workers share one clock.
- Parsing of the comma-separated list of fields and its errors: the fields are a set.
- Row locking and skipping of locked rows: a worker of the webhook machine may claim any eligible delivery.
- Decryption of channels, payloads, responses and error texts of webhook deliveries: a send succeeds or fails.
- Files and images behind the digest lock, and the byte-order mark and report sections around the CSV scanner.
- The order of the schemas in the answer of the schema closure, and validation of decimal strings before arithmetic.
- Plan templates, replenishment drafts, imports and exports, shares, the AI search, the mini program and the user interface.
- PurchaseRuns.MovePlansKeeps: a move names at least one plan, as the request schema demands.
- Pager.WalkShowsAll: row ids start at one, since a cursor of zero means no cursor.
- Identifiers.LaterIsLarger: it starts from a generator that has seen a clock reading at or after the epoch.
- Decimals.SubtractIsExact: it covers digits with at most one point, on either side of which digits may be missing; other texts make the original throw.
