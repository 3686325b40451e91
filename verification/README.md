# OrderCore fulfilment model

A Dafny model of the fulfilment core of OrderCore: an order owns item rows,
split child rows, shipments with quantities per row, and platform packages, and
manual actions as well as platform syncs rewrite all of them. The project proves
what those rewrites keep, over single calls and over whole runs.

Each operation has a specification function, which says what the new rows, header
or table are, and a method, which is the service's loop or sequence of writes and
is proved to end in exactly that. The theorems are about the specification
functions and hold for every order, payload and run; for every operation one of them says,
on the columns and without those functions, what is accepted and what is left. Values (rows, orders,
shipments, packages) are datatypes; what the service updates in place is a class.

| file | about |
|---|---|
| `Model.dfy` | rows, orders, shipments and the small predicates on them |
| `Ledger.dfy`, `Shipping.dfy`, `Quantities.dfy`, `ShipStages.dfy` | the shipment ledger: quantities, ship status, Ship, Unship, synced waybills, stages |
| `SplitSync.dfy`, `SplitSyncLoops.dfy`, `SplitOutcome.dfy` | split plans: theorems, the procedure, and the outcome row by row |
| `FulfilmentStore.dfy` | runs over the stored orders: ledger and status invariants |
| `RowSync.dfy`, `RowOutcome.dfy` | synced payload onto item rows: matching, replace and merge, replay |
| `Rollup.dfy`, `Allocation.dfy`, `PoAlignment.dfy` | header roll-up, allocate, revoke, unlink, purchase order alignment |
| `RollupColumns.dfy`, `AllocationOutcome.dfy`, `PoOutcome.dfy` | their outcomes, column by column |
| `AllocSplit.dfy` | split-off orders and folding them back after a revoke |
| `Ingest.dfy`, `PackageFulfilment.dfy` | the order sync and the package sync |
| `IngestColumns.dfy`, `PackageOutcome.dfy` | their outcomes, column by column |
| `SyncRuns.dfy`, `SyncShip.dfy`, `SyncLedger.dfy` | runs of order syncs, sibling merges and package syncs: closed state and allocation, ship status, shipment ledger |
| `SiblingMerge.dfy`, `SiblingMergeLoops.dfy`, `MergedRows.dfy`, `FamilyOutcome.dfy`, `PackageTable.dfy` | one order per platform order; where every row's allocation comes from; package ownership |
| `Money.dfy`, `MoneyOutcome.dfy`, `SequenceNo.dfy`, `ListExpansion.dfy` | apportionment and order lines, numbering, the expanded list |

Conventions: ids are positive, 0 and "" mean "not set"; text is already trimmed;
amounts are integer cents and shares exact ratios; time is an abstract instant;
each database transaction is atomic and succeeds; rows are listed in key order, and
rows that change order are listed after those already there.

Where code and expectation part ways, the model follows the code:

- Undo is not an inverse in general. `ShipThenUnship` gives the exact condition and
  `UnshipLeavesShipped` an order for which it fails.
- Replaying a payload is not always a no-op. `ReplayIsNoOp` needs distinct oids in the
  payload only; `SingleLineReplay` is exact for one line of any kind, and `ReplayCanSwap`
  shows two identified lines that trade rows.
- A self or purchase row does become channel_ship, by two package syncs
  (`TwoSyncsOverruleOwnStock`); `OwnStockOverRuns` is exact.
- Splitting goods off and folding them back raises the payment of an order that was paid less
  than the goods' amounts (`SplitThenFold`).
- `roundMoney` truncates toward zero, so a negative amount comes out one cent high, and
  a negative last remainder makes a self order one cent too large (`SharesConserve`).
- The header roll-up reads the header's own purchase order, so it may need two rounds
  (`RollupSettles`), and a contested one is cleared in between.
- After 9999 the string maximum no longer is the numeric one, and a day ends at ten
  thousand numbers (`DailyBound`).
- The merge keeps the package with the older order and then deletes that order's
  packages, so a sibling older than the keeper takes its package with it (`PackagesLost`).
  A waybill that shipped a dropped duplicate row is left referring to no row
  (`ShipmentRowsStayLive`).
- In the list a package without rows shows all rows of its order (`EmptyPackageShowsAll`), and a row
  whose package is gone, as a merge leaves behind, is on no line (`LostPackageHidesRow`);
  `EveryRootShownOnce` is exact.
- The order write overrules a waybill that was not loaded with the order
  (`UnseenWaybillIsOverruled`). The package step of the same sync restores the status if the
  payload's goods reach a row (`GoodsShowWaybills`), and a sync without goods leaves it waiting
  (`WaybillWithoutGoods`); `WholeSync` is exact for the three steps together where the order
  written is the one that keeps, `MergeThenPackage` for the last two from any other keeper.
- The sibling merge that every platform sync runs after the backstop can leave a closed
  order with rows to fulfil (`ClosedKeeperTakesLiveRow`) and a partly shipped one waiting
  (`MergeTakesPartlyShippedBack`); `ClosedOverRuns` and `ShipOverRuns` are exact.
- Syncs write and delete rows without looking at shipments: one can cut a row below what has
  shipped, delete it, or drop it as a duplicate (`SyncCutsShippedRow`, `SyncDeletesShippedRow`,
  `DroppedRowLeavesOrphans`); `LedgerOverSyncs` is exact.
- The re-derived hint inside the keep-open branch of the order sync is never taken: it
  is derived from the same request and closes again. The model leaves it out.

## Model

| member | source | states |
|---|---|---|
| Ledger.RecomputeIsIdempotent | internal/service/order_service.go:4844-4878 | for every order: writing the computed ship status back and computing again gives the same status, also where the row-less fallback reads the status it then feeds |
| Ledger.ShipStatusByRow | internal/service/order_service.go:4844-4878 | row by row: shipped exactly when no shippable row has anything left, waiting exactly when every shippable row has all of its quantity left |
| Ledger.IsShippableOrderItem | internal/service/order_service.go:4689-4725 | the scan decides exactly whether the row is a split child, or a row no full split and no partial child replaces |
| Ledger.ShippedQtyByItem | internal/service/order_service.go:4728-4756 | the map built by the nested loops holds, for each item row, the ledger's shipped quantity, the row-less fallback included |
| Ledger.RemainingQtyByItem | internal/service/order_service.go:4758-4773 | the map gives, for every item row, what is left of it: nothing for rows that are not shippable, never less than zero |
| Ledger.ComputeShipStatusAfter | internal/service/order_service.go:4844-4878 | the status the loops compute is the status the ledger's quantities imply once the given lines have shipped |
| Shipping.ResolvedLinesFit | internal/service/order_service.go:4775-4842 | if and only if: a request resolves exactly when every line names a live shippable row and the lines together, duplicates included, stay within what is left of each row |
| Shipping.RemainingShipLines | internal/service/order_service.go:4780-4797 | without explicit lines, one line per row that still has something left, for all of it |
| Shipping.ResolveShipLines | internal/service/order_service.go:4775-4842 | the running subtraction accepts and refuses exactly as the cumulative specification does, with the same error for the same first bad line |
| Shipping.ShipAddsLines | internal/service/order_service.go:4060-4197 | a Ship that changes the order adds exactly the resolved lines to every row's shipped quantity, whether it opens a waybill or appends to one |
| Shipping.ShipEstablishesStatus | internal/service/order_service.go:4005-4197 | wherever the order started, a Ship that changes it leaves the ship status in agreement with the ledger |
| Shipping.UnshipEstablishesStatus | internal/service/order_service.go:4257-4293 | every accepted undo leaves the header in agreement with the ledger, also when the waybill is not found |
| Shipping.WaybillKeepsStatus | internal/service/order_service.go:7373-7442 | a synced waybill, which has no rows, keeps the header in agreement; it can only arm the fallback of an order that is shipped already |
| Shipping.ShipThenUnship | internal/service/order_service.go:4162-4293 | Ship under a fresh waybill and then undo gives back rows and shipments always, and the header exactly when the order was shipped, or the lines do not complete it, or it had no shipments, or one of them has rows |
| Shipping.UnshipLeavesShipped | internal/service/order_service.go:4747-4754 | the excluded case with a concrete order: a row-less waybill, then a full shipment, then its undo, and the order still says shipped |
| Shipping.UndoneShippedAt | internal/service/order_service.go:4341-4362 | when the undo restores the header, shipped_at comes back exactly in the stated cases |
| ShipStages.ShipMovesStage | internal/service/order_service.go:4162-4362 | a Ship that changes the order: one that was allocated, purchasing, partly shipped or shipped ends shipped exactly if the ledger has nothing left, partly shipped exactly if it has shipped some but not all, and else purchasing or allocated by its path; any other stage stays, and of the header only the ship status changes |
| ShipStages.UnshipMovesStage | internal/service/order_service.go:4257-4362 | the same for an undo that changes the order |
| ShipStages.StagesOverRuns | internal/service/order_service.go:3955-4362 | over every run of Ship, Unship and waybill sync every order on its way is at the stage its ledger calls for, and every other order stays at its own |
| ShipStages.ShipAccepted | internal/service/order_service.go:3955-4160 | Ship is accepted exactly for an order that is not closed, blocked, unallocated, locked or at a factory, under the stated exceptions, and a request whose lines resolve and ship something |
| ShipStages.UnshipAccepted | internal/service/order_service.go:4215-4256 | an undo is refused exactly without a number and on a closed order |
| ShipStages.ShipmentsAfter | internal/service/order_service.go:4060-4197 | the lines go to the first shipment with the number, which takes the carrier only if it had none, or to a new one; every other shipment stays |
| ShipStages.ShipSetsTime | internal/service/order_service.go:4341-4362 | what completes an order sets its shipping time, and nothing else does |
| ShipStages.UnshipClearsTime | internal/service/order_service.go:4272-4280 | an undo that leaves nothing shipped clears the shipping time, and no other does |
| ShipStages.WhatIsLeft | internal/service/order_service.go:4689-4773 | what is left of a row: its quantity less what the waybills shipped, where no full split and no partial child stands for it and no row-less shipment of a shipped order counts it as shipped |
| ShipStages.WhatShipped | internal/service/order_service.go:4728-4756 | what the waybills shipped of a row is the sum of the positive quantities of all their rows for it |
| Quantities.ShipKeepsLedger | internal/service/order_service.go:3955-4212 | Ship keeps: no row ships more than its quantity, every shipment row refers to an item row with a positive quantity, waybills are listed once |
| Quantities.UnshipKeepsLedger | internal/service/order_service.go:4215-4300 | the undo keeps the same ledger invariant |
| Quantities.WaybillKeepsLedger | internal/service/order_service.go:7373-7442 | a synced waybill keeps the same ledger invariant |
| SplitSync.SplitKeepsLedger | internal/service/order_service.go:4407-4624 | a split sync keeps the ledger invariant, quantity cuts on shipped children included |
| SplitSync.ShippedChildStays | internal/service/order_service.go:4503-4624 | a child with shipment rows is never deleted; it keeps parent, kind and plan line, and its quantity still covers what has shipped |
| SplitSync.OneChildPerPlanLine | internal/service/order_service.go:4434-4624 | with one child per plan line before, every requested plan line has exactly one child afterwards, and an unshipped one is exactly what the last request line for it says |
| SplitOutcome.RowsThatGo | internal/service/order_service.go:4489-4537 | a row of the order goes exactly if it is a child without shipment rows, its plan line is not named, and the sync is not partial, names no parent, or names this child's |
| SplitOutcome.OutOfScopeUntouched | internal/service/order_service.go:4489-4530 | a partial sync leaves children of parents neither the request nor a line names, and rows that are no children, exactly as they are unless their plan line is named |
| SplitOutcome.OtherParentsChildStays | internal/service/order_service.go:4489-4530 | for example: two roots, a child of the second, and a partial sync for the first; the child is as it was |
| SplitOutcome.UnnamedRowsStay | internal/service/order_service.go:4503-4624 | a row whose plan line is not named is as it was or gone |
| SplitOutcome.PlannedChild | internal/service/order_service.go:4538-4600 | the last child of a named plan line has what the last line for it says: name, quantity, parent, kind and the parent's goods if it has not shipped, else name and quantity alone, the quantity never cut below what has shipped |
| SplitOutcome.NewPlannedChild | internal/service/order_service.go:4601-4624 | a named plan line without a child gets a new one, as its last line says, with a fresh key and numbered after all rows |
| SplitOutcome.SplitRefused | internal/service/order_service.go:4407-4482 | a request is refused exactly for a missing mode or a line without name, quantity, plan line or, in a partial sync, a root of the order as parent |
| SplitSync.SplitReplayIsNoOp | internal/service/order_service.go:4407-4658 | sending the same split request again changes nothing, whatever plan lines repeat among stored children or in the request |
| SplitSyncLoops.ShippedItemIds | internal/service/order_service.go:4434-4441 | the collected set is exactly the items with a shipment row |
| SplitSyncLoops.CheckLines | internal/service/order_service.go:4464-4482 | the first faulty line and its fault, or none |
| SplitSyncLoops.ChildrenByPlan | internal/service/order_service.go:4443-4462 | the map finds, for each plan line, the child the specification revises: the last one |
| SplitSyncLoops.DeleteUnplanned | internal/service/order_service.go:4503-4537 | what is left is exactly the rows the specification keeps |
| SplitSyncLoops.SyncSplitRows | internal/service/order_service.go:4407-4658 | the whole procedure, validation, deletion and the update-or-create loop, ends in the specified rows or the specified error |
| FulfilmentStore.LedgerOverRuns | internal/service/order_service.go:3955-4624 | over every run of Ship, Unship, waybill sync and split sync on any orders, the ledger invariant of every order holds |
| FulfilmentStore.StatusOverRuns | internal/service/order_service.go:3955-4300 | over every run of Ship, Unship and waybill sync from agreeing orders, every header status equals the computed one |
| FulfilmentStore.OrderStore.Ship | internal/service/order_service.go:3955-4212 | the step-by-step Ship, with all its refusals, append and new-waybill branches, takes the table to the state the run semantics gives and keeps the invariant |
| FulfilmentStore.OrderStore.UnshipByExpressNo | internal/service/order_service.go:4215-4300 | likewise for the undo; a missing waybill only repairs the status |
| FulfilmentStore.OrderStore.SyncIngestLogistics | internal/service/order_service.go:7373-7442 | likewise for the waybills of a payload, recorded once per number |
| FulfilmentStore.OrderStore.SyncSplitItems | internal/service/order_service.go:4407-4658 | likewise for a split sync; a refused request leaves the table alone |
| FulfilmentStore.OrderStore.FindShipment | internal/repo/repo.go:1056-1065 | the first shipment with the number, or none |
| RowSync.ChoicesInjective | internal/repo/repo.go:760-947 | no two payload lines take the same stored row, and only roots are taken |
| RowSync.OwnRow | internal/repo/repo.go:760-869 | after a sync every line has a root of its own with the line's quantity, amounts, after-sale state and goods, sku and oid where the line has them; of a stored row it keeps key, number, place, package, fulfilment and what the line leaves empty, and a new one has nothing but the line |
| RowOutcome.LineTakesBest | internal/repo/repo.go:880-947 | each line takes a free root it names by platform line, item and sku, sku, name and specs or, in a whole payload, row number; none names it in an earlier of these ways, and it is the oldest that is named as well; no row is taken exactly if no free root is named |
| RowOutcome.RowsDeleted | internal/repo/repo.go:851-867 | a row is deleted exactly if the payload is the whole order, the row is a root no line took, and no row hangs on it |
| RowOutcome.UntakenStays | internal/repo/repo.go:771-867 | a row no line took is as it was or gone |
| RowOutcome.MergedRowNumber | internal/repo/repo.go:786-805 | a row a merged package adds is numbered after all roots there were |
| RowSync.ChildUntouched | internal/repo/repo.go:760-869 | split children, and any row that is no root, are left exactly as they are in both modes |
| RowSync.MergeKeepsRoots | internal/repo/repo.go:755-869 | merging a package deletes no row: each keeps key, allocation, package and row number |
| RowSync.ReplayIsNoOp | internal/repo/repo.go:760-869 | replaying a payload with distinct non-empty oids changes, creates and deletes nothing, in both modes, whatever oids the stored rows carry |
| RowSync.SingleLineReplay | internal/repo/repo.go:880-947 | for any single line, oid or not, the replay is a no-op exactly when rows are replaced or the line carries an oid, a sku, a name or specs |
| RowSync.BlankLineGrows | internal/repo/repo.go:880-947 | a merged line with no identity is inserted again by every sync, whatever is stored |
| RowSync.ReplayCanSwap | internal/repo/repo.go:880-947 | two identified lines without oids can trade rows on the second sync: concrete rows and payload |
| RowSync.MatchExistingRoot | internal/repo/repo.go:880-947 | the tiered scans over unused roots find the specified best match, tiers in the code's order |
| RowSync.ItemTable.ReplaceItems | internal/repo/repo.go:760-869 | update, insert and delete loops with the growing used set end in the specified rows, with keys still unique and increasing |
| RowSync.ItemTable.UpsertLines | internal/repo/repo.go:771-838 | the used set, the rows and the next key after the update-or-insert loop |
| Rollup.RollupSettles | internal/service/fulfillment_rollup.go:68-216 | writing the roll-up back settles after one application if and only if the header's purchase order is not contested by the rows' only one; two applications always settle |
| Rollup.OnlyPoFeedsBack | internal/service/fulfillment_rollup.go:68-216 | two headers over the same rows get the same summary except for the purchase order |
| Rollup.ContestedTakesTwo | internal/service/fulfillment_rollup.go:103-109 | the contested case with a concrete order: header B, row A, and a row without; first the header is cleared, then it takes A |
| Rollup.HeaderTypeIs | internal/service/fulfillment_rollup.go:152-159 | the header gets a path, not a mixture, exactly when some allocated root, and every one, has it |
| Rollup.HeaderShipMeaning | internal/service/fulfillment_rollup.go:90-185 | shipped exactly when every fulfillable root is allocated and shipped; waiting exactly when no allocated root is shipped or partly shipped |
| Rollup.RollupIgnoresRowOrder | internal/service/fulfillment_rollup.go:90-215 | status, agent type, allocation, ship status, purchase order and self number do not depend on the order of the rows |
| Rollup.RollupOrderFulfillmentFields | internal/service/fulfillment_rollup.go:68-216 | the loop over local sets and flags computes the specified summary, or none without a fulfillable root |
| RollupColumns.StageColumns | internal/service/fulfillment_rollup.go:90-185 | stage and ship status by the rows: waiting for allocation exactly while no row is allocated, shipped exactly when every row is, partly shipped when one has moved, else purchasing exactly if all allocated rows are bought first |
| RollupColumns.PathColumn | internal/service/fulfillment_rollup.go:152-159 | the header has a path exactly if every allocated row has it |
| RollupColumns.FirstRowColumns | internal/service/fulfillment_rollup.go:115-130 | supplier, factory and mode are those of the first allocated row that has one |
| RollupColumns.NoFirstRowColumns | internal/service/fulfillment_rollup.go:115-130 | and are empty if no allocated row has one |
| RollupColumns.PoColumn | internal/service/fulfillment_rollup.go:103-114 | the header has a purchase order exactly if the rows are on that one and no other, a dropship row without one leaning on the header's |
| RollupColumns.SelfColumn | internal/service/fulfillment_rollup.go:111-114 | the header has a self number exactly if the rows have that one and no other |
| RollupColumns.TimeColumn | internal/service/fulfillment_rollup.go:127-131 | the latest time at which a row was allocated |
| RollupColumns.AgentColumn | internal/service/fulfillment_rollup.go:131-135 | the factory's agent exactly if a row is pushed to a factory |
| Allocation.AllocateWritesChosen | internal/service/order_service.go:1646-1704 | an accepted allocation writes the terms on exactly the chosen rows, each a free fulfillable root, and touches no other; a refusal writes nothing |
| Allocation.WriteOnce | internal/service/allocate_split.go:15-43 | over any run of allocations, a row that is allocated once stays exactly as it was written |
| Allocation.RevokeClears | internal/service/order_service.go:3362-3406 | an accepted revoke clears every row and returns the header to waiting for allocation |
| Allocation.RevokeUndoesRun | internal/service/order_service.go:3310-3417 | any run of allocations on a clean open order and then a revoke restores every row; the revoke is refused exactly when no request of the run was accepted and the header had nothing to revoke before it |
| Allocation.UnlinkKeepsOtherRows | internal/service/order_service.go:2923-3002 | an unlink that clears frees exactly the dropship rows and rows on a purchase order; self-shipped rows keep their allocation |
| Allocation.UnlinkOnlyTakesPos | internal/service/order_service.go:2931-2966 | an unlink that does not clear takes purchase orders only; a finished order with none on its header or a dropship root is left alone entirely |
| Allocation.UnlinkedCanBeAllocated | internal/service/order_service.go:2967-2980 | after an unlink that clears, the freed rows can be selected for allocation again |
| Allocation.SelectAllocateItemIds | internal/service/fulfillment_rollup.go:12-35 | the selected ids are the fulfillable roots asked for, or all of them, or a refusal when none of those asked for exists |
| Allocation.CheckFree | internal/service/allocate_split.go:15-43 | the first chosen row that is allocated or shipped already, or none |
| Allocation.AllocationDesk.Allocate | internal/service/order_service.go:1503-1726 | target, gates, row writes and roll-up in order; rejected as a whole or applied as specified |
| Allocation.AllocationDesk.RevokeAllocate | internal/service/order_service.go:3310-3417 | after an accepted revoke no row carries any fulfilment, the header waits for allocation and automatic allocation stays off; a refusal means the header is finished or has moved, or no root is allocated, and changes nothing |
| Allocation.AllocationDesk.UnlinkDropshipPO | internal/service/order_service.go:2923-3002 | the new state of an unlink, in its terminal, purchase-order-only and clearing forms |
| AllocationOutcome.AllocateAccepted | internal/service/order_service.go:1503-1575 | an allocation goes through exactly if all rows asked for are free and there is one, or nothing can be fulfilled at all, the order is not finished, shipped, blocked or wholly at a factory, and the terms name a path and for a dropship a supplier |
| AllocationOutcome.AllocateLeaves | internal/service/order_service.go:1646-1704 | what it leaves: the terms, column by column, on the rows asked for, every other row as it was, and a header that summarises the rows or has the terms where nothing can be fulfilled |
| AllocationOutcome.RevokeAccepted | internal/service/order_service.go:3310-3361 | a revoke goes through exactly if the order is not finished, nothing has moved, and its header, its stage or a root says that something is allocated |
| AllocationOutcome.RevokeLeaves | internal/service/order_service.go:3362-3417 | what it leaves: no column of any row or of the header, and automatic allocation off |
| AllocationOutcome.UnlinkLeaves | internal/service/order_service.go:2967-3002 | an unlink that clears frees exactly the dropship roots and the roots on a purchase order, and the header, without one, summarises what is left |
| AllocationOutcome.UnlinkTakesPos | internal/service/order_service.go:2923-2966 | any other unlink takes the purchase orders of header and roots and nothing else, and leaves a finished order without any alone |
| PoAlignment.RelinkMakesLive | internal/service/order_service.go:2373-2417 | after a relink the header and every dropship root are on live purchase orders, and rows already on a live one are unchanged |
| PoAlignment.AlignIsIdempotent | internal/service/order_service.go:2323-2417 | aligning again with the same live list changes nothing |
| PoAlignment.RelinkOnce | internal/service/fulfillment_rollup.go:275-352 | after a relink, another is asked for if and only if a row that is no root still names a purchase order that is not live |
| PoAlignment.StaleReferenceGoes | internal/service/order_service.go:2420-2477 | with no live purchase order, a header reference goes exactly when it is stale, together with every dropship row's copy of it, and nothing else changes |
| PoAlignment.OrderDropshipPONos | internal/service/fulfillment_rollup.go:275-299 | the header's and the dropship rows' purchase orders, without blanks and repeats, in order of first appearance |
| PoAlignment.PickLiveDropshipPO | internal/service/fulfillment_rollup.go:322-352 | the relink target, or none, as specified by which of the order's purchase orders are live |
| PoAlignment.PoKeeper.AlignDropshipPORef | internal/service/order_service.go:2323-2477 | relink, keep, or forget a stale reference, for a known live list and whether the supply system still lists the header's purchase order |
| PoAlignment.RelinkRows | internal/service/order_service.go:2385-2415 | exactly the dropship roots without a live purchase order move to the target |
| PoOutcome.AlignedTo | internal/service/fulfillment_rollup.go:275-352 | an order that is on no live purchase order, or on one that is not, while there are live ones, has every other reference of its header and dropship roots moved to its own live one, the header's first, or else to the first one listed; with none live a stale header reference goes with its copies; otherwise it is as it was |
| Money.RoundMoneyIs | internal/service/order_service.go:7444-7446 | half-up to within half a cent from minus half a cent upwards; below that the result is half a cent to one and a half too high |
| Money.SharesConserve | internal/service/order_service.go:1931-1961 | for every payment and weighting the unclamped lines sum to the payment exactly when the last remainder is not negative, and to one cent more otherwise |
| Money.ShareError | internal/service/order_service.go:1950-1957 | every line but the last is within half a cent of its exact proportional share and not negative |
| Money.RemainderDrift | internal/service/order_service.go:1950-1957 | the last remainder is within half a cent per leading line of the last line's own share |
| Money.EnoughOnLastLine | internal/service/order_service.go:1931-1961 | if the last line's share is at least (n-1)/2 cents the lines sum to the payment |
| Money.ClampedConserve | internal/service/order_service.go:2020-2075 | clamped purchase lines sum to the payment when the remainder allows, otherwise exceed it by exactly the shortfall, at most (n-1)/2 cents |
| Money.TwoCentsOverFourLines | internal/service/order_service.go:1931-1961 | the bad case with concrete numbers: two cents over four equal lines come out as three |
| Money.SelfLinesConserve | internal/service/order_service.go:1910-1982 | the self-order lines of any order sum to its payment, up to the one known cent |
| Money.Apportion | internal/service/order_service.go:1948-1957 | the accumulating loop gives the proportional shares with the rest on the last line |
| Money.MapOrderToSelfLines | internal/service/order_service.go:1910-1982 | the self-order lines of any order: live unsplit rows, weights, shares, unit prices |
| Money.MapOrderToPOLines | internal/service/order_service.go:1986-2126 | the purchase lines of any order: only dropship rows once rows are allocated, clamped shares, and unit prices from a stated purchase total |
| MoneyOutcome.SelfLinesAreFor | internal/service/order_service.go:1918-1930 | a self order has a line for every row that is neither split nor refunded nor empty, in their order |
| MoneyOutcome.PoLinesAreFor | internal/service/order_service.go:1990-2018 | a purchase order likewise, and once any root is allocated only for dropship rows |
| MoneyOutcome.SelfLineIs | internal/service/order_service.go:1931-1975 | a self line has its row's key and quantity, the payment's share to half a cent by line total, or price times quantity, or one yuan, and a unit price that fits it to half a cent a piece |
| MoneyOutcome.SelfLinesSum | internal/service/order_service.go:1910-1982 | the self lines sum to what was paid, or to the order's total where nothing is recorded as paid, or to one cent more |
| MoneyOutcome.BoughtLineIs | internal/service/order_service.go:2020-2075 | a purchase line likewise, never below zero, and with a purchase total the unit price of its share by quantity |
| SequenceNo.PadOrder | internal/repo/repo.go:1184-1197 | up to 9999 the string order of padded counters is their numeric order |
| SequenceNo.FirstAttemptFresh | internal/repo/repo.go:1139-1159 | with every counter at most 9999, the next number is the maximum plus one and is fresh |
| SequenceNo.StuckAfter9999 | internal/repo/repo.go:1184-1197 | once 9999 is out, numbering can go on if and only if 10000 is not out, and then only with 10000 |
| SequenceNo.DailyBound | internal/repo/repo.go:1139-1197 | numbers run 1, 2, 3 and so on up to exactly ten thousand a day; the next one never comes |
| SequenceNo.NextNumber | internal/repo/repo.go:1139-1181 | twenty attempts return a fresh number if one can be issued at all, and otherwise all collide |
| PackageTable.OldestClaimantOwns | internal/repo/repo.go:603-672 | after any sequence of upserts by orders of one tid, a new system number belongs to the least order id that ever upserted it |
| PackageTable.OwnersAgree | internal/repo/repo.go:603-672 | any two orders of the same upserts agree on every owner |
| PackageTable.MailsStayDistinct | internal/repo/repo.go:603-672 | no two packages of an order come to share a mail number if and only if no package changes order with a number already listed there |
| PackageTable.MovingPackageBringsClash | internal/repo/repo.go:626-672 | the excluded case with concrete packages: one moves in with the mail number of one that is there |
| PackageTable.StayingPackagesKeepMails | internal/repo/repo.go:603-672 | over any sequence in which packages stay in their order, mail numbers stay distinct |
| PackageTable.PackageStore.UpsertOrderPackage | internal/repo/repo.go:603-672 | create, owner resolution, mail number and primary flag writes give the specified table |
| PackageTable.UpsertedColumns | internal/repo/repo.go:603-672 | every column of an upserted package: owner, texts, primary flag, and a mail number only if no other package of the order has it |
| PackageTable.OthersDemoted | internal/repo/repo.go:603-672 | of the others none changes but those of the order, which stop being primary when a known package becomes it |
| Ingest.FulfillableBefore | internal/service/order_service.go:860-907 | a row that can be fulfilled after the row sync comes from a stored root or a payload line that could be |
| Ingest.IngestKeepsShip | internal/service/order_service.go:1164-1187 | a sync that leaves the order open never writes a shipped or partly shipped header back to waiting |
| Ingest.WaitingSync | internal/service/order_service.go:1164-1187 | what the order write of a waiting sync leaves on an order that stays open: waiting exactly when nothing had left and no waybill was in view, otherwise at least partly shipped; the merge and the package step of the same sync follow |
| Ingest.UnseenWaybillIsOverruled | internal/service/order_service.go:1164-1187 | the order write on one concrete order with a waybill: loaded with its shipments it becomes shipped or partly shipped, loaded without them it is left waiting |
| Ingest.AllocationSurvives | internal/service/order_service.go:1022-1162 | the header's type, mode, supplier, purchase order and self number survive an order sync if and only if none of the overwriting guards holds: another platform allocation, an offline dropship to restore, a withdrawal with no allocated row, a supplier found for a factory dropship |
| Ingest.RestoreShipStatus | internal/service/order_service.go:7357-7370 | a status exactly when there is a waybill, never waiting, and shipped exactly when the ledger says so or says waiting under a shipped header |
| Ingest.IngestedOrder.Ingest | internal/service/order_service.go:905-1283 | header writes, row loops, waybill loop and backstop in order: keys stay unique and increasing, a platform payload leaves the order closed exactly when nothing is left, a moved header stays moved while the order stays open, and the allocation survives exactly when nothing overwrites it |
| Ingest.IngestedOrder.WriteHeader | internal/service/order_service.go:860-1187 | the field-by-field header write, kept-open hint, allocation branches and ship status, equals the column-by-column specification |
| Ingest.IngestedOrder.KeepOpen | internal/service/order_service.go:860-907 | the hint that goes on closes if and only if the payload's does and neither the order nor the payload has anything to fulfil; an overruled hint lifts the terminal state |
| Ingest.IngestedOrder.WriteAllocation | internal/service/order_service.go:1024-1162 | close, apply, withdraw and mirror branches give the specified status, allocation and auto-allocation flag |
| Ingest.IngestedOrder.ApplyHint | internal/service/order_service.go:1032-1114 | the platform's allocation is taken over, and the header's survives it if and only if it replaces nothing |
| Ingest.IngestedOrder.WriteShip | internal/service/order_service.go:1164-1187 | a moved header or a waybill in view never ends waiting, and an order that becomes shipped has a shipping time |
| IngestColumns.StatusAfterSync | internal/service/order_service.go:860-1283 | the status an order sync ends with: the payload's exactly if it closes the order, its allocation is taken over and not withheld, it withdraws an order no row of which is allocated, or the order has no allocation; else the order's own; then the backstop's two cases |
| IngestColumns.WithdrawalReturnsOrder | internal/service/order_service.go:1119-1137 | so an allocated order that the platform withdraws returns to the queue the payload names |
| IngestColumns.OverruledHint | internal/service/order_service.go:860-906 | what a closing payload stands for while something can be fulfilled |
| IngestColumns.AllocationAfterSync | internal/service/order_service.go:1022-1162 | the header's allocation, column by column: kept, restored to an offline supplier, taken over, cleared or only mirrored |
| IngestColumns.AutoAllocationAfterSync | internal/service/order_service.go:1066-1134 | automatic allocation stays off unless an allocation is taken over, withdrawn, or the order reopened |
| IngestColumns.ShipAfterSync | internal/service/order_service.go:1164-1283 | the ship status: emptied by closing what has not shipped, held where the payload waits and goods have left, else the payload's |
| IngestColumns.TimeAfterSync | internal/service/order_service.go:1166-1186 | the shipping time: the payload's, kept or now |
| IngestColumns.AgentAfterSync | internal/service/order_service.go:923-944 | the agent type is always the payload's |
| PackageFulfilment.MatchingIsInjective | internal/service/package_fulfillment.go:155-216 | no two goods take the same row and only roots are taken |
| PackageFulfilment.MatchIsBest | internal/service/package_fulfillment.go:182-216 | a good is skipped only if no unused root fits, and is never matched in a worse way than some unused root allows |
| PackageFulfilment.OwnOidsFindOwnRows | internal/service/package_fulfillment.go:155-216 | goods with distinct oids that the order has take exactly the rows of those oids |
| PackageFulfilment.OnlyMatchedRowsChange | internal/service/package_fulfillment.go:33-131 | rows not matched are untouched; matched ones are roots, get the package and change in nothing but package and fulfilment |
| PackageFulfilment.OfflineDropshipStays | internal/service/package_fulfillment.go:54-57 | over any run of package syncs, clearing ones included, an offline dropship row with a supplier keeps its allocation |
| PackageFulfilment.OwnStockIsNotOverruled | internal/service/package_fulfillment.go:69-84 | one sync never turns a self or purchase row into channel_ship, and leaves it one unless the sync clears it or hands it to another path |
| PackageFulfilment.OwnStockOverRuns | internal/service/package_fulfillment.go:33-131 | over a run, a self or purchase row stays one throughout if and only if no sync of the run takes it away, judged on the order as it starts |
| PackageFulfilment.TwoSyncsOverruleOwnStock | internal/service/package_fulfillment.go:58-84 | over two syncs the row can become channel_ship: a clearing sync first, a shipped one second, with a concrete order |
| PackageFulfilment.ChannelRows | internal/service/package_fulfillment.go:58-84 | exactly when a row ends a sync as channel_ship |
| PackageFulfilment.MovedRowsStay | internal/service/package_fulfillment.go:85-99 | a row that has left goes back exactly when the sync clears it and it is no offline dropship |
| PackageFulfilment.WaybillKeepsHeaderMoved | internal/service/package_fulfillment.go:218-238 | with a waybill, or a header that has moved, the package roll-up leaves the header at least partly shipped |
| PackageFulfilment.MatchRootItemID | internal/service/package_fulfillment.go:182-216 | the three scans find the specified match |
| PackageFulfilment.MatchIngestItemsToOrder | internal/service/package_fulfillment.go:155-180 | the loop with its used set gives the specified matching |
| PackageFulfilment.ItemCoveredByExpressShipment | internal/service/package_fulfillment.go:240-264 | the nested sum over shipments with a waybill decides coverage |
| PackageFulfilment.RowFields | internal/service/package_fulfillment.go:38-127 | a matched row changes in package and fulfilment only, keeps an offline dropship, never turns own stock into channel_ship, and goes back after it has left only when the sync clears it |
| PackageFulfilment.PackageDesk.ApplyPackageItemFulfillment | internal/service/package_fulfillment.go:15-143 | ownership gate, matching, row writes and header roll-up give the specified order |
| PackageFulfilment.PackageDesk.WriteRows | internal/service/package_fulfillment.go:38-131 | one update per matched id, computed from the order as loaded |
| PackageFulfilment.PackageDesk.RollupPackageFulfillmentHeader | internal/service/package_fulfillment.go:218-238 | the roll-up neither closes nor reopens nor completes an order, keeps a moved ship status as it is, and with a waybill and something to fulfil ends at least partly shipped |
| PackageOutcome.RowsAfterSync | internal/service/package_fulfillment.go:38-131 | every row after a package sync: one a good took has the package and, column by column, path, mode, supplier, factory, purchase order, ship status and time as stated; any other is as it was |
| PackageOutcome.HeaderAfterSync | internal/service/package_fulfillment.go:218-238 | the header is the summary of the rows; a moved ship status stays, a waybill makes it at least partly shipped, and a finished order keeps its stage |
| PackageOutcome.OnlyOwnPackages | internal/service/package_fulfillment.go:15-36 | no row is taken unless the payload is the platform's and its package belongs to the order, and then nothing changes |
| PackageOutcome.CarriedByWaybills | internal/service/package_fulfillment.go:240-264 | what the waybills carry of a row is the sum over the shipments with a number |
| SiblingMerge.KeeperIs | internal/service/order_service.go:3556-3593 | an order keeps exactly when one was not split off; it is open if any of those is, and the oldest of its kind |
| SiblingMerge.OneOrderLeft | internal/service/kdzs_sibling_merge.go:13-77 | if some order was not split off, exactly one order of the platform order is left, holding the merge of all; otherwise nothing changes; orders outside are as they were |
| SiblingMerge.NothingLost | internal/service/kdzs_sibling_merge.go:79-223 | an oid or a waybill is in the order left if and only if some order of the family had it |
| SiblingMerge.OidsAreTheUnion | internal/service/kdzs_sibling_merge.go:92-188 | the oids of the merged order are those of all its orders |
| SiblingMerge.UnnumberedRowsSurvive | internal/service/kdzs_sibling_merge.go:111-188 | every row without an oid survives exactly once and in order |
| SiblingMerge.WaybillsAreTheUnion | internal/service/kdzs_sibling_merge.go:102-220 | the waybills of the merged order are those of all its orders |
| SiblingMerge.WaybillsStayDistinct | internal/service/kdzs_sibling_merge.go:204-220 | each waybill is listed once if the orders listed theirs once |
| SiblingMerge.RootsStayDistinct | internal/service/kdzs_sibling_merge.go:92-182 | if no order repeats an oid among its roots, neither does the merged one |
| SiblingMerge.NoAllocationOverwritten | internal/service/kdzs_sibling_merge.go:115-164 | over all siblings a keeper row's allocation is never overwritten, and the row changes in nothing else |
| SiblingMerge.KeeperAllocationStays | internal/service/kdzs_sibling_merge.go:115-164 | one merge: a keeper row without allocation gets one exactly when the sibling has one for the same oid, its row's or else its header's |
| SiblingMerge.ChildrenKeepParents | internal/service/kdzs_sibling_merge.go:111-188 | split rows keep their parents if and only if no moved one hangs on a dropped row |
| SiblingMerge.ShipmentRowsStayLive | internal/service/kdzs_sibling_merge.go:204-222 | shipment rows keep referring to rows of the order if and only if no moved waybill shipped a dropped row |
| SiblingMerge.PackagesLost | internal/service/kdzs_sibling_merge.go:190-222 | which packages survive: the sibling's own is lost exactly when the sibling is the older order, every other one it had is lost |
| SiblingMerge.OlderSiblingLosesPackage | internal/service/kdzs_sibling_merge.go:190-222 | it does happen: a closed older order merged into a younger open keeper takes its package with it |
| SiblingMerge.DroppedRowLeavesOrphans | internal/service/kdzs_sibling_merge.go:111-222 | both exclusions with concrete orders: a dropped duplicate row leaves its split row without a parent and its waybill without a row |
| SiblingMerge.HeaderAfterMerge | internal/service/kdzs_sibling_merge.go:233-247 | after the merge roll-up only a shipped header is protected: any other waits exactly when no allocated row has left |
| SiblingMerge.MergeIsIdempotent | internal/service/kdzs_sibling_merge.go:13-77 | merging again changes no order and no package |
| MergedRows.RowsArrive | internal/service/kdzs_sibling_merge.go:111-176 | one merge: a sibling's row moves over exactly if its platform line has no root there; it arrives with its own allocation, every column, or without one with its header's, an empty ship status read as waiting |
| MergedRows.KeptRowFilled | internal/service/kdzs_sibling_merge.go:111-152 | one merge: a row that was there changes only if it has no allocation and is the last root of its platform line, and then has, column by column, that of the sibling's last row for the line that has one, or of its header |
| MergedRows.RowsKeepTheirAllocation | internal/service/kdzs_sibling_merge.go:92-188 | over all siblings: a row for a line not seen before is in the merged order with its own allocation or, exactly if only its header is allocated, with its header's |
| MergedRows.KeptRowsAllocation | internal/service/kdzs_sibling_merge.go:92-188 | over all siblings: a row of the order that keeps has its own allocation, or the last offer of the first sibling that has one for its line |
| MergedRows.ShipmentsMove | internal/service/kdzs_sibling_merge.go:104-214 | the shipments are the keeper's, as they are, and then those of the sibling whose number is empty or not listed there |
| MergedRows.HeaderOfMerged | internal/service/kdzs_sibling_merge.go:233-247 | the header is the roll-up of the merged rows; a shipped ship status stays, and the stage of a shipped or finished order |
| MergedRows.PaymentOfMerged | internal/service/kdzs_sibling_merge.go:60-72 | payment and total are the rows' amounts unless these come to nothing |
| MergedRows.AmountOfRow | internal/service/allocate_split.go:90-103 | a row that is no split child counts with its total, or with price times quantity where it has none |
| FamilyOutcome.BaseNumber | internal/service/order_service.go:3519-3527 | a number ends at its first #split, or else #dup, or else #alloc, unless it begins with it |
| FamilyOutcome.SplitNumberGoesBack | internal/service/allocate_split.go:126-185 | the number of an order split off for allocation, without its suffix, is the number it was split from |
| FamilyOutcome.FamilyMembers | internal/service/kdzs_sibling_merge.go:13-40 | the family is the orders of the platform order, each once, oldest first |
| FamilyOutcome.PackageAfterMerge | internal/service/kdzs_sibling_merge.go:180-196 | the sibling's package goes to the order that keeps or stays an older one's, with the sibling's texts, its own mail number and its own place |
| FamilyOutcome.OtherPackagesStay | internal/service/kdzs_sibling_merge.go:190-202 | any other package that is still there is as it was |
| SiblingMergeLoops.BasePlatformSysTid | internal/service/order_service.go:3519-3527 | the suffix scan gives the number without its split, duplicate or allocation suffix |
| SiblingMergeLoops.FindKDZSParentKeeper | internal/service/order_service.go:3556-3593 | the scoring loop finds the specified keeper |
| SiblingMergeLoops.KeeperOids | internal/service/kdzs_sibling_merge.go:92-101 | the map from oid to the keeper's row, later rows over earlier ones |
| SiblingMergeLoops.WalkRows | internal/service/kdzs_sibling_merge.go:109-183 | the loop over the sibling's rows fills and moves exactly as specified |
| SiblingMergeLoops.MovingShipments | internal/service/kdzs_sibling_merge.go:102-220 | the shipments that move, waybills the keeper has left out |
| SiblingMergeLoops.SumItemAmounts | internal/service/allocate_split.go:90-103 | the amount of the unsplit rows |
| SiblingMergeLoops.MergeKeepsKeys | internal/repo/repo.go:716-723 | row keys stay unique across orders when rows move |
| SiblingMergeLoops.SiblingDesk.MergeOneSibling | internal/service/kdzs_sibling_merge.go:79-223 | rows, package, waybills and the cascade delete of one sibling give the specified tables |
| SiblingMergeLoops.SiblingDesk.ForceMergeSiblings | internal/service/kdzs_sibling_merge.go:13-77 | the whole procedure on the stored orders and packages, row keys unique before and after |
| SiblingMergeLoops.FinishKeeper | internal/service/kdzs_sibling_merge.go:50-68 | the rows stay, payment and total are the rows' amount wherever that is positive, the order is closed exactly if it was, and finishing again changes nothing |
| SiblingMergeLoops.RollupAfterSiblingMerge | internal/service/kdzs_sibling_merge.go:233-247 | never closes, reopens or completes; keeps a shipped header; any other header waits exactly when no allocated row has left |
| AllocSplit.SplitThenFold | internal/service/allocate_split.go:105-350 | split off and fold back on a free order: all rows return, and the payment returns exactly when it was not negative and covered the selected rows; in every other case the order ends with strictly more than it had |
| AllocSplit.UnderpaidOrderGrows | internal/service/allocate_split.go:105-350 | the other case with a concrete order: five cents paid for a row of ten, and ten after the fold |
| AllocSplit.SplitRowsFollowTheirRoot | internal/service/allocate_split.go:72-88 | whatever roots are selected, a split row ends on the same side as the row it was split from |
| AllocSplit.SelectedPay | internal/service/allocate_split.go:90-111 | the amount that goes with the moved rows is that of the selected roots: split rows carry none |
| AllocSplit.OnlyFreeChildrenGo | internal/service/allocate_split.go:252-281 | of an order's split-off children exactly the free ones are folded back and deleted, none while the order itself is not free; every other order stays as it is |
| AllocSplit.RowsComeBack | internal/service/allocate_split.go:283-350 | the rows of the order are then its own and those of its free children |
| AllocSplit.CollectMoveItemIDs | internal/service/allocate_split.go:72-88 | the collected keys are exactly the selected roots and the rows that hang on them |
| AllocSplit.SplitDesk.SplitOrderForAllocate | internal/service/allocate_split.go:105-228 | the child order, the moved rows and the remaining payment of the original, or a refusal without rows |
| AllocSplit.SplitDesk.TryMergeSplitChildIntoParent | internal/service/allocate_split.go:283-350 | the fold of one child, or nothing when either side is taken |
| AllocSplit.SplitDesk.MergeAllocSplitAfterRevoke | internal/service/allocate_split.go:250-281 | a split-off order folds back itself, another one takes its free children back, one after the other |
| AllocSplit.SplitOffIs | internal/service/allocate_split.go:120-191 | the order split off waits for allocation, knows its origin, has no fulfilment, and is paid the amount of the selected rows |
| AllocSplit.OriginalIs | internal/service/allocate_split.go:111-193 | the original keeps what was paid beyond that amount, or, if at least two cents less was paid, what its fulfillable rows come to beyond it |
| AllocSplit.SidesOf | internal/service/allocate_split.go:72-88 | a row goes exactly if it is selected or hangs on a selected one |
| AllocSplit.FoldAdds | internal/service/allocate_split.go:299-327 | a fold puts the child's rows behind the order's and adds what was paid for it, or else what its rows come to |
| SyncRuns.MergeStepIsForceMerge | internal/service/kdzs_sibling_merge.go:13-77 | what a merge of a family leaves of its keeper is the merge step of the runs below, applied to its siblings |
| SyncRuns.ClosedOverRuns | internal/service/order_service.go:1231-1344 | over any run of platform order syncs, sibling merges and package syncs from an order that is closed exactly when nothing is left (with roots, not completed), that holds after every step if and only if every merge fits: a closed keeper gets no live row, an open one without roots no dead root alone |
| SyncRuns.ClosedWithoutMerges | internal/service/order_service.go:1231-1283 | order and package syncs alone establish it with the first order sync, from any order at all, and keep it from then on |
| SyncRuns.MergeFitsIs | internal/service/kdzs_sibling_merge.go:92-247 | one merge keeps it if and only if it fits, judged on the keeper's status and the siblings' rows for platform lines not seen before |
| SyncRuns.ClosedKeeperTakesLiveRow | internal/service/kdzs_sibling_merge.go:233-247 | it does fail: a closed order is the keeper, takes an open split-off order's live row, and stays closed |
| SyncRuns.MergedHas | internal/service/kdzs_sibling_merge.go:92-188 | the merged order has a row of a kind if and only if the keeper had one or a sibling brings one for a platform line that has no root yet |
| SyncShip.ShipOverRuns | internal/service/order_service.go:1164-1344 | through any run of the three steps that leaves the order open, a moved header never goes back to waiting if and only if every merge keeps it |
| SyncShip.MergedMoved | internal/service/kdzs_sibling_merge.go:111-188 | the merged order has an allocated row that has left if and only if the keeper had one, a sibling brings one for a platform line that has no root yet, or a sibling's allocation says so for the row that keeps a line and has none |
| SyncShip.MergeShip | internal/service/kdzs_sibling_merge.go:233-247 | where something is merged in and can be fulfilled, the header says moved afterwards if and only if it was shipped or a row of the keeper or one a sibling brings has left; otherwise if and only if it said so before |
| SyncShip.MergeTakesPartlyShippedBack | internal/service/kdzs_sibling_merge.go:233-247 | it does fail: an open order with one of two pieces shipped under a waybill, its status in agreement with the ledger, keeps, takes in a closed older order and waits again |
| SyncShip.PackageShipIs | internal/service/package_fulfillment.go:85-238 | a package sync leaves a moved header if and only if it was, or its goods reach a row of an order with something to fulfil that has a waybill or ends with a moved row |
| SyncShip.MergeThenPackage | internal/service/kdzs_sibling_merge.go:13-77 | merge and package step from any keeper, the written order among its siblings or not: closed exactly if it was, and moved if and only if the merge leaves it so or the goods reach a row and a waybill or a moved row shows |
| SyncShip.WholeSync | internal/service/order_service.go:1164-1344 | order write, merge and package step of one sync: an open order that stays open ends moved if and only if the first two leave it so, or the payload's goods reach a row and the order, the payload or a sibling has a waybill, loaded or not, or a row ends moved |
| SyncShip.GoodsShowWaybills | internal/service/order_service.go:1164-1344 | so no waybill is overruled by a sync whose goods reach a row of an order with something to fulfil |
| SyncShip.WaybillWithoutGoods | internal/service/order_service.go:1164-1344 | and one is: a concrete order and a whole sync that neither loads the shipments nor brings goods, and the order waits |
| SyncRuns.AllocationOverRuns | internal/service/order_service.go:1022-1344 | over any run of the three steps, the header keeps its allocation throughout if and only if no step overwrites it: an order sync by its guards, a merge or a package sync by allocated rows whose paths, first mode, first supplier, self numbers or purchase orders tell another one |
| Rollup.RollupAllocation | internal/service/fulfillment_rollup.go:90-172 | a roll-up leaves type, mode, supplier, self number and purchase order as they are if and only if the rows agree with the header: one path or a mixture, the first mode and supplier among them, and the only self number and purchase order |
| SyncRuns.TypeByRows | internal/service/package_fulfillment.go:38-238 | a package sync that reaches a row of an order with something to fulfil leaves the header with a path, not a mixture, if and only if its rows all say so |
| SyncLedger.MergedLedger | internal/service/kdzs_sibling_merge.go:92-223 | a merge of orders whose ledgers hold, quantities included, leaves a ledger that holds if and only if no sibling has shipped, under a waybill not listed before, a row that is dropped for its platform line |
| SyncLedger.SyncedLedger | internal/repo/repo.go:760-869 | the ledger survives a row sync if and only if no row that has shipped is deleted or gets a quantity below what has shipped |
| SyncLedger.LedgerOverSyncs | internal/service/order_service.go:1164-1344 | over any run of order syncs, merges and package syncs the shipment ledger holds after every step if and only if no order sync and no merge of the run loses or cuts a row that has shipped |
| SyncLedger.SyncCutsShippedRow | internal/repo/repo.go:771-849 | it does fail: two pieces have shipped and a platform payload cuts the line to one |
| SyncLedger.SyncDeletesShippedRow | internal/repo/repo.go:851-867 | it does fail: a shop's payload no longer has the line, and the shipped row is deleted |
| ListExpansion.EveryRootShownOnce | internal/service/order_list_expand.go:11-52 | the lines of any order with several packages show every root exactly once and nothing else if and only if the order has no rows, or no package is without rows and every root counts to exactly one package |
| ListExpansion.EmptyPackageShowsAll | internal/service/order_list_expand.go:32-45 | it does happen: two packages, one without rows, and the list shows the only row twice |
| ListExpansion.LostPackageHidesRow | internal/service/order_list_expand.go:32-45 | the other way it fails: a root bound to a package that is gone, as an older sibling's is after a merge, is on no line although no package is without rows |
| ListExpansion.WellBoundOnce | internal/service/order_list_expand.go:32-39 | with distinct package keys, one primary package and rows that name one of them or none, every root counts to exactly one package |
| ListExpansion.LineIs | internal/service/order_list_expand.go:14-52 | a line has the number and remark of its package, its rows or all rows, and the badge its rows share; the rest is the order's |
| ListExpansion.ListedOnce | internal/service/order_list_expand.go:11-30 | an order with several packages is listed once for each, any other once as it is |
| ListExpansion.UniformIs | internal/service/order_list_expand.go:54-70 | the line's badge is a given allocation exactly when its package has rows and all carry it |
| ListExpansion.UniformItemAlloc | internal/service/order_list_expand.go:54-70 | the loop with its early returns finds the shared allocation, if there is one |
| ListExpansion.ExpandOrdersByPackages | internal/service/order_list_expand.go:11-52 | the nested loops give one line per package of an order with several, in order |

## Left out

- HTTP handlers, authentication, configuration, the front end and status logs: input, output and display only.
- Calls into the supply, self-print, store and shipping systems, with their callbacks and retries; their answers (live purchase orders, bound suppliers, allocation terms) are inputs.
- SQL, transactions and storage errors: assumed atomic and successful. Where SQL gives no row order the key order is used, and a repeated oid inside a keeper resolves to the last listed row.
- Floating point: amounts are integer cents, proportional shares exact ratios rounded once.
- Trimming, case folding, JSON and wall-clock parsing: text is opaque and trimmed, time an instant.
- Classification of status texts: a row's refund or cancellation is `lineClosed`, an order's is `blocked`, and what a platform status means arrives as a `Hint`.
- Columns that are only copied (shop, buyer, remarks, pictures, addresses, snapshot texts, platform statuses) and the ship-entry lock, including what Allocate and RevokeAllocate write to them.
- Restoring offline SKU fields onto a payload before it is written (internal/service/order_service.go:5982): the payload of `RowSync` is the one after it.
- Header amounts in the order sync (internal/service/order_service.go:1284-1300): the merge's same recomputation is modelled in `SiblingMerge`.
- Which stored order a payload belongs to (internal/service/order_service.go:764-830) and the creation of a new order: the order is given.
- FulfilmentStore.StatusOverRuns: split syncs are not steps of this run, because SyncSplitItems does not recompute the ship status; they are steps of LedgerOverRuns.
- The agreement of header ship status and ledger across Allocate: Ship writes only the header status while the roll-up reads the rows' one, so the code does not keep it.
- SplitSync: split modes other than partial and full; the source accepts any text as a mode.
- Shipping.ShipThenUnship: shipped_at is excluded from the round trip and treated by UndoneShippedAt.
- SequenceNo.StuckAfter9999: counters of 99990 and more are excluded; a day never reaches them.
- AllocSplit.SplitDesk.SplitOrderForAllocate: freight, address and copied buyer columns are not modelled; nothing in the service calls it any more, it is kept for the orders it made.
- What an order sync does between the backstop and the package step besides the sibling merge (internal/service/order_service.go:1331-1341): automatic allocation by SKU, self orders, logistics pulled from other systems.
- Reconciling covered child orders and superseded sibling packages, and the merge-ship remark dedupe: further cleanups of the same kind as the sibling merge.
