/** The shipment ledger under platform syncs, which look at no shipment: they
    lower quantities, delete rows and drop duplicate ones. Says exactly when the
    ledger survives an order sync, a sibling merge, and whole runs of them. */
module SyncLedger {
  import opened OrderModel
  import opened Ingest
  import opened Ledger
  import PackageFulfilment
  import opened Quantities
  import opened RowSync
  import Shipping
  import opened SiblingMerge
  import SiblingMergeLoops
  import opened SyncRuns

  // ---- the ledger in parts ----

  ghost predicate WellCounted(shipments: seq<Shipment>) {
    forall sh, r :: sh in shipments && r in sh.rows ==> r.qty > 0 && r.itemId != 0
  }

  /** The ledger but for shipment rows whose item row is gone. */
  ghost predicate Sound(o: Order) {
    DistinctIds(o.items) && DistinctWaybills(o.shipments) && WellCounted(o.shipments) && WithinQuantity(o)
  }

  lemma {:induction false} FoundIs(items: seq<Item>, id: nat)
    ensures FindItem(items, id).Some? <==> HasRow(items, id)
  {
    if FindItem(items, id).Some? {
      assert items[FindItem(items, id).value] in items;
    }
    if HasRow(items, id) {
      var it :| it in items && it.id == id;
      var i :| 0 <= i < |items| && items[i] == it;
    }
  }

  lemma ReferIs(items: seq<Item>, shipments: seq<Shipment>)
    ensures ShipmentsRefer(items, shipments) <==> WellCounted(shipments) && RowsLive(items, shipments)
  {
    forall id ensures FindItem(items, id).Some? <==> HasRow(items, id) {
      FoundIs(items, id);
    }
    if WellCounted(shipments) && RowsLive(items, shipments) {
      forall s | 0 <= s < |shipments| ensures RowsRefer(items, shipments[s].rows) {
        assert shipments[s] in shipments;
        assert forall r :: 0 <= r < |shipments[s].rows| ==> shipments[s].rows[r] in shipments[s].rows;
      }
    }
    if ShipmentsRefer(items, shipments) {
      forall sh, r | sh in shipments && r in sh.rows ensures r.qty > 0 && r.itemId != 0 && HasRow(items, r.itemId) {
        var s :| 0 <= s < |shipments| && shipments[s] == sh;
        assert RowsRefer(items, shipments[s].rows);
        var k :| 0 <= k < |sh.rows| && sh.rows[k] == r;
        assert FindItem(items, sh.rows[k].itemId).Some?;
      }
    }
  }

  lemma LedgerIs(o: Order)
    ensures LedgerOk(o) <==> Sound(o) && RowsLive(o.items, o.shipments)
  {
    ReferIs(o.items, o.shipments);
  }

  ghost predicate ShipsRow(sh: Shipment, id: nat) {
    exists r :: r in sh.rows && r.itemId == id
  }

  ghost predicate Ships(shipments: seq<Shipment>, id: nat) {
    exists sh :: sh in shipments && ShipsRow(sh, id)
  }

  lemma {:induction false} RowsShipped(rows: seq<ShipRow>, id: nat)
    requires id != 0 && forall r :: r in rows ==> r.qty > 0
    ensures RowQty(rows, id) > 0 <==> exists r :: r in rows && r.itemId == id
  {
    if rows != [] {
      var n := |rows| - 1;
      RowsShipped(rows[..n], id);
      assert rows == rows[..n] + [rows[n]];
    }
  }

  lemma {:induction false} ShippedIs(shipments: seq<Shipment>, id: nat)
    requires WellCounted(shipments) && id != 0
    ensures ShippedRows(shipments, id) > 0 <==> Ships(shipments, id)
  {
    if shipments != [] {
      var n := |shipments| - 1;
      ShippedIs(shipments[..n], id);
      assert shipments == shipments[..n] + [shipments[n]];
      RowsShipped(shipments[n].rows, id);
    }
  }

  // ---- merging siblings ----

  /** All rows and shipment rows go back to these rows. */
  ghost predicate Within(o: Order, rows: seq<Item>) {
    (forall it :: it in o.items ==> HasRow(rows, it.id)) && RowsLive(rows, o.shipments)
  }

  lemma {:induction false} MovedShipped(had: set<string>, shipments: seq<Shipment>, id: nat)
    ensures ShippedRows(NewShipments(had, shipments), id) <= ShippedRows(shipments, id)
  {
    if shipments != [] {
      var n := |shipments| - 1;
      MovedShipped(had, shipments[..n], id);
      var before := NewShipments(had, shipments[..n]);
      ShippedRowsConcat(before, [shipments[n]], id);
      assert [shipments[n]][..0] == [];
    }
  }

  lemma HasRowApart(rows: seq<Item>, others: seq<Item>, id: nat)
    requires SiblingMergeLoops.Apart(rows, others)
    ensures !(HasRow(rows, id) && HasRow(others, id))
  {
  }

  lemma RowWithin(m: Order, sib: Order, rows: seq<Item>, x: Item)
    requires Sound(m) && Within(m, rows) && LedgerOk(sib) && SiblingMergeLoops.Apart(rows, sib.items)
    requires x in MergeOrders(m, sib).items
    ensures ShippedRows(MergeOrders(m, sib).shipments, x.id) > 0 ==>
      ShippedRows(MergeOrders(m, sib).shipments, x.id) <= x.quantity
  {
    var moved, filled := NewShipments(Waybills(m.shipments), sib.shipments), Filled(m, sib, sib.items);
    ShippedRowsConcat(m.shipments, moved, x.id);
    MovedShipped(Waybills(m.shipments), sib.shipments, x.id);
    HasRowApart(rows, sib.items, x.id);
    LedgerIs(sib);
    if x in filled {
      var j :| 0 <= j < |filled| && filled[j] == x;
      FilledAre(m, sib, sib.items, j);
      assert m.items[j] in m.items;
      ShippedIs(sib.shipments, x.id);
    } else {
      MovedAre(m, sib, sib.items);
      var it :| it in sib.items && !Dropped(m, it) && x == Settled(sib, it);
      var i :| 0 <= i < |sib.items| && sib.items[i] == it;
      ShippedIs(m.shipments, x.id);
    }
  }

  lemma MergedWithin(m: Order, sib: Order, rows: seq<Item>)
    requires Within(m, rows) && LedgerOk(sib)
    ensures Within(MergeOrders(m, sib), rows + sib.items)
  {
    var p := MergeOrders(m, sib);
    LedgerIs(sib);
    NewShipmentsAre(Waybills(m.shipments), sib.shipments);
    forall id ensures HasRow(rows + sib.items, id) <==> HasRow(rows, id) || HasRow(sib.items, id) {
      HasRowConcat(rows, sib.items, id);
    }
    forall x | x in p.items ensures HasRow(rows + sib.items, x.id) {
      SiblingMergeLoops.MergedComesFrom(m, sib, x);
    }
  }

  lemma ItemsApart(m: Order, rows: seq<Item>, others: seq<Item>)
    requires Within(m, rows) && SiblingMergeLoops.Apart(rows, others) && DistinctIds(m.items) && DistinctIds(others)
    ensures SiblingMergeLoops.Apart(m.items, others) && DistinctIds(m.items + others)
  {
    forall x, y | x in m.items && y in others ensures x.id != y.id {
      var from :| from in rows && from.id == x.id;
    }
  }

  lemma MergedDistinct(m: Order, sib: Order, rows: seq<Item>)
    requires Sound(m) && Within(m, rows) && LedgerOk(sib) && SiblingMergeLoops.Apart(rows, sib.items)
    ensures DistinctIds(MergeOrders(m, sib).items) && DistinctWaybills(MergeOrders(m, sib).shipments)
  {
    ItemsApart(m, rows, sib.items);
    SiblingMergeLoops.MergedKeys(m, sib);
    assert [sib][..0] == [] && MergeList(m, []) == m && MergeList(m, [sib]) == MergeOrders(m, sib);
    WaybillsStayDistinct(m, [sib]);
  }

  lemma MergeSound(m: Order, sib: Order, rows: seq<Item>)
    requires Sound(m) && Within(m, rows) && LedgerOk(sib) && SiblingMergeLoops.Apart(rows, sib.items)
    ensures Sound(MergeOrders(m, sib))
  {
    var p := MergeOrders(m, sib);
    LedgerIs(sib);
    MergedDistinct(m, sib, rows);
    NewShipmentsAre(Waybills(m.shipments), sib.shipments);
    assert WithinQuantity(p) by {
      forall x | x in p.items && ShippedRows(p.shipments, x.id) > 0
        ensures ShippedRows(p.shipments, x.id) <= x.quantity
      {
        RowWithin(m, sib, rows, x);
      }
    }
  }

  /** A row that is gone stays gone, and only dropped rows go. */
  lemma MergeLive(m: Order, sib: Order, rows: seq<Item>)
    requires Sound(m) && Within(m, rows) && LedgerOk(sib) && SiblingMergeLoops.Apart(rows, sib.items)
    ensures var p := MergeOrders(m, sib);
      RowsLive(p.items, p.shipments) <==> RowsLive(m.items, m.shipments) && !ShipsDropped(m, sib)
  {
    LedgerIs(sib);
    ItemsApart(m, rows, sib.items);
    if RowsLive(m.items, m.shipments) {
      ShipmentRowsStayLive(m, sib);
    } else {
      var sh, r :| sh in m.shipments && r in sh.rows && !HasRow(m.items, r.itemId);
      MergedRows(m, sib, r.itemId);
      HasRowApart(rows, sib.items, r.itemId);
      assert sh in MergeOrders(m, sib).shipments;
    }
  }

  function AllItems(k: Order, sibs: seq<Order>): seq<Item> {
    if sibs == [] then k.items else AllItems(k, sibs[..|sibs| - 1]) + sibs[|sibs| - 1].items
  }

  /** The family's row keys are unique across its orders, and every order's own ledger holds. */
  ghost predicate FamilyOk(k: Order, sibs: seq<Order>) {
    if sibs == [] then LedgerOk(k)
    else
      var n := |sibs| - 1;
      FamilyOk(k, sibs[..n]) && LedgerOk(sibs[n]) && SiblingMergeLoops.Apart(AllItems(k, sibs[..n]), sibs[n].items)
  }

  /** The sibling has shipped, under a waybill not listed before, a row whose platform line is there already. */
  ghost predicate LosesShipped(k: Order, before: seq<Order>, sib: Order) {
    exists sh, it :: sh in sib.shipments && it in sib.items && ShipsRow(sh, it.id)
      && !(sh.expressNo != "" && sh.expressNo in Waybills(k.shipments) + AllWaybills(before))
      && it.goods.oid in SeenOids(k, before)
  }

  ghost predicate SomeLosesShipped(k: Order, sibs: seq<Order>) {
    sibs != [] &&
      var n := |sibs| - 1;
      SomeLosesShipped(k, sibs[..n]) || LosesShipped(k, sibs[..n], sibs[n])
  }

  lemma {:induction false} LosesShippedIs(k: Order, before: seq<Order>, sib: Order)
    ensures ShipsDropped(MergeList(k, before), sib) <==> LosesShipped(k, before, sib)
  {
    var m := MergeList(k, before);
    WaybillsAreTheUnion(k, before);
    MergedRootOids(k, before);
    NewShipmentsAre(Waybills(m.shipments), sib.shipments);
    if ShipsDropped(m, sib) {
      var sh, r :| sh in NewShipments(Waybills(m.shipments), sib.shipments) && r in sh.rows
        && DropsId(m, sib, r.itemId);
      var it :| it in sib.items && it.id == r.itemId && Dropped(m, it);
      RootOidIs(m.items, it.goods.oid);
      assert r in sh.rows && ShipsRow(sh, it.id);
    }
    if LosesShipped(k, before, sib) {
      var sh, it :| sh in sib.shipments && it in sib.items && ShipsRow(sh, it.id)
        && !(sh.expressNo != "" && sh.expressNo in Waybills(m.shipments)) && it.goods.oid in SeenOids(k, before);
      var r :| r in sh.rows && r.itemId == it.id;
      RootOidIs(m.items, it.goods.oid);
      assert DropsId(m, sib, r.itemId);
    }
  }

  lemma {:induction false} MergedParts(k: Order, sibs: seq<Order>)
    requires FamilyOk(k, sibs)
    ensures var m := MergeList(k, sibs);
      Sound(m) && Within(m, AllItems(k, sibs)) && (RowsLive(m.items, m.shipments) <==> !SomeLosesShipped(k, sibs))
  {
    if sibs == [] {
      LedgerIs(k);
    } else {
      var n := |sibs| - 1;
      var m, rows := MergeList(k, sibs[..n]), AllItems(k, sibs[..n]);
      MergedParts(k, sibs[..n]);
      MergeSound(m, sibs[n], rows);
      MergedWithin(m, sibs[n], rows);
      MergeLive(m, sibs[n], rows);
      LosesShippedIs(k, sibs[..n], sibs[n]);
    }
  }

  /** A merge of orders whose ledgers hold leaves one that holds, quantities included, exactly when no sibling
      loses a row it has shipped. */
  lemma {:induction false} MergedLedger(k: Order, sibs: seq<Order>)
    requires FamilyOk(k, sibs)
    ensures LedgerOk(MergeInto(k, sibs)) <==> !SomeLosesShipped(k, sibs)
  {
    var m := MergeList(k, sibs);
    MergedParts(k, sibs);
    LedgerIs(m);
    FinishedKeeps(m, sibs != []);
    LedgerIgnoresHeader(m, MergeInto(k, sibs));
  }

  // ---- syncing rows ----

  lemma {:induction false} SurvivorsDistinct(part: seq<Item>, rows: seq<Item>, payload: seq<Item>,
                                             choices: seq<Option<nat>>, keep: bool)
    requires |choices| == |payload| && DistinctIds(part)
    ensures DistinctIds(Survivors(part, rows, payload, choices, keep))
  {
    if part != [] {
      var n := |part| - 1;
      SurvivorsDistinct(part[..n], rows, payload, choices, keep);
      SurvivorsAre(part[..n], rows, payload, choices, keep);
      var before := Survivors(part[..n], rows, payload, choices, keep);
      forall i | 0 <= i < |before| ensures before[i].id != part[n].id {
        assert FromRow(before[i], part[..n], rows, payload, choices, keep);
        var row :| row in part[..n] && before[i] == Touched(row, payload, choices);
        var j :| 0 <= j < n && part[..n][j] == row;
      }
    }
  }

  lemma SyncedDistinct(rows: seq<Item>, payload: seq<Item>, keep: bool, nextId: nat)
    requires DistinctIds(rows) && FreshKey(rows, nextId)
    ensures DistinctIds(SyncRows(rows, payload, keep, nextId))
  {
    var choices := Choices(rows, payload, keep);
    var left, made := Survivors(rows, rows, payload, choices, keep),
      Created(payload, choices, keep, nextId, MaxRootLine(rows));
    SurvivorsDistinct(rows, rows, payload, choices, keep);
    SurvivorsAre(rows, rows, payload, choices, keep);
    CreatedAre(payload, choices, keep, nextId, MaxRootLine(rows));
    forall i, j | 0 <= i < |left| && 0 <= j < |made| ensures left[i].id != made[j].id {
      assert FromRow(left[i], rows, rows, payload, choices, keep);
    }
  }

  /** A shipped row stays, and its new quantity covers what has shipped. */
  ghost predicate RowKeepsShipped(o: Order, payload: seq<Item>, keep: bool, row: Item) {
    var choices := Choices(o.items, payload, keep);
    ShippedRows(o.shipments, row.id) > 0 ==>
      !Doomed(row, o.items, choices, keep)
      && ShippedRows(o.shipments, row.id) <= Touched(row, payload, choices).quantity
  }

  /** Where the rows of a result come from: a stored row that stays, or a fresh key. */
  lemma {:induction false} SyncedFrom(rows: seq<Item>, payload: seq<Item>, keep: bool, nextId: nat, x: Item)
    requires FreshKey(rows, nextId) && x in SyncRows(rows, payload, keep, nextId)
    ensures FromRow(x, rows, rows, payload, Choices(rows, payload, keep), keep) || (x.id != 0 && !HasRow(rows, x.id))
  {
    var choices := Choices(rows, payload, keep);
    SurvivorsAre(rows, rows, payload, choices, keep);
    CreatedAre(payload, choices, keep, nextId, MaxRootLine(rows));
  }

  lemma {:induction false} SyncedHas(rows: seq<Item>, payload: seq<Item>, keep: bool, nextId: nat, row: Item)
    requires row in rows && DistinctIds(rows) && FreshKey(rows, nextId)
    ensures var choices, after := Choices(rows, payload, keep), SyncRows(rows, payload, keep, nextId);
      && (HasRow(after, row.id) <==> !Doomed(row, rows, choices, keep))
      && (!Doomed(row, rows, choices, keep) ==> Touched(row, payload, choices) in after)
  {
    var choices, after := Choices(rows, payload, keep), SyncRows(rows, payload, keep, nextId);
    if !Doomed(row, rows, choices, keep) {
      RowSurvives(rows, rows, payload, choices, keep, row);
    }
    if HasRow(after, row.id) {
      var x :| x in after && x.id == row.id;
      SyncedFrom(rows, payload, keep, nextId, x);
      var from :| from in rows && !Doomed(from, rows, choices, keep) && x == Touched(from, payload, choices);
      var i, j :| 0 <= i < |rows| && rows[i] == from && 0 <= j < |rows| && rows[j] == row;
    }
  }

  /** What has shipped survives the row sync exactly when every row that has shipped keeps it. */
  lemma SyncedLedger(o: Order, payload: seq<Item>, keep: bool, nextId: nat)
    requires LedgerOk(o) && FreshKey(o.items, nextId)
    ensures LedgerOk(o.(items := SyncRows(o.items, payload, keep, nextId)))
       <==> forall row :: row in o.items ==> RowKeepsShipped(o, payload, keep, row)
  {
    var p := o.(items := SyncRows(o.items, payload, keep, nextId));
    LedgerIs(o);
    LedgerIs(p);
    SyncedDistinct(o.items, payload, keep, nextId);
    if LedgerOk(p) {
      forall row | row in o.items ensures RowKeepsShipped(o, payload, keep, row) {
        LiveRowKeeps(o, payload, keep, nextId, row);
      }
    }
    if forall row :: row in o.items ==> RowKeepsShipped(o, payload, keep, row) {
      forall sh, r | sh in o.shipments && r in sh.rows ensures HasRow(p.items, r.itemId) {
        var row :| row in o.items && row.id == r.itemId;
        assert RowKeepsShipped(o, payload, keep, row);
        ShippedIs(o.shipments, row.id);
        SyncedHas(o.items, payload, keep, nextId, row);
      }
      forall x | x in p.items && ShippedRows(p.shipments, x.id) > 0
        ensures ShippedRows(p.shipments, x.id) <= x.quantity
      {
        KeptRowCovers(o, payload, keep, nextId, x);
      }
    }
  }

  lemma LiveRowKeeps(o: Order, payload: seq<Item>, keep: bool, nextId: nat, row: Item)
    requires Sound(o) && FreshKey(o.items, nextId) && row in o.items
    requires var p := o.(items := SyncRows(o.items, payload, keep, nextId));
      RowsLive(p.items, p.shipments) && WithinQuantity(p)
    ensures RowKeepsShipped(o, payload, keep, row)
  {
    if ShippedRows(o.shipments, row.id) > 0 {
      ShippedIs(o.shipments, row.id);
      var sh :| sh in o.shipments && ShipsRow(sh, row.id);
      SyncedHas(o.items, payload, keep, nextId, row);
    }
  }

  lemma KeptRowCovers(o: Order, payload: seq<Item>, keep: bool, nextId: nat, x: Item)
    requires LedgerOk(o) && FreshKey(o.items, nextId) && x in SyncRows(o.items, payload, keep, nextId)
    requires forall row :: row in o.items ==> RowKeepsShipped(o, payload, keep, row)
    ensures ShippedRows(o.shipments, x.id) > 0 ==> ShippedRows(o.shipments, x.id) <= x.quantity
  {
    var choices := Choices(o.items, payload, keep);
    LedgerIs(o);
    SyncedFrom(o.items, payload, keep, nextId, x);
    if FromRow(x, o.items, o.items, payload, choices, keep) {
      var row :| row in o.items && !Doomed(row, o.items, choices, keep) && x == Touched(row, payload, choices);
      assert RowKeepsShipped(o, payload, keep, row);
    } else {
      ShippedIs(o.shipments, x.id);
    }
  }

  // ---- runs of syncs ----

  lemma {:induction false} WaybillsKeepLedger(o: Order, ws: seq<Shipping.Waybill>, nextId: nat)
    requires LedgerOk(o)
    ensures var after := Shipping.RecordWaybills(o.shipments, ws, nextId).0;
      LedgerOk(o.(shipments := after)) && forall id :: ShippedRows(after, id) == ShippedRows(o.shipments, id)
  {
    if ws == [] {
      assert o.(shipments := o.shipments) == o;
    } else {
      var n := |ws| - 1;
      WaybillsKeepLedger(o, ws[..n], nextId);
      var (before, id) := Shipping.RecordWaybills(o.shipments, ws[..n], nextId);
      WaybillKeepsLedger(o.(shipments := before), ws[n], id);
      Shipping.WaybillKeepsRows(before, ws[n], id);
    }
  }

  /** No row that has shipped is deleted by the order's payload, or cut below what has shipped. */
  ghost predicate RowsKeepShipped(o: Order, inc: Incoming) {
    forall row :: row in o.items ==> RowKeepsShipped(o, inc.items, inc.channel == Kdzs, row)
  }

  lemma OrderLedger(o: Order, inc: Incoming, itemKey: nat, shipmentKey: nat)
    requires LedgerOk(o) && FreshKey(o.items, itemKey)
    ensures LedgerOk(IngestOrder(o, inc, itemKey, shipmentKey)) <==> RowsKeepShipped(o, inc)
  {
    var q := o.(shipments := Shipping.RecordWaybills(o.shipments, inc.waybills, shipmentKey).0);
    WaybillsKeepLedger(o, inc.waybills, shipmentKey);
    SyncedLedger(q, inc.items, inc.channel == Kdzs, itemKey);
    BackstopFits(Merged(o, inc, itemKey, shipmentKey));
    LedgerIgnoresHeader(q.(items := SyncRows(q.items, inc.items, inc.channel == Kdzs, itemKey)),
                        IngestOrder(o, inc, itemKey, shipmentKey));
    forall row | row in o.items
      ensures RowKeepsShipped(q, inc.items, inc.channel == Kdzs, row)
         <==> RowKeepsShipped(o, inc.items, inc.channel == Kdzs, row) {}
  }

  ghost predicate SameRows(a: seq<Item>, b: seq<Item>) {
    |a| == |b| && forall i :: 0 <= i < |a| ==> b[i].id == a[i].id && b[i].quantity == a[i].quantity
  }

  lemma SameRowsHave(a: seq<Item>, b: seq<Item>, id: nat)
    requires SameRows(a, b) && HasRow(a, id)
    ensures HasRow(b, id)
  {
    var it :| it in a && it.id == id;
    var i :| 0 <= i < |a| && a[i] == it;
    assert b[i] in b;
  }

  lemma SameRowsWithin(o: Order, p: Order)
    requires p.shipments == o.shipments && SameRows(o.items, p.items) && WithinQuantity(o)
    ensures WithinQuantity(p)
  {
    forall x | x in p.items && ShippedRows(p.shipments, x.id) > 0
      ensures ShippedRows(p.shipments, x.id) <= x.quantity
    {
      var i :| 0 <= i < |p.items| && p.items[i] == x;
      assert o.items[i] in o.items;
    }
  }

  lemma SameRowsSameLedger(o: Order, p: Order)
    requires p.shipments == o.shipments && SameRows(o.items, p.items) && LedgerOk(o)
    ensures LedgerOk(p)
  {
    LedgerIs(o);
    LedgerIs(p);
    SameRowsWithin(o, p);
    forall sh, r | sh in p.shipments && r in sh.rows ensures HasRow(p.items, r.itemId) {
      SameRowsHave(o.items, p.items, r.itemId);
    }
  }

  lemma PackageLedger(o: Order, s: PackageFulfilment.Sync)
    requires LedgerOk(o)
    ensures LedgerOk(PackageFulfilment.SyncPackage(o, s))
  {
    PackageFulfilment.SyncKeepsOrder(o, s);
    PackageFulfilment.SyncKeepsIdentities(o, s);
    SameRowsSameLedger(o, PackageFulfilment.SyncPackage(o, s));
  }

  /** What a step has to leave alone. */
  ghost predicate StepKeepsShipped(o: Order, step: SyncStep) {
    match step
    case OrderSync(inc, _, _) => RowsKeepShipped(o, inc)
    case MergeSync(sibs) => !SomeLosesShipped(o, sibs)
    case PackageSync(_) => true
  }

  /** Row keys are fresh, and unique across the orders of a merge, whose own ledgers hold. */
  ghost predicate StepKeys(o: Order, step: SyncStep) {
    match step
    case OrderSync(_, itemKey, _) => FreshKey(o.items, itemKey)
    case MergeSync(sibs) => LedgerOk(o) ==> FamilyOk(o, sibs)
    case PackageSync(_) => true
  }

  lemma StepLedger(o: Order, step: SyncStep)
    requires LedgerOk(o) && StepKeys(o, step)
    ensures LedgerOk(Step(o, step)) <==> StepKeepsShipped(o, step)
  {
    match step
    case OrderSync(inc, itemKey, shipmentKey) => OrderLedger(o, inc, itemKey, shipmentKey);
    case MergeSync(sibs) => MergedLedger(o, sibs);
    case PackageSync(s) => PackageLedger(o, s);
  }

  ghost predicate KeysOverRun(o: Order, steps: seq<SyncStep>) {
    steps != [] ==>
      var n := |steps| - 1;
      KeysOverRun(o, steps[..n]) && StepKeys(Steps(o, steps[..n]), steps[n])
  }

  ghost predicate AlwaysLedger(o: Order, steps: seq<SyncStep>) {
    LedgerOk(Steps(o, steps)) && (steps != [] ==> AlwaysLedger(o, steps[..|steps| - 1]))
  }

  ghost predicate AlwaysKeepsShipped(o: Order, steps: seq<SyncStep>) {
    steps != [] ==>
      var n := |steps| - 1;
      AlwaysKeepsShipped(o, steps[..n]) && StepKeepsShipped(Steps(o, steps[..n]), steps[n])
  }

  /** Over any run of platform syncs the ledger holds after every step if and only if no step loses a row that
      has shipped or cuts it below what has shipped. */
  lemma {:induction false} LedgerOverSyncs(o: Order, steps: seq<SyncStep>)
    requires LedgerOk(o) && KeysOverRun(o, steps)
    ensures AlwaysLedger(o, steps) <==> AlwaysKeepsShipped(o, steps)
  {
    if steps != [] {
      var n := |steps| - 1;
      LedgerOverSyncs(o, steps[..n]);
      if AlwaysLedger(o, steps[..n]) { StepLedger(Steps(o, steps[..n]), steps[n]); }
    }
  }

  /** Two pieces of the only row have left. */
  const BOTH_SHIPPED :=
    WITH_WAYBILL.(head := NO_FULFILMENT.(allocType := SelfShip, shipStatus := Shipped),
                  items := [LIVE_ROW.(quantity := 2)], shipments := [Shipment(1, "", "W", [ShipRow(1, 2)])])

  lemma BothShippedLedger()
    ensures LedgerOk(BOTH_SHIPPED) && ShippedRows(BOTH_SHIPPED.shipments, 1) == 2
  {
    var o := BOTH_SHIPPED;
    assert o.shipments[..0] == [] && o.shipments[0].rows[..0] == [];
    assert RowQty([], 1) == 0 && RowQty(o.shipments[0].rows, 1) == 2;
    assert ShippedRows([], 1) == 0;
    assert o.items[0] in o.items && FindItem(o.items, 1).Some?;
  }

  lemma OnlyRowTaken(row: Item, line: Item)
    requires IsRoot(row) && row.goods.oid == line.goods.oid != ""
    ensures Choices([row], [line], true) == [Some(row.id)]
  {
    OnlyChoice([row], line, true);
    FirstUnusedIs(ByOid, Prepared(line, 0), [row], {});
    assert row in [row] && Candidate(ByOid, Prepared(line, 0), row, {});
  }

  /** It does fail, with a payload of the platform that cuts the line to one piece ... */
  lemma SyncCutsShippedRow()
    ensures LedgerOk(BOTH_SHIPPED)
    ensures !LedgerOk(IngestOrder(BOTH_SHIPPED, StillWaiting(true).(items := [LIVE_ROW]), 2, 2))
  {
    var o, inc := BOTH_SHIPPED, StillWaiting(true).(items := [LIVE_ROW]);
    var row := o.items[0];
    BothShippedLedger();
    OnlyRowTaken(row, LIVE_ROW);
    assert o.items == [row] && row in o.items;
    assert LineOf([Some(row.id)], row.id) == Some(0);
    assert Touched(row, [LIVE_ROW], [Some(row.id)]).quantity == 1;
    assert !RowKeepsShipped(o, inc.items, true, row);
    OrderLedger(o, inc, 2, 2);
  }

  /** ... and with a shop's payload that no longer has the line. */
  lemma SyncDeletesShippedRow()
    ensures LedgerOk(BOTH_SHIPPED)
    ensures !LedgerOk(IngestOrder(BOTH_SHIPPED, StillWaiting(true).(channel := StoreFront), 2, 2))
  {
    var o, inc := BOTH_SHIPPED, StillWaiting(true).(channel := StoreFront);
    BothShippedLedger();
    assert Choices(o.items, [], false) == [];
    assert o.items[0] in o.items && Doomed(o.items[0], o.items, [], false);
    OrderLedger(o, inc, 2, 2);
  }
}
