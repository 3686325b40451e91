/** The quantity side of the ledger: no row ships more than it was ordered, every
    shipment row belongs to a row of the order, and a waybill is listed once. */
module Quantities {
  import opened OrderModel
  import opened Ledger
  import opened Shipping

  ghost predicate RowsRefer(items: seq<Item>, rows: seq<ShipRow>) {
    forall r :: 0 <= r < |rows| ==>
      rows[r].qty > 0 && rows[r].itemId != 0 && FindItem(items, rows[r].itemId).Some?
  }

  ghost predicate ShipmentsRefer(items: seq<Item>, shipments: seq<Shipment>) {
    forall s :: 0 <= s < |shipments| ==> RowsRefer(items, shipments[s].rows)
  }

  ghost predicate WithinQuantity(o: Order) {
    forall it :: it in o.items && ShippedRows(o.shipments, it.id) > 0 ==>
      ShippedRows(o.shipments, it.id) <= it.quantity
  }

  ghost predicate DistinctWaybills(shipments: seq<Shipment>) {
    && (forall i :: 0 <= i < |shipments| ==> shipments[i].expressNo != "")
    && (forall i, j :: 0 <= i < j < |shipments| ==> shipments[i].expressNo != shipments[j].expressNo)
  }

  ghost predicate LedgerOk(o: Order) {
    && DistinctIds(o.items)
    && DistinctWaybills(o.shipments)
    && ShipmentsRefer(o.items, o.shipments)
    && WithinQuantity(o)
  }

  lemma FittingLinesRefer(o: Order, lines: seq<ShipRow>)
    requires LinesFit(o, lines)
    ensures RowsRefer(o.items, lines)
  {
    forall r | 0 <= r < |lines| ensures FindItem(o.items, lines[r].itemId).Some? {
      assert NamesLiveRow(o.items, lines[r].itemId);
      var it :| it in o.items && it.id == lines[r].itemId && !Excluded(it);
    }
  }

  lemma AppendedRowsRefer(items: seq<Item>, shipments: seq<Shipment>, k: nat, lines: seq<ShipRow>, company: string)
    requires ShipmentsRefer(items, shipments) && DistinctWaybills(shipments) && RowsRefer(items, lines)
    requires k < |shipments|
    ensures ShipmentsRefer(items, AppendRows(shipments, k, lines, company))
    ensures DistinctWaybills(AppendRows(shipments, k, lines, company))
  {
    var after := AppendRows(shipments, k, lines, company);
    assert RowsRefer(items, shipments[k].rows);
    assert RowsRefer(items, after[k].rows);
    forall s | 0 <= s < |after|
      ensures RowsRefer(items, after[s].rows) && after[s].expressNo == shipments[s].expressNo
    {
      if s != k { assert after[s] == shipments[s]; }
    }
  }

  lemma {:induction false} OpenedShipmentRefers(items: seq<Item>, shipments: seq<Shipment>, sh: Shipment)
    requires ShipmentsRefer(items, shipments) && DistinctWaybills(shipments) && RowsRefer(items, sh.rows)
    requires sh.expressNo != "" && FindWaybill(shipments, sh.expressNo).None?
    ensures ShipmentsRefer(items, shipments + [sh]) && DistinctWaybills(shipments + [sh])
  {
  }

  /** Ship keeps the ledger, whatever the request: repeated lines, appended waybills, the fallback. */
  lemma ShipKeepsLedger(o: Order, req: ShipRequest, newId: nat, now: nat)
    requires LedgerOk(o) && ShipOrder(o, req, newId, now).Ok?
    ensures LedgerOk(ShipOrder(o, req, newId, now).value)
  {
    var p := ShipOrder(o, req, newId, now).value;
    if p != o {
      ShipShape(o, req, newId, now);
      ShipAddsLines(o, req, newId, now);
      ResolvedLinesFit(o, req.items);
      var lines := ResolveLines(o, req.items).value;
      FittingLinesRefer(o, lines);
      match FindWaybill(o.shipments, req.expressNo) {
        case Some(k) => AppendedRowsRefer(o.items, o.shipments, k, lines, req.company);
        case None => OpenedShipmentRefers(o.items, o.shipments, Shipment(newId, req.company, req.expressNo, lines));
      }
      FittingLinesWithin(o, lines, p);
    }
  }

  lemma {:induction false} FittingLinesWithin(o: Order, lines: seq<ShipRow>, p: Order)
    requires LinesFit(o, lines) && WithinQuantity(o) && p.items == o.items
    requires forall id :: ShippedRows(p.shipments, id) == ShippedRows(o.shipments, id) + RowQty(lines, id)
    ensures WithinQuantity(p)
  {
    forall it | it in p.items && ShippedRows(p.shipments, it.id) > 0
      ensures ShippedRows(p.shipments, it.id) <= it.quantity
    {
      LineQtyCounts(lines, it.id);
      if LegacyShipped(o) { NoRowsNoQty(o.shipments, it.id); }
    }
  }

  lemma RemovalKeepsLedger(o: Order, k: nat)
    requires LedgerOk(o) && k < |o.shipments|
    ensures LedgerOk(o.(shipments := Without(o.shipments, k)))
  {
    forall it | it in o.items { ShippedRowsRemove(o.shipments, k, it.id); }
  }

  lemma UnshipKeepsLedger(o: Order, expressNo: string)
    requires LedgerOk(o) && UnshipOrder(o, expressNo).Ok?
    ensures LedgerOk(UnshipOrder(o, expressNo).value)
  {
    UnshipShape(o, expressNo);
    UnshippedKeepsLedger(o, FindWaybill(o.shipments, expressNo), UnshipOrder(o, expressNo).value);
  }

  lemma UnshippedKeepsLedger(o: Order, found: Option<nat>, p: Order)
    requires LedgerOk(o) && p.items == o.items && (found.Some? ==> found.value < |o.shipments|)
    requires p.shipments == if found.Some? then Without(o.shipments, found.value) else o.shipments
    ensures LedgerOk(p)
  {
    if found.Some? {
      RemovalKeepsLedger(o, found.value);
      LedgerIgnoresHeader(o.(shipments := p.shipments), p);
    } else {
      LedgerIgnoresHeader(o, p);
    }
  }

  lemma LedgerIgnoresHeader(o: Order, p: Order)
    requires p.items == o.items && p.shipments == o.shipments
    ensures LedgerOk(p) <==> LedgerOk(o)
  {
  }

  lemma WaybillKeepsLedger(o: Order, w: Waybill, newId: nat)
    requires LedgerOk(o)
    ensures LedgerOk(o.(shipments := RecordWaybill(o.shipments, w, newId)))
  {
    WaybillKeepsRows(o.shipments, w, newId);
    var after := RecordWaybill(o.shipments, w, newId);
    forall s | 0 <= s < |after| ensures RowsRefer(o.items, after[s].rows) {
      if s < |o.shipments| { assert RowsRefer(o.items, o.shipments[s].rows); }
    }
  }
}
