/** What a package sync leaves of a matched row and of the header, told on the
    columns. */
module PackageOutcome {
  import opened OrderModel
  import opened Ingest
  import Ledger
  import opened PackageFulfilment
  import opened Rollup

  // ---- the row ----

  /** A supplier ships the row offline; the platform has no say in it. */
  predicate ShipsOffline(f: Fulfilment) {
    f.allocType == Dropship && f.mode == OsmsSupplier && f.supplierId > 0
  }

  /** The row keeps its path against a platform that ships: it is our own stock, or bought on a purchase order. */
  predicate KeepsPath(f: Fulfilment, h: Hint) {
    h.allocType == ChannelShip
    && (f.allocType in {SelfShip, PurchaseThenShip} || (f.allocType == Dropship && f.poNo != ""))
  }

  /** The package says something about the allocation. */
  predicate Allocates(h: Hint) {
    h.applyAlloc && !h.clearAlloc && h.allocType != Unallocated
  }

  /** Its waybills have shipped all of the row. */
  predicate AllShipped(o: Order, it: Item) {
    ExpressQty(o.shipments, it.id) > 0 && ExpressQty(o.shipments, it.id) >= it.quantity
  }

  predicate SomethingLeft(o: Order, it: Item) {
    it.ful.shipStatus in {Shipped, PartialShipped} || o.head.shipStatus in {Shipped, PartialShipped}
    || exists sh :: sh in o.shipments && sh.expressNo != ""
  }

  /** The row's ship status: the platform's word, unless it still waits and something has left here; then shipped
      if the waybills cover the row, and otherwise as it was. */
  predicate ShipOf(o: Order, it: Item, h: Hint, s: ShipStatus) {
    if h.shipStatus in {NoShip, WaitShip} then
      if AllShipped(o, it) then s == Shipped
      else if SomethingLeft(o, it) then s == it.ful.shipStatus
      else s == WaitShip
    else s == h.shipStatus
  }

  /** The factory is the row's, or else the package's; the supplier the row's, or else the one bound to it. */
  predicate FactoryOf(was: Fulfilment, s: Sync, f: Fulfilment) {
    && f.factoryId == (if was.factoryId != "" then was.factoryId else s.factoryId)
    && f.factoryName == (if was.factoryName != "" then was.factoryName else s.factoryName)
    && if was.supplierId == 0 && s.boundSupplier.Some? then (f.supplierId, f.supplierName) == s.boundSupplier.value
       else f.supplierId == was.supplierId && f.supplierName == was.supplierName
  }

  /** Who makes and supplies the row's goods, and on which purchase order. */
  predicate SupplyOf(o: Order, was: Fulfilment, s: Sync, f: Fulfilment) {
    if f.allocType == Dropship then
      && f.poNo == (if was.poNo != "" then was.poNo else o.head.poNo)
      && if f.mode == KdzsFactory then FactoryOf(was, s, f)
         else f.factoryId == was.factoryId && f.factoryName == was.factoryName
              && f.supplierId == was.supplierId && f.supplierName == was.supplierName
    else if f.allocType in {SelfShip, ChannelShip} then
      f.supplierId == 0 && f.supplierName == "" && f.factoryId == "" && f.factoryName == "" && f.poNo == ""
    else
      && f.factoryId == was.factoryId && f.factoryName == was.factoryName
      && f.supplierId == was.supplierId && f.supplierName == was.supplierName && f.poNo == was.poNo
  }

  /** A matched row's columns after the sync. */
  predicate RowBecomes(o: Order, it: Item, s: Sync, f: Fulfilment) {
    var was, h := it.ful, s.hint;
    if ShipsOffline(was) then f == was
    else if h.clearAlloc then f == Fulfilment(Unallocated, NoMode, 0, "", "", "", "", "", WaitShip, None)
    else if Allocates(h) then
      && f.allocType == (if KeepsPath(was, h) then was.allocType else h.allocType)
      && f.mode == (if KeepsPath(was, h) then was.mode else h.mode)
      && f.selfNo == was.selfNo && ShipOf(o, it, h, f.shipStatus) && SupplyOf(o, was, s, f)
      && f.allocatedAt == if was.allocatedAt.Some? then was.allocatedAt else Some(s.now)
    else f == was
  }

  lemma ExpressIs(o: Order)
    ensures HasExpress(o) <==> exists sh :: sh in o.shipments && sh.expressNo != ""
  {
    if i :| 0 <= i < |o.shipments| && o.shipments[i].expressNo != "" { assert o.shipments[i] in o.shipments; }
    if sh :| sh in o.shipments && sh.expressNo != "" {
      var i :| 0 <= i < |o.shipments| && o.shipments[i] == sh;
    }
  }

  lemma SyncedRowBecomes(o: Order, it: Item, s: Sync, pkgId: nat)
    ensures var x := SyncedRow(o, it, s, pkgId);
      x == it.(packageId := pkgId, ful := x.ful) && RowBecomes(o, it, s, x.ful)
  {
    if !ShipsOffline(it.ful) && Allocates(s.hint) { AllocatedColumns(o, it, s); }
  }

  lemma RowShipIs(o: Order, it: Item, h: Hint)
    ensures ShipOf(o, it, h, RowShip(o, it, h))
  {
    ExpressIs(o);
  }

  lemma AllocatedColumns(o: Order, it: Item, s: Sync)
    requires Allocates(s.hint)
    ensures var was, h, f := it.ful, s.hint, SyncedFulfilment(o, it, s);
      && f.allocType == (if KeepsPath(was, h) then was.allocType else h.allocType)
      && f.mode == (if KeepsPath(was, h) then was.mode else h.mode)
      && f.selfNo == was.selfNo && ShipOf(o, it, h, f.shipStatus) && SupplyOf(o, was, s, f)
      && f.allocatedAt == if was.allocatedAt.Some? then was.allocatedAt else Some(s.now)
  {
    RowShipIs(o, it, s.hint);
  }

  /** Every row of the order after a package sync: one that a good of the package took goes to the package with the
      columns above, and any other is as it was. */
  lemma RowsAfterSync(o: Order, s: Sync, i: nat)
    requires i < |o.items|
    ensures var was, got := o.items[i], SyncPackage(o, s).items;
      && |got| == |o.items|
      && if was.id in Matched(o, s) then
           s.pkg.Some? && got[i] == was.(packageId := s.pkg.value.id, ful := got[i].ful)
           && RowBecomes(o, was, s, got[i].ful)
         else got[i] == was
  {
    RowAfterSync(o, s, i);
    if o.items[i].id in Matched(o, s) { SyncedRowBecomes(o, o.items[i], s, OwnPackage(o, s).value.id); }
  }

  /** No row is taken unless the payload is the platform's and its package belongs to the order. */
  lemma OnlyOwnPackages(o: Order, s: Sync)
    ensures Matched(o, s) != [] ==> s.channel == Kdzs && s.pkg.Some? && s.pkg.value.orderId == o.id
    ensures s.channel == Kdzs && s.pkg.Some? && s.pkg.value.orderId == o.id ==>
      Matched(o, s) == MatchedIds(o.items, s.goods)
    ensures Matched(o, s) == [] ==> SyncPackage(o, s) == o
  {
  }

  /** What the waybills carry of a row: the sum over those with a number. */
  lemma {:induction false} CarriedByWaybills(shipments: seq<Shipment>, sh: Shipment, id: nat)
    ensures ExpressQty([], id) == 0
    ensures ExpressQty(shipments + [sh], id) - ExpressQty(shipments, id)
         == if sh.expressNo == "" then 0 else Ledger.LineQty(sh.rows, id)
  {
    assert (shipments + [sh])[..|shipments|] == shipments;
  }

  // ---- how a good names a row ----

  /** By the platform line, by the item and, where the good names one, its sku, or by name and specs. */
  predicate NamesBy(t: Tier, want: Goods, has: Goods) {
    match t
    case ByOid => want.oid != "" && has.oid == want.oid
    case ByItem => want.itemId != "" && has.itemId == want.itemId && (want.skuId != "" ==> has.skuId == want.skuId)
    case ByName => want.name != "" && has.name == want.name && has.specs == want.specs
  }

  /** Whether a row can be taken: a root, not taken before, named in that way. */
  lemma CandidateIs(t: Tier, want: Goods, row: Item, used: set<nat>)
    ensures Candidate(t, want, row, used)
       <==> row.split == NoSplit && row.parent == 0 && row.id !in used && NamesBy(t, want, row.goods)
  {
  }

  // ---- the header ----

  /** The header after a sync that takes a row: the summary of the rows, but a header that has moved keeps its ship
      status, one with a waybill says at least partly shipped, and a finished order keeps its stage. */
  lemma HeaderAfterSync(o: Order, s: Sync)
    ensures var p := SyncPackage(o, s); var sum := RollupOf(o.(items := p.items));
      if Matched(o, s) == [] || sum.None? then
        p.head == o.head && p.status == o.status && p.agentType == o.agentType
      else
        && p.agentType == sum.value.agentType && p.head == sum.value.head.(shipStatus := p.head.shipStatus)
        && p.status == (if o.status in {Completed, Closed} then o.status else sum.value.status)
        && if o.head.shipStatus in {Shipped, PartialShipped} then p.head.shipStatus == o.head.shipStatus
           else if exists sh :: sh in o.shipments && sh.expressNo != "" then
             var ledger := Ledger.ShipStatusAfter(o.(items := p.items), []);
             p.head.shipStatus == if ledger == WaitShip then PartialShipped else ledger
           else p.head.shipStatus == sum.value.head.shipStatus
  {
    if Matched(o, s) != [] {
      var mid := o.(items := SyncedRows(o, Matched(o, s), s, OwnPackage(o, s).value.id));
      ExpressIs(mid);
      HeaderIs(mid);
      assert SyncPackage(o, s) == SyncedHeader(mid) && SyncPackage(o, s).items == mid.items;
    }
  }

  lemma HeaderIs(mid: Order)
    ensures var p, sum := SyncedHeader(mid), RollupOf(mid);
      if sum.None? then p == mid
      else
        && p.items == mid.items && p.agentType == sum.value.agentType
        && p.head == sum.value.head.(shipStatus := p.head.shipStatus)
        && p.status == (if mid.status in {Completed, Closed} then mid.status else sum.value.status)
        && if mid.head.shipStatus in {Shipped, PartialShipped} then p.head.shipStatus == mid.head.shipStatus
           else if HasExpress(mid) then
             var ledger := Ledger.ShipStatusAfter(mid, []);
             p.head.shipStatus == if ledger == WaitShip then PartialShipped else ledger
           else p.head.shipStatus == sum.value.head.shipStatus
  {
  }
}
