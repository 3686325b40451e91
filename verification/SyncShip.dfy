/** What a sync and what whole runs of syncs do to the ship status of an order
    that stays open: which merges take it back, and what the order write, the
    merge and the package step of one sync leave together. */
module SyncShip {
  import opened OrderModel
  import opened Ingest
  import Ledger
  import opened PackageFulfilment
  import opened Rollup
  import RowSync
  import Shipping
  import opened SiblingMerge
  import opened SyncRuns

  // ---- which rows a merge leaves moved ----

  /** The row that keeps a platform line's goods: the last root with its number. */
  function KeptOn(items: seq<Item>, oid: string): Option<Item> {
    var at := KeeperRow(items, oid);
    if at.Some? then Some(items[at.value]) else None
  }

  /** The last allocation a sibling has for a platform line. */
  function LastAlloc(sib: Order, rows: seq<Item>, oid: string): Option<Fulfilment> {
    if rows == [] then None
    else
      var it := rows[|rows| - 1];
      if it.goods.oid == oid && HasAlloc(RowFulfilment(sib, it)) then Some(RowFulfilment(sib, it))
      else LastAlloc(sib, rows[..|rows| - 1], oid)
  }

  /** A kept row after one sibling: with its own allocation, or else the sibling's last one. */
  function Topped(it: Item, sib: Order): Item {
    var f := LastAlloc(sib, sib.items, it.goods.oid);
    if !HasAlloc(it.ful) && f.Some? then it.(ful := f.value) else it
  }

  /** The row that keeps a platform line's goods once the siblings are folded in. */
  function Held(k: Order, sibs: seq<Order>, oid: string): Option<Item> {
    if sibs == [] then KeptOn(k.items, oid)
    else
      var n := |sibs| - 1;
      match Held(k, sibs[..n], oid)
      case Some(it) => Some(Topped(it, sibs[n]))
      case None =>
        var row := KeptOn(sibs[n].items, oid);
        if row.Some? then Some(Settled(sibs[n], row.value)) else None
  }

  /** The sibling's allocation of a row that had none says that the goods have left. */
  predicate TopsMoved(it: Item, sib: Order) {
    !HasAlloc(it.ful) && MovedRoot(Topped(it, sib))
  }

  /** The rows that move over as moved ones. */
  function Arrives(sib: Order): Item -> bool {
    it => MovedRoot(Settled(sib, it))
  }

  /** Some sibling brings a row that has moved, or one that makes a row without an allocation a moved one. */
  ghost predicate BringsMoved(k: Order, sibs: seq<Order>) {
    sibs != [] &&
      var n := |sibs| - 1;
      || BringsMoved(k, sibs[..n])
      || NewRow(SeenOids(k, sibs[..n]), sibs[n].items, Arrives(sibs[n]))
      || HeldTopsMoved(k, sibs[..n], sibs[n])
  }

  ghost predicate HeldTopsMoved(k: Order, sibs: seq<Order>, sib: Order) {
    exists oid :: oid in SeenOids(k, sibs) && HeldTops(Held(k, sibs, oid), sib)
  }

  predicate HeldTops(row: Option<Item>, sib: Order) {
    row.Some? && TopsMoved(row.value, sib)
  }

  lemma {:induction false} FilledRow(k: Order, sib: Order, rows: seq<Item>, j: nat)
    requires j < |k.items|
    ensures var it := k.items[j]; var f := LastAlloc(sib, rows, it.goods.oid);
      Filled(k, sib, rows)[j]
      == if !HasAlloc(it.ful) && KeeperRow(k.items, it.goods.oid) == Some(j) && f.Some? then it.(ful := f.value)
         else it
  {
    if rows != [] {
      FilledRow(k, sib, rows[..|rows| - 1], j);
    }
  }

  /** A row takes a sibling's allocation only as the one that keeps its platform line. */
  lemma {:induction false} FilledTops(k: Order, sib: Order, j: nat)
    requires j < |k.items|
    ensures Filled(k, sib, sib.items)[j]
         == if KeeperRow(k.items, k.items[j].goods.oid) == Some(j) then Topped(k.items[j], sib) else k.items[j]
  {
    FilledRow(k, sib, sib.items, j);
  }

  lemma KeptOnStep(items: seq<Item>, x: Item, oid: string)
    ensures KeptOn(items + [x], oid)
         == if oid != "" && IsRoot(x) && x.goods.oid == oid then Some(x) else KeptOn(items, oid)
  {
    assert (items + [x])[..|items|] == items;
  }

  lemma {:induction false} SameKeeperRow(a: seq<Item>, b: seq<Item>, oid: string)
    requires |a| == |b| && forall j :: 0 <= j < |a| ==> b[j] == a[j].(ful := b[j].ful)
    ensures KeeperRow(b, oid) == KeeperRow(a, oid)
  {
    if a != [] { SameKeeperRow(a[..|a| - 1], b[..|b| - 1], oid); }
  }

  lemma {:induction false} KeptOnFilled(k: Order, sib: Order, oid: string)
    ensures KeptOn(Filled(k, sib, sib.items), oid)
         == if KeptOn(k.items, oid).Some? then Some(Topped(KeptOn(k.items, oid).value, sib)) else None
  {
    var filled := Filled(k, sib, sib.items);
    forall j | 0 <= j < |filled| ensures filled[j] == k.items[j].(ful := filled[j].ful) {
      FilledAre(k, sib, sib.items, j);
    }
    SameKeeperRow(k.items, filled, oid);
    if KeeperRow(k.items, oid).Some? { FilledTops(k, sib, KeeperRow(k.items, oid).value); }
  }

  lemma {:induction false} KeptOnMoved(k: Order, sib: Order, rows: seq<Item>, front: seq<Item>, oid: string)
    ensures var row := KeptOn(rows, oid);
      KeptOn(front + Moved(k, sib, rows), oid)
      == if KeptOn(k.items, oid).None? && row.Some? then Some(Settled(sib, row.value)) else KeptOn(front, oid)
  {
    if rows == [] {
      assert front + Moved(k, sib, rows) == front;
    } else {
      var n := |rows| - 1;
      var before := Moved(k, sib, rows[..n]);
      KeptOnMoved(k, sib, rows[..n], front, oid);
      assert rows == rows[..n] + [rows[n]];
      KeptOnStep(rows[..n], rows[n], oid);
      KeptOnStep(front + before, Settled(sib, rows[n]), oid);
      assert front + before + [Settled(sib, rows[n])] == front + (before + [Settled(sib, rows[n])]);
    }
  }

  lemma {:induction false} HeldIs(k: Order, sibs: seq<Order>, oid: string)
    ensures Held(k, sibs, oid) == KeptOn(MergeList(k, sibs).items, oid)
  {
    if sibs != [] {
      var n := |sibs| - 1;
      var mid, sib := MergeList(k, sibs[..n]), sibs[n];
      HeldIs(k, sibs[..n], oid);
      KeptOnFilled(mid, sib, oid);
      KeptOnMoved(mid, sib, sib.items, Filled(mid, sib, sib.items), oid);
    }
  }

  lemma {:induction false} SettledRows(k: Order, sib: Order, rows: seq<Item>)
    ensures HasSome(Moved(k, sib, rows), MovedRoot)
       <==> NewRow(RootOids(k.items), rows, Arrives(sib))
  {
    if rows != [] {
      var n := |rows| - 1;
      SettledRows(k, sib, rows[..n]);
      RootOidIs(k.items, rows[n].goods.oid);
      HasSomeStep(Moved(k, sib, rows[..n]), Settled(sib, rows[n]), MovedRoot);
      NewRowStep(RootOids(k.items), rows, Arrives(sib));
    }
  }

  ghost predicate Tops(k: Order, sib: Order) {
    exists oid :: oid in RootOids(k.items) && HeldTops(KeptOn(k.items, oid), sib)
  }

  lemma {:induction false} FilledMoved(k: Order, sib: Order)
    ensures HasSome(Filled(k, sib, sib.items), MovedRoot) <==> HasSome(k.items, MovedRoot) || Tops(k, sib)
  {
    var filled := Filled(k, sib, sib.items);
    if HasSome(k.items, MovedRoot) {
      var j :| 0 <= j < |k.items| && MovedRoot(k.items[j]);
      FilledTops(k, sib, j);
      assert MovedRoot(filled[j]);
    }
    if Tops(k, sib) {
      var oid :| oid in RootOids(k.items) && HeldTops(KeptOn(k.items, oid), sib);
      var j := KeeperRow(k.items, oid).value;
      FilledTops(k, sib, j);
      assert MovedRoot(filled[j]);
    }
    if HasSome(filled, MovedRoot) {
      var j :| 0 <= j < |filled| && MovedRoot(filled[j]);
      FilledTops(k, sib, j);
      if filled[j] == k.items[j] {
        assert MovedRoot(k.items[j]);
      } else {
        var oid := k.items[j].goods.oid;
        RootOidIs(k.items, oid);
        assert HeldTops(KeptOn(k.items, oid), sib);
      }
    }
  }

  lemma OneMergeMoved(k: Order, sib: Order)
    ensures HasSome(MergeOrders(k, sib).items, MovedRoot)
       <==> HasSome(k.items, MovedRoot) || Tops(k, sib)
            || NewRow(RootOids(k.items), sib.items, Arrives(sib))
  {
    FilledMoved(k, sib);
    SettledRows(k, sib, sib.items);
    HasSomeConcat(Filled(k, sib, sib.items), Moved(k, sib, sib.items), MovedRoot);
  }

  lemma {:induction false} TopsHeld(k: Order, sibs: seq<Order>, sib: Order)
    ensures Tops(MergeList(k, sibs), sib) <==> HeldTopsMoved(k, sibs, sib)
  {
    MergedRootOids(k, sibs);
    forall oid ensures Held(k, sibs, oid) == KeptOn(MergeList(k, sibs).items, oid) {
      HeldIs(k, sibs, oid);
    }
  }

  /** The merged order has a moved row exactly when the keeper had one or a sibling brings one. */
  lemma {:induction false} MergedMoved(k: Order, sibs: seq<Order>)
    ensures HasSome(MergeList(k, sibs).items, MovedRoot) <==> HasSome(k.items, MovedRoot) || BringsMoved(k, sibs)
  {
    if sibs != [] {
      var n := |sibs| - 1;
      MergedMoved(k, sibs[..n]);
      MergedRootOids(k, sibs[..n]);
      TopsHeld(k, sibs[..n], sibs[n]);
      OneMergeMoved(MergeList(k, sibs[..n]), sibs[n]);
    }
  }

  // ---- shipped stays shipped ----

  lemma AnyRootIs(o: Order)
    ensures AnyRoot(o) <==> HasFulfillable(o.items)
  {
    if AnyRoot(o) {
      var it :| it in o.items && FulfillableRoot(it);
      var i :| 0 <= i < |o.items| && o.items[i] == it;
    }
    if HasFulfillable(o.items) {
      var i :| 0 <= i < |o.items| && FulfillableRoot(o.items[i]);
      assert o.items[i] in o.items;
    }
  }

  lemma MovedRows(items: seq<Item>)
    ensures HasSome(items, MovedRoot)
       <==> exists it :: it in items && AllocatedRoot(it) && ShipMoved(it.ful.shipStatus)
  {
    if HasSome(items, MovedRoot) {
      var i :| 0 <= i < |items| && MovedRoot(items[i]);
      assert items[i] in items;
    }
    if it :| it in items && AllocatedRoot(it) && ShipMoved(it.ful.shipStatus) {
      var i :| 0 <= i < |items| && items[i] == it;
      assert MovedRoot(items[i]);
    }
  }

  /** There is something to fulfil once the siblings are folded in. */
  predicate MergedLive(k: Order, sibs: seq<Order>) {
    HasFulfillable(k.items) || Brings(k, sibs, FulfillableRoot)
  }

  /** What a merge leaves moved: with something to roll up, a shipped header or a row that has moved. */
  ghost predicate MovedAfterMerge(k: Order, sibs: seq<Order>) {
    if sibs == [] || !MergedLive(k, sibs) then ShipMoved(k.head.shipStatus)
    else k.head.shipStatus == Shipped || HasSome(k.items, MovedRoot) || BringsMoved(k, sibs)
  }

  /** The header after a merge, from the rows of the keeper and of its siblings. */
  lemma MergeShip(k: Order, sibs: seq<Order>)
    ensures ShipMoved(MergeInto(k, sibs).head.shipStatus) <==> MovedAfterMerge(k, sibs)
  {
    var m := MergeList(k, sibs);
    MergeListHeader(k, sibs);
    if sibs != [] {
      MergedHead(k, sibs);
      RolledShip(m);
      MergedMoved(k, sibs);
      MergedRoots(k, sibs);
    }
  }

  lemma {:induction false} MergedRoots(k: Order, sibs: seq<Order>)
    ensures HasFulfillable(MergeList(k, sibs).items) <==> MergedLive(k, sibs)
  {
    MergedHas(k, sibs, FulfillableRoot);
    LiveRowsAre(k.items);
    LiveRowsAre(MergeList(k, sibs).items);
  }

  lemma RolledShip(m: Order)
    ensures ShipMoved(RolledHeader(m).head.shipStatus)
       <==> if HasFulfillable(m.items) then m.head.shipStatus == Shipped || HasSome(m.items, MovedRoot)
            else ShipMoved(m.head.shipStatus)
  {
    AnyRootIs(m);
    MovedRows(m.items);
    if AnyRoot(m) {
      HeaderAfterMerge(m);
      RollupShipIs(m);
    }
  }

  /** New rows get keys above the old ones, in every order sync of the run. */
  ghost predicate FreshKeys(o: Order, steps: seq<SyncStep>) {
    steps != [] ==>
      var n := |steps| - 1;
      && FreshKeys(o, steps[..n])
      && (steps[n].OrderSync? ==> RowSync.FreshKey(Steps(o, steps[..n]).items, steps[n].itemKey))
  }

  ghost predicate StaysOpen(o: Order, steps: seq<SyncStep>) {
    Steps(o, steps).status != Closed && (steps != [] ==> StaysOpen(o, steps[..|steps| - 1]))
  }

  ghost predicate AlwaysMoved(o: Order, steps: seq<SyncStep>) {
    ShipMoved(Steps(o, steps).head.shipStatus) && (steps != [] ==> AlwaysMoved(o, steps[..|steps| - 1]))
  }

  ghost predicate MergesKeepShip(o: Order, steps: seq<SyncStep>) {
    steps != [] ==>
      var n := |steps| - 1;
      && MergesKeepShip(o, steps[..n])
      && (steps[n].MergeSync? ==> MovedAfterMerge(Steps(o, steps[..n]), steps[n].sibs))
  }

  /** Through any run that leaves the order open, a header that says shipped or partly shipped never goes back
      to waiting, if and only if every merge of the run keeps it. */
  lemma {:induction false} ShipOverRuns(o: Order, steps: seq<SyncStep>)
    requires FreshKeys(o, steps) && StaysOpen(o, steps)
    requires ShipMoved(o.head.shipStatus)
    ensures AlwaysMoved(o, steps) <==> MergesKeepShip(o, steps)
  {
    if steps != [] {
      var n := |steps| - 1;
      ShipOverRuns(o, steps[..n]);
      var before := Steps(o, steps[..n]);
      if AlwaysMoved(o, steps[..n]) {
        match steps[n]
        case OrderSync(inc, itemKey, shipmentKey) => IngestKeepsShip(before, inc, itemKey, shipmentKey);
        case MergeSync(sibs) => MergeShip(before, sibs);
        case PackageSync(s) => PackageKeepsShip(before, s);
      }
    }
  }

  /** One of two pieces has left under a waybill: shipping writes the header, and leaves the row waiting. */
  const PARTLY_SHIPPED_ROW :=
    OTHER_ROW.(quantity := 2, ful := NO_FULFILMENT.(allocType := SelfShip, shipStatus := WaitShip))
  const PARTLY_SHIPPED :=
    OPEN_SPLIT.(sysTid := "R", splitFrom := 0, status := PartialShip,
                head := NO_FULFILMENT.(allocType := SelfShip, shipStatus := PartialShipped),
                items := [PARTLY_SHIPPED_ROW], shipments := [Shipment(1, "", "W", [ShipRow(2, 1)])])

  lemma PartlyShippedAgrees()
    ensures Ledger.StatusAgrees(PARTLY_SHIPPED)
  {
    var o, it := PARTLY_SHIPPED, PARTLY_SHIPPED_ROW;
    assert o.items[..0] == [] && o.shipments[..0] == [] && o.shipments[0].rows[..0] == [];
    assert Ledger.RowQty([], 2) == 0 && Ledger.RowQty(o.shipments[0].rows, 2) == 1;
    assert Ledger.ShippedRows([], 2) == 0 && Ledger.ShippedRows(o.shipments, 2) == 1;
    assert o.items[0] == it && Ledger.Shippable(o, it) && !Ledger.LegacyShipped(o);
    assert Ledger.LeftAfter(o, [], it) == 1 && Ledger.Ordered(o, it) == 2;
    OneRowSum(o.items, row => Ledger.LeftAfter(o, [], row));
    OneRowSum(o.items, row => Ledger.Ordered(o, row));
  }

  lemma {:induction false} OneRowSum(items: seq<Item>, f: Item -> int)
    requires |items| == 1
    ensures Ledger.SumItems(items, f) == f(items[0])
  {
    assert items[..0] == [] && Ledger.SumItems([], f) == 0;
  }

  lemma PartlyShippedKeeps()
    ensures Keeper([CLOSED_KEEPER, PARTLY_SHIPPED]) == Some(PARTLY_SHIPPED)
  {
    var k, sib := PARTLY_SHIPPED, CLOSED_KEEPER;
    assert [sib, k][..1] == [sib] && [sib][..0] == [];
    assert IndexOf("S", "#split").None? && IndexOf("R", "#split").None?;
    assert Best([sib]) == Some(sib);
  }

  /** It does fail: a partly shipped order with its waybill keeps, takes over a closed older order, and waits
      again because none of its rows says that it has moved. */
  lemma MergeTakesPartlyShippedBack()
    ensures Keeper([CLOSED_KEEPER, PARTLY_SHIPPED]) == Some(PARTLY_SHIPPED) && PARTLY_SHIPPED.id != CLOSED_KEEPER.id
    ensures Ledger.StatusAgrees(PARTLY_SHIPPED) && PARTLY_SHIPPED.head.shipStatus == PartialShipped
    ensures MergeInto(PARTLY_SHIPPED, [CLOSED_KEEPER]).head.shipStatus == WaitShip
  {
    var k, sib := PARTLY_SHIPPED, CLOSED_KEEPER;
    var m := MergeList(k, [sib]);
    PartlyShippedKeeps();
    PartlyShippedAgrees();
    MergeOfOne(k, sib, DEAD_ROW);
    assert m.items[0] == PARTLY_SHIPPED_ROW && m.items[0] in m.items && FulfillableRoot(m.items[0]);
    forall it | it in m.items ensures it.ful.shipStatus != Shipped && it.ful.shipStatus != PartialShipped {
      assert it == m.items[0] || it == m.items[1];
    }
    HeaderAfterMerge(m);
    MergedHead(k, [sib]);
  }

  lemma {:induction false} MergedHead(k: Order, sibs: seq<Order>)
    requires sibs != []
    ensures MergeInto(k, sibs).head == RolledHeader(MergeList(k, sibs)).head
  {
  }

  lemma {:induction false} MergeOfOne(k: Order, sib: Order, row: Item)
    requires sib.items == [row] && !Dropped(k, row)
    ensures MergeList(k, [sib]).items == k.items + [Settled(sib, row)] && MergeList(k, [sib]).head == k.head
  {
    assert [sib][..0] == [] && sib.items[..0] == [];
    assert MergeList(k, [sib][..0]) == k;
    assert Moved(k, sib, sib.items[..0]) == [] && Filled(k, sib, sib.items[..0]) == k.items;
  }

  // ---- one whole sync: the order, its siblings, its package ----

  /** What the order write leaves moved: a waybill counts only if it was loaded with the order. */
  predicate MovedAfterWrite(o: Order, inc: Incoming) {
    ShipMoved(o.head.shipStatus)
    || (WritesShip(o, inc) && (ShipMoved(EffectiveHint(o, inc).shipStatus) || HasExpress(View(o, inc))))
  }

  lemma WriteShipIs(o: Order, inc: Incoming, itemKey: nat, shipmentKey: nat)
    requires RowSync.FreshKey(o.items, itemKey) && o.status != Closed
    ensures var p := IngestOrder(o, inc, itemKey, shipmentKey);
      p.status != Closed ==>
        p.head.shipStatus == Ingest.HeaderShip(o, inc) && (ShipMoved(p.head.shipStatus) <==> MovedAfterWrite(o, inc))
  {
    if Ingest.HeaderStatus(o, inc) == Closed {
      ClosedStaysClosed(o, inc, itemKey);
    } else {
      BackstopFits(Merged(o, inc, itemKey, shipmentKey));
      RestoredMoved(View(o, inc));
    }
  }

  /** The rows that are moved ones after a package sync of an order without waybills. */
  function LeftMoved(o: Order, s: Sync): Item -> bool {
    it =>
      FulfillableRoot(it)
      && if it.id in Matched(o, s) && !OfflineDropship(it) && s.hint.clearAlloc then
           false
         else if it.id in Matched(o, s) && !OfflineDropship(it)
                 && Applies(s.hint) then
           ShipMoved(s.hint.shipStatus) || ShipMoved(it.ful.shipStatus)
         else MovedRoot(it)
  }

  /** What a package sync leaves moved: what was, and where it reaches a row, any waybill or moved row. */
  predicate MovedAfterPackage(o: Order, s: Sync) {
    ShipMoved(o.head.shipStatus)
    || (Matched(o, s) != [] && HasFulfillable(o.items)
        && (HasExpress(o) || HasSome(o.items, LeftMoved(o, s))))
  }

  lemma {:induction false} NoExpressNoQty(shipments: seq<Shipment>, id: nat)
    requires forall i :: 0 <= i < |shipments| ==> shipments[i].expressNo == ""
    ensures ExpressQty(shipments, id) == 0
  {
    if shipments != [] { NoExpressNoQty(shipments[..|shipments| - 1], id); }
  }

  lemma LeftMovedIs(o: Order, s: Sync, it: Item, pkgId: nat)
    requires !HasExpress(o)
    ensures var x := if it.id in Matched(o, s) then SyncedRow(o, it, s, pkgId) else it;
      MovedRoot(x) <==> LeftMoved(o, s)(it)
  {
    NoExpressNoQty(o.shipments, it.id);
    ShipAfterSync(o, it, s, pkgId);
    AllocAfterSync(o, it, s, pkgId);
  }

  lemma SyncedMoved(o: Order, s: Sync, pkgId: nat)
    requires !HasExpress(o)
    ensures HasSome(SyncedRows(o, Matched(o, s), s, pkgId), MovedRoot)
       <==> HasSome(o.items, LeftMoved(o, s))
  {
    var rows := SyncedRows(o, Matched(o, s), s, pkgId);
    forall i | 0 <= i < |rows| ensures MovedRoot(rows[i]) <==> LeftMoved(o, s)(o.items[i]) {
      LeftMovedIs(o, s, o.items[i], pkgId);
    }
  }

  /** The header after a package sync. */
  lemma PackageShipIs(o: Order, s: Sync)
    ensures ShipMoved(SyncPackage(o, s).head.shipStatus) <==> MovedAfterPackage(o, s)
  {
    if Matched(o, s) != [] {
      var pkgId := OwnPackage(o, s).value.id;
      var mid := o.(items := SyncedRows(o, Matched(o, s), s, pkgId));
      SyncKeepsRoots(o, s);
      AnyRootIs(o);
      RestoredMoved(mid);
      if !HasExpress(o) {
        SyncedMoved(o, s, pkgId);
        HeaderShipRows(mid);
      }
    }
  }

  lemma HeaderShipRows(o: Order)
    ensures AnyRoot(o) ==> (ShipMoved(RollupOf(o).value.head.shipStatus) <==> HasSome(o.items, MovedRoot))
  {
    if AnyRoot(o) {
      HeaderShipMeaning(o);
      RollupShipIs(o);
      MovedRows(o.items);
    }
  }

  lemma ExpressWaybills(o: Order)
    ensures HasExpress(o) <==> Waybills(o.shipments) != {}
  {
    if HasExpress(o) {
      var i :| 0 <= i < |o.shipments| && o.shipments[i].expressNo != "";
      assert o.shipments[i].expressNo in Waybills(o.shipments);
    }
    if no :| no in Waybills(o.shipments) {
      var i :| 0 <= i < |o.shipments| && o.shipments[i].expressNo != "" && o.shipments[i].expressNo == no;
    }
  }

  function Numbers(ws: seq<Shipping.Waybill>): set<string> {
    set i | 0 <= i < |ws| && ws[i].expressNo != "" :: ws[i].expressNo
  }

  lemma OneRecorded(shipments: seq<Shipment>, w: Shipping.Waybill, id: nat)
    ensures Waybills(Shipping.RecordWaybill(shipments, w, id))
         == Waybills(shipments) + if w.expressNo != "" then {w.expressNo} else {}
  {
    var after := Shipping.RecordWaybill(shipments, w, id);
    Shipping.WaybillKeepsRows(shipments, w, id);
    assert forall i :: 0 <= i < |shipments| ==> after[i].expressNo == shipments[i].expressNo;
    if |after| > |shipments| { assert after[|shipments|].expressNo == w.expressNo; }
  }

  lemma {:induction false} RecordedNumbers(shipments: seq<Shipment>, ws: seq<Shipping.Waybill>, id: nat)
    ensures Waybills(Shipping.RecordWaybills(shipments, ws, id).0) == Waybills(shipments) + Numbers(ws)
  {
    if ws != [] {
      var n := |ws| - 1;
      RecordedNumbers(shipments, ws[..n], id);
      var (before, next) := Shipping.RecordWaybills(shipments, ws[..n], id);
      OneRecorded(before, ws[n], next);
      NumbersStep(ws);
    }
  }

  lemma NumbersStep(ws: seq<Shipping.Waybill>)
    requires ws != []
    ensures var n := |ws| - 1;
      Numbers(ws) == Numbers(ws[..n]) + if ws[n].expressNo != "" then {ws[n].expressNo} else {}
  {
    var n := |ws| - 1;
    forall i | 0 <= i < n ensures ws[..n][i] == ws[i] {}
    forall no ensures no in Numbers(ws) <==> no in Numbers(ws[..n]) || (no != "" && no == ws[n].expressNo) {
      if no in Numbers(ws) {
        var i :| 0 <= i < |ws| && ws[i].expressNo != "" && ws[i].expressNo == no;
        if i < n { assert ws[..n][i].expressNo == no; }
      }
    }
  }

  /** The waybills of the order, of the payload and of the siblings. */
  function KnownWaybills(o: Order, inc: Incoming, sibs: seq<Order>): set<string> {
    Waybills(o.shipments) + Numbers(inc.waybills) + AllWaybills(sibs)
  }

  lemma SyncedWaybills(o: Order, inc: Incoming, itemKey: nat, shipmentKey: nat, sibs: seq<Order>)
    ensures var m := MergeInto(IngestOrder(o, inc, itemKey, shipmentKey), sibs);
      HasExpress(m) <==> KnownWaybills(o, inc, sibs) != {}
  {
    var k := IngestOrder(o, inc, itemKey, shipmentKey);
    BackstopFits(Merged(o, inc, itemKey, shipmentKey));
    RecordedNumbers(o.shipments, inc.waybills, shipmentKey);
    WaybillsAreTheUnion(k, sibs);
    FinishedKeeps(MergeList(k, sibs), sibs != []);
    ExpressWaybills(MergeInto(k, sibs));
  }

  /** What the order write and the merge leave moved. */
  ghost predicate MovedBeforePackage(o: Order, inc: Incoming, k: Order, sibs: seq<Order>) {
    if sibs == [] || !MergedLive(k, sibs) then MovedAfterWrite(o, inc)
    else Ingest.HeaderShip(o, inc) == Shipped || HasSome(k.items, MovedRoot) || BringsMoved(k, sibs)
  }

  /** A merge and then a package sync, from any order. */
  lemma MergeThenPackage(k: Order, sibs: seq<Order>, s: Sync)
    ensures var m := MergeInto(k, sibs); var p := SyncPackage(m, s);
      && (p.status == Closed <==> k.status == Closed)
      && (ShipMoved(p.head.shipStatus)
          <==> MovedAfterMerge(k, sibs)
               || (Matched(m, s) != [] && HasFulfillable(m.items)
                   && (HasExpress(m) || HasSome(m.items, LeftMoved(m, s)))))
  {
    var m := MergeInto(k, sibs);
    SyncKeepsStage(m, s);
    MergeKeepsStage(k, sibs);
    MergeShip(k, sibs);
    PackageShipIs(m, s);
  }

  /** The three steps of one sync of an open order: it ends moved, if it stays open, exactly when the first two
      leave it so, or the payload's goods reach a row and there is a waybill, loaded or not, or a moved row. */
  lemma {:induction false} WholeSync(o: Order, inc: Incoming, itemKey: nat, shipmentKey: nat, sibs: seq<Order>, s: Sync)
    requires RowSync.FreshKey(o.items, itemKey) && o.status != Closed
    ensures var k := IngestOrder(o, inc, itemKey, shipmentKey);
      var m, p := MergeInto(k, sibs), Steps(o, [OrderSync(inc, itemKey, shipmentKey), MergeSync(sibs), PackageSync(s)]);
      p.status != Closed ==>
        (ShipMoved(p.head.shipStatus)
         <==> MovedBeforePackage(o, inc, k, sibs)
              || (Matched(m, s) != [] && HasFulfillable(m.items)
                  && (KnownWaybills(o, inc, sibs) != {} || HasSome(m.items, LeftMoved(m, s)))))
  {
    ThreeSteps(o, OrderSync(inc, itemKey, shipmentKey), MergeSync(sibs), PackageSync(s));
    MergeThenPackage(IngestOrder(o, inc, itemKey, shipmentKey), sibs, s);
    WriteShipIs(o, inc, itemKey, shipmentKey);
    SyncedWaybills(o, inc, itemKey, shipmentKey, sibs);
  }

  lemma {:induction false} ThreeSteps(o: Order, a: SyncStep, b: SyncStep, c: SyncStep)
    ensures Steps(o, [a, b, c]) == Step(Step(Step(o, a), b), c)
  {
    StepsThen(o, [], a);
    StepsThen(o, [a], b);
    StepsThen(o, [a, b], c);
    assert [] + [a] == [a] && [a] + [b] == [a, b] && [a, b] + [c] == [a, b, c];
  }

  lemma {:induction false} StepsThen(o: Order, steps: seq<SyncStep>, step: SyncStep)
    ensures Steps(o, steps + [step]) == Step(Steps(o, steps), step)
  {
    assert (steps + [step])[..|steps|] == steps;
  }

  /** So a waybill is never overruled by a sync whose goods reach an order with something to fulfil. */
  lemma {:induction false} GoodsShowWaybills(o: Order, inc: Incoming, itemKey: nat, shipmentKey: nat, sibs: seq<Order>,
                                             s: Sync)
    requires RowSync.FreshKey(o.items, itemKey) && o.status != Closed && KnownWaybills(o, inc, sibs) != {}
    requires var m := MergeInto(IngestOrder(o, inc, itemKey, shipmentKey), sibs);
      Matched(m, s) != [] && HasFulfillable(m.items)
    ensures var p := Steps(o, [OrderSync(inc, itemKey, shipmentKey), MergeSync(sibs), PackageSync(s)]);
      p.status != Closed ==> ShipMoved(p.head.shipStatus)
  {
    WholeSync(o, inc, itemKey, shipmentKey, sibs, s);
  }

  /** A package step without goods. */
  function NoGoods(): Sync {
    Sync(Kdzs, None, [], StillWaiting(false).hint, "", "", None, 0)
  }

  lemma AloneKeeps(k: Order)
    ensures MergeInto(k, []).head == k.head && MergeInto(k, []).status == k.status
  {
  }

  lemma NoPackageNoChange(o: Order, s: Sync)
    requires s.pkg.None?
    ensures SyncPackage(o, s) == o
  {
  }

  lemma {:induction false} StepWithoutGoods(o: Order, step: SyncStep, s: Sync)
    requires s.pkg.None?
    ensures var p := Steps(o, [step, MergeSync([]), PackageSync(s)]);
      p.head == Step(o, step).head && p.status == Step(o, step).status
  {
    ThreeSteps(o, step, MergeSync([]), PackageSync(s));
    AloneKeeps(Step(o, step));
    NoPackageNoChange(MergeInto(Step(o, step), []), s);
  }

  /** And it is overruled by a whole sync that neither loads it nor brings goods. */
  lemma WaybillWithoutGoods()
    ensures HasExpress(WITH_WAYBILL)
    ensures var p := Steps(WITH_WAYBILL, [OrderSync(StillWaiting(false), 2, 2), MergeSync([]), PackageSync(NoGoods())]);
      p.status != Closed && p.head.shipStatus == WaitShip
  {
    UnseenWaybillIsOverruled();
    StepWithoutGoods(WITH_WAYBILL, OrderSync(StillWaiting(false), 2, 2), NoGoods());
  }
}
