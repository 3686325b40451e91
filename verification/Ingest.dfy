/** Writing a synced platform order onto an existing one: its status, its ship
    status, its allocation, its rows and its waybills. What the platform's own
    status texts mean is decided before, and arrives as a hint. */
module Ingest {
  import opened OrderModel
  import opened Ledger
  import RowSync
  import Shipping
  import FulfilmentStore

  datatype Hint = Hint(
    status: OrderStatus,
    shipStatus: ShipStatus,
    allocType: AllocType,
    mode: DropshipMode,
    agentType: nat,
    applyAlloc: bool,
    clearAlloc: bool)

  datatype Incoming = Incoming(
    channel: Channel, // where the payload comes from
    hint: Hint,
    items: seq<Item>,
    waybills: seq<Shipping.Waybill>,
    otherPackage: bool, // another package of an order already here
    viewHasShipments: bool, // whether the order was loaded together with its shipments
    platformDecided: bool, // the platform already waits to ship, has shipped or is done
    factoryId: string,
    factoryName: string,
    boundTo: (string, string) -> Option<(nat, string)>, // the supplier bound to a factory's id and name
    poSupplier: Option<(nat, string)>, // the supplier of the header's dropship purchase order
    shippedAt: Option<nat>,
    now: nat)

  // ---- local shipping against a platform that still waits ----

  predicate HasExpress(o: Order) {
    exists i :: 0 <= i < |o.shipments| && o.shipments[i].expressNo != ""
  }

  /** The platform says nothing or "waiting", but goods have left here. */
  predicate PreserveLocalShip(o: Order, incoming: ShipStatus) {
    (incoming == NoShip || incoming == WaitShip) && (ShipMoved(o.head.shipStatus) || HasExpress(o))
  }

  /** The ship status the local waybills support; with a waybill never less than partial. */
  function RestoredShip(o: Order): Option<ShipStatus> {
    if !HasExpress(o) then None
    else
      var got := ShipStatusAfter(o, []);
      if got != WaitShip then Some(got)
      else if ShipMoved(o.head.shipStatus) then Some(o.head.shipStatus)
      else Some(PartialShipped)
  }

  lemma RestoredMoved(o: Order)
    ensures RestoredShip(o).Some? ==> ShipMoved(RestoredShip(o).value)
    ensures RestoredShip(o).Some? <==> HasExpress(o)
  {
  }

  // ---- open or closed ----

  predicate HasFulfillable(items: seq<Item>) {
    exists i :: 0 <= i < |items| && FulfillableRoot(items[i])
  }

  predicate HasRoots(items: seq<Item>) {
    exists i :: 0 <= i < |items| && IsRoot(items[i])
  }

  predicate IncomingFulfillable(lines: seq<Item>) {
    exists i :: 0 <= i < |lines| && !Excluded(lines[i])
  }

  predicate KeptOpen(o: Order, inc: Incoming) {
    inc.hint.status == Closed && (HasFulfillable(o.items) || IncomingFulfillable(inc.items))
  }

  /** A closing hint is not taken at its word while something can still be fulfilled. */
  function EffectiveHint(o: Order, inc: Incoming): Hint {
    if !KeptOpen(o, inc) then inc.hint
    else if o.status == Closed then
      inc.hint.(status := PendingAlloc, shipStatus := WaitShip, clearAlloc := true, applyAlloc := false)
    else inc.hint.(status := o.status, shipStatus := CoalesceShip(o.head.shipStatus))
  }

  predicate Terminal(o: Order, inc: Incoming) {
    (o.status == Completed || o.status == Closed) && !KeptOpen(o, inc)
  }

  /** Another package must not overwrite the header of an allocated order. */
  predicate SkipsHeader(o: Order, inc: Incoming) {
    inc.otherPackage && (o.head.allocType != Unallocated || HasAllocatedRoot(o.items))
  }

  /** The supplier of an offline dropship, which a self-print sync must not wash away. */
  function OsmsSupplierOf(o: Order, h: Hint, inc: Incoming): Option<(nat, string)> {
    if h.allocType != SelfShip && h.allocType != ChannelShip then None
    else if o.head.allocType == Dropship && o.head.mode == OsmsSupplier && o.head.supplierId > 0 then
      Some((o.head.supplierId, o.head.supplierName))
    else if o.head.poNo != "" then inc.poSupplier
    else None
  }

  predicate SkipsSelfAuto(o: Order, h: Hint, inc: Incoming) {
    && h.agentType == AGENT_SELF && o.skipAutoAlloc && !inc.platformDecided
    && h.shipStatus != Shipped && h.status != Completed
  }

  /** The header status after the header write. */
  function HeaderStatus(o: Order, inc: Incoming): OrderStatus {
    var h := EffectiveHint(o, inc);
    if Terminal(o, inc) then o.status
    else if h.status == Closed then Closed
    else if h.applyAlloc && !SkipsHeader(o, inc) then
      if SkipsSelfAuto(o, h, inc) && OsmsSupplierOf(o, h, inc).None? then o.status else h.status
    else if h.clearAlloc then
      if inc.otherPackage || HasAllocatedRoot(o.items) then o.status else h.status
    else if o.head.allocType == Unallocated then h.status
    else o.status
  }

  /** The order as the header write sees it. */
  function View(o: Order, inc: Incoming): Order {
    if inc.viewHasShipments || o.items == [] then o else o.(shipments := [])
  }

  /** The header ship status after the header write. */
  function HeaderShip(o: Order, inc: Incoming): ShipStatus {
    var h := EffectiveHint(o, inc);
    if !Terminal(o, inc) && h.status == Closed then
      if o.head.shipStatus == Shipped then Shipped else NoShip
    else if !WritesShip(o, inc) then o.head.shipStatus
    else if PreserveLocalShip(View(o, inc), h.shipStatus) then
      if RestoredShip(View(o, inc)).Some? then RestoredShip(View(o, inc)).value else o.head.shipStatus
    else h.shipStatus
  }

  /** The platform's type, mode and supplier on an allocation; our own stock keeps its path. */
  function HintAlloc(f: Fulfilment, h: Hint, inc: Incoming): Fulfilment {
    var own := h.allocType == ChannelShip && (f.allocType == SelfShip || f.allocType == PurchaseThenShip);
    var base := f.(allocType := if own then f.allocType else h.allocType, mode := if own then f.mode else h.mode);
    if base.allocType == SelfShip || base.allocType == ChannelShip then base.(supplierId := 0, supplierName := "")
    else if base.allocType == Dropship && base.mode == KdzsFactory then
      Supplied(base, inc.boundTo(inc.factoryId, inc.factoryName))
    else base
  }

  /** The header allocation where the platform's own applies. */
  function AppliedAlloc(o: Order, h: Hint, inc: Incoming): Fulfilment {
    var mirrored := o.head.(factoryId := inc.factoryId, factoryName := inc.factoryName);
    var osms := OsmsSupplierOf(o, h, inc);
    var at := if o.head.allocatedAt.None? then Some(inc.now) else o.head.allocatedAt;
    if osms.Some? then
      mirrored.(allocType := Dropship, mode := OsmsSupplier, supplierId := osms.value.0, supplierName := osms.value.1,
                allocatedAt := at)
    else if SkipsSelfAuto(o, h, inc) then mirrored
    else HintAlloc(mirrored, h, inc).(allocatedAt := at)
  }

  /** The header allocation after the header write; the ship status is set separately. */
  function HeaderAlloc(o: Order, inc: Incoming): Fulfilment {
    var h := EffectiveHint(o, inc);
    var mirrored := o.head.(factoryId := inc.factoryId, factoryName := inc.factoryName);
    if Terminal(o, inc) || h.status == Closed then o.head
    else if h.applyAlloc && !SkipsHeader(o, inc) then AppliedAlloc(o, h, inc)
    else if h.clearAlloc then
      if inc.otherPackage || HasAllocatedRoot(o.items) then mirrored
      else NO_FULFILMENT.(shipStatus := o.head.shipStatus)
    else if o.head.allocType == Dropship && o.head.mode == KdzsFactory && o.head.supplierId == 0 then
      Supplied(mirrored, HeldSupplier(o, inc))
    else mirrored
  }

  /** The supplier bound to the payload's factory, or to the header's where the payload names none. */
  function HeldSupplier(o: Order, inc: Incoming): Option<(nat, string)> {
    inc.boundTo(FirstNonEmpty(inc.factoryId, o.head.factoryId), FirstNonEmpty(inc.factoryName, o.head.factoryName))
  }

  function Supplied(f: Fulfilment, supplier: Option<(nat, string)>): Fulfilment {
    if supplier.Some? && supplier.value.0 > 0 then
      f.(supplierId := supplier.value.0, supplierName := supplier.value.1)
    else f
  }

  /** The header ship status is the sync's to write. */
  predicate WritesShip(o: Order, inc: Incoming) {
    var h := EffectiveHint(o, inc);
    h.shipStatus != NoShip && o.status != Closed && h.status != Closed && !SkipsHeader(o, inc)
  }

  function HeaderShippedAt(o: Order, inc: Incoming): Option<nat> {
    var h := EffectiveHint(o, inc);
    var kept := if o.shippedAt.None? then Some(inc.now) else o.shippedAt;
    if !WritesShip(o, inc) then o.shippedAt
    else if PreserveLocalShip(View(o, inc), h.shipStatus) then
      if RestoredShip(View(o, inc)) == Some(Shipped) then kept else o.shippedAt
    else if h.shipStatus != Shipped then o.shippedAt
    else if inc.shippedAt.Some? then inc.shippedAt
    else kept
  }

  /** An allocation from the platform, or a withdrawal, lets automatic allocation back in. */
  function HeaderSkipsAuto(o: Order, inc: Incoming): bool {
    var h := EffectiveHint(o, inc);
    if Terminal(o, inc) || h.status == Closed then o.skipAutoAlloc
    else if h.applyAlloc && !SkipsHeader(o, inc) then
      o.skipAutoAlloc && SkipsSelfAuto(o, h, inc) && OsmsSupplierOf(o, h, inc).None?
    else if h.clearAlloc then o.skipAutoAlloc && (inc.otherPackage || HasAllocatedRoot(o.items))
    else o.skipAutoAlloc
  }

  function WithHeader(o: Order, inc: Incoming): Order {
    o.(status := HeaderStatus(o, inc),
       head := HeaderAlloc(o, inc).(shipStatus := HeaderShip(o, inc)),
       agentType := EffectiveHint(o, inc).agentType,
       skipAutoAlloc := HeaderSkipsAuto(o, inc),
       shippedAt := HeaderShippedAt(o, inc))
  }

  /** The order after the header, its rows and its waybills have been written. */
  function Merged(o: Order, inc: Incoming, nextItemId: nat, nextShipmentId: nat): Order {
    WithHeader(o, inc).(
      items := RowSync.SyncRows(o.items, inc.items, inc.channel == Kdzs, nextItemId),
      shipments := Shipping.RecordWaybills(o.shipments, inc.waybills, nextShipmentId).0)
  }

  /** Reopen what still has something to fulfil; close what has rows but nothing left to fulfil. */
  function Backstop(o: Order): Order {
    if o.status == Closed && HasFulfillable(o.items) then
      WithShipStatus(o, WaitShip).(status := PendingAlloc, skipAutoAlloc := false)
    else if o.status != Closed && o.status != Completed && !HasFulfillable(o.items) && HasRoots(o.items) then
      WithShipStatus(o, if o.head.shipStatus == Shipped then Shipped else NoShip).(status := Closed)
    else o
  }

  function IngestOrder(o: Order, inc: Incoming, nextItemId: nat, nextShipmentId: nat): Order {
    var merged := Merged(o, inc, nextItemId, nextShipmentId);
    if inc.channel == Kdzs then Backstop(merged) else merged
  }

  // ---- closed exactly when nothing is left ----

  /** An order with roots that is not completed is closed exactly when no root can be fulfilled. */
  predicate ClosedFits(o: Order) {
    HasRoots(o.items) && o.status != Completed ==> (o.status == Closed <==> !HasFulfillable(o.items))
  }

  lemma BackstopFits(o: Order)
    ensures ClosedFits(Backstop(o)) && Backstop(o).items == o.items && Backstop(o).shipments == o.shipments
    ensures Backstop(o).status != Closed && o.status != Closed ==> Backstop(o) == o
    ensures Backstop(o).head == o.head.(shipStatus := Backstop(o).head.shipStatus)
  {
  }

  /** What a row of the result can be fulfilled for, a stored root or a line could be before. */
  lemma FulfillableBefore(rows: seq<Item>, lines: seq<Item>, keep: bool, nextId: nat)
    requires RowSync.FreshKey(rows, nextId)
    ensures HasFulfillable(RowSync.SyncRows(rows, lines, keep, nextId)) ==>
      HasFulfillable(rows) || IncomingFulfillable(lines)
  {
    var after := RowSync.SyncRows(rows, lines, keep, nextId);
    if HasFulfillable(after) {
      var i :| 0 <= i < |after| && FulfillableRoot(after[i]);
      RowFulfillableBefore(rows, lines, keep, nextId, after[i]);
    }
  }

  lemma RowFulfillableBefore(rows: seq<Item>, lines: seq<Item>, keep: bool, nextId: nat, x: Item)
    requires RowSync.FreshKey(rows, nextId) && x in RowSync.SyncRows(rows, lines, keep, nextId) && FulfillableRoot(x)
    ensures HasFulfillable(rows) || IncomingFulfillable(lines)
  {
    var choices := RowSync.Choices(rows, lines, keep);
    if x in RowSync.Survivors(rows, rows, lines, choices, keep) {
      RowSync.SurvivorsAre(rows, rows, lines, choices, keep);
      var row :| row in rows && !RowSync.Doomed(row, rows, choices, keep) && x == RowSync.Touched(row, lines, choices);
      var i :| 0 <= i < |rows| && rows[i] == row;
      var at := RowSync.LineOf(choices, row.id);
      if IsRoot(row) && at.Some? {
        assert !Excluded(lines[at.value]);
      } else {
        assert FulfillableRoot(rows[i]);
      }
    } else {
      RowSync.CreatedAre(lines, choices, keep, nextId, RowSync.MaxRootLine(rows));
      var j :| 0 <= j < |lines| && choices[j].None?
               && x == RowSync.NewRow(lines, choices, keep, nextId, RowSync.MaxRootLine(rows), j);
      assert !Excluded(lines[j]);
    }
  }

  // ---- shipped stays shipped ----

  lemma HeaderShipStays(o: Order, inc: Incoming)
    requires o.status != Closed && ShipMoved(o.head.shipStatus) && HeaderStatus(o, inc) != Closed
    ensures ShipMoved(HeaderShip(o, inc))
  {
    RestoredMoved(View(o, inc));
  }

  /** A closing header write on an open order means nothing was fulfillable, so nothing reopens it. */
  lemma ClosedStaysClosed(o: Order, inc: Incoming, nextItemId: nat)
    requires RowSync.FreshKey(o.items, nextItemId)
    requires o.status != Closed && HeaderStatus(o, inc) == Closed
    ensures !HasFulfillable(RowSync.SyncRows(o.items, inc.items, inc.channel == Kdzs, nextItemId))
  {
    FulfillableBefore(o.items, inc.items, inc.channel == Kdzs, nextItemId);
  }

  /** A sync that leaves the order open never takes a shipped or partly shipped header back to waiting. */
  lemma IngestKeepsShip(o: Order, inc: Incoming, nextItemId: nat, nextShipmentId: nat)
    requires RowSync.FreshKey(o.items, nextItemId)
    requires o.status != Closed && ShipMoved(o.head.shipStatus)
    ensures var p := IngestOrder(o, inc, nextItemId, nextShipmentId);
      p.status != Closed ==> ShipMoved(p.head.shipStatus)
  {
    if HeaderStatus(o, inc) == Closed {
      ClosedStaysClosed(o, inc, nextItemId);
    } else {
      HeaderShipStays(o, inc);
    }
  }

  /** What the order write leaves on an open order that the platform reports waiting: still waiting exactly
      when nothing had left and no waybill was in view, and at least partly shipped otherwise. A waybill that
      was not loaded with the order does not count here. */
  lemma WaitingSync(o: Order, inc: Incoming, nextItemId: nat, nextShipmentId: nat)
    requires RowSync.FreshKey(o.items, nextItemId)
    requires o.status != Closed && EffectiveHint(o, inc).shipStatus == WaitShip && !SkipsHeader(o, inc)
    requires EffectiveHint(o, inc).status != Closed // only a completed order ignores a closing hint
    ensures var p := IngestOrder(o, inc, nextItemId, nextShipmentId);
      p.status != Closed ==>
        if ShipMoved(o.head.shipStatus) || HasExpress(View(o, inc)) then ShipMoved(p.head.shipStatus)
        else p.head.shipStatus == WaitShip
  {
    RestoredMoved(View(o, inc));
    BackstopFits(Merged(o, inc, nextItemId, nextShipmentId));
    assert HeaderStatus(o, inc) != Closed;
  }

  const LIVE_ROW :=
    Item(1, 1, 0, "", Goods("A", "", "", "", ""), 1, 0, 0, false, 0, NoSplit, 0, 0, NO_FULFILMENT)
  const WITH_WAYBILL :=
    Order(1, Kdzs, "T", "S", 0, WaitSend, false, false, false, PendingAlloc, AGENT_SELF,
          NO_FULFILMENT.(shipStatus := WaitShip), None, 0, 0, [LIVE_ROW], [Shipment(1, "", "W", [])])

  /** A payload of a package with no rows that reports the order waiting. */
  function StillWaiting(loaded: bool): Incoming {
    Incoming(Kdzs, Hint(Allocated, WaitShip, Unallocated, NoMode, AGENT_SELF, false, false), [], [], false, loaded,
             false, "", "", (id, name) => None, None, None, 0)
  }

  lemma NoLinesNoChange(row: Item, nextId: nat)
    ensures RowSync.SyncRows([row], [], true, nextId) == [row]
  {
    assert RowSync.Choices([row], [], true) == [] && [row][..0] == [];
    assert RowSync.Survivors([row][..0], [row], [], [], true) == [];
  }

  /** One waybill and the same order write twice: it counts if it was loaded, and is overruled if it was not. */
  lemma UnseenWaybillIsOverruled()
    ensures HasExpress(WITH_WAYBILL)
    ensures ShipMoved(IngestOrder(WITH_WAYBILL, StillWaiting(true), 2, 2).head.shipStatus)
    ensures var p := IngestOrder(WITH_WAYBILL, StillWaiting(false), 2, 2);
      p.status != Closed && p.head.shipStatus == WaitShip
  {
    var o := WITH_WAYBILL;
    assert o.shipments[0].expressNo != "";
    NoLinesNoChange(LIVE_ROW, 2);
    assert FulfillableRoot(o.items[0]);
    WaitingSync(o, StillWaiting(true), 2, 2);
    WaitingSync(o, StillWaiting(false), 2, 2);
  }

  // ---- what an allocation survives ----

  predicate NewSupplier(f: Fulfilment, supplier: Option<(nat, string)>) {
    supplier.Some? && supplier.value.0 > 0 && (f.supplierId, f.supplierName) != supplier.value
  }

  predicate SupplierSet(f: Fulfilment) {
    f.supplierId != 0 || f.supplierName != ""
  }

  predicate OwnStock(f: Fulfilment) {
    f.allocType == SelfShip || f.allocType == PurchaseThenShip
  }

  /** The platform's allocation replaces the header's: an offline dropship is restored that the header is
      not, a withheld order is left alone, our own stock only loses a supplier, and otherwise the
      platform's type, mode or supplier is another one. */
  predicate HintReplaces(o: Order, h: Hint, inc: Incoming) {
    var f, offline := o.head, OsmsSupplierOf(o, h, inc);
    if offline.Some? then
      f.allocType != Dropship || f.mode != OsmsSupplier || (f.supplierId, f.supplierName) != offline.value
    else if SkipsSelfAuto(o, h, inc) then false
    else if h.allocType == ChannelShip && OwnStock(f) then f.allocType == SelfShip && SupplierSet(f)
    else
      || f.allocType != h.allocType || f.mode != h.mode
      || ((h.allocType == SelfShip || h.allocType == ChannelShip) && SupplierSet(f))
      || (h.allocType == Dropship && h.mode == KdzsFactory
          && NewSupplier(f, inc.boundTo(inc.factoryId, inc.factoryName)))
  }

  /** What overwrites a header's allocation: the platform's own, a withdrawal of an order none of whose rows
      is allocated, or a supplier found for a factory dropship that had none. */
  predicate Overwrites(o: Order, inc: Incoming) {
    var h := EffectiveHint(o, inc);
    && !Terminal(o, inc) && h.status != Closed
    && if h.applyAlloc && !SkipsHeader(o, inc) then HintReplaces(o, h, inc)
       else if h.clearAlloc then
         !inc.otherPackage && !HasAllocatedRoot(o.items) && !SameAllocation(o.head, NO_FULFILMENT)
       else
         && o.head.allocType == Dropship && o.head.mode == KdzsFactory && o.head.supplierId == 0
         && NewSupplier(o.head, HeldSupplier(o, inc))
  }

  lemma AppliedAllocIs(o: Order, h: Hint, inc: Incoming)
    ensures SameAllocation(AppliedAlloc(o, h, inc), o.head) <==> !HintReplaces(o, h, inc)
  {
  }

  lemma HeaderAllocIs(o: Order, inc: Incoming)
    ensures SameAllocation(HeaderAlloc(o, inc), o.head) <==> !Overwrites(o, inc)
  {
    AppliedAllocIs(o, EffectiveHint(o, inc), inc);
  }

  /** A header's allocation survives an order sync exactly when nothing overwrites it. */
  lemma AllocationSurvives(o: Order, inc: Incoming, nextItemId: nat, nextShipmentId: nat)
    ensures SameAllocation(IngestOrder(o, inc, nextItemId, nextShipmentId).head, o.head) <==> !Overwrites(o, inc)
  {
    HeaderAllocIs(o, inc);
    BackstopFits(Merged(o, inc, nextItemId, nextShipmentId));
  }

  // ---- the writes, in order ----

  method RestoreShipStatus(o: Order) returns (r: Option<ShipStatus>)
    requires DistinctIds(o.items)
    ensures r == RestoredShip(o)
    ensures r.Some? <==> HasExpress(o)
    ensures r.Some? ==> ShipMoved(r.value)
    ensures r == Some(Shipped) <==>
      HasExpress(o) && (ShipStatusAfter(o, []) == Shipped
                        || (ShipStatusAfter(o, []) == WaitShip && o.head.shipStatus == Shipped))
  {
    if !HasExpress(o) {
      return None;
    }
    var got := ComputeShipStatusAfter(o, []);
    if got == WaitShip {
      if o.head.shipStatus == Shipped || o.head.shipStatus == PartialShipped {
        return Some(o.head.shipStatus);
      }
      return Some(PartialShipped);
    }
    return Some(got);
  }

  /** The order being ingested into. */
  class IngestedOrder {
    var order: Order
    var nextItemId: nat
    var nextShipmentId: nat

    /** Rows in key order, and keys above them free. */
    ghost predicate Valid()
      reads this
    {
      RowSync.SortedIds(order.items) && RowSync.FreshKey(order.items, nextItemId)
    }

    constructor (o: Order, nextItemId: nat, nextShipmentId: nat)
      requires RowSync.SortedIds(o.items) && RowSync.FreshKey(o.items, nextItemId)
      ensures Valid() && order == o && this.nextItemId == nextItemId && this.nextShipmentId == nextShipmentId
    {
      order, this.nextItemId, this.nextShipmentId := o, nextItemId, nextShipmentId;
    }

    /** One sync: the header, the rows, the waybills, then the backstop. */
    method Ingest(inc: Incoming)
      requires Valid()
      modifies this
      ensures Valid()
      ensures order == IngestOrder(old(order), inc, old(nextItemId), old(nextShipmentId))
      ensures inc.channel == Kdzs ==> ClosedFits(order)
      ensures old(order).status != Closed && order.status != Closed && ShipMoved(old(order).head.shipStatus) ==>
        ShipMoved(order.head.shipStatus)
      ensures SameAllocation(order.head, old(order).head) <==> !Overwrites(old(order), inc)
    {
      ghost var o, itemKey, shipmentKey := order, nextItemId, nextShipmentId;
      if o.status != Closed && ShipMoved(o.head.shipStatus) { IngestKeepsShip(o, inc, itemKey, shipmentKey); }
      AllocationSurvives(o, inc, itemKey, shipmentKey);
      WriteHeader(inc);
      var table := new RowSync.ItemTable(order.items, nextItemId);
      table.ReplaceItems(inc.items, inc.channel == Kdzs);
      order, nextItemId := order.(items := table.rows), table.nextId;
      var shipments, freeKey := FulfilmentStore.OrderStore.RecordAll(order.shipments, inc.waybills, nextShipmentId);
      order, nextShipmentId := order.(shipments := shipments), freeKey;
      assert order == Merged(o, inc, itemKey, shipmentKey);
      if inc.channel == Kdzs {
        BackstopFits(order);
        ReopenOrClose();
      }
    }

    /** Reopen what still has something to fulfil; close what has rows but nothing left to fulfil. */
    method ReopenOrClose()
      modifies this`order
      ensures order == Backstop(old(order))
    {
      if order.status == Closed && HasFulfillable(order.items) {
        order := order.(status := PendingAlloc, skipAutoAlloc := false, head := order.head.(shipStatus := WaitShip));
      } else if order.status != Closed && order.status != Completed && !HasFulfillable(order.items)
        && HasRoots(order.items) {
        if order.head.shipStatus != Shipped {
          order := order.(head := order.head.(shipStatus := NoShip));
        }
        order := order.(status := Closed);
      }
    }

    /** The header columns: what the hint comes to, then allocation and status, then the ship status. */
    method WriteHeader(inc: Incoming)
      requires Valid()
      modifies this`order
      ensures order == WithHeader(old(order), inc)
    {
      var o := order;
      var h, terminal := KeepOpen(o, inc);
      var skip := SkipsHeader(o, inc);
      order := o.(agentType := h.agentType);
      if !terminal {
        WriteAllocation(o, h, inc);
      }
      if h.shipStatus != NoShip && o.status != Closed && h.status != Closed && !skip {
        WriteShip(o, View(o, inc), h, inc);
      }
    }

    /** A closing hint is overruled while the order or the payload has something to fulfil. */
    static method KeepOpen(o: Order, inc: Incoming) returns (h: Hint, terminal: bool)
      ensures h == EffectiveHint(o, inc) && terminal == Terminal(o, inc)
      ensures h.status == Closed <==>
        inc.hint.status == Closed && !HasFulfillable(o.items) && !IncomingFulfillable(inc.items)
      ensures inc.hint.status == Closed && h.status != Closed ==> !terminal
    {
      h, terminal := inc.hint, o.status == Completed || o.status == Closed;
      if h.status == Closed && (HasFulfillable(o.items) || IncomingFulfillable(inc.items)) {
        if o.status == Closed {
          h := h.(status := PendingAlloc, shipStatus := WaitShip, clearAlloc := true, applyAlloc := false);
        } else {
          h := h.(status := o.status, shipStatus := CoalesceShip(o.head.shipStatus));
        }
        terminal := false;
      }
    }

    /** Allocation, status and whether automatic allocation stays off, for an order that is not finished. */
    method WriteAllocation(o: Order, h: Hint, inc: Incoming)
      requires order == o.(agentType := h.agentType) && h == EffectiveHint(o, inc) && !Terminal(o, inc)
      modifies this`order
      ensures order == o.(
        agentType := h.agentType,
        status := HeaderStatus(o, inc),
        head := HeaderAlloc(o, inc).(
          shipStatus := if h.status != Closed || o.head.shipStatus == Shipped then o.head.shipStatus else NoShip),
        skipAutoAlloc := HeaderSkipsAuto(o, inc))
    {
      var mirrored := o.head.(factoryId := inc.factoryId, factoryName := inc.factoryName);
      if h.status == Closed {
        order := order.(status := Closed);
        if o.head.shipStatus != Shipped {
          order := order.(head := o.head.(shipStatus := NoShip));
        }
      } else if h.applyAlloc && !SkipsHeader(o, inc) {
        ApplyHint(o, h, inc);
      } else if h.clearAlloc {
        if inc.otherPackage || HasAllocatedRoot(o.items) {
          order := order.(head := mirrored);
        } else {
          order := order.(head := NO_FULFILMENT.(shipStatus := o.head.shipStatus), skipAutoAlloc := false,
                          status := h.status);
        }
      } else if o.head.allocType == Unallocated {
        order := order.(head := mirrored, status := h.status);
      } else {
        if o.head.allocType == Dropship && o.head.mode == KdzsFactory && o.head.supplierId == 0 {
          mirrored := Supplied(mirrored, HeldSupplier(o, inc));
        }
        order := order.(head := mirrored);
      }
    }

    /** Take the platform's allocation over, unless an offline dropship or a withheld order stands against it. */
    method ApplyHint(o: Order, h: Hint, inc: Incoming)
      requires order == o.(agentType := h.agentType)
      modifies this`order
      ensures var osms, skips := OsmsSupplierOf(o, h, inc), SkipsSelfAuto(o, h, inc);
        order == o.(agentType := h.agentType,
                    head := AppliedAlloc(o, h, inc),
                    status := if skips && osms.None? then o.status else h.status,
                    skipAutoAlloc := o.skipAutoAlloc && skips && osms.None?)
      ensures SameAllocation(order.head, o.head) <==> !HintReplaces(o, h, inc)
    {
      AppliedAllocIs(o, h, inc);
      var f := o.head.(factoryId := inc.factoryId, factoryName := inc.factoryName);
      var osms := OfflineSupplier(o, h, inc);
      var writes := false;
      if !SkipsSelfAuto(o, h, inc) && osms.None? {
        f := TakeHint(f, h, inc);
        writes := true;
      } else if osms.Some? {
        f := f.(allocType := Dropship, mode := OsmsSupplier, supplierId := osms.value.0, supplierName := osms.value.1);
        writes := true;
      }
      if writes {
        if f.allocatedAt.None? {
          f := f.(allocatedAt := Some(inc.now));
        }
        order := order.(status := h.status, skipAutoAlloc := false);
      }
      order := order.(head := f);
    }

    /** An offline dropship, by the header or by its purchase order, that a self-print hint would wash away. */
    static method OfflineSupplier(o: Order, h: Hint, inc: Incoming) returns (osms: Option<(nat, string)>)
      ensures osms == OsmsSupplierOf(o, h, inc)
    {
      osms := None;
      if h.allocType == SelfShip || h.allocType == ChannelShip {
        if o.head.allocType == Dropship && o.head.mode == OsmsSupplier && o.head.supplierId > 0 {
          osms := Some((o.head.supplierId, o.head.supplierName));
        } else if o.head.poNo != "" {
          osms := inc.poSupplier;
        }
      }
    }

    /** The platform's type and mode, where a channel hint does not meet our own stock, and their supplier. */
    static method TakeHint(given: Fulfilment, h: Hint, inc: Incoming) returns (f: Fulfilment)
      ensures f == HintAlloc(given, h, inc)
    {
      f := given;
      var allocType, mode := h.allocType, h.mode;
      if allocType == ChannelShip && (f.allocType == SelfShip || f.allocType == PurchaseThenShip) {
        allocType, mode := f.allocType, f.mode;
      }
      f := f.(allocType := allocType, mode := mode);
      if allocType == SelfShip || allocType == ChannelShip {
        f := f.(supplierId := 0, supplierName := "");
      } else if allocType == Dropship && mode == KdzsFactory {
        f := Supplied(f, inc.boundTo(inc.factoryId, inc.factoryName));
      }
    }

    /** The ship status goes its own way: goods that have left are not waiting. */
    method WriteShip(o: Order, view: Order, h: Hint, inc: Incoming)
      requires DistinctIds(view.items) && order.shippedAt == o.shippedAt && order.head.shipStatus == o.head.shipStatus
      requires view == View(o, inc) && h == EffectiveHint(o, inc) && WritesShip(o, inc)
      modifies this`order
      ensures order
           == old(order).(head := old(order).head.(shipStatus := HeaderShip(o, inc)),
                          shippedAt := HeaderShippedAt(o, inc))
      ensures ShipMoved(o.head.shipStatus) || HasExpress(view) ==> ShipMoved(order.head.shipStatus)
      ensures order.head.shipStatus == Shipped && o.head.shipStatus != Shipped ==> order.shippedAt.Some?
    {
      RestoredMoved(view);
      if PreserveLocalShip(view, h.shipStatus) {
        var restored := RestoreShipStatus(view);
        if restored.Some? {
          order := order.(head := order.head.(shipStatus := restored.value));
          if restored.value == Shipped && order.shippedAt.None? {
            order := order.(shippedAt := Some(inc.now));
          }
        }
      } else {
        order := order.(head := order.head.(shipStatus := h.shipStatus));
        if h.shipStatus == Shipped {
          if inc.shippedAt.Some? {
            order := order.(shippedAt := inc.shippedAt);
          } else if order.shippedAt.None? {
            order := order.(shippedAt := Some(inc.now));
          }
        }
      }
    }
  }
}
