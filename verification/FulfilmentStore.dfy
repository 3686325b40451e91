/** The order table and the operations that ship, unship, split and record
    synced waybills, over any run. */
module FulfilmentStore {
  import opened OrderModel
  import opened Ledger
  import opened Shipping
  import opened Quantities
  import SplitSync
  import SplitSyncLoops

  /** Orders with their child rows, and the next free primary keys. */
  datatype Db = Db(orders: map<nat, Order>, nextItemId: nat, nextShipmentId: nat)

  datatype Op =
    | ShipOp(orderId: nat, req: ShipRequest, now: nat)
    | UnshipOp(orderId: nat, expressNo: string)
    | LogisticsOp(orderId: nat, waybills: seq<Waybill>)
    | SplitOp(orderId: nat, plan: SplitSync.SplitRequest)

  function Save(db: Db, o: Order, id: nat): Db {
    db.(orders := db.orders[id := o])
  }

  function Step(db: Db, op: Op): Db {
    if op.orderId !in db.orders then db
    else
      var o := db.orders[op.orderId];
      match op
      case ShipOp(id, req, now) =>
        var r := ShipOrder(o, req, db.nextShipmentId, now);
        if r.Err? then db
        else Save(db, r.value, id).(nextShipmentId :=
               db.nextShipmentId + if |r.value.shipments| > |o.shipments| then 1 else 0)
      case UnshipOp(id, expressNo) =>
        var r := UnshipOrder(o, expressNo);
        if r.Err? then db else Save(db, r.value, id)
      case LogisticsOp(id, waybills) =>
        var r := RecordWaybills(o.shipments, waybills, db.nextShipmentId);
        Save(db, o.(shipments := r.0), id).(nextShipmentId := r.1)
      case SplitOp(id, plan) =>
        var r := SplitSync.SyncSplit(o, plan, db.nextItemId);
        if r.Err? then db
        else Save(db, r.value, id).(nextItemId := db.nextItemId + |SplitSync.NewPlans(o.items, plan.lines)|)
  }

  function Run(db: Db, ops: seq<Op>): Db {
    if ops == [] then db else Step(Run(db, ops[..|ops| - 1]), ops[|ops| - 1])
  }

  /** Primary keys in use are below the next free ones; shipments are listed in key order. */
  ghost predicate KeysOk(o: Order, nextItemId: nat, nextShipmentId: nat) {
    && SplitSync.FreshId(o, nextItemId)
    && (forall i :: 0 <= i < |o.shipments| ==> o.shipments[i].id < nextShipmentId)
    && (forall i, j :: 0 <= i < j < |o.shipments| ==> o.shipments[i].id < o.shipments[j].id)
  }

  ghost predicate DbOk(db: Db) {
    forall id :: id in db.orders ==> LedgerOk(db.orders[id]) && KeysOk(db.orders[id], db.nextItemId, db.nextShipmentId)
  }

  ghost predicate AllAgree(db: Db) {
    forall id :: id in db.orders ==> StatusAgrees(db.orders[id])
  }

  // ---- every step keeps the ledger ----

  lemma ShipKeepsKeys(o: Order, req: ShipRequest, nextItemId: nat, newId: nat, now: nat)
    requires KeysOk(o, nextItemId, newId) && ShipOrder(o, req, newId, now).Ok?
    ensures var p := ShipOrder(o, req, newId, now).value;
      KeysOk(p, nextItemId, newId + if |p.shipments| > |o.shipments| then 1 else 0)
  {
    var p := ShipOrder(o, req, newId, now).value;
    if p != o {
      ShipShape(o, req, newId, now);
      assert forall i :: 0 <= i < |o.shipments| ==> p.shipments[i].id == o.shipments[i].id;
      assert |p.shipments| > |o.shipments| ==> p.shipments[|o.shipments|].id == newId;
    }
  }

  lemma UnshipKeepsKeys(o: Order, expressNo: string, nextItemId: nat, nextShipmentId: nat)
    requires KeysOk(o, nextItemId, nextShipmentId) && UnshipOrder(o, expressNo).Ok?
    ensures KeysOk(UnshipOrder(o, expressNo).value, nextItemId, nextShipmentId)
  {
    var p := UnshipOrder(o, expressNo).value;
    UnshipShape(o, expressNo);
    if p.shipments != o.shipments {
      KeysWithout(o, FindWaybill(o.shipments, expressNo).value, nextItemId, nextShipmentId);
    }
  }

  lemma KeysWithout(o: Order, k: nat, nextItemId: nat, nextShipmentId: nat)
    requires KeysOk(o, nextItemId, nextShipmentId) && k < |o.shipments|
    ensures KeysOk(o.(shipments := Without(o.shipments, k)), nextItemId, nextShipmentId)
  {
  }

  lemma {:induction false} WaybillsKeep(o: Order, ws: seq<Waybill>, nextItemId: nat, nextId: nat)
    requires LedgerOk(o) && KeysOk(o, nextItemId, nextId)
    ensures var r := RecordWaybills(o.shipments, ws, nextId); var p := o.(shipments := r.0);
      nextId <= r.1 && LedgerOk(p) && KeysOk(p, nextItemId, r.1)
  {
    if ws != [] {
      var n := |ws| - 1;
      WaybillsKeep(o, ws[..n], nextItemId, nextId);
      var (before, id) := RecordWaybills(o.shipments, ws[..n], nextId);
      var q := o.(shipments := before);
      WaybillKeepsLedger(q, ws[n], id);
      WaybillKeepsRows(before, ws[n], id);
      var after := RecordWaybill(before, ws[n], id);
      assert forall i :: 0 <= i < |before| ==> after[i].id == before[i].id;
      assert |after| > |before| ==> after[|before|].id == id;
      assert q.(shipments := after) == o.(shipments := after);
    }
  }

  lemma {:induction false} WaybillsKeepStatus(o: Order, ws: seq<Waybill>, nextId: nat)
    requires StatusAgrees(o)
    ensures StatusAgrees(o.(shipments := RecordWaybills(o.shipments, ws, nextId).0))
  {
    if ws == [] {
      assert o.(shipments := o.shipments) == o;
    } else {
      var n := |ws| - 1;
      WaybillsKeepStatus(o, ws[..n], nextId);
      var (before, id) := RecordWaybills(o.shipments, ws[..n], nextId);
      WaybillKeepsStatus(o.(shipments := before), ws[n], id);
    }
  }

  lemma SplitKeepsKeys(o: Order, plan: SplitSync.SplitRequest, nextItemId: nat, nextShipmentId: nat)
    requires LedgerOk(o) && KeysOk(o, nextItemId, nextShipmentId) && SplitSync.SyncSplit(o, plan, nextItemId).Ok?
    ensures KeysOk(SplitSync.SyncSplit(o, plan, nextItemId).value,
                   nextItemId + |SplitSync.NewPlans(o.items, plan.lines)|, nextShipmentId)
  {
    SplitSync.FaultlessLines(o, plan);
    SplitSync.AppliedDistinct(o, plan, plan.lines, nextItemId);
  }

  lemma StepKeepsDb(db: Db, op: Op)
    requires DbOk(db)
    ensures DbOk(Step(db, op))
  {
    if op.orderId in db.orders {
      var o := db.orders[op.orderId];
      match op {
        case ShipOp(id, req, now) =>
          ShipStepKeepsDb(db, id, req, now);
        case UnshipOp(id, expressNo) =>
          var r := UnshipOrder(o, expressNo);
          if r.Ok? {
            UnshipKeepsLedger(o, expressNo);
            UnshipKeepsKeys(o, expressNo, db.nextItemId, db.nextShipmentId);
            SavedOk(db, r.value, id, db.nextItemId, db.nextShipmentId);
          }
        case LogisticsOp(id, waybills) =>
          var r := RecordWaybills(o.shipments, waybills, db.nextShipmentId);
          WaybillsKeep(o, waybills, db.nextItemId, db.nextShipmentId);
          SavedOk(db, o.(shipments := r.0), id, db.nextItemId, r.1);
        case SplitOp(id, plan) =>
          SplitStepKeepsDb(db, id, plan);
      }
    }
  }

  lemma ShipStepKeepsDb(db: Db, id: nat, req: ShipRequest, now: nat)
    requires DbOk(db) && id in db.orders
    ensures DbOk(Step(db, ShipOp(id, req, now)))
  {
    var o := db.orders[id];
    var r := ShipOrder(o, req, db.nextShipmentId, now);
    if r.Ok? {
      ShipKeepsLedger(o, req, db.nextShipmentId, now);
      ShipKeepsKeys(o, req, db.nextItemId, db.nextShipmentId, now);
      var added := if |r.value.shipments| > |o.shipments| then 1 else 0;
      SavedOk(db, r.value, id, db.nextItemId, db.nextShipmentId + added);
    }
  }

  lemma SplitStepKeepsDb(db: Db, id: nat, plan: SplitSync.SplitRequest)
    requires DbOk(db) && id in db.orders
    ensures DbOk(Step(db, SplitOp(id, plan)))
  {
    var r := SplitSync.SyncSplit(db.orders[id], plan, db.nextItemId);
    var nextItemId := db.nextItemId + |SplitSync.NewPlans(db.orders[id].items, plan.lines)|;
    SplitKeepsOrder(db.orders[id], plan, db.nextItemId, db.nextShipmentId);
    SplitStepIs(db, id, plan);
    if r.Ok? { SavedOk(db, r.value, id, nextItemId, db.nextShipmentId); }
  }

  lemma SplitStepIs(db: Db, id: nat, plan: SplitSync.SplitRequest)
    requires id in db.orders
    ensures var r := SplitSync.SyncSplit(db.orders[id], plan, db.nextItemId);
      Step(db, SplitOp(id, plan))
      == if r.Err? then db
         else Db(db.orders[id := r.value], db.nextItemId + |SplitSync.NewPlans(db.orders[id].items, plan.lines)|,
                 db.nextShipmentId)
  {
  }

  lemma SplitKeepsOrder(o: Order, plan: SplitSync.SplitRequest, nextItemId: nat, nextShipmentId: nat)
    requires LedgerOk(o) && KeysOk(o, nextItemId, nextShipmentId)
    ensures var r := SplitSync.SyncSplit(o, plan, nextItemId);
      r.Ok? ==>
        LedgerOk(r.value) && KeysOk(r.value, nextItemId + |SplitSync.NewPlans(o.items, plan.lines)|, nextShipmentId)
  {
    if SplitSync.SyncSplit(o, plan, nextItemId).Ok? {
      SplitSync.SplitKeepsLedger(o, plan, nextItemId);
      SplitKeepsKeys(o, plan, nextItemId, nextShipmentId);
    }
  }

  lemma SavedOk(db: Db, o: Order, id: nat, nextItemId: nat, nextShipmentId: nat)
    requires DbOk(db) && LedgerOk(o) && KeysOk(o, nextItemId, nextShipmentId)
    requires nextItemId >= db.nextItemId && nextShipmentId >= db.nextShipmentId
    ensures DbOk(Db(db.orders[id := o], nextItemId, nextShipmentId))
  {
  }

  /** Over every run: no row ships more than its quantity, every shipment row has its
      order row, and no waybill is listed twice. */
  lemma {:induction false} LedgerOverRuns(db: Db, ops: seq<Op>)
    requires DbOk(db)
    ensures DbOk(Run(db, ops))
  {
    if ops != [] {
      LedgerOverRuns(db, ops[..|ops| - 1]);
      StepKeepsDb(Run(db, ops[..|ops| - 1]), ops[|ops| - 1]);
    }
  }

  // ---- the header status over runs ----

  lemma ShipStepKeepsStatus(db: Db, id: nat, req: ShipRequest, now: nat)
    requires DbOk(db) && AllAgree(db) && id in db.orders
    ensures AllAgree(Step(db, ShipOp(id, req, now)))
  {
    var o := db.orders[id];
    var r := ShipOrder(o, req, db.nextShipmentId, now);
    if r.Ok? && r.value != o { ShipEstablishesStatus(o, req, db.nextShipmentId, now); }
  }

  lemma StepKeepsStatus(db: Db, op: Op)
    requires DbOk(db) && AllAgree(db) && !op.SplitOp?
    ensures AllAgree(Step(db, op))
  {
    if op.orderId in db.orders {
      var o := db.orders[op.orderId];
      match op {
        case ShipOp(id, req, now) =>
          ShipStepKeepsStatus(db, id, req, now);
        case UnshipOp(id, expressNo) =>
          if UnshipOrder(o, expressNo).Ok? { UnshipEstablishesStatus(o, expressNo); }
        case LogisticsOp(id, waybills) =>
          WaybillsKeepStatus(o, waybills, db.nextShipmentId);
      }
    }
  }

  /** Over every run of shipping, unshipping and waybill syncs the header status is the one
      the ledger implies, the status-reading fallback included. */
  lemma {:induction false} StatusOverRuns(db: Db, ops: seq<Op>)
    requires DbOk(db) && AllAgree(db)
    requires forall k :: 0 <= k < |ops| ==> !ops[k].SplitOp?
    ensures AllAgree(Run(db, ops))
  {
    if ops != [] {
      var n := |ops| - 1;
      StatusOverRuns(db, ops[..n]);
      LedgerOverRuns(db, ops[..n]);
      StepKeepsStatus(Run(db, ops[..n]), ops[n]);
    }
  }

  // ---- the table ----

  class OrderStore {
    var orders: map<nat, Order>
    var nextItemId: nat
    var nextShipmentId: nat

    ghost function Contents(): Db
      reads this
    {
      Db(orders, nextItemId, nextShipmentId)
    }

    ghost predicate Valid()
      reads this
    {
      DbOk(Contents())
    }

    constructor (db: Db)
      requires DbOk(db)
      ensures Valid() && Contents() == db
    {
      orders, nextItemId, nextShipmentId := db.orders, db.nextItemId, db.nextShipmentId;
    }

    /** FindShipmentByExpressNo: the shipment with the smallest key, or none. */
    static method FindShipment(shipments: seq<Shipment>, expressNo: string) returns (found: Option<nat>)
      ensures found == FindWaybill(shipments, expressNo)
    {
      for i := 0 to |shipments|
        invariant FindWaybill(shipments[..i], expressNo).None?
      {
        assert shipments[..i + 1][..i] == shipments[..i];
        if shipments[i].expressNo == expressNo {
          FirstWaybillStays(shipments, expressNo, i + 1);
          return Some(i);
        }
      }
      assert shipments[..|shipments|] == shipments;
      return None;
    }

    /** The shipments left when the one at `k` goes; primary keys tell them apart. */
    static method OtherShipments(shipments: seq<Shipment>, k: nat) returns (remaining: seq<Shipment>)
      requires DistinctShipmentIds(shipments) && k < |shipments|
      ensures remaining == Without(shipments, k)
    {
      remaining := [];
      for i := 0 to |shipments|
        invariant remaining == if i <= k then shipments[..i] else shipments[..k] + shipments[k + 1..i]
      {
        if shipments[i].id == shipments[k].id {
          assert i == k;
          continue;
        }
        remaining := remaining + [shipments[i]];
      }
      assert shipments[k + 1..|shipments|] == shipments[k + 1..];
    }

    /** The waybills of one payload, by number: refresh or add without rows. */
    static method RecordAll(given: seq<Shipment>, waybills: seq<Waybill>, firstId: nat)
      returns (shipments: seq<Shipment>, nextId: nat)
      ensures (shipments, nextId) == RecordWaybills(given, waybills, firstId)
    {
      shipments, nextId := given, firstId;
      for k := 0 to |waybills|
        invariant (shipments, nextId) == RecordWaybills(given, waybills[..k], firstId)
      {
        assert waybills[..k + 1][..k] == waybills[..k];
        var w := waybills[k];
        if w.expressNo == "" {
          continue;
        }
        var existing := FindShipment(shipments, w.expressNo);
        if existing.Some? {
          if w.company != "" {
            shipments := shipments[existing.value := shipments[existing.value].(company := w.company)];
          }
          continue;
        }
        shipments := shipments + [Shipment(nextId, w.company, w.expressNo, [])];
        nextId := nextId + 1;
      }
      assert waybills[..|waybills|] == waybills;
    }

    method Ship(orderId: nat, req: ShipRequest, now: nat) returns (r: Result<Order, ShipError>)
      requires Valid()
      modifies this
      ensures Valid()
      ensures Contents() == Step(old(Contents()), ShipOp(orderId, req, now))
      ensures r == if orderId !in old(orders) then Err(OrderNotFound)
                   else ShipOrder(old(orders)[orderId], req, old(nextShipmentId), now)
    {
      StepKeepsDb(Contents(), ShipOp(orderId, req, now));
      if orderId !in orders {
        return Err(OrderNotFound);
      }
      var o := orders[orderId];
      var gate := ShipGate(o, req.expressNo);
      if gate.Some? {
        return Err(gate.value);
      }
      var resolved := ResolveShipLines(o, req.items);
      if resolved.Err? {
        return Err(resolved.error);
      }
      r := ShipResolvedLines(o, req, resolved.value, nextShipmentId, now);
      if r.Ok? {
        if |r.value.shipments| > |o.shipments| {
          nextShipmentId := nextShipmentId + 1;
        }
        orders := orders[orderId := r.value];
      }
    }

    /** Append the lines to the waybill if the order has it, else open a shipment for them. */
    static method ShipResolvedLines(given: Order, req: ShipRequest, shipLines: seq<ShipRow>, newId: nat, now: nat)
      returns (r: Result<Order, ShipError>)
      requires DistinctIds(given.items)
      ensures r == ShipResolved(given, req, shipLines, newId, now)
    {
      var o := given;
      var fullyShipped := o.head.shipStatus == Shipped;
      var newShipStatus := ComputeShipStatusAfter(o, shipLines);
      var existing := FindShipment(o.shipments, req.expressNo);
      if fullyShipped && |shipLines| > 0 && existing.None? {
        return Err(FullyShipped);
      }
      if !fullyShipped && |o.items| > 0 && |shipLines| == 0 {
        return Err(ChooseItems);
      }
      var shippedAt := if newShipStatus == Shipped then Some(now) else o.shippedAt;
      if existing.Some? {
        var k := existing.value;
        var appendLines := shipLines;
        if fullyShipped && |o.shipments[k].rows| > 0 {
          appendLines := [];
        }
        if |appendLines| > 0 {
          o := o.(shipments := AppendRows(o.shipments, k, appendLines, req.company));
          o := MarkShip(o, newShipStatus, shippedAt);
        } else if !fullyShipped {
          return Err(ChooseItems);
        }
        return Ok(o);
      }
      o := o.(shipments := o.shipments + [Shipment(newId, req.company, req.expressNo, shipLines)]);
      o := MarkShip(o, newShipStatus, shippedAt);
      return Ok(o);
    }

    method UnshipByExpressNo(orderId: nat, expressNo: string) returns (r: Result<Order, ShipError>)
      requires Valid()
      modifies this
      ensures Valid()
      ensures Contents() == Step(old(Contents()), UnshipOp(orderId, expressNo))
      ensures expressNo != "" ==> r == if orderId !in old(orders) then Err(OrderNotFound)
                                       else UnshipOrder(old(orders)[orderId], expressNo)
    {
      StepKeepsDb(Contents(), UnshipOp(orderId, expressNo));
      if expressNo == "" {
        return Err(NoExpressNo);
      }
      if orderId !in orders {
        return Err(OrderNotFound);
      }
      var o := orders[orderId];
      if o.status == Closed {
        return Err(OrderClosed);
      }
      var found := FindShipment(o.shipments, expressNo);
      if found.None? {
        var status := ComputeShipStatusAfter(o, []);
        if status != o.head.shipStatus {
          o := MarkShip(o, status, if status == WaitShip then None else o.shippedAt);
        }
        orders := orders[orderId := o];
        return Ok(o);
      }
      var remaining := OtherShipments(o.shipments, found.value);
      o := o.(shipments := remaining);
      var newShipStatus := ComputeShipStatusAfter(o, []);
      o := MarkShip(o, newShipStatus, if newShipStatus == WaitShip then None else o.shippedAt);
      orders := orders[orderId := o];
      return Ok(o);
    }

    method SyncIngestLogistics(orderId: nat, waybills: seq<Waybill>)
      requires Valid()
      modifies this
      ensures Valid()
      ensures Contents() == Step(old(Contents()), LogisticsOp(orderId, waybills))
    {
      StepKeepsDb(Contents(), LogisticsOp(orderId, waybills));
      if orderId !in orders {
        return;
      }
      var o := orders[orderId];
      var shipments, nextId := RecordAll(o.shipments, waybills, nextShipmentId);
      orders, nextShipmentId := orders[orderId := o.(shipments := shipments)], nextId;
    }

    method SyncSplitItems(orderId: nat, plan: SplitSync.SplitRequest)
      returns (r: Option<Result<Order, SplitSync.SplitError>>)
      requires Valid()
      modifies this
      ensures Valid()
      ensures Contents() == Step(old(Contents()), SplitOp(orderId, plan))
      ensures r == if orderId !in old(orders) then None
                   else Some(SplitSync.SyncSplit(old(orders)[orderId], plan, old(nextItemId)))
    {
      StepKeepsDb(Contents(), SplitOp(orderId, plan));
      if orderId !in orders {
        return None;
      }
      SplitStepIs(Contents(), orderId, plan);
      var synced, freeId := SplitSyncLoops.SyncSplitRows(orders[orderId], plan, nextItemId);
      if synced.Ok? {
        orders, nextItemId := orders[orderId := synced.value], freeId;
      }
      return Some(synced);
    }
  }

  lemma {:induction false} FirstWaybillStays(shipments: seq<Shipment>, no: string, k: nat)
    requires k <= |shipments| && FindWaybill(shipments[..k], no).Some?
    ensures FindWaybill(shipments, no) == FindWaybill(shipments[..k], no)
    decreases |shipments| - k
  {
    if k == |shipments| {
      assert shipments[..k] == shipments;
    } else {
      assert shipments[..k + 1][..k] == shipments[..k];
      FirstWaybillStays(shipments, no, k + 1);
    }
  }
}
