/** What Ship and Unship do to an order's stage, and which orders they refuse,
    told on the columns themselves; and the stage over whole runs. */
module ShipStages {
  import opened OrderModel
  import opened Ledger
  import opened Shipping
  import opened FulfilmentStore

  /** The stage the ledger of `p` calls for, where it was `was` before: an order on its way says how far it
      has shipped, and any other stage stays. */
  predicate StageFollows(was: OrderStatus, p: Order) {
    var left := ShipStatusAfter(p, []);
    if was in {Allocated, Purchasing, PartialShip, ShippedOut} then
      && (p.status == ShippedOut <==> left == Shipped)
      && (p.status == PartialShip <==> left == PartialShipped)
      && (p.status == Purchasing <==> left == WaitShip && p.head.allocType == PurchaseThenShip)
      && (p.status == Allocated <==> left == WaitShip && p.head.allocType != PurchaseThenShip)
    else p.status == was
  }

  lemma ShipIsMark(o: Order, req: ShipRequest, newId: nat, now: nat)
    requires ShipOrder(o, req, newId, now).Ok? && ShipOrder(o, req, newId, now).value != o
    ensures var p := ShipOrder(o, req, newId, now).value;
      p == MarkShip(o.(shipments := p.shipments), p.head.shipStatus, p.shippedAt)
  {
    ResolvedIsMark(o, req, ResolveLines(o, req.items).value, newId, now);
  }

  lemma ResolvedIsMark(o: Order, req: ShipRequest, lines: seq<ShipRow>, newId: nat, now: nat)
    requires ShipResolved(o, req, lines, newId, now).Ok? && ShipResolved(o, req, lines, newId, now).value != o
    ensures var p := ShipResolved(o, req, lines, newId, now).value;
      p == MarkShip(o.(shipments := p.shipments), p.head.shipStatus, p.shippedAt)
  {
  }

  lemma UnshipIsMark(o: Order, expressNo: string)
    requires UnshipOrder(o, expressNo).Ok? && UnshipOrder(o, expressNo).value != o
    ensures var p := UnshipOrder(o, expressNo).value;
      p == MarkShip(o.(shipments := p.shipments), p.head.shipStatus, p.shippedAt)
  {
  }

  lemma MarkMovesStage(o: Order, s: ShipStatus, at: Option<nat>, p: Order)
    requires p == MarkShip(o, s, at) && StatusAgrees(p)
    ensures StageFollows(o.status, p) && p.head == o.head.(shipStatus := ShipStatusAfter(p, []))
  {
  }

  /** A Ship that changes the order moves it to the stage its ledger calls for. */
  lemma ShipMovesStage(o: Order, req: ShipRequest, newId: nat, now: nat)
    requires DistinctIds(o.items)
    requires ShipOrder(o, req, newId, now).Ok? && ShipOrder(o, req, newId, now).value != o
    ensures var p := ShipOrder(o, req, newId, now).value;
      StageFollows(o.status, p) && p.head == o.head.(shipStatus := ShipStatusAfter(p, []))
  {
    var p := ShipOrder(o, req, newId, now).value;
    ShipEstablishesStatus(o, req, newId, now);
    ShipIsMark(o, req, newId, now);
    MarkMovesStage(o.(shipments := p.shipments), p.head.shipStatus, p.shippedAt, p);
  }

  /** So does an Unship that changes it. */
  lemma UnshipMovesStage(o: Order, expressNo: string)
    requires UnshipOrder(o, expressNo).Ok? && UnshipOrder(o, expressNo).value != o
    ensures var p := UnshipOrder(o, expressNo).value;
      StageFollows(o.status, p) && p.head == o.head.(shipStatus := ShipStatusAfter(p, []))
  {
    var p := UnshipOrder(o, expressNo).value;
    UnshipEstablishesStatus(o, expressNo);
    UnshipIsMark(o, expressNo);
    MarkMovesStage(o.(shipments := p.shipments), p.head.shipStatus, p.shippedAt, p);
  }

  /** The shipping time is set by what completes the order ... */
  lemma ShipSetsTime(o: Order, req: ShipRequest, newId: nat, now: nat)
    requires ShipOrder(o, req, newId, now).Ok? && ShipOrder(o, req, newId, now).value != o
    ensures var p := ShipOrder(o, req, newId, now).value;
      p.shippedAt == if p.head.shipStatus == Shipped then Some(now) else o.shippedAt
  {
    ResolvedSetsTime(o, req, ResolveLines(o, req.items).value, newId, now);
  }

  lemma ResolvedSetsTime(o: Order, req: ShipRequest, lines: seq<ShipRow>, newId: nat, now: nat)
    requires ShipResolved(o, req, lines, newId, now).Ok? && ShipResolved(o, req, lines, newId, now).value != o
    ensures var p := ShipResolved(o, req, lines, newId, now).value;
      p.shippedAt == if p.head.shipStatus == Shipped then Some(now) else o.shippedAt
  {
  }

  /** ... and cleared by an undo that leaves nothing shipped. */
  lemma UnshipClearsTime(o: Order, expressNo: string)
    requires UnshipOrder(o, expressNo).Ok? && UnshipOrder(o, expressNo).value != o
    ensures var p := UnshipOrder(o, expressNo).value;
      p.shippedAt == if p.head.shipStatus == WaitShip then None else o.shippedAt
  {
  }

  // ---- what there is to ship ----

  /** A row can ship: a split child, or a row of an order without full split that was not split itself. */
  predicate CanShip(o: Order, it: Item) {
    it.split != NoSplit
    || ((forall c :: c in o.items ==> c.split != Full)
        && forall c :: c in o.items && c.split == Partial ==> c.parent == 0 || c.parent != it.id)
  }

  /** No shipment of the order has rows, there is one, and the header says shipped. */
  predicate CountsAsShipped(o: Order) {
    o.head.shipStatus == Shipped && o.shipments != [] && forall sh :: sh in o.shipments ==> sh.rows == []
  }

  lemma CanShipIs(o: Order, it: Item)
    requires DistinctIds(o.items) && it in o.items
    ensures Shippable(o, it) <==> CanShip(o, it)
  {
    assert it.id != 0 by { var i :| 0 <= i < |o.items| && o.items[i] == it; }
    forall i | 0 <= i < |o.items| ensures o.items[i] in o.items {}
    if c :| c in o.items && c.split == Full { var i :| 0 <= i < |o.items| && o.items[i] == c; }
    if c :| c in o.items && c.split == Partial && c.parent == it.id {
      var i :| 0 <= i < |o.items| && o.items[i] == c;
    }
  }

  /** What is left of a row: its quantity less what the waybills shipped of it, where it can ship and nothing else
      counts it as shipped. */
  lemma WhatIsLeft(o: Order, it: Item)
    requires DistinctIds(o.items) && it in o.items
    ensures var left := it.quantity - ShippedRows(o.shipments, it.id);
      Remaining(o, it) == if CanShip(o, it) && !CountsAsShipped(o) && left > 0 then left else 0
  {
    CanShipIs(o, it);
    forall i | 0 <= i < |o.shipments| ensures o.shipments[i] in o.shipments {}
  }

  /** What the waybills shipped of a row: the positive quantities of all rows for it. */
  lemma {:induction false} WhatShipped(shipments: seq<Shipment>, sh: Shipment, rows: seq<ShipRow>, r: ShipRow, id: nat)
    requires id != 0
    ensures ShippedRows([], id) == 0 && RowQty([], id) == 0
    ensures ShippedRows(shipments + [sh], id) == ShippedRows(shipments, id) + RowQty(sh.rows, id)
    ensures RowQty(rows + [r], id) == RowQty(rows, id) + if r.itemId == id && r.qty > 0 then r.qty else 0
  {
    assert (shipments + [sh])[..|shipments|] == shipments && (rows + [r])[..|rows|] == rows;
  }

  // ---- which orders are refused ----

  /** Our own shipping of an order that still has something to ship, which neither a lock nor the platform's
      state holds up. */
  predicate OwnShipping(o: Order) {
    o.head.allocType == SelfShip && o.head.shipStatus in {WaitShip, PartialShipped}
  }

  /** An order that may ship under a number: it is not closed, and unless it has shipped already, nothing
      forbids it, it is allocated, no factory ships it, and either we ship it or no lock and no other state of
      the platform order stands in the way. */
  predicate MayShip(o: Order, expressNo: string) {
    && o.status != Closed && expressNo != ""
    && (o.head.shipStatus != Shipped ==>
      && !o.blocked && o.head.allocType != Unallocated
      && !(o.head.allocType == Dropship && o.head.mode == KdzsFactory)
      && (OwnShipping(o) || (!o.locked && (o.channel == Kdzs ==> o.platformStatus == WaitSend))))
  }

  /** What is left to say once the lines are known: a shipped order takes no lines under a new number, and any
      other has to ship something. */
  predicate LinesChosen(o: Order, expressNo: string, lines: seq<ShipRow>) {
    if o.head.shipStatus == Shipped then lines != [] ==> expressNo in ShippedNumbers(o)
    else lines != [] || (o.items == [] && expressNo !in ShippedNumbers(o))
  }

  function ShippedNumbers(o: Order): set<string> {
    set i | 0 <= i < |o.shipments| :: o.shipments[i].expressNo
  }

  /** Ship is accepted exactly for an order that may ship and a request whose lines resolve and fit it. */
  lemma ShipAccepted(o: Order, req: ShipRequest, newId: nat, now: nat)
    ensures ShipOrder(o, req, newId, now).Ok?
       <==> MayShip(o, req.expressNo) && ResolveLines(o, req.items).Ok?
            && LinesChosen(o, req.expressNo, ResolveLines(o, req.items).value)
  {
    NumberFound(o, req.expressNo);
  }

  lemma {:induction false} NumberFound(o: Order, no: string)
    ensures FindWaybill(o.shipments, no).Some? <==> no in ShippedNumbers(o)
  {
    var at := FindWaybill(o.shipments, no);
    if at.Some? { assert o.shipments[at.value].expressNo in ShippedNumbers(o); }
  }

  /** Unship is refused exactly without a number and on a closed order. */
  lemma UnshipAccepted(o: Order, expressNo: string)
    ensures UnshipOrder(o, expressNo).Ok? <==> expressNo != "" && o.status != Closed
  {
  }

  // ---- the waybills ----

  /** The shipments after a Ship: the lines go to the first one with the number, which takes the carrier only if
      it had none, and to a new one if there is none; the others stay as they are. */
  lemma ShipmentsAfter(o: Order, req: ShipRequest, newId: nat, now: nat, i: nat)
    requires ShipOrder(o, req, newId, now).Ok? && ShipOrder(o, req, newId, now).value != o
    requires i < |ShipOrder(o, req, newId, now).value.shipments| && ResolveLines(o, req.items).Ok?
    ensures var after, lines := ShipOrder(o, req, newId, now).value.shipments, ResolveLines(o, req.items).value;
      && |after| == |o.shipments| + (if req.expressNo in ShippedNumbers(o) then 0 else 1)
      && after[i] ==
         if i == |o.shipments| then Shipment(newId, req.company, req.expressNo, lines)
         else if o.shipments[i].expressNo == req.expressNo
                 && forall j :: 0 <= j < i ==> o.shipments[j].expressNo != req.expressNo then
           var sh := o.shipments[i];
           sh.(rows := sh.rows + lines, company := if sh.company != "" then sh.company else req.company)
         else o.shipments[i]
  {
    ShipShape(o, req, newId, now);
    NumberFound(o, req.expressNo);
  }

  // ---- stages over runs ----

  /** The stage fits the ledger, where there is one to fit. */
  predicate Staged(o: Order) {
    StageFollows(o.status, o)
  }

  ghost predicate AllStaged(db: Db) {
    forall id :: id in db.orders ==> Staged(db.orders[id])
  }

  /** An order on its way stays on its way, and any other stays where it is. */
  predicate StageKept(was: OrderStatus, now: OrderStatus) {
    if was in {Allocated, Purchasing, PartialShip, ShippedOut} then
      now in {Allocated, Purchasing, PartialShip, ShippedOut}
    else now == was
  }

  ghost predicate StagesKept(db: Db, after: Db) {
    after.orders.Keys == db.orders.Keys
    && forall id :: id in db.orders ==> StageKept(db.orders[id].status, after.orders[id].status)
  }

  lemma StagedAgain(was: OrderStatus, p: Order)
    requires StageFollows(was, p)
    ensures Staged(p) && StageKept(was, p.status)
  {
  }

  lemma SavedStage(db: Db, after: Db, id: nat, p: Order)
    requires AllStaged(db) && id in db.orders && after.orders == db.orders[id := p]
    requires Staged(p) && StageKept(db.orders[id].status, p.status)
    ensures AllStaged(after) && StagesKept(db, after)
  {
  }

  lemma ShippedStage(o: Order, req: ShipRequest, newId: nat, now: nat)
    requires DistinctIds(o.items) && Staged(o) && ShipOrder(o, req, newId, now).Ok?
    ensures var p := ShipOrder(o, req, newId, now).value; Staged(p) && StageKept(o.status, p.status)
  {
    if ShipOrder(o, req, newId, now).value != o {
      ShipMovesStage(o, req, newId, now);
      StagedAgain(o.status, ShipOrder(o, req, newId, now).value);
    }
  }

  lemma UnshippedStage(o: Order, expressNo: string)
    requires Staged(o) && UnshipOrder(o, expressNo).Ok?
    ensures var p := UnshipOrder(o, expressNo).value; Staged(p) && StageKept(o.status, p.status)
  {
    if UnshipOrder(o, expressNo).value != o {
      UnshipMovesStage(o, expressNo);
      StagedAgain(o.status, UnshipOrder(o, expressNo).value);
    }
  }

  lemma {:induction false} WaybillsKeepStage(o: Order, ws: seq<Waybill>, nextId: nat)
    requires StatusAgrees(o) && Staged(o)
    ensures Staged(o.(shipments := RecordWaybills(o.shipments, ws, nextId).0))
  {
    WaybillsKeepStatus(o, ws, nextId);
  }

  lemma ShipKeepsStages(db: Db, id: nat, req: ShipRequest, now: nat)
    requires DbOk(db) && AllAgree(db) && AllStaged(db) && id in db.orders
    ensures AllStaged(Step(db, ShipOp(id, req, now))) && StagesKept(db, Step(db, ShipOp(id, req, now)))
  {
    var r := ShipOrder(db.orders[id], req, db.nextShipmentId, now);
    if r.Ok? {
      ShippedStage(db.orders[id], req, db.nextShipmentId, now);
      SavedStage(db, Step(db, ShipOp(id, req, now)), id, r.value);
    }
  }

  lemma UnshipKeepsStages(db: Db, id: nat, expressNo: string)
    requires DbOk(db) && AllAgree(db) && AllStaged(db) && id in db.orders
    ensures AllStaged(Step(db, UnshipOp(id, expressNo))) && StagesKept(db, Step(db, UnshipOp(id, expressNo)))
  {
    var r := UnshipOrder(db.orders[id], expressNo);
    if r.Ok? {
      UnshippedStage(db.orders[id], expressNo);
      SavedStage(db, Step(db, UnshipOp(id, expressNo)), id, r.value);
    }
  }

  lemma StepKeepsStages(db: Db, op: Op)
    requires DbOk(db) && AllAgree(db) && AllStaged(db) && !op.SplitOp?
    ensures AllStaged(Step(db, op)) && StagesKept(db, Step(db, op))
  {
    if op.orderId in db.orders {
      match op {
        case ShipOp(id, req, now) => ShipKeepsStages(db, id, req, now);
        case UnshipOp(id, expressNo) => UnshipKeepsStages(db, id, expressNo);
        case LogisticsOp(id, waybills) => WaybillsKeepStage(db.orders[id], waybills, db.nextShipmentId);
      }
    }
  }

  lemma KeptTwice(a: Db, b: Db, c: Db)
    requires StagesKept(a, b) && StagesKept(b, c)
    ensures StagesKept(a, c)
  {
  }

  /** Over every run of shipping, unshipping and waybill syncs every order on its way is at the stage its
      ledger calls for, and every other order stays where it is. */
  lemma {:induction false} StagesOverRuns(db: Db, ops: seq<Op>)
    requires DbOk(db) && AllAgree(db) && AllStaged(db)
    requires forall k :: 0 <= k < |ops| ==> !ops[k].SplitOp?
    ensures AllStaged(Run(db, ops)) && StagesKept(db, Run(db, ops))
  {
    if ops != [] {
      var n := |ops| - 1;
      StagesOverRuns(db, ops[..n]);
      LedgerOverRuns(db, ops[..n]);
      StatusOverRuns(db, ops[..n]);
      StepKeepsStages(Run(db, ops[..n]), ops[n]);
      KeptTwice(db, Run(db, ops[..n]), Run(db, ops));
    }
  }
}
