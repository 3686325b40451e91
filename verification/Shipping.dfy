/** Shipping an order, taking a shipment back, and recording synced waybills:
    what each does to the order, and what they keep. */
module Shipping {
  import opened OrderModel
  import opened Ledger

  datatype ShipError =
    | OrderNotFound | OrderClosed | NoExpressNo | EntryLocked | FulfilmentBlocked | FactoryShips
    | NotWaitSend | NotAllocated
    | NoItemRows | BadItemId | UnknownItem | ExcludedItem | BadQty | OverRemaining
    | FullyShipped | ChooseItems

  datatype ShipRequest = ShipRequest(company: string, expressNo: string, items: seq<ShipRow>)

  datatype Waybill = Waybill(company: string, expressNo: string)

  // ---- which lines a request ships ----

  function RequestError(o: Order, reqs: seq<ShipRow>, k: nat): Option<ShipError>
    requires k < |reqs|
  {
    var r := reqs[k];
    if r.itemId == 0 then Some(BadItemId)
    else
      match FindItem(o.items, r.itemId)
      case None => Some(UnknownItem)
      case Some(i) =>
        if Excluded(o.items[i]) then Some(ExcludedItem)
        else if r.qty <= 0 then Some(BadQty)
        else if LineQty(reqs[..k + 1], r.itemId) > Remaining(o, o.items[i]) then Some(OverRemaining)
        else None
  }

  function FirstRequestError(o: Order, reqs: seq<ShipRow>, k: nat): Option<ShipError>
    requires k <= |reqs|
    decreases |reqs| - k
  {
    if k == |reqs| then None
    else if RequestError(o, reqs, k).Some? then RequestError(o, reqs, k)
    else FirstRequestError(o, reqs, k + 1)
  }

  lemma {:induction false} NoRequestError(o: Order, reqs: seq<ShipRow>, k: nat)
    requires k <= |reqs|
    ensures FirstRequestError(o, reqs, k).None? <==> forall j :: k <= j < |reqs| ==> RequestError(o, reqs, j).None?
    decreases |reqs| - k
  {
    if k < |reqs| { NoRequestError(o, reqs, k + 1); }
  }

  /** One line for every row that can still ship, for its whole remainder. */
  function RemainingLines(o: Order, items: seq<Item>): seq<ShipRow> {
    if items == [] then []
    else
      var n := |items| - 1;
      RemainingLines(o, items[..n])
      + if Excluded(items[n]) || Remaining(o, items[n]) == 0 then [] else [ShipRow(items[n].id, Remaining(o, items[n]))]
  }

  function ResolveLines(o: Order, reqs: seq<ShipRow>): Result<seq<ShipRow>, ShipError> {
    if o.items == [] then (if reqs == [] then Ok([]) else Err(NoItemRows))
    else if reqs == [] then Ok(RemainingLines(o, o.items))
    else if FirstRequestError(o, reqs, 0).Some? then Err(FirstRequestError(o, reqs, 0).value)
    else Ok(reqs)
  }

  ghost predicate NamesLiveRow(items: seq<Item>, id: nat) {
    exists it :: it in items && it.id == id && !Excluded(it)
  }

  /** Every line names a live row, and no row is asked for more than it has left. */
  ghost predicate LinesFit(o: Order, lines: seq<ShipRow>) {
    && (forall k :: 0 <= k < |lines| ==>
          && lines[k].itemId != 0 && lines[k].qty > 0
          && NamesLiveRow(o.items, lines[k].itemId))
    && (forall it :: it in o.items ==> 0 <= LineQty(lines, it.id) <= Remaining(o, it))
  }

  lemma {:induction false} PrefixFits(o: Order, reqs: seq<ShipRow>, n: nat)
    requires DistinctIds(o.items) && n <= |reqs|
    requires forall j :: 0 <= j < n ==> RequestError(o, reqs, j).None?
    ensures forall it :: it in o.items ==> 0 <= LineQty(reqs[..n], it.id) <= Remaining(o, it)
  {
    if n > 0 {
      PrefixFits(o, reqs, n - 1);
      assert reqs[..n][..n - 1] == reqs[..n - 1];
      assert RequestError(o, reqs, n - 1).None?;
      assert reqs[..n - 1 + 1] == reqs[..n];
    }
  }

  lemma {:induction false} PrefixMonotone(reqs: seq<ShipRow>, n: nat, id: nat)
    requires n <= |reqs| && forall k :: 0 <= k < |reqs| ==> reqs[k].qty > 0
    ensures LineQty(reqs[..n], id) <= LineQty(reqs, id)
    decreases |reqs| - n
  {
    if n == |reqs| {
      assert reqs[..n] == reqs;
    } else {
      PrefixMonotone(reqs, n + 1, id);
      assert reqs[..n + 1][..n] == reqs[..n];
    }
  }

  lemma {:induction false} RemainingLinesLive(o: Order, items: seq<Item>, k: nat)
    requires k < |RemainingLines(o, items)|
    ensures RemainingLines(o, items)[k].qty > 0
    ensures exists i :: 0 <= i < |items| && items[i].id == RemainingLines(o, items)[k].itemId && !Excluded(items[i])
  {
    var n := |items| - 1;
    if k < |RemainingLines(o, items[..n])| {
      RemainingLinesLive(o, items[..n], k);
    }
  }

  /** What is left of a row that can be shipped. */
  function LeftOf(o: Order, it: Item): nat {
    if Excluded(it) then 0 else Remaining(o, it)
  }

  lemma {:induction false} RemainingLinesStep(o: Order, items: seq<Item>, id: nat)
    requires items != []
    ensures var n := |items| - 1;
      LineQty(RemainingLines(o, items), id)
      == LineQty(RemainingLines(o, items[..n]), id)
         + if items[n].id == id then LeftOf(o, items[n]) else 0
  {
    var before := RemainingLines(o, items[..|items| - 1]);
    if RemainingLines(o, items) != before {
      assert RemainingLines(o, items)[..|before|] == before;
    }
  }

  lemma {:induction false} RemainingLinesElsewhere(o: Order, items: seq<Item>, id: nat)
    requires forall i :: 0 <= i < |items| ==> items[i].id != id
    ensures LineQty(RemainingLines(o, items), id) == 0
  {
    if items != [] {
      RemainingLinesElsewhere(o, items[..|items| - 1], id);
      RemainingLinesStep(o, items, id);
    }
  }

  lemma DistinctPrefix(items: seq<Item>, n: nat)
    requires DistinctIds(items) && n <= |items|
    ensures DistinctIds(items[..n])
  {
  }

  lemma {:induction false} RemainingLinesQty(o: Order, items: seq<Item>, i: nat)
    requires DistinctIds(items) && i < |items|
    ensures LineQty(RemainingLines(o, items), items[i].id) == LeftOf(o, items[i])
  {
    var n := |items| - 1;
    RemainingLinesStep(o, items, items[i].id);
    if i < n {
      DistinctPrefix(items, n);
      assert items[..n][i] == items[i] && items[n].id != items[i].id;
      RemainingLinesQty(o, items[..n], i);
    } else {
      RemainingLinesElsewhere(o, items[..n], items[n].id);
    }
  }

  /** The lines for what remains fit. */
  lemma {:induction false} RemainingLinesFit(o: Order)
    requires DistinctIds(o.items)
    ensures LinesFit(o, RemainingLines(o, o.items))
  {
    var lines := RemainingLines(o, o.items);
    forall k | 0 <= k < |lines|
      ensures lines[k].itemId != 0 && lines[k].qty > 0 && NamesLiveRow(o.items, lines[k].itemId)
    {
      RemainingLinesLive(o, o.items, k);
      var i :| 0 <= i < |o.items| && o.items[i].id == lines[k].itemId && !Excluded(o.items[i]);
      assert o.items[i] in o.items;
    }
    forall it | it in o.items ensures 0 <= LineQty(lines, it.id) <= Remaining(o, it) {
      var i :| 0 <= i < |o.items| && o.items[i] == it;
      RemainingLinesQty(o, o.items, i);
    }
  }

  /** Whatever the request, accepted lines fit; and a request with lines is accepted exactly when it fits. */
  lemma ResolvedLinesFit(o: Order, reqs: seq<ShipRow>)
    requires DistinctIds(o.items)
    ensures ResolveLines(o, reqs).Ok? ==> LinesFit(o, ResolveLines(o, reqs).value)
    ensures reqs != [] ==> (ResolveLines(o, reqs) == Ok(reqs) <==> o.items != [] && LinesFit(o, reqs))
  {
    if o.items != [] && reqs == [] {
      RemainingLinesFit(o);
    } else if o.items != [] {
      NoRequestError(o, reqs, 0);
      if FirstRequestError(o, reqs, 0).None? { FaultlessFit(o, reqs); }
      if LinesFit(o, reqs) {
        forall k | 0 <= k < |reqs| ensures RequestError(o, reqs, k).None? { FittingFaultless(o, reqs, k); }
      }
    }
  }

  lemma FaultlessFit(o: Order, reqs: seq<ShipRow>)
    requires DistinctIds(o.items) && forall k :: 0 <= k < |reqs| ==> RequestError(o, reqs, k).None?
    ensures LinesFit(o, reqs)
  {
    PrefixFits(o, reqs, |reqs|);
    assert reqs[..|reqs|] == reqs;
    forall k | 0 <= k < |reqs|
      ensures reqs[k].itemId != 0 && reqs[k].qty > 0
      ensures NamesLiveRow(o.items, reqs[k].itemId)
    {
      assert RequestError(o, reqs, k).None?;
      assert o.items[FindItem(o.items, reqs[k].itemId).value] in o.items;
    }
  }

  lemma FittingFaultless(o: Order, reqs: seq<ShipRow>, k: nat)
    requires DistinctIds(o.items) && LinesFit(o, reqs) && k < |reqs|
    ensures RequestError(o, reqs, k).None?
  {
    assert NamesLiveRow(o.items, reqs[k].itemId);
    var it :| it in o.items && it.id == reqs[k].itemId && !Excluded(it);
    var i :| 0 <= i < |o.items| && o.items[i] == it;
    FindItemAt(o.items, i);
    PrefixMonotone(reqs, k + 1, it.id);
  }

  method IndexById(items: seq<Item>) returns (byId: map<nat, Item>)
    requires DistinctIds(items)
    ensures forall id: nat :: id in byId <==> FindItem(items, id).Some?
    ensures forall id :: id in byId ==> byId[id] == items[FindItem(items, id).value]
  {
    byId := map[];
    for i := 0 to |items|
      invariant forall id: nat :: id in byId <==> FindItem(items[..i], id).Some?
      invariant forall id :: id in byId ==> byId[id] == items[FindItem(items[..i], id).value]
    {
      assert items[..i + 1][..i] == items[..i];
      byId := byId[items[i].id := items[i]];
    }
    assert items[..|items|] == items;
  }

  method RemainingShipLines(o: Order) returns (out: seq<ShipRow>)
    requires DistinctIds(o.items)
    ensures out == RemainingLines(o, o.items)
  {
    var remaining: map<nat, int> := RemainingQtyByItem(o);
    out := [];
    for i := 0 to |o.items|
      invariant out == RemainingLines(o, o.items[..i])
    {
      var it := o.items[i];
      assert it in o.items;
      assert o.items[..i + 1][..i] == o.items[..i];
      if Excluded(it) {
        continue;
      }
      var left := Get(remaining, it.id);
      if left <= 0 {
        continue;
      }
      out := out + [ShipRow(it.id, left)];
    }
    assert o.items[..|o.items|] == o.items;
  }

  method ResolveShipLines(o: Order, reqs: seq<ShipRow>) returns (r: Result<seq<ShipRow>, ShipError>)
    requires DistinctIds(o.items)
    ensures r == ResolveLines(o, reqs)
  {
    if |o.items| == 0 {
      if |reqs| > 0 {
        return Err(NoItemRows);
      }
      return Ok([]);
    }
    var itemById := IndexById(o.items);
    if |reqs| == 0 {
      var all := RemainingShipLines(o);
      return Ok(all);
    }
    var fault, out := CheckShipLines(o, reqs, itemById);
    if fault.Some? {
      return Err(fault.value);
    }
    return Ok(out);
  }

  /** The quantities asked for so far. */
  ghost predicate Seen(seen: map<nat, int>, lines: seq<ShipRow>) {
    forall id: nat :: Get(seen, id) == LineQty(lines, id)
  }

  /** The rows by key. */
  ghost predicate ById(itemById: map<nat, Item>, items: seq<Item>) {
    && (forall id: nat :: id in itemById <==> FindItem(items, id).Some?)
    && (forall id :: id in itemById ==> itemById[id] == items[FindItem(items, id).value])
  }

  /** What is left of each row. */
  ghost predicate Holds(remaining: map<nat, int>, o: Order) {
    forall it :: it in o.items ==> Get(remaining, it.id) == Remaining(o, it)
  }

  /** The requested lines in order, up to the first fault. */
  method CheckShipLines(o: Order, reqs: seq<ShipRow>, itemById: map<nat, Item>)
    returns (fault: Option<ShipError>, out: seq<ShipRow>)
    requires DistinctIds(o.items)
    requires ById(itemById, o.items)
    ensures fault == FirstRequestError(o, reqs, 0)
    ensures fault.None? ==> out == reqs
  {
    var remaining: map<nat, int> := RemainingQtyByItem(o);
    out := [];
    var seen: map<nat, int> := map[];
    assert Seen(seen, reqs[..0]);
    for k := 0 to |reqs|
      invariant out == reqs[..k]
      invariant Seen(seen, reqs[..k])
      invariant CleanTo(o, reqs, k)
    {
      fault, seen := CheckShipLine(o, reqs, k, itemById, remaining, seen);
      if fault.Some? {
        FirstErrorAt(o, reqs, 0, k);
        return;
      }
      out := out + [reqs[k]];
    }
    assert reqs[..|reqs|] == reqs;
    NoRequestError(o, reqs, 0);
    fault := None;
  }

  /** No fault before line `k`. */
  ghost predicate CleanTo(o: Order, reqs: seq<ShipRow>, k: nat)
    requires k <= |reqs|
  {
    forall j :: 0 <= j < k ==> RequestError(o, reqs, j).None?
  }

  lemma {:induction false} FirstErrorAt(o: Order, reqs: seq<ShipRow>, from: nat, k: nat)
    requires from <= k < |reqs| && CleanTo(o, reqs, k) && RequestError(o, reqs, k).Some?
    ensures FirstRequestError(o, reqs, from) == RequestError(o, reqs, k)
    decreases k - from
  {
    if from < k { FirstErrorAt(o, reqs, from + 1, k); }
  }

  /** One requested line against what is left after the lines before it. */
  method CheckShipLine(o: Order, reqs: seq<ShipRow>, k: nat, itemById: map<nat, Item>, remaining: map<nat, int>,
                       seen: map<nat, int>)
    returns (fault: Option<ShipError>, seenNow: map<nat, int>)
    requires DistinctIds(o.items) && k < |reqs|
    requires ById(itemById, o.items) && Holds(remaining, o)
    requires Seen(seen, reqs[..k])
    ensures fault == RequestError(o, reqs, k)
    ensures fault.None? ==> Seen(seenNow, reqs[..k + 1])
  {
    var line := reqs[k];
    seenNow := seen;
    assert reqs[..k + 1][..k] == reqs[..k];
    if line.itemId == 0 {
      return Some(BadItemId), seen;
    }
    if line.itemId !in itemById {
      return Some(UnknownItem), seen;
    }
    var it := itemById[line.itemId];
    assert it in o.items;
    if Excluded(it) {
      return Some(ExcludedItem), seen;
    }
    if line.qty <= 0 {
      return Some(BadQty), seen;
    }
    seenNow := seen[line.itemId := Get(seen, line.itemId) + line.qty];
    forall id: nat ensures Get(seenNow, id) == LineQty(reqs[..k + 1], id) {
      assert Get(seen, id) == LineQty(reqs[..k], id);
    }
    if Get(seenNow, line.itemId) > Get(remaining, line.itemId) {
      return Some(OverRemaining), seenNow;
    }
    fault := None;
  }

  // ---- what the operations do ----

  predicate InFulfilment(status: OrderStatus) {
    status.Allocated? || status.Purchasing? || status.PartialShip? || status.ShippedOut?
  }

  /** The fulfilment status that goes with a ship status; other stages are left alone. */
  function FulfilStatus(status: OrderStatus, alloc: AllocType, s: ShipStatus): OrderStatus {
    if !InFulfilment(status) then status
    else
      match s
      case Shipped => ShippedOut
      case PartialShipped => PartialShip
      case _ => if alloc == PurchaseThenShip then Purchasing else Allocated
  }

  predicate FulfilAgrees(o: Order) {
    o.status == FulfilStatus(o.status, o.head.allocType, o.head.shipStatus)
  }

  function MarkShip(o: Order, s: ShipStatus, shippedAt: Option<nat>): Order {
    WithShipStatus(o, s).(status := FulfilStatus(o.status, o.head.allocType, s), shippedAt := shippedAt)
  }

  /** The oldest shipment with the waybill number. */
  function FindWaybill(shipments: seq<Shipment>, no: string): (r: Option<nat>)
    ensures r.Some? ==> r.value < |shipments| && shipments[r.value].expressNo == no
    ensures r.Some? ==> forall i :: 0 <= i < r.value ==> shipments[i].expressNo != no
    ensures r.None? ==> forall i :: 0 <= i < |shipments| ==> shipments[i].expressNo != no
  {
    if shipments == [] then None
    else
      var n := |shipments| - 1;
      var before := FindWaybill(shipments[..n], no);
      if before.Some? then before
      else if shipments[n].expressNo == no then Some(n)
      else None
  }

  /** The checks before any line is looked at. */
  function ShipGate(o: Order, expressNo: string): Option<ShipError> {
    var open := o.head.allocType == SelfShip && (o.head.shipStatus == WaitShip || o.head.shipStatus == PartialShipped);
    if o.status == Closed then Some(OrderClosed)
    else if o.head.shipStatus == Shipped then (if expressNo == "" then Some(NoExpressNo) else None)
    else if o.locked && !open then Some(EntryLocked)
    else if o.blocked then Some(FulfilmentBlocked)
    else if o.head.allocType == Dropship && o.head.mode == KdzsFactory then Some(FactoryShips)
    else if o.channel == Kdzs && o.platformStatus != WaitSend && !open then Some(NotWaitSend)
    else if o.head.allocType == Unallocated then Some(NotAllocated)
    else if expressNo == "" then Some(NoExpressNo)
    else None
  }

  function AppendRows(shipments: seq<Shipment>, k: nat, lines: seq<ShipRow>, company: string): seq<Shipment>
    requires k < |shipments|
  {
    var sh := shipments[k];
    shipments[k := sh.(rows := sh.rows + lines, company := FirstNonEmpty(sh.company, company))]
  }

  /** Ship: append to the waybill if the order has it, else open a new shipment `newId`. */
  function ShipOrder(o: Order, req: ShipRequest, newId: nat, now: nat): Result<Order, ShipError> {
    var gate := ShipGate(o, req.expressNo);
    if gate.Some? then Err(gate.value)
    else if ResolveLines(o, req.items).Err? then Err(ResolveLines(o, req.items).error)
    else ShipResolved(o, req, ResolveLines(o, req.items).value, newId, now)
  }

  /** Ship once the lines are known. */
  function ShipResolved(o: Order, req: ShipRequest, lines: seq<ShipRow>, newId: nat, now: nat)
    : Result<Order, ShipError>
  {
    var full := o.head.shipStatus == Shipped;
    var found := FindWaybill(o.shipments, req.expressNo);
    var s := ShipStatusAfter(o, lines);
    var at := if s == Shipped then Some(now) else o.shippedAt;
    if full && lines != [] && found.None? then Err(FullyShipped)
    else if !full && o.items != [] && lines == [] then Err(ChooseItems)
    else if found.None? then
      Ok(MarkShip(o.(shipments := o.shipments + [Shipment(newId, req.company, req.expressNo, lines)]), s, at))
    else
      var add := if full && o.shipments[found.value].rows != [] then [] else lines;
      if add != [] then
        Ok(MarkShip(o.(shipments := AppendRows(o.shipments, found.value, add, req.company)), s, at))
      else if !full then Err(ChooseItems)
      else Ok(o)
  }

  function Without(shipments: seq<Shipment>, k: nat): seq<Shipment>
    requires k < |shipments|
  {
    shipments[..k] + shipments[k + 1..]
  }

  function Unmark(o: Order): Order {
    var s := ShipStatusAfter(o, []);
    MarkShip(o, s, if s == WaitShip then None else o.shippedAt)
  }

  /** Unship: drop the waybill's shipment with its rows and recompute; an unknown waybill still recomputes. */
  function UnshipOrder(o: Order, expressNo: string): Result<Order, ShipError> {
    if expressNo == "" then Err(NoExpressNo)
    else if o.status == Closed then Err(OrderClosed)
    else
      match FindWaybill(o.shipments, expressNo)
      case Some(k) => Ok(Unmark(o.(shipments := Without(o.shipments, k))))
      case None => if StatusAgrees(o) then Ok(o) else Ok(Unmark(o))
  }

  lemma {:induction false} UnshipShape(o: Order, expressNo: string)
    requires UnshipOrder(o, expressNo).Ok?
    ensures var p := UnshipOrder(o, expressNo).value;
      p.items == o.items
      && match FindWaybill(o.shipments, expressNo)
         case Some(k) => p.shipments == Without(o.shipments, k)
         case None => p.shipments == o.shipments
  {
  }

  /** A synced waybill: refresh the carrier of a known one, else add a shipment without rows. */
  function RecordWaybill(shipments: seq<Shipment>, w: Waybill, newId: nat): seq<Shipment> {
    if w.expressNo == "" then shipments
    else
      match FindWaybill(shipments, w.expressNo)
      case Some(k) => if w.company == "" then shipments else shipments[k := shipments[k].(company := w.company)]
      case None => shipments + [Shipment(newId, w.company, w.expressNo, [])]
  }

  function RecordWaybills(shipments: seq<Shipment>, ws: seq<Waybill>, nextId: nat): (seq<Shipment>, nat) {
    if ws == [] then (shipments, nextId)
    else
      var n := |ws| - 1;
      var (before, id) := RecordWaybills(shipments, ws[..n], nextId);
      var after := RecordWaybill(before, ws[n], id);
      (after, if |after| > |before| then id + 1 else id)
  }

  // ---- the status never drifts from the ledger ----

  /** Adding fitting lines to the rows leaves the same remainder as subtracting them. */
  lemma {:induction false} ShippedLinesLeaveRemainder(o: Order, lines: seq<ShipRow>, p: Order)
    requires LinesFit(o, lines) && lines != []
    requires p.items == o.items && HasRows(p.shipments)
    requires forall id :: ShippedRows(p.shipments, id) == ShippedRows(o.shipments, id) + RowQty(lines, id)
    ensures ShipStatusAfter(p, []) == ShipStatusAfter(o, lines)
  {
    assert !LegacyShipped(o) by {
      var it :| it in o.items && it.id == lines[0].itemId && !Excluded(it);
      LineQtyCounts(lines, it.id);
      assert RowQty(lines, it.id) > 0 by { RowQtyPositive(lines, 0); }
    }
    forall it | it in o.items ensures LeftAfter(p, [], it) == LeftAfter(o, lines, it) {
      LineQtyCounts(lines, it.id);
      assert Shippable(p, it) == Shippable(o, it);
    }
    SameRemainingSameStatus(p, [], o, lines);
  }

  lemma {:induction false} LineQtyCounts(lines: seq<ShipRow>, id: nat)
    requires forall k :: 0 <= k < |lines| ==> lines[k].itemId != 0 && lines[k].qty > 0
    ensures LineQty(lines, id) == RowQty(lines, id)
  {
    if lines != [] {
      LineQtyCounts(lines[..|lines| - 1], id);
    }
  }

  lemma {:induction false} RowQtyPositive(rows: seq<ShipRow>, k: nat)
    requires k < |rows| && rows[k].itemId != 0 && rows[k].qty > 0
    ensures RowQty(rows, rows[k].itemId) >= rows[k].qty
  {
    if k < |rows| - 1 {
      RowQtyPositive(rows[..|rows| - 1], k);
    }
  }

  /** Ship either appends the resolved lines to its waybill or opens it with them. */
  lemma ShipShape(o: Order, req: ShipRequest, newId: nat, now: nat)
    requires ShipOrder(o, req, newId, now).Ok? && ShipOrder(o, req, newId, now).value != o
    ensures ResolveLines(o, req.items).Ok? && req.expressNo != ""
    ensures var lines := ResolveLines(o, req.items).value; var p := ShipOrder(o, req, newId, now).value;
      && p.items == o.items
      && match FindWaybill(o.shipments, req.expressNo)
         case Some(k) => p.shipments == AppendRows(o.shipments, k, lines, req.company) && lines != []
         case None => p.shipments == o.shipments + [Shipment(newId, req.company, req.expressNo, lines)]
  {
  }

  /** What a successful Ship adds to the ledger. */
  lemma ShipAddsLines(o: Order, req: ShipRequest, newId: nat, now: nat)
    requires ShipOrder(o, req, newId, now).Ok? && ShipOrder(o, req, newId, now).value != o
    ensures var p := ShipOrder(o, req, newId, now).value; var lines := ResolveLines(o, req.items).value;
      && p.items == o.items
      && (forall id :: ShippedRows(p.shipments, id) == ShippedRows(o.shipments, id) + RowQty(lines, id))
      && (HasRows(p.shipments) <==> HasRows(o.shipments) || lines != [])
      && p.head.shipStatus == ShipStatusAfter(o, lines)
      && p.shipments != [] && FulfilAgrees(p)
  {
    ShipShape(o, req, newId, now);
    ShipMarks(o, req, newId, now);
    var lines := ResolveLines(o, req.items).value;
    match FindWaybill(o.shipments, req.expressNo)
    case Some(k) => AppendAdds(o.shipments, k, lines, req.company);
    case None => OpenAdds(o.shipments, Shipment(newId, req.company, req.expressNo, lines));
  }

  lemma ShipMarks(o: Order, req: ShipRequest, newId: nat, now: nat)
    requires ShipOrder(o, req, newId, now).Ok? && ShipOrder(o, req, newId, now).value != o
    ensures ResolveLines(o, req.items).Ok?
    ensures var p := ShipOrder(o, req, newId, now).value;
      p.head.shipStatus == ShipStatusAfter(o, ResolveLines(o, req.items).value) && FulfilAgrees(p)
  {
    ResolvedMarks(o, req, ResolveLines(o, req.items).value, newId, now);
  }

  lemma ResolvedMarks(o: Order, req: ShipRequest, lines: seq<ShipRow>, newId: nat, now: nat)
    requires ShipResolved(o, req, lines, newId, now).Ok? && ShipResolved(o, req, lines, newId, now).value != o
    ensures var p := ShipResolved(o, req, lines, newId, now).value;
      p.head.shipStatus == ShipStatusAfter(o, lines) && FulfilAgrees(p)
  {
    var found, s := FindWaybill(o.shipments, req.expressNo), ShipStatusAfter(o, lines);
    var at := if s == Shipped then Some(now) else o.shippedAt;
    if found.None? {
      MarkAgrees(o.(shipments := o.shipments + [Shipment(newId, req.company, req.expressNo, lines)]), s, at);
    } else {
      MarkAgrees(o.(shipments := AppendRows(o.shipments, found.value, lines, req.company)), s, at);
    }
  }

  lemma MarkAgrees(o: Order, s: ShipStatus, at: Option<nat>)
    ensures MarkShip(o, s, at).head.shipStatus == s && FulfilAgrees(MarkShip(o, s, at))
  {
  }

  lemma {:induction false} AppendAdds(shipments: seq<Shipment>, k: nat, lines: seq<ShipRow>, company: string)
    requires k < |shipments| && lines != []
    ensures var after := AppendRows(shipments, k, lines, company);
      && after != [] && HasRows(after)
      && (forall id :: ShippedRows(after, id) == ShippedRows(shipments, id) + RowQty(lines, id))
  {
    var after := AppendRows(shipments, k, lines, company);
    forall id ensures ShippedRows(after, id) == ShippedRows(shipments, id) + RowQty(lines, id) {
      ShippedRowsUpdate(shipments, k, after[k], id);
      RowQtyConcat(shipments[k].rows, lines, id);
    }
    assert after[k].rows != [];
  }

  lemma {:induction false} OpenAdds(shipments: seq<Shipment>, sh: Shipment)
    ensures forall id :: ShippedRows(shipments + [sh], id) == ShippedRows(shipments, id) + RowQty(sh.rows, id)
    ensures HasRows(shipments + [sh]) <==> HasRows(shipments) || sh.rows != []
  {
    var after := shipments + [sh];
    forall id ensures ShippedRows(after, id) == ShippedRows(shipments, id) + RowQty(sh.rows, id) {
      assert after[..|shipments|] == shipments;
    }
    assert after[|shipments|] == sh;
    assert forall i :: 0 <= i < |shipments| ==> after[i] == shipments[i];
  }

  /** A Ship that changes the order always leaves the header in agreement, wherever it started. */
  lemma ShipEstablishesStatus(o: Order, req: ShipRequest, newId: nat, now: nat)
    requires DistinctIds(o.items)
    requires ShipOrder(o, req, newId, now).Ok? && ShipOrder(o, req, newId, now).value != o
    ensures StatusAgrees(ShipOrder(o, req, newId, now).value)
    ensures FulfilAgrees(ShipOrder(o, req, newId, now).value)
  {
    ShipAddsLines(o, req, newId, now);
    ResolvedLinesFit(o, req.items);
    StatusSettles(o, ResolveLines(o, req.items).value, ShipOrder(o, req, newId, now).value);
  }

  lemma {:induction false} StatusSettles(o: Order, lines: seq<ShipRow>, p: Order)
    requires LinesFit(o, lines)
    requires p.items == o.items && p.head.shipStatus == ShipStatusAfter(o, lines)
    requires forall id :: ShippedRows(p.shipments, id) == ShippedRows(o.shipments, id) + RowQty(lines, id)
    requires HasRows(p.shipments) <==> HasRows(o.shipments) || lines != []
    requires p.shipments != []
    ensures StatusAgrees(p)
  {
    if lines != [] {
      ShippedLinesLeaveRemainder(o, lines, p);
    } else {
      StatusWithoutLines(o, p);
    }
  }

  lemma StatusWithoutLines(o: Order, p: Order)
    requires p.items == o.items && p.head.shipStatus == ShipStatusAfter(o, [])
    requires forall id :: ShippedRows(p.shipments, id) == ShippedRows(o.shipments, id)
    requires o.shipments != [] ==> p.shipments != []
    requires HasRows(p.shipments) <==> HasRows(o.shipments)
    ensures StatusAgrees(p)
  {
    if LegacyShipped(p) {
      LegacyIsShipped(p);
    } else {
      if LegacyShipped(o) { LegacyIsShipped(o); }
      SameRemainingSameStatus(o, [], p, []);
    }
  }

  /** Every accepted Unship leaves the header in agreement. */
  lemma UnshipEstablishesStatus(o: Order, expressNo: string)
    requires UnshipOrder(o, expressNo).Ok?
    ensures StatusAgrees(UnshipOrder(o, expressNo).value)
    ensures UnshipOrder(o, expressNo).value != o ==> FulfilAgrees(UnshipOrder(o, expressNo).value)
  {
    var p := UnshipOrder(o, expressNo).value;
    var q := match FindWaybill(o.shipments, expressNo)
             case Some(k) => o.(shipments := Without(o.shipments, k))
             case None => o;
    if p != o || FindWaybill(o.shipments, expressNo).Some? {
      StatusWithoutLines(q, p);
    }
  }

  /** A synced waybill has no rows, so it can only arm the fallback of an order that already is shipped. */
  lemma WaybillKeepsStatus(o: Order, w: Waybill, newId: nat)
    requires StatusAgrees(o)
    ensures StatusAgrees(o.(shipments := RecordWaybill(o.shipments, w, newId)))
  {
    var p := o.(shipments := RecordWaybill(o.shipments, w, newId));
    WaybillKeepsRows(o.shipments, w, newId);
    if LegacyShipped(p) {
      LegacyIsShipped(p);
    } else {
      StatusWithoutLines(o, p);
    }
  }

  lemma {:induction false} WaybillKeepsRows(shipments: seq<Shipment>, w: Waybill, newId: nat)
    ensures var after := RecordWaybill(shipments, w, newId);
      && |shipments| <= |after| <= |shipments| + 1
      && (forall i :: 0 <= i < |shipments| ==> after[i] == shipments[i].(company := after[i].company))
      && (|after| > |shipments| ==> after[|shipments|].rows == [])
      && (forall id :: ShippedRows(after, id) == ShippedRows(shipments, id))
      && (HasRows(after) <==> HasRows(shipments))
  {
    var after := RecordWaybill(shipments, w, newId);
    var found := FindWaybill(shipments, w.expressNo);
    if w.expressNo != "" {
      forall id ensures ShippedRows(after, id) == ShippedRows(shipments, id) {
        if found.Some? {
          if w.company != "" { ShippedRowsUpdate(shipments, found.value, after[found.value], id); }
        } else {
          ShippedRowsConcat(shipments, after[|shipments|..], id);
        }
      }
      assert forall i :: 0 <= i < |shipments| ==> after[i].rows == shipments[i].rows;
    }
  }

  // ---- undo ----

  /** Shipping under a fresh waybill and taking it back leaves only the marks to compare. */
  lemma FreshShipmentUndone(o: Order, req: ShipRequest, newId: nat, now: nat)
    requires FindWaybill(o.shipments, req.expressNo).None?
    requires ShipOrder(o, req, newId, now).Ok?
    ensures ResolveLines(o, req.items).Ok?
    ensures var lines := ResolveLines(o, req.items).value; var p := ShipOrder(o, req, newId, now).value;
      var s := ShipStatusAfter(o, lines);
      && (o.head.shipStatus == Shipped ==> lines == [])
      && p.head.shipStatus == s
      && UnshipOrder(p, req.expressNo)
         == Ok(Unmark(MarkShip(o, s, if s == Shipped then Some(now) else o.shippedAt)))
  {
    FreshShip(o, req, newId, now);
    var lines := ResolveLines(o, req.items).value;
    var s, sh := ShipStatusAfter(o, lines), Shipment(newId, req.company, req.expressNo, lines);
    LastWaybillUndone(MarkShip(o, s, if s == Shipped then Some(now) else o.shippedAt), sh);
  }

  lemma LastWaybillUndone(o: Order, sh: Shipment)
    requires sh.expressNo != "" && o.status != Closed && FindWaybill(o.shipments, sh.expressNo).None?
    ensures UnshipOrder(o.(shipments := o.shipments + [sh]), sh.expressNo) == Ok(Unmark(o))
  {
    LastWaybill(o.shipments, sh);
  }

  /** A fresh waybill opens a shipment at the end. */
  lemma FreshShip(o: Order, req: ShipRequest, newId: nat, now: nat)
    requires FindWaybill(o.shipments, req.expressNo).None?
    requires ShipOrder(o, req, newId, now).Ok?
    ensures ResolveLines(o, req.items).Ok? && req.expressNo != "" && o.status != Closed
    ensures var lines := ResolveLines(o, req.items).value; var s := ShipStatusAfter(o, lines);
      && (o.head.shipStatus == Shipped ==> lines == [])
      && ShipOrder(o, req, newId, now).value
         == MarkShip(o.(shipments := o.shipments + [Shipment(newId, req.company, req.expressNo, lines)]), s,
                     if s == Shipped then Some(now) else o.shippedAt)
  {
  }

  lemma {:induction false} LastWaybill(shipments: seq<Shipment>, sh: Shipment)
    requires FindWaybill(shipments, sh.expressNo).None?
    ensures var n, all := |shipments|, shipments + [sh];
      FindWaybill(all, sh.expressNo) == Some(n) && all[..n] + all[n + 1..] == shipments
  {
    assert (shipments + [sh])[..|shipments|] == shipments;
  }

  /** The status an order goes back to from `q`, where its header had another one. */
  lemma StatusAfterMark(o: Order, q: Order)
    requires StatusAgrees(o) && (o.head.shipStatus == Shipped ==> q.head.shipStatus == Shipped)
    requires q.items == o.items && q.shipments == o.shipments
    ensures ShipStatusAfter(q, []) == o.head.shipStatus
       <==> o.head.shipStatus == Shipped || q.head.shipStatus != Shipped || o.shipments == [] || HasRows(o.shipments)
  {
    if LegacyShipped(q) {
      LegacyIsShipped(q);
    } else if !LegacyShipped(o) {
      SameRemainingSameStatus(q, [], o, []);
    }
  }

  /** Unshipping a waybill that Ship just opened gives back the shipments, and gives back
      the ship status exactly when this shipment did not complete an order whose
      other shipments all lack rows: there the fallback reads the completed status. */
  lemma ShipThenUnship(o: Order, req: ShipRequest, newId: nat, now: nat)
    requires DistinctIds(o.items) && StatusAgrees(o)
    requires FindWaybill(o.shipments, req.expressNo).None?
    requires ShipOrder(o, req, newId, now).Ok?
    ensures ResolveLines(o, req.items).Ok?
    ensures var u := UnshipOrder(ShipOrder(o, req, newId, now).value, req.expressNo);
      var completes := ShipStatusAfter(o, ResolveLines(o, req.items).value) == Shipped;
      && u.Ok? && u.value.shipments == o.shipments && u.value.items == o.items
      && (u.value.head == o.head
          <==> o.head.shipStatus == Shipped || !completes || o.shipments == [] || HasRows(o.shipments))
      && (u.value.head == o.head ==> (u.value.status == o.status <==> FulfilAgrees(o)))
      && (u.value.head == o.head && FulfilAgrees(o) && o.head.shipStatus == WaitShip && o.shippedAt == None
          ==> u.value == o)
  {
    FreshShipmentUndone(o, req, newId, now);
    var s := ShipOrder(o, req, newId, now).value.head.shipStatus;
    StatusAfterMark(o, MarkShip(o, s, if s == Shipped then Some(now) else o.shippedAt));
  }

  lemma SumOfOne(it: Item, f: Item -> int)
    ensures SumItems([it], f) == f(it)
  {
    assert [it][..0] == [];
  }

  /** One unshipped row and one synced waybill, which has no rows. */
  const ROWLESS: Order :=
    Order(1, Manual, "", "", 0, WaitSend, false, false, false, Allocated, AGENT_SELF,
          NO_FULFILMENT.(allocType := SelfShip, shipStatus := WaitShip), None, 0, 0,
          [Item(1, 1, 0, "", Goods("", "", "", "", ""), 1, 0, 0, false, 0, NoSplit, 0, 0, NO_FULFILMENT)],
          [Shipment(1, "", "A", [])])

  lemma RowlessAgrees()
    ensures StatusAgrees(ROWLESS) && FulfilAgrees(ROWLESS) && DistinctIds(ROWLESS.items)
    ensures ShipStatusAfter(ROWLESS, [ShipRow(1, 1)]) == Shipped
    ensures ResolveLines(ROWLESS, []) == Ok([ShipRow(1, 1)])
  {
    var o, it := ROWLESS, ROWLESS.items[0];
    assert o.items == [it] && it in o.items && o.items[..0] == [] && o.shipments[..0] == [];
    assert ShippedRows(o.shipments, 1) == 0;
    assert Shippable(o, it) && Remaining(o, it) == 1;
    SumOfOne(it, i => Ordered(o, i));
    SumOfOne(it, i => LeftAfter(o, [], i));
    SumOfOne(it, i => LeftAfter(o, [ShipRow(1, 1)], i));
    assert RemainingLines(o, o.items[..0]) == [];
    assert RemainingLines(o, o.items) == [] + [ShipRow(1, 1)] == [ShipRow(1, 1)];
  }

  /** The excluded case happens: a synced waybill without rows, then the whole order shipped
      by hand, then that shipment taken back, and the order still says shipped. */
  lemma UnshipLeavesShipped()
    ensures var req := ShipRequest("", "B", []); var p := ShipOrder(ROWLESS, req, 2, 0);
      && ROWLESS.head.shipStatus == WaitShip && StatusAgrees(ROWLESS)
      && p.Ok? && UnshipOrder(p.value, "B").Ok?
      && UnshipOrder(p.value, "B").value.shipments == ROWLESS.shipments
      && UnshipOrder(p.value, "B").value.head.shipStatus == Shipped
  {
    RowlessAgrees();
    var req := ShipRequest("", "B", []);
    assert FindWaybill(ROWLESS.shipments[..0], "B").None?;
    assert FindWaybill(ROWLESS.shipments, "B").None?;
    var p := ShipOrder(ROWLESS, req, 2, 0).value;
    FreshShipmentUndone(ROWLESS, req, 2, 0);
    LegacyIsShipped(WithShipStatus(ROWLESS, Shipped));
    var q := MarkShip(ROWLESS, Shipped, Some(0));
    assert q.shipments == ROWLESS.shipments && !HasRows(q.shipments);
    LegacyIsShipped(q);
  }

  /** When the undo restores everything else, shipped_at stays behind in one case:
      a partly shipped order that the undone shipment had completed. */
  lemma UndoneShippedAt(o: Order, req: ShipRequest, newId: nat, now: nat)
    requires DistinctIds(o.items) && StatusAgrees(o)
    requires FindWaybill(o.shipments, req.expressNo).None?
    requires ShipOrder(o, req, newId, now).Ok?
    ensures ResolveLines(o, req.items).Ok?
    ensures var u := UnshipOrder(ShipOrder(o, req, newId, now).value, req.expressNo);
      var completes := ShipStatusAfter(o, ResolveLines(o, req.items).value) == Shipped;
      u.Ok? && u.value.head == o.head && o.shippedAt != Some(now) ==>
        (u.value.shippedAt == o.shippedAt <==>
           if o.head.shipStatus == WaitShip then o.shippedAt == None else !completes)
  {
    ShipThenUnship(o, req, newId, now);
    var p := ShipOrder(o, req, newId, now).value;
    UnshipEstablishesStatus(p, req.expressNo);
  }
}
