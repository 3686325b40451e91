/** The rows OrderCore keeps for one sales order: item rows, shipments with
    per-row quantities, and the fulfilment fields that exist both on a row and
    on the order header. Ids are positive; 0 and "" mean "not set". Text is
    already trimmed. Money is in cents and time is an abstract instant. */
module OrderModel {

  datatype Option<+T> = None | Some(value: T)

  datatype Result<+T, +E> = Ok(value: T) | Err(error: E)

  /** Ship status of a header or of a row; `NoShip` is the empty column. */
  datatype ShipStatus = NoShip | WaitShip | PartialShipped | Shipped

  datatype OrderStatus =
    PendingPayment | PendingAlloc | Allocated | Purchasing | PartialShip | ShippedOut | Completed | Closed

  datatype AllocType = Unallocated | SelfShip | Dropship | PurchaseThenShip | ChannelShip | Mixed

  datatype DropshipMode = NoMode | KdzsFactory | OsmsSupplier

  datatype Channel = Kdzs | WxMall | StoreFront | Xianyu | Manual

  datatype PlatformStatus = WaitAudit | WaitSend | OtherPlatform(text: string)

  datatype SplitKind = NoSplit | Partial | Full

  /** The allocation columns shared by rows and headers. */
  datatype Fulfilment = Fulfilment(
    allocType: AllocType,
    mode: DropshipMode,
    supplierId: nat,
    supplierName: string,
    factoryId: string,
    factoryName: string,
    poNo: string,
    selfNo: string,
    shipStatus: ShipStatus,
    allocatedAt: Option<nat>)

  /** A row after ClearOrderItemsFulfillment. */
  const NO_FULFILMENT := Fulfilment(Unallocated, NoMode, 0, "", "", "", "", "", NoShip, None)

  /** Platform identity of a row. */
  datatype Goods = Goods(oid: string, itemId: string, skuId: string, name: string, specs: string)

  datatype Item = Item(
    id: nat,
    lineNo: int,
    skuId: nat,
    skuCode: string,
    goods: Goods,
    quantity: int,
    price: int,
    total: int,
    lineClosed: bool, // refunded or cancelled, by the after-sale or line status text
    parent: nat,
    split: SplitKind,
    planLine: nat,
    packageId: nat,
    ful: Fulfilment)

  datatype ShipRow = ShipRow(itemId: nat, qty: int)

  datatype Shipment = Shipment(id: nat, company: string, expressNo: string, rows: seq<ShipRow>)

  datatype Order = Order(
    id: nat,
    channel: Channel,
    tid: string,
    sysTid: string,
    splitFrom: nat,
    platformStatus: PlatformStatus,
    blocked: bool, // the e-commerce or after-sale status forbids fulfilment
    locked: bool,
    skipAutoAlloc: bool,
    status: OrderStatus,
    agentType: nat,
    head: Fulfilment,
    shippedAt: Option<nat>,
    pay: int,
    total: int,
    items: seq<Item>,
    shipments: seq<Shipment>)

  const AGENT_SELF: nat := 1
  const AGENT_FACTORY: nat := 2

  /** Split child rows carry a split kind. */
  predicate IsSplitChild(it: Item) {
    it.split != NoSplit
  }

  /** Root rows: no split kind and no parent. */
  predicate IsRoot(it: Item) {
    it.split == NoSplit && it.parent == 0
  }

  /** A row that is refunded, cancelled or empty takes no part in fulfilment. */
  predicate Excluded(it: Item) {
    it.quantity <= 0 || it.lineClosed
  }

  predicate FulfillableRoot(it: Item) {
    IsRoot(it) && !Excluded(it)
  }

  /** Primary keys are positive and unique within the table. */
  ghost predicate DistinctIds(items: seq<Item>) {
    && (forall i :: 0 <= i < |items| ==> items[i].id != 0)
    && (forall i, j :: 0 <= i < j < |items| ==> items[i].id != items[j].id)
  }

  ghost predicate NoRepeats<T>(s: seq<T>) {
    forall i, j :: 0 <= i < j < |s| ==> s[i] != s[j]
  }

  /** Some root carries an allocation of its own. */
  predicate HasAllocatedRoot(items: seq<Item>) {
    exists i :: 0 <= i < |items| && IsRoot(items[i]) && items[i].ful.allocType != Unallocated
  }

  ghost predicate DistinctShipmentIds(shipments: seq<Shipment>) {
    forall i, j :: 0 <= i < j < |shipments| ==> shipments[i].id != shipments[j].id
  }

  /** Goods have left, some or all. */
  predicate ShipMoved(s: ShipStatus) {
    s == Shipped || s == PartialShipped
  }

  predicate HasAlloc(f: Fulfilment) {
    f.allocType != Unallocated
  }

  /** Allocation type, mode, supplier, purchase order and self number. */
  predicate SameAllocation(a: Fulfilment, b: Fulfilment) {
    && a.allocType == b.allocType && a.mode == b.mode
    && a.supplierId == b.supplierId && a.supplierName == b.supplierName
    && a.poNo == b.poNo && a.selfNo == b.selfNo
  }

  function FirstNonEmpty(a: string, b: string): string {
    if a != "" then a else b
  }

  function CoalesceShip(s: ShipStatus): ShipStatus {
    if s == NoShip then WaitShip else s
  }

  /** Position of the row with the given id, if any. */
  function FindItem(items: seq<Item>, id: nat): (r: Option<nat>)
    ensures r.Some? ==> r.value < |items| && items[r.value].id == id
    ensures r.None? ==> forall i :: 0 <= i < |items| ==> items[i].id != id
  {
    if items == [] then None
    else
      var n := |items| - 1;
      var before := FindItem(items[..n], id);
      if before.Some? then before
      else if items[n].id == id then Some(n)
      else None
  }

  lemma {:induction false} FindItemAt(items: seq<Item>, i: nat)
    requires DistinctIds(items) && i < |items|
    ensures FindItem(items, items[i].id) == Some(i)
  {
    assert FindItem(items, items[i].id).Some?;
  }
}
