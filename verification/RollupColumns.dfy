/** The columns of a roll-up, one by one, told on the rows of the order. */
module RollupColumns {
  import opened OrderModel
  import opened Rollup

  /** A root whose goods are to be fulfilled ... */
  predicate Live(it: Item) {
    it.split == NoSplit && it.parent == 0 && it.quantity > 0 && !it.lineClosed
  }

  /** ... and are allocated. */
  predicate Allotted(it: Item) {
    Live(it) && it.ful.allocType != Unallocated
  }

  lemma LiveIs(it: Item)
    ensures FulfillableRoot(it) <==> Live(it)
    ensures AllocatedRoot(it) <==> Allotted(it)
  {
  }

  /** There is a summary exactly where there is something to fulfil. */
  lemma SummaryIfLive(o: Order)
    ensures RollupOf(o).Some? <==> exists it :: it in o.items && Live(it)
  {
    if it :| it in o.items && FulfillableRoot(it) { LiveIs(it); }
    if it :| it in o.items && Live(it) { LiveIs(it); }
  }

  // ---- the stage and the ship status ----

  ghost predicate AllShipped(o: Order) {
    forall it :: it in o.items && Live(it) ==> it.ful.allocType != Unallocated && it.ful.shipStatus == Shipped
  }

  ghost predicate SomeMoved(o: Order) {
    exists it :: it in o.items && Allotted(it) && it.ful.shipStatus in {Shipped, PartialShipped}
  }

  ghost predicate AllBought(o: Order) {
    forall it :: it in o.items && Allotted(it) ==> it.ful.allocType == PurchaseThenShip
  }

  ghost predicate SomeAllotted(o: Order) {
    exists it :: it in o.items && Allotted(it)
  }

  /** The stage and the ship status of the header: waiting for allocation while no row is allocated, shipped when
      every row is, partly shipped as soon as one has moved, and until then purchasing if every allocated row is
      bought first, else allocated. */
  predicate StageOfRows(status: OrderStatus, ship: ShipStatus, some: bool, moved: bool, all: bool, bought: bool) {
    && (status == PendingAlloc <==> !some) && (status == ShippedOut <==> some && all)
    && (status == PartialShip <==> some && moved && !all)
    && (status == Purchasing <==> some && !moved && bought)
    && (status == Allocated <==> some && !moved && !bought)
    && (ship == Shipped <==> some && all) && (ship == PartialShipped <==> some && moved && !all)
    && (ship == WaitShip <==> !some || !moved)
  }

  lemma StageColumns(o: Order)
    requires RollupOf(o).Some?
    ensures var s := RollupOf(o).value;
      StageOfRows(s.status, s.head.shipStatus, SomeAllotted(o), SomeMoved(o), AllShipped(o), AllBought(o))
  {
    assert SomeAllotted(o) <==> AnyAllocated(o) by { AllottedIs(o); }
    if AnyAllocated(o) {
      ShipColumn(o);
      BoughtColumn(o);
      ShipIsOneOf(o);
      if AllShipped(o) { var it :| it in o.items && Allotted(it); }
    }
  }

  lemma AllottedIs(o: Order)
    ensures SomeAllotted(o) <==> AnyAllocated(o)
  {
    if it :| it in o.items && Allotted(it) { LiveIs(it); }
    if it :| it in o.items && AllocatedRoot(it) { LiveIs(it); }
  }

  lemma ShipColumn(o: Order)
    requires AnyAllocated(o) && RollupOf(o).Some?
    ensures RollupShip(o) == Shipped <==> AllShipped(o)
    ensures RollupShip(o) == WaitShip <==> !SomeMoved(o)
  {
    HeaderShipMeaning(o);
    if SomeMoved(o) {
      var it :| it in o.items && Allotted(it) && it.ful.shipStatus in {Shipped, PartialShipped};
      assert AllocatedRoot(it);
    }
  }

  lemma ShipIsOneOf(o: Order)
    ensures RollupShip(o) in {WaitShip, PartialShipped, Shipped}
  {
  }

  lemma BoughtColumn(o: Order)
    requires AnyAllocated(o)
    ensures Collect(o.items, TypeOf) == {PurchaseThenShip} <==> AllBought(o)
  {
    OnlyTells(o.items, TypeOf, PurchaseThenShip, Mixed);
    TypesTell(o.items, PurchaseThenShip);
    OnlyIs(Collect(o.items, TypeOf), Mixed);
    forall it | it in o.items ensures AllocatedRoot(it) <==> Allotted(it) { LiveIs(it); }
  }

  // ---- the path ----

  /** The path: the rows' only one, or a mixture. */
  lemma PathColumn(o: Order, a: AllocType)
    requires RollupOf(o).Some?
    ensures !SomeAllotted(o) ==> RollupOf(o).value.head.allocType == Unallocated
    ensures SomeAllotted(o) && a != Mixed ==>
      (RollupOf(o).value.head.allocType == a <==>
        forall it :: it in o.items && Allotted(it) ==> it.ful.allocType == a)
  {
    AllottedIs(o);
    forall it | it in o.items ensures AllocatedRoot(it) <==> Allotted(it) { LiveIs(it); }
    if AnyAllocated(o) && a != Mixed {
      if a != Unallocated {
        HeaderTypeIs(o, a);
      } else {
        var it :| it in o.items && AllocatedRoot(it);
        OnlyTells(o.items, TypeOf, Unallocated, Mixed);
        TypesTell(o.items, Unallocated);
        RollupType(o);
      }
    }
  }

  // ---- columns of the first row that has one ----

  /** Row `i` is the first allocated one with a supplier; and likewise for a factory and a mode. */
  predicate FirstSupplied(items: seq<Item>, i: nat) {
    i < |items| && Allotted(items[i]) && items[i].ful.supplierId > 0
    && forall j :: 0 <= j < i && Allotted(items[j]) ==> items[j].ful.supplierId == 0
  }

  predicate FirstMade(items: seq<Item>, i: nat) {
    i < |items| && Allotted(items[i]) && items[i].ful.factoryId != ""
    && forall j :: 0 <= j < i && Allotted(items[j]) ==> items[j].ful.factoryId == ""
  }

  predicate FirstModed(items: seq<Item>, i: nat) {
    i < |items| && Allotted(items[i]) && items[i].ful.mode != NoMode
    && forall j :: 0 <= j < i && Allotted(items[j]) ==> items[j].ful.mode == NoMode
  }

  lemma {:induction false} FirstIs(items: seq<Item>, p: Item -> bool, i: nat)
    requires i < |items| && Allotted(items[i]) && p(items[i])
    requires forall j :: 0 <= j < i && Allotted(items[j]) ==> !p(items[j])
    ensures FirstRow(items, p) == Some(items[i])
  {
    FirstRowAt(items, p);
    assert items[i] in items && AllocatedRoot(items[i]);
    var k :| 0 <= k < |items| && FirstAt(items, p, k) && items[k] == FirstRow(items, p).value;
    assert k >= i by { assert Allotted(items[k]); }
  }

  lemma {:induction false} NoneIs(items: seq<Item>, p: Item -> bool)
    requires forall it :: it in items && Allotted(it) ==> !p(it)
    ensures FirstRow(items, p).None?
  {
    FirstRowAt(items, p);
  }

  /** Supplier, factory and mode are those of the first allocated row that has one, and empty if none has. */
  lemma FirstRowColumns(o: Order, i: nat)
    requires RollupOf(o).Some?
    ensures var head := RollupOf(o).value.head;
      && (FirstSupplied(o.items, i) ==>
          head.supplierId == o.items[i].ful.supplierId && head.supplierName == o.items[i].ful.supplierName)
      && (FirstMade(o.items, i) ==>
          head.factoryId == o.items[i].ful.factoryId && head.factoryName == o.items[i].ful.factoryName)
      && (FirstModed(o.items, i) ==> head.mode == o.items[i].ful.mode)
  {
    if FirstSupplied(o.items, i) { FirstIs(o.items, HasSupplier, i); }
    if FirstMade(o.items, i) { FirstIs(o.items, HasFactory, i); }
    if FirstModed(o.items, i) { FirstIs(o.items, HasMode, i); }
    if i < |o.items| && Allotted(o.items[i]) { assert o.items[i] in o.items && AllocatedRoot(o.items[i]); }
  }

  lemma NoFirstRowColumns(o: Order)
    requires RollupOf(o).Some?
    ensures var head := RollupOf(o).value.head;
      && ((forall it :: it in o.items && Allotted(it) ==> it.ful.supplierId == 0) ==>
          head.supplierId == 0 && head.supplierName == "")
      && ((forall it :: it in o.items && Allotted(it) ==> it.ful.factoryId == "") ==>
          head.factoryId == "" && head.factoryName == "")
      && ((forall it :: it in o.items && Allotted(it) ==> it.ful.mode == NoMode) ==> head.mode == NoMode)
  {
    if forall it :: it in o.items && Allotted(it) ==> it.ful.supplierId == 0 { NoneIs(o.items, HasSupplier); }
    if forall it :: it in o.items && Allotted(it) ==> it.ful.factoryId == "" { NoneIs(o.items, HasFactory); }
    if forall it :: it in o.items && Allotted(it) ==> it.ful.mode == NoMode { NoneIs(o.items, HasMode); }
  }

  // ---- numbers, time and agent ----

  /** The purchase order of a row: its own, or the header's for a dropship row that has none. */
  predicate OnOrder(o: Order, it: Item, no: string) {
    Allotted(it) && no != ""
    && (it.ful.poNo == no || (it.ful.poNo == "" && it.ful.allocType == Dropship && o.head.poNo == no))
  }

  predicate HasSelfNo(it: Item, no: string) {
    Allotted(it) && no != "" && it.ful.selfNo == no
  }

  lemma PoOfIs(o: Order, it: Item, no: string)
    ensures PoIn(o.head.poNo)(it) == Some(no) <==> OnOrder(o, it, no)
    ensures SelfOf(it) == Some(no) <==> HasSelfNo(it, no)
  {
    LiveIs(it);
  }

  lemma {:induction false} OnlyNumber(items: seq<Item>, f: Item -> Option<string>, no: string)
    requires no != ""
    ensures Only(Collect(items, f), "") == no
       <==> (exists it :: it in items && f(it) == Some(no))
            && forall it :: it in items && f(it).Some? ==> f(it) == Some(no)
  {
    OnlyTells(items, f, no, "");
  }

  /** The header has a purchase order exactly if the rows are on that one and no other ... */
  lemma PoColumn(o: Order, no: string)
    requires RollupOf(o).Some? && no != ""
    ensures RollupOf(o).value.head.poNo == no
       <==> (exists it :: it in o.items && OnOrder(o, it, no))
            && forall it, other :: it in o.items && OnOrder(o, it, other) ==> other == no
  {
    var f := PoIn(o.head.poNo);
    AllottedIs(o);
    OnlyNumber(o.items, f, no);
    OnOrders(o, no);
    if AnyAllocated(o) {
      AllocationColumns(o);
      CollectCongruent(o.items, f, it => PoOf(o.head.poNo, it));
    }
  }

  lemma OnOrders(o: Order, no: string)
    requires no != ""
    ensures var f := PoIn(o.head.poNo);
      (exists it :: it in o.items && f(it) == Some(no))
        && (forall it :: it in o.items && f(it).Some? ==> f(it) == Some(no))
      <==> (exists it :: it in o.items && OnOrder(o, it, no))
           && forall it, other :: it in o.items && OnOrder(o, it, other) ==> other == no
  {
    var f := PoIn(o.head.poNo);
    forall it, v | it in o.items ensures f(it) == Some(v) <==> OnOrder(o, it, v) { PoOfIs(o, it, v); }
    if forall it, other :: it in o.items && OnOrder(o, it, other) ==> other == no {
      forall it | it in o.items && f(it).Some? ensures f(it) == Some(no) {
        assert OnOrder(o, it, f(it).value);
      }
    }
  }

  /** ... and so with self numbers. */
  lemma SelfColumn(o: Order, no: string)
    requires RollupOf(o).Some? && no != ""
    ensures RollupOf(o).value.head.selfNo == no
       <==> (exists it :: it in o.items && HasSelfNo(it, no))
            && forall it, other :: it in o.items && HasSelfNo(it, other) ==> other == no
  {
    AllottedIs(o);
    OnlyNumber(o.items, SelfOf, no);
    WithSelfNos(o, no);
    if AnyAllocated(o) { AllocationColumns(o); }
  }

  lemma WithSelfNos(o: Order, no: string)
    requires no != ""
    ensures (exists it :: it in o.items && SelfOf(it) == Some(no))
         && (forall it :: it in o.items && SelfOf(it).Some? ==> SelfOf(it) == Some(no))
      <==> (exists it :: it in o.items && HasSelfNo(it, no))
           && forall it, other :: it in o.items && HasSelfNo(it, other) ==> other == no
  {
    forall it, v | it in o.items ensures SelfOf(it) == Some(v) <==> HasSelfNo(it, v) { PoOfIs(o, it, v); }
    if forall it, other :: it in o.items && HasSelfNo(it, other) ==> other == no {
      forall it | it in o.items && SelfOf(it).Some? ensures SelfOf(it) == Some(no) {
        assert HasSelfNo(it, SelfOf(it).value);
      }
    }
  }

  /** The latest time at which a row was allocated. */
  lemma TimeColumn(o: Order)
    requires RollupOf(o).Some?
    ensures var at := RollupOf(o).value.head.allocatedAt;
      && (at.Some? ==> exists it :: it in o.items && Allotted(it) && it.ful.allocatedAt == at)
      && forall it :: it in o.items && Allotted(it) && it.ful.allocatedAt.Some? ==>
           at.Some? && it.ful.allocatedAt.value <= at.value
  {
    AllottedIs(o);
    LatestIs(o.items);
  }

  lemma {:induction false} LatestIs(items: seq<Item>)
    ensures var at := LatestAlloc(items);
      && (at.Some? ==> exists it :: it in items && Allotted(it) && it.ful.allocatedAt == at)
      && forall it :: it in items && Allotted(it) && it.ful.allocatedAt.Some? ==>
           at.Some? && it.ful.allocatedAt.value <= at.value
  {
    if items != [] {
      var n := |items| - 1;
      LatestIs(items[..n]);
      assert items == items[..n] + [items[n]];
      LiveIs(items[n]);
    }
  }

  /** The factory's agent exactly if a row is pushed to a factory. */
  lemma AgentColumn(o: Order)
    requires RollupOf(o).Some?
    ensures RollupOf(o).value.agentType
         == if exists it :: it in o.items && Allotted(it) && it.ful.allocType == Dropship && it.ful.mode == KdzsFactory
            then AGENT_FACTORY else AGENT_SELF
  {
    AllottedIs(o);
    if it :| it in o.items && Allotted(it) && it.ful.allocType == Dropship && it.ful.mode == KdzsFactory {
      assert FactoryRow(it);
    }
    if it :| it in o.items && FactoryRow(it) { LiveIs(it); }
  }
}
