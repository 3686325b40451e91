/** The order header as a summary of its item rows. The summary reads one thing
    back from the header it writes: the purchase order of dropship rows that have
    none of their own. */
module Rollup {
  import opened OrderModel

  /** The header columns a roll-up writes. */
  datatype Summary = Summary(head: Fulfilment, status: OrderStatus, agentType: nat)

  const NOTHING_ALLOCATED :=
    Summary(Fulfilment(Unallocated, NoMode, 0, "", "", "", "", "", WaitShip, None), PendingAlloc, AGENT_SELF)

  predicate AllocatedRoot(it: Item) {
    FulfillableRoot(it) && it.ful.allocType != Unallocated
  }

  /** An allocated root whose goods have left. */
  predicate MovedRoot(it: Item) {
    AllocatedRoot(it) && ShipMoved(it.ful.shipStatus)
  }

  // ---- what the rows say ----

  /** The values `f` finds in the rows. */
  function Collect<T>(items: seq<Item>, f: Item -> Option<T>): set<T> {
    if items == [] then {}
    else
      var v := f(items[|items| - 1]);
      Collect(items[..|items| - 1], f) + if v.Some? then {v.value} else {}
  }

  function TypeOf(it: Item): Option<AllocType> {
    if AllocatedRoot(it) then Some(it.ful.allocType) else None
  }

  function ShipOf(it: Item): Option<ShipStatus> {
    if AllocatedRoot(it) then Some(CoalesceShip(it.ful.shipStatus)) else None
  }

  function NonEmpty(s: string): Option<string> {
    if s != "" then Some(s) else None
  }

  /** A row's purchase order; a dropship row without one falls back on the header's. */
  function PoOf(headPo: string, it: Item): Option<string> {
    if !AllocatedRoot(it) then None
    else if it.ful.poNo != "" then Some(it.ful.poNo)
    else if it.ful.allocType == Dropship then NonEmpty(headPo)
    else None
  }

  function OwnPo(it: Item): Option<string> {
    if AllocatedRoot(it) then NonEmpty(it.ful.poNo) else None
  }

  function SelfOf(it: Item): Option<string> {
    if AllocatedRoot(it) then NonEmpty(it.ful.selfNo) else None
  }

  function PoNos(o: Order): set<string> {
    Collect(o.items, it => PoOf(o.head.poNo, it))
  }

  function OwnPos(o: Order): set<string> {
    Collect(o.items, OwnPo)
  }

  /** The first allocated root that satisfies `p`. */
  function FirstRow(items: seq<Item>, p: Item -> bool): Option<Item> {
    if items == [] then None
    else
      var n := |items| - 1;
      var before := FirstRow(items[..n], p);
      if before.Some? then before
      else if AllocatedRoot(items[n]) && p(items[n]) then Some(items[n])
      else None
  }

  function HasSupplier(it: Item): bool { it.ful.supplierId > 0 }

  function HasFactory(it: Item): bool { it.ful.factoryId != "" }

  function HasMode(it: Item): bool { it.ful.mode != NoMode }

  function Later(a: Option<nat>, b: Option<nat>): Option<nat> {
    if b.Some? && (a.None? || b.value > a.value) then b else a
  }

  function LatestAlloc(items: seq<Item>): Option<nat> {
    if items == [] then None
    else
      var n := |items| - 1;
      var before := LatestAlloc(items[..n]);
      if AllocatedRoot(items[n]) then Later(before, items[n].ful.allocatedAt) else before
  }

  predicate FactoryRow(it: Item) {
    AllocatedRoot(it) && it.ful.allocType == Dropship && it.ful.mode == KdzsFactory
  }

  // ---- the summary ----

  /** The only element of a set, or a default. */
  ghost function Only<T>(s: set<T>, default: T): T {
    if |s| == 1 then var x :| x in s; x else default
  }

  lemma OnlyIs<T>(s: set<T>, default: T)
    ensures forall x :: s == {x} ==> Only(s, default) == x
    ensures |s| == 1 ==> s == {Only(s, default)}
  {
    if |s| == 1 {
      var x :| x in s;
      assert |s - {x}| == 0;
      assert s == {x};
    }
  }

  /** Shipped only if everything is allocated and shipped; partial as soon as something has moved. */
  function HeaderShip(ships: set<ShipStatus>, allAllocated: bool): ShipStatus {
    if Shipped in ships && WaitShip !in ships && PartialShipped !in ships && allAllocated then Shipped
    else if Shipped in ships || PartialShipped in ships then PartialShipped
    else WaitShip
  }

  function HeaderStatus(types: set<AllocType>, ship: ShipStatus): OrderStatus {
    match ship
    case Shipped => ShippedOut
    case PartialShipped => PartialShip
    case _ => if types == {PurchaseThenShip} then Purchasing else Allocated
  }

  ghost predicate AnyRoot(o: Order) {
    exists it :: it in o.items && FulfillableRoot(it)
  }

  ghost predicate AnyAllocated(o: Order) {
    exists it :: it in o.items && AllocatedRoot(it)
  }

  ghost predicate AllAllocated(o: Order) {
    forall it :: it in o.items && FulfillableRoot(it) ==> it.ful.allocType != Unallocated
  }

  ghost predicate AnyFactory(o: Order) {
    exists it :: it in o.items && FactoryRow(it)
  }

  ghost function RollupShip(o: Order): ShipStatus {
    HeaderShip(Collect(o.items, ShipOf), AllAllocated(o))
  }

  ghost function RollupOf(o: Order): Option<Summary> {
    if !AnyRoot(o) then None
    else if !AnyAllocated(o) then Some(NOTHING_ALLOCATED)
    else
      var types := Collect(o.items, TypeOf);
      var supplier, factory := FirstRow(o.items, HasSupplier), FirstRow(o.items, HasFactory);
      var mode := FirstRow(o.items, HasMode);
      var head := Fulfilment(
        Only(types, Mixed),
        if mode.Some? then mode.value.ful.mode else NoMode,
        if supplier.Some? then supplier.value.ful.supplierId else 0,
        if supplier.Some? then supplier.value.ful.supplierName else "",
        if factory.Some? then factory.value.ful.factoryId else "",
        if factory.Some? then factory.value.ful.factoryName else "",
        Only(PoNos(o), ""),
        Only(Collect(o.items, SelfOf), ""),
        RollupShip(o),
        LatestAlloc(o.items));
      Some(Summary(head, HeaderStatus(types, RollupShip(o)), if AnyFactory(o) then AGENT_FACTORY else AGENT_SELF))
  }

  /** Write the summary back. */
  ghost function RolledUp(o: Order): Order {
    match RollupOf(o)
    case None => o
    case Some(s) => o.(head := s.head, status := s.status, agentType := s.agentType)
  }

  // ---- membership ----

  lemma {:induction false} CollectIs<T>(items: seq<Item>, f: Item -> Option<T>)
    ensures forall v :: v in Collect(items, f) <==> exists it :: it in items && f(it) == Some(v)
  {
    forall v | v in Collect(items, f) ensures exists it :: it in items && f(it) == Some(v) {
      var it := CollectFound(items, f, v);
    }
    forall it | it in items && f(it).Some? ensures f(it).value in Collect(items, f) {
      CollectHas(items, f, it);
    }
  }

  /** The order of the rows does not matter for what is collected. */
  lemma {:induction false} CollectSameRows<T>(a: seq<Item>, b: seq<Item>, f: Item -> Option<T>)
    requires multiset(a) == multiset(b)
    ensures Collect(a, f) == Collect(b, f)
  {
    forall it ensures it in a <==> it in b {
      assert it in a <==> it in multiset(a);
      assert it in b <==> it in multiset(b);
    }
    CollectSubset(a, b, f);
    CollectSubset(b, a, f);
  }

  lemma {:induction false} CollectFound<T>(items: seq<Item>, f: Item -> Option<T>, v: T) returns (it: Item)
    requires v in Collect(items, f)
    ensures it in items && f(it) == Some(v)
  {
    var n := |items| - 1;
    if f(items[n]) == Some(v) {
      it := items[n];
    } else {
      it := CollectFound(items[..n], f, v);
    }
  }

  lemma {:induction false} CollectHas<T>(items: seq<Item>, f: Item -> Option<T>, it: Item)
    requires it in items && f(it).Some?
    ensures f(it).value in Collect(items, f)
  {
    var n := |items| - 1;
    if it != items[n] {
      assert it in items[..n];
      CollectHas(items[..n], f, it);
    }
  }

  lemma {:induction false} CollectSubset<T>(a: seq<Item>, b: seq<Item>, f: Item -> Option<T>)
    requires forall it :: it in a ==> it in b
    ensures Collect(a, f) <= Collect(b, f)
  {
    forall v | v in Collect(a, f) ensures v in Collect(b, f) {
      var it := CollectFound(a, f, v);
      CollectHas(b, f, it);
    }
  }

  // ---- the feedback through the header settles ----

  lemma {:induction false} CollectCongruent<T>(items: seq<Item>, f: Item -> Option<T>, g: Item -> Option<T>)
    requires forall it :: it in items ==> f(it) == g(it)
    ensures Collect(items, f) == Collect(items, g)
  {
    if items != [] {
      CollectCongruent(items[..|items| - 1], f, g);
    }
  }

  /** Some dropship row has no purchase order of its own. */
  ghost predicate Unbound(o: Order) {
    exists it :: it in o.items && AllocatedRoot(it) && it.ful.allocType == Dropship && it.ful.poNo == ""
  }

  /** What the fallback adds to the rows' own purchase orders. */
  lemma PoNosAre(o: Order)
    ensures PoNos(o) == OwnPos(o) + if Unbound(o) && o.head.poNo != "" then {o.head.poNo} else {}
  {
    var f := it => PoOf(o.head.poNo, it);
    CollectIs(o.items, f);
    CollectIs(o.items, OwnPo);
    forall v ensures v in PoNos(o) <==> v in OwnPos(o) || (Unbound(o) && o.head.poNo != "" && v == o.head.poNo) {
      if v in PoNos(o) {
        var it :| it in o.items && f(it) == Some(v);
        if it.ful.poNo != "" { assert OwnPo(it) == Some(v); }
      }
      if v in OwnPos(o) {
        var it :| it in o.items && OwnPo(it) == Some(v);
        assert f(it) == Some(v);
      }
      if Unbound(o) && o.head.poNo != "" && v == o.head.poNo {
        var it :| it in o.items && AllocatedRoot(it) && it.ful.allocType == Dropship && it.ful.poNo == "";
        assert f(it) == Some(v);
      }
    }
  }

  /** Everything in the summary except the purchase order is read from the rows alone. */
  lemma OnlyPoFeedsBack(o: Order, p: Order)
    requires o.items == p.items
    ensures RollupOf(o).Some? <==> RollupOf(p).Some?
    ensures RollupOf(o).Some? ==>
      RollupOf(o).value == RollupOf(p).value.(head := RollupOf(p).value.head.(poNo := RollupOf(o).value.head.poNo))
  {
  }

  ghost function NextPo(o: Order): string {
    if AnyAllocated(o) then Only(PoNos(o), "") else ""
  }

  /** The purchase order the header ends up with: the rows' only one, or, while no row
      has one, the header's own. */
  ghost function SettledPo(o: Order): string {
    if |OwnPos(o)| == 1 then Only(OwnPos(o), "")
    else if OwnPos(o) == {} && Unbound(o) then o.head.poNo
    else ""
  }

  /** A header whose one purchase order disagrees with the rows' one, while a row still leans on it. */
  ghost predicate Contested(o: Order) {
    Unbound(o) && o.head.poNo != "" && |OwnPos(o)| == 1 && OwnPos(o) != {o.head.poNo}
  }

  lemma TwoElements<T>(s: set<T>, a: T, b: T)
    requires a in s && b in s && a != b
    ensures |s| != 1
  {
    OnlyIs(s, a);
  }

  lemma AnotherElement<T>(s: set<T>, a: T) returns (p: T)
    requires s != {} && s != {a}
    ensures p in s && p != a
  {
    p :| p in s;
    if p == a {
      assert s == {a} + (s - {a});
      p :| p in s - {a};
    }
  }

  /** One roll-up of the purchase order. */
  lemma NextPoIs(o: Order)
    requires AnyAllocated(o)
    ensures NextPo(o) == if Contested(o) then "" else SettledPo(o)
  {
    PoNosAre(o);
    var own, all := OwnPos(o), PoNos(o);
    OnlyIs(own, "");
    OnlyIs(all, "");
    if Unbound(o) && o.head.poNo != "" {
      if own == {} {
        assert all == {o.head.poNo};
      } else if own == {o.head.poNo} {
        assert all == own;
      } else {
        var p := AnotherElement(own, o.head.poNo);
        TwoElements(all, p, o.head.poNo);
      }
    } else {
      assert all == own;
      if own == {} { assert |own| == 0; }
    }
  }

  /** Rolling up is stable once the purchase order is. */
  lemma StableWhenPoIs(o: Order)
    ensures var q := RolledUp(o);
      && OwnPos(q) == OwnPos(o) && (Unbound(q) <==> Unbound(o)) && (AnyAllocated(q) <==> AnyAllocated(o))
      && (AnyRoot(o) ==> q.head.poNo == NextPo(o))
      && (RolledUp(q) == q <==> AnyRoot(o) ==> NextPo(q) == q.head.poNo)
  {
    var q := RolledUp(o);
    OnlyPoFeedsBack(o, q);
    if AnyAllocated(o) { RootWhenAllocated(o); }
  }

  lemma RootWhenAllocated(o: Order)
    requires AnyAllocated(o)
    ensures AnyRoot(o)
  {
    var it :| it in o.items && AllocatedRoot(it);
    assert FulfillableRoot(it);
  }

  lemma OwnPoNotEmpty(o: Order)
    ensures "" !in OwnPos(o)
  {
    CollectIs(o.items, OwnPo);
  }

  lemma ContestedIsAllocated(o: Order)
    requires Contested(o)
    ensures AnyAllocated(o) && AnyRoot(o)
  {
    var it :| it in o.items && AllocatedRoot(it) && it.ful.allocType == Dropship && it.ful.poNo == "";
    RootWhenAllocated(o);
  }

  /** One roll-up settles the header, except exactly when its purchase order is contested;
      then the first one clears it and the second one takes the rows'. */
  lemma RollupSettles(o: Order)
    ensures RolledUp(RolledUp(o)) == RolledUp(o) <==> !Contested(o)
    ensures RolledUp(RolledUp(RolledUp(o))) == RolledUp(RolledUp(o))
  {
    SettlesOnce(o);
    SettlesTwice(o);
  }

  lemma SettlesOnce(o: Order)
    ensures RolledUp(RolledUp(o)) == RolledUp(o) <==> !Contested(o)
  {
    var q := RolledUp(o);
    StableWhenPoIs(o);
    OwnPoNotEmpty(o);
    OnlyIs(OwnPos(o), "");
    if Contested(o) { ContestedIsAllocated(o); }
    if AnyAllocated(o) {
      NextPoIs(o);
      NextPoIs(q);
    }
  }

  lemma SettlesTwice(o: Order)
    ensures RolledUp(RolledUp(RolledUp(o))) == RolledUp(RolledUp(o))
  {
    var q := RolledUp(o);
    SettlesOnce(q);
    StableWhenPoIs(o);
    if Contested(q) {
      ContestedIsAllocated(q);
      NextPoIs(o);
      OnlyIs(OwnPos(o), "");
    }
  }

  /** Two dropship rows, one without a purchase order. */
  const DROPSHIP_ROW :=
    Item(1, 1, 0, "", Goods("", "", "", "", ""), 1, 0, 0, false, 0, NoSplit, 0, 0,
         NOTHING_ALLOCATED.head.(allocType := Dropship))
  const BOUND_ROW := DROPSHIP_ROW.(id := 2, ful := DROPSHIP_ROW.ful.(poNo := "A"))
  const CONTESTED :=
    Order(1, Manual, "", "", 0, WaitSend, false, false, false, Allocated, AGENT_SELF,
          DROPSHIP_ROW.ful.(poNo := "B"), None, 0, 0, [DROPSHIP_ROW, BOUND_ROW], [])

  /** The contested case with a concrete order: the purchase order goes first and is replaced second. */
  lemma ContestedTakesTwo()
    ensures Contested(CONTESTED) && CONTESTED.head.poNo == "B"
    ensures RolledUp(CONTESTED).head.poNo == "" && RolledUp(RolledUp(CONTESTED)).head.poNo == "A"
  {
    var o := CONTESTED;
    assert o.items[0] in o.items && AllocatedRoot(o.items[0]);
    assert OwnPos(o) == {"A"} by {
      assert o.items[..1] == [DROPSHIP_ROW] && o.items[..1][..0] == [];
      assert Collect(o.items[..1], OwnPo) == {};
    }
    ContestedIsAllocated(o);
    StableWhenPoIs(o);
    NextPoIs(o);
    var q := RolledUp(o);
    StableWhenPoIs(q);
    NextPoIs(q);
    OnlyIs(OwnPos(q), "");
  }

  // ---- what the header means ----

  ghost predicate SomeRowIs(o: Order, s: ShipStatus) {
    exists it :: it in o.items && AllocatedRoot(it) && CoalesceShip(it.ful.shipStatus) == s
  }

  lemma ShipsAre(o: Order, s: ShipStatus)
    ensures s in Collect(o.items, ShipOf) <==> SomeRowIs(o, s)
  {
    CollectIs(o.items, ShipOf);
    if SomeRowIs(o, s) {
      var it :| it in o.items && AllocatedRoot(it) && CoalesceShip(it.ful.shipStatus) == s;
      assert ShipOf(it) == Some(s);
    }
    if s in Collect(o.items, ShipOf) {
      var it :| it in o.items && ShipOf(it) == Some(s);
    }
  }

  lemma HeaderShipIs(o: Order)
    requires AnyAllocated(o)
    ensures RollupShip(o) == Shipped <==> AllAllocated(o) && !SomeRowIs(o, WaitShip) && !SomeRowIs(o, PartialShipped)
    ensures RollupShip(o) == WaitShip <==> !SomeRowIs(o, Shipped) && !SomeRowIs(o, PartialShipped)
  {
    ShipsAre(o, WaitShip);
    ShipsAre(o, PartialShipped);
    ShipsAre(o, Shipped);
    var it :| it in o.items && AllocatedRoot(it);
    assert SomeRowIs(o, CoalesceShip(it.ful.shipStatus));
  }

  /** The header says shipped exactly when every fulfillable root is allocated and shipped, and
      waiting exactly when no allocated root has moved. */
  lemma HeaderShipMeaning(o: Order)
    requires AnyRoot(o)
    ensures RollupOf(o).value.head.shipStatus == Shipped
       <==> forall it :: it in o.items && FulfillableRoot(it) ==>
         it.ful.allocType != Unallocated && it.ful.shipStatus == Shipped
    ensures RollupOf(o).value.head.shipStatus == WaitShip
       <==> forall it :: it in o.items && AllocatedRoot(it) ==>
         it.ful.shipStatus != Shipped && it.ful.shipStatus != PartialShipped
  {
    if AnyAllocated(o) {
      HeaderShipIs(o);
      if forall it :: it in o.items && FulfillableRoot(it) ==>
        it.ful.allocType != Unallocated && it.ful.shipStatus == Shipped {
        assert !SomeRowIs(o, WaitShip) && !SomeRowIs(o, PartialShipped);
      }
      forall it | it in o.items && AllocatedRoot(it) ensures SomeRowIs(o, CoalesceShip(it.ful.shipStatus)) {
      }
    } else {
      var root :| root in o.items && FulfillableRoot(root);
      assert !AllocatedRoot(root);
    }
  }

  /** A roll-up neither finishes nor closes an order, and always says how far it has shipped. */
  lemma RollupStaysOpen(o: Order)
    ensures RollupOf(o).Some? ==> RollupOf(o).value.status != Completed && RollupOf(o).value.status != Closed
  {
  }

  lemma RollupShipIs(o: Order)
    ensures RollupOf(o).Some? ==>
      RollupOf(o).value.head.shipStatus in {WaitShip, PartialShipped, Shipped}
  {
  }

  /** What the rows have to say for the header's type to survive their roll-up: some allocated root, and
      every allocated root, carries it. */
  ghost predicate RowsSay(items: seq<Item>, a: AllocType) {
    && (exists it :: it in items && AllocatedRoot(it))
    && (forall it :: it in items && AllocatedRoot(it) ==> it.ful.allocType == a)
  }

  lemma RollupType(o: Order)
    requires AnyRoot(o)
    ensures RollupOf(o).value.head.allocType
         == if AnyAllocated(o) then Only(Collect(o.items, TypeOf), Mixed) else Unallocated
  {
  }

  /** The header has one path exactly when some allocated root, and every one, has it. */
  lemma HeaderTypeIs(o: Order, a: AllocType)
    requires a != Unallocated && a != Mixed && AnyRoot(o)
    ensures RollupOf(o).value.head.allocType == a <==> RowsSay(o.items, a)
  {
    RollupType(o);
    OnlyTells(o.items, TypeOf, a, Mixed);
    TypesTell(o.items, a);
  }

  lemma TypesTell(items: seq<Item>, a: AllocType)
    requires a != Mixed
    ensures RowsTell(items, TypeOf, a, Mixed) <==> RowsSay(items, a)
  {
    if RowsSay(items, a) {
      var it :| it in items && AllocatedRoot(it);
      assert TypeOf(it) == Some(a);
    }
    if RowsTell(items, TypeOf, a, Mixed) {
      forall it | it in items && AllocatedRoot(it) ensures it.ful.allocType == a {
        assert TypeOf(it) == Some(it.ful.allocType);
      }
    }
  }

  // ---- when the rows tell the header's allocation ----

  /** The rows that say anything all say `v`; `v` also stands for none saying anything and for two that differ,
      if it is the default. */
  ghost predicate RowsTell<T(!new)>(items: seq<Item>, f: Item -> Option<T>, v: T, default: T) {
    || ((exists it :: it in items && f(it) == Some(v))
        && (forall it :: it in items && f(it).Some? ==> f(it).value == v))
    || (v == default
        && ((forall it :: it in items ==> f(it).None?)
            || exists x, y :: x in items && y in items && f(x).Some? && f(y).Some? && f(x) != f(y)))
  }

  /** The first allocated root that satisfies `p` also satisfies `says`, or there is none and `otherwise` holds. */
  ghost predicate FirstTells(items: seq<Item>, p: Item -> bool, says: Item -> bool, otherwise: bool) {
    if exists it :: it in items && AllocatedRoot(it) && p(it) then
      exists i :: 0 <= i < |items| && FirstAt(items, p, i) && says(items[i])
    else otherwise
  }

  ghost predicate FirstAt(items: seq<Item>, p: Item -> bool, i: nat)
    requires i < |items|
  {
    AllocatedRoot(items[i]) && p(items[i]) && forall j :: 0 <= j < i && AllocatedRoot(items[j]) ==> !p(items[j])
  }

  function ModeOf(head: Fulfilment): Item -> bool {
    (it: Item) => it.ful.mode == head.mode
  }

  function SupplierOf(head: Fulfilment): Item -> bool {
    (it: Item) => it.ful.supplierId == head.supplierId && it.ful.supplierName == head.supplierName
  }

  function PoIn(headPo: string): Item -> Option<string> {
    it => PoOf(headPo, it)
  }

  /** The header carries the allocation its rows tell: their only path or a mixture, the first mode and supplier
      among them, and the only self number and purchase order, a dropship row without one leaning on the header's. */
  ghost predicate RowsAgree(items: seq<Item>, head: Fulfilment) {
    if !exists it :: it in items && AllocatedRoot(it) then SameAllocation(head, NO_FULFILMENT)
    else
      && RowsTell(items, TypeOf, head.allocType, Mixed)
      && FirstTells(items, HasMode, ModeOf(head), head.mode == NoMode)
      && FirstTells(items, HasSupplier, SupplierOf(head), head.supplierId == 0 && head.supplierName == "")
      && RowsTell(items, SelfOf, head.selfNo, "")
      && RowsTell(items, PoIn(head.poNo), head.poNo, "")
  }

  lemma {:induction false} OnlyTells<T(!new)>(items: seq<Item>, f: Item -> Option<T>, v: T, default: T)
    ensures Only(Collect(items, f), default) == v <==> RowsTell(items, f, v, default)
  {
    var s := Collect(items, f);
    CollectIs(items, f);
    OnlyIs(s, default);
    if s != {} {
      var a :| a in s;
      if s != {a} {
        var b := AnotherElement(s, a);
        TwoElements(s, a, b);
        var x := CollectFound(items, f, a);
        var y := CollectFound(items, f, b);
        assert f(x) != f(y);
      } else {
        var x := CollectFound(items, f, a);
        forall it | it in items && f(it).Some? ensures f(it).value == a {
          assert f(it).value in s;
        }
      }
    }
  }

  lemma {:induction false} FirstRowTells(items: seq<Item>, p: Item -> bool, says: Item -> bool, otherwise: bool)
    ensures FirstTells(items, p, says, otherwise)
       <==> if FirstRow(items, p).Some? then says(FirstRow(items, p).value) else otherwise
  {
    FirstRowAt(items, p);
    if FirstRow(items, p).Some? {
      var i :| 0 <= i < |items| && FirstAt(items, p, i) && items[i] == FirstRow(items, p).value;
      assert items[i] in items;
      forall j | 0 <= j < |items| && FirstAt(items, p, j) ensures j == i {
        assert AllocatedRoot(items[j]) && p(items[j]);
      }
    }
  }

  lemma {:induction false} FirstRowAt(items: seq<Item>, p: Item -> bool)
    ensures FirstRow(items, p).None? <==> forall it :: it in items && AllocatedRoot(it) ==> !p(it)
    ensures FirstRow(items, p).Some? ==>
      exists i :: 0 <= i < |items| && FirstAt(items, p, i) && items[i] == FirstRow(items, p).value
  {
    if items != [] {
      var n := |items| - 1;
      FirstRowAt(items[..n], p);
      assert items == items[..n] + [items[n]];
      if FirstRow(items[..n], p).Some? {
        var i :| 0 <= i < n && FirstAt(items[..n], p, i) && items[..n][i] == FirstRow(items[..n], p).value;
        FirstStays(items, p, n, i);
      } else if FirstRow(items, p).Some? {
        assert FirstAt(items, p, n);
      }
    }
  }

  lemma FirstStays(items: seq<Item>, p: Item -> bool, n: nat, i: nat)
    requires i < n <= |items| && FirstAt(items[..n], p, i)
    ensures FirstAt(items, p, i)
  {
    forall j | 0 <= j < i && AllocatedRoot(items[j]) ensures !p(items[j]) {
      assert items[..n][j] == items[j];
    }
  }

  /** A roll-up leaves the header's allocation as it is exactly when the rows agree with it. */
  lemma RollupAllocation(o: Order)
    requires AnyRoot(o)
    ensures SameAllocation(RollupOf(o).value.head, o.head) <==> RowsAgree(o.items, o.head)
  {
    if AnyAllocated(o) {
      AllocationColumns(o);
      var head := o.head;
      OnlyTells(o.items, TypeOf, head.allocType, Mixed);
      OnlyTells(o.items, SelfOf, head.selfNo, "");
      OnlyTells(o.items, PoIn(head.poNo), head.poNo, "");
      CollectCongruent(o.items, PoIn(head.poNo), it => PoOf(o.head.poNo, it));
      FirstRowTells(o.items, HasMode, ModeOf(head), head.mode == NoMode);
      FirstRowTells(o.items, HasSupplier, SupplierOf(head), head.supplierId == 0 && head.supplierName == "");
    }
  }

  lemma AllocationColumns(o: Order)
    requires AnyRoot(o) && AnyAllocated(o)
    ensures var head := RollupOf(o).value.head;
      var mode, supplier := FirstRow(o.items, HasMode), FirstRow(o.items, HasSupplier);
      && head.allocType == Only(Collect(o.items, TypeOf), Mixed) && head.selfNo == Only(Collect(o.items, SelfOf), "")
      && head.poNo == Only(PoNos(o), "")
      && head.mode == (if mode.Some? then mode.value.ful.mode else NoMode)
      && head.supplierId == (if supplier.Some? then supplier.value.ful.supplierId else 0)
      && head.supplierName == (if supplier.Some? then supplier.value.ful.supplierName else "")
  {
  }

  /** The same rows in another order give the same summary, except for the first-row columns. */
  lemma RollupIgnoresRowOrder(o: Order, p: Order)
    requires multiset(o.items) == multiset(p.items) && o.head.poNo == p.head.poNo
    ensures RollupOf(o).Some? <==> RollupOf(p).Some?
    ensures RollupOf(o).Some? ==>
      var a, b := RollupOf(o).value, RollupOf(p).value;
      && a.status == b.status && a.agentType == b.agentType
      && a.head.allocType == b.head.allocType && a.head.shipStatus == b.head.shipStatus
      && a.head.poNo == b.head.poNo && a.head.selfNo == b.head.selfNo
  {
    forall it ensures it in o.items <==> it in p.items {
      assert it in o.items <==> it in multiset(o.items);
      assert it in p.items <==> it in multiset(p.items);
    }
    CollectSameRows(o.items, p.items, TypeOf);
    CollectSameRows(o.items, p.items, ShipOf);
    CollectSameRows(o.items, p.items, SelfOf);
    var f, g := it => PoOf(o.head.poNo, it), it => PoOf(p.head.poNo, it);
    CollectSameRows(o.items, p.items, f);
    CollectCongruent(p.items, f, g);
    assert PoNos(o) == PoNos(p);
    assert AnyRoot(o) <==> AnyRoot(p);
    assert AnyAllocated(o) <==> AnyAllocated(p);
    assert AllAllocated(o) <==> AllAllocated(p);
    assert AnyFactory(o) <==> AnyFactory(p);
  }

  // ---- the loop ----

  lemma {:induction false} CollectStep<T>(items: seq<Item>, it: Item, f: Item -> Option<T>)
    ensures Collect(items + [it], f) == Collect(items, f) + if f(it).Some? then {f(it).value} else {}
  {
    assert (items + [it])[..|items|] == items;
  }

  lemma {:induction false} FirstRowStep(items: seq<Item>, it: Item, p: Item -> bool)
    ensures FirstRow(items + [it], p)
         == if FirstRow(items, p).Some? then FirstRow(items, p)
            else if AllocatedRoot(it) && p(it) then Some(it) else None
  {
    assert (items + [it])[..|items|] == items;
  }

  lemma {:induction false} LatestAllocStep(items: seq<Item>, it: Item)
    ensures LatestAlloc(items + [it])
         == if AllocatedRoot(it) then Later(LatestAlloc(items), it.ful.allocatedAt) else LatestAlloc(items)
  {
    assert (items + [it])[..|items|] == items;
  }

  /** The element of a one-element set. */
  method TheOnly<T(==)>(s: set<T>, default: T) returns (x: T)
    ensures x == Only(s, default)
  {
    OnlyIs(s, default);
    x := default;
    if |s| == 1 {
      var y :| y in s;
      x := y;
    }
  }

  /** The sets of values the allocated roots carry. */
  method CollectRows(o: Order)
    returns (types: set<AllocType>, ships: set<ShipStatus>, pos: set<string>, selfs: set<string>)
    ensures types == Collect(o.items, TypeOf) && ships == Collect(o.items, ShipOf)
    ensures pos == PoNos(o) && selfs == Collect(o.items, SelfOf)
  {
    types, ships, pos, selfs := {}, {}, {}, {};
    ghost var f := it => PoOf(o.head.poNo, it);
    for i := 0 to |o.items|
      invariant types == Collect(o.items[..i], TypeOf) && ships == Collect(o.items[..i], ShipOf)
      invariant pos == Collect(o.items[..i], f) && selfs == Collect(o.items[..i], SelfOf)
    {
      var it := o.items[i];
      assert o.items[..i + 1] == o.items[..i] + [it];
      CollectStep(o.items[..i], it, TypeOf);
      CollectStep(o.items[..i], it, ShipOf);
      CollectStep(o.items[..i], it, f);
      CollectStep(o.items[..i], it, SelfOf);
      if !FulfillableRoot(it) || it.ful.allocType == Unallocated {
        continue;
      }
      types := types + {it.ful.allocType};
      ships := ships + {if it.ful.shipStatus == NoShip then WaitShip else it.ful.shipStatus};
      if it.ful.poNo != "" {
        pos := pos + {it.ful.poNo};
      } else if it.ful.allocType == Dropship {
        if o.head.poNo != "" {
          pos := pos + {o.head.poNo};
        }
      }
      if it.ful.selfNo != "" {
        selfs := selfs + {it.ful.selfNo};
      }
    }
    assert o.items[..|o.items|] == o.items;
  }

  /** The first-row columns and the latest allocation. */
  method FirstRows(o: Order)
    returns (supplier: Option<Item>, factory: Option<Item>, mode: Option<Item>, latest: Option<nat>)
    ensures supplier == FirstRow(o.items, HasSupplier) && factory == FirstRow(o.items, HasFactory)
    ensures mode == FirstRow(o.items, HasMode) && latest == LatestAlloc(o.items)
  {
    supplier, factory, mode, latest := None, None, None, None;
    for i := 0 to |o.items|
      invariant supplier == FirstRow(o.items[..i], HasSupplier) && factory == FirstRow(o.items[..i], HasFactory)
      invariant mode == FirstRow(o.items[..i], HasMode) && latest == LatestAlloc(o.items[..i])
    {
      var it := o.items[i];
      assert o.items[..i + 1] == o.items[..i] + [it];
      FirstRowStep(o.items[..i], it, HasSupplier);
      FirstRowStep(o.items[..i], it, HasFactory);
      FirstRowStep(o.items[..i], it, HasMode);
      LatestAllocStep(o.items[..i], it);
      if !FulfillableRoot(it) || it.ful.allocType == Unallocated {
        continue;
      }
      if supplier.None? && it.ful.supplierId > 0 {
        supplier := Some(it);
      }
      if factory.None? && it.ful.factoryId != "" {
        factory := Some(it);
      }
      if mode.None? && it.ful.mode != NoMode {
        mode := Some(it);
      }
      if it.ful.allocatedAt.Some? && (latest.None? || it.ful.allocatedAt.value > latest.value) {
        latest := it.ful.allocatedAt;
      }
    }
    assert o.items[..|o.items|] == o.items;
  }

  /** The flags over the rows, and the agent type they imply. */
  method Flags(o: Order) returns (anyRoot: bool, anyAlloc: bool, allAlloc: bool, agentType: nat)
    ensures anyRoot <==> AnyRoot(o)
    ensures anyAlloc <==> AnyAllocated(o)
    ensures allAlloc <==> AllAllocated(o)
    ensures agentType == if AnyFactory(o) then AGENT_FACTORY else AGENT_SELF
  {
    anyRoot, anyAlloc, allAlloc, agentType := false, false, true, 0;
    for i := 0 to |o.items|
      invariant anyRoot <==> exists k :: 0 <= k < i && FulfillableRoot(o.items[k])
      invariant anyAlloc <==> exists k :: 0 <= k < i && AllocatedRoot(o.items[k])
      invariant allAlloc <==> forall k :: 0 <= k < i && FulfillableRoot(o.items[k]) ==> AllocatedRoot(o.items[k])
      invariant agentType == AGENT_FACTORY <==> exists k :: 0 <= k < i && FactoryRow(o.items[k])
      invariant agentType == 0 || agentType == AGENT_SELF || agentType == AGENT_FACTORY
    {
      var it := o.items[i];
      if !FulfillableRoot(it) {
        continue;
      }
      anyRoot := true;
      if it.ful.allocType == Unallocated {
        allAlloc := false;
        continue;
      }
      anyAlloc := true;
      if it.ful.allocType == Dropship && it.ful.mode == KdzsFactory {
        agentType := AGENT_FACTORY;
      } else if agentType == 0 && (it.ful.allocType == SelfShip || it.ful.allocType == Dropship) {
        agentType := AGENT_SELF;
      }
    }
    if agentType == 0 {
      agentType := AGENT_SELF;
    }
  }

  method OrderHasItemLevelAlloc(items: seq<Item>) returns (b: bool)
    ensures b <==> HasAllocatedRoot(items)
  {
    for i := 0 to |items|
      invariant forall k :: 0 <= k < i ==> !(IsRoot(items[k]) && items[k].ful.allocType != Unallocated)
    {
      if items[i].split != NoSplit || items[i].parent > 0 {
        continue;
      }
      if items[i].ful.allocType != Unallocated {
        return true;
      }
    }
    return false;
  }

  method RollupOrderFulfillmentFields(o: Order) returns (r: Option<Summary>)
    ensures r == RollupOf(o)
  {
    var anyRoot, anyAlloc, allAlloc, agentType := Flags(o);
    if !anyRoot {
      return None;
    }
    if !anyAlloc {
      return Some(NOTHING_ALLOCATED);
    }
    var types, ships, pos, selfs := CollectRows(o);
    var supplier, factory, mode, latest := FirstRows(o);
    var allocType := TheOnly(types, Mixed);
    var shipStatus := HeaderShip(ships, allAlloc);
    var status := HeaderStatus(types, shipStatus);
    var poNo := TheOnly(pos, "");
    var selfNo := TheOnly(selfs, "");
    var head := Fulfilment(
      allocType,
      if mode.Some? then mode.value.ful.mode else NoMode,
      if supplier.Some? then supplier.value.ful.supplierId else 0,
      if supplier.Some? then supplier.value.ful.supplierName else "",
      if factory.Some? then factory.value.ful.factoryId else "",
      if factory.Some? then factory.value.ful.factoryName else "",
      poNo, selfNo, shipStatus, latest);
    return Some(Summary(head, status, agentType));
  }
}
