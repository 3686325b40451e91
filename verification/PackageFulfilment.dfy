/** Row-level fulfilment from one platform package: the package's goods are
    matched to root rows, those rows take the package's allocation, and the
    header is rolled up from the rows again. */
module PackageFulfilment {
  import opened OrderModel
  import opened Ledger
  import opened Ingest
  import opened Rollup

  /** What the sync reads of a stored package. */
  datatype PackageRef = PackageRef(id: nat, orderId: nat)

  datatype Sync = Sync(
    channel: Channel, // where the payload comes from
    pkg: Option<PackageRef>, // the stored package of the system number, if there is one
    goods: seq<Goods>,
    hint: Hint,
    factoryId: string,
    factoryName: string,
    boundSupplier: Option<(nat, string)>, // the supplier bound to the factory
    now: nat)

  // ---- matching ----

  datatype Tier = ByOid | ByItem | ByName

  predicate Names(t: Tier, want: Goods, has: Goods) {
    match t
    case ByOid => want.oid != "" && has.oid == want.oid
    case ByItem => want.itemId != "" && has.itemId == want.itemId && (want.skuId == "" || has.skuId == want.skuId)
    case ByName => want.name != "" && has.name == want.name && has.specs == want.specs
  }

  predicate Candidate(t: Tier, want: Goods, row: Item, used: set<nat>) {
    IsRoot(row) && row.id !in used && Names(t, want, row.goods)
  }

  /** The first unused root the tier accepts. */
  function FirstRoot(t: Tier, want: Goods, rows: seq<Item>, used: set<nat>): Option<nat> {
    if rows == [] then None
    else
      var n := |rows| - 1;
      var before := FirstRoot(t, want, rows[..n], used);
      if before.Some? then before
      else if Candidate(t, want, rows[n], used) then Some(rows[n].id)
      else None
  }

  function MatchRoot(want: Goods, rows: seq<Item>, used: set<nat>): Option<nat> {
    var byOid, byItem := FirstRoot(ByOid, want, rows, used), FirstRoot(ByItem, want, rows, used);
    if byOid.Some? then byOid else if byItem.Some? then byItem else FirstRoot(ByName, want, rows, used)
  }

  function UsedBy(ids: seq<nat>): set<nat> {
    set id | id in ids
  }

  /** The root each good takes, in the order of the goods; goods without one are skipped. */
  function MatchedIds(rows: seq<Item>, goods: seq<Goods>): seq<nat> {
    if goods == [] then []
    else
      var n := |goods| - 1;
      var before := MatchedIds(rows, goods[..n]);
      var id := MatchRoot(goods[n], rows, UsedBy(before));
      if id.Some? then before + [id.value] else before
  }

  lemma {:induction false} FirstRootIs(t: Tier, want: Goods, rows: seq<Item>, used: set<nat>)
    ensures FirstRoot(t, want, rows, used).Some? <==> exists q :: q in rows && Candidate(t, want, q, used)
    ensures FirstRoot(t, want, rows, used).Some? ==>
      exists q :: q in rows && Candidate(t, want, q, used) && q.id == FirstRoot(t, want, rows, used).value
  {
    if rows != [] {
      var n := |rows| - 1;
      FirstRootIs(t, want, rows[..n], used);
      assert rows == rows[..n] + [rows[n]];
    }
  }

  /** A good is left out only if no unused root fits it in any way, and a worse way is only
      taken when no unused root fits in a better one. */
  lemma MatchIsBest(want: Goods, rows: seq<Item>, used: set<nat>, q: Item, t: Tier)
    requires q in rows && Candidate(t, want, q, used)
    ensures MatchRoot(want, rows, used).Some?
    ensures exists p, b :: p in rows && Candidate(b, want, p, used) && p.id == MatchRoot(want, rows, used).value
                           && (t == ByOid ==> b == ByOid) && (t == ByItem ==> b != ByName)
  {
    FirstRootIs(ByOid, want, rows, used);
    FirstRootIs(ByItem, want, rows, used);
    FirstRootIs(ByName, want, rows, used);
  }

  lemma MatchIsUnusedRoot(want: Goods, rows: seq<Item>, used: set<nat>)
    ensures var id := MatchRoot(want, rows, used);
      id.Some? ==> id.value !in used && exists q :: q in rows && IsRoot(q) && q.id == id.value
  {
    FirstRootIs(ByOid, want, rows, used);
    FirstRootIs(ByItem, want, rows, used);
    FirstRootIs(ByName, want, rows, used);
  }

  /** No two goods take the same row, and only roots are taken. */
  lemma {:induction false} MatchingIsInjective(rows: seq<Item>, goods: seq<Goods>)
    ensures NoRepeats(MatchedIds(rows, goods))
    ensures forall id :: id in MatchedIds(rows, goods) ==> exists q :: q in rows && IsRoot(q) && q.id == id
  {
    if goods != [] {
      var n := |goods| - 1;
      MatchingIsInjective(rows, goods[..n]);
      MatchIsUnusedRoot(goods[n], rows, UsedBy(MatchedIds(rows, goods[..n])));
    }
  }

  ghost predicate HasRootOid(rows: seq<Item>, oid: string) {
    oid != "" && exists q :: q in rows && IsRoot(q) && q.goods.oid == oid
  }

  ghost predicate OidOf(rows: seq<Item>, id: nat, oid: string) {
    exists q :: q in rows && IsRoot(q) && q.id == id && q.goods.oid == oid
  }

  ghost predicate OwnOids(rows: seq<Item>, goods: seq<Goods>) {
    && (forall k :: 0 <= k < |goods| ==> HasRootOid(rows, goods[k].oid))
    && (forall j, k :: 0 <= j < k < |goods| ==> goods[j].oid != goods[k].oid)
  }

  lemma OneOid(rows: seq<Item>, id: nat, oid: string, other: string)
    requires DistinctIds(rows) && OidOf(rows, id, oid) && OidOf(rows, id, other)
    ensures oid == other
  {
  }

  /** Goods with their own platform line numbers take exactly the rows of those numbers. */
  lemma {:induction false} OwnOidsFindOwnRows(rows: seq<Item>, goods: seq<Goods>)
    requires DistinctIds(rows) && OwnOids(rows, goods)
    ensures var ids := MatchedIds(rows, goods);
      |ids| == |goods| && forall k :: 0 <= k < |ids| ==> OidOf(rows, ids[k], goods[k].oid)
  {
    if goods != [] {
      var n := |goods| - 1;
      var before := MatchedIds(rows, goods[..n]);
      forall k | 0 <= k < n ensures goods[..n][k] == goods[k] {}
      OwnOidsFindOwnRows(rows, goods[..n]);
      assert HasRootOid(rows, goods[n].oid);
      var own :| own in rows && IsRoot(own) && own.goods.oid == goods[n].oid;
      assert OidOf(rows, own.id, goods[n].oid);
      forall k | 0 <= k < n ensures before[k] != own.id {
        if before[k] == own.id { OneOid(rows, own.id, goods[k].oid, goods[n].oid); }
      }
      OwnOidMatch(rows, goods[n], UsedBy(before), own);
    }
  }

  lemma OwnOidMatch(rows: seq<Item>, want: Goods, used: set<nat>, own: Item)
    requires own in rows && Candidate(ByOid, want, own, used)
    ensures MatchRoot(want, rows, used).Some?
    ensures OidOf(rows, MatchRoot(want, rows, used).value, want.oid)
  {
    MatchIsBest(want, rows, used, own, ByOid);
  }

  // ---- one row ----

  /** Plain sum over the shipments that carry a waybill. */
  function ExpressQty(shipments: seq<Shipment>, id: nat): int {
    if shipments == [] then 0
    else
      var n := |shipments| - 1;
      ExpressQty(shipments[..n], id) + if shipments[n].expressNo != "" then LineQty(shipments[n].rows, id) else 0
  }

  predicate Covered(o: Order, it: Item) {
    ExpressQty(o.shipments, it.id) > 0 && ExpressQty(o.shipments, it.id) >= it.quantity
  }

  /** An offline dropship with a supplier is the operator's business. */
  predicate OfflineDropship(it: Item) {
    it.ful.allocType == Dropship && it.ful.mode == OsmsSupplier && it.ful.supplierId > 0
  }

  predicate KeepsAlloc(it: Item, h: Hint) {
    h.allocType == ChannelShip && (OwnStock(it.ful) || (it.ful.allocType == Dropship && it.ful.poNo != ""))
  }

  function RowShip(o: Order, it: Item, h: Hint): ShipStatus {
    var want := CoalesceShip(h.shipStatus);
    if want == WaitShip
      && (ShipMoved(it.ful.shipStatus) || ShipMoved(o.head.shipStatus) || HasExpress(o) || Covered(o, it)) then
      if Covered(o, it) then Shipped else it.ful.shipStatus
    else want
  }

  predicate Applies(h: Hint) {
    !h.clearAlloc && h.applyAlloc && h.allocType != Unallocated
  }

  /** The row's fulfilment once the package's allocation applies. */
  function SyncedFulfilment(o: Order, it: Item, s: Sync): Fulfilment {
    var h, f := s.hint, it.ful;
    var alloc := if KeepsAlloc(it, h) then f.allocType else h.allocType;
    var mode := if KeepsAlloc(it, h) then f.mode else h.mode;
    var base := f.(allocType := alloc, mode := mode, shipStatus := RowShip(o, it, h),
                   allocatedAt := if f.allocatedAt.None? then Some(s.now) else f.allocatedAt);
    if alloc == Dropship then
      var made := if mode != KdzsFactory then base
                  else
                    var factory := base.(factoryId := FirstNonEmpty(f.factoryId, s.factoryId),
                                         factoryName := FirstNonEmpty(f.factoryName, s.factoryName));
                    if f.supplierId == 0 && s.boundSupplier.Some? then
                      factory.(supplierId := s.boundSupplier.value.0, supplierName := s.boundSupplier.value.1)
                    else factory;
      made.(poNo := FirstNonEmpty(f.poNo, o.head.poNo))
    else if alloc == SelfShip || alloc == ChannelShip then
      base.(supplierId := 0, supplierName := "", factoryId := "", factoryName := "", poNo := "")
    else base
  }

  function SyncedRow(o: Order, it: Item, s: Sync, pkgId: nat): Item {
    var row := it.(packageId := pkgId);
    if OfflineDropship(it) then row
    else if s.hint.clearAlloc then row.(ful := NO_FULFILMENT.(shipStatus := WaitShip))
    else if Applies(s.hint) then row.(ful := SyncedFulfilment(o, it, s))
    else row
  }

  // ---- the order ----

  function SyncedRows(o: Order, matched: seq<nat>, s: Sync, pkgId: nat): (r: seq<Item>)
    ensures |r| == |o.items|
  {
    seq(|o.items|, i requires 0 <= i < |o.items| =>
      if o.items[i].id in matched then SyncedRow(o, o.items[i], s, pkgId) else o.items[i])
  }

  /** The summary of the rows, which never takes goods back that have left. */
  ghost function SyncedHeader(o: Order): Order {
    match RollupOf(o)
    case None => o
    case Some(sum) =>
      var ship := if ShipMoved(o.head.shipStatus) then o.head.shipStatus
                  else if RestoredShip(o).Some? then RestoredShip(o).value
                  else sum.head.shipStatus;
      o.(head := sum.head.(shipStatus := ship),
         status := if o.status == Completed || o.status == Closed then o.status else sum.status,
         agentType := sum.agentType)
  }

  /** The package the sync is for, if it belongs to the order. */
  function OwnPackage(o: Order, s: Sync): Option<PackageRef> {
    if s.channel == Kdzs && s.pkg.Some? && s.pkg.value.orderId == o.id then s.pkg else None
  }

  function Matched(o: Order, s: Sync): seq<nat> {
    if OwnPackage(o, s).Some? then MatchedIds(o.items, s.goods) else []
  }

  ghost function SyncPackage(o: Order, s: Sync): Order {
    if Matched(o, s) == [] then o
    else SyncedHeader(o.(items := SyncedRows(o, Matched(o, s), s, OwnPackage(o, s).value.id)))
  }

  lemma RowAfterSync(o: Order, s: Sync, i: nat)
    requires i < |o.items|
    ensures |SyncPackage(o, s).items| == |o.items|
    ensures SyncPackage(o, s).items[i]
         == if o.items[i].id in Matched(o, s) then SyncedRow(o, o.items[i], s, OwnPackage(o, s).value.id)
            else o.items[i]
  {
  }

  lemma SyncKeepsOrder(o: Order, s: Sync)
    ensures var p := SyncPackage(o, s); p.id == o.id && p.channel == o.channel && p.shipments == o.shipments
  {
  }

  /** A package sync neither closes nor reopens nor completes an order. */
  lemma SyncKeepsStage(o: Order, s: Sync)
    ensures var p := SyncPackage(o, s);
      (p.status == Closed <==> o.status == Closed) && (p.status == Completed <==> o.status == Completed)
  {
    if Matched(o, s) != [] {
      HeaderKeepsStage(o.(items := SyncedRows(o, Matched(o, s), s, OwnPackage(o, s).value.id)));
    }
  }

  lemma HeaderKeepsStage(o: Order)
    ensures var p := SyncedHeader(o);
      && (p.status == Closed <==> o.status == Closed) && (p.status == Completed <==> o.status == Completed)
      && p == o.(head := p.head, status := p.status, agentType := p.agentType)
  {
    RollupStaysOpen(o);
  }

  ghost predicate SameIdentities(a: seq<Item>, b: seq<Item>) {
    |a| == |b| && forall i :: 0 <= i < |a| ==> b[i] == a[i].(packageId := b[i].packageId, ful := b[i].ful)
  }

  lemma SyncKeepsIdentities(o: Order, s: Sync)
    ensures SameIdentities(o.items, SyncPackage(o, s).items)
  {
    var items := SyncPackage(o, s).items;
    assert |items| == |o.items| by {
      if o.items != [] { RowAfterSync(o, s, 0); }
    }
    forall i | 0 <= i < |o.items|
      ensures items[i] == o.items[i].(packageId := items[i].packageId, ful := items[i].ful)
    {
      RowAfterSync(o, s, i);
    }
  }

  /** ... and leaves something to fulfil exactly when there was. */
  lemma SyncKeepsRoots(o: Order, s: Sync)
    ensures AnyRoot(o.(items := SyncPackage(o, s).items)) <==> AnyRoot(o)
  {
    var items := SyncPackage(o, s).items;
    forall i | 0 <= i < |o.items|
      ensures |items| == |o.items| && FulfillableRoot(items[i]) == FulfillableRoot(o.items[i])
    {
      RowAfterSync(o, s, i);
    }
    assert |items| == |o.items|;
    if AnyRoot(o) {
      var it :| it in o.items && FulfillableRoot(it);
      var i :| 0 <= i < |o.items| && o.items[i] == it;
      assert items[i] in items;
    }
    if AnyRoot(o.(items := items)) {
      var it :| it in items && FulfillableRoot(it);
      var i :| 0 <= i < |items| && items[i] == it;
      assert o.items[i] in o.items;
    }
  }

  /** Only matched rows change, only roots are matched, and what the row is does not change. */
  lemma OnlyMatchedRowsChange(o: Order, s: Sync, i: nat)
    requires DistinctIds(o.items) && i < |o.items|
    ensures var was, got := o.items[i], SyncPackage(o, s).items;
      && |got| == |o.items|
      && got[i] == was.(packageId := got[i].packageId, ful := got[i].ful)
      && (was.id !in Matched(o, s) ==> got[i] == was)
      && (was.id in Matched(o, s) ==> IsRoot(was) && got[i].packageId == OwnPackage(o, s).value.id)
  {
    RowAfterSync(o, s, i);
    if o.items[i].id in Matched(o, s) {
      MatchingIsInjective(o.items, s.goods);
      var q :| q in o.items && IsRoot(q) && q.id == o.items[i].id;
    }
  }

  // ---- what a row keeps ----

  ghost function Run(o: Order, ss: seq<Sync>): Order {
    if ss == [] then o else SyncPackage(Run(o, ss[..|ss| - 1]), ss[|ss| - 1])
  }

  lemma {:induction false} RunKeepsRows(o: Order, ss: seq<Sync>, i: nat)
    requires i < |o.items|
    ensures var r := Run(o, ss);
      && |r.items| == |o.items| && r.items[i] == o.items[i].(packageId := r.items[i].packageId, ful := r.items[i].ful)
      && r.id == o.id && r.channel == o.channel && r.shipments == o.shipments
  {
    if ss != [] {
      var n := |ss| - 1;
      RunKeepsRows(o, ss[..n], i);
      RowAfterSync(Run(o, ss[..n]), ss[n], i);
      SyncKeepsOrder(Run(o, ss[..n]), ss[n]);
    }
  }

  /** An offline dropship keeps its allocation through any run of package syncs, clearing ones included. */
  lemma {:induction false} OfflineDropshipStays(o: Order, ss: seq<Sync>, i: nat)
    requires i < |o.items| && OfflineDropship(o.items[i])
    ensures |Run(o, ss).items| == |o.items| && Run(o, ss).items[i].ful == o.items[i].ful
  {
    if ss != [] {
      var n := |ss| - 1;
      OfflineDropshipStays(o, ss[..n], i);
      RowAfterSync(Run(o, ss[..n]), ss[n], i);
    }
  }

  /** The sync takes the row's goods out of our own stock: it clears it or hands it to a supplier. */
  predicate TakesAway(o: Order, s: Sync, it: Item) {
    it.id in Matched(o, s)
    && (s.hint.clearAlloc || (Applies(s.hint) && s.hint.allocType !in {SelfShip, PurchaseThenShip, ChannelShip}))
  }

  lemma AllocAfterSync(o: Order, it: Item, s: Sync, pkgId: nat)
    ensures SyncedRow(o, it, s, pkgId).ful.allocType
         == if OfflineDropship(it) || (KeepsAlloc(it, s.hint) && Applies(s.hint)) then it.ful.allocType
            else if s.hint.clearAlloc then Unallocated
            else if Applies(s.hint) then s.hint.allocType
            else it.ful.allocType
  {
  }

  /** One sync never turns a row fulfilled from our own stock into a platform-shipped one, and
      leaves it with our own stock unless the sync says otherwise. */
  lemma OwnStockIsNotOverruled(o: Order, s: Sync, i: nat)
    requires i < |o.items| && OwnStock(o.items[i].ful)
    ensures |SyncPackage(o, s).items| == |o.items| && SyncPackage(o, s).items[i].ful.allocType != ChannelShip
    ensures OwnStock(SyncPackage(o, s).items[i].ful) <==> !TakesAway(o, s, o.items[i])
  {
    RowAfterSync(o, s, i);
    if o.items[i].id in Matched(o, s) {
      AllocAfterSync(o, o.items[i], s, OwnPackage(o, s).value.id);
    }
  }

  /** A row after a run. */
  ghost function RowAfter(o: Order, ss: seq<Sync>, i: nat): Item
    requires i < |o.items|
  {
    RunKeepsRows(o, ss, i);
    Run(o, ss).items[i]
  }

  /** After every part of the run. */
  ghost predicate AlwaysOwnStock(o: Order, ss: seq<Sync>, i: nat)
    requires i < |o.items|
  {
    OwnStock(RowAfter(o, ss, i).ful) && (ss != [] ==> AlwaysOwnStock(o, ss[..|ss| - 1], i))
  }

  /** By no sync of the run, judged on the order as it starts. */
  ghost predicate NeverTaken(o: Order, ss: seq<Sync>, i: nat)
    requires i < |o.items|
  {
    forall k :: 0 <= k < |ss| ==> !TakesAway(o, ss[k], o.items[i])
  }

  lemma {:induction false} SameFirstRoot(t: Tier, want: Goods, a: seq<Item>, b: seq<Item>, used: set<nat>)
    requires SameIdentities(a, b)
    ensures FirstRoot(t, want, a, used) == FirstRoot(t, want, b, used)
  {
    if a != [] { SameFirstRoot(t, want, a[..|a| - 1], b[..|b| - 1], used); }
  }

  /** The matching reads what a row is, not what it is allocated to. */
  lemma {:induction false} SameMatching(a: seq<Item>, b: seq<Item>, goods: seq<Goods>)
    requires SameIdentities(a, b)
    ensures MatchedIds(a, goods) == MatchedIds(b, goods)
  {
    if goods != [] {
      var n := |goods| - 1;
      SameMatching(a, b, goods[..n]);
      var used := UsedBy(MatchedIds(a, goods[..n]));
      SameFirstRoot(ByOid, goods[n], a, b, used);
      SameFirstRoot(ByItem, goods[n], a, b, used);
      SameFirstRoot(ByName, goods[n], a, b, used);
    }
  }

  lemma {:induction false} MatchedAlongRun(o: Order, ss: seq<Sync>, s: Sync)
    ensures Matched(Run(o, ss), s) == Matched(o, s)
  {
    RunKeepsOrder(o, ss);
    SameMatching(o.items, Run(o, ss).items, s.goods);
  }

  lemma {:induction false} RunKeepsOrder(o: Order, ss: seq<Sync>)
    ensures Run(o, ss).id == o.id && SameIdentities(o.items, Run(o, ss).items)
  {
    if ss != [] {
      var n := |ss| - 1;
      RunKeepsOrder(o, ss[..n]);
      var before := Run(o, ss[..n]);
      SyncKeepsOrder(before, ss[n]);
      SyncKeepsIdentities(before, ss[n]);
    }
  }

  /** Over a run, a row stays with our own stock throughout exactly when no sync takes it away. */
  lemma {:induction false} OwnStockOverRuns(o: Order, ss: seq<Sync>, i: nat)
    requires i < |o.items| && OwnStock(o.items[i].ful)
    ensures AlwaysOwnStock(o, ss, i) <==> NeverTaken(o, ss, i)
  {
    if ss != [] {
      var n := |ss| - 1;
      OwnStockOverRuns(o, ss[..n], i);
      RunKeepsRows(o, ss[..n], i);
      MatchedAlongRun(o, ss[..n], ss[n]);
      assert NeverTaken(o, ss, i) <==> NeverTaken(o, ss[..n], i) && !TakesAway(o, ss[n], o.items[i]) by {
        assert forall k :: 0 <= k < n ==> ss[..n][k] == ss[k];
      }
      if AlwaysOwnStock(o, ss[..n], i) {
        OwnStockIsNotOverruled(Run(o, ss[..n]), ss[n], i);
      }
    }
  }

  /** When a row ends a sync platform-shipped. */
  lemma ChannelRows(o: Order, s: Sync, i: nat)
    requires i < |o.items|
    ensures var was := o.items[i];
      SyncPackage(o, s).items[i].ful.allocType == ChannelShip
      <==> if was.id in Matched(o, s) && (s.hint.clearAlloc || Applies(s.hint)) && !OfflineDropship(was) then
             !s.hint.clearAlloc && s.hint.allocType == ChannelShip && !KeepsAlloc(was, s.hint)
           else was.ful.allocType == ChannelShip
  {
    RowAfterSync(o, s, i);
    if o.items[i].id in Matched(o, s) {
      AllocAfterSync(o, o.items[i], s, OwnPackage(o, s).value.id);
    }
  }

  /** A row that has left is not taken back by a sync unless the sync clears it. */
  lemma MovedRowsStay(o: Order, s: Sync, i: nat)
    requires i < |o.items| && ShipMoved(o.items[i].ful.shipStatus)
    ensures ShipMoved(SyncPackage(o, s).items[i].ful.shipStatus)
       <==> !(o.items[i].id in Matched(o, s) && s.hint.clearAlloc && !OfflineDropship(o.items[i]))
  {
    RowAfterSync(o, s, i);
    if o.items[i].id in Matched(o, s) {
      ShipAfterSync(o, o.items[i], s, OwnPackage(o, s).value.id);
    }
  }

  lemma ShipAfterSync(o: Order, it: Item, s: Sync, pkgId: nat)
    ensures SyncedRow(o, it, s, pkgId).ful.shipStatus
         == if OfflineDropship(it) then it.ful.shipStatus
            else if s.hint.clearAlloc then WaitShip
            else if Applies(s.hint) then RowShip(o, it, s.hint)
            else it.ful.shipStatus
  {
  }

  /** Clearing first and following the platform second does make a self-shipped row platform-shipped. */
  lemma TwoSyncsOverruleOwnStock()
    ensures exists o: Order, a: Sync, b: Sync ::
      && DistinctIds(o.items) && |o.items| == 1 && OwnStock(o.items[0].ful)
      && |Run(o, [a, b]).items| == 1 && Run(o, [a, b]).items[0].ful.allocType == ChannelShip
  {
    var goods := Goods("1", "", "", "", "");
    var row := Item(1, 1, 0, "", goods, 1, 0, 0, false, 0, NoSplit, 0, 0, NO_FULFILMENT.(allocType := SelfShip));
    var o := Order(1, Kdzs, "T", "S", 0, WaitSend, false, false, false, Allocated, AGENT_SELF,
                   NO_FULFILMENT.(allocType := SelfShip), None, 0, 0, [row], []);
    var clear := Hint(PendingAlloc, WaitShip, Unallocated, NoMode, AGENT_SELF, false, true);
    var channel := Hint(ShippedOut, Shipped, ChannelShip, NoMode, AGENT_SELF, true, false);
    var a := Sync(Kdzs, Some(PackageRef(7, 1)), [goods], clear, "", "", None, 0);
    var b := a.(hint := channel);
    OneGood(o, a);
    RowAfterSync(o, a, 0);
    AllocAfterSync(o, row, a, 7);
    var p := SyncPackage(o, a);
    OneGood(p, b);
    RowAfterSync(p, b, 0);
    AllocAfterSync(p, p.items[0], b, 7);
    assert [a, b][..1] == [a] && [a][..0] == [];
    assert Run(o, [a]) == SyncPackage(Run(o, []), a);
    assert Run(o, [a, b]) == SyncPackage(p, b);
    assert DistinctIds(o.items) && OwnStock(o.items[0].ful);
  }

  lemma OneGood(o: Order, s: Sync)
    requires s.channel == Kdzs && s.pkg.Some? && s.pkg.value.orderId == o.id
    requires |o.items| == 1 && |s.goods| == 1 && IsRoot(o.items[0])
    requires s.goods[0].oid != "" && o.items[0].goods.oid == s.goods[0].oid
    ensures Matched(o, s) == [o.items[0].id]
  {
    assert s.goods[..0] == [] && MatchedIds(o.items, []) == [];
    var q := o.items[0];
    assert Candidate(ByOid, s.goods[0], q, UsedBy([]));
    MatchIsBest(s.goods[0], o.items, UsedBy([]), q, ByOid);
    MatchIsUnusedRoot(s.goods[0], o.items, UsedBy([]));
    assert MatchedIds(o.items, s.goods) == [q.id];
  }

  // ---- what the header keeps ----

  /** With a waybill, a package sync that reaches any fulfillable root leaves the header at least partly shipped. */
  lemma WaybillKeepsHeaderMoved(o: Order, s: Sync)
    requires Matched(o, s) != [] && AnyRoot(o)
    requires ShipMoved(o.head.shipStatus) || HasExpress(o)
    ensures ShipMoved(SyncPackage(o, s).head.shipStatus)
  {
    var mid := o.(items := SyncedRows(o, Matched(o, s), s, OwnPackage(o, s).value.id));
    var it :| it in o.items && FulfillableRoot(it);
    var i :| 0 <= i < |o.items| && o.items[i] == it;
    assert mid.items[i] in mid.items && FulfillableRoot(mid.items[i]);
    RestoredMoved(mid);
  }

  lemma PackageKeepsShip(o: Order, s: Sync)
    requires ShipMoved(o.head.shipStatus)
    ensures SyncPackage(o, s).head.shipStatus == o.head.shipStatus
  {
  }

  // ---- the loops ----

  method FindRoot(t: Tier, want: Goods, rows: seq<Item>, used: set<nat>) returns (id: Option<nat>)
    ensures id == FirstRoot(t, want, rows, used)
  {
    id := None;
    for i := 0 to |rows|
      invariant id == FirstRoot(t, want, rows[..i], used)
      invariant id.None?
    {
      assert rows[..i + 1][..i] == rows[..i];
      if !IsRoot(rows[i]) || rows[i].id in used {
        continue;
      }
      if Names(t, want, rows[i].goods) {
        FirstRootStays(t, want, rows, used, i + 1);
        return Some(rows[i].id);
      }
    }
    assert rows[..|rows|] == rows;
  }

  lemma {:induction false} FirstRootStays(t: Tier, want: Goods, rows: seq<Item>, used: set<nat>, k: nat)
    requires k <= |rows| && FirstRoot(t, want, rows[..k], used).Some?
    ensures FirstRoot(t, want, rows, used) == FirstRoot(t, want, rows[..k], used)
  {
    if k == |rows| {
      assert rows[..k] == rows;
    } else {
      var n := |rows| - 1;
      assert rows[..n][..k] == rows[..k];
      FirstRootStays(t, want, rows[..n], used, k);
    }
  }

  method MatchRootItemID(want: Goods, rows: seq<Item>, used: set<nat>) returns (id: Option<nat>)
    ensures id == MatchRoot(want, rows, used)
  {
    id := FindRoot(ByOid, want, rows, used);
    if id.None? {
      id := FindRoot(ByItem, want, rows, used);
    }
    if id.None? {
      id := FindRoot(ByName, want, rows, used);
    }
  }

  method MatchIngestItemsToOrder(rows: seq<Item>, goods: seq<Goods>) returns (ids: seq<nat>)
    ensures ids == MatchedIds(rows, goods)
  {
    ids := [];
    var used: set<nat> := {};
    for i := 0 to |goods|
      invariant ids == MatchedIds(rows, goods[..i]) && used == UsedBy(ids)
    {
      assert goods[..i + 1][..i] == goods[..i];
      var id := MatchRootItemID(goods[i], rows, used);
      if id.None? {
        continue;
      }
      used := used + {id.value};
      ids := ids + [id.value];
    }
    assert goods[..|goods|] == goods;
  }

  method ItemCoveredByExpressShipment(o: Order, it: Item) returns (covered: bool)
    requires it in o.items && DistinctIds(o.items)
    ensures covered == Covered(o, it)
  {
    var shipped := 0;
    for i := 0 to |o.shipments|
      invariant shipped == ExpressQty(o.shipments[..i], it.id)
    {
      var sh := o.shipments[i];
      assert o.shipments[..i + 1][..i] == o.shipments[..i];
      if sh.expressNo == "" {
        continue;
      }
      ghost var base := shipped;
      for j := 0 to |sh.rows|
        invariant shipped == base + LineQty(sh.rows[..j], it.id)
      {
        assert sh.rows[..j + 1][..j] == sh.rows[..j];
        if sh.rows[j].itemId == it.id {
          shipped := shipped + sh.rows[j].qty;
        }
      }
      assert sh.rows[..|sh.rows|] == sh.rows;
    }
    assert o.shipments[..|o.shipments|] == o.shipments;
    return shipped > 0 && shipped >= it.quantity;
  }

  /** Goods that have left here are not taken back by a platform that still waits. */
  method RowShipStatus(o: Order, it: Item, h: Hint) returns (ship: ShipStatus)
    requires it in o.items && DistinctIds(o.items)
    ensures ship == RowShip(o, it, h)
  {
    ship := it.ful.shipStatus;
    var itemShip := CoalesceShip(h.shipStatus);
    var covered := ItemCoveredByExpressShipment(o, it);
    if itemShip == WaitShip
      && (ShipMoved(it.ful.shipStatus) || ShipMoved(o.head.shipStatus) || HasExpress(o) || covered) {
      if covered {
        ship := Shipped;
      } else if ShipMoved(it.ful.shipStatus) {
        ship := it.ful.shipStatus;
      }
    } else {
      ship := itemShip;
    }
  }

  /** The columns one matched row gets. */
  method RowFields(o: Order, it: Item, s: Sync, pkgId: nat) returns (row: Item)
    requires it in o.items && DistinctIds(o.items)
    ensures row == SyncedRow(o, it, s, pkgId)
    ensures row == it.(packageId := pkgId, ful := row.ful)
    ensures OfflineDropship(it) ==> row.ful == it.ful
    ensures OwnStock(it.ful) ==> row.ful.allocType != ChannelShip
    ensures ShipMoved(it.ful.shipStatus) ==>
      (ShipMoved(row.ful.shipStatus) <==> OfflineDropship(it) || !s.hint.clearAlloc)
  {
    AllocAfterSync(o, it, s, pkgId);
    ShipAfterSync(o, it, s, pkgId);
    row := it.(packageId := pkgId);
    if OfflineDropship(it) {
      return;
    }
    if s.hint.clearAlloc {
      return row.(ful := NO_FULFILMENT.(shipStatus := WaitShip));
    }
    if !s.hint.applyAlloc || s.hint.allocType == Unallocated {
      return;
    }
    var f, alloc, mode := it.ful, s.hint.allocType, s.hint.mode;
    if alloc == ChannelShip && OwnStock(it.ful) {
      alloc, mode := it.ful.allocType, it.ful.mode;
    }
    if alloc == ChannelShip && it.ful.allocType == Dropship && it.ful.poNo != "" {
      alloc, mode := Dropship, it.ful.mode;
    }
    f := f.(allocType := alloc, mode := mode);
    var ship := RowShipStatus(o, it, s.hint);
    f := f.(shipStatus := ship);
    if it.ful.allocatedAt.None? {
      f := f.(allocatedAt := Some(s.now));
    }
    if alloc == Dropship {
      if mode == KdzsFactory {
        f := f.(factoryId := FirstNonEmpty(it.ful.factoryId, s.factoryId),
                factoryName := FirstNonEmpty(it.ful.factoryName, s.factoryName));
        if it.ful.supplierId == 0 && s.boundSupplier.Some? {
          f := f.(supplierId := s.boundSupplier.value.0, supplierName := s.boundSupplier.value.1);
        }
      }
      if it.ful.poNo == "" && o.head.poNo != "" {
        f := f.(poNo := o.head.poNo);
      }
    } else if alloc == SelfShip || alloc == ChannelShip {
      f := f.(supplierId := 0, supplierName := "", factoryId := "", factoryName := "", poNo := "");
    }
    row := row.(ful := f);
  }

  class PackageDesk {
    var order: Order

    constructor (o: Order)
      ensures order == o
    {
      order := o;
    }

    method ApplyPackageItemFulfillment(s: Sync)
      requires DistinctIds(order.items)
      modifies this
      ensures order == SyncPackage(old(order), s)
    {
      if s.channel != Kdzs || s.pkg.None? || s.pkg.value.orderId != order.id {
        return;
      }
      var matched := MatchIngestItemsToOrder(order.items, s.goods);
      if matched == [] {
        return;
      }
      WriteRows(matched, s, s.pkg.value.id);
      RollupPackageFulfillmentHeader();
    }

    /** The matched rows, one update each, computed from the order as it was loaded. */
    method WriteRows(matched: seq<nat>, s: Sync, pkgId: nat)
      requires DistinctIds(order.items)
      modifies this
      ensures order == old(order).(items := SyncedRows(old(order), matched, s, pkgId))
    {
      var cur := order;
      for k := 0 to |matched|
        invariant order == cur.(items := order.items) && |order.items| == |cur.items|
        invariant forall i :: 0 <= i < |cur.items| ==>
          order.items[i] == if cur.items[i].id in matched[..k] then SyncedRow(cur, cur.items[i], s, pkgId)
                            else cur.items[i]
      {
        assert matched[..k + 1] == matched[..k] + [matched[k]];
        var at := RowWithId(cur.items, matched[k]);
        if at.Some? {
          var row := RowFields(cur, cur.items[at.value], s, pkgId);
          order := order.(items := order.items[at.value := row]);
        }
      }
      assert matched[..|matched|] == matched;
      assert order.items == SyncedRows(cur, matched, s, pkgId);
    }

    method RollupPackageFulfillmentHeader()
      requires DistinctIds(order.items)
      modifies this
      ensures order == SyncedHeader(old(order))
      ensures order == old(order).(head := order.head, status := order.status, agentType := order.agentType)
      ensures order.status == Closed <==> old(order).status == Closed
      ensures order.status == Completed <==> old(order).status == Completed
      ensures ShipMoved(old(order).head.shipStatus) ==> order.head.shipStatus == old(order).head.shipStatus
      ensures AnyRoot(order) && HasExpress(order) ==> ShipMoved(order.head.shipStatus)
    {
      HeaderKeepsStage(order);
      RestoredMoved(order);
      var o := order;
      var sum := RollupOrderFulfillmentFields(o);
      if sum.None? {
        return;
      }
      var head, status := sum.value.head, sum.value.status;
      if o.status == Completed || o.status == Closed {
        status := o.status;
      }
      if ShipMoved(o.head.shipStatus) {
        head := head.(shipStatus := o.head.shipStatus);
      } else {
        var restored := RestoreShipStatus(o);
        if restored.Some? {
          head := head.(shipStatus := restored.value);
        }
      }
      order := o.(head := head, status := status, agentType := sum.value.agentType);
    }
  }

  method RowWithId(rows: seq<Item>, id: nat) returns (at: Option<nat>)
    requires DistinctIds(rows)
    ensures at.Some? ==> at.value < |rows| && rows[at.value].id == id
    ensures at.None? ==> forall i :: 0 <= i < |rows| ==> rows[i].id != id
  {
    for i := 0 to |rows|
      invariant forall j :: 0 <= j < i ==> rows[j].id != id
    {
      if rows[i].id == id {
        return Some(i);
      }
    }
    return None;
  }
}
