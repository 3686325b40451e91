/** The sibling merge as the service runs it: the keeper search, the row, package
    and waybill loops of one sibling, and the loop over all of them. */
module SiblingMergeLoops {
  import opened OrderModel
  import opened SiblingMerge
  import PackageTable
  import Rollup

  // ---- the loops ----

  method BasePlatformSysTid(s: string) returns (base: string)
    ensures base == BaseSysTid(s)
  {
    for n := 0 to |SUFFIXES|
      invariant CutAt(s, SUFFIXES[n..]) == BaseSysTid(s)
    {
      assert SUFFIXES[n..][1..] == SUFFIXES[n + 1..];
      var i := IndexOf(s, SUFFIXES[n]);
      if i.Some? && i.value > 0 {
        IndexInside(s, SUFFIXES[n], 0);
        return s[..i.value];
      }
    }
    return s;
  }

  lemma {:induction false} IndexInside(s: string, sub: string, i: nat)
    ensures var r := IndexFrom(s, sub, i);
      r.Some? ==> i <= r.value && r.value + |sub| <= |s| && s[r.value..r.value + |sub|] == sub
    decreases |s| - i
  {
    if i + |sub| <= |s| && s[i..i + |sub|] != sub && i < |s| { IndexInside(s, sub, i + 1); }
  }

  method FindKDZSParentKeeper(list: seq<Order>) returns (keeper: Option<Order>)
    ensures keeper == Keeper(list)
  {
    var best: Option<Order> := None;
    for i := 0 to |list|
      invariant best == Best(list[..i])
    {
      assert list[..i + 1][..i] == list[..i];
      if best.None? {
        best := Some(list[i]);
        continue;
      }
      var sb, so := Score(best.value), Score(list[i]);
      if so > sb || (so == sb && list[i].id < best.value.id) {
        best := Some(list[i]);
      }
    }
    assert list[..|list|] == list;
    if best.Some? && SplitOff(best.value) {
      return None;
    }
    return best;
  }

  /** The map holds, for each platform line number, the key of the row that keeps it. */
  ghost predicate Indexes(byOid: map<string, nat>, rows: seq<Item>) {
    forall oid ::
      && (oid in byOid <==> KeeperRow(rows, oid).Some?)
      && (oid in byOid ==> byOid[oid] == rows[KeeperRow(rows, oid).value].id)
  }

  lemma {:induction false} KeeperRowStep(rows: seq<Item>, it: Item, oid: string)
    ensures KeeperRow(rows + [it], oid)
         == if IsRoot(it) && it.goods.oid == oid && oid != "" then Some(|rows|) else KeeperRow(rows, oid)
  {
    assert (rows + [it])[..|rows|] == rows;
  }

  lemma IndexesStep(byOid: map<string, nat>, rows: seq<Item>, it: Item)
    requires Indexes(byOid, rows)
    ensures Indexes(if IsRoot(it) && it.goods.oid != "" then byOid[it.goods.oid := it.id] else byOid, rows + [it])
  {
    var after := if IsRoot(it) && it.goods.oid != "" then byOid[it.goods.oid := it.id] else byOid;
    forall oid
      ensures oid in after <==> KeeperRow(rows + [it], oid).Some?
      ensures oid in after ==> after[oid] == (rows + [it])[KeeperRow(rows + [it], oid).value].id
    {
      KeeperRowStep(rows, it, oid);
      assert oid in byOid <==> KeeperRow(rows, oid).Some?;
    }
  }

  /** The keeper's roots by platform line number; later rows overwrite earlier ones. */
  method KeeperOids(k: Order) returns (byOid: map<string, nat>)
    ensures Indexes(byOid, k.items)
  {
    byOid := map[];
    for i := 0 to |k.items|
      invariant Indexes(byOid, k.items[..i])
    {
      var it := k.items[i];
      assert k.items[..i + 1] == k.items[..i] + [it];
      IndexesStep(byOid, k.items[..i], it);
      if IsSplitChild(it) || it.parent > 0 {
        continue;
      }
      if it.goods.oid != "" {
        byOid := byOid[it.goods.oid := it.id];
      }
    }
    assert k.items[..|k.items|] == k.items;
  }

  lemma {:induction false} WalkStep(k: Order, sib: Order, rows: seq<Item>, it: Item)
    ensures var at, before := KeeperRow(k.items, it.goods.oid), Filled(k, sib, rows);
      Filled(k, sib, rows + [it])
      == if at.Some? && Fills(k, sib, it, at.value) then
           before[at.value := before[at.value].(ful := RowFulfilment(sib, it))]
         else before
    ensures Moved(k, sib, rows + [it])
         == if Dropped(k, it) then Moved(k, sib, rows) else Moved(k, sib, rows) + [Settled(sib, it)]
  {
    assert (rows + [it])[..|rows|] == rows;
  }

  /** The sibling's rows, one by one: filled into the keeper's, or listed to move. */
  method WalkRows(k: Order, sib: Order) returns (kept: seq<Item>, moving: seq<Item>)
    requires DistinctIds(k.items)
    ensures kept == Filled(k, sib, sib.items) && moving == Moved(k, sib, sib.items)
  {
    var byOid := KeeperOids(k);
    kept, moving := k.items, [];
    for i := 0 to |sib.items|
      invariant kept == Filled(k, sib, sib.items[..i]) && moving == Moved(k, sib, sib.items[..i])
    {
      assert sib.items[..i + 1] == sib.items[..i] + [sib.items[i]];
      kept, moving := WalkRow(k, sib, sib.items[..i], sib.items[i], byOid, kept, moving);
    }
    assert sib.items[..|sib.items|] == sib.items;
  }

  /** One row after the rows `done`. */
  method WalkRow(k: Order, sib: Order, ghost done: seq<Item>, it: Item, byOid: map<string, nat>,
                 before: seq<Item>, given: seq<Item>)
    returns (kept: seq<Item>, moving: seq<Item>)
    requires DistinctIds(k.items) && Indexes(byOid, k.items)
    requires before == Filled(k, sib, done) && given == Moved(k, sib, done)
    ensures kept == Filled(k, sib, done + [it]) && moving == Moved(k, sib, done + [it])
  {
    kept, moving := before, given;
    WalkStep(k, sib, done, it);
    if it.goods.oid in byOid {
      FindItemAt(k.items, KeeperRow(k.items, it.goods.oid).value);
      var at := FindItem(k.items, byOid[it.goods.oid]).value;
      kept := FillRow(k, sib, it, kept, at);
      return;
    }
    var row := it;
    if it.ful.allocType == Unallocated && sib.head.allocType != Unallocated {
      row := it.(ful := sib.head.(shipStatus := CoalesceShip(sib.head.shipStatus)));
    }
    moving := moving + [row];
  }

  /** The sibling's allocation for a keeper row that has none. */
  method FillRow(k: Order, sib: Order, it: Item, given: seq<Item>, at: nat) returns (kept: seq<Item>)
    requires |given| == |k.items| && KeeperRow(k.items, it.goods.oid) == Some(at)
    ensures kept == if Fills(k, sib, it, at) then given[at := given[at].(ful := RowFulfilment(sib, it))] else given
  {
    kept := given;
    if it.ful.allocType != Unallocated {
      if k.items[at].ful.allocType == Unallocated {
        kept := kept[at := kept[at].(ful := it.ful)];
      }
    } else if sib.head.allocType != Unallocated {
      if k.items[at].ful.allocType == Unallocated {
        kept := kept[at := kept[at].(ful := sib.head.(shipStatus := CoalesceShip(sib.head.shipStatus)))];
      }
    }
  }

  method MovingShipments(k: Order, sib: Order) returns (moving: seq<Shipment>)
    ensures moving == NewShipments(Waybills(k.shipments), sib.shipments)
  {
    var express: set<string> := {};
    for i := 0 to |k.shipments|
      invariant express == Waybills(k.shipments[..i])
    {
      assert forall j :: 0 <= j < i ==> k.shipments[..i + 1][j] == k.shipments[..i][j];
      if k.shipments[i].expressNo != "" {
        assert k.shipments[..i + 1][i] == k.shipments[i];
        express := express + {k.shipments[i].expressNo};
      }
    }
    assert k.shipments[..|k.shipments|] == k.shipments;
    moving := [];
    for i := 0 to |sib.shipments|
      invariant moving == NewShipments(express, sib.shipments[..i])
    {
      var sh := sib.shipments[i];
      assert sib.shipments[..i + 1][..i] == sib.shipments[..i];
      if sh.expressNo != "" {
        if sh.expressNo in express {
          continue;
        }
      }
      moving := moving + [sh];
    }
    assert sib.shipments[..|sib.shipments|] == sib.shipments;
  }

  method SumItemAmounts(items: seq<Item>) returns (sum: int)
    ensures sum == ItemAmounts(items)
  {
    sum := 0;
    for i := 0 to |items|
      invariant sum == ItemAmounts(items[..i])
    {
      assert items[..i + 1][..i] == items[..i];
      if IsSplitChild(items[i]) {
        continue;
      }
      if items[i].total > 0 {
        sum := sum + items[i].total;
      } else {
        sum := sum + items[i].price * items[i].quantity;
      }
    }
    assert items[..|items|] == items;
  }

  // ---- keys stay unique ----

  ghost predicate Apart(a: seq<Item>, b: seq<Item>) {
    forall x, y :: x in a && y in b ==> x.id != y.id
  }

  /** The keeper with the rows and the shipments that move over. */
  method MergedKeeper(keeper: Order, sib: Order) returns (merged: Order)
    requires DistinctIds(keeper.items)
    ensures merged == MergeOrders(keeper, sib)
  {
    var kept, moving := WalkRows(keeper, sib);
    var shipments := MovingShipments(keeper, sib);
    merged := keeper.(items := kept + moving, shipments := keeper.shipments + shipments);
  }

  /** Row keys are unique across the orders of the shop. */
  ghost predicate KeysDistinct(orders: map<nat, Order>) {
    && (forall a :: a in orders ==> DistinctIds(orders[a].items))
    && (forall a, b :: a in orders && b in orders && a != b ==> Apart(orders[a].items, orders[b].items))
  }

  lemma {:induction false} MovedDistinct(k: Order, sib: Order, rows: seq<Item>)
    requires DistinctIds(rows)
    ensures DistinctIds(Moved(k, sib, rows))
  {
    if rows != [] {
      var n := |rows| - 1;
      MovedDistinct(k, sib, rows[..n]);
      MovedAre(k, sib, rows[..n]);
      var moved := Moved(k, sib, rows[..n]);
      forall i | 0 <= i < |moved| ensures moved[i].id != rows[n].id {
        assert moved[i] in moved;
        var it :| it in rows[..n] && !Dropped(k, it) && moved[i] == Settled(sib, it);
        var j :| 0 <= j < n && rows[..n][j] == it;
        assert rows[j].id != rows[n].id;
      }
    }
  }

  lemma MergedComesFrom(k: Order, sib: Order, x: Item)
    requires x in MergeOrders(k, sib).items
    ensures HasRow(k.items, x.id) || HasRow(sib.items, x.id)
  {
    var filled := Filled(k, sib, sib.items);
    MovedAre(k, sib, sib.items);
    if x in filled {
      var j :| 0 <= j < |filled| && filled[j] == x;
      FilledAre(k, sib, sib.items, j);
      assert k.items[j] in k.items;
    }
  }

  lemma MergedKeys(k: Order, sib: Order)
    requires DistinctIds(k.items) && DistinctIds(sib.items) && Apart(k.items, sib.items)
    ensures DistinctIds(MergeOrders(k, sib).items)
  {
    var filled, moved := Filled(k, sib, sib.items), Moved(k, sib, sib.items);
    MovedDistinct(k, sib, sib.items);
    MovedAre(k, sib, sib.items);
    forall j | 0 <= j < |filled| ensures filled[j].id == k.items[j].id {
      FilledAre(k, sib, sib.items, j);
    }
    forall i, j | 0 <= i < |filled| && 0 <= j < |moved| ensures filled[i].id != moved[j].id {
      assert moved[j] in moved && k.items[i] in k.items;
      var it :| it in sib.items && !Dropped(k, it) && moved[j] == Settled(sib, it);
    }
  }

  lemma MergeKeepsKeys(orders: map<nat, Order>, k: nat, s: nat)
    requires KeysDistinct(orders) && k in orders && s in orders && s != k
    ensures KeysDistinct(OrdersAfter(orders, k, s))
  {
    var after := OrdersAfter(orders, k, s);
    MergedKeys(orders[k], orders[s]);
    forall a | a in after && a != k
      ensures Apart(after[a].items, after[k].items) && Apart(after[k].items, after[a].items)
    {
      forall x, y | x in after[k].items && y in after[a].items ensures x.id != y.id {
        MergedComesFrom(orders[k], orders[s], x);
        var from :| (from in orders[k].items || from in orders[s].items) && from.id == x.id;
        assert Apart(orders[a].items, orders[k].items) && Apart(orders[a].items, orders[s].items);
      }
    }
    forall a, b | a in after && b in after && a != b ensures Apart(after[a].items, after[b].items) {
      if a != k && b != k { assert Apart(orders[a].items, orders[b].items); }
    }
  }

  lemma {:induction false} KeeperListed(orders: map<nat, Order>, ids: seq<nat>)
    requires Keeper(Listed(orders, ids)).Some?
    requires forall id :: id in ids ==> id in orders && orders[id].id == id
    ensures Keeper(Listed(orders, ids)).value.id in ids
  {
    ListedAre(orders, ids);
    KeeperIs(Listed(orders, ids));
  }

  lemma SameRowsSameKeys(orders: map<nat, Order>, k: nat, o: Order)
    requires KeysDistinct(orders) && k in orders && o.items == orders[k].items
    ensures KeysDistinct(orders[k := o])
  {
  }

  ghost predicate OrdersOk(orders: map<nat, Order>, below: nat) {
    KeysDistinct(orders) && forall id :: id in orders ==> 0 < id < below && orders[id].id == id
  }

  lemma OneMergeOk(orders: map<nat, Order>, below: nat, k: nat, s: nat)
    requires OrdersOk(orders, below) && k in orders && s in orders && s != k
    ensures OrdersOk(OrdersAfter(orders, k, s), below)
  {
    MergeKeepsKeys(orders, k, s);
  }

  lemma FinishedOk(orders: map<nat, Order>, below: nat, k: nat, o: Order)
    requires OrdersOk(orders, below) && k in orders && o.items == orders[k].items && o.id == k
    ensures OrdersOk(orders[k := o], below)
  {
    SameRowsSameKeys(orders, k, o);
  }

  /** A listed order is there until its turn comes. */
  lemma {:induction false} StillThere(shop: Shop, k: nat, ids: seq<nat>, i: nat)
    requires k in shop.orders && NoRepeats(ids) && i < |ids| && ids[i] in shop.orders
    ensures ids[i] in MergeSiblings(shop, k, ids[..i]).orders
  {
    MergeSiblingsOrders(shop, k, ids[..i]);
    OthersUntouched(shop.orders, k, ids[..i], ids[i]);
  }

  class SiblingDesk {
    var orders: map<nat, Order>
    var packages: map<string, PackageTable.Package>
    const labels: nat -> PackageTable.Package
    var nextOrderId: nat

    ghost function Contents(): Shop
      reads this
    {
      Shop(orders, packages, labels)
    }

    ghost predicate Valid()
      reads this
    {
      OrdersOk(orders, nextOrderId)
    }

    constructor (shop: Shop, nextOrderId: nat)
      requires OrdersOk(shop.orders, nextOrderId)
      ensures Valid() && Contents() == shop
    {
      labels := shop.labels;
      orders, packages, this.nextOrderId := shop.orders, shop.packages, nextOrderId;
    }

    /** One sibling into the keeper: rows, package, waybills, then the sibling goes. */
    method MergeOneSibling(k: nat, s: nat)
      requires Valid() && k in orders && s in orders && s != k
      modifies this`orders, this`packages
      ensures Valid() && k in orders
      ensures Contents() == MergeSibling(old(Contents()), k, s)
    {
      ghost var before := orders;
      var registered := RegisterPackage(k, s);
      var merged := MergedKeeper(orders[k], orders[s]);
      orders := orders[k := merged];
      packages := map x | x in registered && registered[x].orderId != s :: registered[x];
      orders := orders - {s};
      assert orders == OrdersAfter(before, k, s);
      OneMergeOk(before, nextOrderId, k, s);
    }

    /** The packages with the sibling's own under the keeper, if its number is known. */
    method RegisterPackage(k: nat, s: nat) returns (registered: map<string, PackageTable.Package>)
      requires s in orders
      ensures registered == PackageTable.UpsertPackage(
                PackageTable.Tables(packages, Tids(orders)),
                PackageTable.Upsert(BaseSysTid(orders[s].sysTid),
                                    labels(s).(orderId := k, mailNo := "", isPrimary := false))).packages
    {
      registered := packages;
      var base := BasePlatformSysTid(orders[s].sysTid);
      if base != "" {
        var pkg := labels(s).(orderId := k, mailNo := "", isPrimary := false);
        registered := PackageTable.UpsertPackage(
          PackageTable.Tables(packages, Tids(orders)), PackageTable.Upsert(base, pkg)).packages;
      }
    }

    /** The orders of one platform order become one. */
    method ForceMergeSiblings(channel: Channel, tid: string)
      requires Valid()
      modifies this`orders, this`packages
      ensures Valid()
      ensures Contents() == if channel == Kdzs then ForceMerge(old(Contents()), tid, nextOrderId) else old(Contents())
    {
      if channel != Kdzs || tid == "" {
        return;
      }
      var ids := Family(orders, tid, nextOrderId);
      ghost var listed, best := ForceMergeSteps(Contents(), tid, nextOrderId);
      MergeListed(ids);
    }

    method MergeListed(ids: seq<nat>)
      requires Valid() && NoRepeats(ids) && forall id :: id in ids ==> id in orders
      modifies this`orders, this`packages
      ensures Valid()
      ensures Contents() == MergeFamily(old(Contents()), ids)
    {
      var keeper := FindKDZSParentKeeper(Listed(orders, ids));
      if keeper.Some? {
        KeeperListed(orders, ids);
        MergeInto(keeper.value.id, ids);
      }
    }

    /** All of them into the keeper, then its header and amount. */
    method MergeInto(k: nat, ids: seq<nat>)
      requires Valid() && k in orders && k in ids && NoRepeats(ids) && forall id :: id in ids ==> id in orders
      modifies this`orders, this`packages
      ensures Valid()
      ensures var after := MergeSiblings(old(Contents()), k, ids);
        && k in after.orders
        && Contents() == after.(orders := after.orders[k := Finished(after.orders[k], |ids| > 1)])
    {
      var merged := MergeAll(k, ids);
      FinishAt(k, merged > 0);
    }

    method FinishAt(k: nat, merged: bool)
      requires Valid() && k in orders
      modifies this`orders
      ensures Valid()
      ensures orders == old(orders)[k := Finished(old(orders)[k], merged)]
    {
      var o := FinishKeeper(orders[k], merged);
      FinishedOk(orders, nextOrderId, k, o);
      orders := orders[k := o];
    }

    /** Every listed order but the keeper. */
    method MergeAll(k: nat, ids: seq<nat>) returns (merged: nat)
      requires Valid() && k in orders && NoRepeats(ids) && forall id :: id in ids ==> id in orders
      modifies this`orders, this`packages
      ensures Valid() && k in orders
      ensures Contents() == MergeSiblings(old(Contents()), k, ids)
      ensures merged == |ids| - if k in ids then 1 else 0
    {
      ghost var shop := Contents();
      merged := 0;
      for i := 0 to |ids|
        invariant Contents() == MergeSiblings(shop, k, ids[..i])
        invariant Valid() && k in orders
        invariant merged == i - if k in ids[..i] then 1 else 0
      {
        assert ids[..i + 1] == ids[..i] + [ids[i]] && ids[..i + 1][..i] == ids[..i];
        if ids[i] == k {
          continue;
        }
        StillThere(shop, k, ids, i);
        MergeOneSibling(k, ids[i]);
        merged := merged + 1;
      }
      assert ids[..|ids|] == ids;
    }
  }

  /** Roll the header up if anything was merged, then take the amount from the rows. */
  method FinishKeeper(given: Order, merged: bool) returns (o: Order)
    ensures o == Finished(given, merged)
    ensures o.items == given.items && o.id == given.id
    ensures Finished(o, false) == o
    ensures ItemAmounts(o.items) > 0 ==> o.pay == o.total == ItemAmounts(o.items)
    ensures ItemAmounts(o.items) <= 0 ==> o.pay == given.pay && o.total == given.total
    ensures (o.status == Closed <==> given.status == Closed)
      && (given.head.shipStatus == Shipped ==> o.head.shipStatus == Shipped)
  {
    o := given;
    if merged {
      o := RollupAfterSiblingMerge(o);
    }
    var sum := SumItemAmounts(o.items);
    if sum > 0 && (o.pay != sum || o.total != sum) {
      o := o.(pay := sum, total := sum);
    }
  }

  method RollupAfterSiblingMerge(o: Order) returns (p: Order)
    ensures p == RolledHeader(o)
    ensures p == o.(head := p.head, status := p.status, agentType := p.agentType)
    ensures (p.status == Closed <==> o.status == Closed) && (p.status == Completed <==> o.status == Completed)
    ensures o.head.shipStatus == Shipped ==> p.head.shipStatus == Shipped && p.status == o.status
    ensures Rollup.AnyRoot(o) && o.head.shipStatus != Shipped ==>
      (p.head.shipStatus == WaitShip <==> forall it :: it in o.items && Rollup.AllocatedRoot(it) ==>
                                            it.ful.shipStatus != Shipped && it.ful.shipStatus != PartialShipped)
  {
    Rollup.RollupStaysOpen(o);
    if Rollup.AnyRoot(o) { HeaderAfterMerge(o); }
    p := o;
    var sum := Rollup.RollupOrderFulfillmentFields(o);
    if sum.Some? {
      var head, status := sum.value.head, sum.value.status;
      if o.head.shipStatus == Shipped || o.status == Completed || o.status == Closed {
        status := o.status;
        if o.head.shipStatus == Shipped {
          head := head.(shipStatus := Shipped);
        }
      }
      p := o.(head := head, status := status, agentType := sum.value.agentType);
    }
  }
}
