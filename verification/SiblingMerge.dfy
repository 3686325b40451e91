/** Folding the orders of one platform order into a single one: which order
    keeps, which rows, packages and waybills move over, and what is dropped. */
module SiblingMerge {
  import opened OrderModel
  import opened Quantities
  import PackageTable
  import Rollup

  // ---- split and duplicate suffixes of a system number ----

  function IndexFrom(s: string, sub: string, i: nat): Option<nat>
    decreases |s| - i
  {
    if i + |sub| > |s| then None
    else if s[i..i + |sub|] == sub then Some(i)
    else if i == |s| then None
    else IndexFrom(s, sub, i + 1)
  }

  function IndexOf(s: string, sub: string): Option<nat> {
    IndexFrom(s, sub, 0)
  }

  const SUFFIXES := ["#split", "#dup", "#alloc"]

  function CutAt(s: string, seps: seq<string>): string {
    if seps == [] then s
    else
      var i := IndexOf(s, seps[0]);
      if i.Some? && 0 < i.value <= |s| then s[..i.value] else CutAt(s, seps[1..])
  }

  /** The number without a split or duplicate suffix. */
  function BaseSysTid(s: string): string {
    CutAt(s, SUFFIXES)
  }

  predicate SplitOff(o: Order) {
    o.splitFrom > 0 || IndexOf(o.sysTid, "#split").Some?
  }

  // ---- the order that keeps ----

  function Score(o: Order): int {
    if SplitOff(o) then -50
    else 10 - (if o.status == Closed then 5 else 0) - (if o.status == Completed then 1 else 0)
  }

  predicate Better(o: Order, best: Order) {
    Score(o) > Score(best) || (Score(o) == Score(best) && o.id < best.id)
  }

  function Best(list: seq<Order>): Option<Order> {
    if list == [] then None
    else
      var o := list[|list| - 1];
      var before := Best(list[..|list| - 1]);
      if before.None? || Better(o, before.value) then Some(o) else before
  }

  function Keeper(list: seq<Order>): Option<Order> {
    if Best(list).Some? && !SplitOff(Best(list).value) then Best(list) else None
  }

  lemma {:induction false} BestIsListed(list: seq<Order>)
    requires list != []
    ensures Best(list).Some? && Best(list).value in list
  {
    var n := |list| - 1;
    if n > 0 {
      BestIsListed(list[..n]);
      assert forall o :: o in list[..n] ==> o in list;
    }
  }

  lemma {:induction false} NoneIsBetter(list: seq<Order>, i: nat)
    requires i < |list|
    ensures Best(list).Some? && !Better(list[i], Best(list).value)
  {
    var n := |list| - 1;
    if i < n { NoneIsBetter(list[..n], i); }
  }

  lemma {:induction false} BestIsBest(list: seq<Order>)
    ensures Best(list).None? <==> list == []
    ensures Best(list).Some? ==> Best(list).value in list && forall o :: o in list ==> !Better(o, Best(list).value)
  {
    if list != [] {
      BestIsListed(list);
      forall o | o in list ensures !Better(o, Best(list).value) {
        var i :| 0 <= i < |list| && list[i] == o;
        NoneIsBetter(list, i);
      }
    }
  }

  /** Some order keeps exactly when one was not split off; it is open if any of those is, and
      the oldest of its kind. */
  lemma KeeperIs(list: seq<Order>)
    ensures Keeper(list).Some? <==> exists o :: o in list && !SplitOff(o)
    ensures Keeper(list).Some? ==>
      var k := Keeper(list).value;
      && k in list && !SplitOff(k)
      && (k.status == Closed ==> forall o :: o in list && !SplitOff(o) ==> o.status == Closed)
      && (k.status == Completed ==> forall o :: o in list && !SplitOff(o) ==>
          o.status == Closed || o.status == Completed)
      && (forall o :: o in list && !SplitOff(o) && o.status == k.status ==> k.id <= o.id)
  {
    BestIsBest(list);
    if o :| o in list && !SplitOff(o) {
      assert !Better(o, Best(list).value);
    }
  }

  // ---- one sibling ----

  /** The keeper's root with the platform line number; the last one if it has several. */
  function KeeperRow(rows: seq<Item>, oid: string): (r: Option<nat>)
    ensures r.Some? ==> r.value < |rows| && IsRoot(rows[r.value]) && rows[r.value].goods.oid == oid
  {
    if rows == [] || oid == "" then None
    else
      var n := |rows| - 1;
      if IsRoot(rows[n]) && rows[n].goods.oid == oid then Some(n) else KeeperRow(rows[..n], oid)
  }

  lemma {:induction false} KeeperRowIs(rows: seq<Item>, oid: string)
    ensures KeeperRow(rows, oid).None?
       <==> oid == "" || forall j :: 0 <= j < |rows| && IsRoot(rows[j]) ==> rows[j].goods.oid != oid
  {
    if rows != [] { KeeperRowIs(rows[..|rows| - 1], oid); }
  }

  /** The keeper has the goods already, so the sibling's row goes. */
  predicate Dropped(k: Order, it: Item) {
    KeeperRow(k.items, it.goods.oid).Some?
  }

  function HeadFulfilment(o: Order): Fulfilment {
    o.head.(shipStatus := CoalesceShip(o.head.shipStatus))
  }

  /** What a sibling's row is allocated to: its own allocation before its header's. */
  function RowFulfilment(sib: Order, it: Item): Fulfilment {
    if !HasAlloc(it.ful) && HasAlloc(sib.head) then HeadFulfilment(sib) else it.ful
  }

  /** A row as it moves over. */
  function Settled(sib: Order, it: Item): Item {
    it.(ful := RowFulfilment(sib, it))
  }

  function Moved(k: Order, sib: Order, rows: seq<Item>): seq<Item> {
    if rows == [] then []
    else
      var it := rows[|rows| - 1];
      var before := Moved(k, sib, rows[..|rows| - 1]);
      if Dropped(k, it) then before else before + [Settled(sib, it)]
  }

  /** The row brings an allocation to a keeper row that had none. */
  predicate Fills(k: Order, sib: Order, it: Item, j: nat) {
    KeeperRow(k.items, it.goods.oid) == Some(j) && HasAlloc(RowFulfilment(sib, it))
    && j < |k.items| && !HasAlloc(k.items[j].ful)
  }

  function Filled(k: Order, sib: Order, rows: seq<Item>): (r: seq<Item>)
    ensures |r| == |k.items|
  {
    if rows == [] then k.items
    else
      var it := rows[|rows| - 1];
      var before := Filled(k, sib, rows[..|rows| - 1]);
      var at := KeeperRow(k.items, it.goods.oid);
      if at.Some? && Fills(k, sib, it, at.value) then
        before[at.value := before[at.value].(ful := RowFulfilment(sib, it))]
      else before
  }

  function Waybills(shipments: seq<Shipment>): set<string> {
    set i | 0 <= i < |shipments| && shipments[i].expressNo != "" :: shipments[i].expressNo
  }

  /** The shipments that move over: a waybill the keeper lists already does not. */
  function NewShipments(had: set<string>, shipments: seq<Shipment>): seq<Shipment> {
    if shipments == [] then []
    else
      var sh := shipments[|shipments| - 1];
      var before := NewShipments(had, shipments[..|shipments| - 1]);
      if sh.expressNo != "" && sh.expressNo in had then before else before + [sh]
  }

  function MergeOrders(k: Order, sib: Order): Order {
    k.(items := Filled(k, sib, sib.items) + Moved(k, sib, sib.items),
       shipments := k.shipments + NewShipments(Waybills(k.shipments), sib.shipments))
  }

  function MergeList(k: Order, sibs: seq<Order>): Order {
    if sibs == [] then k else MergeOrders(MergeList(k, sibs[..|sibs| - 1]), sibs[|sibs| - 1])
  }

  // ---- which rows move ----

  lemma {:induction false} MovedAre(k: Order, sib: Order, rows: seq<Item>)
    ensures forall x ::
      x in Moved(k, sib, rows) <==> exists it :: it in rows && !Dropped(k, it) && x == Settled(sib, it)
  {
    if rows != [] {
      var n := |rows| - 1;
      MovedAre(k, sib, rows[..n]);
      assert rows == rows[..n] + [rows[n]];
    }
  }

  /** Keeper rows change in nothing but the allocation, and only where they had none. */
  lemma {:induction false} FilledAre(k: Order, sib: Order, rows: seq<Item>, j: nat)
    requires j < |k.items|
    ensures var x := Filled(k, sib, rows)[j];
      && x == k.items[j].(ful := x.ful)
      && (HasAlloc(k.items[j].ful) ==> x == k.items[j])
      && (HasAlloc(x.ful) <==> HasAlloc(k.items[j].ful) || exists it :: it in rows && Fills(k, sib, it, j))
  {
    if rows != [] {
      var n := |rows| - 1;
      FilledAre(k, sib, rows[..n], j);
      assert rows == rows[..n] + [rows[n]];
    }
  }

  /** One merge: a keeper row keeps its allocation, and one without ends up allocated exactly
      when the sibling has an allocation for the same goods. */
  lemma KeeperAllocationStays(k: Order, sib: Order, j: nat)
    requires j < |k.items|
    ensures var was, x := k.items[j], MergeOrders(k, sib).items[j];
      && x == was.(ful := x.ful)
      && (HasAlloc(was.ful) ==> x == was)
      && (HasAlloc(x.ful) <==> HasAlloc(was.ful) || exists it :: it in sib.items && Fills(k, sib, it, j))
  {
    FilledAre(k, sib, sib.items, j);
  }

  /** Over all siblings, no allocation of a keeper row is ever overwritten. */
  lemma {:induction false} NoAllocationOverwritten(k: Order, sibs: seq<Order>, j: nat)
    requires j < |k.items|
    ensures var m := MergeList(k, sibs);
      && |m.items| >= |k.items| && m.items[j] == k.items[j].(ful := m.items[j].ful)
      && (HasAlloc(k.items[j].ful) ==> m.items[j] == k.items[j])
  {
    if sibs != [] {
      var n := |sibs| - 1;
      NoAllocationOverwritten(k, sibs[..n], j);
      KeeperAllocationStays(MergeList(k, sibs[..n]), sibs[n], j);
    }
  }

  // ---- nothing is lost ----

  function Oids(items: seq<Item>): set<string> {
    set i | 0 <= i < |items| && items[i].goods.oid != "" :: items[i].goods.oid
  }

  function AllOids(sibs: seq<Order>): set<string> {
    if sibs == [] then {} else AllOids(sibs[..|sibs| - 1]) + Oids(sibs[|sibs| - 1].items)
  }

  function AllWaybills(sibs: seq<Order>): set<string> {
    if sibs == [] then {} else AllWaybills(sibs[..|sibs| - 1]) + Waybills(sibs[|sibs| - 1].shipments)
  }

  /** The rows without a platform line number. */
  function Unnumbered(items: seq<Item>): seq<nat> {
    if items == [] then []
    else
      var it := items[|items| - 1];
      Unnumbered(items[..|items| - 1]) + if it.goods.oid == "" then [it.id] else []
  }

  function AllUnnumbered(sibs: seq<Order>): seq<nat> {
    if sibs == [] then [] else AllUnnumbered(sibs[..|sibs| - 1]) + Unnumbered(sibs[|sibs| - 1].items)
  }

  ghost predicate HasOid(items: seq<Item>, oid: string) {
    exists it :: it in items && it.goods.oid == oid
  }

  lemma OidsAre(items: seq<Item>, oid: string)
    ensures oid in Oids(items) <==> oid != "" && HasOid(items, oid)
  {
    if oid != "" && HasOid(items, oid) {
      var it :| it in items && it.goods.oid == oid;
      var i :| 0 <= i < |items| && items[i] == it;
    }
    if oid in Oids(items) {
      var i :| 0 <= i < |items| && items[i].goods.oid != "" && items[i].goods.oid == oid;
      assert items[i] in items;
    }
  }

  lemma OneMergeOids(k: Order, sib: Order)
    ensures Oids(MergeOrders(k, sib).items) == Oids(k.items) + Oids(sib.items)
  {
    var filled, moved := Filled(k, sib, sib.items), Moved(k, sib, sib.items);
    MovedAre(k, sib, sib.items);
    forall j | 0 <= j < |k.items| ensures filled[j].goods == k.items[j].goods {
      FilledAre(k, sib, sib.items, j);
    }
    forall oid ensures oid in Oids(filled + moved) <==> oid in Oids(k.items) || oid in Oids(sib.items) {
      OidsAre(filled + moved, oid);
      OidsAre(k.items, oid);
      OidsAre(sib.items, oid);
      if oid in Oids(k.items) {
        var j :| 0 <= j < |k.items| && k.items[j].goods.oid == oid;
        assert (filled + moved)[j] == filled[j];
      }
      if HasOid(sib.items, oid) && oid !in Oids(k.items) {
        var it :| it in sib.items && it.goods.oid == oid;
        assert !Dropped(k, it);
        assert Settled(sib, it) in filled + moved;
      }
      if HasOid(filled + moved, oid) {
        var x :| x in filled + moved && x.goods.oid == oid;
        if x in filled {
          var j :| 0 <= j < |filled| && filled[j] == x;
          assert k.items[j] in k.items;
        } else {
          assert x in moved;
        }
      }
    }
  }

  /** The merged order carries the goods of all its orders. */
  lemma {:induction false} OidsAreTheUnion(k: Order, sibs: seq<Order>)
    ensures Oids(MergeList(k, sibs).items) == Oids(k.items) + AllOids(sibs)
  {
    if sibs != [] {
      var n := |sibs| - 1;
      OidsAreTheUnion(k, sibs[..n]);
      OneMergeOids(MergeList(k, sibs[..n]), sibs[n]);
    }
  }

  lemma {:induction false} UnnumberedConcat(a: seq<Item>, b: seq<Item>)
    ensures Unnumbered(a + b) == Unnumbered(a) + Unnumbered(b)
  {
    if b == [] {
      assert a + b == a;
    } else {
      var n := |b| - 1;
      assert (a + b)[..|a| + n] == a + b[..n];
      UnnumberedConcat(a, b[..n]);
    }
  }

  lemma {:induction false} UnnumberedMoved(k: Order, sib: Order, rows: seq<Item>)
    ensures Unnumbered(Moved(k, sib, rows)) == Unnumbered(rows)
  {
    if rows != [] {
      var n := |rows| - 1;
      UnnumberedMoved(k, sib, rows[..n]);
      UnnumberedConcat(Moved(k, sib, rows[..n]), [Settled(sib, rows[n])]);
      assert [Settled(sib, rows[n])][..0] == [];
    }
  }

  lemma {:induction false} UnnumberedSame(a: seq<Item>, b: seq<Item>)
    requires |a| == |b| && forall j :: 0 <= j < |a| ==> a[j] == b[j].(ful := a[j].ful)
    ensures Unnumbered(a) == Unnumbered(b)
  {
    if a != [] {
      UnnumberedSame(a[..|a| - 1], b[..|b| - 1]);
    }
  }

  /** Every row without a platform line number survives, exactly once and in order. */
  lemma {:induction false} UnnumberedRowsSurvive(k: Order, sibs: seq<Order>)
    ensures Unnumbered(MergeList(k, sibs).items) == Unnumbered(k.items) + AllUnnumbered(sibs)
  {
    if sibs != [] {
      var n := |sibs| - 1;
      UnnumberedRowsSurvive(k, sibs[..n]);
      OneMergeUnnumbered(MergeList(k, sibs[..n]), sibs[n]);
      Regroup(Unnumbered(k.items), AllUnnumbered(sibs[..n]), Unnumbered(sibs[n].items));
    }
  }

  lemma Regroup<T>(a: seq<T>, b: seq<T>, c: seq<T>)
    ensures a + b + c == a + (b + c)
  {
  }

  lemma OneMergeUnnumbered(k: Order, sib: Order)
    ensures Unnumbered(MergeOrders(k, sib).items) == Unnumbered(k.items) + Unnumbered(sib.items)
  {
    var filled := Filled(k, sib, sib.items);
    forall j | 0 <= j < |k.items| ensures filled[j] == k.items[j].(ful := filled[j].ful) {
      FilledAre(k, sib, sib.items, j);
    }
    UnnumberedSame(filled, k.items);
    UnnumberedMoved(k, sib, sib.items);
    UnnumberedConcat(filled, Moved(k, sib, sib.items));
  }

  lemma {:induction false} NewShipmentsAre(had: set<string>, shipments: seq<Shipment>)
    ensures forall sh ::
      sh in NewShipments(had, shipments) <==> sh in shipments && !(sh.expressNo != "" && sh.expressNo in had)
  {
    if shipments != [] {
      var n := |shipments| - 1;
      NewShipmentsAre(had, shipments[..n]);
      assert shipments == shipments[..n] + [shipments[n]];
    }
  }

  lemma WaybillsAre(shipments: seq<Shipment>, no: string)
    ensures no in Waybills(shipments) <==> no != "" && exists sh :: sh in shipments && sh.expressNo == no
  {
    if sh :| sh in shipments && sh.expressNo == no {
      var i :| 0 <= i < |shipments| && shipments[i] == sh;
    }
    if no in Waybills(shipments) {
      var i :| 0 <= i < |shipments| && shipments[i].expressNo != "" && shipments[i].expressNo == no;
      assert shipments[i] in shipments;
    }
  }

  lemma {:induction false} OneMergeWaybills(a: seq<Shipment>, b: seq<Shipment>)
    ensures Waybills(a + NewShipments(Waybills(a), b)) == Waybills(a) + Waybills(b)
  {
    var moved := NewShipments(Waybills(a), b);
    NewShipmentsAre(Waybills(a), b);
    forall no ensures no in Waybills(a + moved) <==> no in Waybills(a) || no in Waybills(b) {
      WaybillsAre(a + moved, no);
      WaybillsAre(a, no);
      WaybillsAre(b, no);
    }
  }

  /** The merged order lists the waybills of all its orders. */
  lemma {:induction false} WaybillsAreTheUnion(k: Order, sibs: seq<Order>)
    ensures Waybills(MergeList(k, sibs).shipments) == Waybills(k.shipments) + AllWaybills(sibs)
  {
    if sibs != [] {
      var n := |sibs| - 1;
      WaybillsAreTheUnion(k, sibs[..n]);
      OneMergeWaybills(MergeList(k, sibs[..n]).shipments, sibs[n].shipments);
    }
  }

  lemma {:induction false} NewShipmentsDistinct(had: set<string>, shipments: seq<Shipment>)
    requires DistinctWaybills(shipments)
    ensures DistinctWaybills(NewShipments(had, shipments))
  {
    if shipments != [] {
      var n := |shipments| - 1;
      NewShipmentsDistinct(had, shipments[..n]);
      NewShipmentsAre(had, shipments[..n]);
      var moved := NewShipments(had, shipments[..n]);
      forall i | 0 <= i < |moved| ensures moved[i].expressNo != shipments[n].expressNo {
        assert moved[i] in moved;
        var j :| 0 <= j < n && shipments[..n][j] == moved[i];
      }
    }
  }

  /** ... and each of them once, if the orders did. */
  lemma {:induction false} WaybillsStayDistinct(k: Order, sibs: seq<Order>)
    requires DistinctWaybills(k.shipments) && forall i :: 0 <= i < |sibs| ==> DistinctWaybills(sibs[i].shipments)
    ensures DistinctWaybills(MergeList(k, sibs).shipments)
  {
    if sibs != [] {
      var n := |sibs| - 1;
      WaybillsStayDistinct(k, sibs[..n]);
      var had := MergeList(k, sibs[..n]).shipments;
      NewShipmentsDistinct(Waybills(had), sibs[n].shipments);
      NewShipmentsAre(Waybills(had), sibs[n].shipments);
      var moved := NewShipments(Waybills(had), sibs[n].shipments);
      forall i, j | 0 <= i < |had| && 0 <= j < |moved| ensures had[i].expressNo != moved[j].expressNo {
        assert moved[j] in moved && had[i].expressNo in Waybills(had);
      }
    }
  }

  // ---- one row per platform line ----

  ghost predicate DistinctRootOids(items: seq<Item>) {
    forall i, j :: 0 <= i < j < |items| && IsRoot(items[i]) && IsRoot(items[j]) && items[i].goods.oid != "" ==>
      items[i].goods.oid != items[j].goods.oid
  }

  lemma {:induction false} MovedDistinctRoots(k: Order, sib: Order, rows: seq<Item>)
    requires DistinctRootOids(rows)
    ensures DistinctRootOids(Moved(k, sib, rows))
  {
    if rows != [] {
      var n := |rows| - 1;
      MovedDistinctRoots(k, sib, rows[..n]);
      MovedAre(k, sib, rows[..n]);
      var moved := Moved(k, sib, rows[..n]);
      forall i | 0 <= i < |moved| && IsRoot(moved[i]) && IsRoot(rows[n]) && moved[i].goods.oid != ""
        ensures moved[i].goods.oid != rows[n].goods.oid
      {
        assert moved[i] in moved;
        var it :| it in rows[..n] && !Dropped(k, it) && moved[i] == Settled(sib, it);
        var j :| 0 <= j < n && rows[..n][j] == it;
        assert rows[j] == it && IsRoot(rows[j]);
      }
    }
  }

  /** If no order repeats a platform line among its roots, the merged one does not either. */
  lemma {:induction false} RootsStayDistinct(k: Order, sibs: seq<Order>)
    requires DistinctRootOids(k.items) && forall i :: 0 <= i < |sibs| ==> DistinctRootOids(sibs[i].items)
    ensures DistinctRootOids(MergeList(k, sibs).items)
  {
    if sibs != [] {
      var n := |sibs| - 1;
      RootsStayDistinct(k, sibs[..n]);
      OneMergeRoots(MergeList(k, sibs[..n]), sibs[n]);
    }
  }

  lemma OneMergeRoots(k: Order, sib: Order)
    requires DistinctRootOids(k.items) && DistinctRootOids(sib.items)
    ensures DistinctRootOids(MergeOrders(k, sib).items)
  {
    var filled, moved := Filled(k, sib, sib.items), Moved(k, sib, sib.items);
    MovedDistinctRoots(k, sib, sib.items);
    MovedAre(k, sib, sib.items);
    forall j | 0 <= j < |filled| ensures filled[j] == k.items[j].(ful := filled[j].ful) {
      FilledAre(k, sib, sib.items, j);
    }
    forall i, j | 0 <= i < |filled| && 0 <= j < |moved| && IsRoot(filled[i]) && filled[i].goods.oid != ""
      ensures filled[i].goods.oid != moved[j].goods.oid
    {
      assert moved[j] in moved;
      var it :| it in sib.items && !Dropped(k, it) && moved[j] == Settled(sib, it);
      KeeperRowIs(k.items, it.goods.oid);
      assert IsRoot(k.items[i]);
    }
  }

  // ---- what a dropped row takes with it ----

  ghost predicate HasRow(items: seq<Item>, id: nat) {
    exists it :: it in items && it.id == id
  }

  ghost predicate ParentsPresent(items: seq<Item>) {
    forall it :: it in items && it.parent != 0 ==> HasRow(items, it.parent)
  }

  ghost predicate DropsId(k: Order, sib: Order, id: nat) {
    exists it :: it in sib.items && it.id == id && Dropped(k, it)
  }

  lemma {:induction false} FilledHasRow(k: Order, sib: Order, id: nat)
    ensures HasRow(Filled(k, sib, sib.items), id) <==> HasRow(k.items, id)
  {
    var filled := Filled(k, sib, sib.items);
    forall j | 0 <= j < |filled| ensures filled[j].id == k.items[j].id {
      FilledAre(k, sib, sib.items, j);
    }
    if HasRow(k.items, id) {
      var it :| it in k.items && it.id == id;
      var j :| 0 <= j < |k.items| && k.items[j] == it;
      assert filled[j] in filled;
    }
    if HasRow(filled, id) {
      var x :| x in filled && x.id == id;
      var j :| 0 <= j < |filled| && filled[j] == x;
      assert k.items[j] in k.items;
    }
  }

  lemma {:induction false} MovedHasRow(k: Order, sib: Order, id: nat)
    requires DistinctIds(k.items + sib.items)
    ensures HasRow(Moved(k, sib, sib.items), id) <==> HasRow(sib.items, id) && !DropsId(k, sib, id)
  {
    var moved := Moved(k, sib, sib.items);
    MovedAre(k, sib, sib.items);
    if HasRow(sib.items, id) && !DropsId(k, sib, id) {
      var it :| it in sib.items && it.id == id;
      assert Settled(sib, it) in moved;
    }
    if HasRow(moved, id) {
      var x :| x in moved && x.id == id;
      var it :| it in sib.items && !Dropped(k, it) && x == Settled(sib, it);
      OneRowPerId(k.items, sib.items, it);
    }
  }

  /** After one merge: the keeper's rows and those sibling rows that were not dropped. */
  lemma MergedRows(k: Order, sib: Order, id: nat)
    requires DistinctIds(k.items + sib.items)
    ensures HasRow(MergeOrders(k, sib).items, id)
       <==> HasRow(k.items, id) || (HasRow(sib.items, id) && !DropsId(k, sib, id))
  {
    FilledHasRow(k, sib, id);
    MovedHasRow(k, sib, id);
    HasRowConcat(Filled(k, sib, sib.items), Moved(k, sib, sib.items), id);
  }

  lemma HasRowConcat(a: seq<Item>, b: seq<Item>, id: nat)
    ensures HasRow(a + b, id) <==> HasRow(a, id) || HasRow(b, id)
  {
  }

  lemma OneRowPerId(a: seq<Item>, b: seq<Item>, it: Item)
    requires DistinctIds(a + b) && it in b
    ensures forall p :: p in b && p.id == it.id ==> p == it
    ensures !HasRow(a, it.id)
  {
    var i :| 0 <= i < |b| && b[i] == it;
    assert (a + b)[|a| + i] == it;
    forall p | p in b && p.id == it.id ensures p == it {
      var j :| 0 <= j < |b| && b[j] == p;
      assert (a + b)[|a| + j] == p;
    }
    forall p | p in a ensures p.id != it.id {
      var j :| 0 <= j < |a| && a[j] == p;
      assert (a + b)[j] == p;
    }
  }

  /** Split rows keep their parents exactly when none of the moved ones hangs on a dropped row. */
  lemma ChildrenKeepParents(k: Order, sib: Order)
    requires DistinctIds(k.items + sib.items) && ParentsPresent(k.items) && ParentsPresent(sib.items)
    ensures ParentsPresent(MergeOrders(k, sib).items)
       <==> forall it :: it in sib.items && !Dropped(k, it) && it.parent != 0 ==> !DropsId(k, sib, it.parent)
  {
    var filled, moved := Filled(k, sib, sib.items), Moved(k, sib, sib.items);
    MovedAre(k, sib, sib.items);
    forall j | 0 <= j < |filled| ensures filled[j].parent == k.items[j].parent {
      FilledAre(k, sib, sib.items, j);
    }
    forall it | it in sib.items && !Dropped(k, it) && it.parent != 0
      ensures HasRow(filled + moved, it.parent) <==> !DropsId(k, sib, it.parent)
    {
      MergedRows(k, sib, it.parent);
      var p :| p in sib.items && p.id == it.parent;
      OneRowPerId(k.items, sib.items, p);
    }
    forall x | x in filled && x.parent != 0 ensures HasRow(filled + moved, x.parent) {
      var j :| 0 <= j < |filled| && filled[j] == x;
      assert k.items[j] in k.items;
      MergedRows(k, sib, x.parent);
    }
    if ParentsPresent(filled + moved) {
      forall it | it in sib.items && !Dropped(k, it) && it.parent != 0 ensures !DropsId(k, sib, it.parent) {
        assert Settled(sib, it) in filled + moved;
      }
    }
  }

  ghost predicate ShipsDropped(k: Order, sib: Order) {
    exists sh, r :: sh in NewShipments(Waybills(k.shipments), sib.shipments) && r in sh.rows
      && DropsId(k, sib, r.itemId)
  }

  ghost predicate RowsLive(items: seq<Item>, shipments: seq<Shipment>) {
    forall sh, r :: sh in shipments && r in sh.rows ==> HasRow(items, r.itemId)
  }

  /** Shipment rows keep referring to rows of the order exactly when no moved waybill shipped a dropped row. */
  lemma ShipmentRowsStayLive(k: Order, sib: Order)
    requires DistinctIds(k.items + sib.items) && RowsLive(k.items, k.shipments) && RowsLive(sib.items, sib.shipments)
    ensures var m := MergeOrders(k, sib);
      RowsLive(m.items, m.shipments) <==> !ShipsDropped(k, sib)
  {
    var m, moved := MergeOrders(k, sib), NewShipments(Waybills(k.shipments), sib.shipments);
    NewShipmentsAre(Waybills(k.shipments), sib.shipments);
    forall sh, r | sh in moved && r in sh.rows ensures HasRow(m.items, r.itemId) <==> !DropsId(k, sib, r.itemId) {
      MergedRows(k, sib, r.itemId);
      var p :| p in sib.items && p.id == r.itemId;
      OneRowPerId(k.items, sib.items, p);
    }
    forall sh, r | sh in k.shipments && r in sh.rows ensures HasRow(m.items, r.itemId) {
      MergedRows(k, sib, r.itemId);
    }
    if ShipsDropped(k, sib) {
      var sh, r :| sh in moved && r in sh.rows && DropsId(k, sib, r.itemId);
      assert sh in m.shipments && !HasRow(m.items, r.itemId);
    }
  }

  const KEPT_ROW :=
    Item(1, 1, 0, "", Goods("A", "", "", "", ""), 1, 0, 0, false, 0, NoSplit, 0, 0, NO_FULFILMENT)
  const DUPLICATE_ROW := KEPT_ROW.(id := 2)
  const CHILD_ROW := KEPT_ROW.(id := 3, goods := Goods("", "", "", "", ""), parent := 2, split := Partial)
  const KEEPING :=
    Order(2, Kdzs, "T", "R", 0, WaitSend, false, false, false, PendingAlloc, AGENT_SELF, NO_FULFILMENT, None, 0, 0,
          [KEPT_ROW], [])
  const MERGED_AWAY :=
    KEEPING.(id := 1, sysTid := "S", status := Closed, items := [DUPLICATE_ROW, CHILD_ROW],
             shipments := [Shipment(1, "", "W", [ShipRow(2, 1)])])

  /** Both do fail: the duplicate row is dropped, its split row moves on without a parent, and its waybill
      ships a row that is gone. */
  lemma DroppedRowLeavesOrphans()
    ensures ParentsPresent(KEEPING.items) && ParentsPresent(MERGED_AWAY.items)
    ensures RowsLive(KEEPING.items, KEEPING.shipments) && RowsLive(MERGED_AWAY.items, MERGED_AWAY.shipments)
    ensures var m := MergeOrders(KEEPING, MERGED_AWAY);
      !ParentsPresent(m.items) && !RowsLive(m.items, m.shipments)
  {
    var k, sib := KEEPING, MERGED_AWAY;
    assert sib.items[0] == DUPLICATE_ROW && DUPLICATE_ROW in sib.items;
    assert sib.items[1] == CHILD_ROW && CHILD_ROW in sib.items;
    assert HasRow(sib.items, 2);
    KeeperRowIs(k.items, "A");
    assert IsRoot(k.items[0]) && Dropped(k, DUPLICATE_ROW) && DropsId(k, sib, 2);
    assert !Dropped(k, CHILD_ROW);
    ChildrenKeepParents(k, sib);
    WaybillOfDroppedRow(k, sib);
    ShipmentRowsStayLive(k, sib);
  }

  lemma WaybillOfDroppedRow(k: Order, sib: Order)
    requires k.shipments == [] && sib.shipments == [Shipment(1, "", "W", [ShipRow(2, 1)])] && DropsId(k, sib, 2)
    ensures ShipsDropped(k, sib)
  {
    var sh := sib.shipments[0];
    assert sib.shipments[..0] == [];
    assert sh in NewShipments(Waybills(k.shipments), sib.shipments);
    assert sh.rows[0] in sh.rows;
  }

  // ---- the header afterwards ----

  /** The roll-up after a merge spares the status of a finished order and a shipped ship status. */
  ghost function RolledHeader(o: Order): Order {
    match Rollup.RollupOf(o)
    case None => o
    case Some(sum) =>
      var spared := o.head.shipStatus == Shipped || o.status == Completed || o.status == Closed;
      o.(head := sum.head.(shipStatus := if o.head.shipStatus == Shipped then Shipped else sum.head.shipStatus),
         status := if spared then o.status else sum.status,
         agentType := sum.agentType)
  }

  /** Only a shipped header is protected: any other waits again exactly when none of its allocated rows has left. */
  lemma HeaderAfterMerge(o: Order)
    requires Rollup.AnyRoot(o)
    ensures RolledHeader(o).head.shipStatus == WaitShip
       <==> o.head.shipStatus != Shipped
            && forall it :: it in o.items && Rollup.AllocatedRoot(it) ==>
              it.ful.shipStatus != Shipped && it.ful.shipStatus != PartialShipped
  {
    Rollup.HeaderShipMeaning(o);
  }

  /** The amount of the unsplit rows: the line total where there is one, else price times quantity. */
  function ItemAmounts(items: seq<Item>): int {
    if items == [] then 0
    else
      var it := items[|items| - 1];
      ItemAmounts(items[..|items| - 1])
      + if it.split != NoSplit then 0 else if it.total > 0 then it.total else it.price * it.quantity
  }

  function Repriced(o: Order): Order {
    if ItemAmounts(o.items) > 0 then o.(pay := ItemAmounts(o.items), total := ItemAmounts(o.items)) else o
  }

  // ---- the shop ----

  /** The stored orders by key, the packages by system number, and the package row each
      order's own header describes (remarks and platform status). */
  datatype Shop = Shop(
    orders: map<nat, Order>,
    packages: map<string, PackageTable.Package>,
    labels: nat -> PackageTable.Package)

  ghost predicate ShopOk(shop: Shop) {
    forall id :: id in shop.orders ==> id > 0 && shop.orders[id].id == id
  }

  predicate InFamily(o: Order, tid: string) {
    o.channel == Kdzs && o.tid == tid
  }

  /** The orders of one platform order, oldest first. */
  function Family(orders: map<nat, Order>, tid: string, below: nat): seq<nat> {
    if below == 0 || tid == "" then []
    else
      var id := below - 1;
      Family(orders, tid, id) + if id in orders && InFamily(orders[id], tid) then [id] else []
  }

  lemma {:induction false} FamilyIs(orders: map<nat, Order>, tid: string, below: nat)
    requires tid != ""
    ensures forall id :: id in Family(orders, tid, below) <==> id < below && id in orders && InFamily(orders[id], tid)
    ensures forall i, j :: 0 <= i < j < |Family(orders, tid, below)| ==>
      Family(orders, tid, below)[i] < Family(orders, tid, below)[j]
  {
    if below > 0 {
      var before := Family(orders, tid, below - 1);
      FamilyIs(orders, tid, below - 1);
      forall i | 0 <= i < |before| ensures before[i] < below - 1 {
        assert before[i] in before;
      }
    }
  }

  function Listed(orders: map<nat, Order>, ids: seq<nat>): seq<Order> {
    if ids == [] then []
    else
      var id := ids[|ids| - 1];
      Listed(orders, ids[..|ids| - 1]) + if id in orders then [orders[id]] else []
  }

  function Tids(orders: map<nat, Order>): map<nat, string> {
    map id | id in orders :: orders[id].tid
  }

  /** The sibling's package is registered under the keeper, then everything still the sibling's goes. */
  function PackagesAfter(shop: Shop, k: nat, s: nat): map<string, PackageTable.Package>
    requires s in shop.orders
  {
    var tables := PackageTable.Tables(shop.packages, Tids(shop.orders));
    var pkg := shop.labels(s).(orderId := k, mailNo := "", isPrimary := false);
    var upsert := PackageTable.Upsert(BaseSysTid(shop.orders[s].sysTid), pkg);
    var upserted := PackageTable.UpsertPackage(tables, upsert).packages;
    map x | x in upserted && upserted[x].orderId != s :: upserted[x]
  }

  function OrdersAfter(orders: map<nat, Order>, k: nat, s: nat): map<nat, Order> {
    if s == k || k !in orders || s !in orders then orders
    else (orders - {s})[k := MergeOrders(orders[k], orders[s])]
  }

  function MergeSibling(shop: Shop, k: nat, s: nat): Shop {
    if s == k || k !in shop.orders || s !in shop.orders then shop
    else shop.(orders := OrdersAfter(shop.orders, k, s), packages := PackagesAfter(shop, k, s))
  }

  function MergeSiblings(shop: Shop, k: nat, ids: seq<nat>): Shop {
    if ids == [] then shop else MergeSibling(MergeSiblings(shop, k, ids[..|ids| - 1]), k, ids[|ids| - 1])
  }

  ghost function Finished(o: Order, merged: bool): Order {
    Repriced(if merged then RolledHeader(o) else o)
  }

  /** All into the one that keeps, if any does. */
  ghost function MergeFamily(shop: Shop, ids: seq<nat>): Shop {
    var keeper := Keeper(Listed(shop.orders, ids));
    if keeper.None? then shop
    else
      var k := keeper.value.id;
      var after := MergeSiblings(shop, k, ids);
      if k !in after.orders then after
      else after.(orders := after.orders[k := Finished(after.orders[k], |ids| > 1)])
  }

  ghost function ForceMerge(shop: Shop, tid: string, below: nat): Shop {
    if tid == "" then shop else MergeFamily(shop, Family(shop.orders, tid, below))
  }

  /** The sibling's package is lost exactly when the sibling is the older order; so is any other
      package it had. */
  lemma PackagesLost(shop: Shop, k: nat, s: nat, x: string)
    requires ShopOk(shop) && k in shop.orders && s in shop.orders && k != s
    requires shop.orders[k].tid == shop.orders[s].tid != ""
    ensures var base, was := BaseSysTid(shop.orders[s].sysTid), shop.packages;
      x in PackagesAfter(shop, k, s) <==>
        if x == base && x != "" then !(x in was && was[x].orderId == s && s < k)
        else x in was && was[x].orderId != s
  {
  }

  /** It does happen: a closed older order merged into a younger open one takes its package with it. */
  lemma OlderSiblingLosesPackage(pkg: PackageTable.Package)
    ensures var shop := Shop(map[1 := MERGED_AWAY, 2 := KEEPING], map["S" := pkg.(orderId := 1)], id => pkg);
      && Keeper([MERGED_AWAY, KEEPING]) == Some(KEEPING)
      && "S" in shop.packages && "S" !in PackagesAfter(shop, 2, 1)
  {
    var list := [MERGED_AWAY, KEEPING];
    assert list[..1] == [MERGED_AWAY] && [MERGED_AWAY][..0] == [];
    assert Best([MERGED_AWAY]) == Some(MERGED_AWAY);
    assert IndexOf("S", "#split").None? && IndexOf("R", "#split").None?;
    assert IndexOf("S", "#dup").None? && IndexOf("S", "#alloc").None?;
    assert SUFFIXES[1..] == ["#dup", "#alloc"] && SUFFIXES[1..][1..] == ["#alloc"] && SUFFIXES[1..][1..][1..] == [];
    assert BaseSysTid("S") == "S";
    var shop := Shop(map[1 := MERGED_AWAY, 2 := KEEPING], map["S" := pkg.(orderId := 1)], id => pkg);
    PackagesLost(shop, 2, 1, "S");
  }

  function Siblings(orders: map<nat, Order>, k: nat, ids: seq<nat>): seq<Order> {
    if ids == [] then []
    else
      var id := ids[|ids| - 1];
      Siblings(orders, k, ids[..|ids| - 1]) + if id != k && id in orders then [orders[id]] else []
  }

  function OrdersAfterAll(orders: map<nat, Order>, k: nat, ids: seq<nat>): map<nat, Order> {
    if ids == [] then orders else OrdersAfter(OrdersAfterAll(orders, k, ids[..|ids| - 1]), k, ids[|ids| - 1])
  }

  lemma {:induction false} MergeSiblingsOrders(shop: Shop, k: nat, ids: seq<nat>)
    ensures MergeSiblings(shop, k, ids).orders == OrdersAfterAll(shop.orders, k, ids)
    ensures MergeSiblings(shop, k, ids).labels == shop.labels
  {
    if ids != [] { MergeSiblingsOrders(shop, k, ids[..|ids| - 1]); }
  }

  /** Merging a list of keys removes their orders, except the keeper, and touches no other ... */
  lemma {:induction false} OthersUntouched(orders: map<nat, Order>, k: nat, ids: seq<nat>, id: nat)
    requires k in orders
    ensures var after := OrdersAfterAll(orders, k, ids);
      && k in after
      && (id in after <==> id in orders && (id == k || id !in ids))
      && (id in after && id != k ==> after[id] == orders[id])
  {
    if ids != [] {
      var n := |ids| - 1;
      OthersUntouched(orders, k, ids[..n], id);
      assert id in ids <==> id in ids[..n] || id == ids[n];
    }
  }

  /** ... and leaves the keeper with what they all held. */
  lemma {:induction false} KeeperHasAll(orders: map<nat, Order>, k: nat, ids: seq<nat>)
    requires k in orders && NoRepeats(ids)
    ensures k in OrdersAfterAll(orders, k, ids)
    ensures OrdersAfterAll(orders, k, ids)[k] == MergeList(orders[k], Siblings(orders, k, ids))
  {
    if ids != [] {
      var n := |ids| - 1;
      KeeperHasAll(orders, k, ids[..n]);
      OthersUntouched(orders, k, ids[..n], ids[n]);
      assert ids[n] !in ids[..n];
      var mid, sibs := OrdersAfterAll(orders, k, ids[..n]), Siblings(orders, k, ids[..n]);
      if ids[n] in orders && ids[n] != k {
        MergeListStep(orders[k], sibs, ids[n], orders);
        assert OrdersAfter(mid, k, ids[n])[k] == MergeOrders(mid[k], orders[ids[n]]);
      } else {
        assert OrdersAfter(mid, k, ids[n]) == mid;
        assert Siblings(orders, k, ids) == sibs;
      }
    }
  }

  lemma {:induction false} MergeListStep(k: Order, sibs: seq<Order>, id: nat, orders: map<nat, Order>)
    requires id in orders
    ensures MergeList(k, sibs + [orders[id]]) == MergeOrders(MergeList(k, sibs), orders[id])
  {
    assert (sibs + [orders[id]])[..|sibs|] == sibs;
  }

  lemma {:induction false} ListedAre(orders: map<nat, Order>, ids: seq<nat>)
    ensures forall o :: o in Listed(orders, ids) <==> exists id :: id in ids && id in orders && o == orders[id]
  {
    if ids != [] {
      var n := |ids| - 1;
      ListedAre(orders, ids[..n]);
      assert ids == ids[..n] + [ids[n]];
    }
  }

  ghost predicate HasUnsplit(shop: Shop, tid: string) {
    exists id :: id in shop.orders && InFamily(shop.orders[id], tid) && !SplitOff(shop.orders[id])
  }

  lemma FamilyKeeper(shop: Shop, tid: string, below: nat) returns (ids: seq<nat>, k: Option<nat>)
    requires ShopOk(shop) && tid != "" && forall id :: id in shop.orders ==> id < below
    ensures ids == Family(shop.orders, tid, below)
    ensures forall id :: id in ids <==> id in shop.orders && InFamily(shop.orders[id], tid)
    ensures NoRepeats(ids)
    ensures k.Some? <==> HasUnsplit(shop, tid)
    ensures k.Some? ==> k.value in ids && !SplitOff(shop.orders[k.value])
    ensures Keeper(Listed(shop.orders, ids)) == if k.Some? then Some(shop.orders[k.value]) else None
  {
    FamilyIs(shop.orders, tid, below);
    ids := Family(shop.orders, tid, below);
    var list := Listed(shop.orders, ids);
    ListedAre(shop.orders, ids);
    KeeperIs(list);
    if HasUnsplit(shop, tid) {
      var id :| id in shop.orders && InFamily(shop.orders[id], tid) && !SplitOff(shop.orders[id]);
      assert shop.orders[id] in list;
    }
    k := None;
    if Keeper(list).Some? {
      var id :| id in ids && id in shop.orders && Keeper(list).value == shop.orders[id];
      k := Some(id);
    }
  }

  lemma ForceMergeSteps(shop: Shop, tid: string, below: nat) returns (ids: seq<nat>, k: Option<nat>)
    requires ShopOk(shop) && tid != "" && forall id :: id in shop.orders ==> id < below
    ensures ids == Family(shop.orders, tid, below) && NoRepeats(ids)
    ensures forall id :: id in ids <==> id in shop.orders && InFamily(shop.orders[id], tid)
    ensures k.Some? <==> HasUnsplit(shop, tid)
    ensures k.Some? ==> k.value in shop.orders
    ensures Keeper(Listed(shop.orders, ids)) == if k.Some? then Some(shop.orders[k.value]) else None
    ensures k.None? ==> ForceMerge(shop, tid, below) == shop
    ensures k.Some? ==>
      var after := MergeSiblings(shop, k.value, ids);
      && k.value in ids && !SplitOff(shop.orders[k.value]) && k.value in after.orders
      && ForceMerge(shop, tid, below)
         == after.(orders := after.orders[k.value := Finished(after.orders[k.value], |ids| > 1)])
  {
    ids, k := FamilyKeeper(shop, tid, below);
    if k.Some? {
      MergeSiblingsOrders(shop, k.value, ids);
      KeeperHasAll(shop.orders, k.value, ids);
    }
  }

  lemma ForceMergeIs(shop: Shop, tid: string, below: nat) returns (ids: seq<nat>, k: Option<nat>)
    requires ShopOk(shop) && tid != "" && forall id :: id in shop.orders ==> id < below
    ensures ids == Family(shop.orders, tid, below) && NoRepeats(ids)
    ensures forall id :: id in ids <==> id in shop.orders && InFamily(shop.orders[id], tid)
    ensures k.Some? <==> HasUnsplit(shop, tid)
    ensures k.None? ==> ForceMerge(shop, tid, below) == shop
    ensures k.Some? ==> k.value in ids && !SplitOff(shop.orders[k.value])
    ensures k.Some? ==>
      var after, merged := ForceMerge(shop, tid, below),
        MergeList(shop.orders[k.value], Siblings(shop.orders, k.value, ids));
      && after.orders == OrdersAfterAll(shop.orders, k.value, ids)[k.value := Finished(merged, |ids| > 1)]
      && after.packages == MergeSiblings(shop, k.value, ids).packages && after.labels == shop.labels
  {
    ids, k := ForceMergeSteps(shop, tid, below);
    if k.Some? {
      MergeSiblingsOrders(shop, k.value, ids);
      KeeperHasAll(shop.orders, k.value, ids);
    }
  }

  lemma FinishedTwice(o: Order, merged: bool)
    ensures Finished(Finished(o, merged), false) == Finished(o, merged)
  {
  }

  /** Where some order was not split off, a merge leaves exactly one order of the platform order, the
      keeper, holding what all of them held; where none was, it changes nothing. Other orders stay. */
  lemma OneOrderLeft(shop: Shop, tid: string, below: nat) returns (k: Option<nat>)
    requires ShopOk(shop) && tid != "" && forall id :: id in shop.orders ==> id < below
    ensures k.Some? <==> HasUnsplit(shop, tid)
    ensures k.None? ==> ForceMerge(shop, tid, below) == shop
    ensures k.Some? ==>
      && k.value in shop.orders && k.value in ForceMerge(shop, tid, below).orders
      && !SplitOff(shop.orders[k.value])
      && OnlyInFamily(shop.orders, ForceMerge(shop, tid, below).orders, k.value, tid)
      && HoldsAll(shop.orders[k.value], Siblings(shop.orders, k.value, Family(shop.orders, tid, below)),
                  ForceMerge(shop, tid, below).orders[k.value])
  {
    var ids;
    ids, k := ForceMergeIs(shop, tid, below);
    if k.Some? {
      forall id ensures OthersUntouchedAt(shop.orders, ForceMerge(shop, tid, below).orders, k.value, ids, id) {
        OthersUntouched(shop.orders, k.value, ids, id);
      }
      MergeListHeader(shop.orders[k.value], Siblings(shop.orders, k.value, ids));
      var merged := MergeList(shop.orders[k.value], Siblings(shop.orders, k.value, ids));
      FinishedKeeps(merged, |ids| > 1);
      FamilyShrinks(shop.orders, ForceMerge(shop, tid, below).orders, k.value, ids, tid);
    }
  }

  predicate OthersUntouchedAt(before: map<nat, Order>, after: map<nat, Order>, k: nat, ids: seq<nat>, id: nat) {
    && (id in after <==> id in before && (id == k || id !in ids))
    && (id in after && id != k ==> after[id] == before[id])
  }

  /** The keeper is what is left of the family, and the orders outside it are as they were. */
  ghost predicate OnlyInFamily(before: map<nat, Order>, after: map<nat, Order>, k: nat, tid: string) {
    && (forall id :: id in after && InFamily(after[id], tid) <==> id == k)
    && (forall id :: id in after && id != k <==> id in before && !InFamily(before[id], tid))
    && (forall id :: id in after && id != k ==> after[id] == before[id])
  }

  ghost predicate HoldsAll(k: Order, sibs: seq<Order>, after: Order) {
    && after.items == MergeList(k, sibs).items && after.shipments == MergeList(k, sibs).shipments
    && after.id == k.id && after.tid == k.tid && after.channel == k.channel
    && after.sysTid == k.sysTid && after.splitFrom == k.splitFrom
  }

  lemma FamilyShrinks(before: map<nat, Order>, after: map<nat, Order>, k: nat, ids: seq<nat>, tid: string)
    requires forall id :: OthersUntouchedAt(before, after, k, ids, id)
    requires forall id :: id in ids <==> id in before && InFamily(before[id], tid)
    requires k in ids && k in after && InFamily(after[k], tid)
    ensures OnlyInFamily(before, after, k, tid)
  {
    forall id
      ensures id in after && InFamily(after[id], tid) <==> id == k
      ensures id in after && id != k <==> id in before && !InFamily(before[id], tid)
      ensures id in after && id != k ==> after[id] == before[id]
    {
      assert OthersUntouchedAt(before, after, k, ids, id);
    }
  }

  lemma FinishedKeeps(o: Order, merged: bool)
    ensures var p := Finished(o, merged);
      && p.items == o.items && p.shipments == o.shipments && p.id == o.id && p.tid == o.tid
      && p.channel == o.channel && p.sysTid == o.sysTid && p.splitFrom == o.splitFrom
  {
  }

  lemma {:induction false} MergeListHeader(k: Order, sibs: seq<Order>)
    ensures MergeList(k, sibs) == k.(items := MergeList(k, sibs).items, shipments := MergeList(k, sibs).shipments)
  {
    if sibs != [] { MergeListHeader(k, sibs[..|sibs| - 1]); }
  }

  /** Merging again changes nothing. */
  lemma MergeIsIdempotent(shop: Shop, tid: string, below: nat)
    requires ShopOk(shop) && forall id :: id in shop.orders ==> id < below
    ensures ForceMerge(ForceMerge(shop, tid, below), tid, below).orders == ForceMerge(shop, tid, below).orders
    ensures ForceMerge(ForceMerge(shop, tid, below), tid, below).packages == ForceMerge(shop, tid, below).packages
  {
    if tid != "" {
      var k := OneOrderLeft(shop, tid, below);
      if k.Some? {
        AloneIsFinished(ForceMerge(shop, tid, below), tid, below, k.value);
        KeeperIsFinished(shop, tid, below, k.value);
      }
    }
  }

  lemma KeeperIsFinished(shop: Shop, tid: string, below: nat, k: nat)
    requires ShopOk(shop) && tid != "" && (forall id :: id in shop.orders ==> id < below) && HasUnsplit(shop, tid)
    requires k in ForceMerge(shop, tid, below).orders
    requires OnlyInFamily(shop.orders, ForceMerge(shop, tid, below).orders, k, tid)
    ensures var o := ForceMerge(shop, tid, below).orders[k]; Finished(o, false) == o
  {
    var ids, j := ForceMergeIs(shop, tid, below);
    var merged := MergeList(shop.orders[j.value], Siblings(shop.orders, j.value, ids));
    MergeListHeader(shop.orders[j.value], Siblings(shop.orders, j.value, ids));
    FinishedKeeps(merged, |ids| > 1);
    assert InFamily(ForceMerge(shop, tid, below).orders[j.value], tid);
    FinishedTwice(merged, |ids| > 1);
  }

  /** Merging a family of one only recomputes the amount. */
  lemma AloneIsFinished(shop: Shop, tid: string, below: nat, k: nat)
    requires ShopOk(shop) && tid != "" && forall id :: id in shop.orders ==> id < below
    requires k in shop.orders && !SplitOff(shop.orders[k])
    requires forall id :: id in shop.orders && InFamily(shop.orders[id], tid) <==> id == k
    ensures ForceMerge(shop, tid, below).orders == shop.orders[k := Finished(shop.orders[k], false)]
    ensures ForceMerge(shop, tid, below).packages == shop.packages
  {
    assert HasUnsplit(shop, tid);
    var ids, again := ForceMergeIs(shop, tid, below);
    assert k in ids;
    OnlyOne(ids, k);
    assert ids[..0] == [];
    assert Siblings(shop.orders, k, ids) == [];
    assert OrdersAfterAll(shop.orders, k, ids) == shop.orders;
    assert MergeSiblings(shop, k, ids) == shop;
  }

  lemma OnlyOne(ids: seq<nat>, k: nat)
    requires k in ids && (forall id :: id in ids ==> id == k)
    requires NoRepeats(ids)
    ensures ids == [k]
  {
    assert ids[|ids| - 1] in ids && ids[0] in ids;
  }

  // ---- everything is in the one that is left ----

  predicate SiblingGoods(orders: map<nat, Order>, k: nat, id: nat, x: string) {
    id != k && id in orders && x in Oids(orders[id].items)
  }

  predicate SiblingWaybill(orders: map<nat, Order>, k: nat, id: nat, x: string) {
    id != k && id in orders && x in Waybills(orders[id].shipments)
  }

  lemma {:induction false} AllStep(sibs: seq<Order>, o: Order)
    ensures AllOids(sibs + [o]) == AllOids(sibs) + Oids(o.items)
    ensures AllWaybills(sibs + [o]) == AllWaybills(sibs) + Waybills(o.shipments)
  {
    assert (sibs + [o])[..|sibs|] == sibs;
  }

  lemma {:induction false} SiblingsStep(orders: map<nat, Order>, k: nat, ids: seq<nat>)
    requires ids != []
    ensures var last, sibs, all := ids[|ids| - 1], Siblings(orders, k, ids[..|ids| - 1]), Siblings(orders, k, ids);
      && AllOids(all) == AllOids(sibs) + (if last != k && last in orders then Oids(orders[last].items) else {})
      && AllWaybills(all)
         == AllWaybills(sibs) + if last != k && last in orders then Waybills(orders[last].shipments) else {}
  {
    var last, sibs := ids[|ids| - 1], Siblings(orders, k, ids[..|ids| - 1]);
    if last != k && last in orders {
      AllStep(sibs, orders[last]);
    } else {
      assert Siblings(orders, k, ids) == sibs;
    }
  }

  lemma {:induction false} GoodsHolder(orders: map<nat, Order>, k: nat, ids: seq<nat>, x: string) returns (id: nat)
    requires x in AllOids(Siblings(orders, k, ids))
    ensures id in ids && SiblingGoods(orders, k, id, x)
  {
    var last, sibs := ids[|ids| - 1], Siblings(orders, k, ids[..|ids| - 1]);
    id := last;
    SiblingsStep(orders, k, ids);
    if !SiblingGoods(orders, k, last, x) {
      id := GoodsHolder(orders, k, ids[..|ids| - 1], x);
    }
  }

  lemma {:induction false} GoodsHeld(orders: map<nat, Order>, k: nat, ids: seq<nat>, x: string, id: nat)
    requires id in ids && SiblingGoods(orders, k, id, x)
    ensures x in AllOids(Siblings(orders, k, ids))
  {
    SiblingsStep(orders, k, ids);
    if id != ids[|ids| - 1] {
      GoodsHeld(orders, k, ids[..|ids| - 1], x, id);
    }
  }

  lemma {:induction false} WaybillHolder(orders: map<nat, Order>, k: nat, ids: seq<nat>, x: string) returns (id: nat)
    requires x in AllWaybills(Siblings(orders, k, ids))
    ensures id in ids && SiblingWaybill(orders, k, id, x)
  {
    var last, sibs := ids[|ids| - 1], Siblings(orders, k, ids[..|ids| - 1]);
    id := last;
    SiblingsStep(orders, k, ids);
    if !SiblingWaybill(orders, k, last, x) {
      id := WaybillHolder(orders, k, ids[..|ids| - 1], x);
    }
  }

  lemma {:induction false} WaybillHeld(orders: map<nat, Order>, k: nat, ids: seq<nat>, x: string, id: nat)
    requires id in ids && SiblingWaybill(orders, k, id, x)
    ensures x in AllWaybills(Siblings(orders, k, ids))
  {
    SiblingsStep(orders, k, ids);
    if id != ids[|ids| - 1] {
      WaybillHeld(orders, k, ids[..|ids| - 1], x, id);
    }
  }

  /** The goods and the waybills of the order left are those of the whole family. */
  lemma NothingLost(shop: Shop, tid: string, below: nat, x: string) returns (k: Option<nat>)
    requires ShopOk(shop) && tid != "" && forall id :: id in shop.orders ==> id < below
    ensures k.Some? <==> HasUnsplit(shop, tid)
    ensures k.Some? ==> k.value in ForceMerge(shop, tid, below).orders
    ensures k.Some? ==>
      (x in Oids(ForceMerge(shop, tid, below).orders[k.value].items)
       <==> exists id :: id in shop.orders && InFamily(shop.orders[id], tid) && x in Oids(shop.orders[id].items))
    ensures k.Some? ==>
      (x in Waybills(ForceMerge(shop, tid, below).orders[k.value].shipments)
       <==> exists id ::
         id in shop.orders && InFamily(shop.orders[id], tid) && x in Waybills(shop.orders[id].shipments))
  {
    k := OneOrderLeft(shop, tid, below);
    if k.Some? {
      var ids, same := ForceMergeIs(shop, tid, below);
      var after := ForceMerge(shop, tid, below).orders[k.value];
      var sibs := Siblings(shop.orders, k.value, ids);
      assert k.value in ids by {
        assert InFamily(after, tid) && shop.orders[k.value].tid == after.tid;
      }
      if x in AllOids(sibs) { var holder := GoodsHolder(shop.orders, k.value, ids, x); }
      if x in AllWaybills(sibs) { var holder := WaybillHolder(shop.orders, k.value, ids, x); }
      forall id | id in ids && SiblingGoods(shop.orders, k.value, id, x) ensures x in AllOids(sibs) {
        GoodsHeld(shop.orders, k.value, ids, x, id);
      }
      forall id | id in ids && SiblingWaybill(shop.orders, k.value, id, x) ensures x in AllWaybills(sibs) {
        WaybillHeld(shop.orders, k.value, ids, x, id);
      }
      OidsAreTheUnion(shop.orders[k.value], sibs);
      WaybillsAreTheUnion(shop.orders[k.value], sibs);
    }
  }
}
