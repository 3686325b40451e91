/** Where the allocation of every row of a merged order comes from: the row's own
    before its order's header, and for a row of the order that keeps, its own
    before that of the first sibling that has one. Told on the columns. */
module MergedRows {
  import opened OrderModel
  import Rollup
  import opened SiblingMerge

  // ---- what a sibling has to offer ----

  /** The columns of a header, on a row: an empty ship status reads as waiting. */
  predicate HeadersColumns(f: Fulfilment, head: Fulfilment) {
    && f.allocType == head.allocType && f.mode == head.mode
    && f.supplierId == head.supplierId && f.supplierName == head.supplierName
    && f.factoryId == head.factoryId && f.factoryName == head.factoryName
    && f.poNo == head.poNo && f.selfNo == head.selfNo && f.allocatedAt == head.allocatedAt
    && f.shipStatus == if head.shipStatus == NoShip then WaitShip else head.shipStatus
  }

  /** What a sibling's row stands for: its own allocation if it has one, its header's if only that has one. */
  predicate Offers(sib: Order, it: Item, f: Fulfilment) {
    if it.ful.allocType != Unallocated then f == it.ful
    else sib.head.allocType != Unallocated && HeadersColumns(f, sib.head)
  }

  /** The row as it arrives: what it stands for, or as it is if it stands for nothing. */
  predicate ArrivesAs(sib: Order, it: Item, x: Item) {
    && x == it.(ful := x.ful)
    && if it.ful.allocType == Unallocated && sib.head.allocType == Unallocated then x.ful == it.ful
       else Offers(sib, it, x.ful)
  }

  /** Among the rows there is no root for the platform line. */
  predicate NoRootFor(items: seq<Item>, oid: string) {
    oid == "" || forall j :: 0 <= j < |items| && items[j].split == NoSplit && items[j].parent == 0 ==>
      items[j].goods.oid != oid
  }

  lemma SettledArrives(sib: Order, it: Item)
    ensures ArrivesAs(sib, it, Settled(sib, it))
    ensures HasAlloc(RowFulfilment(sib, it)) <==> exists f :: Offers(sib, it, f)
    ensures HasAlloc(RowFulfilment(sib, it)) ==> Offers(sib, it, RowFulfilment(sib, it))
  {
    if HasAlloc(RowFulfilment(sib, it)) { assert Offers(sib, it, RowFulfilment(sib, it)); }
  }

  lemma {:induction false} NoRootIs(items: seq<Item>, oid: string)
    ensures KeeperRow(items, oid).None? <==> NoRootFor(items, oid)
  {
    KeeperRowIs(items, oid);
  }

  // ---- rows that move over ----

  /** A sibling's row moves over exactly if its platform line has no root there, and arrives as it should; and
      what follows the rows that were there are such rows. */
  lemma RowsArrive(k: Order, sib: Order)
    ensures forall it :: it in sib.items && NoRootFor(k.items, it.goods.oid) ==>
      exists x :: x in MergeOrders(k, sib).items && ArrivesAs(sib, it, x)
    ensures forall i :: |k.items| <= i < |MergeOrders(k, sib).items| ==>
      ArrivedFrom(k, sib, MergeOrders(k, sib).items[i])
  {
    var filled, moved := Filled(k, sib, sib.items), Moved(k, sib, sib.items);
    MovedAre(k, sib, sib.items);
    forall it | it in sib.items && NoRootFor(k.items, it.goods.oid)
      ensures exists x :: x in MergeOrders(k, sib).items && ArrivesAs(sib, it, x)
    {
      NoRootIs(k.items, it.goods.oid);
      SettledArrives(sib, it);
      assert Settled(sib, it) in filled + moved;
    }
    forall i | |k.items| <= i < |MergeOrders(k, sib).items| ensures ArrivedFrom(k, sib, MergeOrders(k, sib).items[i]) {
      assert (filled + moved)[i] == moved[i - |filled|] && moved[i - |filled|] in moved;
      var it :| it in sib.items && !Dropped(k, it) && moved[i - |filled|] == Settled(sib, it);
      NoRootIs(k.items, it.goods.oid);
      SettledArrives(sib, it);
    }
  }

  ghost predicate ArrivedFrom(k: Order, sib: Order, x: Item) {
    exists it :: it in sib.items && NoRootFor(k.items, it.goods.oid) && ArrivesAs(sib, it, x)
  }

  // ---- rows that were there ----

  /** The root that stands for its platform line: the last one. */
  predicate StandsForLine(items: seq<Item>, j: nat) {
    j < |items| && items[j].split == NoSplit && items[j].parent == 0 && items[j].goods.oid != ""
    && forall i :: j < i < |items| && items[i].split == NoSplit && items[i].parent == 0 ==>
      items[i].goods.oid != items[j].goods.oid
  }

  /** The last row with an offer for a platform line. */
  predicate LastOffer(sib: Order, t: nat, oid: string, f: Fulfilment) {
    t < |sib.items| && sib.items[t].goods.oid == oid && Offers(sib, sib.items[t], f)
    && forall u :: t < u < |sib.items| && sib.items[u].goods.oid == oid ==>
      sib.items[u].ful.allocType == Unallocated && sib.head.allocType == Unallocated
  }

  predicate NoOffer(sib: Order, oid: string) {
    forall u :: 0 <= u < |sib.items| && sib.items[u].goods.oid == oid ==>
      sib.items[u].ful.allocType == Unallocated && sib.head.allocType == Unallocated
  }

  lemma {:induction false} StandsIs(items: seq<Item>, j: nat)
    requires StandsForLine(items, j)
    ensures KeeperRow(items, items[j].goods.oid) == Some(j)
  {
    var n := |items| - 1;
    if j < n {
      assert forall i :: j < i < n ==> items[..n][i] == items[i];
      StandsIs(items[..n], j);
    }
  }

  /** A row that was there: allocated, or not the one that stands for its line, or without an offer, it is as it
      was; else it has, column by column, the last offer for its line. */
  lemma {:induction false} FilledFrom(k: Order, sib: Order, rows: seq<Item>, j: nat)
    requires j < |k.items| && (HasAlloc(k.items[j].ful) || NoOffer(sib.(items := rows), k.items[j].goods.oid))
    ensures Filled(k, sib, rows)[j] == k.items[j]
  {
    if rows != [] {
      var n := |rows| - 1;
      assert forall u :: 0 <= u < n ==> rows[..n][u] == rows[u];
      FilledFrom(k, sib, rows[..n], j);
    }
  }

  lemma {:induction false} FilledWithLast(k: Order, sib: Order, rows: seq<Item>, j: nat, t: nat, f: Fulfilment)
    requires j < |k.items| && !HasAlloc(k.items[j].ful) && KeeperRow(k.items, k.items[j].goods.oid) == Some(j)
    requires LastOffer(sib.(items := rows), t, k.items[j].goods.oid, f)
    ensures Filled(k, sib, rows)[j] == k.items[j].(ful := f)
  {
    var n := |rows| - 1;
    if t < n {
      assert forall u :: 0 <= u < n ==> rows[..n][u] == rows[u];
      FilledWithLast(k, sib, rows[..n], j, t, f);
    } else {
      LastRowFills(k, sib, rows, j, f);
    }
  }

  lemma {:induction false} LastRowFills(k: Order, sib: Order, rows: seq<Item>, j: nat, f: Fulfilment)
    requires j < |k.items| && !HasAlloc(k.items[j].ful) && KeeperRow(k.items, k.items[j].goods.oid) == Some(j)
    requires rows != [] && rows[|rows| - 1].goods.oid == k.items[j].goods.oid && Offers(sib, rows[|rows| - 1], f)
    ensures Filled(k, sib, rows)[j] == k.items[j].(ful := f)
  {
    OfferIsTheOne(sib, rows[|rows| - 1], f);
    FilledAre(k, sib, rows[..|rows| - 1], j);
  }

  lemma OfferIsTheOne(sib: Order, it: Item, f: Fulfilment)
    requires Offers(sib, it, f)
    ensures RowFulfilment(sib, it) == f
  {
  }

  lemma EmptyRowFilled(k: Order, sib: Order, j: nat, t: nat, f: Fulfilment)
    requires StandsForLine(k.items, j) && k.items[j].ful.allocType == Unallocated
    requires LastOffer(sib, t, k.items[j].goods.oid, f)
    ensures MergeOrders(k, sib).items[j] == k.items[j].(ful := f)
  {
    assert sib.(items := sib.items) == sib;
    StandsIs(k.items, j);
    FilledWithLast(k, sib, sib.items, j, t, f);
  }

  /** One merge: the rows that were there. */
  lemma KeptRowFilled(k: Order, sib: Order, j: nat)
    requires j < |k.items|
    ensures var was, x := k.items[j], MergeOrders(k, sib).items[j];
      && (was.ful.allocType != Unallocated || !StandsForLine(k.items, j) || NoOffer(sib, was.goods.oid) ==> x == was)
      && (was.ful.allocType == Unallocated && StandsForLine(k.items, j) ==>
          forall t, f :: LastOffer(sib, t, was.goods.oid, f) ==> x == was.(ful := f))
  {
    var was := k.items[j];
    assert sib.(items := sib.items) == sib;
    if was.ful.allocType != Unallocated || NoOffer(sib, was.goods.oid) {
      FilledFrom(k, sib, sib.items, j);
    } else if StandsForLine(k.items, j) {
      forall t, f | LastOffer(sib, t, was.goods.oid, f) ensures MergeOrders(k, sib).items[j] == was.(ful := f) {
        EmptyRowFilled(k, sib, j, t, f);
      }
    } else {
      OtherRowStays(k, sib, sib.items, j);
    }
  }

  lemma {:induction false} OtherRowStays(k: Order, sib: Order, rows: seq<Item>, j: nat)
    requires j < |k.items| && !StandsForLine(k.items, j)
    ensures Filled(k, sib, rows)[j] == k.items[j]
  {
    if rows != [] {
      var n := |rows| - 1;
      OtherRowStays(k, sib, rows[..n], j);
      KeeperRowStands(k.items, rows[n].goods.oid);
    }
  }

  lemma {:induction false} KeeperRowStands(items: seq<Item>, oid: string)
    ensures KeeperRow(items, oid).Some? ==> StandsForLine(items, KeeperRow(items, oid).value)
  {
    if items != [] {
      var n := |items| - 1;
      KeeperRowStands(items[..n], oid);
      assert forall i :: 0 <= i < n ==> items[..n][i] == items[i];
    }
  }

  // ---- over all siblings ----

  /** The one that stands for a line goes on standing for it. */
  lemma StandsStays(k: Order, sib: Order, j: nat)
    requires StandsForLine(k.items, j)
    ensures StandsForLine(MergeOrders(k, sib).items, j)
    ensures MergeOrders(k, sib).items[j].goods == k.items[j].goods
  {
    var all, oid := MergeOrders(k, sib).items, k.items[j].goods.oid;
    forall i | 0 <= i < |k.items| ensures all[i] == k.items[i].(ful := all[i].ful) {
      FilledAre(k, sib, sib.items, i);
    }
    RowsArrive(k, sib);
    forall i | |k.items| <= i < |all| ensures all[i].goods.oid != oid {
      assert ArrivedFrom(k, sib, all[i]);
      var it :| it in sib.items && NoRootFor(k.items, it.goods.oid) && ArrivesAs(sib, it, all[i]);
    }
  }

  /** A row that is allocated changes in no later merge. */
  lemma {:induction false} AllocatedStays(k: Order, sibs: seq<Order>, n: nat, j: nat)
    requires n <= |sibs| && j < |MergeList(k, sibs[..n]).items|
    requires MergeList(k, sibs[..n]).items[j].ful.allocType != Unallocated
    ensures j < |MergeList(k, sibs).items| && MergeList(k, sibs).items[j] == MergeList(k, sibs[..n]).items[j]
    decreases |sibs|
  {
    if n == |sibs| {
      assert sibs[..n] == sibs;
    } else {
      var before := sibs[..|sibs| - 1];
      assert before[..n] == sibs[..n];
      AllocatedStays(k, before, n, j);
      KeptRowFilled(MergeList(k, before), sibs[|sibs| - 1], j);
    }
  }

  /** No order up to the n-th sibling has a root for the platform line. */
  ghost predicate UnseenLine(k: Order, sibs: seq<Order>, oid: string) {
    NoRootFor(k.items, oid) && forall m :: 0 <= m < |sibs| ==> NoRootFor(sibs[m].items, oid)
  }

  lemma {:induction false} UnseenIsMerged(k: Order, sibs: seq<Order>, oid: string)
    requires UnseenLine(k, sibs, oid)
    ensures NoRootFor(MergeList(k, sibs).items, oid)
  {
    if sibs != [] {
      var n := |sibs| - 1;
      UnseenIsMerged(k, sibs[..n], oid);
      NoRootMerged(MergeList(k, sibs[..n]), sibs[n], oid);
    }
  }

  lemma NoRootMerged(k: Order, sib: Order, oid: string)
    requires NoRootFor(k.items, oid) && NoRootFor(sib.items, oid)
    ensures NoRootFor(MergeOrders(k, sib).items, oid)
  {
    var all := MergeOrders(k, sib).items;
    RowsArrive(k, sib);
    forall i | 0 <= i < |all| && all[i].split == NoSplit && all[i].parent == 0 && oid != ""
      ensures all[i].goods.oid != oid
    {
      if i < |k.items| {
        FilledAre(k, sib, sib.items, i);
      } else {
        assert ArrivedFrom(k, sib, all[i]);
      var it :| it in sib.items && NoRootFor(k.items, it.goods.oid) && ArrivesAs(sib, it, all[i]);
        var u :| 0 <= u < |sib.items| && sib.items[u] == it;
      }
    }
  }

  /** A sibling's row for a line not seen before is in the merged order with its own allocation, every column,
      or without one, and exactly if its header is allocated, with its header's. */
  lemma RowsKeepTheirAllocation(k: Order, sibs: seq<Order>, n: nat, it: Item) returns (x: Item)
    requires n < |sibs| && it in sibs[n].items && UnseenLine(k, sibs[..n], it.goods.oid)
    requires it.ful.allocType != Unallocated || sibs[n].head.allocType != Unallocated
    ensures x in MergeList(k, sibs).items && x == it.(ful := x.ful)
    ensures it.ful.allocType != Unallocated ==> x.ful == it.ful
    ensures it.ful.allocType == Unallocated ==> HeadersColumns(x.ful, sibs[n].head)
  {
    var mid := MergeList(k, sibs[..n]);
    UnseenIsMerged(k, sibs[..n], it.goods.oid);
    RowsArrive(mid, sibs[n]);
    x :| x in MergeOrders(mid, sibs[n]).items && ArrivesAs(sibs[n], it, x);
    var j :| 0 <= j < |MergeOrders(mid, sibs[n]).items| && MergeOrders(mid, sibs[n]).items[j] == x;
    assert sibs[..n + 1][..n] == sibs[..n];
    assert MergeList(k, sibs[..n + 1]) == MergeOrders(mid, sibs[n]);
    AllocatedStays(k, sibs, n + 1, j);
  }

  /** A row of the order that keeps has its own allocation if it had one. Where it stands for its platform line,
      it otherwise has the last offer of the first sibling that has any. */
  lemma {:induction false} KeptRowsAllocation(k: Order, sibs: seq<Order>, j: nat, n: nat)
    requires j < |k.items| && n <= |sibs| && forall m :: 0 <= m < n ==> NoOffer(sibs[m], k.items[j].goods.oid)
    ensures |MergeList(k, sibs).items| > j
    ensures k.items[j].ful.allocType != Unallocated || !StandsForLine(k.items, j) || n == |sibs| ==>
      MergeList(k, sibs).items[j] == k.items[j]
    ensures k.items[j].ful.allocType == Unallocated && StandsForLine(k.items, j) && n < |sibs| ==>
      forall t, f :: LastOffer(sibs[n], t, k.items[j].goods.oid, f) ==>
        MergeList(k, sibs).items[j] == k.items[j].(ful := f)
  {
    NoAllocationOverwritten(k, sibs, j);
    if k.items[j].ful.allocType == Unallocated {
      if !StandsForLine(k.items, j) {
        NeverFilled(k, sibs, j);
      } else if n == |sibs| {
        StillEmpty(k, sibs, j);
      } else {
        forall t, f | LastOffer(sibs[n], t, k.items[j].goods.oid, f)
          ensures MergeList(k, sibs).items[j] == k.items[j].(ful := f)
        {
          FirstOfferStays(k, sibs, j, n, t, f);
        }
      }
    }
  }

  lemma {:induction false} StillEmpty(k: Order, sibs: seq<Order>, j: nat)
    requires StandsForLine(k.items, j) && forall m :: 0 <= m < |sibs| ==> NoOffer(sibs[m], k.items[j].goods.oid)
    ensures StandsForLine(MergeList(k, sibs).items, j) && MergeList(k, sibs).items[j] == k.items[j]
  {
    if sibs != [] {
      var n := |sibs| - 1;
      StillEmpty(k, sibs[..n], j);
      StandsStays(MergeList(k, sibs[..n]), sibs[n], j);
      KeptRowFilled(MergeList(k, sibs[..n]), sibs[n], j);
    }
  }

  lemma {:induction false} NeverFilled(k: Order, sibs: seq<Order>, j: nat)
    requires j < |k.items| && !StandsForLine(k.items, j)
    ensures j < |MergeList(k, sibs).items| && !StandsForLine(MergeList(k, sibs).items, j)
    ensures MergeList(k, sibs).items[j] == k.items[j]
  {
    if sibs != [] {
      var n := |sibs| - 1;
      var mid := MergeList(k, sibs[..n]);
      NeverFilled(k, sibs[..n], j);
      KeptRowFilled(mid, sibs[n], j);
      NotStandingStays(mid, sibs[n], j);
    }
  }

  lemma NotStandingStays(k: Order, sib: Order, j: nat)
    requires j < |k.items| && !StandsForLine(k.items, j)
    ensures !StandsForLine(MergeOrders(k, sib).items, j)
  {
    var all := MergeOrders(k, sib).items;
    forall i | 0 <= i < |k.items| ensures all[i] == k.items[i].(ful := all[i].ful) {
      FilledAre(k, sib, sib.items, i);
    }
  }

  lemma {:induction false} FirstOfferStays(k: Order, sibs: seq<Order>, j: nat, n: nat, t: nat, f: Fulfilment)
    requires n < |sibs| && StandsForLine(k.items, j) && k.items[j].ful.allocType == Unallocated
    requires forall m :: 0 <= m < n ==> NoOffer(sibs[m], k.items[j].goods.oid)
    requires LastOffer(sibs[n], t, k.items[j].goods.oid, f)
    ensures j < |MergeList(k, sibs).items| && MergeList(k, sibs).items[j] == k.items[j].(ful := f)
  {
    var mid := MergeList(k, sibs[..n]);
    StillEmpty(k, sibs[..n], j);
    EmptyRowFilled(mid, sibs[n], j, t, f);
    assert sibs[..n + 1][..n] == sibs[..n];
    assert MergeList(k, sibs[..n + 1]) == MergeOrders(mid, sibs[n]);
    AllocatedStays(k, sibs, n + 1, j);
  }

  /** The shipments: the keeper's first, as they are, then those of the sibling but for numbers listed there. */
  lemma ShipmentsMove(k: Order, sib: Order, sh: Shipment)
    ensures var m := MergeOrders(k, sib);
      |m.shipments| >= |k.shipments| && m.shipments[..|k.shipments|] == k.shipments
      && (sh in m.shipments[|k.shipments|..] <==>
          sh in sib.shipments
          && (sh.expressNo == "" || forall have :: have in k.shipments ==> have.expressNo != sh.expressNo))
  {
    var had, m := Waybills(k.shipments), MergeOrders(k, sib);
    NewShipmentsAre(had, sib.shipments);
    assert m.shipments[|k.shipments|..] == NewShipments(had, sib.shipments);
    if have :| have in k.shipments && have.expressNo == sh.expressNo && sh.expressNo != "" {
      var i :| 0 <= i < |k.shipments| && k.shipments[i] == have;
    }
    if sh.expressNo in had {
      var i :| 0 <= i < |k.shipments| && k.shipments[i].expressNo != "" && k.shipments[i].expressNo == sh.expressNo;
      assert k.shipments[i] in k.shipments;
    }
  }

  // ---- the header of the merged order ----

  /** Something of the merged order is to be fulfilled. */
  ghost predicate LiveAfter(o: Order) {
    exists it :: it in o.items && it.split == NoSplit && it.parent == 0 && it.quantity > 0 && !it.lineClosed
  }

  /** The header after a merge: the roll-up of the merged rows, but a shipped header stays shipped, and the stage of
      a shipped or finished order stays; as it was where nothing was merged or nothing is left to fulfil. */
  lemma HeaderOfMerged(o: Order, merged: bool)
    ensures var p, sum := Finished(o, merged), Rollup.RollupOf(o);
      if !merged || !LiveAfter(o) then p.head == o.head && p.status == o.status && p.agentType == o.agentType
      else
        && sum.Some? && p.agentType == sum.value.agentType
        && p.head == sum.value.head.(
             shipStatus := if o.head.shipStatus == Shipped then Shipped else sum.value.head.shipStatus)
        && p.status == if o.head.shipStatus == Shipped || o.status in {Completed, Closed} then o.status
                       else sum.value.status
  {
    if LiveAfter(o) {
      var it :| it in o.items && it.split == NoSplit && it.parent == 0 && it.quantity > 0 && !it.lineClosed;
      assert FulfillableRoot(it);
    }
    if it :| it in o.items && FulfillableRoot(it) { assert LiveAfter(o); }
  }

  /** The payment after a merge: the rows' amounts, unless they come to nothing. */
  lemma PaymentOfMerged(o: Order, merged: bool)
    ensures var p, sum := Finished(o, merged), ItemAmounts(o.items);
      p.pay == (if sum > 0 then sum else o.pay) && p.total == if sum > 0 then sum else o.total
  {
  }

  /** A row that is no split child counts with its total, or with price times quantity where it has none. */
  lemma {:induction false} AmountOfRow(items: seq<Item>, it: Item)
    ensures ItemAmounts([]) == 0
    ensures ItemAmounts(items + [it]) - ItemAmounts(items)
         == if it.split != NoSplit then 0 else if it.total > 0 then it.total else it.price * it.quantity
  {
    assert (items + [it])[..|items|] == items;
  }
}
