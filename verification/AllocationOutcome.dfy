/** Which allocations, revokes and unlinks go through, and what they leave of the
    order, told on the columns. */
module AllocationOutcome {
  import opened OrderModel
  import opened Allocation
  import opened Rollup
  import opened RollupColumns

  // ---- which are refused ----

  /** The request names the row, or none at all. */
  predicate Asked(ids: seq<nat>, it: Item) {
    (forall id :: id in ids ==> id == 0) || (it.id != 0 && it.id in ids)
  }

  lemma AskedIs(ids: seq<nat>, it: Item)
    ensures Chosen(ids, it) <==> Live(it) && Asked(ids, it)
  {
    LiveIs(it);
    assert (forall k :: 0 <= k < |ids| ==> ids[k] == 0) <==> forall id :: id in ids ==> id == 0 by {
      assert forall k :: 0 <= k < |ids| ==> ids[k] in ids;
    }
  }

  /** Something asked for can be fulfilled, all of it is free, or there is nothing to fulfil at all. */
  ghost predicate SelectionFits(o: Order, ids: seq<nat>) {
    (forall it :: it in o.items ==> !Live(it))
    || ((exists it :: it in o.items && Live(it) && Asked(ids, it))
        && forall it :: it in o.items && Live(it) && Asked(ids, it) ==>
             it.ful.allocType == Unallocated && it.ful.shipStatus !in {Shipped, PartialShipped})
  }

  /** The order may be allocated: neither finished, shipped nor blocked, and not wholly pushed to a factory. */
  ghost predicate MayAllocate(o: Order) {
    && o.status !in {Completed, Closed} && o.head.shipStatus != Shipped && !o.blocked
    && !(&& o.channel == Kdzs && o.agentType == AGENT_FACTORY
         && o.head.allocType == Dropship && o.head.mode == KdzsFactory
         && forall it :: it in o.items && Live(it) ==> it.ful.allocType != Unallocated)
  }

  /** The terms name a path, and a supplier for a dropship. */
  predicate TermsFit(t: Terms) {
    t.allocType in {SelfShip, PurchaseThenShip} || (t.allocType == Dropship && t.supplierId != 0)
  }

  /** An allocation goes through exactly if the selection, the order and the terms allow it. */
  lemma AllocateAccepted(o: Order, req: AllocRequest)
    ensures AllocateOrder(o, req).Ok?
       <==> SelectionFits(o, req.itemIds) && MayAllocate(o) && TermsFit(req.terms)
  {
    TargetFits(o, req.itemIds);
    forall it | it in o.items ensures FulfillableRoot(it) <==> Live(it) { LiveIs(it); }
  }

  lemma TargetFits(o: Order, ids: seq<nat>)
    ensures ResolveTarget(o, ids).Ok? <==> SelectionFits(o, ids)
  {
    NoRootIds(o.items, it => true);
    NoChosenRoots(o.items, ids);
    NoObstacle(o.items, ids);
    forall it ensures Chosen(ids, it) <==> Live(it) && Asked(ids, it) { AskedIs(ids, it); }
    forall it ensures FulfillableRoot(it) <==> Live(it) { LiveIs(it); }
  }

  /** A revoke goes through exactly if the order is not finished, nothing has moved, and something is allocated. */
  lemma RevokeAccepted(o: Order)
    ensures RevokeOrder(o).Ok?
       <==> o.status !in {Completed, Closed} && o.head.shipStatus !in {Shipped, PartialShipped}
            && (o.head.allocType != Unallocated || o.status != PendingAlloc
                || exists it ::
                     it in o.items && it.split == NoSplit && it.parent == 0 && it.ful.allocType != Unallocated)
  {
    if i :| 0 <= i < |o.items| && IsRoot(o.items[i]) && o.items[i].ful.allocType != Unallocated {
      assert o.items[i] in o.items;
    }
    if it :| it in o.items && it.split == NoSplit && it.parent == 0 && it.ful.allocType != Unallocated {
      var i :| 0 <= i < |o.items| && o.items[i] == it;
      assert IsRoot(o.items[i]);
    }
  }

  // ---- what they leave ----

  /** The columns of an allocation. */
  predicate HasTerms(f: Fulfilment, t: Terms) {
    && f.allocType == t.allocType && f.mode == t.mode
    && f.supplierId == t.supplierId && f.supplierName == t.supplierName
    && f.factoryId == t.factoryId && f.factoryName == t.factoryName && f.poNo == t.poNo && f.selfNo == t.selfNo
    && f.shipStatus == WaitShip && f.allocatedAt == Some(t.now)
  }

  /** The header summarises the rows, or is `otherwise` where there is nothing to fulfil. */
  ghost predicate Summarised(p: Order, o: Order, stage: OrderStatus, agent: nat) {
    if exists it :: it in o.items && Live(it) then
      RollupOf(o).Some? && p.head == RollupOf(o).value.head && p.status == RollupOf(o).value.status
      && p.agentType == RollupOf(o).value.agentType
    else p.status == stage && p.agentType == agent
  }

  /** An allocation that goes through: the terms on the rows asked for, every other row as it was, automatic
      allocation back in, and the header a summary of the rows, or the terms where nothing can be fulfilled. */
  lemma AllocateLeaves(o: Order, req: AllocRequest, i: nat)
    requires AllocateOrder(o, req).Ok?
    ensures var p, t := AllocateOrder(o, req).value, req.terms;
      && |p.items| == |o.items| && !p.skipAutoAlloc
      && p == o.(items := p.items, head := p.head, status := p.status, agentType := p.agentType, skipAutoAlloc := false)
      && (i < |o.items| ==>
          if Live(o.items[i]) && Asked(req.itemIds, o.items[i]) then
            p.items[i] == o.items[i].(ful := p.items[i].ful) && HasTerms(p.items[i].ful, t)
          else p.items[i] == o.items[i])
      && Summarised(p, o.(items := p.items), if t.allocType == PurchaseThenShip then Purchasing else Allocated,
                    t.agentType)
      && ((forall it :: it in o.items ==> !Live(it)) ==> HasTerms(p.head, t))
  {
    var q := o.(items := Assigned(o.items, req.itemIds, req.terms), skipAutoAlloc := false);
    if i < |o.items| { AskedIs(req.itemIds, o.items[i]); }
    SummaryIfLive(q);
    SameRowsSameSummary(q, o.(items := q.items));
    if forall it :: it in o.items ==> !Live(it) {
      forall it | it in q.items ensures !Live(it) {
        var k :| 0 <= k < |q.items| && q.items[k] == it;
        assert o.items[k] in o.items;
      }
    }
  }

  lemma SameRowsSameSummary(o: Order, p: Order)
    requires o.items == p.items && o.head.poNo == p.head.poNo
    ensures RollupOf(o) == RollupOf(p)
  {
    var f, g := it => PoOf(o.head.poNo, it), it => PoOf(p.head.poNo, it);
    CollectCongruent(p.items, f, g);
    assert PoNos(o) == PoNos(p);
    OnlyPoFeedsBack(o, p);
  }

  /** A revoke that goes through leaves nothing but an order that waits for allocation and stays out of the
      automatic one. */
  lemma RevokeLeaves(o: Order)
    requires RevokeOrder(o).Ok?
    ensures var p := RevokeOrder(o).value;
      && |p.items| == |o.items| && (forall i :: 0 <= i < |o.items| ==> p.items[i] == o.items[i].(ful := NO_FULFILMENT))
      && p == o.(items := p.items, head := p.head, status := PendingAlloc, agentType := AGENT_SELF,
                 skipAutoAlloc := true)
      && p.head == Fulfilment(Unallocated, NoMode, 0, "", "", "", "", "", WaitShip, None)
  {
    RevokeClears(o);
  }

  /** An unlink that clears: dropship roots and roots on a purchase order are freed, every other row is as it was,
      and the header, without a purchase order, summarises what is left. */
  lemma UnlinkLeaves(o: Order, i: nat)
    requires o.status !in {Completed, Closed} && o.head.shipStatus != Shipped
    ensures var p := UnlinkOrder(o, true);
      && |p.items| == |o.items| && p.skipAutoAlloc && p.head.poNo == ""
      && (i < |o.items| ==>
          var was := o.items[i];
          p.items[i] == if was.split == NoSplit && was.parent == 0
                           && (was.ful.allocType == Dropship || was.ful.poNo != "")
                        then was.(ful := NO_FULFILMENT) else was)
      && p == o.(items := p.items, head := p.head, status := p.status, agentType := p.agentType, skipAutoAlloc := true)
      && Summarised(p.(head := p.head.(poNo := HeadedPo(o, p.items))), o.(items := p.items), PendingAlloc, AGENT_SELF)
      && ((forall it :: it in p.items ==> !Live(it)) ==>
          p.head == Fulfilment(Unallocated, NoMode, 0, "", "", "", "", "", WaitShip, None))
  {
    var q := o.(items := WithoutLinked(o.items), skipAutoAlloc := true);
    SummaryIfLive(q);
    SameRowsSameSummary(q, o.(items := q.items));
  }

  /** The purchase order the summary of the rows would have. */
  ghost function HeadedPo(o: Order, items: seq<Item>): string {
    var s := RollupOf(o.(items := items));
    if s.Some? then s.value.head.poNo else ""
  }

  /** Any other unlink takes the purchase orders of the header and of all roots, and nothing else. */
  lemma UnlinkTakesPos(o: Order, clearAlloc: bool)
    requires o.status in {Completed, Closed} || !clearAlloc || o.head.shipStatus == Shipped
    ensures var p := UnlinkOrder(o, clearAlloc);
      if o.status in {Completed, Closed} && o.head.poNo == ""
         && forall it :: it in o.items && it.split == NoSplit && it.parent == 0 && it.ful.allocType == Dropship ==>
              it.ful.poNo == ""
      then p == o
      else
        && p == o.(items := p.items, head := o.head.(poNo := "")) && |p.items| == |o.items|
        && forall i :: 0 <= i < |o.items| ==>
             p.items[i] == if o.items[i].split == NoSplit && o.items[i].parent == 0
                           then o.items[i].(ful := o.items[i].ful.(poNo := "")) else o.items[i]
  {
    if HasDropshipPo(o.items) {
      var i :| 0 <= i < |o.items| && IsRoot(o.items[i]) && o.items[i].ful.allocType == Dropship
        && o.items[i].ful.poNo != "";
      assert o.items[i] in o.items;
    }
    forall it | it in o.items && it.split == NoSplit && it.parent == 0 && it.ful.allocType == Dropship
      ensures it.ful.poNo != "" ==> HasDropshipPo(o.items)
    {
      var i :| 0 <= i < |o.items| && o.items[i] == it;
      assert IsRoot(o.items[i]);
    }
  }
}
