/** What an order sync leaves in each column of the header, told on the payload:
    which status, which allocation, which ship status and time. */
module IngestColumns {
  import opened OrderModel
  import opened Ingest
  import Ledger

  // ---- what the payload comes to ----

  /** The payload closes the order, and nothing on either side can be fulfilled any more. */
  predicate Closes(o: Order, inc: Incoming) {
    inc.hint.status == Closed && !HasFulfillable(o.items) && !IncomingFulfillable(inc.items)
  }

  /** The payload closes the order, and something can still be fulfilled. */
  predicate Overruled(o: Order, inc: Incoming) {
    inc.hint.status == Closed && (HasFulfillable(o.items) || IncomingFulfillable(inc.items))
  }

  /** A finished order that is not being reopened. */
  predicate Finished(o: Order, inc: Incoming) {
    o.status in {Completed, Closed} && !Overruled(o, inc)
  }

  /** An overruled payload stands for an order that waits for allocation where it was closed, and for the order
      as it is where it was open. */
  lemma OverruledHint(o: Order, inc: Incoming)
    ensures var h := EffectiveHint(o, inc);
      if !Overruled(o, inc) then h == inc.hint
      else if o.status == Closed then
        h == inc.hint.(status := PendingAlloc, shipStatus := WaitShip, clearAlloc := true, applyAlloc := false)
      else h == inc.hint.(status := o.status,
                          shipStatus := if o.head.shipStatus == NoShip then WaitShip else o.head.shipStatus)
  {
  }

  /** The payload is another package's, and the order is allocated, on its header or on a root. */
  predicate AnotherPackage(o: Order, inc: Incoming) {
    inc.otherPackage
    && (o.head.allocType != Unallocated
        || exists it :: it in o.items && it.split == NoSplit && it.parent == 0 && it.ful.allocType != Unallocated)
  }

  predicate SomeRootAllocated(o: Order) {
    exists it :: it in o.items && it.split == NoSplit && it.parent == 0 && it.ful.allocType != Unallocated
  }

  /** A supplier ships what the platform takes for our own: by the header, or by its purchase order. */
  predicate ShippedOffline(o: Order, inc: Incoming) {
    var f := o.head;
    inc.hint.allocType in {SelfShip, ChannelShip}
    && ((f.allocType == Dropship && f.mode == OsmsSupplier && f.supplierId > 0)
        || (f.poNo != "" && inc.poSupplier.Some?))
  }

  /** Automatic allocation to ourselves, which the order was taken out of and the platform has not decided. */
  predicate Withheld(o: Order, inc: Incoming) {
    var h := EffectiveHint(o, inc);
    h.agentType == AGENT_SELF && o.skipAutoAlloc && !inc.platformDecided && h.shipStatus != Shipped
    && h.status != Completed && !ShippedOffline(o, inc)
  }

  /** The platform's allocation is taken over. */
  predicate TakesAllocation(o: Order, inc: Incoming) {
    !Finished(o, inc) && !Closes(o, inc) && EffectiveHint(o, inc).applyAlloc && !AnotherPackage(o, inc)
  }

  /** The platform takes the allocation back. */
  predicate Withdraws(o: Order, inc: Incoming) {
    !Finished(o, inc) && !Closes(o, inc) && !TakesAllocation(o, inc) && EffectiveHint(o, inc).clearAlloc
  }

  /** ... from an order of which nothing else holds on to one. */
  predicate Withdrawn(o: Order, inc: Incoming) {
    Withdraws(o, inc) && !inc.otherPackage && !SomeRootAllocated(o)
  }

  /** The payload says nothing about the allocation. */
  predicate OnlyMirrors(o: Order, inc: Incoming) {
    !Finished(o, inc) && !Closes(o, inc) && !TakesAllocation(o, inc) && !Withdraws(o, inc)
  }

  lemma RootAllocatedIs(o: Order)
    ensures HasAllocatedRoot(o.items) <==> SomeRootAllocated(o)
  {
    if i :| 0 <= i < |o.items| && IsRoot(o.items[i]) && o.items[i].ful.allocType != Unallocated {
      assert o.items[i] in o.items;
    }
    if it :| it in o.items && it.split == NoSplit && it.parent == 0 && it.ful.allocType != Unallocated {
      var i :| 0 <= i < |o.items| && o.items[i] == it;
      assert IsRoot(o.items[i]);
    }
  }

  lemma GuardsAre(o: Order, inc: Incoming)
    ensures Terminal(o, inc) <==> Finished(o, inc)
    ensures SkipsHeader(o, inc) <==> AnotherPackage(o, inc)
    ensures EffectiveHint(o, inc).status == Closed && !Terminal(o, inc) <==> Closes(o, inc) && !Finished(o, inc)
    ensures var h := EffectiveHint(o, inc);
      OsmsSupplierOf(o, h, inc).Some? <==> ShippedOffline(o, inc)
  {
    RootAllocatedIs(o);
  }

  // ---- the status ----

  /** The header takes the payload's status: it closes the order, its allocation is taken over and not withheld,
      it withdraws one, or it is for an order that has none. */
  predicate TakesStatus(o: Order, inc: Incoming) {
    !Finished(o, inc)
    && (|| Closes(o, inc)
        || (TakesAllocation(o, inc) && !Withheld(o, inc))
        || Withdrawn(o, inc)
        || (OnlyMirrors(o, inc) && o.head.allocType == Unallocated))
  }

  lemma WrittenStatus(o: Order, inc: Incoming)
    ensures WithHeader(o, inc).status
         == if TakesStatus(o, inc) then EffectiveHint(o, inc).status else o.status
  {
    GuardsAre(o, inc);
    RootAllocatedIs(o);
  }

  /** The status an order sync ends with: the payload's where the header takes it and the order's own where not;
      then a platform payload reopens what is closed with something left, and closes what has roots and nothing
      left unless it is completed. */
  lemma StatusAfterSync(o: Order, inc: Incoming, nextItemId: nat, nextShipmentId: nat)
    ensures var p := IngestOrder(o, inc, nextItemId, nextShipmentId);
      var written := if TakesStatus(o, inc) then EffectiveHint(o, inc).status else o.status;
      p.status == if inc.channel == Kdzs && written == Closed && HasFulfillable(p.items) then PendingAlloc
                  else if inc.channel == Kdzs && written !in {Closed, Completed}
                          && HasRoots(p.items) && !HasFulfillable(p.items) then Closed
                  else written
  {
    WrittenStatus(o, inc);
    BackstopFits(Merged(o, inc, nextItemId, nextShipmentId));
  }

  /** So an allocated order that the platform withdraws goes back into the queue the payload names, as long as
      something can be fulfilled and no row holds on to an allocation. */
  lemma WithdrawalReturnsOrder(o: Order, inc: Incoming, nextItemId: nat, nextShipmentId: nat)
    requires o.status !in {Completed, Closed} && inc.hint.status !in {Completed, Closed}
    requires inc.hint.clearAlloc && !inc.hint.applyAlloc && !inc.otherPackage && !SomeRootAllocated(o)
    ensures var p := IngestOrder(o, inc, nextItemId, nextShipmentId);
      p.head.allocType == Unallocated
      && (HasFulfillable(p.items) || inc.channel != Kdzs ==> p.status == inc.hint.status)
  {
    StatusAfterSync(o, inc, nextItemId, nextShipmentId);
    GuardsAre(o, inc);
    RootAllocatedIs(o);
    BackstopFits(Merged(o, inc, nextItemId, nextShipmentId));
  }

  // ---- the allocation ----

  /** Everything but the ship status, which goes its own way, is as in `was`. */
  predicate SameButShip(f: Fulfilment, was: Fulfilment) {
    f == was.(shipStatus := f.shipStatus)
  }

  /** The time of allocation is kept, or set where there was none. */
  predicate Timed(f: Fulfilment, was: Fulfilment, now: nat) {
    f.allocatedAt == if was.allocatedAt.Some? then was.allocatedAt else Some(now)
  }

  predicate FactoryIs(f: Fulfilment, inc: Incoming) {
    f.factoryId == inc.factoryId && f.factoryName == inc.factoryName
  }

  /** The supplier is `supplier` where it names one, and else as before. */
  predicate SuppliedBy(f: Fulfilment, was: Fulfilment, supplier: Option<(nat, string)>) {
    if supplier.Some? && supplier.value.0 > 0 then (f.supplierId, f.supplierName) == supplier.value
    else f.supplierId == was.supplierId && f.supplierName == was.supplierName
  }

  /** The platform's allocation on a header: our own stock keeps its path against a platform that ships, self and
      platform shipping have no supplier, and a factory's is the one bound to it. */
  predicate TakenOver(f: Fulfilment, was: Fulfilment, h: Hint, inc: Incoming) {
    var ours := h.allocType == ChannelShip && was.allocType in {SelfShip, PurchaseThenShip};
    && f.allocType == (if ours then was.allocType else h.allocType)
    && f.mode == (if ours then was.mode else h.mode)
    && (f.allocType in {SelfShip, ChannelShip} ==> f.supplierId == 0 && f.supplierName == "")
    && (f.allocType == Dropship && f.mode == KdzsFactory ==>
        SuppliedBy(f, was, inc.boundTo(inc.factoryId, inc.factoryName)))
    && (f.allocType !in {SelfShip, ChannelShip} && !(f.allocType == Dropship && f.mode == KdzsFactory) ==>
        f.supplierId == was.supplierId && f.supplierName == was.supplierName)
    && f.poNo == was.poNo && f.selfNo == was.selfNo && FactoryIs(f, inc) && Timed(f, was, inc.now)
  }

  /** A supplier's offline shipment restored on a header. */
  predicate RestoredOffline(f: Fulfilment, was: Fulfilment, inc: Incoming) {
    && f.allocType == Dropship && f.mode == OsmsSupplier
    && (was.allocType == Dropship && was.mode == OsmsSupplier && was.supplierId > 0 ==>
        f.supplierId == was.supplierId && f.supplierName == was.supplierName)
    && (!(was.allocType == Dropship && was.mode == OsmsSupplier && was.supplierId > 0) ==>
        Some((f.supplierId, f.supplierName)) == inc.poSupplier)
    && f.poNo == was.poNo && f.selfNo == was.selfNo && FactoryIs(f, inc) && Timed(f, was, inc.now)
  }

  /** Only the factory changes, and the supplier of a factory dropship that had none. */
  predicate Mirrored(f: Fulfilment, o: Order, inc: Incoming) {
    var was := o.head;
    && FactoryIs(f, inc)
    && (if OnlyMirrors(o, inc) && was.allocType == Dropship && was.mode == KdzsFactory && was.supplierId == 0 then
          SuppliedBy(f, was, inc.boundTo(if inc.factoryId != "" then inc.factoryId else was.factoryId,
                                         if inc.factoryName != "" then inc.factoryName else was.factoryName))
        else f.supplierId == was.supplierId && f.supplierName == was.supplierName)
    && SameButShip(f, was.(factoryId := f.factoryId, factoryName := f.factoryName,
                           supplierId := f.supplierId, supplierName := f.supplierName))
  }

  /** The agent type is always the payload's. */
  lemma AgentAfterSync(o: Order, inc: Incoming, nextItemId: nat, nextShipmentId: nat)
    ensures IngestOrder(o, inc, nextItemId, nextShipmentId).agentType == inc.hint.agentType
  {
    OverruledHint(o, inc);
    BackstopKeepsAgent(Merged(o, inc, nextItemId, nextShipmentId));
  }

  lemma BackstopKeepsAgent(o: Order)
    ensures Backstop(o).agentType == o.agentType
  {
  }

  /** The header's allocation after an order sync, column by column. */
  lemma AllocationAfterSync(o: Order, inc: Incoming, nextItemId: nat, nextShipmentId: nat)
    ensures var f := IngestOrder(o, inc, nextItemId, nextShipmentId).head; var h := EffectiveHint(o, inc);
      if Finished(o, inc) || Closes(o, inc) then SameButShip(f, o.head)
      else if TakesAllocation(o, inc) && ShippedOffline(o, inc) then RestoredOffline(f, o.head, inc)
      else if TakesAllocation(o, inc) && !Withheld(o, inc) then TakenOver(f, o.head, h, inc)
      else if Withdrawn(o, inc) then SameButShip(f, NO_FULFILMENT)
      else Mirrored(f, o, inc)
  {
    BackstopFits(Merged(o, inc, nextItemId, nextShipmentId));
    WrittenAllocation(o, inc);
    OnlyShipDiffers(WithHeader(o, inc).head, IngestOrder(o, inc, nextItemId, nextShipmentId).head);
  }

  lemma OnlyShipDiffers(f: Fulfilment, g: Fulfilment)
    requires SameButShip(g, f)
    ensures forall was :: SameButShip(f, was) ==> SameButShip(g, was)
  {
  }

  lemma WrittenAllocation(o: Order, inc: Incoming)
    ensures var f := WithHeader(o, inc).head; var h := EffectiveHint(o, inc);
      if Finished(o, inc) || Closes(o, inc) then SameButShip(f, o.head)
      else if TakesAllocation(o, inc) && ShippedOffline(o, inc) then RestoredOffline(f, o.head, inc)
      else if TakesAllocation(o, inc) && !Withheld(o, inc) then TakenOver(f, o.head, h, inc)
      else if Withdrawn(o, inc) then SameButShip(f, NO_FULFILMENT)
      else Mirrored(f, o, inc)
  {
    GuardsAre(o, inc);
    RootAllocatedIs(o);
  }

  /** Automatic allocation is let back in by an allocation that is taken over, by a withdrawal, and by reopening. */
  lemma AutoAllocationAfterSync(o: Order, inc: Incoming, nextItemId: nat, nextShipmentId: nat)
    ensures var p := IngestOrder(o, inc, nextItemId, nextShipmentId);
      var written := if TakesStatus(o, inc) then EffectiveHint(o, inc).status else o.status;
      p.skipAutoAlloc <==>
        o.skipAutoAlloc && !(TakesAllocation(o, inc) && !Withheld(o, inc)) && !Withdrawn(o, inc)
        && !(inc.channel == Kdzs && written == Closed && HasFulfillable(p.items))
  {
    WrittenStatus(o, inc);
    GuardsAre(o, inc);
    RootAllocatedIs(o);
  }

  // ---- the ship status ----

  /** A waybill of the order, if its shipments were loaded with it. */
  predicate WaybillSeen(o: Order, inc: Incoming) {
    (inc.viewHasShipments || o.items == []) && exists sh :: sh in o.shipments && sh.expressNo != ""
  }

  /** The payload has a say in the ship status. */
  predicate SaysShip(o: Order, inc: Incoming) {
    var h := EffectiveHint(o, inc);
    h.shipStatus != NoShip && h.status != Closed && o.status != Closed && !AnotherPackage(o, inc)
  }

  /** It says waiting, and goods have left here. */
  predicate HoldsAgainst(o: Order, inc: Incoming) {
    SaysShip(o, inc) && EffectiveHint(o, inc).shipStatus == WaitShip
    && (o.head.shipStatus in {Shipped, PartialShipped} || WaybillSeen(o, inc))
  }

  /** What the goods that have left come to: with a waybill the ledger's word, or at least partly shipped. */
  predicate HeldShip(o: Order, inc: Incoming, s: ShipStatus) {
    var ledger := Ledger.ShipStatusAfter(o, []);
    if !WaybillSeen(o, inc) then s == o.head.shipStatus
    else if ledger != WaitShip then s == ledger
    else s == if o.head.shipStatus == Shipped then Shipped else PartialShipped
  }

  predicate ShipWritten(o: Order, inc: Incoming, s: ShipStatus) {
    if Closes(o, inc) && !Finished(o, inc) then s == if o.head.shipStatus == Shipped then Shipped else NoShip
    else if !SaysShip(o, inc) then s == o.head.shipStatus
    else if HoldsAgainst(o, inc) then HeldShip(o, inc, s)
    else s == EffectiveHint(o, inc).shipStatus
  }

  lemma WaybillSeenIs(o: Order, inc: Incoming)
    ensures HasExpress(View(o, inc)) <==> WaybillSeen(o, inc)
    ensures WaybillSeen(o, inc) ==> View(o, inc) == o
  {
    if i :| 0 <= i < |o.shipments| && o.shipments[i].expressNo != "" { assert o.shipments[i] in o.shipments; }
    if sh :| sh in o.shipments && sh.expressNo != "" {
      var i :| 0 <= i < |o.shipments| && o.shipments[i] == sh;
    }
  }

  lemma WrittenShip(o: Order, inc: Incoming)
    ensures ShipWritten(o, inc, WithHeader(o, inc).head.shipStatus)
  {
    GuardsAre(o, inc);
    WaybillSeenIs(o, inc);
  }

  /** The ship status after an order sync that the backstop leaves alone: closing an order that has not shipped
      empties it; a payload that waits does not take back what has left; any other word of the payload counts. */
  lemma ShipAfterSync(o: Order, inc: Incoming, nextItemId: nat, nextShipmentId: nat)
    ensures var p := IngestOrder(o, inc, nextItemId, nextShipmentId);
      var written := if TakesStatus(o, inc) then EffectiveHint(o, inc).status else o.status;
      if inc.channel == Kdzs && written == Closed && HasFulfillable(p.items) then p.head.shipStatus == WaitShip
      else if p.status != written then
        exists s :: ShipWritten(o, inc, s) && p.head.shipStatus == if s == Shipped then Shipped else NoShip
      else ShipWritten(o, inc, p.head.shipStatus)
  {
    WrittenShip(o, inc);
    WrittenStatus(o, inc);
  }

  /** The shipping time: the payload's or now, where the payload says shipped; kept, or else now, where our own
      waybills say so; and otherwise as it was. */
  lemma TimeAfterSync(o: Order, inc: Incoming, nextItemId: nat, nextShipmentId: nat)
    ensures var at := IngestOrder(o, inc, nextItemId, nextShipmentId).shippedAt;
      var kept := if o.shippedAt.Some? then o.shippedAt else Some(inc.now);
      at == if SaysShip(o, inc) && EffectiveHint(o, inc).shipStatus == Shipped then
              if inc.shippedAt.Some? then inc.shippedAt else kept
            else if HoldsAgainst(o, inc) && WaybillSeen(o, inc) && HeldShip(o, inc, Shipped) then kept
            else o.shippedAt
  {
    GuardsAre(o, inc);
    WaybillSeenIs(o, inc);
    BackstopFits(Merged(o, inc, nextItemId, nextShipmentId));
  }
}
