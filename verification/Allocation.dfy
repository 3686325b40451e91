/** Allocating item rows to a fulfilment path, taking allocations back, and
    unlinking a dropship purchase order. The platform, supplier and purchasing
    systems decide the terms; here they are inputs. */
module Allocation {
  import opened OrderModel
  import opened Rollup

  datatype AllocError =
    | NothingSelected | AlreadyAllocated | AlreadyShipped | Terminal | OrderShipped | PushedToFactory | Blocked
    | NoSupplier | UnknownType | NotAllocatedYet

  /** What the selected rows are allocated to. */
  datatype Terms = Terms(
    allocType: AllocType,
    mode: DropshipMode,
    supplierId: nat,
    supplierName: string,
    factoryId: string,
    factoryName: string,
    poNo: string,
    selfNo: string,
    agentType: nat,
    now: nat)

  datatype AllocRequest = AllocRequest(itemIds: seq<nat>, terms: Terms)

  // ---- selection ----

  function RootIds(items: seq<Item>, wanted: Item -> bool): seq<nat> {
    if items == [] then []
    else
      var n := |items| - 1;
      var before := RootIds(items[..n], wanted);
      if FulfillableRoot(items[n]) && wanted(items[n]) then before + [items[n].id] else before
  }

  /** No selection means every fulfillable root. */
  predicate Selects(ids: seq<nat>, it: Item) {
    (forall k :: 0 <= k < |ids| ==> ids[k] == 0) || (it.id != 0 && it.id in ids)
  }

  /** The rows an allocation writes. */
  predicate Chosen(ids: seq<nat>, it: Item) {
    FulfillableRoot(it) && Selects(ids, it)
  }

  /** The first chosen row that stands in the way. */
  function FirstObstacle(items: seq<Item>, ids: seq<nat>): Option<AllocError> {
    if items == [] then None
    else
      var n := |items| - 1;
      var before := FirstObstacle(items[..n], ids);
      if before.Some? then before
      else if !Chosen(ids, items[n]) then None
      else if HasAlloc(items[n].ful) then Some(AlreadyAllocated)
      else if ShipMoved(items[n].ful.shipStatus) then Some(AlreadyShipped)
      else None
  }

  /** Which rows are selected, or why none can be. */
  function ResolveTarget(o: Order, ids: seq<nat>): Result<seq<nat>, AllocError> {
    if RootIds(o.items, it => true) == [] then Ok([])
    else
      var chosen := RootIds(o.items, it => Selects(ids, it));
      if chosen == [] then Err(NothingSelected)
      else if FirstObstacle(o.items, ids).Some? then Err(FirstObstacle(o.items, ids).value)
      else Ok(chosen)
  }

  // ---- the operations ----

  function RowTerms(t: Terms): Fulfilment {
    Fulfilment(t.allocType, t.mode, t.supplierId, t.supplierName, t.factoryId, t.factoryName, t.poNo, t.selfNo,
               WaitShip, Some(t.now))
  }

  function Assigned(items: seq<Item>, ids: seq<nat>, t: Terms): (s: seq<Item>)
    ensures |s| == |items|
    ensures forall i :: 0 <= i < |s| ==>
      s[i] == if Chosen(ids, items[i]) then items[i].(ful := RowTerms(t)) else items[i]
  {
    seq(|items|, i requires 0 <= i < |items| =>
      if Chosen(ids, items[i]) then items[i].(ful := RowTerms(t)) else items[i])
  }

  predicate Unallocatable(o: Order) {
    o.status == Completed || o.status == Closed
  }

  /** Everything already pushed to the factory through the platform. */
  ghost predicate FactoryOnly(o: Order) {
    o.channel == Kdzs && o.agentType == AGENT_FACTORY && o.head.allocType == Dropship && o.head.mode == KdzsFactory
    && AllAllocated(o)
  }

  ghost function AllocateFault(o: Order, t: Terms): Option<AllocError> {
    if Unallocatable(o) then Some(Terminal)
    else if o.head.shipStatus == Shipped then Some(OrderShipped)
    else if FactoryOnly(o) then Some(PushedToFactory)
    else if o.blocked then Some(Blocked)
    else if t.allocType == SelfShip || t.allocType == PurchaseThenShip then None
    else if t.allocType != Dropship then Some(UnknownType)
    else if t.supplierId == 0 then Some(NoSupplier)
    else None
  }

  /** The header after rows changed: the roll-up, or `otherwise` when nothing can be fulfilled. */
  ghost function Headed(o: Order, otherwise: Summary): Order {
    var s := RollupOf(o);
    var h := if s.Some? then s.value else otherwise;
    o.(head := h.head, status := h.status, agentType := h.agentType)
  }

  function DirectSummary(t: Terms): Summary {
    Summary(RowTerms(t), if t.allocType == PurchaseThenShip then Purchasing else Allocated, t.agentType)
  }

  ghost function AllocateOrder(o: Order, req: AllocRequest): Result<Order, AllocError> {
    var target := ResolveTarget(o, req.itemIds);
    if target.Err? then Err(target.error)
    else if AllocateFault(o, req.terms).Some? then Err(AllocateFault(o, req.terms).value)
    else
      Ok(Headed(o.(items := Assigned(o.items, req.itemIds, req.terms), skipAutoAlloc := false),
                DirectSummary(req.terms)))
  }

  function Cleared(items: seq<Item>): (s: seq<Item>)
    ensures |s| == |items|
    ensures forall i :: 0 <= i < |s| ==> s[i] == items[i].(ful := NO_FULFILMENT)
  {
    seq(|items|, i requires 0 <= i < |items| => items[i].(ful := NO_FULFILMENT))
  }

  ghost function RevokeOrder(o: Order): Result<Order, AllocError> {
    if Unallocatable(o) then Err(Terminal)
    else if o.head.shipStatus == Shipped || o.head.shipStatus == PartialShipped then Err(OrderShipped)
    else if o.head.allocType == Unallocated && o.status == PendingAlloc && !HasAllocatedRoot(o.items) then
      Err(NotAllocatedYet)
    else Ok(Headed(o.(items := Cleared(o.items), skipAutoAlloc := true), NOTHING_ALLOCATED))
  }

  // ---- allocate writes what it was asked to, once ----

  lemma {:induction false} NoObstacle(items: seq<Item>, ids: seq<nat>)
    ensures FirstObstacle(items, ids).None?
       <==> forall it :: it in items && Chosen(ids, it) ==> !HasAlloc(it.ful) && !ShipMoved(it.ful.shipStatus)
  {
    if items != [] {
      var n := |items| - 1;
      NoObstacle(items[..n], ids);
      assert items == items[..n] + [items[n]];
    }
  }

  /** An accepted allocation found every chosen row free, and an order with fulfillable roots always has one chosen. */
  lemma AcceptedMeansFree(o: Order, req: AllocRequest)
    requires AllocateOrder(o, req).Ok?
    ensures forall it :: it in o.items && Chosen(req.itemIds, it) ==> !HasAlloc(it.ful) && !ShipMoved(it.ful.shipStatus)
  {
    NoObstacle(o.items, req.itemIds);
    NoChosenRoots(o.items, req.itemIds);
  }

  lemma {:induction false} NoRootIds(items: seq<Item>, wanted: Item -> bool)
    ensures RootIds(items, wanted) == [] <==> forall it :: it in items ==> !(FulfillableRoot(it) && wanted(it))
  {
    if items != [] {
      var n := |items| - 1;
      NoRootIds(items[..n], wanted);
      assert items == items[..n] + [items[n]];
    }
  }

  lemma {:induction false} NoChosenRoots(items: seq<Item>, ids: seq<nat>)
    ensures RootIds(items, it => true) == [] ==> forall it :: it in items ==> !FulfillableRoot(it)
    ensures RootIds(items, it => Selects(ids, it)) == [] <==> forall it :: it in items ==> !Chosen(ids, it)
  {
    NoRootIds(items, it => true);
    NoRootIds(items, it => Selects(ids, it));
  }

  /** Row by row: an accepted allocation writes the terms on exactly the chosen rows, all of them
      free fulfillable roots, and touches nothing else; what it refuses, it refuses whole. */
  lemma AllocateWritesChosen(o: Order, req: AllocRequest, i: nat)
    requires AllocateOrder(o, req).Ok? && i < |o.items|
    ensures var p := AllocateOrder(o, req).value; var was := o.items[i];
      && |p.items| == |o.items|
      && p.items[i] == was.(ful := p.items[i].ful)
      && (HasAlloc(was.ful) || ShipMoved(was.ful.shipStatus) || !Chosen(req.itemIds, was) ==> p.items[i] == was)
      && (!HasAlloc(was.ful) && Chosen(req.itemIds, was) ==> p.items[i].ful == RowTerms(req.terms))
  {
    AcceptedMeansFree(o, req);
    assert o.items[i] in o.items;
  }

  ghost function AllocateRun(o: Order, reqs: seq<AllocRequest>): Order {
    if reqs == [] then o
    else
      var p := AllocateRun(o, reqs[..|reqs| - 1]);
      var r := AllocateOrder(p, reqs[|reqs| - 1]);
      if r.Ok? then r.value else p
  }

  lemma {:induction false} RunKeepsLength(o: Order, reqs: seq<AllocRequest>)
    ensures |AllocateRun(o, reqs).items| == |o.items|
  {
    if reqs != [] {
      var n := |reqs| - 1;
      RunKeepsLength(o, reqs[..n]);
      var p := AllocateRun(o, reqs[..n]);
      if p.items != [] && AllocateOrder(p, reqs[n]).Ok? { AllocateWritesChosen(p, reqs[n], 0); }
    }
  }

  /** The row is still there, and as it was if it was allocated. */
  predicate StillWritten(p: Order, q: Order, i: nat) {
    i < |p.items| == |q.items| && (HasAlloc(p.items[i].ful) ==> q.items[i] == p.items[i])
  }

  lemma {:induction false} LastRequest(o: Order, reqs: seq<AllocRequest>, i: nat)
    requires reqs != [] && i < |AllocateRun(o, reqs[..|reqs| - 1]).items|
    ensures StillWritten(AllocateRun(o, reqs[..|reqs| - 1]), AllocateRun(o, reqs), i)
  {
    var n := |reqs| - 1;
    if AllocateOrder(AllocateRun(o, reqs[..n]), reqs[n]).Ok? {
      AllocateWritesChosen(AllocateRun(o, reqs[..n]), reqs[n], i);
    }
  }

  lemma StillWrittenTwice(p: Order, q: Order, r: Order, i: nat)
    requires StillWritten(p, q, i) && StillWritten(q, r, i)
    ensures StillWritten(p, r, i)
  {
  }

  lemma {:induction false} WrittenInPrefix(o: Order, reqs: seq<AllocRequest>, m: nat, i: nat)
    requires i < |o.items| && m <= |reqs|
    ensures StillWritten(AllocateRun(o, reqs[..m]), AllocateRun(o, reqs), i)
    decreases |reqs|
  {
    RunKeepsLength(o, reqs[..m]);
    if m == |reqs| {
      assert reqs[..m] == reqs;
    } else {
      var before := reqs[..|reqs| - 1];
      WrittenInPrefix(o, before, m, i);
      assert before[..m] == reqs[..m];
      LastRequest(o, reqs, i);
      StillWrittenTwice(AllocateRun(o, reqs[..m]), AllocateRun(o, before), AllocateRun(o, reqs), i);
    }
  }

  /** Over any run of allocations a row's allocation is written at most once. */
  lemma {:induction false} WriteOnce(o: Order, reqs: seq<AllocRequest>, more: seq<AllocRequest>, i: nat)
    requires i < |o.items|
    ensures |AllocateRun(o, reqs).items| == |o.items|
    ensures |AllocateRun(o, reqs + more).items| == |o.items|
    ensures HasAlloc(AllocateRun(o, reqs).items[i].ful) ==>
      AllocateRun(o, reqs + more).items[i] == AllocateRun(o, reqs).items[i]
  {
    assert (reqs + more)[..|reqs|] == reqs;
    RunKeepsLength(o, reqs);
    WrittenInPrefix(o, reqs + more, |reqs|, i);
  }

  // ---- revoke undoes any run ----

  /** An accepted revoke always ends at the same header, and with every row cleared. */
  lemma RevokeClears(o: Order)
    requires RevokeOrder(o).Ok?
    ensures var p := RevokeOrder(o).value;
      && p.items == Cleared(o.items)
      && p.head == NOTHING_ALLOCATED.head && p.status == PendingAlloc && p.agentType == AGENT_SELF
  {
    var q := o.(items := Cleared(o.items), skipAutoAlloc := true);
    assert !AnyAllocated(q);
  }

  ghost predicate Clean(o: Order) {
    forall it :: it in o.items ==> it.ful == NO_FULFILMENT
  }

  /** What a run of allocations leaves on a clean order's rows: nothing but allocations, none of them shipped. */
  lemma {:induction false} RunOnClean(o: Order, reqs: seq<AllocRequest>)
    requires Clean(o)
    ensures Cleared(AllocateRun(o, reqs).items) == o.items
    ensures forall it :: it in AllocateRun(o, reqs).items ==> !ShipMoved(it.ful.shipStatus)
  {
    if reqs == [] {
      forall i | 0 <= i < |o.items| ensures Cleared(o.items)[i] == o.items[i] {
        assert o.items[i] in o.items;
      }
    } else {
      var n := |reqs| - 1;
      RunOnClean(o, reqs[..n]);
      var p := AllocateRun(o, reqs[..n]);
      var r := AllocateOrder(p, reqs[n]);
      if r.Ok? {
        forall i | 0 <= i < |p.items|
          ensures Cleared(r.value.items)[i] == Cleared(p.items)[i] && !ShipMoved(r.value.items[i].ful.shipStatus)
        {
          AllocateWritesChosen(p, reqs[n], i);
          assert p.items[i] in p.items;
        }
        assert Cleared(r.value.items) == Cleared(p.items);
      }
    }
  }

  /** The header can be revoked: not terminal, nothing shipped. */
  predicate HeaderOpen(o: Order) {
    !Unallocatable(o) && o.head.shipStatus != Shipped && o.head.shipStatus != PartialShipped
  }

  lemma RolledUpOpen(o: Order)
    requires AnyRoot(o) && forall it :: it in o.items ==> !ShipMoved(it.ful.shipStatus)
    ensures RollupOf(o).value.head.shipStatus == WaitShip
    ensures RollupOf(o).value.status != Completed && RollupOf(o).value.status != Closed
  {
    HeaderShipMeaning(o);
    RollupStaysOpen(o);
  }

  lemma HeadedOpen(o: Order, otherwise: Summary)
    requires forall it :: it in o.items ==> !ShipMoved(it.ful.shipStatus)
    requires otherwise.head.shipStatus == WaitShip && otherwise.status != Completed && otherwise.status != Closed
    ensures HeaderOpen(Headed(o, otherwise))
  {
    if AnyRoot(o) { RolledUpOpen(o); }
  }

  lemma AllocateKeepsOpen(o: Order, req: AllocRequest)
    requires AllocateOrder(o, req).Ok?
    requires forall it :: it in AllocateOrder(o, req).value.items ==> !ShipMoved(it.ful.shipStatus)
    ensures HeaderOpen(AllocateOrder(o, req).value)
  {
    HeadedOpen(o.(items := Assigned(o.items, req.itemIds, req.terms), skipAutoAlloc := false),
               DirectSummary(req.terms));
  }

  lemma {:induction false} RunHeaderOpen(o: Order, reqs: seq<AllocRequest>)
    requires Clean(o) && HeaderOpen(o)
    ensures HeaderOpen(AllocateRun(o, reqs))
  {
    if reqs != [] {
      var n := |reqs| - 1;
      RunHeaderOpen(o, reqs[..n]);
      var p := AllocateRun(o, reqs[..n]);
      if AllocateOrder(p, reqs[n]).Ok? {
        RunOnClean(o, reqs);
        AllocateKeepsOpen(p, reqs[n]);
      }
    }
  }

  /** Some request of the run was accepted. */
  ghost predicate AnyAccepted(o: Order, reqs: seq<AllocRequest>) {
    reqs != [] &&
      var n := |reqs| - 1;
      AnyAccepted(o, reqs[..n]) || AllocateOrder(AllocateRun(o, reqs[..n]), reqs[n]).Ok?
  }

  /** An accepted request leaves something to revoke: an allocated root, or the header of an order without one. */
  lemma AcceptedAllocates(o: Order, req: AllocRequest)
    requires AllocateOrder(o, req).Ok?
    ensures var p := AllocateOrder(o, req).value; HasAllocatedRoot(p.items) || p.head.allocType != Unallocated
  {
    var p := AllocateOrder(o, req).value;
    NoRootIds(o.items, it => true);
    if RootIds(o.items, it => true) == [] {
      assert !AnyRoot(o.(items := p.items, skipAutoAlloc := false)) by { NoRootsLeft(o, req); }
    } else {
      NoChosenRoots(o.items, req.itemIds);
      ChosenAreAllocated(o, req);
    }
  }

  lemma ChosenAreAllocated(o: Order, req: AllocRequest)
    requires AllocateOrder(o, req).Ok? && exists it :: it in o.items && Chosen(req.itemIds, it)
    ensures HasAllocatedRoot(AllocateOrder(o, req).value.items)
  {
    var p := AllocateOrder(o, req).value;
    AcceptedMeansFree(o, req);
    var it :| it in o.items && Chosen(req.itemIds, it);
    var i :| 0 <= i < |o.items| && o.items[i] == it;
    AllocateWritesChosen(o, req, i);
    assert IsRoot(p.items[i]) && HasAlloc(p.items[i].ful);
  }

  lemma NoRootsLeft(o: Order, req: AllocRequest)
    requires !AnyRoot(o)
    ensures !AnyRoot(o.(items := Assigned(o.items, req.itemIds, req.terms), skipAutoAlloc := false))
  {
    var items := Assigned(o.items, req.itemIds, req.terms);
    forall it | it in items ensures !FulfillableRoot(it) {
      var i :| 0 <= i < |items| && items[i] == it;
      assert o.items[i] in o.items;
    }
  }

  lemma {:induction false} AcceptedRun(o: Order, reqs: seq<AllocRequest>)
    ensures var p := AllocateRun(o, reqs);
      if AnyAccepted(o, reqs) then HasAllocatedRoot(p.items) || p.head.allocType != Unallocated else p == o
  {
    if reqs != [] {
      var n := |reqs| - 1;
      AcceptedRun(o, reqs[..n]);
      var p := AllocateRun(o, reqs[..n]);
      if AllocateOrder(p, reqs[n]).Ok? { AcceptedAllocates(p, reqs[n]); }
    }
  }

  /** Any run of allocations on a clean open order, then a revoke: every row is back as it was and the
      header waits for allocation again. The revoke is refused exactly when no request of the run was
      accepted and the header had nothing to revoke before it. */
  lemma {:induction false} RevokeUndoesRun(o: Order, reqs: seq<AllocRequest>)
    requires Clean(o) && HeaderOpen(o)
    ensures var r := RevokeOrder(AllocateRun(o, reqs));
      && (r.Ok? <==> AnyAccepted(o, reqs) || o.head.allocType != Unallocated || o.status != PendingAlloc)
      && (r.Ok? ==> r.value.items == o.items && r.value.head == NOTHING_ALLOCATED.head
                    && r.value.status == PendingAlloc && r.value.agentType == AGENT_SELF)
  {
    RunOnClean(o, reqs);
    RunHeaderOpen(o, reqs);
    AcceptedRun(o, reqs);
    var p := AllocateRun(o, reqs);
    forall i | 0 <= i < |o.items| ensures !HasAlloc(o.items[i].ful) {
      assert o.items[i] in o.items;
    }
    if RevokeOrder(p).Ok? { RevokeClears(p); }
  }

  // ---- unlinking a dropship purchase order ----

  predicate Linked(it: Item) {
    IsRoot(it) && (it.ful.allocType == Dropship || it.ful.poNo != "")
  }

  function WithoutPos(items: seq<Item>): (s: seq<Item>)
    ensures |s| == |items|
    ensures forall i :: 0 <= i < |s| ==>
      s[i] == if IsRoot(items[i]) then items[i].(ful := items[i].ful.(poNo := "")) else items[i]
  {
    seq(|items|, i requires 0 <= i < |items| =>
      if IsRoot(items[i]) then items[i].(ful := items[i].ful.(poNo := "")) else items[i])
  }

  function WithoutLinked(items: seq<Item>): (s: seq<Item>)
    ensures |s| == |items|
    ensures forall i :: 0 <= i < |s| ==> s[i] == if Linked(items[i]) then items[i].(ful := NO_FULFILMENT) else items[i]
  {
    seq(|items|, i requires 0 <= i < |items| => if Linked(items[i]) then items[i].(ful := NO_FULFILMENT) else items[i])
  }

  /** Some dropship root is on a purchase order. */
  predicate HasDropshipPo(items: seq<Item>) {
    exists i :: 0 <= i < |items| && IsRoot(items[i]) && items[i].ful.allocType == Dropship && items[i].ful.poNo != ""
  }

  /** A finished order without a purchase order of its own or of a dropship root is skipped. */
  predicate NothingToUnlink(o: Order) {
    Unallocatable(o) && o.head.poNo == "" && !HasDropshipPo(o.items)
  }

  ghost function UnlinkOrder(o: Order, clearAlloc: bool): Order {
    if NothingToUnlink(o) then o
    else if Unallocatable(o) || !clearAlloc || o.head.shipStatus == Shipped then
      o.(items := WithoutPos(o.items), head := o.head.(poNo := ""))
    else
      var p := Headed(o.(items := WithoutLinked(o.items), skipAutoAlloc := true), NOTHING_ALLOCATED);
      p.(head := p.head.(poNo := ""))
  }

  /** Unlinking with clear: dropship rows and rows on a purchase order become free, all other rows,
      the self-shipped ones among them, keep their allocation; the header summarises what is left. */
  lemma UnlinkKeepsOtherRows(o: Order, i: nat)
    requires !Unallocatable(o) && o.head.shipStatus != Shipped && i < |o.items|
    ensures var p := UnlinkOrder(o, true); var was := o.items[i];
      && |p.items| == |o.items|
      && (Linked(was) ==> !HasAlloc(p.items[i].ful) && p.items[i].ful == NO_FULFILMENT)
      && (!Linked(was) ==> p.items[i] == was)
      && p.head.poNo == "" && OwnPos(p) == {}
      && (HasAllocatedRoot(p.items)
          <==> exists k :: 0 <= k < |o.items| && IsRoot(o.items[k]) && HasAlloc(o.items[k].ful) && !Linked(o.items[k]))
  {
    var p := UnlinkOrder(o, true);
    forall it | it in p.items ensures OwnPo(it).None? {
      var k :| 0 <= k < |p.items| && p.items[k] == it;
      assert it == if Linked(o.items[k]) then o.items[k].(ful := NO_FULFILMENT) else o.items[k];
    }
    if OwnPos(p) != {} {
      var v :| v in OwnPos(p);
      var it := CollectFound(p.items, OwnPo, v);
    }
    if HasAllocatedRoot(p.items) {
      var k :| 0 <= k < |p.items| && IsRoot(p.items[k]) && HasAlloc(p.items[k].ful);
      assert p.items[k] == if Linked(o.items[k]) then o.items[k].(ful := NO_FULFILMENT) else o.items[k];
      assert NO_FULFILMENT.allocType == Unallocated;
      assert Linked(o.items[k]) ==> p.items[k].ful == NO_FULFILMENT && !HasAlloc(p.items[k].ful);
    }
    if exists k :: 0 <= k < |o.items| && IsRoot(o.items[k]) && HasAlloc(o.items[k].ful) && !Linked(o.items[k]) {
      var k :| 0 <= k < |o.items| && IsRoot(o.items[k]) && HasAlloc(o.items[k].ful) && !Linked(o.items[k]);
      assert IsRoot(p.items[k]) && HasAlloc(p.items[k].ful);
    }
  }

  /** Unlinking without clearing, or a finished or shipped order: only purchase orders go, and a finished
      order that has none on its header or a dropship root keeps even those of its other roots. */
  lemma UnlinkOnlyTakesPos(o: Order, clearAlloc: bool, i: nat)
    requires Unallocatable(o) || !clearAlloc || o.head.shipStatus == Shipped
    requires i < |o.items|
    ensures var p := UnlinkOrder(o, clearAlloc); var was := o.items[i];
      && p == o.(items := p.items, head := o.head.(poNo := ""))
      && |p.items| == |o.items|
      && p.items[i] == was.(ful := was.ful.(poNo := p.items[i].ful.poNo))
      && (p.items[i].ful.poNo == was.ful.poNo || p.items[i].ful.poNo == "")
      && (IsRoot(was) && was.ful.poNo != "" ==> (p.items[i].ful.poNo == "" <==> !NothingToUnlink(o)))
      && (NothingToUnlink(o) ==> p == o)
  {
  }

  /** After an unlink that clears, every free fulfillable root can be allocated again. */
  lemma UnlinkedCanBeAllocated(o: Order, req: AllocRequest)
    requires !Unallocatable(o) && o.head.shipStatus != Shipped
    requires forall it :: it in o.items && Chosen(req.itemIds, it) ==> Linked(it)
    requires exists it :: it in o.items && Chosen(req.itemIds, it)
    ensures ResolveTarget(UnlinkOrder(o, true), req.itemIds).Ok?
  {
    assert UnlinkOrder(o, true).items == WithoutLinked(o.items);
    UnlinkedRowsFree(o.items, req.itemIds);
    NoObstacle(WithoutLinked(o.items), req.itemIds);
    NoChosenRoots(WithoutLinked(o.items), req.itemIds);
  }

  lemma UnlinkedRowsFree(items: seq<Item>, ids: seq<nat>)
    requires forall it :: it in items && Chosen(ids, it) ==> Linked(it)
    ensures forall it :: it in WithoutLinked(items) && Chosen(ids, it) ==>
      !HasAlloc(it.ful) && !ShipMoved(it.ful.shipStatus)
    ensures (exists it :: it in items && Chosen(ids, it)) ==> exists it :: it in WithoutLinked(items) && Chosen(ids, it)
  {
    var after := WithoutLinked(items);
    forall it | it in after && Chosen(ids, it) ensures !HasAlloc(it.ful) && !ShipMoved(it.ful.shipStatus) {
      var k :| 0 <= k < |after| && after[k] == it;
      assert items[k] in items;
    }
    if it :| it in items && Chosen(ids, it) {
      var k :| 0 <= k < |items| && items[k] == it;
      assert after[k] in after && Chosen(ids, after[k]);
    }
  }

  // ---- the loops ----

  method SelectAllocateItemIds(o: Order, ids: seq<nat>) returns (r: Result<seq<nat>, AllocError>)
    ensures var all, chosen := RootIds(o.items, it => true), RootIds(o.items, it => Selects(ids, it));
      r == if all == [] then Ok([]) else if chosen == [] then Err(NothingSelected) else Ok(chosen)
  {
    var want := NormalizeIds(ids);
    var roots, out: seq<nat> := [], [];
    ghost var any, selected := (it: Item) => true, (it: Item) => Selects(ids, it);
    for i := 0 to |o.items|
      invariant roots == RootIds(o.items[..i], any)
      invariant out == RootIds(o.items[..i], selected)
    {
      var it := o.items[i];
      assert o.items[..i + 1][..i] == o.items[..i];
      if !FulfillableRoot(it) {
        continue;
      }
      roots := roots + [it.id];
      if want == {} || it.id in want {
        out := out + [it.id];
      }
    }
    assert o.items[..|o.items|] == o.items;
    if |roots| == 0 {
      return Ok([]);
    }
    if |out| == 0 {
      return Err(NothingSelected);
    }
    return Ok(out);
  }

  method NormalizeIds(ids: seq<nat>) returns (want: set<nat>)
    ensures forall id :: id in want <==> id != 0 && id in ids
    ensures want == {} <==> forall k :: 0 <= k < |ids| ==> ids[k] == 0
  {
    want := {};
    for k := 0 to |ids|
      invariant forall id :: id in want <==> id != 0 && id in ids[..k]
    {
      assert ids[..k + 1] == ids[..k] + [ids[k]];
      if ids[k] > 0 {
        want := want + {ids[k]};
      }
    }
    assert ids[..|ids|] == ids;
    forall k | 0 <= k < |ids| && ids[k] != 0 ensures want != {} {
      assert ids[k] in want;
    }
  }

  method CheckFree(items: seq<Item>, ids: seq<nat>) returns (e: Option<AllocError>)
    ensures e == FirstObstacle(items, ids)
  {
    e := None;
    var want := NormalizeIds(ids);
    for i := 0 to |items|
      invariant e == FirstObstacle(items[..i], ids)
    {
      assert items[..i + 1][..i] == items[..i];
      var it := items[i];
      if e.Some? || !FulfillableRoot(it) || !(want == {} || it.id in want) {
        continue;
      }
      if it.ful.allocType != Unallocated {
        e := Some(AlreadyAllocated);
      } else if it.ful.shipStatus == Shipped || it.ful.shipStatus == PartialShipped {
        e := Some(AlreadyShipped);
      }
    }
    assert items[..|items|] == items;
  }

  /** The terms on the chosen rows, one after the other. */
  method AssignRows(rows: seq<Item>, ids: seq<nat>, t: Terms) returns (items: seq<Item>)
    ensures items == Assigned(rows, ids, t)
  {
    items := rows;
    for i := 0 to |rows|
      invariant |items| == |rows|
      invariant items[..i] == Assigned(rows, ids, t)[..i]
      invariant items[i..] == rows[i..]
    {
      assert items[i] == rows[i];
      if Chosen(ids, items[i]) {
        items := items[i := items[i].(ful := RowTerms(t))];
      }
    }
    assert items == Assigned(rows, ids, t);
  }

  /** One order on the allocation desk. */
  class AllocationDesk {
    var order: Order

    constructor (o: Order)
      ensures order == o
    {
      order := o;
    }

    method Allocate(req: AllocRequest) returns (r: Result<Order, AllocError>)
      modifies this
      ensures r == AllocateOrder(old(order), req)
      ensures order == if r.Ok? then r.value else old(order)
    {
      var selected := SelectAllocateItemIds(order, req.itemIds);
      if selected.Err? {
        return Err(selected.error);
      }
      if |selected.value| > 0 {
        var obstacle := CheckFree(order.items, req.itemIds);
        if obstacle.Some? {
          return Err(obstacle.value);
        }
      }
      var fault := CheckAllocate(order, req.terms);
      if fault.Some? {
        return Err(fault.value);
      }
      var items := AssignRows(order.items, req.itemIds, req.terms);
      WriteHeader(order.(items := items, skipAutoAlloc := false), DirectSummary(req.terms));
      return Ok(order);
    }

    /** Roll the changed rows up into the header. */
    method WriteHeader(o: Order, otherwise: Summary)
      modifies this
      ensures order == Headed(o, otherwise)
    {
      var fields := RollupOrderFulfillmentFields(o);
      var h := if fields.Some? then fields.value else otherwise;
      order := o.(head := h.head, status := h.status, agentType := h.agentType);
    }

    method RevokeAllocate() returns (r: Result<Order, AllocError>)
      modifies this
      ensures r == RevokeOrder(old(order))
      ensures order == if r.Ok? then r.value else old(order)
      ensures r.Ok? ==>
        && (forall it :: it in order.items ==> it.ful == NO_FULFILMENT)
        && order.head == NOTHING_ALLOCATED.head && order.status == PendingAlloc && order.skipAutoAlloc
      ensures r.Err? ==> !HeaderOpen(order) || !HasAllocatedRoot(order.items)
    {
      if order.status == Completed || order.status == Closed {
        return Err(Terminal);
      }
      if order.head.shipStatus == Shipped || order.head.shipStatus == PartialShipped {
        return Err(OrderShipped);
      }
      var itemLevel := OrderHasItemLevelAlloc(order.items);
      if order.head.allocType == Unallocated && order.status == PendingAlloc && !itemLevel {
        return Err(NotAllocatedYet);
      }
      RevokeClears(order);
      WriteHeader(order.(items := Cleared(order.items), skipAutoAlloc := true), NOTHING_ALLOCATED);
      return Ok(order);
    }

    method UnlinkDropshipPO(clearAlloc: bool)
      modifies this
      ensures order == UnlinkOrder(old(order), clearAlloc)
    {
      if order.status == Completed || order.status == Closed {
        var bound := OrderHasDropshipPOItems(order.items);
        if order.head.poNo == "" && !bound {
          return;
        }
      }
      if order.status == Completed || order.status == Closed || !clearAlloc || order.head.shipStatus == Shipped {
        order := order.(items := WithoutPos(order.items), head := order.head.(poNo := ""));
        return;
      }
      WriteHeader(order.(items := WithoutLinked(order.items), skipAutoAlloc := true), NOTHING_ALLOCATED);
      order := order.(head := order.head.(poNo := ""));
    }
  }

  method OrderHasDropshipPOItems(items: seq<Item>) returns (b: bool)
    ensures b <==> HasDropshipPo(items)
  {
    for i := 0 to |items|
      invariant forall k :: 0 <= k < i ==>
        !(IsRoot(items[k]) && items[k].ful.allocType == Dropship && items[k].ful.poNo != "")
    {
      if !IsRoot(items[i]) {
        continue;
      }
      if items[i].ful.allocType == Dropship && items[i].ful.poNo != "" {
        return true;
      }
    }
    return false;
  }

  method CheckAllocate(o: Order, t: Terms) returns (e: Option<AllocError>)
    ensures e == AllocateFault(o, t)
  {
    if o.status == Completed || o.status == Closed {
      return Some(Terminal);
    }
    if o.head.shipStatus == Shipped {
      return Some(OrderShipped);
    }
    var _, _, allAlloc, _ := Flags(o);
    if o.channel == Kdzs && o.agentType == AGENT_FACTORY && o.head.allocType == Dropship && o.head.mode == KdzsFactory
       && allAlloc {
      return Some(PushedToFactory);
    }
    if o.blocked {
      return Some(Blocked);
    }
    if t.allocType == SelfShip || t.allocType == PurchaseThenShip {
      return None;
    }
    if t.allocType != Dropship {
      return Some(UnknownType);
    }
    return if t.supplierId == 0 then Some(NoSupplier) else None;
  }
}
