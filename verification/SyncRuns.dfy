/** Runs of platform syncs over one order. A sync writes the order, merges the
    other orders of its platform order into it, and gives its rows the
    allocation of the package: three steps that meet here in any order. */
module SyncRuns {
  import opened OrderModel
  import opened Ingest
  import PackageFulfilment
  import opened Rollup
  import opened SiblingMerge

  /** The ways a sync writes an order that is kept: as itself, as the keeper of a family, by package. */
  datatype SyncStep =
    | OrderSync(inc: Incoming, itemKey: nat, shipmentKey: nat)
    | MergeSync(sibs: seq<Order>)
    | PackageSync(s: PackageFulfilment.Sync)

  /** The keeper with its siblings folded in. */
  ghost function MergeInto(k: Order, sibs: seq<Order>): Order {
    Finished(MergeList(k, sibs), sibs != [])
  }

  ghost function Step(o: Order, step: SyncStep): Order {
    match step
    case OrderSync(inc, itemKey, shipmentKey) => IngestOrder(o, inc, itemKey, shipmentKey)
    case MergeSync(sibs) => MergeInto(o, sibs)
    case PackageSync(s) => PackageFulfilment.SyncPackage(o, s)
  }

  ghost function Steps(o: Order, steps: seq<SyncStep>): Order {
    if steps == [] then o else Step(Steps(o, steps[..|steps| - 1]), steps[|steps| - 1])
  }

  // ---- the merge step is what a merge leaves of the keeper ----

  lemma {:induction false} SiblingCount(orders: map<nat, Order>, k: nat, ids: seq<nat>)
    requires NoRepeats(ids) && forall id :: id in ids ==> id in orders
    ensures |Siblings(orders, k, ids)| == |ids| - if k in ids then 1 else 0
  {
    if ids != [] {
      var n := |ids| - 1;
      SiblingCount(orders, k, ids[..n]);
      assert ids == ids[..n] + [ids[n]];
    }
  }

  /** A merge of a family does to its keeper what the merge step does with its siblings. */
  lemma MergeStepIsForceMerge(shop: Shop, tid: string, below: nat) returns (k: Option<nat>)
    requires ShopOk(shop) && tid != "" && forall id :: id in shop.orders ==> id < below
    ensures k.Some? <==> HasUnsplit(shop, tid)
    ensures k.Some? ==>
      && k.value in shop.orders && k.value in ForceMerge(shop, tid, below).orders
      && ForceMerge(shop, tid, below).orders[k.value]
         == MergeInto(shop.orders[k.value], Siblings(shop.orders, k.value, Family(shop.orders, tid, below)))
  {
    var ids;
    ids, k := ForceMergeIs(shop, tid, below);
    if k.Some? { SiblingCount(shop.orders, k.value, ids); }
  }

  // ---- which rows a merge brings ----

  function RootOids(items: seq<Item>): set<string> {
    set i | 0 <= i < |items| && IsRoot(items[i]) && items[i].goods.oid != "" :: items[i].goods.oid
  }

  /** The platform lines that have a root in the keeper or in one of the siblings. */
  function SeenOids(k: Order, sibs: seq<Order>): set<string> {
    if sibs == [] then RootOids(k.items)
    else SeenOids(k, sibs[..|sibs| - 1]) + RootOids(sibs[|sibs| - 1].items)
  }

  predicate NewRow(seen: set<string>, items: seq<Item>, p: Item -> bool) {
    exists i :: 0 <= i < |items| && p(items[i]) && items[i].goods.oid !in seen
  }

  /** Some sibling brings such a row, for a platform line neither the keeper nor an earlier sibling has a root for. */
  predicate Brings(k: Order, sibs: seq<Order>, p: Item -> bool) {
    sibs != [] &&
      var n := |sibs| - 1;
      Brings(k, sibs[..n], p) || NewRow(SeenOids(k, sibs[..n]), sibs[n].items, p)
  }

  predicate HasSome(items: seq<Item>, p: Item -> bool) {
    exists i :: 0 <= i < |items| && p(items[i])
  }

  /** The property does not read the allocation. */
  ghost predicate AboutRows(p: Item -> bool) {
    forall it: Item, f: Fulfilment :: p(it.(ful := f)) == p(it)
  }

  lemma {:induction false} RootOidIs(items: seq<Item>, oid: string)
    ensures oid in RootOids(items) <==> KeeperRow(items, oid).Some?
  {
    KeeperRowIs(items, oid);
    if oid in RootOids(items) {
      var i :| 0 <= i < |items| && IsRoot(items[i]) && items[i].goods.oid != "" && items[i].goods.oid == oid;
    }
    if KeeperRow(items, oid).Some? {
      var i := KeeperRow(items, oid).value;
      KeeperRowNamed(items, oid);
      assert IsRoot(items[i]) && items[i].goods.oid == oid;
    }
  }

  lemma {:induction false} KeeperRowNamed(items: seq<Item>, oid: string)
    requires KeeperRow(items, oid).Some?
    ensures oid != ""
  {
  }

  lemma {:induction false} FilledHas(k: Order, sib: Order, p: Item -> bool)
    requires AboutRows(p)
    ensures HasSome(Filled(k, sib, sib.items), p) <==> HasSome(k.items, p)
  {
    var filled := Filled(k, sib, sib.items);
    forall j | 0 <= j < |filled| ensures p(filled[j]) == p(k.items[j]) {
      FilledAre(k, sib, sib.items, j);
    }
  }

  lemma {:induction false} MovedHas(k: Order, sib: Order, rows: seq<Item>, p: Item -> bool)
    requires AboutRows(p)
    ensures HasSome(Moved(k, sib, rows), p) <==> NewRow(RootOids(k.items), rows, p)
  {
    if rows != [] {
      var n := |rows| - 1;
      MovedHas(k, sib, rows[..n], p);
      RootOidIs(k.items, rows[n].goods.oid);
      HasSomeStep(Moved(k, sib, rows[..n]), Settled(sib, rows[n]), p);
      NewRowStep(RootOids(k.items), rows, p);
    }
  }

  lemma HasSomeStep(items: seq<Item>, it: Item, p: Item -> bool)
    ensures HasSome(items + [it], p) <==> HasSome(items, p) || p(it)
  {
    var all := items + [it];
    if HasSome(items, p) {
      var i :| 0 <= i < |items| && p(items[i]);
      assert p(all[i]);
    }
    if p(it) { assert p(all[|items|]); }
  }

  lemma NewRowStep(seen: set<string>, rows: seq<Item>, p: Item -> bool)
    requires rows != []
    ensures var n := |rows| - 1;
      NewRow(seen, rows, p) <==> NewRow(seen, rows[..n], p) || (p(rows[n]) && rows[n].goods.oid !in seen)
  {
    var n := |rows| - 1;
    if NewRow(seen, rows[..n], p) {
      var i :| 0 <= i < n && p(rows[..n][i]) && rows[..n][i].goods.oid !in seen;
      assert p(rows[i]) && rows[i].goods.oid !in seen;
    }
    if NewRow(seen, rows, p) {
      var i :| 0 <= i < |rows| && p(rows[i]) && rows[i].goods.oid !in seen;
      if i < n { assert p(rows[..n][i]) && rows[..n][i].goods.oid !in seen; }
    }
  }

  lemma HasSomeConcat(a: seq<Item>, b: seq<Item>, p: Item -> bool)
    ensures HasSome(a + b, p) <==> HasSome(a, p) || HasSome(b, p)
  {
    var all := a + b;
    if HasSome(a, p) {
      var i :| 0 <= i < |a| && p(a[i]);
      assert p(all[i]);
    }
    if HasSome(b, p) {
      var i :| 0 <= i < |b| && p(b[i]);
      assert p(all[|a| + i]);
    }
  }

  /** One sibling: the rows kept, and those that are not dropped. */
  lemma OneMergeHas(k: Order, sib: Order, p: Item -> bool)
    requires AboutRows(p)
    ensures HasSome(MergeOrders(k, sib).items, p) <==> HasSome(k.items, p) || NewRow(RootOids(k.items), sib.items, p)
  {
    FilledHas(k, sib, p);
    MovedHas(k, sib, sib.items, p);
    HasSomeConcat(Filled(k, sib, sib.items), Moved(k, sib, sib.items), p);
  }

  lemma OneMergeRootOids(k: Order, sib: Order)
    ensures RootOids(MergeOrders(k, sib).items) == RootOids(k.items) + RootOids(sib.items)
  {
    forall oid
      ensures oid in RootOids(MergeOrders(k, sib).items) <==> oid in RootOids(k.items) || oid in RootOids(sib.items)
    {
      var p := (it: Item) => IsRoot(it) && it.goods.oid != "" && it.goods.oid == oid;
      OneMergeHas(k, sib, p);
      RootOidSome(MergeOrders(k, sib).items, oid);
      RootOidSome(k.items, oid);
      RootOidSome(sib.items, oid);
      if oid !in RootOids(k.items) {
        assert NewRow(RootOids(k.items), sib.items, p) <==> HasSome(sib.items, p);
      }
    }
  }

  lemma RootOidSome(items: seq<Item>, oid: string)
    ensures oid in RootOids(items) <==> HasSome(items, it => IsRoot(it) && it.goods.oid != "" && it.goods.oid == oid)
  {
    var p := (it: Item) => IsRoot(it) && it.goods.oid != "" && it.goods.oid == oid;
    if oid in RootOids(items) {
      var i :| 0 <= i < |items| && IsRoot(items[i]) && items[i].goods.oid != "" && items[i].goods.oid == oid;
      assert p(items[i]);
    }
    if HasSome(items, p) {
      var i :| 0 <= i < |items| && p(items[i]);
    }
  }

  lemma {:induction false} MergedRootOids(k: Order, sibs: seq<Order>)
    ensures RootOids(MergeList(k, sibs).items) == SeenOids(k, sibs)
  {
    if sibs != [] {
      var n := |sibs| - 1;
      MergedRootOids(k, sibs[..n]);
      OneMergeRootOids(MergeList(k, sibs[..n]), sibs[n]);
    }
  }

  /** All siblings: the merged order has such a row exactly when the keeper had one or they bring one. */
  lemma {:induction false} MergedHas(k: Order, sibs: seq<Order>, p: Item -> bool)
    requires AboutRows(p)
    ensures HasSome(MergeList(k, sibs).items, p) <==> HasSome(k.items, p) || Brings(k, sibs, p)
  {
    if sibs != [] {
      var n := |sibs| - 1;
      MergedHas(k, sibs[..n], p);
      MergedRootOids(k, sibs[..n]);
      OneMergeHas(MergeList(k, sibs[..n]), sibs[n], p);
    }
  }

  // ---- closed exactly when nothing is left ----

  /** What a merge does to the open or closed state: the keeper decides, whatever the rows are. */
  lemma {:induction false} MergeKeepsStage(k: Order, sibs: seq<Order>)
    ensures var p := MergeInto(k, sibs);
      && (p.status == Closed <==> k.status == Closed) && (p.status == Completed <==> k.status == Completed)
      && p.items == MergeList(k, sibs).items
  {
    MergeListHeader(k, sibs);
    FinishedKeeps(MergeList(k, sibs), sibs != []);
    RollupStaysOpen(MergeList(k, sibs));
  }

  /** When a merge leaves the order closed exactly if nothing is left: a closed keeper must get no live row,
      an open one without roots must get no dead root alone. */
  predicate MergeFits(k: Order, sibs: seq<Order>) {
    k.status == Completed
    || if k.status == Closed then !Brings(k, sibs, FulfillableRoot)
       else HasRoots(k.items) || Brings(k, sibs, FulfillableRoot) || !Brings(k, sibs, IsRoot)
  }

  /** The merge roll-up never reopens and never closes: a keeper that is closed exactly if nothing is left
      stays so exactly under the condition above. */
  lemma MergeFitsIs(k: Order, sibs: seq<Order>)
    requires ClosedFits(k)
    ensures ClosedFits(MergeInto(k, sibs)) <==> MergeFits(k, sibs)
  {
    MergeKeepsStage(k, sibs);
    MergedHas(k, sibs, FulfillableRoot);
    MergedHas(k, sibs, IsRoot);
    LiveRowsAre(k.items);
    LiveRowsAre(MergeList(k, sibs).items);
  }

  lemma LiveRowsAre(items: seq<Item>)
    ensures HasSome(items, FulfillableRoot) <==> HasFulfillable(items)
    ensures HasSome(items, IsRoot) <==> HasRoots(items)
    ensures HasFulfillable(items) ==> HasRoots(items)
  {
    if HasFulfillable(items) {
      var i :| 0 <= i < |items| && FulfillableRoot(items[i]);
      assert IsRoot(items[i]);
    }
  }

  lemma PackageKeepsFit(o: Order, s: PackageFulfilment.Sync)
    requires ClosedFits(o)
    ensures ClosedFits(PackageFulfilment.SyncPackage(o, s))
  {
    PackageFulfilment.SyncKeepsStage(o, s);
    PackageFulfilment.SyncKeepsIdentities(o, s);
    SameRootsSameFit(o.items, PackageFulfilment.SyncPackage(o, s).items);
  }

  lemma SameRootsSameFit(a: seq<Item>, b: seq<Item>)
    requires PackageFulfilment.SameIdentities(a, b)
    ensures HasRoots(b) == HasRoots(a) && HasFulfillable(b) == HasFulfillable(a)
  {
    forall i | 0 <= i < |a|
      ensures IsRoot(b[i]) == IsRoot(a[i]) && FulfillableRoot(b[i]) == FulfillableRoot(a[i]) {}
  }

  /** Only payloads of the platform get the backstop. */
  predicate PlatformOnly(steps: seq<SyncStep>) {
    forall k :: 0 <= k < |steps| && steps[k].OrderSync? ==> steps[k].inc.channel == Kdzs
  }

  /** After every part of the run. */
  ghost predicate AlwaysFits(o: Order, steps: seq<SyncStep>) {
    ClosedFits(Steps(o, steps)) && (steps != [] ==> AlwaysFits(o, steps[..|steps| - 1]))
  }

  /** At every merge of the run. */
  ghost predicate MergesFit(o: Order, steps: seq<SyncStep>) {
    steps != [] ==>
      var n := |steps| - 1;
      && MergesFit(o, steps[..n])
      && (steps[n].MergeSync? ==> MergeFits(Steps(o, steps[..n]), steps[n].sibs))
  }

  /** Over any run of platform syncs, an order with roots that is not completed is closed exactly when none of
      its roots can be fulfilled, after every step, if and only if every merge of the run fits. */
  lemma {:induction false} ClosedOverRuns(o: Order, steps: seq<SyncStep>)
    requires ClosedFits(o) && PlatformOnly(steps)
    ensures AlwaysFits(o, steps) <==> MergesFit(o, steps)
  {
    if steps != [] {
      var n := |steps| - 1;
      assert PlatformOnly(steps[..n]);
      ClosedOverRuns(o, steps[..n]);
      if AlwaysFits(o, steps[..n]) { StepFits(Steps(o, steps[..n]), steps[n]); }
    }
  }

  lemma StepFits(o: Order, step: SyncStep)
    requires ClosedFits(o) && (step.OrderSync? ==> step.inc.channel == Kdzs)
    ensures ClosedFits(Step(o, step)) <==> (step.MergeSync? ==> MergeFits(o, step.sibs))
  {
    match step
    case OrderSync(inc, itemKey, shipmentKey) => BackstopFits(Merged(o, inc, itemKey, shipmentKey));
    case MergeSync(sibs) => MergeFitsIs(o, sibs);
    case PackageSync(s) => PackageKeepsFit(o, s);
  }

  predicate WithoutMerges(steps: seq<SyncStep>) {
    forall k :: 0 <= k < |steps| ==> !steps[k].MergeSync?
  }

  predicate HasOrderSync(steps: seq<SyncStep>) {
    exists k :: 0 <= k < |steps| && steps[k].OrderSync?
  }

  /** Order and package syncs alone establish it with the first order sync, from any order at all, and keep it. */
  lemma {:induction false} ClosedWithoutMerges(o: Order, steps: seq<SyncStep>)
    requires PlatformOnly(steps) && WithoutMerges(steps)
    requires ClosedFits(o) || HasOrderSync(steps)
    ensures ClosedFits(Steps(o, steps))
  {
    if steps != [] {
      var n := |steps| - 1;
      var before := Steps(o, steps[..n]);
      if steps[n].OrderSync? {
        BackstopFits(Merged(before, steps[n].inc, steps[n].itemKey, steps[n].shipmentKey));
      } else {
        if !ClosedFits(o) {
          var k :| 0 <= k < |steps| && steps[k].OrderSync?;
          assert steps[..n][k].OrderSync?;
        }
        ClosedWithoutMerges(o, steps[..n]);
        PackageKeepsFit(before, steps[n].s);
      }
    }
  }

  const DEAD_ROW := LIVE_ROW.(lineClosed := true)
  const OTHER_ROW := LIVE_ROW.(id := 2, goods := LIVE_ROW.goods.(oid := "B"))

  /** A refunded order, closed, and the open order split off from it. */
  const CLOSED_KEEPER :=
    Order(1, Kdzs, "T", "S", 0, WaitSend, false, false, false, Closed, AGENT_SELF, NO_FULFILMENT, None, 0, 0,
          [DEAD_ROW], [])
  const OPEN_SPLIT :=
    CLOSED_KEEPER.(id := 2, sysTid := "", splitFrom := 1, status := PendingAlloc, items := [OTHER_ROW])

  /** It does fail: the closed order keeps, takes over a row that can be fulfilled, and stays closed. */
  lemma ClosedKeeperTakesLiveRow()
    ensures Keeper([CLOSED_KEEPER, OPEN_SPLIT]) == Some(CLOSED_KEEPER)
    ensures ClosedFits(CLOSED_KEEPER) && ClosedFits(OPEN_SPLIT)
    ensures var p := MergeInto(CLOSED_KEEPER, [OPEN_SPLIT]);
      p.status == Closed && HasFulfillable(p.items) && !ClosedFits(p)
  {
    var k, sib := CLOSED_KEEPER, OPEN_SPLIT;
    assert [k, sib][..1] == [k] && [k][..0] == [];
    assert !SplitOff(k) by { assert IndexOf("S", "#split").None?; }
    assert Best([k]) == Some(k) && SplitOff(sib);
    assert Keeper([k, sib]) == Some(k);
    assert !HasFulfillable(k.items);
    assert [sib][..0] == [] && SeenOids(k, []) == RootOids(k.items);
    assert FulfillableRoot(sib.items[0]) && sib.items[0].goods.oid !in RootOids(k.items);
    assert NewRow(SeenOids(k, []), sib.items, FulfillableRoot);
    assert Brings(k, [sib], FulfillableRoot);
    MergeFitsIs(k, [sib]);
    MergeKeepsStage(k, [sib]);
  }

  // ---- what an allocation survives ----

  /** There is something to fulfil, and the rows tell another allocation than the header's. */
  ghost predicate RowsOverrule(o: Order) {
    AnyRoot(o) && !RowsAgree(o.items, o.head)
  }

  /** What overwrites the header's allocation in a step: a sync of the order by its own guards, the others
      by rows that tell another one. */
  ghost predicate StepOverwrites(o: Order, step: SyncStep) {
    match step
    case OrderSync(inc, _, _) => Overwrites(o, inc)
    case MergeSync(sibs) => sibs != [] && RowsOverrule(MergeList(o, sibs))
    case PackageSync(s) =>
      var matched := PackageFulfilment.Matched(o, s);
      matched != []
      && var rows := PackageFulfilment.SyncedRows(o, matched, s, PackageFulfilment.OwnPackage(o, s).value.id);
         RowsOverrule(o.(items := rows))
  }

  lemma StepKeepsAllocation(o: Order, step: SyncStep)
    ensures SameAllocation(Step(o, step).head, o.head) <==> !StepOverwrites(o, step)
  {
    match step
    case OrderSync(inc, itemKey, shipmentKey) => AllocationSurvives(o, inc, itemKey, shipmentKey);
    case MergeSync(sibs) => MergeAllocation(o, sibs);
    case PackageSync(s) => PackageAllocation(o, s);
  }

  lemma {:induction false} MergeAllocation(k: Order, sibs: seq<Order>)
    ensures SameAllocation(MergeInto(k, sibs).head, k.head) <==> !(sibs != [] && RowsOverrule(MergeList(k, sibs)))
  {
    MergeListHeader(k, sibs);
    RolledAllocation(MergeList(k, sibs));
  }

  lemma RolledAllocation(o: Order)
    ensures SameAllocation(RolledHeader(o).head, o.head) <==> !RowsOverrule(o)
  {
    if AnyRoot(o) { RollupAllocation(o); }
  }

  lemma PackageAllocation(o: Order, s: PackageFulfilment.Sync)
    ensures SameAllocation(PackageFulfilment.SyncPackage(o, s).head, o.head) <==> !StepOverwrites(o, PackageSync(s))
  {
    var matched := PackageFulfilment.Matched(o, s);
    if matched != [] {
      SyncedAllocation(
        o.(items := PackageFulfilment.SyncedRows(o, matched, s, PackageFulfilment.OwnPackage(o, s).value.id)));
    }
  }

  lemma SyncedAllocation(o: Order)
    ensures SameAllocation(PackageFulfilment.SyncedHeader(o).head, o.head) <==> !RowsOverrule(o)
  {
    if AnyRoot(o) { RollupAllocation(o); }
  }

  ghost predicate AlwaysAllocated(o: Order, steps: seq<SyncStep>) {
    SameAllocation(Steps(o, steps).head, o.head) && (steps != [] ==> AlwaysAllocated(o, steps[..|steps| - 1]))
  }

  ghost predicate NeverOverwritten(o: Order, steps: seq<SyncStep>) {
    steps != [] ==>
      var n := |steps| - 1;
      NeverOverwritten(o, steps[..n]) && !StepOverwrites(Steps(o, steps[..n]), steps[n])
  }

  /** Over any run, the header keeps its allocation throughout exactly when no step overwrites it. */
  lemma {:induction false} AllocationOverRuns(o: Order, steps: seq<SyncStep>)
    ensures AlwaysAllocated(o, steps) <==> NeverOverwritten(o, steps)
  {
    if steps != [] {
      var n := |steps| - 1;
      AllocationOverRuns(o, steps[..n]);
      StepKeepsAllocation(Steps(o, steps[..n]), steps[n]);
    }
  }

  /** A package sync that reaches a row of an order with something to fulfil leaves the header with an
      allocation type, one path and not a mixture, exactly when the synced rows all say so. */
  lemma TypeByRows(o: Order, s: PackageFulfilment.Sync, a: AllocType)
    requires a != Unallocated && a != Mixed
    requires PackageFulfilment.Matched(o, s) != [] && AnyRoot(o)
    ensures var p := PackageFulfilment.SyncPackage(o, s);
      p.head.allocType == a <==> RowsSay(p.items, a)
  {
    var p := PackageFulfilment.SyncPackage(o, s);
    var mid := o.(items := p.items);
    PackageFulfilment.SyncKeepsRoots(o, s);
    HeaderTypeIs(mid, a);
  }
}
