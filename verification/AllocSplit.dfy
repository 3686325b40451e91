/** Splitting selected goods off into an order of their own, and folding such an
    order back once neither side is allocated: which rows go along, and what each
    side is then paid. */
module AllocSplit {
  import opened OrderModel
  import opened Money
  import opened SiblingMerge
  import SiblingMergeLoops
  import SequenceNo

  /** The amount of the rows, rounded as money. */
  function RowsPay(items: seq<Item>): int {
    RoundMoney(ItemAmounts(items), 1)
  }

  // ---- splitting off ----

  function Ids(rows: seq<Item>): set<nat> {
    set i | 0 <= i < |rows| :: rows[i].id
  }

  /** A selected root goes, and every row that hangs on one goes along. */
  predicate Goes(chosen: set<nat>, it: Item) {
    it.id in chosen || (it.parent != 0 && it.parent in chosen)
  }

  function Going(items: seq<Item>, chosen: set<nat>): seq<Item> {
    if items == [] then []
    else
      var it := items[|items| - 1];
      Going(items[..|items| - 1], chosen) + if Goes(chosen, it) then [it] else []
  }

  function Staying(items: seq<Item>, chosen: set<nat>): seq<Item> {
    if items == [] then []
    else
      var it := items[|items| - 1];
      Staying(items[..|items| - 1], chosen) + if Goes(chosen, it) then [] else [it]
  }

  function FulfillableRows(items: seq<Item>): seq<Item> {
    if items == [] then []
    else
      var it := items[|items| - 1];
      FulfillableRows(items[..|items| - 1]) + if FulfillableRoot(it) then [it] else []
  }

  /** What the original order is left with: never less than nothing, and recomputed from its rows
      when the split takes more than was paid. */
  function RemainingPay(parent: Order, selected: seq<Item>): int {
    var left := RoundMoney(parent.pay - RowsPay(selected), 1);
    if left >= 0 then left
    else
      var byRows := RowsPay(FulfillableRows(parent.items)) - RowsPay(selected);
      if byRows < 0 then 0 else byRows
  }

  function SplitSysTid(parent: Order, childId: nat): string {
    var base := BaseSysTid(parent.sysTid);
    var stem := if base != "" then base else parent.tid;
    if stem == "" then "" else stem + "#split" + SequenceNo.Decimal(childId)
  }

  function ChildOrder(parent: Order, selected: seq<Item>, childId: nat): Order {
    Order(childId, parent.channel, parent.tid, SplitSysTid(parent, childId), parent.id, parent.platformStatus,
          parent.blocked, false, false, PendingAlloc, 0, NO_FULFILMENT.(shipStatus := WaitShip), None,
          RowsPay(selected), RowsPay(selected), Going(parent.items, Ids(selected)), [])
  }

  function ParentAfter(parent: Order, selected: seq<Item>): Order {
    parent.(items := Staying(parent.items, Ids(selected)),
            pay := RemainingPay(parent, selected), total := RemainingPay(parent, selected))
  }

  // ---- folding back ----

  /** Open, not shipped and not allocated. */
  predicate Free(o: Order) {
    && o.status != Completed && o.status != Closed
    && o.head.shipStatus != Shipped && o.head.shipStatus != PartialShipped
    && o.head.allocType == Unallocated && o.head.poNo == "" && o.head.selfNo == ""
  }

  function ChildPay(child: Order): int {
    if child.pay <= 0 then RowsPay(child.items) else child.pay
  }

  function FoldedBack(parent: Order, child: Order): Order {
    if child.items == [] then parent
    else
      var pay := RoundMoney(parent.pay + ChildPay(child), 1);
      parent.(items := parent.items + child.items, pay := pay, total := pay)
  }

  /** A free child of a free order is folded back and deleted. */
  function FoldChild(orders: map<nat, Order>, childId: nat): map<nat, Order> {
    if childId !in orders then orders
    else
      var child := orders[childId];
      if child.splitFrom == 0 || !Free(child) || child.splitFrom !in orders || child.splitFrom == childId
         || !Free(orders[child.splitFrom]) then orders
      else (orders - {childId})[child.splitFrom := FoldedBack(orders[child.splitFrom], child)]
  }

  function FoldChildren(orders: map<nat, Order>, ids: seq<nat>): map<nat, Order> {
    if ids == [] then orders else FoldChild(FoldChildren(orders, ids[..|ids| - 1]), ids[|ids| - 1])
  }

  // ---- what both sides look like ----

  /** The amount of rows in whole cents, as money: never rounded, unless it is negative. */
  lemma {:induction false} RowsPayIs(items: seq<Item>)
    ensures ItemAmounts(items) >= 0 ==> RowsPay(items) == ItemAmounts(items)
  {
    RoundWholeCents(ItemAmounts(items));
  }

  /** The order split off: it waits for allocation, knows where it comes from, and has the amount of the selected
      rows as its payment. */
  lemma {:induction false} SplitOffIs(parent: Order, selected: seq<Item>, childId: nat)
    requires ItemAmounts(selected) >= 0
    ensures var c, amount := ChildOrder(parent, selected, childId), ItemAmounts(selected);
      && c.id == childId && c.splitFrom == parent.id && c.channel == parent.channel && c.tid == parent.tid
      && c.status == PendingAlloc && c.head == Fulfilment(Unallocated, NoMode, 0, "", "", "", "", "", WaitShip, None)
      && c.platformStatus == parent.platformStatus && c.blocked == parent.blocked && !c.locked && !c.skipAutoAlloc
      && c.agentType == 0 && c.shippedAt == None && c.shipments == [] && c.pay == amount && c.total == amount
  {
    RowsPayIs(selected);
  }

  /** Of the original only rows and payment change: it keeps what was paid beyond the amount of the selected rows,
      or, if at least two cents less was paid, what its fulfillable rows come to beyond it. */
  lemma {:induction false} OriginalIs(parent: Order, selected: seq<Item>)
    requires ItemAmounts(selected) >= 0 && ItemAmounts(FulfillableRows(parent.items)) >= 0
    ensures var p, amount := ParentAfter(parent, selected), ItemAmounts(selected);
      var rest := ItemAmounts(FulfillableRows(parent.items)) - amount;
      && p == parent.(items := p.items, pay := p.pay, total := p.pay)
      && p.pay == if parent.pay >= amount then parent.pay - amount
                  else if parent.pay == amount - 1 || rest <= 0 then 0 else rest
  {
    RowsPayIs(selected);
    RowsPayIs(FulfillableRows(parent.items));
    RemainingIs(parent.pay, ItemAmounts(selected), ItemAmounts(FulfillableRows(parent.items)), parent, selected);
  }

  lemma RemainingIs(pay: int, amount: int, live: int, parent: Order, selected: seq<Item>)
    requires parent.pay == pay && RowsPay(selected) == amount && RowsPay(FulfillableRows(parent.items)) == live
    requires amount >= 0
    ensures RemainingPay(parent, selected)
         == if pay >= amount then pay - amount else if pay == amount - 1 || live <= amount then 0 else live - amount
  {
    RoundWholeCents(pay - amount);
  }

  /** Rows go by key: a selected one, and one that hangs on a selected one; the others stay. */
  lemma SidesOf(parent: Order, selected: seq<Item>, childId: nat, it: Item)
    ensures it in ChildOrder(parent, selected, childId).items
       <==> it in parent.items && exists r :: r in selected && (r.id == it.id || (it.parent != 0 && r.id == it.parent))
    ensures it in ParentAfter(parent, selected).items
       <==> it in parent.items && !exists r :: r in selected && (r.id == it.id || (it.parent != 0 && r.id == it.parent))
  {
    GoingAre(parent.items, Ids(selected), it);
    forall id ensures id in Ids(selected) <==> exists r :: r in selected && r.id == id {
      if r :| r in selected && r.id == id { var i :| 0 <= i < |selected| && selected[i] == r; }
      if id in Ids(selected) { var i :| 0 <= i < |selected| && selected[i].id == id; assert selected[i] in selected; }
    }
  }

  /** A fold puts the child's rows behind the order's and adds what was paid for it, or else what its rows come to. */
  lemma FoldAdds(parent: Order, child: Order)
    requires child.items != []
    ensures var p := FoldedBack(parent, child);
      var paid := if child.pay > 0 then child.pay else ItemAmounts(child.items);
      && p == parent.(items := parent.items + child.items, pay := p.pay, total := p.pay)
      && (paid >= 0 && parent.pay + paid >= 0 ==> p.pay == parent.pay + paid)
  {
    RowsPayIs(child.items);
    RoundWholeCents(parent.pay + ChildPay(child));
  }

  /** Which orders take part: open, with nothing shipped, allocated or on order. */
  lemma FreeIs(o: Order)
    ensures Free(o)
       <==> o.status !in {Completed, Closed} && o.head.shipStatus !in {Shipped, PartialShipped}
            && o.head.allocType == Unallocated && o.head.poNo == "" && o.head.selfNo == ""
  {
  }

  // ---- rows are only moved ----

  lemma {:induction false} GoingOrStaying(items: seq<Item>, chosen: set<nat>)
    ensures multiset(Staying(items, chosen)) + multiset(Going(items, chosen)) == multiset(items)
  {
    if items != [] {
      var n := |items| - 1;
      GoingOrStaying(items[..n], chosen);
      assert multiset(items) == multiset(items[..n]) + multiset{items[n]} by {
        assert items == items[..n] + [items[n]];
      }
      if Goes(chosen, items[n]) {
        assert Staying(items, chosen) == Staying(items[..n], chosen);
      } else {
        assert Going(items, chosen) == Going(items[..n], chosen);
      }
    }
  }

  lemma {:induction false} GoingAre(items: seq<Item>, chosen: set<nat>, it: Item)
    ensures it in Going(items, chosen) <==> it in items && Goes(chosen, it)
    ensures it in Staying(items, chosen) <==> it in items && !Goes(chosen, it)
  {
    if items != [] {
      var n := |items| - 1;
      GoingAre(items[..n], chosen, it);
      assert it in items <==> it in items[..n] || it == items[n] by {
        assert items == items[..n] + [items[n]];
      }
    }
  }

  ghost predicate Selection(items: seq<Item>, selected: seq<Item>) {
    && (forall i :: 0 <= i < |selected| ==> selected[i] in items && FulfillableRoot(selected[i]))
    && (forall i, j :: 0 <= i < j < |selected| ==> selected[i].id != selected[j].id)
  }

  /** Split rows hang on roots. */
  ghost predicate ParentsAreRoots(items: seq<Item>) {
    forall it :: it in items && it.parent != 0 ==> exists p :: p in items && p.id == it.parent && p.parent == 0
  }

  /** Whatever is selected, a split row stays with the row it was split from, on either side. */
  lemma SplitRowsFollowTheirRoot(parent: Order, selected: seq<Item>, childId: nat)
    requires DistinctIds(parent.items) && ParentsAreRoots(parent.items) && Selection(parent.items, selected)
    ensures ParentsAreRoots(ParentAfter(parent, selected).items)
      && ParentsAreRoots(ChildOrder(parent, selected, childId).items)
  {
    var chosen := Ids(selected);
    forall it | it in parent.items && it.parent != 0 ensures SameSide(parent.items, chosen, it) {
      RootGoesAlong(parent.items, selected, it);
    }
    forall it | it in Staying(parent.items, chosen) && it.parent != 0
      ensures exists p :: p in Staying(parent.items, chosen) && p.id == it.parent && p.parent == 0
    {
      GoingAre(parent.items, chosen, it);
      var p :| p in parent.items && p.id == it.parent && p.parent == 0 && (Goes(chosen, p) <==> Goes(chosen, it));
      GoingAre(parent.items, chosen, p);
    }
    forall it | it in Going(parent.items, chosen) && it.parent != 0
      ensures exists p :: p in Going(parent.items, chosen) && p.id == it.parent && p.parent == 0
    {
      GoingAre(parent.items, chosen, it);
      var p :| p in parent.items && p.id == it.parent && p.parent == 0 && (Goes(chosen, p) <==> Goes(chosen, it));
      GoingAre(parent.items, chosen, p);
    }
  }

  ghost predicate SameSide(items: seq<Item>, chosen: set<nat>, it: Item) {
    exists p :: p in items && p.id == it.parent && p.parent == 0 && (Goes(chosen, p) <==> Goes(chosen, it))
  }

  lemma RootGoesAlong(items: seq<Item>, selected: seq<Item>, it: Item)
    requires DistinctIds(items) && ParentsAreRoots(items) && Selection(items, selected)
    requires it in items && it.parent != 0
    ensures SameSide(items, Ids(selected), it)
  {
    var p :| p in items && p.id == it.parent && p.parent == 0;
    if it.id in Ids(selected) {
      var k :| 0 <= k < |selected| && selected[k].id == it.id;
      SameId(items, it, selected[k]);
      assert false;
    }
  }

  lemma SameId(items: seq<Item>, a: Item, b: Item)
    requires DistinctIds(items) && a in items && b in items && a.id == b.id
    ensures a == b
  {
    var i :| 0 <= i < |items| && items[i] == a;
    var j :| 0 <= j < |items| && items[j] == b;
  }

  // ---- the money ----

  /** The amounts of the rows that go are those of the selected rows: split rows carry none. */
  lemma {:induction false} SelectedPay(parent: Order, selected: seq<Item>)
    requires DistinctIds(parent.items) && ParentsAreRoots(parent.items) && Selection(parent.items, selected)
    requires forall it :: it in parent.items && it.parent != 0 ==> IsSplitChild(it)
    ensures ItemAmounts(Going(parent.items, Ids(selected))) == ItemAmounts(selected)
  {
    AmountsOfIds(parent.items, Ids(selected));
    SelectionAmounts(parent.items, selected);
  }

  function Amount(it: Item): int {
    if it.split != NoSplit then 0 else if it.total > 0 then it.total else it.price * it.quantity
  }

  /** The amounts of the rows with these keys. */
  function AmountsIn(items: seq<Item>, chosen: set<nat>): int {
    if items == [] then 0
    else
      var it := items[|items| - 1];
      AmountsIn(items[..|items| - 1], chosen) + if it.id in chosen then Amount(it) else 0
  }

  lemma {:induction false} ItemAmountsStep(items: seq<Item>, it: Item)
    ensures ItemAmounts(items + [it]) == ItemAmounts(items) + Amount(it)
  {
    assert (items + [it])[..|items|] == items;
  }

  lemma {:induction false} AmountsOfIds(items: seq<Item>, chosen: set<nat>)
    requires forall i :: 0 <= i < |items| && items[i].parent != 0 ==> IsSplitChild(items[i])
    ensures ItemAmounts(Going(items, chosen)) == AmountsIn(items, chosen)
  {
    if items != [] {
      var n := |items| - 1;
      AmountsOfIds(items[..n], chosen);
      if Goes(chosen, items[n]) {
        ItemAmountsStep(Going(items[..n], chosen), items[n]);
      } else {
        assert Going(items, chosen) == Going(items[..n], chosen);
      }
    }
  }

  /** Adding one key adds the amount of its row. */
  lemma {:induction false} OneMoreKey(items: seq<Item>, chosen: set<nat>, i: nat)
    requires DistinctIds(items) && i < |items| && items[i].id !in chosen
    ensures AmountsIn(items, chosen + {items[i].id}) == AmountsIn(items, chosen) + Amount(items[i])
  {
    var n := |items| - 1;
    assert forall j :: 0 <= j < n ==> items[..n][j] == items[j];
    if i < n {
      OneMoreKey(items[..n], chosen, i);
    } else {
      SameAmounts(items[..n], chosen, items[n].id);
    }
  }

  lemma {:induction false} SameAmounts(items: seq<Item>, chosen: set<nat>, id: nat)
    requires forall i :: 0 <= i < |items| ==> items[i].id != id
    ensures AmountsIn(items, chosen + {id}) == AmountsIn(items, chosen)
  {
    if items != [] { SameAmounts(items[..|items| - 1], chosen, id); }
  }

  lemma {:induction false} NoAmounts(items: seq<Item>)
    ensures AmountsIn(items, {}) == 0
  {
    if items != [] { NoAmounts(items[..|items| - 1]); }
  }

  lemma {:induction false} SelectionAmounts(items: seq<Item>, selected: seq<Item>)
    requires DistinctIds(items) && Selection(items, selected)
    ensures AmountsIn(items, Ids(selected)) == ItemAmounts(selected)
  {
    if selected == [] {
      assert Ids(selected) == {};
      NoAmounts(items);
    } else {
      var n := |selected| - 1;
      SelectionAmounts(items, selected[..n]);
      var i :| 0 <= i < |items| && items[i] == selected[n];
      IdsStep(selected);
      OneMoreKey(items, Ids(selected[..n]), i);
    }
  }

  lemma IdsStep(rows: seq<Item>)
    requires rows != []
    ensures Ids(rows) == Ids(rows[..|rows| - 1]) + {rows[|rows| - 1].id}
  {
    var n := |rows| - 1;
    forall id | id in Ids(rows) ensures id in Ids(rows[..n]) || id == rows[n].id {
      var i :| 0 <= i < |rows| && rows[i].id == id;
      if i < n { assert rows[..n][i].id == id; }
    }
    forall id | id in Ids(rows[..n]) ensures id in Ids(rows) {
      var i :| 0 <= i < n && rows[..n][i].id == id;
      assert rows[i].id == id;
    }
  }

  /** Split off and fold back: every row is back, and what was paid is back exactly when it was not
      negative and covered the selected rows; in every other case the order ends up with more than before. */
  lemma SplitThenFold(parent: Order, selected: seq<Item>, childId: nat)
    requires Free(parent) && selected != [] && Selection(parent.items, selected)
    requires DistinctIds(parent.items) && ParentsAreRoots(parent.items)
    requires forall it :: it in parent.items && it.parent != 0 ==> IsSplitChild(it)
    ensures var child := ChildOrder(parent, selected, childId);
      var back := FoldedBack(ParentAfter(parent, selected), child);
      && Free(child) && Free(ParentAfter(parent, selected)) && child.items != []
      && multiset(back.items) == multiset(parent.items)
      && back == parent.(items := back.items, pay := back.pay, total := back.pay)
      && (back.pay == parent.pay <==> 0 <= parent.pay && RowsPay(selected) <= parent.pay)
      && (back.pay != parent.pay ==> back.pay > parent.pay)
  {
    var child := ChildOrder(parent, selected, childId);
    GoingOrStaying(parent.items, Ids(selected));
    GoingAre(parent.items, Ids(selected), selected[0]);
    assert selected[0].id in Ids(selected);
    SelectedPay(parent, selected);
    PayAfterFold(parent, selected);
  }

  lemma PayAfterFold(parent: Order, selected: seq<Item>)
    ensures var c := RowsPay(selected); var pay := RoundMoney(RemainingPay(parent, selected) + c, 1);
      if 0 <= parent.pay && c <= parent.pay then pay == parent.pay else pay > parent.pay
  {
    var c := RowsPay(selected);
    RoundWholeCents(parent.pay - c);
    RoundWholeCents(RemainingPay(parent, selected) + c);
  }

  const TEN_CENT_ROW :=
    Item(1, 1, 0, "", Goods("", "", "", "", ""), 1, 10, 10, false, 0, NoSplit, 0, 0, NO_FULFILMENT)
  const UNDERPAID :=
    Order(1, Manual, "T", "S", 0, WaitSend, false, false, false, PendingAlloc, AGENT_SELF,
          NO_FULFILMENT.(shipStatus := WaitShip), None, 5, 5, [TEN_CENT_ROW], [])

  /** It does happen: five cents paid for a row of ten, split off and folded back, and ten are paid. */
  lemma UnderpaidOrderGrows()
    ensures var back := FoldedBack(ParentAfter(UNDERPAID, [TEN_CENT_ROW]), ChildOrder(UNDERPAID, [TEN_CENT_ROW], 2));
      UNDERPAID.pay == 5 && back.pay == 10
  {
    var o, row := UNDERPAID, TEN_CENT_ROW;
    assert [row][..0] == [] && ItemAmounts([row]) == 10;
    assert FulfillableRows([row]) == [row];
    assert row.id in Ids([row]) by { assert [row][0].id == row.id; }
    assert Going([row], Ids([row])) == [row];
    assert RowsPay([row]) == 10 && RemainingPay(o, [row]) == 0;
  }

  // ---- folding a family ----

  ghost predicate SplitOffFrom(orders: map<nat, Order>, parentId: nat, ids: seq<nat>) {
    && parentId in orders && parentId != 0 && parentId !in ids
    && (forall i :: 0 <= i < |ids| ==> ids[i] in orders && orders[ids[i]].splitFrom == parentId)
    && (forall i, j :: 0 <= i < j < |ids| ==> ids[i] != ids[j])
  }

  /** The rows of the free ones among the orders. */
  function FreeRows(orders: map<nat, Order>, ids: seq<nat>): multiset<Item> {
    if ids == [] then multiset{}
    else
      var id := ids[|ids| - 1];
      FreeRows(orders, ids[..|ids| - 1])
      + if id in orders && Free(orders[id]) then multiset(orders[id].items) else multiset{}
  }

  /** Where an order is after the fold. */
  predicate FoldedAt(before: map<nat, Order>, after: map<nat, Order>, parentId: nat, ids: seq<nat>, id: nat) {
    && (id in after
        <==> id in before && !(id in ids && Free(before[id]) && parentId in before && Free(before[parentId])))
    && (id in after && id != parentId ==> after[id] == before[id])
  }

  /** Every free child of a free order is folded back, and every other order stays as it is; while the
      order itself is not free, all of them stay. */
  lemma {:induction false} OnlyFreeChildrenGo(orders: map<nat, Order>, parentId: nat, ids: seq<nat>, id: nat)
    requires SplitOffFrom(orders, parentId, ids)
    ensures var after := FoldChildren(orders, ids);
      && FoldedAt(orders, after, parentId, ids, id)
      && parentId in after && (Free(after[parentId]) <==> Free(orders[parentId]))
  {
    if ids != [] {
      var n := |ids| - 1;
      PrefixOf(orders, parentId, ids);
      OnlyFreeChildrenGo(orders, parentId, ids[..n], id);
      OnlyFreeChildrenGo(orders, parentId, ids[..n], ids[n]);
      FoldOne(FoldChildren(orders, ids[..n]), parentId, ids[n]);
      assert id in ids <==> id in ids[..n] || id == ids[n] by {
        assert ids == ids[..n] + [ids[n]];
      }
    }
  }

  lemma PrefixOf(orders: map<nat, Order>, parentId: nat, ids: seq<nat>)
    requires ids != [] && SplitOffFrom(orders, parentId, ids)
    ensures SplitOffFrom(orders, parentId, ids[..|ids| - 1]) && ids[|ids| - 1] !in ids[..|ids| - 1]
    ensures ids[|ids| - 1] != parentId
  {
    assert ids[|ids| - 1] in ids;
  }

  /** One child: folded back if it is free, left alone if it is not. */
  lemma FoldOne(orders: map<nat, Order>, parentId: nat, childId: nat)
    requires parentId in orders && parentId != 0
    requires childId in orders && childId != parentId && orders[childId].splitFrom == parentId
    ensures FoldChild(orders, childId)
         == if Free(orders[childId]) && Free(orders[parentId]) then
              (orders - {childId})[parentId := FoldedBack(orders[parentId], orders[childId])]
            else orders
    ensures Free(FoldedBack(orders[parentId], orders[childId])) <==> Free(orders[parentId])
    ensures multiset(FoldedBack(orders[parentId], orders[childId]).items)
         == multiset(orders[parentId].items) + multiset(orders[childId].items)
  {
  }

  /** The rows of a free order are then its own and those of its free children. */
  lemma {:induction false} RowsComeBack(orders: map<nat, Order>, parentId: nat, ids: seq<nat>)
    requires SplitOffFrom(orders, parentId, ids) && Free(orders[parentId])
    ensures parentId in FoldChildren(orders, ids)
    ensures multiset(FoldChildren(orders, ids)[parentId].items)
         == multiset(orders[parentId].items) + FreeRows(orders, ids)
  {
    if ids != [] {
      var n := |ids| - 1;
      PrefixOf(orders, parentId, ids);
      RowsComeBack(orders, parentId, ids[..n]);
      OnlyFreeChildrenGo(orders, parentId, ids[..n], ids[n]);
      FoldOne(FoldChildren(orders, ids[..n]), parentId, ids[n]);
    }
  }

  // ---- the loops ----

  method CollectMoveItemIDs(items: seq<Item>, selected: seq<Item>) returns (ids: set<nat>)
    ensures forall it :: it in items && Goes(Ids(selected), it) ==> it.id in ids
    ensures DistinctIds(items) && Selection(items, selected) ==>
      forall it :: it in items && it.id in ids ==> Goes(Ids(selected), it)
  {
    ids := Ids(selected);
    for i := 0 to |items|
      invariant Ids(selected) <= ids
      invariant forall j :: 0 <= j < i && Goes(Ids(selected), items[j]) ==> items[j].id in ids
      invariant forall id :: id in ids ==>
        id in Ids(selected) || exists j :: 0 <= j < i && items[j].id == id && Goes(Ids(selected), items[j])
    {
      if items[i].parent == 0 {
        continue;
      }
      if items[i].parent in Ids(selected) {
        ids := ids + {items[i].id};
      }
    }
    if DistinctIds(items) {
      forall it | it in items && it.id in ids ensures Goes(Ids(selected), it) {
        if it.id !in Ids(selected) {
          var j :| 0 <= j < |items| && items[j].id == it.id && Goes(Ids(selected), items[j]);
          SameId(items, it, items[j]);
        }
      }
    }
  }

  /** The rows with the given keys move, the others stay. */
  method MoveRows(items: seq<Item>, selected: seq<Item>) returns (going: seq<Item>, staying: seq<Item>)
    requires DistinctIds(items) && Selection(items, selected)
    ensures going == Going(items, Ids(selected)) && staying == Staying(items, Ids(selected))
  {
    var ids := CollectMoveItemIDs(items, selected);
    going, staying := [], [];
    for i := 0 to |items|
      invariant going == Going(items[..i], Ids(selected)) && staying == Staying(items[..i], Ids(selected))
    {
      assert items[..i + 1][..i] == items[..i];
      assert items[i] in items;
      if items[i].id in ids {
        going := going + [items[i]];
      } else {
        staying := staying + [items[i]];
      }
    }
    assert items[..|items|] == items;
  }

  method FulfillableRootItems(items: seq<Item>) returns (rows: seq<Item>)
    ensures rows == FulfillableRows(items)
  {
    rows := [];
    for i := 0 to |items|
      invariant rows == FulfillableRows(items[..i])
    {
      assert items[..i + 1][..i] == items[..i];
      if IsRoot(items[i]) && !Excluded(items[i]) {
        rows := rows + [items[i]];
      }
    }
    assert items[..|items|] == items;
  }

  /** What goes with the selected rows, and what stays. */
  method PayParts(parent: Order, selected: seq<Item>) returns (childPay: int, remaining: int)
    ensures childPay == RowsPay(selected) && remaining == RemainingPay(parent, selected)
  {
    var amounts := SiblingMergeLoops.SumItemAmounts(selected);
    childPay := RoundMoney(amounts, 1);
    remaining := RoundMoney(parent.pay - childPay, 1);
    if remaining < 0 {
      var rows := FulfillableRootItems(parent.items);
      var byRows := SiblingMergeLoops.SumItemAmounts(rows);
      remaining := RoundMoney(byRows, 1) - childPay;
      if remaining < 0 {
        remaining := 0;
      }
    }
  }

  /** The stored orders, and the next free key. */
  class SplitDesk {
    var orders: map<nat, Order>
    var nextId: nat

    constructor (orders: map<nat, Order>, nextId: nat)
      ensures this.orders == orders && this.nextId == nextId
    {
      this.orders, this.nextId := orders, nextId;
    }

    method SplitOrderForAllocate(parentId: nat, selected: seq<Item>) returns (childId: Option<nat>)
      requires parentId in orders && parentId < nextId
      requires DistinctIds(orders[parentId].items) && Selection(orders[parentId].items, selected)
      modifies this
      ensures childId == if selected == [] then None else Some(old(nextId))
      ensures var parent := old(orders)[parentId];
        orders == if selected == [] then old(orders)
                  else
                    var added := old(orders)[old(nextId) := ChildOrder(parent, selected, old(nextId))];
                    added[parentId := ParentAfter(parent, selected)]
    {
      if |selected| == 0 {
        return None;
      }
      var parent := orders[parentId];
      var childPay, remaining := PayParts(parent, selected);
      var going, staying := MoveRows(parent.items, selected);
      var child := Order(nextId, parent.channel, parent.tid, SplitSysTid(parent, nextId), parent.id,
                         parent.platformStatus, parent.blocked, false, false, PendingAlloc, 0,
                         NO_FULFILMENT.(shipStatus := WaitShip), None,
                         childPay, childPay, going, []);
      orders := orders[nextId := child];
      orders := orders[parentId := parent.(items := staying, pay := remaining, total := remaining)];
      childId := Some(nextId);
      nextId := nextId + 1;
    }

    method TryMergeSplitChildIntoParent(childId: nat) returns (merged: bool)
      requires childId in orders && orders[childId].splitFrom != childId
      modifies this`orders
      ensures orders == FoldChild(old(orders), childId)
      ensures merged <==> orders != old(orders)
    {
      var child := orders[childId];
      if child.splitFrom == 0 || !Free(child) || child.splitFrom !in orders {
        return false;
      }
      var parent := orders[child.splitFrom];
      if !Free(parent) {
        return false;
      }
      orders := orders - {childId};
      if |child.items| > 0 {
        var childPay := child.pay;
        if childPay <= 0 {
          var amounts := SiblingMergeLoops.SumItemAmounts(child.items);
          childPay := RoundMoney(amounts, 1);
        }
        var parentPay := RoundMoney(parent.pay + childPay, 1);
        parent := parent.(items := parent.items + child.items, pay := parentPay, total := parentPay);
        orders := orders[child.splitFrom := parent];
      }
      return true;
    }

    /** After a revoke: a split-off order is folded back itself; another one takes its free children back. */
    method MergeAllocSplitAfterRevoke(revokedId: nat, children: seq<nat>)
      requires revokedId in orders && orders[revokedId].splitFrom != revokedId
      requires orders[revokedId].splitFrom == 0 ==> SplitOffFrom(orders, revokedId, children)
      modifies this`orders
      ensures orders == if old(orders)[revokedId].splitFrom > 0 then FoldChild(old(orders), revokedId)
                        else FoldChildren(old(orders), children)
    {
      if orders[revokedId].splitFrom > 0 {
        var folded := TryMergeSplitChildIntoParent(revokedId);
        return;
      }
      ghost var before := orders;
      for i := 0 to |children|
        invariant orders == FoldChildren(before, children[..i])
      {
        assert children[..i + 1][..i] == children[..i];
        assert SplitOffFrom(before, revokedId, children[..i]) by {
          assert forall j :: 0 <= j < i ==> children[..i][j] == children[j];
        }
        assert children[i] in children && children[i] !in children[..i];
        OnlyFreeChildrenGo(before, revokedId, children[..i], children[i]);
        if !Free(orders[children[i]]) {
          continue;
        }
        var merged := TryMergeSplitChildIntoParent(children[i]);
      }
      assert children[..|children|] == children;
    }
  }
}
