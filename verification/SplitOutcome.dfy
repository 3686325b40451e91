/** What a split sync leaves of every row, told on the request's lines and on the
    columns: which children go, what becomes of those that are named, which are
    new, and which requests are refused. */
module SplitOutcome {
  import opened OrderModel
  import opened Ledger
  import opened SplitSync

  // ---- which requests are refused ----

  predicate FaultyLine(items: seq<Item>, mode: SplitKind, l: SplitLine) {
    || l.name == "" || l.qty <= 0 || l.planLine == 0
    || (mode == Partial && (l.parent == 0 || !exists it :: it in items && it.id == l.parent && IsRoot(it)))
  }

  /** A request is refused exactly for a missing mode or a faulty line. */
  lemma SplitRefused(o: Order, req: SplitRequest, nextId: nat)
    requires DistinctIds(o.items)
    ensures SyncSplit(o, req, nextId).Err?
       <==> (req.lines != [] && req.mode == NoSplit) || exists l :: l in req.lines && FaultyLine(o.items, req.mode, l)
  {
    NoLineError(o.items, req.mode, req.lines);
    forall l ensures LineError(o.items, req.mode, l).Some? <==> FaultyLine(o.items, req.mode, l) {
      RootFound(o.items, l.parent);
    }
  }

  lemma RootFound(items: seq<Item>, id: nat)
    requires DistinctIds(items)
    ensures FindRoot(items, id).Some? <==> exists it :: it in items && it.id == id && IsRoot(it)
  {
    var at := FindItem(items, id);
    if at.Some? { assert items[at.value] in items; }
    if it :| it in items && it.id == id && IsRoot(it) {
      var i :| 0 <= i < |items| && items[i] == it;
      FindItemAt(items, i);
    }
  }

  // ---- which rows go ----

  predicate PlanNamed(lines: seq<SplitLine>, it: Item) {
    it.planLine != 0 && exists l :: l in lines && l.planLine == it.planLine
  }

  /** The request or one of its lines names the parent. */
  predicate ParentNamed(req: SplitRequest, parent: nat) {
    parent != 0 && (req.parent == parent || exists l :: l in req.lines && l.parent == parent)
  }

  /** The request is about some parents only: it is a partial one and names at least one. */
  predicate ForSomeParents(req: SplitRequest) {
    req.mode == Partial && (req.parent != 0 || exists l :: l in req.lines && l.parent != 0)
  }

  predicate HasShipped(o: Order, it: Item) {
    exists sh, r :: sh in o.shipments && r in sh.rows && r.itemId == it.id
  }

  ghost predicate IsThere(items: seq<Item>, id: nat) {
    exists it :: it in items && it.id == id
  }

  lemma {:induction false} NamedIs(lines: seq<SplitLine>, it: Item)
    ensures it.planLine != 0 && Named(lines, it.planLine) <==> PlanNamed(lines, it)
  {
    NamedLine(lines, it.planLine);
  }

  lemma ShippedIs(o: Order, it: Item)
    requires it.id != 0
    ensures HasShipRow(o.shipments, it.id) <==> HasShipped(o, it)
  {
    if sh, r :| sh in o.shipments && r in sh.rows && r.itemId == it.id {
      var s :| 0 <= s < |o.shipments| && o.shipments[s] == sh;
      var k :| 0 <= k < |sh.rows| && sh.rows[k] == r;
      assert o.shipments[s].rows[k].itemId == it.id;
    }
    if HasShipRow(o.shipments, it.id) {
      var s, k :| 0 <= s < |o.shipments| && 0 <= k < |o.shipments[s].rows| && o.shipments[s].rows[k].itemId == it.id;
      assert o.shipments[s] in o.shipments && o.shipments[s].rows[k] in o.shipments[s].rows;
    }
  }

  lemma InScopeIs(req: SplitRequest, it: Item)
    ensures InScope(req, it) <==> !ForSomeParents(req) || ParentNamed(req, it.parent)
  {
    if l :| l in req.lines && l.parent != 0 {
      var k :| 0 <= k < |req.lines| && req.lines[k] == l;
      assert req.lines[k].parent != 0;
    }
    if l :| l in req.lines && l.parent == it.parent {
      var k :| 0 <= k < |req.lines| && req.lines[k] == l;
      assert req.lines[k].parent == it.parent;
    }
    if k :| 0 <= k < |req.lines| && req.lines[k].parent != 0 { assert req.lines[k] in req.lines; }
    if k :| 0 <= k < |req.lines| && req.lines[k].parent == it.parent { assert req.lines[k] in req.lines; }
  }

  /** A row of the order goes exactly if it is a child that has not shipped and is not in the plan, and the
      sync is not about other parents than its own. */
  lemma RowsThatGo(o: Order, req: SplitRequest, nextId: nat, it: Item)
    requires DistinctIds(o.items) && FreshId(o, nextId) && SyncSplit(o, req, nextId).Ok? && it in o.items
    ensures !IsThere(SyncSplit(o, req, nextId).value.items, it.id)
       <==> it.split != NoSplit && !HasShipped(o, it) && !PlanNamed(req.lines, it)
            && (!ForSomeParents(req) || ParentNamed(req, it.parent))
  {
    FaultlessLines(o, req);
    NamedIs(req.lines, it);
    ShippedIs(o, it);
    InScopeIs(req, it);
    DroppedIsGone(o, req, nextId, it);
  }

  lemma DroppedIsGone(o: Order, req: SplitRequest, nextId: nat, it: Item)
    requires DistinctIds(o.items) && FreshId(o, nextId) && PlansGiven(req.mode, req.lines) && it in o.items
    ensures IsThere(Applied(o, req, req.lines, nextId), it.id) <==> !Dropped(o, req, it)
  {
    if !Dropped(o, req, it) { UndroppedIsThere(o, req, nextId, it); }
    if IsThere(Applied(o, req, req.lines, nextId), it.id) {
      var i :| 0 <= i < |Applied(o, req, req.lines, nextId)| && Applied(o, req, req.lines, nextId)[i].id == it.id;
      RowKey(o, req, nextId, i);
      if i < |Kept(o, req, o.items)| { OneKey(o.items, Kept(o, req, o.items)[i], it); }
    }
  }

  lemma UndroppedIsThere(o: Order, req: SplitRequest, nextId: nat, it: Item)
    requires PlansGiven(req.mode, req.lines) && it in o.items && !Dropped(o, req, it)
    ensures IsThere(Applied(o, req, req.lines, nextId), it.id)
  {
    var at := KeptAt(o, req, it);
    RowKey(o, req, nextId, at);
    assert Applied(o, req, req.lines, nextId)[at] in Applied(o, req, req.lines, nextId);
  }

  /** The key of a row of the result: its kept row's, or a fresh one. */
  lemma {:induction false} RowKey(o: Order, req: SplitRequest, nextId: nat, i: nat)
    requires PlansGiven(req.mode, req.lines) && i < |Applied(o, req, req.lines, nextId)|
    ensures var kept, id := Kept(o, req, o.items), Applied(o, req, req.lines, nextId)[i].id;
      if i < |kept| then kept[i] in o.items && !Dropped(o, req, kept[i]) && id == kept[i].id else id >= nextId
  {
    AppliedRow(o, req, req.lines, nextId, i);
    var kept := Kept(o, req, o.items);
    if i < |kept| {
      PlannedKeeps(o, req.mode, req.lines, kept[i]);
    } else {
      NewChildFollows(o, req.mode, req.lines, nextId, i - |kept|);
    }
  }

  lemma OneKey(items: seq<Item>, a: Item, b: Item)
    requires DistinctIds(items) && a in items && b in items && a.id == b.id
    ensures a == b
  {
    var i, j :| 0 <= i < |items| && items[i] == a && 0 <= j < |items| && items[j] == b;
  }

  /** A row that is no child, or whose plan line is not named, is as it was if it is there at all. */
  lemma UnnamedRowsStay(o: Order, req: SplitRequest, nextId: nat, it: Item)
    requires DistinctIds(o.items) && FreshId(o, nextId) && SyncSplit(o, req, nextId).Ok? && it in o.items
    requires it.split == NoSplit || !PlanNamed(req.lines, it)
    ensures var rows := SyncSplit(o, req, nextId).value.items; IsThere(rows, it.id) <==> it in rows
  {
    FaultlessLines(o, req);
    NamedIs(req.lines, it);
    DroppedIsGone(o, req, nextId, it);
    if !Dropped(o, req, it) { UndroppedStays(o, req, nextId, it); }
  }

  /** A partial sync leaves children of parents it does not name exactly as they are, unless their plan line is
      named, and it leaves all rows that are no children. */
  lemma OutOfScopeUntouched(o: Order, req: SplitRequest, nextId: nat, it: Item)
    requires DistinctIds(o.items) && FreshId(o, nextId) && SyncSplit(o, req, nextId).Ok? && it in o.items
    requires it.split == NoSplit || !PlanNamed(req.lines, it)
    requires it.split != NoSplit ==> ForSomeParents(req) && !ParentNamed(req, it.parent)
    ensures it in SyncSplit(o, req, nextId).value.items
  {
    RowsThatGo(o, req, nextId, it);
    UnnamedRowsStay(o, req, nextId, it);
  }

  const TWO_ROOTS :=
    Order(1, Manual, "", "", 0, WaitSend, false, false, false, Allocated, AGENT_SELF, NO_FULFILMENT, None, 0, 0,
          [BlankChild(1, 1).(quantity := 1), BlankChild(2, 2).(quantity := 1),
           BlankChild(3, 3).(quantity := 1, parent := 2, split := Partial, planLine := 21)], [])

  /** For example: a partial sync for the first of two roots leaves the second one's child alone. */
  lemma OtherParentsChildStays()
    ensures var r := SyncSplit(TWO_ROOTS, SplitRequest(Partial, 1, [SplitLine(1, "x", 1, 11)]), 4);
      r.Ok? && TWO_ROOTS.items[2] in r.value.items
  {
    var o, req := TWO_ROOTS, SplitRequest(Partial, 1, [SplitLine(1, "x", 1, 11)]);
    assert o.items[0] in o.items && o.items[2] in o.items;
    assert req.lines[0] in req.lines;
    SplitRefused(o, req, 4);
    RowsThatGo(o, req, 4, o.items[2]);
    UnnamedRowsStay(o, req, 4, o.items[2]);
  }

  // ---- what becomes of the children in the plan ----

  /** The line that counts for a plan line: the last one. */
  predicate LastFor(lines: seq<SplitLine>, k: nat, p: nat) {
    k < |lines| && lines[k].planLine == p && forall j :: k < j < |lines| ==> lines[j].planLine != p
  }

  /** The child a plan line stands for: the last one with its number. */
  predicate LastChild(items: seq<Item>, i: nat, p: nat) {
    i < |items| && items[i].split != NoSplit && items[i].planLine == p
    && forall j :: i < j < |items| && items[j].split != NoSplit ==> items[j].planLine != p
  }

  lemma {:induction false} LastLineIs(lines: seq<SplitLine>, k: nat, p: nat)
    requires LastFor(lines, k, p)
    ensures Named(lines, p) && LastLine(lines, p) == lines[k]
  {
    var n := |lines| - 1;
    if k < n {
      assert forall j :: k < j < n ==> lines[..n][j] == lines[j];
      LastLineIs(lines[..n], k, p);
    }
  }

  lemma {:induction false} LastChildIs(items: seq<Item>, i: nat, p: nat)
    requires LastChild(items, i, p) && p != 0
    ensures Target(items, p) == Some(items[i].id)
  {
    var n := |items| - 1;
    if i < n {
      assert forall j :: i < j < n ==> items[..n][j] == items[j];
      LastChildIs(items[..n], i, p);
    }
  }

  /** The goods columns a child takes from its parent row. */
  predicate LikeParent(x: Item, parent: Item) {
    && x.skuId == parent.skuId && x.skuCode == parent.skuCode
    && x.goods.itemId == parent.goods.itemId && x.goods.skuId == parent.goods.skuId
  }

  /** What has not shipped follows its line in full: name, quantity, parent and kind, and the parent's goods;
      the rest is as it was. */
  ghost predicate FollowsPlan(items: seq<Item>, mode: SplitKind, was: Item, x: Item, l: SplitLine) {
    && x.goods.name == l.name && x.goods.specs == l.name && x.quantity == l.qty
    && x.split == mode && x.planLine == l.planLine && x.parent == (if mode == Partial then l.parent else 0)
    && x.id == was.id && x.lineNo == was.lineNo && x.price == was.price && x.total == was.total
    && x.lineClosed == was.lineClosed && x.packageId == was.packageId && x.ful == was.ful
    && x.goods.oid == was.goods.oid
    && (mode == Partial ==> exists parent :: parent in items && parent.id == l.parent && LikeParent(x, parent))
    && (mode != Partial ==> LikeParent(x, was))
  }

  /** What has shipped only takes its name and quantity, and a smaller quantity only down to what has shipped. */
  predicate KeepsShipped(o: Order, was: Item, x: Item, l: SplitLine) {
    && x == was.(goods := was.goods.(name := l.name, specs := l.name), quantity := x.quantity)
    && (l.qty >= was.quantity ==> x.quantity == l.qty)
    && (l.qty < was.quantity ==>
      (x.quantity == l.qty || x.quantity == 1 || x.quantity == ShippedRows(o.shipments, was.id))
      && x.quantity >= l.qty && x.quantity >= 1 && x.quantity >= ShippedRows(o.shipments, was.id))
  }

  lemma RebuiltFollows(items: seq<Item>, mode: SplitKind, it: Item, l: SplitLine)
    requires DistinctIds(items) && LineError(items, mode, l).None?
    ensures FollowsPlan(items, mode, it, Rebuilt(items, mode, it, l), l)
  {
    if mode == Partial {
      var at := FindRoot(items, l.parent).value;
      assert items[at] in items && items[at].id == l.parent;
    }
  }

  lemma RenamedKeeps(o: Order, it: Item, l: SplitLine)
    requires HasShipRow(o.shipments, it.id) && l.qty > 0
    ensures KeepsShipped(o, it, Renamed(o, it, l), l)
  {
    ShipRowIsNotLegacy(o, it.id);
  }

  /** The child a named plan line stands for is there afterwards, as its last line says. */
  lemma PlannedChild(o: Order, req: SplitRequest, nextId: nat, i: nat, k: nat) returns (x: Item)
    requires DistinctIds(o.items) && SyncSplit(o, req, nextId).Ok?
    requires k < |req.lines| && LastFor(req.lines, k, req.lines[k].planLine)
    requires LastChild(o.items, i, req.lines[k].planLine)
    ensures x in SyncSplit(o, req, nextId).value.items && x.id == o.items[i].id
    ensures if HasShipped(o, o.items[i]) then KeepsShipped(o, o.items[i], x, req.lines[k])
            else FollowsPlan(o.items, req.mode, o.items[i], x, req.lines[k])
  {
    var it, l := o.items[i], req.lines[k];
    FaultlessLines(o, req);
    assert l in req.lines && it in o.items;
    LastLineIs(req.lines, k, l.planLine);
    LastChildIs(o.items, i, l.planLine);
    ShippedIs(o, it);
    x := Planned(o, req.mode, req.lines, it);
    if HasShipRow(o.shipments, it.id) { RenamedKeeps(o, it, l); } else { RebuiltFollows(o.items, req.mode, it, l); }
    var at := KeptAt(o, req, it);
    AppliedRow(o, req, req.lines, nextId, at);
    assert Applied(o, req, req.lines, nextId)[at] == x;
  }

  /** A named plan line without a child gets a new one, as its last line says, after all rows there are. */
  lemma NewPlannedChild(o: Order, req: SplitRequest, nextId: nat, k: nat) returns (x: Item)
    requires DistinctIds(o.items) && SyncSplit(o, req, nextId).Ok?
    requires k < |req.lines| && LastFor(req.lines, k, req.lines[k].planLine)
    requires forall it :: it in o.items && it.split != NoSplit ==> it.planLine != req.lines[k].planLine
    ensures x in SyncSplit(o, req, nextId).value.items && x.id >= nextId
    ensures FollowsPlan(o.items, req.mode, BlankChild(x.id, x.lineNo), x, req.lines[k])
    ensures forall it :: it in o.items ==> x.lineNo > it.lineNo
  {
    var l := req.lines[k];
    FaultlessLines(o, req);
    LastLineIs(req.lines, k, l.planLine);
    assert l in req.lines;
    TargetIs(o.items, l.planLine);
    NewPlansAre(o.items, req.lines);
    var ps := NewPlans(o.items, req.lines);
    var j :| 0 <= j < |ps| && ps[j] == l.planLine;
    x := NewChild(o, req.mode, req.lines, nextId, j);
    NewChildAsPlanned(o, req, nextId, j, l);
    NewRowIn(o, req.mode, req.lines, Kept(o, req, o.items), nextId, j);
  }

  lemma NewChildAsPlanned(o: Order, req: SplitRequest, nextId: nat, j: nat, l: SplitLine)
    requires DistinctIds(o.items) && LineError(o.items, req.mode, l).None?
    requires j < |NewPlans(o.items, req.lines)| && LastLine(req.lines, NewPlans(o.items, req.lines)[j]) == l
    ensures var x := NewChild(o, req.mode, req.lines, nextId, j);
      && x.id == nextId + j && FollowsPlan(o.items, req.mode, BlankChild(x.id, x.lineNo), x, l)
      && forall it :: it in o.items ==> x.lineNo > it.lineNo
  {
    RebuiltFollows(o.items, req.mode, BlankChild(nextId + j, MaxLineNo(o.items) + 1 + j), l);
    MaxLineNoIs(o.items);
  }

  lemma {:induction false} NewRowIn(o: Order, mode: SplitKind, lines: seq<SplitLine>, kept: seq<Item>, nextId: nat,
                                    j: nat)
    requires j < |NewPlans(o.items, lines)|
    ensures NewChild(o, mode, lines, nextId, j) in AppliedTo(o, mode, lines, kept, nextId)
  {
    var rows := AppliedTo(o, mode, lines, kept, nextId);
    AppliedAt(o, mode, lines, kept, nextId, |kept| + j);
    assert rows[|kept| + j] in rows;
  }

  lemma {:induction false} MaxLineNoIs(items: seq<Item>)
    ensures forall it :: it in items ==> it.lineNo <= MaxLineNo(items)
  {
    if items != [] {
      var n := |items| - 1;
      MaxLineNoIs(items[..n]);
      assert items == items[..n] + [items[n]];
    }
  }
}
