/** Syncing the shipping centre's split plan into child rows: children that
    have shipped stay, the others are rebuilt from the requested lines. */
module SplitSync {
  import opened OrderModel
  import opened Ledger
  import opened Quantities

  datatype SplitLine = SplitLine(parent: nat, name: string, qty: int, planLine: nat)

  datatype SplitRequest = SplitRequest(mode: SplitKind, parent: nat, lines: seq<SplitLine>)

  datatype SplitError = ModeMissing | NoName | BadLineQty | NoPlanLine | NoParent | ForeignParent

  // ---- the request ----

  function FindRoot(items: seq<Item>, id: nat): Option<nat> {
    match FindItem(items, id)
    case None => None
    case Some(i) => if IsRoot(items[i]) then Some(i) else None
  }

  function LineError(items: seq<Item>, mode: SplitKind, line: SplitLine): Option<SplitError> {
    if line.name == "" then Some(NoName)
    else if line.qty <= 0 then Some(BadLineQty)
    else if line.planLine == 0 then Some(NoPlanLine)
    else if mode == Partial && line.parent == 0 then Some(NoParent)
    else if mode == Partial && FindRoot(items, line.parent).None? then Some(ForeignParent)
    else None
  }

  function FirstLineError(items: seq<Item>, mode: SplitKind, lines: seq<SplitLine>): Option<SplitError> {
    if lines == [] then None
    else
      var n := |lines| - 1;
      var before := FirstLineError(items, mode, lines[..n]);
      if before.Some? then before else LineError(items, mode, lines[n])
  }

  lemma {:induction false} NoLineError(items: seq<Item>, mode: SplitKind, lines: seq<SplitLine>)
    ensures FirstLineError(items, mode, lines).None? <==> forall l :: l in lines ==> LineError(items, mode, l).None?
  {
    if lines != [] {
      var n := |lines| - 1;
      NoLineError(items, mode, lines[..n]);
      assert lines == lines[..n] + [lines[n]];
    }
  }

  function RequestFault(o: Order, req: SplitRequest): Option<SplitError> {
    if req.lines != [] && req.mode == NoSplit then Some(ModeMissing) else FirstLineError(o.items, req.mode, req.lines)
  }

  predicate Named(lines: seq<SplitLine>, p: nat) {
    lines != [] && (lines[|lines| - 1].planLine == p || Named(lines[..|lines| - 1], p))
  }

  /** The last line for a plan line decides. */
  function LastLine(lines: seq<SplitLine>, p: nat): SplitLine {
    if lines == [] then SplitLine(0, "", 0, p)
    else if lines[|lines| - 1].planLine == p then lines[|lines| - 1]
    else LastLine(lines[..|lines| - 1], p)
  }

  lemma {:induction false} NamedLine(lines: seq<SplitLine>, p: nat)
    ensures Named(lines, p) <==> exists l :: l in lines && l.planLine == p
    ensures Named(lines, p) ==> LastLine(lines, p) in lines
    ensures LastLine(lines, p).planLine == p
  {
    if lines != [] {
      var n := |lines| - 1;
      NamedLine(lines[..n], p);
      assert lines == lines[..n] + [lines[n]];
    }
  }

  predicate InScope(req: SplitRequest, it: Item) {
    || req.mode != Partial
    || (req.parent == 0 && forall k :: 0 <= k < |req.lines| ==> req.lines[k].parent == 0)
    || (it.parent != 0
        && (it.parent == req.parent || exists k :: 0 <= k < |req.lines| && req.lines[k].parent == it.parent))
  }

  // ---- the children there are ----

  predicate HasShipRow(shipments: seq<Shipment>, id: nat) {
    id != 0 && exists s, r :: 0 <= s < |shipments| && 0 <= r < |shipments[s].rows| && shipments[s].rows[r].itemId == id
  }

  predicate IsPlanChild(it: Item, p: nat) {
    p != 0 && IsSplitChild(it) && it.planLine == p
  }

  /** The child a plan line stands for: the last one, if several carry it. */
  function Target(items: seq<Item>, p: nat): Option<nat> {
    if items == [] then None
    else
      var n := |items| - 1;
      if IsPlanChild(items[n], p) then Some(items[n].id) else Target(items[..n], p)
  }

  /** A child that has not shipped, lies in the request's scope and is not in the plan. */
  predicate Dropped(o: Order, req: SplitRequest, it: Item) {
    && IsSplitChild(it) && !HasShipRow(o.shipments, it.id) && InScope(req, it)
    && !(it.planLine != 0 && Named(req.lines, it.planLine))
  }

  function Kept(o: Order, req: SplitRequest, items: seq<Item>): seq<Item> {
    if items == [] then []
    else
      var n := |items| - 1;
      var before := Kept(o, req, items[..n]);
      if Dropped(o, req, items[n]) then before else before + [items[n]]
  }

  // ---- what a line does to its child ----

  /** An unshipped or new child takes everything from the line and its parent. */
  function Rebuilt(items: seq<Item>, mode: SplitKind, it: Item, line: SplitLine): Item {
    var parentId := if mode == Partial then line.parent else 0;
    var named := it.(goods := it.goods.(name := line.name, specs := line.name), quantity := line.qty,
                     parent := parentId, split := mode, planLine := line.planLine);
    match FindRoot(items, parentId)
    case None => named
    case Some(i) =>
      named.(skuId := items[i].skuId, skuCode := items[i].skuCode,
             goods := named.goods.(itemId := items[i].goods.itemId, skuId := items[i].goods.skuId))
  }

  /** A shipped child keeps its place; its quantity cannot fall below what has shipped. */
  function Clamped(o: Order, it: Item, qty: int): int {
    var least := if ShippedQty(o, it) < 1 then 1 else ShippedQty(o, it);
    if qty < it.quantity && qty < least then least else qty
  }

  function Renamed(o: Order, it: Item, line: SplitLine): Item {
    it.(goods := it.goods.(name := line.name, specs := line.name), quantity := Clamped(o, it, line.qty))
  }

  function Revised(o: Order, mode: SplitKind, it: Item, line: SplitLine): Item {
    if HasShipRow(o.shipments, it.id) then Renamed(o, it, line) else Rebuilt(o.items, mode, it, line)
  }

  /** An existing row after the lines have been applied. */
  function Planned(o: Order, mode: SplitKind, lines: seq<SplitLine>, it: Item): Item {
    if IsSplitChild(it) && it.planLine != 0 && Named(lines, it.planLine) && Target(o.items, it.planLine) == Some(it.id)
    then Revised(o, mode, it, LastLine(lines, it.planLine))
    else it
  }

  function BlankChild(id: nat, lineNo: int): Item {
    Item(id, lineNo, 0, "", Goods("", "", "", "", ""), 0, 0, 0, false, 0, NoSplit, 0, 0, NO_FULFILMENT)
  }

  /** The plan lines that need a new child, in the order they are first asked for. */
  function NewPlans(items: seq<Item>, lines: seq<SplitLine>): seq<nat> {
    if lines == [] then []
    else
      var n := |lines| - 1;
      var before := NewPlans(items, lines[..n]);
      var p := lines[n].planLine;
      if Target(items, p).Some? || p in before then before else before + [p]
  }

  lemma {:induction false} NewPlansAre(items: seq<Item>, lines: seq<SplitLine>)
    ensures forall p :: p in NewPlans(items, lines) <==> Named(lines, p) && Target(items, p).None?
    ensures forall i, j :: 0 <= i < j < |NewPlans(items, lines)| ==>
      NewPlans(items, lines)[i] != NewPlans(items, lines)[j]
  {
    if lines != [] {
      NewPlansAre(items, lines[..|lines| - 1]);
    }
  }

  function MaxLineNo(items: seq<Item>): int {
    if items == [] then 0
    else
      var before := MaxLineNo(items[..|items| - 1]);
      if items[|items| - 1].lineNo > before then items[|items| - 1].lineNo else before
  }

  function NewChild(o: Order, mode: SplitKind, lines: seq<SplitLine>, nextId: nat, k: nat): Item
    requires k < |NewPlans(o.items, lines)|
  {
    Rebuilt(o.items, mode, BlankChild(nextId + k, MaxLineNo(o.items) + 1 + k),
            LastLine(lines, NewPlans(o.items, lines)[k]))
  }

  function Created(o: Order, mode: SplitKind, lines: seq<SplitLine>, nextId: nat): (s: seq<Item>)
    ensures |s| == |NewPlans(o.items, lines)|
    ensures forall k :: 0 <= k < |s| ==> s[k] == NewChild(o, mode, lines, nextId, k)
  {
    seq(|NewPlans(o.items, lines)|,
        k requires 0 <= k < |NewPlans(o.items, lines)| => NewChild(o, mode, lines, nextId, k))
  }

  function PlannedRows(o: Order, mode: SplitKind, lines: seq<SplitLine>, rows: seq<Item>): (s: seq<Item>)
    ensures |s| == |rows|
    ensures forall i :: 0 <= i < |s| ==> s[i] == Planned(o, mode, lines, rows[i])
  {
    seq(|rows|, i requires 0 <= i < |rows| => Planned(o, mode, lines, rows[i]))
  }

  /** The lines applied to the kept rows, and the children they add. */
  function AppliedTo(o: Order, mode: SplitKind, lines: seq<SplitLine>, kept: seq<Item>, nextId: nat): (rows: seq<Item>)
    ensures |rows| == |kept| + |NewPlans(o.items, lines)|
  {
    PlannedRows(o, mode, lines, kept) + Created(o, mode, lines, nextId)
  }

  /** The rows after the lines have been applied to the kept ones. */
  function Applied(o: Order, req: SplitRequest, lines: seq<SplitLine>, nextId: nat): seq<Item> {
    AppliedTo(o, req.mode, lines, Kept(o, req, o.items), nextId)
  }

  function SyncSplit(o: Order, req: SplitRequest, nextId: nat): Result<Order, SplitError> {
    if RequestFault(o, req).Some? then Err(RequestFault(o, req).value)
    else Ok(o.(items := Applied(o, req, req.lines, nextId)))
  }

  lemma {:induction false} TargetIs(items: seq<Item>, p: nat)
    ensures Target(items, p).None? <==> forall it :: it in items ==> !IsPlanChild(it, p)
    ensures Target(items, p).Some? ==> exists it :: it in items && IsPlanChild(it, p) && Target(items, p) == Some(it.id)
  {
    if items != [] {
      var n := |items| - 1;
      TargetIs(items[..n], p);
      assert items == items[..n] + [items[n]];
    }
  }

  // ---- kept rows ----

  lemma {:induction false} KeptHas(o: Order, req: SplitRequest, items: seq<Item>, it: Item)
    ensures it in Kept(o, req, items) <==> it in items && !Dropped(o, req, it)
  {
    if items != [] {
      var n := |items| - 1;
      KeptHas(o, req, items[..n], it);
      assert it in items <==> it in items[..n] || it == items[n] by {
        assert items == items[..n] + [items[n]];
      }
    }
  }

  lemma {:induction false} KeptDistinct(o: Order, req: SplitRequest, items: seq<Item>)
    requires DistinctIds(items)
    ensures DistinctIds(Kept(o, req, items))
  {
    if items != [] {
      var n := |items| - 1;
      var before := Kept(o, req, items[..n]);
      KeptDistinct(o, req, items[..n]);
      forall i | 0 <= i < |before| ensures before[i].id != items[n].id {
        KeptHas(o, req, items[..n], before[i]);
        var j :| 0 <= j < n && items[..n][j] == before[i];
      }
    }
  }

  lemma {:induction false} KeptIs(o: Order, req: SplitRequest, items: seq<Item>)
    ensures forall it :: it in Kept(o, req, items) <==> it in items && !Dropped(o, req, it)
    ensures DistinctIds(items) ==> DistinctIds(Kept(o, req, items))
  {
    forall it ensures it in Kept(o, req, items) <==> it in items && !Dropped(o, req, it) {
      KeptHas(o, req, items, it);
    }
    if DistinctIds(items) { KeptDistinct(o, req, items); }
  }

  /** The part of a valid request that shapes the result. */
  ghost predicate PlansGiven(mode: SplitKind, lines: seq<SplitLine>) {
    && (lines != [] ==> mode != NoSplit)
    && (forall l :: l in lines ==> l.planLine != 0)
  }

  lemma PlannedKeeps(o: Order, mode: SplitKind, lines: seq<SplitLine>, it: Item)
    requires PlansGiven(mode, lines)
    ensures var p := Planned(o, mode, lines, it);
      && p.id == it.id && p.lineNo == it.lineNo && p.planLine == it.planLine && p.ful == it.ful
      && (IsSplitChild(p) <==> IsSplitChild(it))
      && (!IsSplitChild(it) ==> p == it)
  {
    NamedLine(lines, it.planLine);
  }

  lemma FaultlessLines(o: Order, req: SplitRequest)
    requires RequestFault(o, req).None?
    ensures forall l :: l in req.lines ==> LineError(o.items, req.mode, l).None? && l.planLine != 0 && l.qty > 0
    ensures PlansGiven(req.mode, req.lines)
  {
    NoLineError(o.items, req.mode, req.lines);
  }

  /** Where each row of the result comes from. */
  lemma {:induction false} AppliedRow(o: Order, req: SplitRequest, lines: seq<SplitLine>, nextId: nat, i: nat)
    requires i < |Applied(o, req, lines, nextId)|
    ensures var kept := Kept(o, req, o.items); var row := Applied(o, req, lines, nextId)[i];
      if i < |kept| then kept[i] in o.items && !Dropped(o, req, kept[i]) && row == Planned(o, req.mode, lines, kept[i])
      else i - |kept| < |NewPlans(o.items, lines)| && row == NewChild(o, req.mode, lines, nextId, i - |kept|)
  {
    if i < |Kept(o, req, o.items)| {
      KeptRow(o, req, i);
      AppliedKept(o, req, lines, nextId, i);
    } else {
      AppliedNew(o, req, lines, nextId, i);
    }
  }

  lemma {:induction false} AppliedKept(o: Order, req: SplitRequest, lines: seq<SplitLine>, nextId: nat, i: nat)
    requires i < |Kept(o, req, o.items)| && i < |Applied(o, req, lines, nextId)|
    ensures Applied(o, req, lines, nextId)[i] == Planned(o, req.mode, lines, Kept(o, req, o.items)[i])
  {
    AppliedAt(o, req.mode, lines, Kept(o, req, o.items), nextId, i);
  }

  lemma {:induction false} AppliedNew(o: Order, req: SplitRequest, lines: seq<SplitLine>, nextId: nat, i: nat)
    requires |Kept(o, req, o.items)| <= i < |Applied(o, req, lines, nextId)|
    ensures i - |Kept(o, req, o.items)| < |NewPlans(o.items, lines)|
    ensures Applied(o, req, lines, nextId)[i] == NewChild(o, req.mode, lines, nextId, i - |Kept(o, req, o.items)|)
  {
    AppliedAt(o, req.mode, lines, Kept(o, req, o.items), nextId, i);
  }

  lemma AppliedAt(o: Order, mode: SplitKind, lines: seq<SplitLine>, kept: seq<Item>, nextId: nat, i: nat)
    requires i < |AppliedTo(o, mode, lines, kept, nextId)|
    ensures AppliedTo(o, mode, lines, kept, nextId)[i]
         == if i < |kept| then Planned(o, mode, lines, kept[i])
            else NewChild(o, mode, lines, nextId, i - |kept|)
  {
  }

  lemma {:induction false} KeptRow(o: Order, req: SplitRequest, i: nat)
    requires i < |Kept(o, req, o.items)|
    ensures var it := Kept(o, req, o.items)[i]; it in o.items && !Dropped(o, req, it)
  {
    KeptHas(o, req, o.items, Kept(o, req, o.items)[i]);
  }

  ghost predicate FreshId(o: Order, nextId: nat) {
    nextId != 0 && forall it :: it in o.items ==> it.id < nextId
  }

  lemma {:induction false} AppliedDistinct(o: Order, req: SplitRequest, lines: seq<SplitLine>, nextId: nat)
    requires DistinctIds(o.items) && FreshId(o, nextId) && PlansGiven(req.mode, lines)
    ensures DistinctIds(Applied(o, req, lines, nextId))
    ensures forall it :: it in Applied(o, req, lines, nextId) ==> it.id < nextId + |NewPlans(o.items, lines)|
  {
    var rows := Applied(o, req, lines, nextId);
    var kept := Kept(o, req, o.items);
    KeptIs(o, req, o.items);
    forall i | 0 <= i < |rows|
      ensures i < |kept| ==> rows[i].id == kept[i].id && rows[i].id < nextId
      ensures i >= |kept| ==> rows[i].id == nextId + (i - |kept|)
    {
      AppliedRow(o, req, lines, nextId, i);
      if i < |kept| { PlannedKeeps(o, req.mode, lines, kept[i]); }
    }
  }

  // ---- shipped children and the ledger ----

  /** A child with shipment rows stays, with its identity, and its quantity covers what has shipped. */
  lemma ShippedChildStays(o: Order, req: SplitRequest, nextId: nat, it: Item)
    requires RequestFault(o, req).None?
    requires it in o.items && HasShipRow(o.shipments, it.id)
    ensures exists p :: (
      && p in Applied(o, req, req.lines, nextId)
      && p.id == it.id && p.parent == it.parent && p.split == it.split && p.planLine == it.planLine
      && (ShippedRows(o.shipments, it.id) <= it.quantity ==> ShippedRows(o.shipments, it.id) <= p.quantity))
  {
    var kept := Kept(o, req, o.items);
    KeptIs(o, req, o.items);
    var i :| 0 <= i < |kept| && kept[i] == it;
    AppliedRow(o, req, req.lines, nextId, i);
    var p := Applied(o, req, req.lines, nextId)[i];
    if p != it {
      var line := LastLine(req.lines, it.planLine);
      assert p == Renamed(o, it, line);
      ShipRowIsNotLegacy(o, it.id);
      if p.quantity < ShippedRows(o.shipments, it.id) {
        assert it.quantity <= line.qty;
      }
    }
  }

  lemma ShipRowIsNotLegacy(o: Order, id: nat)
    requires HasShipRow(o.shipments, id)
    ensures !LegacyShipped(o)
  {
    var s, r :| 0 <= s < |o.shipments| && 0 <= r < |o.shipments[s].rows| && o.shipments[s].rows[r].itemId == id;
    assert o.shipments[s].rows != [];
  }

  lemma RowHasShipRow(shipments: seq<Shipment>, s: nat, r: nat)
    requires s < |shipments| && r < |shipments[s].rows| && shipments[s].rows[r].itemId != 0
    ensures HasShipRow(shipments, shipments[s].rows[r].itemId)
  {
  }

  lemma {:induction false} ShippedHasShipRow(shipments: seq<Shipment>, id: nat)
    requires ShippedRows(shipments, id) > 0
    ensures HasShipRow(shipments, id)
  {
    var n := |shipments| - 1;
    if RowQty(shipments[n].rows, id) > 0 {
      var r := CountedRow(shipments[n].rows, id);
      RowHasShipRow(shipments, n, r);
    } else {
      ShippedHasShipRow(shipments[..n], id);
      var s, r :| 0 <= s < n && 0 <= r < |shipments[..n][s].rows| && shipments[..n][s].rows[r].itemId == id;
      RowHasShipRow(shipments, s, r);
    }
  }

  lemma {:induction false} CountedRow(rows: seq<ShipRow>, id: nat) returns (r: nat)
    requires RowQty(rows, id) > 0
    ensures r < |rows| && rows[r].itemId == id && id != 0
  {
    var n := |rows| - 1;
    if rows[n].itemId == id && id != 0 && rows[n].qty > 0 {
      r := n;
    } else {
      r := CountedRow(rows[..n], id);
    }
  }

  /** The split plan keeps the ledger: no shipped row disappears or shrinks below what it shipped. */
  lemma SplitKeepsLedger(o: Order, req: SplitRequest, nextId: nat)
    requires LedgerOk(o) && FreshId(o, nextId) && SyncSplit(o, req, nextId).Ok?
    ensures LedgerOk(SyncSplit(o, req, nextId).value)
  {
    var p := SyncSplit(o, req, nextId).value;
    FaultlessLines(o, req);
    AppliedDistinct(o, req, req.lines, nextId);
    forall s | 0 <= s < |p.shipments| ensures RowsRefer(p.items, p.shipments[s].rows) {
      assert RowsRefer(o.items, o.shipments[s].rows);
      forall r | 0 <= r < |p.shipments[s].rows| ensures FindItem(p.items, p.shipments[s].rows[r].itemId).Some? {
        var id := p.shipments[s].rows[r].itemId;
        RowHasShipRow(o.shipments, s, r);
        ShippedChildStays(o, req, nextId, o.items[FindItem(o.items, id).value]);
      }
    }
    forall row | row in p.items && ShippedRows(p.shipments, row.id) > 0
      ensures ShippedRows(p.shipments, row.id) <= row.quantity
    {
      ShippedHasShipRow(o.shipments, row.id);
      var s, r :| 0 <= s < |o.shipments| && 0 <= r < |o.shipments[s].rows| && o.shipments[s].rows[r].itemId == row.id;
      assert RowsRefer(o.items, o.shipments[s].rows);
      var it := o.items[FindItem(o.items, row.id).value];
      assert it in o.items;
      ShippedChildStays(o, req, nextId, it);
      SameIdSameRow(p.items, row, it.id);
    }
  }

  lemma SameIdSameRow(items: seq<Item>, row: Item, id: nat)
    requires DistinctIds(items) && row in items && row.id == id
    ensures forall other :: other in items && other.id == id ==> other == row
  {
    forall other | other in items && other.id == id ensures other == row {
      var i :| 0 <= i < |items| && items[i] == row;
      var j :| 0 <= j < |items| && items[j] == other;
    }
  }

  // ---- one child per plan line ----

  ghost predicate UniquePlans(items: seq<Item>) {
    forall i, j ::
      0 <= i < j < |items| && IsSplitChild(items[i]) && IsSplitChild(items[j]) && items[i].planLine != 0 ==>
      items[i].planLine != items[j].planLine
  }

  lemma UniqueAmongKept(items: seq<Item>, kept: seq<Item>, p: nat, i: nat, j: nat)
    requires UniquePlans(items) && DistinctIds(kept)
    requires forall it :: it in kept ==> it in items
    requires i < |kept| && j < |kept| && IsPlanChild(kept[i], p) && IsPlanChild(kept[j], p)
    ensures i == j
  {
    assert kept[i] in kept && kept[j] in kept;
    var a :| 0 <= a < |items| && items[a] == kept[i];
    var b :| 0 <= b < |items| && items[b] == kept[j];
    assert a == b;
  }

  /** What a child that has not shipped looks like after its last line. */
  predicate FollowsLine(mode: SplitKind, it: Item, line: SplitLine) {
    it.quantity == line.qty && it.split == mode && it.parent == if mode == Partial then line.parent else 0
  }

  lemma RevisedFollows(o: Order, mode: SplitKind, it: Item, line: SplitLine)
    requires mode != NoSplit && IsPlanChild(it, line.planLine)
    ensures var r := Revised(o, mode, it, line);
      && IsPlanChild(r, line.planLine) && r.goods.name == line.name && r.goods.specs == line.name
      && (!HasShipRow(o.shipments, it.id) ==> FollowsLine(mode, r, line))
  {
  }

  lemma {:induction false} NewChildFollows(o: Order, mode: SplitKind, lines: seq<SplitLine>, nextId: nat, k: nat)
    requires PlansGiven(mode, lines)
    requires k < |NewPlans(o.items, lines)|
    ensures var p := NewPlans(o.items, lines)[k]; var c := NewChild(o, mode, lines, nextId, k);
      && IsPlanChild(c, p) && c.id == nextId + k && c.goods.name == LastLine(lines, p).name == c.goods.specs
      && FollowsLine(mode, c, LastLine(lines, p))
  {
    NewPlansAre(o.items, lines);
    var p := NewPlans(o.items, lines)[k];
    assert p in NewPlans(o.items, lines);
    NamedLine(lines, p);
  }

  /** Where a named plan line's child is afterwards. */
  ghost predicate PlanRowAt(o: Order, req: SplitRequest, nextId: nat, p: nat, at: nat) {
    && PlansGiven(req.mode, req.lines) && Named(req.lines, p) && at < |Applied(o, req, req.lines, nextId)|
    && IsPlanChild(Applied(o, req, req.lines, nextId)[at], p)
    && SaysLine(o, req.mode, Applied(o, req, req.lines, nextId)[at], LastLine(req.lines, p))
    && (Target(o.items, p).Some? <==> at < |Kept(o, req, o.items)|)
    && (at >= |Kept(o, req, o.items)| ==> NewPlans(o.items, req.lines)[at - |Kept(o, req, o.items)|] == p)
    && (at < |Kept(o, req, o.items)| ==> IsPlanChild(Kept(o, req, o.items)[at], p))
  }

  /** A plan line with a child: that kept row. */
  lemma KeptPlanRow(o: Order, req: SplitRequest, nextId: nat, p: nat) returns (at: nat)
    requires PlansGiven(req.mode, req.lines) && Named(req.lines, p) && Target(o.items, p).Some?
    ensures PlanRowAt(o, req, nextId, p, at)
  {
    NamedLine(req.lines, p);
    TargetIs(o.items, p);
    var it :| it in o.items && IsPlanChild(it, p) && Target(o.items, p) == Some(it.id);
    at := KeptAt(o, req, it);
    AppliedRow(o, req, req.lines, nextId, at);
    RevisedFollows(o, req.mode, it, LastLine(req.lines, p));
    PlannedKeeps(o, req.mode, req.lines, it);
  }

  /** A plan line without one: its new child. */
  lemma NewPlanRow(o: Order, req: SplitRequest, nextId: nat, p: nat) returns (at: nat)
    requires PlansGiven(req.mode, req.lines) && Named(req.lines, p) && Target(o.items, p).None?
    ensures PlanRowAt(o, req, nextId, p, at)
  {
    NewPlansAre(o.items, req.lines);
    var ps := NewPlans(o.items, req.lines);
    var k :| 0 <= k < |ps| && ps[k] == p;
    at := |Kept(o, req, o.items)| + k;
    NewPlanRowIs(o, req, nextId, k);
  }

  lemma {:induction false} NewPlanRowIs(o: Order, req: SplitRequest, nextId: nat, k: nat)
    requires PlansGiven(req.mode, req.lines) && k < |NewPlans(o.items, req.lines)|
    ensures PlanRowAt(o, req, nextId, NewPlans(o.items, req.lines)[k], |Kept(o, req, o.items)| + k)
  {
    var p := NewPlans(o.items, req.lines)[k];
    NewPlansAre(o.items, req.lines);
    assert p in NewPlans(o.items, req.lines);
    AppliedNew(o, req, req.lines, nextId, |Kept(o, req, o.items)| + k);
    NewChildFollows(o, req.mode, req.lines, nextId, k);
  }

  lemma KeptAt(o: Order, req: SplitRequest, it: Item) returns (at: nat)
    requires it in o.items && !Dropped(o, req, it)
    ensures at < |Kept(o, req, o.items)| && Kept(o, req, o.items)[at] == it
  {
    KeptIs(o, req, o.items);
    at :| 0 <= at < |Kept(o, req, o.items)| && Kept(o, req, o.items)[at] == it;
  }

  /** Exactly one row is the child of plan line `p`, and it says what `line` says. */
  ghost predicate OneChild(o: Order, mode: SplitKind, rows: seq<Item>, p: nat, line: SplitLine) {
    exists i :: 0 <= i < |rows| && OnlyChild(rows, p, i) && SaysLine(o, mode, rows[i], line)
  }

  ghost predicate OnlyChild(rows: seq<Item>, p: nat, i: nat)
    requires i < |rows|
  {
    IsPlanChild(rows[i], p) && forall j :: 0 <= j < |rows| && j != i ==> !IsPlanChild(rows[j], p)
  }

  predicate SaysLine(o: Order, mode: SplitKind, it: Item, line: SplitLine) {
    && it.goods.name == line.name && it.goods.specs == line.name
    && (!HasShipRow(o.shipments, it.id) ==> FollowsLine(mode, it, line))
  }

  /** With one child per plan line before, every requested plan line has exactly one child after,
      and a child that has not shipped is exactly what the last line for it says. */
  lemma {:induction false} OneChildPerPlanLine(o: Order, req: SplitRequest, nextId: nat, p: nat)
    requires DistinctIds(o.items) && UniquePlans(o.items)
    requires SyncSplit(o, req, nextId).Ok? && Named(req.lines, p)
    ensures OneChild(o, req.mode, SyncSplit(o, req, nextId).value.items, p, LastLine(req.lines, p))
  {
    FaultlessLines(o, req);
    AppliedOneChild(o, req, nextId, p);
  }

  lemma {:induction false} AppliedOneChild(o: Order, req: SplitRequest, nextId: nat, p: nat)
    requires DistinctIds(o.items) && UniquePlans(o.items) && PlansGiven(req.mode, req.lines) && Named(req.lines, p)
    ensures OneChild(o, req.mode, Applied(o, req, req.lines, nextId), p, LastLine(req.lines, p))
  {
    var rows, at := Applied(o, req, req.lines, nextId), 0;
    if Target(o.items, p).Some? {
      at := KeptPlanRow(o, req, nextId, p);
    } else {
      at := NewPlanRow(o, req, nextId, p);
    }
    PlanRowIsOnly(o, req, nextId, p, at);
  }

  lemma PlanRowIsOnly(o: Order, req: SplitRequest, nextId: nat, p: nat, at: nat)
    requires DistinctIds(o.items) && UniquePlans(o.items) && PlanRowAt(o, req, nextId, p, at)
    ensures OnlyChild(Applied(o, req, req.lines, nextId), p, at)
  {
    forall j | 0 <= j < |Applied(o, req, req.lines, nextId)| && j != at
      ensures !IsPlanChild(Applied(o, req, req.lines, nextId)[j], p)
    {
      NoOtherChild(o, req, nextId, p, at, j);
    }
  }

  lemma {:induction false} NoOtherChild(o: Order, req: SplitRequest, nextId: nat, p: nat, at: nat, j: nat)
    requires DistinctIds(o.items) && UniquePlans(o.items) && PlansGiven(req.mode, req.lines)
    requires Target(o.items, p).Some? <==> at < |Kept(o, req, o.items)|
    requires var n := |Kept(o, req, o.items)|;
      if at < n then IsPlanChild(Kept(o, req, o.items)[at], p)
      else at - n < |NewPlans(o.items, req.lines)| && NewPlans(o.items, req.lines)[at - n] == p
    requires j < |Applied(o, req, req.lines, nextId)| && j != at
    ensures !IsPlanChild(Applied(o, req, req.lines, nextId)[j], p)
  {
    AppliedRow(o, req, req.lines, nextId, j);
    NoOtherRow(o, req, nextId, p, at, j, Applied(o, req, req.lines, nextId)[j]);
  }

  lemma {:induction false} NoOtherRow(o: Order, req: SplitRequest, nextId: nat, p: nat, at: nat, j: nat, row: Item)
    requires DistinctIds(o.items) && UniquePlans(o.items) && PlansGiven(req.mode, req.lines) && j != at
    requires Target(o.items, p).Some? <==> at < |Kept(o, req, o.items)|
    requires var n := |Kept(o, req, o.items)|;
      if at < n then IsPlanChild(Kept(o, req, o.items)[at], p)
      else at - n < |NewPlans(o.items, req.lines)| && NewPlans(o.items, req.lines)[at - n] == p
    requires var n := |Kept(o, req, o.items)|;
      if j < n then row == Planned(o, req.mode, req.lines, Kept(o, req, o.items)[j])
      else j - n < |NewPlans(o.items, req.lines)| && row == NewChild(o, req.mode, req.lines, nextId, j - n)
    ensures !IsPlanChild(row, p)
  {
    var n := |Kept(o, req, o.items)|;
    if j < n {
      NoOtherKeptChild(o, req, p, at, j);
    } else {
      NoOtherNewChild(o, req, nextId, p, at - n, j - n);
    }
  }

  lemma {:induction false} NoOtherKeptChild(o: Order, req: SplitRequest, p: nat, at: nat, j: nat)
    requires DistinctIds(o.items) && UniquePlans(o.items) && PlansGiven(req.mode, req.lines)
    requires j < |Kept(o, req, o.items)| && j != at
    requires Target(o.items, p).Some? <==> at < |Kept(o, req, o.items)|
    requires at < |Kept(o, req, o.items)| ==> IsPlanChild(Kept(o, req, o.items)[at], p)
    ensures !IsPlanChild(Planned(o, req.mode, req.lines, Kept(o, req, o.items)[j]), p)
  {
    var kept := Kept(o, req, o.items);
    KeptIs(o, req, o.items);
    PlannedKeeps(o, req.mode, req.lines, kept[j]);
    if IsPlanChild(kept[j], p) {
      assert kept[j] in kept;
      TargetIs(o.items, p);
      UniqueAmongKept(o.items, kept, p, at, j);
    }
  }

  lemma {:induction false} NoOtherNewChild(o: Order, req: SplitRequest, nextId: nat, p: nat, at: int, k: nat)
    requires PlansGiven(req.mode, req.lines) && k < |NewPlans(o.items, req.lines)|
    requires if Target(o.items, p).Some? then at < 0
             else 0 <= at < |NewPlans(o.items, req.lines)| && NewPlans(o.items, req.lines)[at] == p && at != k
    ensures !IsPlanChild(NewChild(o, req.mode, req.lines, nextId, k), p)
  {
    var ps := NewPlans(o.items, req.lines);
    NewPlansAre(o.items, req.lines);
    NewChildFollows(o, req.mode, req.lines, nextId, k);
    assert ps[k] in ps;
  }

  /** A row outside the plan that is not dropped is there as it was. */
  lemma UndroppedStays(o: Order, req: SplitRequest, nextId: nat, it: Item)
    requires it in o.items && !Dropped(o, req, it)
    requires !IsSplitChild(it) || it.planLine == 0 || !Named(req.lines, it.planLine)
    ensures it in Applied(o, req, req.lines, nextId)
  {
    var at := KeptAt(o, req, it);
    AppliedRow(o, req, req.lines, nextId, at);
    assert Applied(o, req, req.lines, nextId)[at] == it;
  }

  // ---- replay ----

  lemma {:induction false} TargetConcat(a: seq<Item>, b: seq<Item>, p: nat)
    ensures Target(a + b, p) == if Target(b, p).Some? then Target(b, p) else Target(a, p)
  {
    if b == [] {
      assert a + b == a;
    } else {
      var n := |b| - 1;
      assert (a + b)[..|a| + n] == a + b[..n];
      TargetConcat(a, b[..n], p);
    }
  }

  /** Dropping rows outside the plan does not change which child a named plan line stands for. */
  lemma {:induction false} TargetKept(o: Order, req: SplitRequest, items: seq<Item>, p: nat)
    requires Named(req.lines, p)
    ensures Target(Kept(o, req, items), p) == Target(items, p)
  {
    if items != [] {
      var n := |items| - 1;
      TargetKept(o, req, items[..n], p);
      if Dropped(o, req, items[n]) {
        assert !IsPlanChild(items[n], p);
      } else {
        TargetConcat(Kept(o, req, items[..n]), [items[n]], p);
        assert [items[n]][..0] == [];
      }
    }
  }

  lemma {:induction false} TargetPlanned(o: Order, req: SplitRequest, rows: seq<Item>, p: nat)
    requires PlansGiven(req.mode, req.lines)
    ensures Target(PlannedRows(o, req.mode, req.lines, rows), p) == Target(rows, p)
  {
    if rows != [] {
      var n := |rows| - 1;
      PlannedKeeps(o, req.mode, req.lines, rows[n]);
      TargetPlanned(o, req, rows[..n], p);
      assert PlannedRows(o, req.mode, req.lines, rows)[..n] == PlannedRows(o, req.mode, req.lines, rows[..n]);
    }
  }

  /** Rows with distinct plan lines: each plan line stands for its own row. */
  lemma {:induction false} TargetAmongDistinct(rows: seq<Item>, ps: seq<nat>, p: nat)
    requires |rows| == |ps| && forall i, j :: 0 <= i < j < |ps| ==> ps[i] != ps[j]
    requires forall i :: 0 <= i < |rows| ==> IsPlanChild(rows[i], ps[i])
    ensures p !in ps ==> Target(rows, p).None?
    ensures forall k :: 0 <= k < |ps| && ps[k] == p ==> Target(rows, p) == Some(rows[k].id)
  {
    TargetIs(rows, p);
    forall i | 0 <= i < |rows| && IsPlanChild(rows[i], p) ensures p == ps[i] {
      assert IsPlanChild(rows[i], ps[i]);
    }
    if p !in ps {
      forall it | it in rows ensures !IsPlanChild(it, p) {
        var i :| 0 <= i < |rows| && rows[i] == it;
        assert ps[i] in ps;
      }
    }
    forall k | 0 <= k < |ps| && ps[k] == p ensures Target(rows, p) == Some(rows[k].id) {
      assert rows[k] in rows && IsPlanChild(rows[k], ps[k]);
      var it :| it in rows && IsPlanChild(it, p) && Target(rows, p) == Some(it.id);
      var i :| 0 <= i < |rows| && rows[i] == it;
      assert i == k;
    }
  }

  /** Which child each named plan line stands for afterwards. */
  lemma {:induction false} TargetAfter(o: Order, req: SplitRequest, nextId: nat, p: nat)
    requires PlansGiven(req.mode, req.lines) && Named(req.lines, p)
    ensures Target(o.items, p).Some? ==> Target(Applied(o, req, req.lines, nextId), p) == Target(o.items, p)
    ensures Target(o.items, p).None? ==>
      forall k :: 0 <= k < |NewPlans(o.items, req.lines)| && NewPlans(o.items, req.lines)[k] == p ==>
        Target(Applied(o, req, req.lines, nextId), p) == Some(nextId + k)
  {
    var kept := Kept(o, req, o.items);
    TargetCreated(o, req.mode, req.lines, nextId, p);
    TargetConcat(PlannedRows(o, req.mode, req.lines, kept), Created(o, req.mode, req.lines, nextId), p);
    TargetPlanned(o, req, kept, p);
    TargetKept(o, req, o.items, p);
  }

  lemma {:induction false} TargetCreated(o: Order, mode: SplitKind, lines: seq<SplitLine>, nextId: nat, p: nat)
    requires PlansGiven(mode, lines)
    ensures Target(o.items, p).Some? ==> Target(Created(o, mode, lines, nextId), p).None?
    ensures forall k :: 0 <= k < |NewPlans(o.items, lines)| && NewPlans(o.items, lines)[k] == p ==>
      Target(Created(o, mode, lines, nextId), p) == Some(nextId + k)
  {
    var created, ps := Created(o, mode, lines, nextId), NewPlans(o.items, lines);
    NewPlansAre(o.items, lines);
    forall k | 0 <= k < |ps| ensures IsPlanChild(created[k], ps[k]) && created[k].id == nextId + k {
      CreatedRow(o, mode, lines, nextId, k);
    }
    TargetAmongDistinct(created, ps, p);
  }

  lemma {:induction false} CreatedRow(o: Order, mode: SplitKind, lines: seq<SplitLine>, nextId: nat, k: nat)
    requires PlansGiven(mode, lines) && k < |NewPlans(o.items, lines)|
    ensures var c := Created(o, mode, lines, nextId)[k];
      IsPlanChild(c, NewPlans(o.items, lines)[k]) && c.id == nextId + k
  {
    NewChildFollows(o, mode, lines, nextId, k);
  }

  /** Roots are never touched, so parents resolve to the same rows. */
  lemma RootsAfter(o: Order, req: SplitRequest, nextId: nat, id: nat)
    requires DistinctIds(o.items) && FreshId(o, nextId) && RequestFault(o, req).None?
    requires FindRoot(o.items, id).Some?
    ensures var rows := Applied(o, req, req.lines, nextId);
      FindRoot(rows, id).Some? && rows[FindRoot(rows, id).value] == o.items[FindRoot(o.items, id).value]
  {
    var root := o.items[FindRoot(o.items, id).value];
    var rows := Applied(o, req, req.lines, nextId);
    UndroppedStays(o, req, nextId, root);
    FaultlessLines(o, req);
    AppliedDistinct(o, req, req.lines, nextId);
    var i :| 0 <= i < |rows| && rows[i] == root;
    FindItemAt(rows, i);
  }

  /** A revised child is a fixed point of the same revision. */
  lemma RevisedTwice(o: Order, req: SplitRequest, nextId: nat, it: Item, line: SplitLine)
    requires DistinctIds(o.items) && FreshId(o, nextId) && RequestFault(o, req).None? && line in req.lines
    ensures var p := SyncSplit(o, req, nextId).value; var once := Revised(o, req.mode, it, line);
      Revised(p, req.mode, once, line) == once
  {
    var p := SyncSplit(o, req, nextId).value;
    var once := Revised(o, req.mode, it, line);
    if HasShipRow(o.shipments, it.id) {
      ShipRowIsNotLegacy(o, it.id);
      assert ShippedQty(p, once) == ShippedQty(o, it);
    } else {
      FaultlessLines(o, req);
      var parentId := if req.mode == Partial then line.parent else 0;
      if req.mode == Partial {
        RootsAfter(o, req, nextId, parentId);
      } else {
        FaultlessLines(o, req);
        AppliedDistinct(o, req, req.lines, nextId);
      }
    }
  }

  lemma {:induction false} KeptAll(o: Order, req: SplitRequest, items: seq<Item>)
    requires forall it :: it in items ==> !Dropped(o, req, it)
    ensures Kept(o, req, items) == items
  {
    if items != [] {
      var n := |items| - 1;
      assert items == items[..n] + [items[n]];
      KeptAll(o, req, items[..n]);
    }
  }

  lemma {:induction false} NothingNew(items: seq<Item>, lines: seq<SplitLine>)
    requires forall l :: l in lines ==> Target(items, l.planLine).Some?
    ensures NewPlans(items, lines) == []
  {
    if lines != [] {
      NothingNew(items, lines[..|lines| - 1]);
    }
  }

  /** After the sync no row is outside the plan. */
  lemma NothingDroppedTwice(o: Order, req: SplitRequest, nextId: nat, i: nat)
    requires PlansGiven(req.mode, req.lines) && i < |Applied(o, req, req.lines, nextId)|
    ensures !Dropped(o, req, Applied(o, req, req.lines, nextId)[i])
  {
    var row := Applied(o, req, req.lines, nextId)[i];
    RowOrigin(o, req, nextId, i);
    if it :| it in o.items && !Dropped(o, req, it) && row == Planned(o, req.mode, req.lines, it) {
      PlannedStays(o, req, it);
    } else {
      var k :| 0 <= k < |NewPlans(o.items, req.lines)| && row == NewChild(o, req.mode, req.lines, nextId, k);
      NewChildStays(o, req, nextId, k);
    }
  }

  lemma PlannedStays(o: Order, req: SplitRequest, it: Item)
    requires PlansGiven(req.mode, req.lines) && !Dropped(o, req, it)
    ensures !Dropped(o, req, Planned(o, req.mode, req.lines, it))
  {
    PlannedKeeps(o, req.mode, req.lines, it);
  }

  lemma NewChildStays(o: Order, req: SplitRequest, nextId: nat, k: nat)
    requires PlansGiven(req.mode, req.lines) && k < |NewPlans(o.items, req.lines)|
    ensures !Dropped(o, req, NewChild(o, req.mode, req.lines, nextId, k))
  {
    NewChildFollows(o, req.mode, req.lines, nextId, k);
    NewPlansAre(o.items, req.lines);
    assert NewPlans(o.items, req.lines)[k] in NewPlans(o.items, req.lines);
  }

  /** After the sync each row already is what the plan makes of it. */
  lemma PlannedTwice(o: Order, req: SplitRequest, nextId: nat, i: nat)
    requires DistinctIds(o.items) && FreshId(o, nextId) && RequestFault(o, req).None?
    requires i < |Applied(o, req, req.lines, nextId)|
    ensures var p := SyncSplit(o, req, nextId).value; Planned(p, req.mode, req.lines, p.items[i]) == p.items[i]
  {
    var row := Applied(o, req, req.lines, nextId)[i];
    if IsTarget(Applied(o, req, req.lines, nextId), req.lines, row) {
      RowTwice(o, req, nextId, i);
    }
  }

  predicate IsTarget(items: seq<Item>, lines: seq<SplitLine>, row: Item) {
    IsSplitChild(row) && row.planLine != 0 && Named(lines, row.planLine) && Target(items, row.planLine) == Some(row.id)
  }

  lemma RowTwice(o: Order, req: SplitRequest, nextId: nat, i: nat)
    requires DistinctIds(o.items) && FreshId(o, nextId) && RequestFault(o, req).None?
    requires i < |Applied(o, req, req.lines, nextId)|
    requires IsTarget(Applied(o, req, req.lines, nextId), req.lines, Applied(o, req, req.lines, nextId)[i])
    ensures StaysRevised(o, req, nextId, Applied(o, req, req.lines, nextId)[i])
  {
    var row := Applied(o, req, req.lines, nextId)[i];
    RowOrigin(o, req, nextId, i);
    if it :| it in o.items && !Dropped(o, req, it) && row == Planned(o, req.mode, req.lines, it) {
      KeptTwice(o, req, nextId, it);
    } else {
      var k :| 0 <= k < |NewPlans(o.items, req.lines)| && row == NewChild(o, req.mode, req.lines, nextId, k);
      NewChildTwice(o, req, nextId, k);
    }
  }

  lemma RowOrigin(o: Order, req: SplitRequest, nextId: nat, i: nat)
    requires i < |Applied(o, req, req.lines, nextId)|
    ensures var row := Applied(o, req, req.lines, nextId)[i];
      || (exists it :: it in o.items && !Dropped(o, req, it) && row == Planned(o, req.mode, req.lines, it))
      || (exists k :: 0 <= k < |NewPlans(o.items, req.lines)| && row == NewChild(o, req.mode, req.lines, nextId, k))
  {
    AppliedRow(o, req, req.lines, nextId, i);
  }

  /** The last line for the row changes nothing on it after the sync. */
  predicate StaysRevised(o: Order, req: SplitRequest, nextId: nat, row: Item)
    requires RequestFault(o, req).None?
  {
    Named(req.lines, row.planLine)
    && Revised(SyncSplit(o, req, nextId).value, req.mode, row, LastLine(req.lines, row.planLine)) == row
  }

  lemma KeptTwice(o: Order, req: SplitRequest, nextId: nat, it: Item)
    requires DistinctIds(o.items) && FreshId(o, nextId) && RequestFault(o, req).None? && it in o.items
    requires IsTarget(Applied(o, req, req.lines, nextId), req.lines, Planned(o, req.mode, req.lines, it))
    ensures StaysRevised(o, req, nextId, Planned(o, req.mode, req.lines, it))
  {
    FaultlessLines(o, req);
    KeptRowIsTarget(o, req, nextId, it);
    NamedLine(req.lines, it.planLine);
    RevisedTwice(o, req, nextId, it, LastLine(req.lines, it.planLine));
  }

  lemma KeptRowIsTarget(o: Order, req: SplitRequest, nextId: nat, it: Item)
    requires PlansGiven(req.mode, req.lines) && FreshId(o, nextId) && it in o.items
    requires IsTarget(Applied(o, req, req.lines, nextId), req.lines, Planned(o, req.mode, req.lines, it))
    ensures Planned(o, req.mode, req.lines, it) == Revised(o, req.mode, it, LastLine(req.lines, it.planLine))
    ensures Planned(o, req.mode, req.lines, it).planLine == it.planLine
  {
    PlannedKeeps(o, req.mode, req.lines, it);
    TargetAfter(o, req, nextId, it.planLine);
    NewPlansAre(o.items, req.lines);
    assert Target(o.items, it.planLine).Some?;
  }

  lemma NewChildTwice(o: Order, req: SplitRequest, nextId: nat, k: nat)
    requires DistinctIds(o.items) && FreshId(o, nextId) && RequestFault(o, req).None?
    requires k < |NewPlans(o.items, req.lines)|
    ensures StaysRevised(o, req, nextId, NewChild(o, req.mode, req.lines, nextId, k))
  {
    FaultlessLines(o, req);
    NewChildFollows(o, req.mode, req.lines, nextId, k);
    var p := SyncSplit(o, req, nextId).value;
    var c := NewChild(o, req.mode, req.lines, nextId, k);
    var line := LastLine(req.lines, c.planLine);
    NewPlansAre(o.items, req.lines);
    assert c.planLine in NewPlans(o.items, req.lines);
    NamedLine(req.lines, c.planLine);
    if !HasShipRow(p.shipments, c.id) {
      if req.mode == Partial {
        RootsAfter(o, req, nextId, line.parent);
      } else {
        FaultlessLines(o, req);
        AppliedDistinct(o, req, req.lines, nextId);
      }
    }
  }

  lemma FaultlessTwice(o: Order, req: SplitRequest, nextId: nat)
    requires DistinctIds(o.items) && FreshId(o, nextId) && SyncSplit(o, req, nextId).Ok?
    ensures RequestFault(SyncSplit(o, req, nextId).value, req).None?
  {
    var p := SyncSplit(o, req, nextId).value;
    FaultlessLines(o, req);
    forall l | l in req.lines ensures LineError(p.items, req.mode, l).None? {
      if req.mode == Partial { RootsAfter(o, req, nextId, l.parent); }
    }
    NoLineError(p.items, req.mode, req.lines);
  }

  lemma NoNewPlansTwice(o: Order, req: SplitRequest, nextId: nat)
    requires PlansGiven(req.mode, req.lines)
    ensures NewPlans(Applied(o, req, req.lines, nextId), req.lines) == []
  {
    forall l | l in req.lines ensures Target(Applied(o, req, req.lines, nextId), l.planLine).Some? {
      NamedLine(req.lines, l.planLine);
      TargetAfter(o, req, nextId, l.planLine);
      NewPlansAre(o.items, req.lines);
      if Target(o.items, l.planLine).None? { assert l.planLine in NewPlans(o.items, req.lines); }
    }
    NothingNew(Applied(o, req, req.lines, nextId), req.lines);
  }

  /** Sending the same split plan again changes nothing, whatever plan lines repeat
      among the children or in the request. */
  lemma SplitReplayIsNoOp(o: Order, req: SplitRequest, nextId: nat, laterId: nat)
    requires DistinctIds(o.items) && FreshId(o, nextId) && SyncSplit(o, req, nextId).Ok?
    ensures var p := SyncSplit(o, req, nextId).value; SyncSplit(p, req, laterId) == Ok(p)
  {
    var p := SyncSplit(o, req, nextId).value;
    FaultlessLines(o, req);
    FaultlessTwice(o, req, nextId);
    forall i | 0 <= i < |p.items|
      ensures !Dropped(p, req, p.items[i]) && Planned(p, req.mode, req.lines, p.items[i]) == p.items[i]
    {
      NothingDroppedTwice(o, req, nextId, i);
      PlannedTwice(o, req, nextId, i);
    }
    KeptAll(p, req, p.items);
    NoNewPlansTwice(o, req, nextId);
    assert PlannedRows(p, req.mode, req.lines, p.items) == p.items;
    assert Applied(p, req, req.lines, laterId) == p.items + [] == p.items;
  }
}
