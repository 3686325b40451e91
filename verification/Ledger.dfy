/** The shipment ledger of one order: how much of each row has shipped, how
    much is left, and the ship status those quantities imply. Functions specify;
    the methods are the map-filling loops of the service. */
module Ledger {
  import opened OrderModel

  predicate HasFullSplit(o: Order) {
    exists i :: 0 <= i < |o.items| && o.items[i].split == Full
  }

  predicate HasPartialChildren(o: Order, id: nat) {
    id != 0 && exists i :: 0 <= i < |o.items| && o.items[i].parent == id && o.items[i].split == Partial
  }

  /** Split children replace the rows they were split from. */
  predicate Shippable(o: Order, it: Item) {
    IsSplitChild(it) || (!HasFullSplit(o) && !HasPartialChildren(o, it.id))
  }

  /** Quantity the rows count for item `id`; rows without an item or a positive quantity are skipped. */
  function RowQty(rows: seq<ShipRow>, id: nat): nat {
    if rows == [] then 0
    else
      var n := |rows| - 1;
      RowQty(rows[..n], id) + if rows[n].itemId == id && id != 0 && rows[n].qty > 0 then rows[n].qty else 0
  }

  function ShippedRows(shipments: seq<Shipment>, id: nat): nat {
    if shipments == [] then 0
    else
      var n := |shipments| - 1;
      ShippedRows(shipments[..n], id) + RowQty(shipments[n].rows, id)
  }

  predicate HasRows(shipments: seq<Shipment>) {
    exists i :: 0 <= i < |shipments| && shipments[i].rows != []
  }

  /** Historic shipments carry no rows: while the header says shipped, everything counts as shipped. */
  predicate LegacyShipped(o: Order) {
    !HasRows(o.shipments) && o.shipments != [] && o.head.shipStatus == Shipped
  }

  function ShippedQty(o: Order, it: Item): int {
    if LegacyShipped(o) && Shippable(o, it) then it.quantity else ShippedRows(o.shipments, it.id)
  }

  function Remaining(o: Order, it: Item): nat {
    var left := it.quantity - ShippedQty(o, it);
    if Shippable(o, it) && left > 0 then left else 0
  }

  /** Plain sum of the lines for item `id`. */
  function LineQty(lines: seq<ShipRow>, id: nat): int {
    if lines == [] then 0
    else
      var n := |lines| - 1;
      LineQty(lines[..n], id) + if lines[n].itemId == id then lines[n].qty else 0
  }

  function SumItems(items: seq<Item>, f: Item -> int): int {
    if items == [] then 0 else SumItems(items[..|items| - 1], f) + f(items[|items| - 1])
  }

  function LeftAfter(o: Order, lines: seq<ShipRow>, it: Item): nat {
    var left := Remaining(o, it) - LineQty(lines, it.id);
    if Shippable(o, it) && left > 0 then left else 0
  }

  function TotalLeft(o: Order, lines: seq<ShipRow>): int {
    SumItems(o.items, it => LeftAfter(o, lines, it))
  }

  function Ordered(o: Order, it: Item): int {
    if Shippable(o, it) then it.quantity else 0
  }

  function TotalOrdered(o: Order): int {
    SumItems(o.items, it => Ordered(o, it))
  }

  /** The ship status of the order once `lines` have shipped. */
  function ShipStatusAfter(o: Order, lines: seq<ShipRow>): ShipStatus {
    if o.items == [] || TotalOrdered(o) <= 0 || TotalLeft(o, lines) <= 0 then Shipped
    else if TotalLeft(o, lines) < TotalOrdered(o) then PartialShipped
    else WaitShip
  }

  /** The header agrees with the ledger. */
  predicate StatusAgrees(o: Order) {
    o.head.shipStatus == ShipStatusAfter(o, [])
  }

  function WithShipStatus(o: Order, s: ShipStatus): Order {
    o.(head := o.head.(shipStatus := s))
  }

  // ---- sums ----

  lemma {:induction false} RowQtyConcat(a: seq<ShipRow>, b: seq<ShipRow>, id: nat)
    ensures RowQty(a + b, id) == RowQty(a, id) + RowQty(b, id)
  {
    if b == [] {
      assert a + b == a;
    } else {
      var n := |b| - 1;
      assert (a + b)[..|a| + n] == a + b[..n];
      RowQtyConcat(a, b[..n], id);
    }
  }

  lemma {:induction false} ShippedRowsConcat(a: seq<Shipment>, b: seq<Shipment>, id: nat)
    ensures ShippedRows(a + b, id) == ShippedRows(a, id) + ShippedRows(b, id)
  {
    if b == [] {
      assert a + b == a;
    } else {
      var n := |b| - 1;
      assert (a + b)[..|a| + n] == a + b[..n];
      ShippedRowsConcat(a, b[..n], id);
    }
  }

  /** Replacing the rows of one shipment moves the total by the difference. */
  lemma {:induction false} ShippedRowsUpdate(shipments: seq<Shipment>, k: nat, sh: Shipment, id: nat)
    requires k < |shipments|
    ensures ShippedRows(shipments[k := sh], id)
         == ShippedRows(shipments, id) - RowQty(shipments[k].rows, id) + RowQty(sh.rows, id)
  {
    var before, after := shipments[..k], shipments[k + 1..];
    assert shipments == before + ([shipments[k]] + after);
    assert shipments[k := sh] == before + ([sh] + after);
    ShippedRowsConcat(before, [shipments[k]] + after, id);
    ShippedRowsConcat(before, [sh] + after, id);
    ShippedRowsConcat([shipments[k]], after, id);
    ShippedRowsConcat([sh], after, id);
    assert [sh][..0] == [] && [shipments[k]][..0] == [];
  }

  /** Dropping one shipment gives its rows back. */
  lemma {:induction false} ShippedRowsRemove(shipments: seq<Shipment>, k: nat, id: nat)
    requires k < |shipments|
    ensures ShippedRows(shipments[..k] + shipments[k + 1..], id)
         == ShippedRows(shipments, id) - RowQty(shipments[k].rows, id)
  {
    var before, after := shipments[..k], shipments[k + 1..];
    assert shipments == before + ([shipments[k]] + after);
    ShippedRowsConcat(before, [shipments[k]] + after, id);
    ShippedRowsConcat([shipments[k]], after, id);
    ShippedRowsConcat(before, after, id);
    assert [shipments[k]][..0] == [];
  }

  lemma {:induction false} NoRowsNoQty(shipments: seq<Shipment>, id: nat)
    requires !HasRows(shipments)
    ensures ShippedRows(shipments, id) == 0
  {
    if shipments != [] {
      NoRowsNoQty(shipments[..|shipments| - 1], id);
    }
  }

  lemma {:induction false} SumItemsCongruent(items: seq<Item>, f: Item -> int, g: Item -> int)
    requires forall it :: it in items ==> f(it) == g(it)
    ensures SumItems(items, f) == SumItems(items, g)
  {
    if items != [] {
      SumItemsCongruent(items[..|items| - 1], f, g);
    }
  }

  lemma {:induction false} SumItemsBounds(items: seq<Item>, f: Item -> int, g: Item -> int)
    requires forall it :: it in items ==> 0 <= f(it) <= g(it)
    ensures 0 <= SumItems(items, f) <= SumItems(items, g)
    ensures SumItems(items, f) == 0 <==> forall it :: it in items ==> f(it) == 0
    ensures SumItems(items, f) == SumItems(items, g) <==> forall it :: it in items ==> f(it) == g(it)
  {
    if items != [] {
      var n := |items| - 1;
      SumItemsBounds(items[..n], f, g);
      assert items == items[..n] + [items[n]];
    }
  }

  // ---- the status and what it means ----

  lemma LeftOfRow(o: Order, it: Item)
    requires Shippable(o, it) ==> it.quantity >= 0
    ensures 0 <= LeftAfter(o, [], it) <= Ordered(o, it)
    ensures if Shippable(o, it) then LeftAfter(o, [], it) == Remaining(o, it) && Ordered(o, it) == it.quantity
            else Ordered(o, it) == 0
  {
    if LegacyShipped(o) { NoRowsNoQty(o.shipments, it.id); }
  }

  lemma {:induction false} PositiveSum(items: seq<Item>, f: Item -> int, w: Item)
    requires (forall it :: it in items ==> f(it) >= 0) && w in items && f(w) > 0
    ensures SumItems(items, f) > 0
  {
    SumItemsBounds(items, f, f);
  }

  ghost predicate Sensible(o: Order) {
    && (forall it :: it in o.items && Shippable(o, it) ==> it.quantity >= 0)
    && (exists it :: it in o.items && Shippable(o, it) && it.quantity > 0)
  }

  lemma TotalsByRow(o: Order)
    requires Sensible(o)
    ensures o.items != [] && 0 <= TotalLeft(o, []) <= TotalOrdered(o) && TotalOrdered(o) > 0
    ensures TotalLeft(o, []) == 0 <==> forall it :: it in o.items && Shippable(o, it) ==> Remaining(o, it) == 0
    ensures TotalLeft(o, []) == TotalOrdered(o)
       <==> forall it :: it in o.items && Shippable(o, it) ==> Remaining(o, it) == it.quantity
  {
    var f, g := it => LeftAfter(o, [], it), it => Ordered(o, it);
    forall it | it in o.items ensures 0 <= f(it) <= g(it) { LeftOfRow(o, it); }
    SumItemsBounds(o.items, f, g);
    var w :| w in o.items && Shippable(o, w) && w.quantity > 0;
    PositiveSum(o.items, g, w);
    forall it | it in o.items
      ensures f(it) == 0 <==> (Shippable(o, it) ==> Remaining(o, it) == 0)
      ensures f(it) == g(it) <==> (Shippable(o, it) ==> Remaining(o, it) == it.quantity)
    {
      LeftOfRow(o, it);
    }
  }

  /** Row by row: shipped means nothing shippable is left, waiting means nothing has left yet. */
  lemma ShipStatusByRow(o: Order)
    requires Sensible(o)
    ensures ShipStatusAfter(o, []) == Shipped
       <==> forall it :: it in o.items && Shippable(o, it) ==> Remaining(o, it) == 0
    ensures ShipStatusAfter(o, []) == WaitShip
       <==> forall it :: it in o.items && Shippable(o, it) ==> Remaining(o, it) == it.quantity
  {
    TotalsByRow(o);
  }

  /** Two orders with the same rows and the same remaining quantities have the same status. */
  lemma SameRemainingSameStatus(o: Order, a: seq<ShipRow>, p: Order, b: seq<ShipRow>)
    requires o.items == p.items
    requires forall it :: it in o.items ==> LeftAfter(o, a, it) == LeftAfter(p, b, it)
    ensures ShipStatusAfter(o, a) == ShipStatusAfter(p, b)
  {
    SumItemsCongruent(o.items, it => LeftAfter(o, a, it), it => LeftAfter(p, b, it));
    SumItemsCongruent(o.items, it => Ordered(o, it), it => Ordered(p, it));
  }

  lemma LegacyIsShipped(o: Order)
    requires LegacyShipped(o)
    ensures ShipStatusAfter(o, []) == Shipped
  {
    var f := it => LeftAfter(o, [], it);
    assert forall it :: it in o.items ==> f(it) == 0;
    SumItemsBounds(o.items, f, f);
  }

  /** Recomputing after writing the computed status changes nothing, for every order:
      the fallback reads the very status it produces, and still settles at once. */
  lemma RecomputeIsIdempotent(o: Order)
    ensures StatusAgrees(WithShipStatus(o, ShipStatusAfter(o, [])))
  {
    var s := ShipStatusAfter(o, []);
    var p := WithShipStatus(o, s);
    if LegacyShipped(p) {
      LegacyIsShipped(p);
    } else {
      if LegacyShipped(o) { LegacyIsShipped(o); }
      SameRemainingSameStatus(o, [], p, []);
    }
  }

  // ---- the loops ----

  function Get(m: map<nat, int>, k: nat): int {
    if k in m then m[k] else 0
  }

  method IsShippableOrderItem(o: Order, it: Item) returns (b: bool)
    ensures b == Shippable(o, it)
  {
    if IsSplitChild(it) {
      return true;
    }
    for i := 0 to |o.items|
      invariant forall j :: 0 <= j < i ==> o.items[j].split != Full
    {
      if o.items[i].split == Full {
        return false;
      }
    }
    if it.id == 0 {
      return true;
    }
    for i := 0 to |o.items|
      invariant forall j :: 0 <= j < i ==> !(o.items[j].parent == it.id && o.items[j].split == Partial)
    {
      if o.items[i].parent == it.id && o.items[i].split == Partial {
        return false;
      }
    }
    return true;
  }

  /** The quantities of one shipment, added to those before. */
  method AddRows(before: map<nat, int>, rows: seq<ShipRow>) returns (out: map<nat, int>)
    ensures forall id: nat :: Get(out, id) == Get(before, id) + RowQty(rows, id)
  {
    out := before;
    for r := 0 to |rows|
      invariant forall id: nat :: Get(out, id) == Get(before, id) + RowQty(rows[..r], id)
    {
      assert rows[..r + 1][..r] == rows[..r];
      if rows[r].itemId == 0 || rows[r].qty <= 0 {
        continue;
      }
      out := out[rows[r].itemId := Get(out, rows[r].itemId) + rows[r].qty];
    }
    assert rows[..|rows|] == rows;
  }

  lemma HasRowsStep(shipments: seq<Shipment>, sh: Shipment)
    ensures HasRows(shipments + [sh]) <==> HasRows(shipments) || sh.rows != []
  {
    var after := shipments + [sh];
    if HasRows(shipments) {
      var i :| 0 <= i < |shipments| && shipments[i].rows != [];
      assert after[i].rows != [];
    }
    if sh.rows != [] { assert after[|shipments|].rows != []; }
  }

  /** The rows of all shipments, and whether there were any. */
  method AddShipments(shipments: seq<Shipment>) returns (out: map<nat, int>, hasItemRows: bool)
    ensures forall id: nat :: Get(out, id) == ShippedRows(shipments, id)
    ensures hasItemRows <==> HasRows(shipments)
  {
    out, hasItemRows := map[], false;
    for s := 0 to |shipments|
      invariant hasItemRows <==> HasRows(shipments[..s])
      invariant forall id: nat :: Get(out, id) == ShippedRows(shipments[..s], id)
    {
      assert shipments[..s + 1] == shipments[..s] + [shipments[s]] && shipments[..s + 1][..s] == shipments[..s];
      HasRowsStep(shipments[..s], shipments[s]);
      if |shipments[s].rows| > 0 {
        hasItemRows := true;
        out := AddRows(out, shipments[s].rows);
      }
    }
    assert shipments[..|shipments|] == shipments;
  }

  /** The shipped quantity per row id. */
  method ShippedQtyByItem(o: Order) returns (out: map<nat, int>)
    requires DistinctIds(o.items)
    ensures forall it :: it in o.items ==> Get(out, it.id) == ShippedQty(o, it)
  {
    var hasItemRows;
    out, hasItemRows := AddShipments(o.shipments);
    if !hasItemRows && |o.shipments| > 0 && o.head.shipStatus == Shipped {
      out := WholeQuantities(o);
    }
  }

  /** A shipped order without shipment rows counts every shippable row as shipped. */
  method WholeQuantities(o: Order) returns (out: map<nat, int>)
    requires DistinctIds(o.items) && LegacyShipped(o)
    ensures forall it :: it in o.items ==> Get(out, it.id) == ShippedQty(o, it)
  {
    out := map[];
    for i := 0 to |o.items|
      invariant forall j :: 0 <= j < i ==> Get(out, o.items[j].id) == ShippedQty(o, o.items[j])
      invariant forall j :: i <= j < |o.items| ==> Get(out, o.items[j].id) == 0
    {
      NoRowsNoQty(o.shipments, o.items[i].id);
      var shippable := IsShippableOrderItem(o, o.items[i]);
      if !shippable {
        continue;
      }
      out := out[o.items[i].id := o.items[i].quantity];
    }
  }

  /** The quantity still to ship per row id. */
  method RemainingQtyByItem(o: Order) returns (out: map<nat, int>)
    requires DistinctIds(o.items)
    ensures forall it :: it in o.items ==> Get(out, it.id) == Remaining(o, it)
  {
    var shipped := ShippedQtyByItem(o);
    out := map[];
    for i := 0 to |o.items|
      invariant forall j :: 0 <= j < i ==> Get(out, o.items[j].id) == Remaining(o, o.items[j])
    {
      var it := o.items[i];
      assert it in o.items;
      var shippable := IsShippableOrderItem(o, it);
      var left := it.quantity - Get(shipped, it.id);
      if !shippable || left < 0 {
        left := 0;
      }
      out := out[it.id := left];
    }
  }

  /** What is left of each row once the lines have shipped. */
  method RemainingAfter(o: Order, lines: seq<ShipRow>) returns (remaining: map<nat, int>)
    requires DistinctIds(o.items)
    ensures forall it :: it in o.items ==> Get(remaining, it.id) == Remaining(o, it) - LineQty(lines, it.id)
  {
    remaining := RemainingQtyByItem(o);
    for k := 0 to |lines|
      invariant forall it :: it in o.items ==> Get(remaining, it.id) == Remaining(o, it) - LineQty(lines[..k], it.id)
    {
      assert lines[..k + 1][..k] == lines[..k];
      remaining := remaining[lines[k].itemId := Get(remaining, lines[k].itemId) - lines[k].qty];
    }
    assert lines[..|lines|] == lines;
  }

  method ComputeShipStatusAfter(o: Order, lines: seq<ShipRow>) returns (s: ShipStatus)
    requires DistinctIds(o.items)
    ensures s == ShipStatusAfter(o, lines)
  {
    if |o.items| == 0 {
      return Shipped;
    }
    var remaining := RemainingAfter(o, lines);
    var totalLeft, totalOrdered := 0, 0;
    for i := 0 to |o.items|
      invariant totalLeft == SumItems(o.items[..i], it => LeftAfter(o, lines, it))
      invariant totalOrdered == SumItems(o.items[..i], it => Ordered(o, it))
    {
      var it := o.items[i];
      assert o.items[..i + 1][..i] == o.items[..i];
      assert it in o.items;
      var shippable := IsShippableOrderItem(o, it);
      if !shippable {
        continue;
      }
      totalOrdered := totalOrdered + it.quantity;
      var left := Get(remaining, it.id);
      if left < 0 {
        left := 0;
      }
      totalLeft := totalLeft + left;
    }
    assert o.items[..|o.items|] == o.items;
    if totalOrdered <= 0 {
      return Shipped;
    }
    if totalLeft <= 0 {
      return Shipped;
    }
    if totalLeft < totalOrdered {
      return PartialShipped;
    }
    return WaitShip;
  }
}
