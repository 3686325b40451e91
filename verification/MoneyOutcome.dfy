/** The lines of self orders and purchase orders, told on the rows they are for:
    which rows, how much each weighs, and how close amounts and unit prices are. */
module MoneyOutcome {
  import opened OrderModel
  import opened Money

  // ---- which rows ----

  /** A row that is sold: neither split nor refunded nor empty. */
  predicate Sold(it: Item) {
    it.split == NoSplit && it.quantity > 0 && !it.lineClosed
  }

  /** Some root carries an allocation. */
  predicate RowsAllocated(o: Order) {
    exists it :: it in o.items && it.split == NoSplit && it.parent == 0 && it.ful.allocType != Unallocated
  }

  /** A row that is bought: sold, and once any row is allocated, a dropship row. */
  predicate Bought(o: Order, it: Item) {
    Sold(it) && (RowsAllocated(o) ==> it.ful.allocType == Dropship)
  }

  /** The rows at these places, in this order, are all that satisfy `p`. */
  ghost predicate Picks(items: seq<Item>, rows: seq<Item>, at: seq<nat>, p: Item -> bool) {
    && |at| == |rows| && (forall i :: 0 <= i < |at| ==> at[i] < |items| && items[at[i]] == rows[i] && p(rows[i]))
    && (forall i, j :: 0 <= i < j < |at| ==> at[i] < at[j])
    && (forall k :: 0 <= k < |items| && p(items[k]) ==> k in at)
  }

  lemma PicksNone(items: seq<Item>, it: Item, rows: seq<Item>, at: seq<nat>, p: Item -> bool)
    requires Picks(items, rows, at, p) && !p(it)
    ensures Picks(items + [it], rows, at, p)
  {
    var all := items + [it];
    forall k | 0 <= k < |all| && p(all[k]) ensures k in at {
      assert p(items[k]);
    }
  }

  lemma PicksOne(items: seq<Item>, it: Item, rows: seq<Item>, at: seq<nat>, p: Item -> bool)
    requires Picks(items, rows, at, p) && p(it)
    ensures Picks(items + [it], rows + [it], at + [|items|], p)
  {
    var all, places := items + [it], at + [|items|];
    assert places[|at|] == |items|;
    forall k | 0 <= k < |all| && p(all[k]) ensures k in places {
      if k < |items| { assert p(items[k]) && k in at; }
    }
  }

  lemma {:induction false} RowsPicked(items: seq<Item>, p: Item -> bool) returns (at: seq<nat>)
    ensures Picks(items, Rows(items, p), at, p)
  {
    if items == [] {
      at := [];
    } else {
      var n := |items| - 1;
      var before := RowsPicked(items[..n], p);
      assert items[..n] + [items[n]] == items;
      if p(items[n]) {
        PicksOne(items[..n], items[n], Rows(items[..n], p), before, p);
        at := before + [n];
      } else {
        PicksNone(items[..n], items[n], Rows(items[..n], p), before, p);
        at := before;
      }
    }
  }

  /** A self order has a line for every row that is sold, in their order. */
  lemma SelfLinesAreFor(o: Order) returns (at: seq<nat>)
    ensures |SelfLines(o)| == |Rows(o.items, SelfRow)| && Picks(o.items, Rows(o.items, SelfRow), at, Sold)
  {
    at := RowsPicked(o.items, SelfRow);
    forall it: Item ensures SelfRow(it) <==> Sold(it) {}
  }

  /** A purchase order has a line for every row that is bought, in their order. */
  lemma PoLinesAreFor(o: Order) returns (at: seq<nat>)
    ensures Picks(o.items, PoRows(o), at, it => Bought(o, it))
  {
    if i :| 0 <= i < |o.items| && IsRoot(o.items[i]) && o.items[i].ful.allocType != Unallocated {
      assert o.items[i] in o.items;
    }
    if it :| it in o.items && it.split == NoSplit && it.parent == 0 && it.ful.allocType != Unallocated {
      var i :| 0 <= i < |o.items| && o.items[i] == it;
      assert IsRoot(o.items[i]);
    }
    at := RowsPicked(o.items, it => PoRow(it, HasAllocatedRoot(o.items)));
  }

  // ---- how much a row weighs ----

  /** The row's total; else its price times quantity; else one yuan. */
  predicate Weighs(it: Item, w: int) {
    if it.total > 0 then w == it.total
    else if it.price * it.quantity > 0 then w == it.price * it.quantity
    else w == 100
  }

  lemma WeightsAre(rows: seq<Item>, ws: seq<int>)
    requires |ws| == |rows| && forall i :: 0 <= i < |rows| ==> rows[i].quantity > 0 && Weighs(rows[i], ws[i])
    ensures ws == Weights(rows) && Positive(ws)
  {
    forall i | 0 <= i < |rows| ensures ws[i] == Weights(rows)[i] {}
    WeightsPositive(rows);
  }

  /** What was paid, or the order's total where nothing is recorded as paid. */
  function Paid(o: Order): int {
    if o.pay > 0 then o.pay else o.total
  }

  /** The amount is the payment's share by weight, to half a cent; the last line has the rest. */
  ghost predicate ShareOf(pay: int, ws: seq<int>, i: nat, amount: int)
    requires i < |ws|
  {
    i < |ws| - 1 ==> -Sum(ws) < 2 * (Sum(ws) * amount) - 2 * (pay * ws[i]) <= Sum(ws)
  }

  /** A share of a total by quantity, never below zero. */
  ghost predicate SharedOut(total: int, rows: seq<Item>, i: nat, amount: int)
    requires i < |rows|
  {
    amount >= 0 && ShareOf(total, seq(|rows|, k requires 0 <= k < |rows| => rows[k].quantity), i, amount)
  }

  /** The unit price times the quantity is the amount, to half a cent a piece. */
  predicate UnitOf(unit: int, qty: int, amount: int) {
    -qty < 2 * (qty * unit) - 2 * amount <= qty
  }

  /** So the self lines of an order sum to what was paid, or to one cent more. */
  lemma SelfLinesSum(o: Order)
    requires SelfLines(o) != []
    ensures Sum(Amounts(SelfLines(o))) in {Paid(o), Paid(o) + 1}
  {
    SelfLinesConserve(o);
  }

  lemma LineForIs(row: Item, amount: int, bought: int)
    requires row.quantity > 0 && amount >= 0
    ensures var l := LineFor(row, amount, bought);
      l.itemId == row.id && l.qty == row.quantity && l.amount == amount && UnitOf(l.unit, l.qty, amount)
  {
    RoundMoneyIs(amount, row.quantity);
  }

  /** One line of a self order: its row's key and quantity, its share of the payment and its unit price. */
  lemma SelfLineIs(o: Order, i: nat, ws: seq<int>)
    requires i < |SelfLines(o)| && Paid(o) >= 0
    requires var rows := Rows(o.items, SelfRow); |ws| == |rows| && forall k :: 0 <= k < |rows| ==>
      Weighs(rows[k], ws[k])
    ensures var rows, l := Rows(o.items, SelfRow), SelfLines(o)[i];
      && |SelfLines(o)| == |rows| && l.itemId == rows[i].id && l.qty == rows[i].quantity && l.purchaseUnit == 0
      && ShareOf(Paid(o), ws, i, l.amount) && (l.amount >= 0 ==> UnitOf(l.unit, l.qty, l.amount))
  {
    var rows := Rows(o.items, SelfRow);
    var at := RowsPicked(o.items, SelfRow);
    WeightsAre(rows, ws);
    WeightsPositive(rows);
    if i < |ws| - 1 { ShareError(Paid(o), ws, i); }
    if SelfLines(o)[i].amount >= 0 { LineForIs(rows[i], SelfLines(o)[i].amount, 0); }
  }

  /** One line of a purchase order: likewise, never below zero, and where a purchase total is named, the unit price
      of that total's share by quantity. */
  lemma BoughtLineIs(o: Order, purchaseTotal: Option<int>, out: seq<MoneyLine>, i: nat, ws: seq<int>)
    requires Paid(o) >= 0 && (purchaseTotal.Some? ==> purchaseTotal.value >= 0)
    requires var rows := PoRows(o);
      |ws| == |rows| && i < |rows| && forall k :: 0 <= k < |rows| ==> Weighs(rows[k], ws[k])
    requires Sum(Weights(PoRows(o))) > 0 && Sum(Money.Quantities(PoRows(o))) > 0
    requires PoLinesOf(PoRows(o), Clamped(Shares(Payment(o), Weights(PoRows(o)))), purchaseTotal, out)
    ensures var rows, l := PoRows(o), out[i];
      && l.itemId == rows[i].id && l.qty == rows[i].quantity && l.amount >= 0
      && ShareOf(Paid(o), ws, i, l.amount) && UnitOf(l.unit, l.qty, l.amount)
      && (purchaseTotal.None? ==> l.purchaseUnit == 0)
      && (purchaseTotal.Some? ==>
          exists amount :: SharedOut(purchaseTotal.value, rows, i, amount) && UnitOf(l.purchaseUnit, l.qty, amount))
  {
    var rows := PoRows(o);
    PoRowsSold(o);
    WeightsAre(rows, ws);
    if i < |ws| - 1 { ShareError(Paid(o), ws, i); }
    LineForIs(rows[i], out[i].amount, out[i].purchaseUnit);
    if purchaseTotal.Some? { BuyingPriceIs(rows, purchaseTotal.value, i); }
  }

  lemma PoRowsSold(o: Order)
    ensures forall k :: 0 <= k < |PoRows(o)| ==> PoRows(o)[k].quantity > 0
  {
    var at := RowsPicked(o.items, it => PoRow(it, HasAllocatedRoot(o.items)));
  }

  lemma BuyingPriceIs(rows: seq<Item>, total: int, i: nat)
    requires total >= 0 && i < |rows| && Sum(Money.Quantities(rows)) > 0
    requires forall k :: 0 <= k < |rows| ==> rows[k].quantity > 0
    ensures exists amount ::
      SharedOut(total, rows, i, amount) && UnitOf(BuyingPrice(rows, Some(total), i), rows[i].quantity, amount)
  {
    var qs := seq(|rows|, k requires 0 <= k < |rows| => rows[k].quantity);
    assert qs == Money.Quantities(rows);
    WeightsPositive(rows);
    var amount := Clamped(Shares(total, qs))[i];
    if i < |qs| - 1 { ShareError(total, qs, i); }
    RoundMoneyIs(amount, rows[i].quantity);
    assert SharedOut(total, rows, i, amount);
  }
}
