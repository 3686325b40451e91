/** Splitting what the buyer paid over the lines of a self order or a purchase
    order: proportional shares rounded to the cent, the rest on the last line.
    Amounts are integer cents and shares exact ratios. */
module Money {
  import opened OrderModel
  import Rollup

  /** Conversion to an integer drops the fraction, towards zero. */
  function TruncDiv(n: int, d: int): int
    requires d > 0
  {
    if n >= 0 then n / d else -((-n) / d)
  }

  /** roundMoney of n/d cents: add half a cent, then drop the fraction. */
  function RoundMoney(n: int, d: int): int
    requires d > 0
  {
    TruncDiv(2 * n + d, 2 * d)
  }

  /** Half-up rounding above minus half a cent; below that the truncation rounds up by up to a cent and a half. */
  lemma RoundMoneyIs(n: int, d: int)
    requires d > 0
    ensures 2 * n + d >= 0 ==> -d < 2 * (d * RoundMoney(n, d)) - 2 * n <= d
    ensures 2 * n + d < 0 ==> d <= 2 * (d * RoundMoney(n, d)) - 2 * n < 3 * d
    ensures n >= 0 ==> RoundMoney(n, d) >= 0
  {
    var r := RoundMoney(n, d);
    if 2 * n + d >= 0 {
      var q, m := (2 * n + d) / (2 * d), (2 * n + d) % (2 * d);
      assert 2 * n + d == 2 * d * q + m;
      assert r == q && 2 * d * q == 2 * (d * q);
    } else {
      var q, m := (-(2 * n + d)) / (2 * d), (-(2 * n + d)) % (2 * d);
      assert -(2 * n + d) == 2 * d * q + m;
      assert r == -q && 2 * d * q == 2 * (d * q) && d * r == -(d * q);
    }
    if n >= 0 { NonNegativeQuotient(2 * n + d, 2 * d); }
  }

  lemma NonNegativeQuotient(n: int, d: int)
    requires n >= 0 && d > 0
    ensures n / d >= 0
  {
  }

  /** On whole cents rounding is exact, except that a negative amount comes out one cent higher. */
  lemma RoundWholeCents(n: int)
    ensures RoundMoney(n, 1) == if n >= 0 then n else n + 1
  {
  }

  function Sum(xs: seq<int>): int {
    if xs == [] then 0 else Sum(xs[..|xs| - 1]) + xs[|xs| - 1]
  }

  /** The shares of all lines but the last. */
  function Leading(pay: int, ws: seq<int>, whole: int): (s: seq<int>)
    requires whole > 0 && |ws| > 0
    ensures |s| == |ws| - 1
    ensures forall i :: 0 <= i < |s| ==> s[i] == RoundMoney(pay * ws[i], whole)
  {
    seq(|ws| - 1, i requires 0 <= i < |ws| - 1 => RoundMoney(pay * ws[i], whole))
  }

  /** What the last line is asked to absorb. */
  function Remainder(pay: int, ws: seq<int>, whole: int): int
    requires whole > 0 && |ws| > 0
  {
    pay - Sum(Leading(pay, ws, whole))
  }

  function Shares(pay: int, ws: seq<int>): seq<int>
    requires Sum(ws) > 0
  {
    if ws == [] then [] else Leading(pay, ws, Sum(ws)) + [RoundMoney(Remainder(pay, ws, Sum(ws)), 1)]
  }

  function Clamped(xs: seq<int>): (s: seq<int>)
    ensures |s| == |xs| && forall i :: 0 <= i < |s| ==> s[i] == if xs[i] < 0 then 0 else xs[i]
  {
    seq(|xs|, i requires 0 <= i < |xs| => if xs[i] < 0 then 0 else xs[i])
  }

  ghost predicate Positive(ws: seq<int>) {
    forall i :: 0 <= i < |ws| ==> ws[i] > 0
  }

  lemma {:induction false} PositiveSum(ws: seq<int>)
    requires Positive(ws)
    ensures Sum(ws) >= |ws|
  {
    if ws != [] { PositiveSum(ws[..|ws| - 1]); }
  }

  // ---- conservation ----

  lemma {:induction false} SumLast(xs: seq<int>, x: int)
    ensures Sum(xs + [x]) == Sum(xs) + x
  {
    assert (xs + [x])[..|xs|] == xs;
  }

  /** The self-order lines add up to the payment exactly when the last line's remainder is not
      negative; otherwise they add up to one cent more. This holds for every payment and weighting. */
  lemma {:induction false} SharesConserve(pay: int, ws: seq<int>)
    requires ws != [] && Sum(ws) > 0
    ensures Sum(Shares(pay, ws)) == if Remainder(pay, ws, Sum(ws)) >= 0 then pay else pay + 1
  {
    var r := Remainder(pay, ws, Sum(ws));
    RoundWholeCents(r);
    SumLast(Leading(pay, ws, Sum(ws)), RoundMoney(r, 1));
  }

  /** Every line but the last is within half a cent of its proportional share. */
  lemma {:induction false} ShareError(pay: int, ws: seq<int>, i: nat)
    requires Positive(ws) && pay >= 0 && i < |ws| - 1
    ensures Sum(ws) > 0
    ensures var w := Sum(ws); -w < 2 * (w * Shares(pay, ws)[i]) - 2 * (pay * ws[i]) <= w
    ensures Shares(pay, ws)[i] >= 0
  {
    PositiveSum(ws);
    NonNegativeProduct(pay, ws[i]);
    var w, share := Sum(ws), pay * ws[i];
    assert Shares(pay, ws)[i] == RoundMoney(share, w);
    RoundMoneyIs(share, w);
  }

  lemma DriftStep(whole: int, pay: int, s: int, x: int, t: int, w: int, k: int)
    requires -(k * whole) <= 2 * (whole * s) - 2 * (pay * t) <= k * whole
    requires -whole < 2 * (whole * x) - 2 * (pay * w) <= whole
    ensures -((k + 1) * whole) <= 2 * (whole * (s + x)) - 2 * (pay * (t + w)) <= (k + 1) * whole
  {
    assert whole * (s + x) == whole * s + whole * x;
    assert pay * (t + w) == pay * t + pay * w;
    assert (k + 1) * whole == k * whole + whole;
  }

  /** The leading shares drift from their proportional sum by at most half a cent each. */
  lemma {:induction false} LeadingDrift(pay: int, ws: seq<int>, whole: int, k: nat)
    requires Positive(ws) && pay >= 0 && whole > 0 && k < |ws|
    ensures var s, t := Sum(Leading(pay, ws, whole)[..k]), Sum(ws[..k]);
      -(k * whole) <= 2 * (whole * s) - 2 * (pay * t) <= k * whole
  {
    var lead := Leading(pay, ws, whole);
    if k == 0 {
      assert lead[..0] == [] && ws[..0] == [];
    } else {
      var n := k - 1;
      LeadingDrift(pay, ws, whole, n);
      SumLast(lead[..n], lead[n]);
      SumLast(ws[..n], ws[n]);
      assert lead[..k] == lead[..n] + [lead[n]] && ws[..k] == ws[..n] + [ws[n]];
      NonNegativeProduct(pay, ws[n]);
      RoundMoneyIs(pay * ws[n], whole);
      DriftStep(whole, pay, Sum(lead[..n]), lead[n], Sum(ws[..n]), ws[n], n);
    }
  }

  lemma NonNegativeProduct(a: int, b: int)
    requires a >= 0 && b >= 0
    ensures a * b >= 0
  {
  }

  /** w*pay splits over the leading and the last weight, so the remainder drifts as the leading shares do. */
  lemma RemainderArithmetic(pay: int, s: int, t: int, last: int, k: int, w: int, r: int)
    requires w == t + last && r == pay - s
    requires -(k * w) <= 2 * (w * s) - 2 * (pay * t) <= k * w
    ensures -(k * w) <= 2 * (w * r) - 2 * (pay * last) <= k * w
  {
    assert w * r == w * pay - w * s;
    assert w * pay == pay * t + pay * last;
  }

  /** The remainder stays within half a cent per leading line of the last line's own share. */
  lemma {:induction false} RemainderDrift(pay: int, ws: seq<int>)
    requires Positive(ws) && ws != [] && pay >= 0
    ensures Sum(ws) > 0
    ensures Drift(pay, ws[|ws| - 1], |ws| - 1, Sum(ws), Remainder(pay, ws, Sum(ws)))
  {
    PositiveSum(ws);
    var w, k := Sum(ws), |ws| - 1;
    LeadingDrift(pay, ws, w, k);
    var lead := Leading(pay, ws, w);
    assert lead[..k] == lead;
    RemainderArithmetic(pay, Sum(lead[..k]), Sum(ws[..k]), ws[k], k, w, Remainder(pay, ws, w));
  }

  /** r is within k half cents of the share pay * last / w. */
  predicate Drift(pay: int, last: int, k: int, w: int, r: int) {
    -(k * w) <= 2 * (w * r) - 2 * (pay * last) <= k * w
  }

  lemma FactorSign(w: int, r: int)
    requires w > 0 && w * r >= 0
    ensures r >= 0
  {
    if r <= -1 {
      assert w * r <= w * -1 by { BoundedProduct(w, r, -1); }
    }
  }

  lemma BoundedProduct(w: int, a: int, b: int)
    requires w >= 0 && a <= b
    ensures w * a <= w * b
  {
    NonNegativeProduct(w, b - a);
    assert w * (b - a) == w * b - w * a;
  }

  /** The remainder is not negative once the last line's share is at least (n-1)/2 cents. */
  lemma {:induction false} EnoughOnLastLine(pay: int, ws: seq<int>)
    requires Positive(ws) && ws != [] && pay >= 0
    requires 2 * (pay * ws[|ws| - 1]) >= (|ws| - 1) * Sum(ws)
    ensures Sum(ws) > 0 && Remainder(pay, ws, Sum(ws)) >= 0
    ensures Sum(Shares(pay, ws)) == pay
  {
    RemainderDrift(pay, ws);
    FactorSign(Sum(ws), Remainder(pay, ws, Sum(ws)));
    SharesConserve(pay, ws);
  }

  lemma BoundByFactor(w: int, a: int, b: int)
    requires w > 0 && w * a <= w * b
    ensures a <= b
  {
    assert w * (b - a) == w * b - w * a;
    FactorSign(w, b - a);
  }

  /** Purchase-order lines never go below zero. They conserve the payment when the remainder allows;
      otherwise they exceed it by the shortfall, which is at most half a cent per leading line. */
  lemma {:induction false} ClampedConserve(pay: int, ws: seq<int>)
    requires Positive(ws) && ws != [] && pay >= 0
    ensures Sum(ws) > 0
    ensures var r := Remainder(pay, ws, Sum(ws)); var total := Sum(Clamped(Shares(pay, ws)));
      && total == (if r >= 0 then pay else pay - r)
      && 0 <= 2 * (total - pay) <= |ws| - 1
  {
    PositiveSum(ws);
    ShortfallBound(pay, ws);
    var lead, r := Leading(pay, ws, Sum(ws)), Remainder(pay, ws, Sum(ws));
    forall i | 0 <= i < |lead| ensures lead[i] >= 0 {
      ShareError(pay, ws, i);
      assert Shares(pay, ws)[i] == lead[i];
    }
    ClampedSum(lead, r);
  }

  lemma {:induction false} ClampedSum(lead: seq<int>, r: int)
    requires forall i :: 0 <= i < |lead| ==> lead[i] >= 0
    ensures Sum(Clamped(lead + [RoundMoney(r, 1)])) == Sum(lead) + if r >= 0 then r else 0
  {
    RoundWholeCents(r);
    var last := RoundMoney(r, 1);
    var clamped := if last < 0 then 0 else last;
    assert Clamped(lead + [last]) == lead + [clamped];
    SumLast(lead, clamped);
  }

  lemma {:induction false} ShortfallBound(pay: int, ws: seq<int>)
    requires Positive(ws) && ws != [] && pay >= 0
    ensures Sum(ws) > 0 && -2 * Remainder(pay, ws, Sum(ws)) <= |ws| - 1
  {
    RemainderDrift(pay, ws);
    PositiveSum(ws);
    DriftBelow(pay, ws[|ws| - 1], |ws| - 1, Sum(ws), Remainder(pay, ws, Sum(ws)));
  }

  lemma DriftBelow(pay: int, last: int, k: int, w: int, r: int)
    requires pay >= 0 && last >= 0 && w > 0 && Drift(pay, last, k, w, r)
    ensures -2 * r <= k
  {
    NonNegativeProduct(pay, last);
    assert w * (-2 * r) == -2 * (w * r);
    assert w * k == k * w;
    BoundByFactor(w, -2 * r, k);
  }

  /** The bad case is real: two cents over four equal lines come out as three, on either kind of order. */
  lemma TwoCentsOverFourLines()
    ensures Sum([1, 1, 1, 1]) == 4 && Shares(2, [1, 1, 1, 1]) == [1, 1, 1, 0]
    ensures Sum(Shares(2, [1, 1, 1, 1])) == 3
  {
    SumOfOnes();
    RoundHalf();
    RoundWholeCents(-1);
    assert Leading(2, [1, 1, 1, 1], 4) == [1, 1, 1];
    assert Shares(2, [1, 1, 1, 1]) == [1, 1, 1] + [0];
    SumLast([1, 1, 1], 0);
  }

  lemma SumOfOnes()
    ensures Sum([1, 1, 1]) == 3 && Sum([1, 1, 1, 1]) == 4
  {
    SumLast([], 1);
    SumLast([1], 1);
    SumLast([1, 1], 1);
    SumLast([1, 1, 1], 1);
    assert [1] == [] + [1] && [1, 1] == [1] + [1] && [1, 1, 1] == [1, 1] + [1] && [1, 1, 1, 1] == [1, 1, 1] + [1];
  }

  /** Half a cent rounds up. */
  lemma RoundHalf()
    ensures RoundMoney(2, 4) == 1
  {
  }

  // ---- the lines of an order ----

  datatype MoneyLine = MoneyLine(itemId: nat, qty: int, amount: int, unit: int, purchaseUnit: int)

  function LineQuantity(it: Item): int {
    if it.quantity <= 0 then 1 else it.quantity
  }

  /** The line total, else price times quantity, else one yuan. */
  function Weight(it: Item): int {
    var w := if it.total > 0 then it.total else it.price * LineQuantity(it);
    if w <= 0 then 100 else w
  }

  function Payment(o: Order): int {
    if o.pay <= 0 then o.total else o.pay
  }

  predicate SelfRow(it: Item) {
    it.split == NoSplit && !Excluded(it)
  }

  /** Once rows carry allocations, only the dropship ones are bought. */
  predicate PoRow(it: Item, lineAllocated: bool) {
    SelfRow(it) && (lineAllocated ==> it.ful.allocType == Dropship)
  }

  function Rows(items: seq<Item>, p: Item -> bool): seq<Item> {
    if items == [] then []
    else
      var n := |items| - 1;
      var before := Rows(items[..n], p);
      if p(items[n]) then before + [items[n]] else before
  }

  function Weights(rows: seq<Item>): (ws: seq<int>)
    ensures |ws| == |rows| && forall i :: 0 <= i < |ws| ==> ws[i] == Weight(rows[i]) > 0
  {
    seq(|rows|, i requires 0 <= i < |rows| => Weight(rows[i]))
  }

  function Quantities(rows: seq<Item>): (ws: seq<int>)
    ensures |ws| == |rows| && forall i :: 0 <= i < |ws| ==> ws[i] == LineQuantity(rows[i]) > 0
  {
    seq(|rows|, i requires 0 <= i < |rows| => LineQuantity(rows[i]))
  }

  lemma WeightsPositive(rows: seq<Item>)
    ensures Positive(Weights(rows)) && Positive(Quantities(rows))
    ensures rows != [] ==> Sum(Weights(rows)) > 0 && Sum(Quantities(rows)) > 0
  {
    PositiveSum(Weights(rows));
    PositiveSum(Quantities(rows));
  }

  function Amounts(lines: seq<MoneyLine>): (s: seq<int>)
    ensures |s| == |lines| && forall i :: 0 <= i < |s| ==> s[i] == lines[i].amount
  {
    seq(|lines|, i requires 0 <= i < |lines| => lines[i].amount)
  }

  /** A line of `amount` cents for a row. */
  function LineFor(row: Item, amount: int, purchaseUnit: int): MoneyLine {
    MoneyLine(row.id, LineQuantity(row), amount, RoundMoney(amount, LineQuantity(row)), purchaseUnit)
  }

  function LinesFor(rows: seq<Item>, amounts: seq<int>): (s: seq<MoneyLine>)
    requires |amounts| == |rows|
    ensures |s| == |rows| && forall i :: 0 <= i < |s| ==> s[i] == LineFor(rows[i], amounts[i], 0)
  {
    seq(|rows|, i requires 0 <= i < |rows| => LineFor(rows[i], amounts[i], 0))
  }

  /** The unit price of line i when the purchase total is split by quantity. */
  function BuyingPrice(rows: seq<Item>, purchaseTotal: Option<int>, i: nat): int
    requires i < |rows| && (rows != [] ==> Sum(Quantities(rows)) > 0)
  {
    if purchaseTotal.None? then 0
    else RoundMoney(Clamped(Shares(purchaseTotal.value, Quantities(rows)))[i], LineQuantity(rows[i]))
  }

  method SelectRows(items: seq<Item>, p: Item -> bool) returns (rows: seq<Item>)
    ensures rows == Rows(items, p)
  {
    rows := [];
    for i := 0 to |items|
      invariant rows == Rows(items[..i], p)
    {
      assert items[..i + 1][..i] == items[..i];
      if p(items[i]) {
        rows := rows + [items[i]];
      }
    }
    assert items[..|items|] == items;
  }

  /** The weights of the rows, and their sum. */
  method ComputeWeights(rows: seq<Item>) returns (weights: array<int>, sumW: int)
    ensures fresh(weights) && weights[..] == Weights(rows) && sumW == Sum(Weights(rows))
  {
    weights := new int[|rows|];
    sumW := 0;
    for i := 0 to |rows|
      invariant weights[..i] == Weights(rows)[..i]
      invariant sumW == Sum(Weights(rows)[..i])
    {
      var it := rows[i];
      var w := it.total;
      if w <= 0 {
        var qty := it.quantity;
        if qty <= 0 {
          qty := 1;
        }
        w := it.price * qty;
      }
      if w <= 0 {
        w := 100;
      }
      weights[i] := w;
      sumW := sumW + w;
      assert Weights(rows)[..i + 1][..i] == Weights(rows)[..i];
    }
    assert Weights(rows)[..|rows|] == Weights(rows);
  }

  /** One line of the split: its share, or what is left if it is the last. */
  function ShareAt(pay: int, ws: seq<int>, whole: int, i: nat, handedOut: int): int
    requires whole > 0 && i < |ws|
  {
    if i == |ws| - 1 then RoundMoney(pay - handedOut, 1) else RoundMoney(pay * ws[i], whole)
  }

  lemma {:induction false} SharesStep(pay: int, ws: seq<int>, i: nat)
    requires Sum(ws) > 0 && i < |ws|
    ensures var lead, handedOut := Leading(pay, ws, Sum(ws)), Sum(Leading(pay, ws, Sum(ws))[..i]);
      && ShareAt(pay, ws, Sum(ws), i, handedOut) == Shares(pay, ws)[i]
      && (i < |ws| - 1 ==> Sum(lead[..i + 1]) == handedOut + Shares(pay, ws)[i])
  {
    var lead := Leading(pay, ws, Sum(ws));
    if i < |ws| - 1 {
      SumTo(lead, i);
      assert Shares(pay, ws)[i] == lead[i];
    } else {
      assert lead[..i] == lead;
    }
  }

  lemma SumTo(xs: seq<int>, i: nat)
    requires i < |xs|
    ensures Sum(xs[..i + 1]) == Sum(xs[..i]) + xs[i]
  {
    assert xs[..i + 1][..i] == xs[..i];
  }

  /** The split as the service walks it: a running total, the rest to the last line. */
  method Apportion(pay: int, weights: array<int>, sumW: int) returns (out: seq<int>)
    requires sumW == Sum(weights[..]) > 0
    ensures out == Shares(pay, weights[..])
  {
    ghost var ws := weights[..];
    ghost var lead := if ws == [] then [] else Leading(pay, ws, sumW);
    out := [];
    var handedOut := 0;
    for i := 0 to weights.Length
      invariant |out| == i && forall j :: 0 <= j < i ==> out[j] == Shares(pay, ws)[j]
      invariant i < weights.Length ==> handedOut == Sum(lead[..i])
    {
      SharesStep(pay, ws, i);
      var saleAmt: int;
      if i == weights.Length - 1 {
        saleAmt := RoundMoney(pay - handedOut, 1);
      } else {
        saleAmt := RoundMoney(pay * weights[i], sumW);
        handedOut := handedOut + saleAmt;
      }
      out := out + [saleAmt];
    }
  }

  function SelfLines(o: Order): seq<MoneyLine> {
    var rows := Rows(o.items, SelfRow);
    WeightsPositive(rows);
    if rows == [] then [] else LinesFor(rows, Shares(Payment(o), Weights(rows)))
  }

  /** The self-order lines: the payment split over the live rows, nothing clamped. */
  method MapOrderToSelfLines(o: Order) returns (out: seq<MoneyLine>)
    ensures out == SelfLines(o)
  {
    out := [];
    var rows := SelectRows(o.items, SelfRow);
    if |rows| == 0 {
      return;
    }
    var pay := o.pay;
    if pay <= 0 {
      pay := o.total;
    }
    WeightsPositive(rows);
    var weights, sumW := ComputeWeights(rows);
    var shares := Apportion(pay, weights, sumW);
    out := SelfLinesOf(rows, shares);
  }

  method SelfLinesOf(rows: seq<Item>, shares: seq<int>) returns (out: seq<MoneyLine>)
    requires |shares| == |rows|
    ensures out == LinesFor(rows, shares)
  {
    out := [];
    for i := 0 to |rows|
      invariant out == LinesFor(rows, shares)[..i]
    {
      out := out + [LineFor(rows[i], shares[i], 0)];
    }
  }

  /** The rows to buy. */
  function PoRows(o: Order): seq<Item> {
    Rows(o.items, it => PoRow(it, HasAllocatedRoot(o.items)))
  }

  ghost predicate PoLinesOf(rows: seq<Item>, amounts: seq<int>, purchaseTotal: Option<int>, out: seq<MoneyLine>)
    requires |amounts| == |rows| && (rows != [] ==> Sum(Quantities(rows)) > 0)
  {
    && |out| == |rows|
    && forall i :: 0 <= i < |out| ==> out[i] == LineFor(rows[i], amounts[i], BuyingPrice(rows, purchaseTotal, i))
  }

  /** The purchase-order lines: the payment split over the rows to buy, never below zero; and, when
      a remark names the purchase total, that total split by quantity into unit prices. */
  method MapOrderToPOLines(o: Order, purchaseTotal: Option<int>) returns (out: seq<MoneyLine>)
    ensures PoRows(o) == [] ==> out == []
    ensures PoRows(o) != [] ==> (
      && Sum(Weights(PoRows(o))) > 0 && Sum(Quantities(PoRows(o))) > 0
      && PoLinesOf(PoRows(o), Clamped(Shares(Payment(o), Weights(PoRows(o)))), purchaseTotal, out))
  {
    out := [];
    var lineAllocated := Rollup.OrderHasItemLevelAlloc(o.items);
    var rows := SelectRows(o.items, it => PoRow(it, lineAllocated));
    SameSelection(o.items, it => PoRow(it, lineAllocated), it => PoRow(it, HasAllocatedRoot(o.items)));
    if |rows| == 0 {
      return;
    }
    var pay := o.pay;
    if pay <= 0 {
      pay := o.total;
    }
    WeightsPositive(rows);
    var weights, sumW := ComputeWeights(rows);
    var shares := Apportion(pay, weights, sumW);
    var quantities, totalQty := ComputeQuantities(rows);
    out := PoLines(rows, shares, purchaseTotal, quantities, totalQty);
  }

  method PoLines(rows: seq<Item>, shares: seq<int>, purchaseTotal: Option<int>, quantities: array<int>, totalQty: int)
    returns (out: seq<MoneyLine>)
    requires |shares| == |rows| && rows != []
    requires quantities[..] == Quantities(rows) && totalQty == Sum(Quantities(rows)) > 0
    ensures PoLinesOf(rows, Clamped(shares), purchaseTotal, out)
  {
    out := [];
    var bought: seq<int> := [];
    if purchaseTotal.Some? {
      bought := Apportion(purchaseTotal.value, quantities, totalQty);
    }
    for i := 0 to |rows|
      invariant |out| == i
      invariant forall j :: 0 <= j < i ==>
        out[j] == LineFor(rows[j], Clamped(shares)[j], BuyingPrice(rows, purchaseTotal, j))
    {
      var saleAmt := shares[i];
      if saleAmt < 0 {
        saleAmt := 0;
      }
      var unitPrice := 0;
      if purchaseTotal.Some? {
        var lineAmt := bought[i];
        if lineAmt < 0 {
          lineAmt := 0;
        }
        unitPrice := RoundMoney(lineAmt, LineQuantity(rows[i]));
      }
      assert unitPrice == BuyingPrice(rows, purchaseTotal, i);
      out := out + [LineFor(rows[i], saleAmt, unitPrice)];
    }
  }

  /** The self order of any order: the amounts conserve the payment, up to the one known cent. */
  lemma SelfLinesConserve(o: Order)
    requires SelfLines(o) != []
    ensures var ws := Weights(Rows(o.items, SelfRow));
      && Sum(ws) > 0
      && Sum(Amounts(SelfLines(o))) == if Remainder(Payment(o), ws, Sum(ws)) >= 0 then Payment(o) else Payment(o) + 1
  {
    var rows := Rows(o.items, SelfRow);
    WeightsPositive(rows);
    assert Amounts(SelfLines(o)) == Shares(Payment(o), Weights(rows));
    SharesConserve(Payment(o), Weights(rows));
  }

  lemma {:induction false} SameSelection(items: seq<Item>, p: Item -> bool, q: Item -> bool)
    requires forall it :: it in items ==> p(it) == q(it)
    ensures Rows(items, p) == Rows(items, q)
  {
    if items != [] {
      SameSelection(items[..|items| - 1], p, q);
    }
  }

  method ComputeQuantities(rows: seq<Item>) returns (quantities: array<int>, total: int)
    ensures fresh(quantities) && quantities[..] == Quantities(rows) && total == Sum(Quantities(rows))
  {
    quantities := new int[|rows|];
    total := 0;
    for i := 0 to |rows|
      invariant quantities[..i] == Quantities(rows)[..i]
      invariant total == Sum(Quantities(rows)[..i])
    {
      var q := rows[i].quantity;
      if q <= 0 {
        q := 1;
      }
      quantities[i] := q;
      total := total + q;
      assert Quantities(rows)[..i + 1][..i] == Quantities(rows)[..i];
    }
    assert Quantities(rows)[..|rows|] == Quantities(rows);
  }
}
