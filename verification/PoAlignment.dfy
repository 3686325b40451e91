/** Keeping the dropship purchase orders of a sales order on the ones the supply
    system still has open. The list of live purchase orders is an input. */
module PoAlignment {
  import opened OrderModel

  /** The non-empty values, each once, in order of first appearance. */
  function Unique(list: seq<string>): seq<string> {
    if list == [] then []
    else
      var n := |list| - 1;
      var before := Unique(list[..n]);
      if list[n] == "" || list[n] in before then before else before + [list[n]]
  }

  lemma {:induction false} UniqueIs(list: seq<string>)
    ensures forall p :: p in Unique(list) <==> p != "" && p in list
    ensures forall i, j :: 0 <= i < j < |Unique(list)| ==> Unique(list)[i] != Unique(list)[j]
  {
    if list != [] {
      var n := |list| - 1;
      UniqueIs(list[..n]);
      assert list == list[..n] + [list[n]];
    }
  }

  function DropshipPos(items: seq<Item>): seq<string> {
    if items == [] then []
    else
      var n := |items| - 1;
      var before := DropshipPos(items[..n]);
      if items[n].ful.allocType == Dropship then before + [items[n].ful.poNo] else before
  }

  lemma {:induction false} DropshipPosAre(items: seq<Item>)
    ensures forall p ::
      p in DropshipPos(items) <==> exists it :: it in items && it.ful.allocType == Dropship && it.ful.poNo == p
  {
    if items != [] {
      var n := |items| - 1;
      DropshipPosAre(items[..n]);
      assert items == items[..n] + [items[n]];
    }
  }

  /** The purchase orders the order refers to: the header's, then those of its dropship rows. */
  function OrderPos(o: Order): seq<string> {
    Unique([o.head.poNo] + DropshipPos(o.items))
  }

  lemma OrderPosAre(o: Order)
    ensures forall p :: p in OrderPos(o) <==>
      p != "" && (p == o.head.poNo || exists it :: it in o.items && it.ful.allocType == Dropship && it.ful.poNo == p)
  {
    UniqueIs([o.head.poNo] + DropshipPos(o.items));
    DropshipPosAre(o.items);
  }

  function FirstLive(pos: seq<string>, live: seq<string>): Option<string> {
    if pos == [] then None
    else
      var n := |pos| - 1;
      var before := FirstLive(pos[..n], live);
      if before.Some? then before else if pos[n] in live then Some(pos[n]) else None
  }

  predicate AnyStale(pos: seq<string>, live: seq<string>) {
    exists k :: 0 <= k < |pos| && pos[k] !in live
  }

  /** Where to relink, if the order must be: to a live purchase order it already has, else to the first live one. */
  function PickLive(orderPos: seq<string>, livePos: seq<string>): Option<string> {
    var live, pos := Unique(livePos), Unique(orderPos);
    if live == [] then None
    else if FirstLive(pos, live).None? then Some(live[0])
    else if AnyStale(pos, live) then FirstLive(pos, live)
    else None
  }

  /** A purchase order that must move to the target. */
  predicate Loose(po: string, live: seq<string>) {
    po == "" || po !in live
  }

  function RelinkedRows(items: seq<Item>, target: string, live: seq<string>): (s: seq<Item>)
    ensures |s| == |items|
    ensures forall i :: 0 <= i < |s| ==> s[i] == RelinkedRow(items[i], target, live)
  {
    seq(|items|, i requires 0 <= i < |items| => RelinkedRow(items[i], target, live))
  }

  function RelinkedRow(it: Item, target: string, live: seq<string>): Item {
    if IsRoot(it) && it.ful.allocType == Dropship && Loose(it.ful.poNo, live) then
      it.(ful := it.ful.(poNo := target))
    else it
  }

  function Relinked(o: Order, target: string, live: seq<string>): Order {
    o.(head := if Loose(o.head.poNo, live) then o.head.(poNo := target) else o.head,
       items := RelinkedRows(o.items, target, live))
  }

  /** Nothing is live: the header's purchase order is forgotten, unless the order is finished or shipped
      or the supply system still lists that purchase order (`known`), be it cancelled. */
  predicate Stale(o: Order, known: bool) {
    && o.head.poNo != "" && !known
    && o.head.shipStatus != Shipped && o.status != Completed && o.status != Closed
  }

  function ForgottenRows(items: seq<Item>, poNo: string): (s: seq<Item>)
    ensures |s| == |items|
    ensures forall i :: 0 <= i < |s| ==> s[i] == ForgottenRow(items[i], poNo)
  {
    seq(|items|, i requires 0 <= i < |items| => ForgottenRow(items[i], poNo))
  }

  function ForgottenRow(it: Item, poNo: string): Item {
    if it.ful.allocType == Dropship && it.ful.poNo == poNo then it.(ful := it.ful.(poNo := "")) else it
  }

  function WithoutStale(o: Order, known: bool): Order {
    if Stale(o, known) then o.(head := o.head.(poNo := ""), items := ForgottenRows(o.items, o.head.poNo)) else o
  }

  function AlignOrder(o: Order, livePos: seq<string>, known: bool): Order {
    match PickLive(OrderPos(o), livePos)
    case Some(target) => Relinked(o, target, Unique(livePos))
    case None => if Unique(livePos) != [] then o else WithoutStale(o, known)
  }

  // ---- convergence ----

  lemma {:induction false} FirstLiveIs(pos: seq<string>, live: seq<string>)
    ensures FirstLive(pos, live).Some? ==> FirstLive(pos, live).value in pos && FirstLive(pos, live).value in live
    ensures FirstLive(pos, live).None? <==> forall p :: p in pos ==> p !in live
  {
    if pos != [] {
      var n := |pos| - 1;
      FirstLiveIs(pos[..n], live);
      assert pos == pos[..n] + [pos[n]];
    }
  }

  lemma {:induction false} UniqueTwice(list: seq<string>)
    ensures Unique(Unique(list)) == Unique(list)
  {
    if list != [] {
      var n := |list| - 1;
      UniqueTwice(list[..n]);
      var before := Unique(list[..n]);
      if Unique(list) != before {
        assert Unique(list)[..|before|] == before;
      }
    }
  }

  lemma {:induction false} TargetIsLive(pos: seq<string>, livePos: seq<string>)
    ensures PickLive(pos, livePos).Some? ==>
      PickLive(pos, livePos).value in Unique(livePos) && PickLive(pos, livePos).value != ""
  {
    FirstLiveIs(Unique(pos), Unique(livePos));
    UniqueIs(livePos);
    if Unique(livePos) != [] { assert Unique(livePos)[0] in Unique(livePos); }
  }

  /** After a relink the header and every dropship root are on live purchase orders,
      and whatever already was on a live one has not moved. */
  lemma {:induction false} RelinkMakesLive(o: Order, livePos: seq<string>, known: bool)
    requires PickLive(OrderPos(o), livePos).Some?
    ensures var p, live := AlignOrder(o, livePos, known), Unique(livePos);
      && |p.items| == |o.items|
      && p.head.poNo in live
      && (o.head.poNo in live ==> p.head == o.head)
      && (forall i :: 0 <= i < |p.items| && IsRoot(p.items[i]) && p.items[i].ful.allocType == Dropship ==>
          p.items[i].ful.poNo in live)
      && (forall i :: 0 <= i < |p.items| && o.items[i].ful.poNo in live ==> p.items[i] == o.items[i])
  {
    TargetIsLive(OrderPos(o), livePos);
    UniqueIs(livePos);
  }

  /** Aligning again with the same live list changes nothing. */
  lemma AlignIsIdempotent(o: Order, livePos: seq<string>, known: bool)
    ensures AlignOrder(AlignOrder(o, livePos, known), livePos, known) == AlignOrder(o, livePos, known)
  {
    var p := AlignOrder(o, livePos, known);
    if PickLive(OrderPos(o), livePos).Some? {
      RelinkMakesLive(o, livePos, known);
      UniqueIs(livePos);
      if PickLive(OrderPos(p), livePos).Some? {
        var target, live := PickLive(OrderPos(p), livePos).value, Unique(livePos);
        forall i | 0 <= i < |p.items| ensures RelinkedRow(p.items[i], target, live) == p.items[i] {
        }
        assert RelinkedRows(p.items, target, live) == p.items;
      }
    }
  }

  /** After a relink, another one is asked for exactly when a row that is no root, which relinking
      leaves alone, still refers to a purchase order that is not live. */
  lemma {:induction false} RelinkOnce(o: Order, livePos: seq<string>, known: bool)
    requires PickLive(OrderPos(o), livePos).Some?
    ensures PickLive(OrderPos(AlignOrder(o, livePos, known)), livePos).Some?
       <==> exists it :: it in o.items && !IsRoot(it) && it.ful.allocType == Dropship
                         && it.ful.poNo != "" && it.ful.poNo !in Unique(livePos)
  {
    var p, live := AlignOrder(o, livePos, known), Unique(livePos);
    RelinkMakesLive(o, livePos, known);
    AsksAgain(p, livePos);
    OthersKept(o.items, PickLive(OrderPos(o), livePos).value, live);
    forall it | it in p.items && IsRoot(it) && it.ful.allocType == Dropship ensures it.ful.poNo in live {
      var i :| 0 <= i < |p.items| && p.items[i] == it;
    }
    assert forall it :: StrayPo(it, live) && it in p.items ==> !IsRoot(it);
    assert forall it :: !IsRoot(it) && it in o.items ==>
      (StrayPo(it, live) <==> it.ful.allocType == Dropship && it.ful.poNo != "" && it.ful.poNo !in live);
  }

  lemma OthersKept(items: seq<Item>, target: string, live: seq<string>)
    ensures forall it :: !IsRoot(it) ==> (it in RelinkedRows(items, target, live) <==> it in items)
  {
    var after := RelinkedRows(items, target, live);
    forall it | !IsRoot(it) ensures it in after <==> it in items {
      if it in after {
        var i :| 0 <= i < |after| && after[i] == it;
        assert items[i] in items;
      }
      if it in items {
        var i :| 0 <= i < |items| && items[i] == it;
        assert after[i] in after;
      }
    }
  }

  predicate StrayPo(it: Item, live: seq<string>) {
    it.ful.allocType == Dropship && it.ful.poNo != "" && it.ful.poNo !in live
  }

  /** With the header on a live purchase order, a relink is asked for exactly when some dropship row is not. */
  lemma {:induction false} AsksAgain(p: Order, livePos: seq<string>)
    requires p.head.poNo in Unique(livePos)
    ensures PickLive(OrderPos(p), livePos).Some? <==> exists it :: it in p.items && StrayPo(it, Unique(livePos))
  {
    var live, pos := Unique(livePos), OrderPos(p);
    UniqueIs(livePos);
    OrderPosAre(p);
    UniqueTwice([p.head.poNo] + DropshipPos(p.items));
    FirstLiveIs(pos, live);
    assert p.head.poNo in pos;
    if AnyStale(pos, live) {
      var k :| 0 <= k < |pos| && pos[k] !in live;
      assert pos[k] in pos;
    }
    if it :| it in p.items && StrayPo(it, live) {
      assert it.ful.poNo in pos;
      var k :| 0 <= k < |pos| && pos[k] == it.ful.poNo;
      assert AnyStale(pos, live);
    }
  }

  /** With no live purchase order, a stale header reference goes together with every dropship row's copy
      of it, and nothing else changes; one that is not stale stays. */
  lemma StaleReferenceGoes(o: Order, known: bool, i: nat)
    requires i < |o.items|
    ensures var p := AlignOrder(o, [], known); var was := o.items[i];
      && p == o.(head := o.head.(poNo := p.head.poNo), items := p.items) && |p.items| == |o.items|
      && p.items[i] == was.(ful := was.ful.(poNo := p.items[i].ful.poNo))
      && (p.head.poNo == o.head.poNo <==> !Stale(o, known))
      && (Stale(o, known) ==> p.head.poNo == "" && o.head.poNo !in OrderPos(p))
      && (p.items[i] != was <==> Stale(o, known) && was.ful.allocType == Dropship && was.ful.poNo == o.head.poNo)
  {
    assert Unique([]) == [];
    var p := AlignOrder(o, [], known);
    OrderPosAre(p);
    forall it | it in p.items && Stale(o, known) && it.ful.allocType == Dropship ensures it.ful.poNo != o.head.poNo {
      var k :| 0 <= k < |p.items| && p.items[k] == it;
    }
  }

  // ---- the loops ----

  method UniqueNonEmptyStrings(list: seq<string>) returns (out: seq<string>)
    ensures out == Unique(list)
  {
    var seen: set<string> := {};
    out := [];
    for k := 0 to |list|
      invariant out == Unique(list[..k])
      invariant forall p :: p in seen <==> p in out
    {
      assert list[..k + 1][..k] == list[..k];
      if list[k] == "" {
        continue;
      }
      if list[k] in seen {
        continue;
      }
      seen := seen + {list[k]};
      out := out + [list[k]];
    }
    assert list[..|list|] == list;
  }

  method OrderDropshipPONos(o: Order) returns (out: seq<string>)
    ensures out == OrderPos(o)
  {
    var all := [o.head.poNo];
    for i := 0 to |o.items|
      invariant all == [o.head.poNo] + DropshipPos(o.items[..i])
    {
      assert o.items[..i + 1][..i] == o.items[..i];
      if o.items[i].ful.allocType == Dropship {
        all := all + [o.items[i].ful.poNo];
      }
    }
    assert o.items[..|o.items|] == o.items;
    out := UniqueNonEmptyStrings(all);
  }

  method PickLiveDropshipPO(orderPos: seq<string>, livePos: seq<string>) returns (target: Option<string>)
    ensures target == PickLive(orderPos, livePos)
  {
    var live := UniqueNonEmptyStrings(livePos);
    if |live| == 0 {
      return None;
    }
    var pos := UniqueNonEmptyStrings(orderPos);
    var matched: Option<string> := None;
    var stale := false;
    for k := 0 to |pos|
      invariant matched == FirstLive(pos[..k], live)
      invariant stale <==> exists j :: 0 <= j < k && pos[j] !in live
    {
      assert pos[..k + 1][..k] == pos[..k];
      if pos[k] in live {
        if matched.None? {
          matched := Some(pos[k]);
        }
      } else {
        stale := true;
      }
    }
    assert pos[..|pos|] == pos;
    if matched.None? {
      return Some(live[0]);
    }
    return if stale then matched else None;
  }

  /** One order whose purchase-order references are kept live. */
  class PoKeeper {
    var order: Order

    constructor (o: Order)
      ensures order == o
    {
      order := o;
    }

    /** Relink to a live purchase order, or forget a stale one when there is none. */
    method AlignDropshipPORef(livePos: seq<string>, known: bool)
      modifies this
      ensures order == AlignOrder(old(order), livePos, known)
    {
      var pos := OrderDropshipPONos(order);
      var target := PickLiveDropshipPO(pos, livePos);
      if target.Some? {
        var live := UniqueNonEmptyStrings(livePos);
        TargetIsLive(pos, livePos);
        RelinkDropshipItemsToLivePO(target.value, live);
        return;
      }
      var live := UniqueNonEmptyStrings(livePos);
      if |live| > 0 {
        return;
      }
      ClearStalePurchaseOrderRef(known);
    }

    method ClearStalePurchaseOrderRef(known: bool)
      modifies this
      ensures order == WithoutStale(old(order), known)
    {
      var o, poNo := order, order.head.poNo;
      if poNo == "" {
        return;
      }
      if o.head.shipStatus == Shipped || o.status == Completed || o.status == Closed {
        return;
      }
      if known {
        return;
      }
      order := order.(head := o.head.(poNo := ""));
      var items := o.items;
      for i := 0 to |o.items|
        invariant |items| == |o.items| && order == o.(head := o.head.(poNo := ""))
        invariant forall j :: 0 <= j < i ==> items[j] == ForgottenRow(o.items[j], poNo)
        invariant forall j :: i <= j < |o.items| ==> items[j] == o.items[j]
      {
        if items[i].ful.allocType != Dropship {
          continue;
        }
        if items[i].ful.poNo != poNo {
          continue;
        }
        items := items[i := items[i].(ful := items[i].ful.(poNo := ""))];
      }
      assert items == ForgottenRows(o.items, poNo);
      order := order.(items := items);
    }

    method RelinkDropshipItemsToLivePO(target: string, live: seq<string>)
      requires target != "" && target in live
      modifies this
      ensures order == Relinked(old(order), target, live)
    {
      var o := order;
      if o.head.poNo != target {
        if o.head.poNo !in live || o.head.poNo == "" {
          order := order.(head := o.head.(poNo := target));
        }
      }
      var items := RelinkRows(order.items, target, live);
      order := order.(items := items);
    }
  }

  /** Point the dropship roots that have no live purchase order at the target. */
  method RelinkRows(given: seq<Item>, target: string, live: seq<string>) returns (items: seq<Item>)
    requires target != "" && target in live
    ensures items == RelinkedRows(given, target, live)
  {
    items := given;
    for i := 0 to |given|
      invariant |items| == |given|
      invariant forall j :: 0 <= j < i ==> items[j] == RelinkedRow(given[j], target, live)
      invariant forall j :: i <= j < |given| ==> items[j] == given[j]
    {
      var it := items[i];
      if it.split != NoSplit || it.parent > 0 || it.ful.allocType != Dropship {
        continue;
      }
      if it.ful.poNo == target {
        continue;
      }
      if it.ful.poNo != "" {
        if it.ful.poNo in live {
          continue;
        }
      }
      items := items[i := it.(ful := it.ful.(poNo := target))];
    }
  }
}
