/** What an alignment leaves of the purchase orders of an order, told on its rows
    and on the list of live ones. */
module PoOutcome {
  import opened OrderModel
  import opened PoAlignment

  /** Listed as live. */
  predicate IsLive(livePos: seq<string>, p: string) {
    p != "" && p in livePos
  }

  /** A purchase order of the header or of a dropship row. */
  predicate RefersTo(o: Order, p: string) {
    p != "" && (o.head.poNo == p || exists it :: it in o.items && it.ful.allocType == Dropship && it.ful.poNo == p)
  }

  ghost predicate SomeLive(livePos: seq<string>) {
    exists p :: IsLive(livePos, p)
  }

  ghost predicate OnLive(o: Order, livePos: seq<string>) {
    exists p :: RefersTo(o, p) && IsLive(livePos, p)
  }

  ghost predicate OnDead(o: Order, livePos: seq<string>) {
    exists p :: RefersTo(o, p) && !IsLive(livePos, p)
  }

  /** Row `i` is the first dropship row on a live purchase order. */
  predicate FirstOnLive(items: seq<Item>, livePos: seq<string>, i: int) {
    0 <= i < |items| && items[i].ful.allocType == Dropship && IsLive(livePos, items[i].ful.poNo)
    && forall j :: 0 <= j < i && items[j].ful.allocType == Dropship ==> !IsLive(livePos, items[j].ful.poNo)
  }

  predicate FirstListed(livePos: seq<string>, k: int) {
    0 <= k < |livePos| && livePos[k] != "" && forall j :: 0 <= j < k ==> livePos[j] == ""
  }

  /** The live purchase order everything goes to: the header's, or that of the first dropship row on one, or, if
      the order is on none, the first one listed. */
  ghost predicate Target(o: Order, livePos: seq<string>, t: string) {
    if !OnLive(o, livePos) then exists k :: FirstListed(livePos, k) && livePos[k] == t
    else if IsLive(livePos, o.head.poNo) then t == o.head.poNo
    else exists i :: FirstOnLive(o.items, livePos, i) && o.items[i].ful.poNo == t
  }

  // ---- first in the lists ----

  lemma {:induction false} FirstOfUnique(list: seq<string>, live: seq<string>)
    requires "" !in live
    ensures FirstLive(Unique(list), live) == FirstLive(list, live)
  {
    if list != [] {
      var n := |list| - 1;
      var before := Unique(list[..n]);
      FirstOfUnique(list[..n], live);
      FirstLiveIs(before, live);
      if Unique(list) != before { assert Unique(list)[..|before|] == before; }
    }
  }

  lemma {:induction false} FirstOfConcat(a: seq<string>, b: seq<string>, live: seq<string>)
    ensures FirstLive(a + b, live) == if FirstLive(a, live).Some? then FirstLive(a, live) else FirstLive(b, live)
  {
    if b == [] {
      assert a + b == a;
    } else {
      var n := |b| - 1;
      assert (a + b)[..|a| + n] == a + b[..n];
      FirstOfConcat(a, b[..n], live);
    }
  }

  lemma {:induction false} FirstOfRows(items: seq<Item>, livePos: seq<string>)
    ensures var first := FirstLive(DropshipPos(items), Unique(livePos));
      if first.Some? then exists i :: FirstOnLive(items, livePos, i) && items[i].ful.poNo == first.value
      else forall it :: it in items && it.ful.allocType == Dropship ==> !IsLive(livePos, it.ful.poNo)
  {
    if items != [] {
      var n := |items| - 1;
      var live, before := Unique(livePos), DropshipPos(items[..n]);
      UniqueIs(livePos);
      FirstOfRows(items[..n], livePos);
      assert items == items[..n] + [items[n]];
      LastRowFirst(items, live);
      if FirstLive(before, live).Some? {
        var i :| FirstOnLive(items[..n], livePos, i) && items[..n][i].ful.poNo == FirstLive(before, live).value;
        FirstStillOn(items, livePos, n, i);
      } else if FirstLive(DropshipPos(items), live).Some? {
        assert FirstOnLive(items, livePos, n);
      }
    }
  }

  lemma {:induction false} LastRowFirst(items: seq<Item>, live: seq<string>)
    requires items != []
    ensures var n := |items| - 1; var before := FirstLive(DropshipPos(items[..n]), live);
      FirstLive(DropshipPos(items), live)
      == if before.Some? then before
         else if items[n].ful.allocType == Dropship && items[n].ful.poNo in live then Some(items[n].ful.poNo)
         else None
  {
    var n := |items| - 1;
    if items[n].ful.allocType == Dropship {
      FirstOfConcat(DropshipPos(items[..n]), [items[n].ful.poNo], live);
      assert [items[n].ful.poNo][..0] == [];
    }
  }

  lemma FirstStillOn(items: seq<Item>, livePos: seq<string>, n: nat, i: int)
    requires n <= |items| && FirstOnLive(items[..n], livePos, i)
    ensures FirstOnLive(items, livePos, i)
  {
    forall j | 0 <= j < i ensures items[..n][j] == items[j] {}
  }

  lemma {:induction false} FirstOfList(livePos: seq<string>)
    ensures Unique(livePos) != [] ==> exists k :: FirstListed(livePos, k) && livePos[k] == Unique(livePos)[0]
    ensures Unique(livePos) == [] <==> !SomeLive(livePos)
  {
    UniqueIs(livePos);
    if Unique(livePos) == [] {
      forall p ensures !IsLive(livePos, p) { assert p !in Unique(livePos); }
    } else {
      assert Unique(livePos)[0] in Unique(livePos) && IsLive(livePos, Unique(livePos)[0]);
      FirstListedIs(livePos);
    }
  }

  lemma {:induction false} FirstListedIs(livePos: seq<string>)
    requires Unique(livePos) != []
    ensures exists k :: FirstListed(livePos, k) && livePos[k] == Unique(livePos)[0]
  {
    var n := |livePos| - 1;
    UniqueIs(livePos[..n]);
    if Unique(livePos[..n]) != [] {
      FirstListedIs(livePos[..n]);
      var k :| FirstListed(livePos[..n], k) && livePos[..n][k] == Unique(livePos[..n])[0];
      assert forall j :: 0 <= j < k ==> livePos[..n][j] == livePos[j];
      assert FirstListed(livePos, k);
    } else {
      forall j | 0 <= j < n ensures livePos[j] == "" {
        assert livePos[..n][j] in livePos[..n];
      }
      assert FirstListed(livePos, n);
    }
  }

  // ---- the target ----

  lemma PickedIs(o: Order, livePos: seq<string>)
    ensures PickLive(OrderPos(o), livePos).Some?
       <==> SomeLive(livePos) && (!OnLive(o, livePos) || OnDead(o, livePos))
    ensures PickLive(OrderPos(o), livePos).Some? ==> Target(o, livePos, PickLive(OrderPos(o), livePos).value)
  {
    var live, pos, list := Unique(livePos), OrderPos(o), [o.head.poNo] + DropshipPos(o.items);
    UniqueIs(livePos);
    OrderPosAre(o);
    UniqueTwice(list);
    FirstLiveIs(pos, live);
    FirstOfList(livePos);
    forall p ensures p in pos <==> RefersTo(o, p) {}
    assert FirstLive(pos, live).Some? <==> OnLive(o, livePos) by {
      if OnLive(o, livePos) { var p :| RefersTo(o, p) && IsLive(livePos, p); assert p in pos && p in live; }
    }
    StaleIs(o, livePos);
    FirstOfUnique(list, live);
    FirstOfConcat([o.head.poNo], DropshipPos(o.items), live);
    assert [o.head.poNo][..0] == [];
    FirstOfRows(o.items, livePos);
  }

  lemma {:induction false} StaleIs(o: Order, livePos: seq<string>)
    ensures AnyStale(OrderPos(o), Unique(livePos)) <==> OnDead(o, livePos)
  {
    var live, pos := Unique(livePos), OrderPos(o);
    UniqueIs(livePos);
    OrderPosAre(o);
    if k :| 0 <= k < |pos| && pos[k] !in live { assert pos[k] in pos && RefersTo(o, pos[k]); }
    if p :| RefersTo(o, p) && !IsLive(livePos, p) {
      assert p in pos;
      var k :| 0 <= k < |pos| && pos[k] == p;
    }
  }

  /** An order that is on no live purchase order, or on one that is not, while there are live ones, ends with the
      header and all its dropship roots on live ones: those that were stay, and the others go to the target. An
      order that is on live ones only, or that has none to go to, is as it was, but for a stale header reference. */
  lemma AlignedTo(o: Order, livePos: seq<string>, known: bool)
    ensures var p := AlignOrder(o, livePos, known);
      if SomeLive(livePos) && (!OnLive(o, livePos) || OnDead(o, livePos)) then
        exists t :: Target(o, livePos, t) && MovedTo(o, livePos, t, p)
      else if SomeLive(livePos) then p == o
      else if o.head.poNo != "" && !known && o.head.shipStatus != Shipped && o.status !in {Completed, Closed} then
        ForgotTo(o, p)
      else p == o
  {
    PickedIs(o, livePos);
    FirstOfList(livePos);
    UniqueIs(livePos);
    if PickLive(OrderPos(o), livePos).Some? {
      assert MovedTo(o, livePos, PickLive(OrderPos(o), livePos).value, AlignOrder(o, livePos, known));
    }
  }

  /** Every reference that is not live goes to `t`, on the header and on dropship roots. */
  predicate MovedTo(o: Order, livePos: seq<string>, t: string, p: Order) {
    && p == o.(head := p.head, items := p.items) && |p.items| == |o.items|
    && p.head == o.head.(poNo := if IsLive(livePos, o.head.poNo) then o.head.poNo else t)
    && forall i :: 0 <= i < |o.items| ==>
         var was := o.items[i];
         p.items[i] == if was.split == NoSplit && was.parent == 0 && was.ful.allocType == Dropship
                          && !IsLive(livePos, was.ful.poNo)
                       then was.(ful := was.ful.(poNo := t)) else was
  }

  /** The header's purchase order goes, and every dropship row's copy of it. */
  predicate ForgotTo(o: Order, p: Order) {
    && p == o.(head := o.head.(poNo := ""), items := p.items) && |p.items| == |o.items|
    && forall i :: 0 <= i < |o.items| ==>
         var was := o.items[i];
         p.items[i] == if was.ful.allocType == Dropship && was.ful.poNo == o.head.poNo
                       then was.(ful := was.ful.(poNo := "")) else was
  }
}
