/** The order list shows an order once per platform package, each time with the
    rows of that package. */
module ListExpansion {
  import opened OrderModel

  /** What the list shows of a package. */
  datatype ListedPackage = ListedPackage(id: nat, sysTid: string, fenFaRemark: string, isPrimary: bool)

  /** A stored order with its packages, or one line of the list. */
  datatype Listed = Listed(order: Order, fenFaRemark: string, packages: seq<ListedPackage>)

  /** Rows without a package count to the primary one. */
  predicate Binds(p: ListedPackage, it: Item) {
    IsRoot(it) && (it.packageId == p.id || (it.packageId == 0 && p.isPrimary))
  }

  function OwnRows(items: seq<Item>, p: ListedPackage): seq<Item> {
    if items == [] then []
    else
      var it := items[|items| - 1];
      OwnRows(items[..|items| - 1], p) + if Binds(p, it) then [it] else []
  }

  /** The allocation all rows share, if they do. */
  function UniformAlloc(items: seq<Item>): AllocType {
    if items == [] then Unallocated
    else
      var n := |items| - 1;
      var last := items[n].ful.allocType;
      if n == 0 || UniformAlloc(items[..n]) == last then last else Unallocated
  }

  function PackageLine(l: Listed, p: ListedPackage): Listed {
    var o, own := l.order, OwnRows(l.order.items, p);
    var uniform := UniformAlloc(own);
    var head := if uniform != Unallocated then o.head.(allocType := uniform) else o.head;
    Listed(o.(sysTid := p.sysTid, items := if own != [] then own else o.items, head := head),
           FirstNonEmpty(p.fenFaRemark, l.fenFaRemark), [p])
  }

  function PackageLines(l: Listed, packages: seq<ListedPackage>): seq<Listed> {
    if packages == [] then []
    else PackageLines(l, packages[..|packages| - 1]) + [PackageLine(l, packages[|packages| - 1])]
  }

  function Expanded(list: seq<Listed>): seq<Listed> {
    if list == [] then []
    else
      var l := list[|list| - 1];
      Expanded(list[..|list| - 1]) + if |l.packages| <= 1 then [l] else PackageLines(l, l.packages)
  }

  // ---- what the list shows ----

  function Roots(items: seq<Item>): multiset<Item> {
    if items == [] then multiset{}
    else
      var it := items[|items| - 1];
      Roots(items[..|items| - 1]) + if IsRoot(it) then multiset{it} else multiset{}
  }

  /** All rows on the lines of one order. */
  function Shown(lines: seq<Listed>): multiset<Item> {
    if lines == [] then multiset{}
    else Shown(lines[..|lines| - 1]) + multiset(lines[|lines| - 1].order.items)
  }

  function OwnOfAll(items: seq<Item>, packages: seq<ListedPackage>): multiset<Item> {
    if packages == [] then multiset{}
    else OwnOfAll(items, packages[..|packages| - 1]) + multiset(OwnRows(items, packages[|packages| - 1]))
  }

  /** How many of the packages a row counts to. */
  function Bindings(packages: seq<ListedPackage>, it: Item): nat {
    if packages == [] then 0
    else Bindings(packages[..|packages| - 1], it) + if Binds(packages[|packages| - 1], it) then 1 else 0
  }

  function Times(it: Item, n: nat): multiset<Item> {
    multiset{}[it := n]
  }

  lemma {:induction false} OwnOfAllStep(items: seq<Item>, it: Item, packages: seq<ListedPackage>)
    ensures OwnOfAll(items + [it], packages) == OwnOfAll(items, packages) + Times(it, Bindings(packages, it))
  {
    if packages != [] {
      OwnOfAllStep(items, it, packages[..|packages| - 1]);
      assert (items + [it])[..|items|] == items;
    }
  }

  ghost predicate BoundOnce(items: seq<Item>, packages: seq<ListedPackage>) {
    forall it :: it in items ==> Bindings(packages, it) == if IsRoot(it) then 1 else 0
  }

  /** Each row is on the lines once for every package it counts to. */
  lemma {:induction false} OwnOfAllCount(items: seq<Item>, packages: seq<ListedPackage>, it: Item)
    ensures OwnOfAll(items, packages)[it] == multiset(items)[it] * Bindings(packages, it)
  {
    if items == [] {
      NothingOwned(packages);
    } else {
      var n := |items| - 1;
      OwnOfAllCount(items[..n], packages, it);
      assert items == items[..n] + [items[n]];
      OneRowMore(items[..n], items[n], it, packages);
    }
  }

  lemma {:induction false} OneRowMore(items: seq<Item>, last: Item, it: Item, packages: seq<ListedPackage>)
    requires OwnOfAll(items, packages)[it] == multiset(items)[it] * Bindings(packages, it)
    ensures OwnOfAll(items + [last], packages)[it] == multiset(items + [last])[it] * Bindings(packages, it)
  {
    OwnedMore(items, last, it, packages);
    CountStep(items, last, it);
    OneMore(OwnOfAll(items, packages)[it], multiset(items)[it], Bindings(packages, it), if it == last then 1 else 0);
  }

  lemma {:induction false} OwnedMore(items: seq<Item>, last: Item, it: Item, packages: seq<ListedPackage>)
    ensures OwnOfAll(items + [last], packages)[it]
         == OwnOfAll(items, packages)[it] + if it == last then Bindings(packages, it) else 0
  {
    OwnOfAllStep(items, last, packages);
    AddTimes(OwnOfAll(items, packages), last, it, Bindings(packages, last));
  }

  lemma AddTimes(rows: multiset<Item>, last: Item, it: Item, n: nat)
    ensures (rows + Times(last, n))[it] == rows[it] + if it == last then n else 0
  {
  }

  lemma OneMore(all: nat, n: nat, k: nat, more: nat)
    requires all == n * k && more <= 1
    ensures (n + more) * k == all + if more == 1 then k else 0
  {
  }

  lemma CountStep<T>(s: seq<T>, last: T, x: T)
    ensures multiset(s + [last])[x] == multiset(s)[x] + if x == last then 1 else 0
  {
  }

  lemma {:induction false} RootsCount(items: seq<Item>, it: Item)
    ensures Roots(items)[it] == if IsRoot(it) then multiset(items)[it] else 0
  {
    if items != [] {
      var n := |items| - 1;
      RootsCount(items[..n], it);
      assert items == items[..n] + [items[n]];
      CountStep(items[..n], items[n], it);
    }
  }

  lemma {:induction false} OwnOfAllIsRoots(items: seq<Item>, packages: seq<ListedPackage>)
    ensures OwnOfAll(items, packages) == Roots(items) <==> BoundOnce(items, packages)
  {
    forall it ensures OwnOfAll(items, packages)[it] == Roots(items)[it]
                 <==> it in items ==> Bindings(packages, it) == if IsRoot(it) then 1 else 0
    {
      OwnOfAllCount(items, packages, it);
      RootsCount(items, it);
      assert it in items <==> it in multiset(items);
      SameTimes(multiset(items)[it], Bindings(packages, it), if IsRoot(it) then 1 else 0);
    }
    if BoundOnce(items, packages) {
      assert forall it :: OwnOfAll(items, packages)[it] == Roots(items)[it];
    }
  }

  lemma SameTimes(n: nat, a: nat, b: nat)
    ensures n * a == n * b <==> n == 0 || a == b
  {
  }

  lemma {:induction false} FewRoots(items: seq<Item>)
    ensures |Roots(items)| <= |items|
  {
    if items != [] { FewRoots(items[..|items| - 1]); }
  }

  lemma {:induction false} NothingOwned(packages: seq<ListedPackage>)
    ensures OwnOfAll([], packages) == multiset{}
  {
    if packages != [] { NothingOwned(packages[..|packages| - 1]); }
  }

  ghost predicate NoneEmpty(items: seq<Item>, packages: seq<ListedPackage>) {
    forall k :: 0 <= k < |packages| ==> OwnRows(items, packages[k]) != []
  }

  lemma {:induction false} ShownAre(l: Listed, packages: seq<ListedPackage>)
    ensures OwnOfAll(l.order.items, packages) <= Shown(PackageLines(l, packages))
    ensures Shown(PackageLines(l, packages)) == OwnOfAll(l.order.items, packages)
       <==> l.order.items == [] || NoneEmpty(l.order.items, packages)
  {
    if packages != [] {
      var n := |packages| - 1;
      var items, own, before := l.order.items, OwnRows(l.order.items, packages[n]), PackageLines(l, packages[..n]);
      ShownAre(l, packages[..n]);
      ShownStep(before, PackageLine(l, packages[n]));
      NoneEmptyStep(items, packages);
      OwnOrAll(OwnOfAll(items, packages[..n]), Shown(before), own, items);
    }
  }

  /** A package adds its own rows, or all rows in their place. */
  lemma OwnOrAll<T>(a: multiset<T>, b: multiset<T>, own: seq<T>, all: seq<T>)
    requires a <= b
    ensures var shown := b + multiset(if own != [] then own else all);
      && a + multiset(own) <= shown
      && (shown == a + multiset(own) <==> b == a && (own != [] || all == []))
  {
    if own != [] {
      Cancel(a, b, multiset(own));
    } else {
      assert multiset(own) == multiset{};
      Grows(a, b, all);
    }
  }

  lemma {:induction false} NoneEmptyStep(items: seq<Item>, packages: seq<ListedPackage>)
    requires packages != []
    ensures var n := |packages| - 1;
      NoneEmpty(items, packages) <==> NoneEmpty(items, packages[..n]) && OwnRows(items, packages[n]) != []
  {
    var n := |packages| - 1;
    forall k | 0 <= k < n ensures packages[..n][k] == packages[k] {}
    if NoneEmpty(items, packages) {
      forall k | 0 <= k < n ensures OwnRows(items, packages[..n][k]) != [] {
        assert OwnRows(items, packages[k]) != [];
      }
    }
    if NoneEmpty(items, packages[..n]) && OwnRows(items, packages[n]) != [] {
      forall k | 0 <= k < |packages| ensures OwnRows(items, packages[k]) != [] {
        if k < n { assert OwnRows(items, packages[..n][k]) != []; }
      }
    }
  }

  lemma {:induction false} ShownStep(before: seq<Listed>, line: Listed)
    ensures Shown(before + [line]) == Shown(before) + multiset(line.order.items)
  {
    assert (before + [line])[..|before|] == before;
  }

  lemma Cancel<T>(a: multiset<T>, b: multiset<T>, c: multiset<T>)
    ensures a + c == b + c <==> a == b
    ensures a <= b ==> a + c <= b + c
  {
    if a + c == b + c {
      forall x ensures a[x] == b[x] {
        assert (a + c)[x] == (b + c)[x];
      }
    }
  }

  lemma Grows<T>(a: multiset<T>, b: multiset<T>, more: seq<T>)
    requires a <= b
    ensures a <= b + multiset(more)
    ensures b + multiset(more) == a <==> b == a && more == []
  {
    if more != [] {
      assert more[0] in multiset(more);
      assert (b + multiset(more))[more[0]] > a[more[0]];
    }
  }

  lemma {:induction false} ShownSize(before: seq<Listed>, line: Listed)
    ensures |Shown(before + [line])| == |Shown(before)| + |line.order.items|
  {
    ShownStep(before, line);
  }

  lemma {:induction false} LineSize(l: Listed, p: ListedPackage)
    requires l.order.items != []
    ensures |PackageLine(l, p).order.items| >= if OwnRows(l.order.items, p) == [] then |l.order.items| else 1
  {
  }

  /** Every line has a row, and that of a package without rows has them all. */
  lemma {:induction false} ManyShown(l: Listed, packages: seq<ListedPackage>)
    requires l.order.items != []
    ensures |Shown(PackageLines(l, packages))|
         >= |packages| + if NoneEmpty(l.order.items, packages) then 0 else |l.order.items| - 1
  {
    if packages != [] {
      var n := |packages| - 1;
      ManyShown(l, packages[..n]);
      ShownSize(PackageLines(l, packages[..n]), PackageLine(l, packages[n]));
      LineSize(l, packages[n]);
      NoneEmptyStep(l.order.items, packages);
    }
  }

  /** The lines of an order show every root exactly once and no other row if and only if every row counts to
      one package, or to none if it is no root, and no package is without rows, which falls back on all. */
  lemma {:induction false} EveryRootShownOnce(l: Listed)
    requires |l.packages| > 1
    ensures Shown(PackageLines(l, l.packages)) == Roots(l.order.items)
       <==> l.order.items == [] || (NoneEmpty(l.order.items, l.packages) && BoundOnce(l.order.items, l.packages))
  {
    var items := l.order.items;
    ShownAre(l, l.packages);
    OwnOfAllIsRoots(items, l.packages);
    if items != [] && !NoneEmpty(items, l.packages) {
      ManyShown(l, l.packages);
      FewRoots(items);
    }
  }

  /** Packages with their own keys, one of them primary, and rows that name one or none of them. */
  ghost predicate WellBound(items: seq<Item>, packages: seq<ListedPackage>, primary: nat) {
    && primary < |packages|
    && (forall j :: 0 <= j < |packages| ==> packages[j].id != 0 && (packages[j].isPrimary <==> j == primary))
    && (forall i, j :: 0 <= i < j < |packages| ==> packages[i].id != packages[j].id)
    && (forall it :: it in items && IsRoot(it) && it.packageId != 0 ==>
        exists p :: p in packages && p.id == it.packageId)
  }

  lemma {:induction false} BindingsOf(packages: seq<ListedPackage>, it: Item, at: nat)
    requires at < |packages| && Binds(packages[at], it)
    requires forall j :: 0 <= j < |packages| && j != at ==> !Binds(packages[j], it)
    ensures Bindings(packages, it) == 1
  {
    var n := |packages| - 1;
    if at == n { NoBindings(packages[..n], it); } else { BindingsOf(packages[..n], it, at); }
  }

  lemma {:induction false} NoBindings(packages: seq<ListedPackage>, it: Item)
    requires forall j :: 0 <= j < |packages| ==> !Binds(packages[j], it)
    ensures Bindings(packages, it) == 0
  {
    if packages != [] { NoBindings(packages[..|packages| - 1], it); }
  }

  /** Then every row counts to exactly one package. */
  lemma WellBoundOnce(items: seq<Item>, packages: seq<ListedPackage>, primary: nat)
    requires WellBound(items, packages, primary)
    ensures BoundOnce(items, packages)
  {
    forall it | it in items ensures Bindings(packages, it) == if IsRoot(it) then 1 else 0 {
      if !IsRoot(it) {
        NoBindings(packages, it);
      } else if it.packageId == 0 {
        BindingsOf(packages, it, primary);
      } else {
        var p :| p in packages && p.id == it.packageId;
        var j :| 0 <= j < |packages| && packages[j] == p;
        BindingsOf(packages, it, j);
      }
    }
  }

  const ONLY_ROW :=
    Item(1, 1, 0, "", Goods("", "", "", "", ""), 1, 0, 0, false, 0, NoSplit, 0, 1, NO_FULFILMENT)
  const TWO_PACKAGES :=
    Listed(Order(1, Kdzs, "T", "S", 0, WaitSend, false, false, false, PendingAlloc, AGENT_SELF, NO_FULFILMENT,
                 None, 0, 0, [ONLY_ROW], []),
           "", [ListedPackage(1, "S", "", true), ListedPackage(2, "R", "", false)])

  /** It does happen: the second package has no rows, and the list shows the only row twice. */
  lemma EmptyPackageShowsAll()
    ensures WellBound(TWO_PACKAGES.order.items, TWO_PACKAGES.packages, 0)
    ensures Shown(PackageLines(TWO_PACKAGES, TWO_PACKAGES.packages)) == multiset{ONLY_ROW, ONLY_ROW}
  {
    var l := TWO_PACKAGES;
    var p, q := l.packages[0], l.packages[1];
    assert l.packages == [p, q];
    BoundToPrimary();
    OneRowLine(l, p);
    OneRowLine(l, q);
    TwoLines(l, p, q);
  }

  lemma BoundToPrimary()
    ensures WellBound(TWO_PACKAGES.order.items, TWO_PACKAGES.packages, 0)
  {
  }

  /** A single row is on the line of a package, its own or not. */
  lemma OneRowLine(l: Listed, p: ListedPackage)
    requires l.order.items == [ONLY_ROW]
    ensures PackageLine(l, p).order.items == [ONLY_ROW]
  {
    assert OwnRows([ONLY_ROW][..0], p) == [];
  }

  /** One row of either package, and one whose package is gone. */
  const FIRST_ROW := ONLY_ROW.(packageId := 1)
  const SECOND_ROW := ONLY_ROW.(id := 2, packageId := 2)
  const LOST_ROW := ONLY_ROW.(id := 3, packageId := 9)
  const LOST_PACKAGE := TWO_PACKAGES.(order := TWO_PACKAGES.order.(items := [FIRST_ROW, SECOND_ROW, LOST_ROW]))

  /** The other way it fails: a merge drops an older order's package and leaves the key on the rows it takes
      over; no package is without rows, and such a row is on no line. */
  lemma LostPackageHidesRow()
    ensures NoneEmpty(LOST_PACKAGE.order.items, LOST_PACKAGE.packages)
    ensures IsRoot(LOST_ROW) && LOST_ROW in LOST_PACKAGE.order.items
    ensures LOST_ROW !in Shown(PackageLines(LOST_PACKAGE, LOST_PACKAGE.packages))
  {
    var l := LOST_PACKAGE;
    var p, q := l.packages[0], l.packages[1];
    assert l.packages == [p, q];
    OwnRowOnly(l, p, 0);
    OwnRowOnly(l, q, 1);
    TwoLines(l, p, q);
    forall k | 0 <= k < 2 ensures OwnRows(l.order.items, l.packages[k]) != [] {
      OwnRowOnly(l, l.packages[k], k);
    }
  }

  /** The line of either package has its one row. */
  lemma {:induction false} OwnRowOnly(l: Listed, p: ListedPackage, k: nat)
    requires l == LOST_PACKAGE && k < 2 && p == l.packages[k]
    ensures OwnRows(l.order.items, p) == [l.order.items[k]] && PackageLine(l, p).order.items == [l.order.items[k]]
  {
    ThreeRows(FIRST_ROW, SECOND_ROW, LOST_ROW, p);
  }

  lemma {:induction false} ThreeRows(a: Item, b: Item, c: Item, p: ListedPackage)
    ensures OwnRows([a, b, c], p) == Bound(a, p) + Bound(b, p) + Bound(c, p)
  {
    var x, y, z := Bound(a, p), Bound(b, p), Bound(c, p);
    assert OwnRows([a], p) == x by {
      OwnRowsStep([], a, p);
      assert [] + [a] == [a] && [] + x == x;
    }
    assert OwnRows([a, b], p) == x + y by {
      OwnRowsStep([a], b, p);
      assert [a] + [b] == [a, b];
    }
    assert OwnRows([a, b, c], p) == x + y + z by {
      OwnRowsStep([a, b], c, p);
      assert [a, b] + [c] == [a, b, c];
    }
  }

  function Bound(it: Item, p: ListedPackage): seq<Item> {
    if Binds(p, it) then [it] else []
  }

  lemma {:induction false} OwnRowsStep(items: seq<Item>, it: Item, p: ListedPackage)
    ensures OwnRows(items + [it], p) == OwnRows(items, p) + Bound(it, p)
  {
    assert (items + [it])[..|items|] == items;
  }

  lemma {:induction false} TwoLines(l: Listed, p: ListedPackage, q: ListedPackage)
    ensures Shown(PackageLines(l, [p, q]))
         == multiset(PackageLine(l, p).order.items) + multiset(PackageLine(l, q).order.items)
  {
    var a, b := PackageLine(l, p), PackageLine(l, q);
    assert [p, q][..1] == [p] && [p][..0] == [];
    assert PackageLines(l, [p][..0]) == [] && PackageLines(l, [p]) == [] + [a];
    assert PackageLines(l, [p, q]) == [a] + [b];
    ShownStep([], a);
    ShownStep([a], b);
    assert [] + [a] == [a];
  }

  lemma {:induction false} UniformAt(items: seq<Item>, a: AllocType)
    requires a != Unallocated
    ensures UniformAlloc(items) == a <==> items != [] && forall i :: 0 <= i < |items| ==> items[i].ful.allocType == a
  {
    if items != [] {
      var n := |items| - 1;
      UniformAt(items[..n], a);
      assert forall i :: 0 <= i < n ==> items[..n][i] == items[i];
    }
  }

  /** The badge of a line is a real allocation exactly when its package has rows and they all carry that one. */
  lemma {:induction false} UniformIs(items: seq<Item>, a: AllocType)
    requires a != Unallocated
    ensures UniformAlloc(items) == a <==> items != [] && forall it :: it in items ==> it.ful.allocType == a
  {
    UniformAt(items, a);
    assert forall i :: 0 <= i < |items| ==> items[i] in items;
  }

  /** A line shows its order with the number and the remark of its package, where that has one, and with that package
      alone; the rows are those of the package, or all of them, and the badge is theirs if they share one. */
  lemma {:induction false} LineIs(l: Listed, packages: seq<ListedPackage>, k: nat, a: AllocType)
    requires k < |packages|
    ensures |PackageLines(l, packages)| == |packages|
    ensures var x, p := PackageLines(l, packages)[k], packages[k];
      var own := OwnRows(l.order.items, p);
      && x.packages == [p] && x.order.sysTid == p.sysTid
      && x.fenFaRemark == (if p.fenFaRemark != "" then p.fenFaRemark else l.fenFaRemark)
      && x.order.items == (if own != [] then own else l.order.items)
      && x.order.head == l.order.head.(allocType := x.order.head.allocType)
      && x.order == l.order.(sysTid := p.sysTid, items := x.order.items, head := x.order.head)
      && (a != Unallocated && AllCarry(own, a) ==> x.order.head.allocType == a)
      && (x.order.head.allocType == l.order.head.allocType || AllCarry(own, x.order.head.allocType))
  {
    LineAt(l, packages, k);
    var own := OwnRows(l.order.items, packages[k]);
    if a != Unallocated { UniformIs(own, a); }
    if UniformAlloc(own) != Unallocated { UniformIs(own, UniformAlloc(own)); }
  }

  /** There are rows, and they all carry the allocation. */
  predicate AllCarry(items: seq<Item>, a: AllocType) {
    items != [] && forall it :: it in items ==> it.ful.allocType == a
  }

  lemma {:induction false} LineCount(l: Listed, packages: seq<ListedPackage>)
    ensures |PackageLines(l, packages)| == |packages|
  {
    if packages != [] { LineCount(l, packages[..|packages| - 1]); }
  }

  lemma {:induction false} LineAt(l: Listed, packages: seq<ListedPackage>, k: nat)
    requires k < |packages|
    ensures |PackageLines(l, packages)| == |packages|
    ensures PackageLines(l, packages)[k] == PackageLine(l, packages[k])
  {
    var n := |packages| - 1;
    LineCount(l, packages[..n]);
    assert packages[..n] + [packages[n]] == packages;
    PackageLinesStep(l, packages[..n], packages[n]);
    if k < n {
      LineAt(l, packages[..n], k);
      assert packages[..n][k] == packages[k];
    }
  }

  /** The list shows an order with several packages once for each of them, and any other as it is. */
  lemma {:induction false} ListedOnce(list: seq<Listed>, l: Listed)
    ensures Expanded([]) == []
    ensures Expanded(list + [l]) == Expanded(list) + if |l.packages| > 1 then PackageLines(l, l.packages) else [l]
  {
    assert (list + [l])[..|list|] == list;
  }

  // ---- the loops ----

  lemma {:induction false} StaysMixed(items: seq<Item>, k: nat)
    requires 0 < k <= |items| && UniformAlloc(items[..k]) == Unallocated
    ensures UniformAlloc(items) == Unallocated
    decreases |items| - k
  {
    if k == |items| {
      assert items[..k] == items;
    } else {
      assert items[..k + 1][..k] == items[..k];
      StaysMixed(items, k + 1);
    }
  }

  method UniformItemAlloc(items: seq<Item>) returns (at: AllocType)
    ensures at == UniformAlloc(items)
  {
    at := Unallocated;
    for i := 0 to |items|
      invariant at == UniformAlloc(items[..i])
      invariant i > 0 <==> at != Unallocated
    {
      assert items[..i + 1][..i] == items[..i];
      var a := items[i].ful.allocType;
      if a == Unallocated {
        StaysMixed(items, i + 1);
        return Unallocated;
      }
      if at == Unallocated {
        at := a;
        continue;
      }
      if at != a {
        StaysMixed(items, i + 1);
        return Unallocated;
      }
    }
    assert items[..|items|] == items;
  }

  method RowsOf(items: seq<Item>, p: ListedPackage) returns (own: seq<Item>)
    ensures own == OwnRows(items, p)
  {
    own := [];
    for i := 0 to |items|
      invariant own == OwnRows(items[..i], p)
    {
      var it := items[i];
      assert items[..i + 1][..i] == items[..i];
      if it.split != NoSplit || it.parent > 0 {
        continue;
      }
      if it.packageId == p.id || (it.packageId == 0 && p.isPrimary) {
        own := own + [it];
      }
    }
    assert items[..|items|] == items;
  }

  /** The order once more, with the number, remark, rows and badge of one package. */
  method LineOf(l: Listed, p: ListedPackage) returns (row: Listed)
    ensures row == PackageLine(l, p)
  {
    row := l.(packages := [p], order := l.order.(sysTid := p.sysTid));
    if p.fenFaRemark != "" {
      row := row.(fenFaRemark := p.fenFaRemark);
    }
    var items := RowsOf(l.order.items, p);
    if |items| > 0 {
      row := row.(order := row.order.(items := items));
    }
    var at := UniformItemAlloc(items);
    if at != Unallocated {
      row := row.(order := row.order.(head := row.order.head.(allocType := at)));
    }
  }

  lemma {:induction false} PackageLinesStep(l: Listed, packages: seq<ListedPackage>, p: ListedPackage)
    ensures PackageLines(l, packages + [p]) == PackageLines(l, packages) + [PackageLine(l, p)]
  {
    assert (packages + [p])[..|packages|] == packages;
  }

  method AddLine(l: Listed, ghost done: seq<ListedPackage>, p: ListedPackage, before: seq<Listed>)
    returns (lines: seq<Listed>)
    requires before == PackageLines(l, done)
    ensures lines == PackageLines(l, done + [p])
  {
    PackageLinesStep(l, done, p);
    var row := LineOf(l, p);
    lines := before + [row];
  }

  method LinesOf(l: Listed) returns (lines: seq<Listed>)
    ensures lines == PackageLines(l, l.packages)
  {
    lines := [];
    for k := 0 to |l.packages|
      invariant lines == PackageLines(l, l.packages[..k])
    {
      assert l.packages[..k + 1] == l.packages[..k] + [l.packages[k]];
      lines := AddLine(l, l.packages[..k], l.packages[k], lines);
    }
    assert l.packages[..|l.packages|] == l.packages;
  }

  method ExpandOrdersByPackages(list: seq<Listed>) returns (out: seq<Listed>)
    ensures out == Expanded(list)
  {
    out := [];
    for i := 0 to |list|
      invariant out == Expanded(list[..i])
    {
      assert list[..i + 1][..i] == list[..i];
      if |list[i].packages| <= 1 {
        out := out + [list[i]];
        continue;
      }
      var lines := LinesOf(list[i]);
      out := out + lines;
    }
    assert list[..|list|] == list;
  }
}
