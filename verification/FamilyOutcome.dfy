/** Which orders are merged, what their numbers come to without a suffix, and what
    becomes of their packages. */
module FamilyOutcome {
  import opened OrderModel
  import AllocSplit
  import SequenceNo
  import opened SiblingMerge

  // ---- numbers without a suffix ----

  /** `sub` is in `s` at place `i`. */
  predicate OccursAt(s: string, sub: string, i: int) {
    0 <= i && i + |sub| <= |s| && s[i..i + |sub|] == sub
  }

  predicate FirstAt(s: string, sub: string, i: int) {
    OccursAt(s, sub, i) && forall j :: 0 <= j < i ==> !OccursAt(s, sub, j)
  }

  lemma {:induction false} SearchFrom(s: string, sub: string, i: nat)
    requires sub != "" && i <= |s|
    ensures var r := IndexFrom(s, sub, i);
      if r.Some? then i <= r.value && OccursAt(s, sub, r.value) && forall j :: i <= j < r.value ==> !OccursAt(s, sub, j)
      else forall j :: i <= j ==> !OccursAt(s, sub, j)
    decreases |s| - i
  {
    if i + |sub| <= |s| && s[i..i + |sub|] != sub && i != |s| { SearchFrom(s, sub, i + 1); }
  }

  lemma IndexIs(s: string, sub: string, i: nat)
    requires sub != ""
    ensures IndexOf(s, sub) == Some(i) <==> FirstAt(s, sub, i)
    ensures IndexOf(s, sub).None? <==> forall j :: !OccursAt(s, sub, j)
  {
    SearchFrom(s, sub, 0);
    var r := IndexOf(s, sub);
    if r.Some? && FirstAt(s, sub, i) {
      assert !(i < r.value) && !(r.value < i);
    }
  }

  /** The number has the suffix, and is `base` without it. */
  ghost predicate EndsBy(s: string, suffix: string, base: string) {
    exists i :: FirstAt(s, suffix, i) && i > 0 && base == s[..i]
  }

  ghost predicate HasSuffix(s: string, suffix: string) {
    exists i :: FirstAt(s, suffix, i) && i > 0
  }

  lemma {:induction false} CutIs(s: string, seps: seq<string>)
    requires seps != [] && seps[0] != ""
    ensures if HasSuffix(s, seps[0]) then EndsBy(s, seps[0], CutAt(s, seps)) else CutAt(s, seps) == CutAt(s, seps[1..])
  {
    var r := IndexOf(s, seps[0]);
    if r.Some? {
      IndexIs(s, seps[0], r.value);
      assert FirstAt(s, seps[0], r.value);
    } else {
      IndexIs(s, seps[0], 0);
    }
    if i :| FirstAt(s, seps[0], i) && i > 0 { IndexIs(s, seps[0], i); }
  }

  /** The number ends where its first #split is, or else its first #dup, or else its first #alloc; a number that
      begins with one is not cut there. */
  lemma BaseNumber(s: string)
    ensures if HasSuffix(s, "#split") then EndsBy(s, "#split", BaseSysTid(s))
            else if HasSuffix(s, "#dup") then EndsBy(s, "#dup", BaseSysTid(s))
            else if HasSuffix(s, "#alloc") then EndsBy(s, "#alloc", BaseSysTid(s))
            else BaseSysTid(s) == s
  {
    assert SUFFIXES[1..] == ["#dup", "#alloc"] && SUFFIXES[1..][1..] == ["#alloc"] && SUFFIXES[1..][1..][1..] == [];
    CutIs(s, SUFFIXES);
    CutIs(s, ["#dup", "#alloc"]);
    CutIs(s, ["#alloc"]);
    assert ["#dup", "#alloc"][1..] == ["#alloc"] && ["#alloc"][1..] == [];
  }

  /** Where a number has no #split, one is found right behind it. */
  lemma SuffixBehind(stem: string, rest: string)
    requires forall j :: !OccursAt(stem, "#split", j)
    ensures FirstAt(stem + "#split" + rest, "#split", |stem|)
  {
    var s, sub := stem + "#split" + rest, "#split";
    assert s[|stem|..|stem| + 6] == sub;
    forall j | 0 <= j < |stem| ensures !OccursAt(s, sub, j) {
      if j + 6 <= |stem| {
        assert s[j..j + 6] == stem[j..j + 6] && !OccursAt(stem, sub, j);
      } else {
        assert s[|stem|] == '#' && s[j..j + 6][|stem| - j] == s[|stem|];
        assert sub[|stem| - j] != '#';
      }
    }
  }

  /** An order split off for allocation is recognised by its number, which without the suffix is the number it was
      split from, or the platform's where that has none. */
  lemma SplitNumberGoesBack(parent: Order, childId: nat)
    requires forall j :: !OccursAt(BaseSysTid(parent.sysTid), "#split", j) && !OccursAt(parent.tid, "#split", j)
    ensures var stem := if BaseSysTid(parent.sysTid) != "" then BaseSysTid(parent.sysTid) else parent.tid;
      var no := AllocSplit.SplitSysTid(parent, childId);
      if stem == "" then no == ""
      else IndexOf(no, "#split").Some? && BaseSysTid(no) == stem
  {
    var stem := if BaseSysTid(parent.sysTid) != "" then BaseSysTid(parent.sysTid) else parent.tid;
    var no := AllocSplit.SplitSysTid(parent, childId);
    if stem != "" {
      SuffixBehind(stem, SequenceNo.Decimal(childId));
      IndexIs(no, "#split", |stem|);
      BaseNumber(no);
      var i :| FirstAt(no, "#split", i) && i > 0 && BaseSysTid(no) == no[..i];
      assert !(i < |stem|) && !(|stem| < i);
    }
  }

  // ---- which orders ----

  /** The family of a platform order: its orders of that platform, each once, oldest first. */
  lemma {:induction false} FamilyMembers(orders: map<nat, Order>, tid: string, below: nat)
    requires tid != "" && forall id :: id in orders ==> id < below
    ensures forall id :: id in Family(orders, tid, below) <==>
      id in orders && orders[id].channel == Kdzs && orders[id].tid == tid
    ensures forall i, j :: 0 <= i < j < |Family(orders, tid, below)| ==>
      Family(orders, tid, below)[i] < Family(orders, tid, below)[j]
  {
    FamilyIs(orders, tid, below);
  }

  // ---- packages ----

  /** The package is an older order's, of the same platform order. */
  predicate OlderOwner(shop: Shop, x: string, k: nat)
    requires k in shop.orders
  {
    x in shop.packages && shop.packages[x].orderId < k && shop.packages[x].orderId in shop.orders
    && shop.orders[shop.packages[x].orderId].tid == shop.orders[k].tid
  }

  /** What is stored of the sibling's package: it belongs to the order that keeps, or stays an older one's, has the
      texts of the sibling's header, and keeps the mail number and the place it had. */
  lemma PackageAfterMerge(shop: Shop, k: nat, s: nat)
    requires ShopOk(shop) && k in shop.orders && s in shop.orders && k != s
    requires shop.orders[k].tid == shop.orders[s].tid != ""
    ensures var x, after := BaseSysTid(shop.orders[s].sysTid), PackagesAfter(shop, k, s);
      x != "" && x in after ==>
        && after[x].orderId == (if OlderOwner(shop, x, k) then shop.packages[x].orderId else k)
        && after[x].mailNo == (if x in shop.packages then shop.packages[x].mailNo else "")
        && (after[x].isPrimary <==> x in shop.packages && shop.packages[x].isPrimary)
        && after[x].fenFaRemark == shop.labels(s).fenFaRemark && after[x].printerRemark == shop.labels(s).printerRemark
        && after[x].platformStatus == shop.labels(s).platformStatus
  {
  }

  /** Every other package that is still there is as it was. */
  lemma OtherPackagesStay(shop: Shop, k: nat, s: nat, x: string)
    requires s in shop.orders && x != BaseSysTid(shop.orders[s].sysTid) && x in PackagesAfter(shop, k, s)
    ensures x in shop.packages && PackagesAfter(shop, k, s)[x] == shop.packages[x]
  {
  }
}
