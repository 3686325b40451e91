/** The table of platform packages: one row per system number, owned by one order. */
module PackageTable {
  datatype Package = Package(
    orderId: nat,
    mailNo: string,
    isPrimary: bool,
    fenFaRemark: string,
    printerRemark: string,
    platformStatus: string)

  /** Packages by system number; the platform order number of each order there is. */
  datatype Tables = Tables(packages: map<string, Package>, tids: map<nat, string>)

  datatype Upsert = Upsert(sysTid: string, pkg: Package)

  /** Another package of the order already carries the waybill. */
  predicate MailTaken(packages: map<string, Package>, orderId: nat, mailNo: string, except: string) {
    exists s :: s in packages && s != except && packages[s].orderId == orderId && packages[s].mailNo == mailNo
  }

  predicate SameTid(tids: map<nat, string>, a: nat, b: nat) {
    a in tids && b in tids && tids[a] != "" && tids[a] == tids[b]
  }

  /** A known package stays with the older of two orders of the same platform order. */
  function TargetOrder(t: Tables, u: Upsert): nat {
    if u.sysTid in t.packages
       && t.packages[u.sysTid].orderId > 0 && t.packages[u.sysTid].orderId != u.pkg.orderId
       && SameTid(t.tids, t.packages[u.sysTid].orderId, u.pkg.orderId)
       && t.packages[u.sysTid].orderId < u.pkg.orderId
    then t.packages[u.sysTid].orderId
    else u.pkg.orderId
  }

  /** Two packages of one order do not share a waybill: the newcomer goes without. */
  function NewMail(t: Tables, u: Upsert): string {
    if u.sysTid !in t.packages then
      if u.pkg.mailNo != "" && MailTaken(t.packages, u.pkg.orderId, u.pkg.mailNo, u.sysTid) then "" else u.pkg.mailNo
    else
      var was := t.packages[u.sysTid].mailNo;
      if u.pkg.mailNo == "" then was
      else if !MailTaken(t.packages, TargetOrder(t, u), u.pkg.mailNo, u.sysTid) then u.pkg.mailNo
      else if was == u.pkg.mailNo || was == "" then ""
      else was
  }

  /** Other packages of the order stop being primary when a known package becomes it. */
  function Demoted(t: Tables, u: Upsert): map<string, Package> {
    if u.sysTid in t.packages && u.pkg.isPrimary then
      map s | s in t.packages :: if s != u.sysTid && t.packages[s].orderId == TargetOrder(t, u)
                                 then t.packages[s].(isPrimary := false) else t.packages[s]
    else t.packages
  }

  function UpsertPackage(t: Tables, u: Upsert): Tables {
    if u.sysTid == "" then t
    else
      var was := u.sysTid in t.packages && t.packages[u.sysTid].isPrimary;
      t.(packages := Demoted(t, u)[u.sysTid :=
           u.pkg.(orderId := TargetOrder(t, u), mailNo := NewMail(t, u), isPrimary := u.pkg.isPrimary || was)])
  }

  function Run(t: Tables, us: seq<Upsert>): Tables {
    if us == [] then t else UpsertPackage(Run(t, us[..|us| - 1]), us[|us| - 1])
  }

  // ---- what an upsert writes ----

  /** The package is known, and its order is an older one of the same platform order. */
  predicate StaysWithOlder(t: Tables, u: Upsert) {
    u.sysTid in t.packages && 0 < t.packages[u.sysTid].orderId < u.pkg.orderId
    && t.packages[u.sysTid].orderId in t.tids && u.pkg.orderId in t.tids
    && t.tids[u.pkg.orderId] != "" && t.tids[u.pkg.orderId] == t.tids[t.packages[u.sysTid].orderId]
  }

  /** Texts are the upsert's, a package once primary stays so, and it belongs to the upsert's order or stays with an
      older one. The mail number is the upsert's unless that is empty or another package of the order has it;
      then a known package keeps its own, unless that is the one taken. */
  lemma UpsertedColumns(t: Tables, u: Upsert)
    requires u.sysTid != ""
    ensures u.sysTid in UpsertPackage(t, u).packages
    ensures var x, known := UpsertPackage(t, u).packages[u.sysTid], u.sysTid in t.packages;
      var taken := exists s :: s in t.packages && s != u.sysTid && t.packages[s].orderId == x.orderId
                               && t.packages[s].mailNo == u.pkg.mailNo;
      && x.fenFaRemark == u.pkg.fenFaRemark && x.printerRemark == u.pkg.printerRemark
      && x.platformStatus == u.pkg.platformStatus
      && (x.isPrimary <==> u.pkg.isPrimary || (known && t.packages[u.sysTid].isPrimary))
      && x.orderId == (if StaysWithOlder(t, u) then t.packages[u.sysTid].orderId else u.pkg.orderId)
      && x.mailNo == (if u.pkg.mailNo != "" && !taken then u.pkg.mailNo
                      else if known && (u.pkg.mailNo == "" || t.packages[u.sysTid].mailNo != u.pkg.mailNo) then
                        t.packages[u.sysTid].mailNo
                      else "")
  {
  }

  /** Of the other packages none changes but those of the order, which stop being primary when a known package
      becomes it. */
  lemma OthersDemoted(t: Tables, u: Upsert, s: string)
    requires u.sysTid != "" && s != u.sysTid
    ensures var after := UpsertPackage(t, u).packages;
      && (s in after <==> s in t.packages)
      && (s in after ==>
          after[s] == if u.sysTid in t.packages && u.pkg.isPrimary && t.packages[s].orderId == after[u.sysTid].orderId
                      then t.packages[s].(isPrimary := false) else t.packages[s])
  {
  }

  // ---- ownership ----

  /** The orders that upserted a system number. */
  function Claimants(us: seq<Upsert>, sysTid: string): set<nat> {
    set k | 0 <= k < |us| && us[k].sysTid == sysTid :: us[k].pkg.orderId
  }

  ghost predicate IsLeast(s: set<nat>, x: nat) {
    x in s && forall y :: y in s ==> x <= y
  }

  /** All orders belong to one platform order. */
  ghost predicate OneTid(tids: map<nat, string>, us: seq<Upsert>) {
    && (forall k :: 0 <= k < |us| ==> us[k].pkg.orderId > 0 && us[k].pkg.orderId in tids)
    && (forall j, k :: 0 <= j < |us| && 0 <= k < |us| ==> SameTid(tids, us[j].pkg.orderId, us[k].pkg.orderId))
  }

  lemma ClaimantsStep(us: seq<Upsert>, sysTid: string)
    requires us != []
    ensures var n := |us| - 1;
      Claimants(us, sysTid) == Claimants(us[..n], sysTid) + if us[n].sysTid == sysTid then {us[n].pkg.orderId} else {}
  {
    var n := |us| - 1;
    forall x | x in Claimants(us[..n], sysTid) ensures x in Claimants(us, sysTid) {
      var k :| 0 <= k < n && us[..n][k].sysTid == sysTid && us[..n][k].pkg.orderId == x;
      assert us[k].sysTid == sysTid;
    }
    forall x | x in Claimants(us, sysTid)
      ensures x in Claimants(us[..n], sysTid) || (us[n].sysTid == sysTid && x == us[n].pkg.orderId)
    {
      var k :| 0 <= k < |us| && us[k].sysTid == sysTid && us[k].pkg.orderId == x;
      if k < n { assert us[..n][k].sysTid == sysTid; }
    }
  }

  lemma {:induction false} RunKeepsTids(t: Tables, us: seq<Upsert>)
    ensures Run(t, us).tids == t.tids
  {
    if us != [] { RunKeepsTids(t, us[..|us| - 1]); }
  }

  /** One upsert: whether a system number is known afterwards, and whose it is. */
  lemma OwnerStep(t: Tables, u: Upsert, sysTid: string)
    requires sysTid != ""
    ensures var after := UpsertPackage(t, u).packages;
      && (sysTid in after <==> sysTid in t.packages || u.sysTid == sysTid)
      && (sysTid in after ==>
            after[sysTid].orderId == if u.sysTid == sysTid then TargetOrder(t, u) else t.packages[sysTid].orderId)
  {
  }

  /** Whatever the order of the syncs, a package that was not known before ends up with the oldest
      of the orders that claimed it. */
  lemma {:induction false} OldestClaimantOwns(t: Tables, us: seq<Upsert>, sysTid: string)
    requires sysTid != "" && sysTid !in t.packages && OneTid(t.tids, us)
    ensures sysTid in Run(t, us).packages <==> Claimants(us, sysTid) != {}
    ensures sysTid in Run(t, us).packages ==> IsLeast(Claimants(us, sysTid), Run(t, us).packages[sysTid].orderId)
  {
    if us != [] {
      var n := |us| - 1;
      OldestClaimantOwns(t, us[..n], sysTid);
      ClaimantsStep(us, sysTid);
      RunKeepsTids(t, us[..n]);
      var before, u := Run(t, us[..n]), us[n];
      OwnerStep(before, u, sysTid);
      if u.sysTid == sysTid && sysTid in before.packages {
        var owner := before.packages[sysTid].orderId;
        var k :| 0 <= k < n && us[..n][k].sysTid == sysTid && us[..n][k].pkg.orderId == owner;
        assert SameTid(t.tids, us[k].pkg.orderId, us[n].pkg.orderId);
      }
    }
  }

  /** Two orders of the same syncs agree on every owner. */
  lemma {:induction false} OwnersAgree(t: Tables, a: seq<Upsert>, b: seq<Upsert>, sysTid: string)
    requires sysTid != "" && sysTid !in t.packages && OneTid(t.tids, a) && OneTid(t.tids, b)
    requires multiset(a) == multiset(b)
    ensures sysTid in Run(t, a).packages <==> sysTid in Run(t, b).packages
    ensures sysTid in Run(t, a).packages ==> Run(t, a).packages[sysTid].orderId == Run(t, b).packages[sysTid].orderId
  {
    OldestClaimantOwns(t, a, sysTid);
    OldestClaimantOwns(t, b, sysTid);
    SameClaimants(a, b, sysTid);
    SameClaimants(b, a, sysTid);
  }

  lemma SameClaimants(a: seq<Upsert>, b: seq<Upsert>, sysTid: string)
    requires multiset(a) == multiset(b)
    ensures Claimants(a, sysTid) <= Claimants(b, sysTid)
  {
    forall x | x in Claimants(a, sysTid) ensures x in Claimants(b, sysTid) {
      var k :| 0 <= k < |a| && a[k].sysTid == sysTid && a[k].pkg.orderId == x;
      assert a[k] in multiset(a) && a[k] in multiset(b);
      var j :| 0 <= j < |b| && b[j] == a[k];
    }
  }

  // ---- waybills ----

  ghost predicate MailsDistinct(packages: map<string, Package>) {
    forall s, r :: s in packages && r in packages && s != r ==>
      packages[s].orderId == packages[r].orderId && packages[s].mailNo != "" ==>
        packages[s].mailNo != packages[r].mailNo
  }

  /** The package moves to another order with its old waybill, and that order has it already. */
  predicate Clash(t: Tables, u: Upsert) {
    && u.sysTid != "" && u.sysTid in t.packages && TargetOrder(t, u) != t.packages[u.sysTid].orderId
    && var was := t.packages[u.sysTid].mailNo;
       && was != "" && MailTaken(t.packages, TargetOrder(t, u), was, u.sysTid)
       && (u.pkg.mailNo == ""
           || (was != u.pkg.mailNo && MailTaken(t.packages, TargetOrder(t, u), u.pkg.mailNo, u.sysTid)))
  }

  /** No two packages of an order come to share a waybill, except exactly when a package
      changes order and carries over a waybill already listed there. */
  lemma MailsStayDistinct(t: Tables, u: Upsert)
    requires MailsDistinct(t.packages)
    ensures MailsDistinct(UpsertPackage(t, u).packages) <==> !Clash(t, u)
  {
    var before, after := t.packages, UpsertPackage(t, u).packages;
    if u.sysTid != "" {
      forall s | s in before && s != u.sysTid
        ensures s in after && after[s].orderId == before[s].orderId && after[s].mailNo == before[s].mailNo
      {
      }
      var mail, target := after[u.sysTid].mailNo, after[u.sysTid].orderId;
      assert MailsDistinct(after) <==> mail == "" || !MailTaken(before, target, mail, u.sysTid) by {
        MailsAfter(before, after, u.sysTid);
      }
      if u.sysTid in before && target == before[u.sysTid].orderId && before[u.sysTid].mailNo != "" {
        assert !MailTaken(before, target, before[u.sysTid].mailNo, u.sysTid);
      }
    }
  }

  lemma MailsAfter(before: map<string, Package>, after: map<string, Package>, at: string)
    requires MailsDistinct(before) && at in after
    requires forall s :: s in after && s != at <==> s in before && s != at
    requires forall s :: s in before && s != at ==>
      after[s].orderId == before[s].orderId && after[s].mailNo == before[s].mailNo
    ensures MailsDistinct(after)
       <==> after[at].mailNo == "" || !MailTaken(before, after[at].orderId, after[at].mailNo, at)
  {
    if MailsDistinct(after) && after[at].mailNo != "" {
      forall s | s in before && s != at
        ensures !(before[s].orderId == after[at].orderId && before[s].mailNo == after[at].mailNo)
      {
        assert s in after;
      }
    }
    if after[at].mailNo == "" || !MailTaken(before, after[at].orderId, after[at].mailNo, at) {
      forall s, r | s in after && r in after && s != r && after[s].orderId == after[r].orderId && after[s].mailNo != ""
        ensures after[s].mailNo != after[r].mailNo
      {
        if s == at {
          assert r in before;
        } else if r == at {
          assert s in before;
        }
      }
    }
  }

  const A_PACKAGE := Package(1, "M", false, "", "", "")

  /** It does happen: a package comes from another platform order with the waybill of one that is there. */
  lemma MovingPackageBringsClash()
    ensures var t := Tables(map["S" := A_PACKAGE, "R" := A_PACKAGE.(orderId := 2)], map[1 := "X", 2 := "Y"]);
      var u := Upsert("S", A_PACKAGE.(orderId := 2, mailNo := ""));
      MailsDistinct(t.packages) && Clash(t, u) && !MailsDistinct(UpsertPackage(t, u).packages)
  {
    var t := Tables(map["S" := A_PACKAGE, "R" := A_PACKAGE.(orderId := 2)], map[1 := "X", 2 := "Y"]);
    var u := Upsert("S", A_PACKAGE.(orderId := 2, mailNo := ""));
    assert "R" in t.packages && t.packages["R"].orderId == 2 && t.packages["R"].mailNo == "M";
    assert MailTaken(t.packages, 2, "M", "S");
    MailsStayDistinct(t, u);
  }

  /** A package that stays in its order, or is new, never shares a waybill there. */
  lemma {:induction false} StayingPackagesKeepMails(t: Tables, us: seq<Upsert>)
    requires MailsDistinct(t.packages)
    requires forall k :: 0 <= k < |us| ==>
      var before := Run(t, us[..k]);
      us[k].sysTid in before.packages ==> TargetOrder(before, us[k]) == before.packages[us[k].sysTid].orderId
    ensures MailsDistinct(Run(t, us).packages)
  {
    if us != [] {
      var n := |us| - 1;
      forall k | 0 <= k < n ensures us[..n][..k] == us[..k] {}
      StayingPackagesKeepMails(t, us[..n]);
      MailsStayDistinct(Run(t, us[..n]), us[n]);
    }
  }

  // ---- the table ----

  class PackageStore {
    var packages: map<string, Package>
    var tids: map<nat, string>

    ghost function Contents(): Tables
      reads this
    {
      Tables(packages, tids)
    }

    constructor (stored: Tables)
      ensures Contents() == stored
    {
      packages, tids := stored.packages, stored.tids;
    }

    method UpsertOrderPackage(sysTid: string, pkg: Package) returns (ok: bool)
      modifies this
      ensures ok <==> sysTid != ""
      ensures Contents() == UpsertPackage(old(Contents()), Upsert(sysTid, pkg))
    {
      if sysTid == "" {
        return false;
      }
      if sysTid !in packages {
        var mail := pkg.mailNo;
        if mail != "" {
          if MailTaken(packages, pkg.orderId, mail, sysTid) {
            mail := "";
          }
        }
        packages := packages[sysTid := pkg.(mailNo := mail)];
        return true;
      }
      var existing := packages[sysTid];
      var target := pkg.orderId;
      if existing.orderId > 0 && existing.orderId != pkg.orderId {
        if SameTid(tids, existing.orderId, pkg.orderId) {
          if existing.orderId < pkg.orderId {
            target := existing.orderId;
          }
        }
      }
      var row := existing.(orderId := target, fenFaRemark := pkg.fenFaRemark, printerRemark := pkg.printerRemark,
                           platformStatus := pkg.platformStatus);
      if pkg.mailNo != "" {
        if !MailTaken(packages, target, pkg.mailNo, sysTid) {
          row := row.(mailNo := pkg.mailNo);
        } else if existing.mailNo == pkg.mailNo || existing.mailNo == "" {
          row := row.(mailNo := "");
        }
      }
      if pkg.isPrimary {
        row := row.(isPrimary := true);
        packages := map s | s in packages :: if s != sysTid && packages[s].orderId == target
                                             then packages[s].(isPrimary := false) else packages[s];
      }
      packages := packages[sysTid := row];
      return true;
    }
  }
}
