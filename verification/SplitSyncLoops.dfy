/** The row-by-row form of the split-plan sync, proved to produce the rows that
    SplitSync describes as a whole. */
module SplitSyncLoops {
  import opened OrderModel
  import opened SplitSync

  datatype ExistingChild = ExistingChild(id: nat, shipped: bool, quantity: int)

  // ---- one line at a time ----

  lemma {:induction false} LastLineOf(lines: seq<SplitLine>, l: SplitLine, p: nat)
    ensures Named(lines + [l], p) <==> Named(lines, p) || l.planLine == p
    ensures LastLine(lines + [l], p) == if l.planLine == p then l else LastLine(lines, p)
  {
    assert (lines + [l])[..|lines|] == lines;
  }

  lemma {:induction false} NewPlansOf(items: seq<Item>, lines: seq<SplitLine>, l: SplitLine)
    ensures var before := NewPlans(items, lines);
      NewPlans(items, lines + [l])
      == if Target(items, l.planLine).Some? || l.planLine in before then before else before + [l.planLine]
  {
    assert (lines + [l])[..|lines|] == lines;
  }

  /** Every parent a line names resolves, or the line has none. */
  predicate ParentsResolve(items: seq<Item>, mode: SplitKind, lines: seq<SplitLine>) {
    if mode == Partial then forall l :: l in lines ==> FindRoot(items, l.parent).Some?
    else FindRoot(items, 0).None?
  }

  /** A later line overwrites everything an earlier one wrote. */
  lemma RevisionOverwrites(o: Order, mode: SplitKind, it: Item, a: SplitLine, b: SplitLine)
    requires ParentsResolve(o.items, mode, [a, b]) && a.planLine == b.planLine
    ensures Rebuilt(o.items, mode, Rebuilt(o.items, mode, it, a), b) == Rebuilt(o.items, mode, it, b)
  {
    assert a in [a, b] && b in [a, b];
  }

  lemma {:induction false} LastLineResolves(items: seq<Item>, mode: SplitKind, lines: seq<SplitLine>, p: nat,
                                            l: SplitLine)
    requires Named(lines, p) && ParentsResolve(items, mode, lines) && ParentsResolve(items, mode, [l])
    ensures ParentsResolve(items, mode, [LastLine(lines, p), l])
  {
    NamedLine(lines, p);
    assert l in [l];
  }

  /** The row that stands for `l`'s plan line, after `l`. */
  function AfterLine(o: Order, mode: SplitKind, ec: ExistingChild, row: Item, l: SplitLine): Item {
    if ec.shipped then
      row.(goods := row.goods.(name := l.name, specs := l.name),
           quantity := Clamped(o, row.(quantity := ec.quantity), l.qty))
    else Rebuilt(o.items, mode, row, l)
  }

  lemma KeptRowStep(o: Order, mode: SplitKind, lines: seq<SplitLine>, l: SplitLine, it: Item)
    requires IsPlanChild(it, l.planLine) && Target(o.items, l.planLine) == Some(it.id)
    requires ParentsResolve(o.items, mode, lines) && ParentsResolve(o.items, mode, [l])
    ensures Planned(o, mode, lines + [l], it)
         == AfterLine(o, mode, ExistingChild(it.id, HasShipRow(o.shipments, it.id), it.quantity),
                      Planned(o, mode, lines, it), l)
  {
    LastLineOf(lines, l, l.planLine);
    if Named(lines, l.planLine) {
      NamedLine(lines, l.planLine);
      LastLineResolves(o.items, mode, lines, l.planLine, l);
      RevisionOverwrites(o, mode, it, LastLine(lines, l.planLine), l);
    }
  }

  lemma OtherRowStep(o: Order, mode: SplitKind, lines: seq<SplitLine>, l: SplitLine, it: Item)
    requires !(IsPlanChild(it, l.planLine) && Target(o.items, l.planLine) == Some(it.id))
    ensures Planned(o, mode, lines + [l], it) == Planned(o, mode, lines, it)
  {
    LastLineOf(lines, l, it.planLine);
  }

  lemma {:induction false} NewChildStep(o: Order, mode: SplitKind, lines: seq<SplitLine>, l: SplitLine, nextId: nat,
                                        k: nat)
    requires k < |NewPlans(o.items, lines)|
    requires ParentsResolve(o.items, mode, lines) && ParentsResolve(o.items, mode, [l])
    ensures k < |NewPlans(o.items, lines + [l])|
    ensures NewChild(o, mode, lines + [l], nextId, k)
         == if NewPlans(o.items, lines)[k] == l.planLine
            then Rebuilt(o.items, mode, NewChild(o, mode, lines, nextId, k), l)
            else NewChild(o, mode, lines, nextId, k)
  {
    NewPlansOf(o.items, lines, l);
    var p := NewPlans(o.items, lines)[k];
    LastLineOf(lines, l, p);
    if p == l.planLine {
      NewPlansAre(o.items, lines);
      assert p in NewPlans(o.items, lines);
      NamedLine(lines, p);
      LastLineResolves(o.items, mode, lines, p, l);
      RevisionOverwrites(o, mode, BlankChild(nextId + k, MaxLineNo(o.items) + 1 + k), LastLine(lines, p), l);
    }
  }

  // ---- one line on the whole table ----

  /** A row that is there does not notice a line for another child. */
  lemma {:induction false} OtherRowsStep(o: Order, mode: SplitKind, kept: seq<Item>, lines: seq<SplitLine>,
                                         l: SplitLine, nextId: nat, j: nat)
    requires ParentsResolve(o.items, mode, lines) && ParentsResolve(o.items, mode, [l])
    requires j < |AppliedTo(o, mode, lines, kept, nextId)|
    requires
      if j < |kept| then !(IsPlanChild(kept[j], l.planLine) && Target(o.items, l.planLine) == Some(kept[j].id))
      else NewPlans(o.items, lines)[j - |kept|] != l.planLine
    ensures j < |AppliedTo(o, mode, lines + [l], kept, nextId)|
    ensures AppliedTo(o, mode, lines + [l], kept, nextId)[j] == AppliedTo(o, mode, lines, kept, nextId)[j]
  {
    NewPlansOf(o.items, lines, l);
    AppliedAt(o, mode, lines, kept, nextId, j);
    AppliedAt(o, mode, lines + [l], kept, nextId, j);
    if j < |kept| {
      OtherRowStep(o, mode, lines, l, kept[j]);
    } else {
      NewChildStep(o, mode, lines, l, nextId, j - |kept|);
    }
  }

  lemma {:induction false} ExistingChildStep(o: Order, req: SplitRequest, lines: seq<SplitLine>, l: SplitLine,
                                             nextId: nat, i: nat)
    requires DistinctIds(o.items) && i < |Kept(o, req, o.items)|
    requires var it := Kept(o, req, o.items)[i];
      IsPlanChild(it, l.planLine) && Target(o.items, l.planLine) == Some(it.id)
    requires ParentsResolve(o.items, req.mode, lines) && ParentsResolve(o.items, req.mode, [l])
    ensures var rows := Applied(o, req, lines, nextId); var it := Kept(o, req, o.items)[i];
      Applied(o, req, lines + [l], nextId)
      == rows[i := AfterLine(o, req.mode, ExistingChild(it.id, HasShipRow(o.shipments, it.id), it.quantity), rows[i],
                             l)]
  {
    var kept := Kept(o, req, o.items);
    var before, after := Applied(o, req, lines, nextId), Applied(o, req, lines + [l], nextId);
    NewPlansOf(o.items, lines, l);
    NewPlansAre(o.items, lines);
    KeptIs(o, req, o.items);
    forall j | 0 <= j < |before| && j != i ensures after[j] == before[j] {
      if j < |kept| {
        assert kept[j].id != kept[i].id;
      } else {
        assert NewPlans(o.items, lines)[j - |kept|] in NewPlans(o.items, lines);
      }
      OtherRowsStep(o, req.mode, kept, lines, l, nextId, j);
    }
    AppliedRow(o, req, lines, nextId, i);
    AppliedRow(o, req, lines + [l], nextId, i);
    KeptRowStep(o, req.mode, lines, l, kept[i]);
  }

  lemma {:induction false} CreatedChildRow(o: Order, mode: SplitKind, kept: seq<Item>, lines: seq<SplitLine>,
                                           l: SplitLine, nextId: nat, i: nat)
    requires |kept| <= i < |AppliedTo(o, mode, lines, kept, nextId)|
    requires NewPlans(o.items, lines)[i - |kept|] == l.planLine
    requires ParentsResolve(o.items, mode, lines) && ParentsResolve(o.items, mode, [l])
    ensures i < |AppliedTo(o, mode, lines + [l], kept, nextId)|
    ensures AppliedTo(o, mode, lines + [l], kept, nextId)[i]
         == Rebuilt(o.items, mode, AppliedTo(o, mode, lines, kept, nextId)[i], l)
  {
    NewChildStep(o, mode, lines, l, nextId, i - |kept|);
    AppliedAt(o, mode, lines, kept, nextId, i);
    AppliedAt(o, mode, lines + [l], kept, nextId, i);
  }

  lemma {:induction false} CreatedChildStep(o: Order, mode: SplitKind, kept: seq<Item>, lines: seq<SplitLine>,
                                            l: SplitLine, nextId: nat, i: nat)
    requires Target(o.items, l.planLine).None? && |kept| <= i < |AppliedTo(o, mode, lines, kept, nextId)|
    requires NewPlans(o.items, lines)[i - |kept|] == l.planLine
    requires ParentsResolve(o.items, mode, lines) && ParentsResolve(o.items, mode, [l])
    ensures var rows := AppliedTo(o, mode, lines, kept, nextId);
      AppliedTo(o, mode, lines + [l], kept, nextId) == rows[i := Rebuilt(o.items, mode, rows[i], l)]
  {
    var before, after := AppliedTo(o, mode, lines, kept, nextId), AppliedTo(o, mode, lines + [l], kept, nextId);
    NewPlansOf(o.items, lines, l);
    assert l.planLine in NewPlans(o.items, lines);
    forall j | 0 <= j < |before| && j != i ensures after[j] == before[j] {
      OtherPlan(o, mode, lines, kept, nextId, i, j);
      OtherRowsStep(o, mode, kept, lines, l, nextId, j);
    }
    CreatedChildRow(o, mode, kept, lines, l, nextId, i);
    ChangedAt(before, after, i);
  }

  /** No two new children are for the same plan line. */
  lemma {:induction false} OtherPlan(o: Order, mode: SplitKind, lines: seq<SplitLine>, kept: seq<Item>, nextId: nat,
                                     i: nat, j: nat)
    requires |kept| <= i < |AppliedTo(o, mode, lines, kept, nextId)| && j != i
    ensures |kept| <= j < |AppliedTo(o, mode, lines, kept, nextId)| ==>
      NewPlans(o.items, lines)[j - |kept|] != NewPlans(o.items, lines)[i - |kept|]
  {
    NewPlansAre(o.items, lines);
  }

  lemma ChangedAt<T>(before: seq<T>, after: seq<T>, i: nat)
    requires |after| == |before| && i < |before| && forall j :: 0 <= j < |before| && j != i ==> after[j] == before[j]
    ensures after == before[i := after[i]]
  {
  }

  lemma {:induction false} AddedChild(o: Order, mode: SplitKind, lines: seq<SplitLine>, l: SplitLine, nextId: nat)
    requires Target(o.items, l.planLine).None? && l.planLine !in NewPlans(o.items, lines)
    ensures var n := |NewPlans(o.items, lines)|;
      && |NewPlans(o.items, lines + [l])| == n + 1
      && NewChild(o, mode, lines + [l], nextId, n)
         == Rebuilt(o.items, mode, BlankChild(nextId + n, MaxLineNo(o.items) + 1 + n), l)
  {
    NewPlansOf(o.items, lines, l);
    LastLineOf(lines, l, l.planLine);
  }

  lemma {:induction false} AddedChildStep(o: Order, mode: SplitKind, kept: seq<Item>, lines: seq<SplitLine>,
                                          l: SplitLine, nextId: nat)
    requires Target(o.items, l.planLine).None? && l.planLine !in NewPlans(o.items, lines)
    requires ParentsResolve(o.items, mode, lines) && ParentsResolve(o.items, mode, [l])
    requires |NewPlans(o.items, lines + [l])| == |NewPlans(o.items, lines)| + 1
    ensures AppliedTo(o, mode, lines + [l], kept, nextId)
         == AppliedTo(o, mode, lines, kept, nextId)
            + [NewChild(o, mode, lines + [l], nextId, |NewPlans(o.items, lines)|)]
  {
    var before, after := AppliedTo(o, mode, lines, kept, nextId), AppliedTo(o, mode, lines + [l], kept, nextId);
    forall j | 0 <= j < |before| ensures after[j] == before[j] {
      if j >= |kept| { assert NewPlans(o.items, lines)[j - |kept|] in NewPlans(o.items, lines); }
      OtherRowsStep(o, mode, kept, lines, l, nextId, j);
    }
    AppliedAt(o, mode, lines + [l], kept, nextId, |before|);
    OneMore(before, after);
  }

  lemma OneMore<T>(before: seq<T>, after: seq<T>)
    requires |after| == |before| + 1 && forall j :: 0 <= j < |before| ==> after[j] == before[j]
    ensures after == before + [after[|before|]]
  {
  }

  lemma {:induction false} AddedRow(o: Order, req: SplitRequest, lines: seq<SplitLine>, l: SplitLine, nextId: nat)
    requires Target(o.items, l.planLine).None? && l.planLine !in NewPlans(o.items, lines)
    requires ParentsResolve(o.items, req.mode, lines) && ParentsResolve(o.items, req.mode, [l])
    ensures var n := |NewPlans(o.items, lines)|;
      Applied(o, req, lines + [l], nextId)
      == Applied(o, req, lines, nextId)
         + [Rebuilt(o.items, req.mode, BlankChild(nextId + n, MaxLineNo(o.items) + 1 + n), l)]
  {
    AddedChild(o, req.mode, lines, l, nextId);
    AddedChildStep(o, req.mode, Kept(o, req, o.items), lines, l, nextId);
  }

  // ---- the loops ----

  method ShippedItemIds(shipments: seq<Shipment>) returns (ids: set<nat>)
    ensures forall id :: id in ids <==> HasShipRow(shipments, id)
  {
    ids := {};
    for s := 0 to |shipments|
      invariant forall id :: id in ids <==>
        id != 0 && exists t, r :: 0 <= t < s && 0 <= r < |shipments[t].rows| && shipments[t].rows[r].itemId == id
    {
      ghost var before := ids;
      var rows := shipments[s].rows;
      for k := 0 to |rows|
        invariant forall id :: id in ids <==>
          id in before || (id != 0 && exists r :: 0 <= r < k && rows[r].itemId == id)
      {
        if rows[k].itemId > 0 {
          ids := ids + {rows[k].itemId};
        }
      }
    }
  }

  method ScopeParents(req: SplitRequest) returns (scope: set<nat>)
    requires req.mode == Partial
    ensures forall it :: InScope(req, it) <==> scope == {} || it.parent in scope
  {
    scope := {};
    if req.parent > 0 {
      scope := {req.parent};
    }
    for k := 0 to |req.lines|
      invariant forall p ::
        p in scope <==> p != 0 && (p == req.parent || exists j :: 0 <= j < k && req.lines[j].parent == p)
    {
      if req.lines[k].parent > 0 {
        scope := scope + {req.lines[k].parent};
      }
    }
    assert scope == {} <==> req.parent == 0 && forall k :: 0 <= k < |req.lines| ==> req.lines[k].parent == 0 by {
      if req.parent != 0 { assert req.parent in scope; }
      forall k | 0 <= k < |req.lines| && req.lines[k].parent != 0 ensures scope != {} {
        assert req.lines[k].parent in scope;
      }
      if scope != {} { var p :| p in scope; }
    }
  }

  method PlanLines(lines: seq<SplitLine>) returns (plans: set<nat>)
    ensures forall p :: p in plans <==> Named(lines, p)
  {
    plans := {};
    for k := 0 to |lines|
      invariant forall p :: p in plans <==> Named(lines[..k], p)
    {
      assert lines[..k + 1][..k] == lines[..k];
      plans := plans + {lines[k].planLine};
    }
    assert lines[..|lines|] == lines;
  }

  method CheckLines(items: seq<Item>, req: SplitRequest) returns (e: Option<SplitError>)
    ensures e == FirstLineError(items, req.mode, req.lines)
  {
    for k := 0 to |req.lines|
      invariant FirstLineError(items, req.mode, req.lines[..k]).None?
    {
      assert req.lines[..k + 1][..k] == req.lines[..k];
      e := LineError(items, req.mode, req.lines[k]);
      if e.Some? {
        FirstErrorStays(items, req.mode, req.lines, k + 1);
        return;
      }
    }
    assert req.lines[..|req.lines|] == req.lines;
    return None;
  }

  lemma {:induction false} FirstErrorStays(items: seq<Item>, mode: SplitKind, lines: seq<SplitLine>, k: nat)
    requires k <= |lines| && FirstLineError(items, mode, lines[..k]).Some?
    ensures FirstLineError(items, mode, lines) == FirstLineError(items, mode, lines[..k])
    decreases |lines| - k
  {
    if k == |lines| {
      assert lines[..k] == lines;
    } else {
      assert lines[..k + 1][..k] == lines[..k];
      FirstErrorStays(items, mode, lines, k + 1);
    }
  }

  /** The children by plan line; the last one with a plan line wins. */
  method ChildrenByPlan(o: Order, shipped: set<nat>) returns (byPlan: map<nat, ExistingChild>)
    requires forall id :: id in shipped <==> HasShipRow(o.shipments, id)
    ensures forall p: nat :: p in byPlan <==> p != 0 && Target(o.items, p).Some?
    ensures forall p :: p in byPlan ==> StandsFor(o, p, byPlan[p])
  {
    byPlan := map[];
    for i := 0 to |o.items|
      invariant forall p: nat :: p in byPlan <==> p != 0 && Target(o.items[..i], p).Some?
      invariant forall p :: p in byPlan ==>
        exists it :: it in o.items && IsPlanChild(it, p) && Target(o.items[..i], p) == Some(it.id)
          && byPlan[p] == ExistingChild(it.id, HasShipRow(o.shipments, it.id), it.quantity)
    {
      assert o.items[..i + 1][..i] == o.items[..i];
      var it := o.items[i];
      assert it in o.items;
      if it.split == NoSplit {
        continue;
      }
      if it.planLine > 0 {
        byPlan := byPlan[it.planLine := ExistingChild(it.id, it.id in shipped, it.quantity)];
      }
    }
    assert o.items[..|o.items|] == o.items;
  }

  ghost predicate StandsFor(o: Order, p: nat, ec: ExistingChild) {
    exists it :: it in o.items && IsPlanChild(it, p) && Target(o.items, p) == Some(it.id)
      && ec == ExistingChild(it.id, HasShipRow(o.shipments, it.id), it.quantity)
  }

  /** Delete the children that have not shipped and are in scope but not in the plan. */
  method DeleteUnplanned(o: Order, req: SplitRequest, shipped: set<nat>) returns (kept: seq<Item>)
    requires forall id :: id in shipped <==> HasShipRow(o.shipments, id)
    ensures kept == Kept(o, req, o.items)
  {
    var plans := PlanLines(req.lines);
    var scope: set<nat> := {};
    if req.mode == Partial {
      scope := ScopeParents(req);
    }
    kept := [];
    for i := 0 to |o.items|
      invariant kept == Kept(o, req, o.items[..i])
    {
      assert o.items[..i + 1][..i] == o.items[..i];
      var it := o.items[i];
      var delete := it.split != NoSplit && it.id !in shipped;
      if delete && req.mode == Partial && scope != {} && it.parent !in scope {
        delete := false;
      }
      if delete && it.planLine > 0 && it.planLine in plans {
        delete := false;
      }
      if !delete {
        kept := kept + [it];
      }
    }
    assert o.items[..|o.items|] == o.items;
  }

  method LastLineNo(items: seq<Item>) returns (n: int)
    ensures n == MaxLineNo(items)
  {
    n := 0;
    for i := 0 to |items|
      invariant n == MaxLineNo(items[..i])
    {
      assert items[..i + 1][..i] == items[..i];
      if items[i].lineNo > n {
        n := items[i].lineNo;
      }
    }
    assert items[..|items|] == items;
  }

  /** How the plan-line map stands after `lines`. */
  ghost predicate Tracks(o: Order, lines: seq<SplitLine>, nextId: nat, byPlan: map<nat, ExistingChild>) {
    TracksPlans(o, NewPlans(o.items, lines), nextId, byPlan)
  }

  ghost predicate TracksPlans(o: Order, ps: seq<nat>, nextId: nat, byPlan: map<nat, ExistingChild>) {
    && (forall p :: p in byPlan <==> p != 0 && (Target(o.items, p).Some? || p in ps))
    && (forall p :: p in byPlan && Target(o.items, p).Some? ==> StandsFor(o, p, byPlan[p]))
    && (forall k :: 0 <= k < |ps| ==>
          ps[k] in byPlan && Target(o.items, ps[k]).None? && byPlan[ps[k]].id == nextId + k && !byPlan[ps[k]].shipped)
  }

  lemma {:induction false} PlanAdded(o: Order, ps: seq<nat>, nextId: nat, byPlan: map<nat, ExistingChild>, p: nat,
                                     quantity: int)
    requires TracksPlans(o, ps, nextId, byPlan) && p !in byPlan && p != 0
    ensures Target(o.items, p).None? && p !in ps
    ensures TracksPlans(o, ps + [p], nextId, byPlan[p := ExistingChild(nextId + |ps|, false, quantity)])
  {
    forall k | 0 <= k < |ps| ensures ps[k] != p {
      assert ps[k] in byPlan;
    }
    forall q ensures q in ps + [p] <==> q in ps || q == p {}
  }

  lemma TracksNothing(o: Order, nextId: nat, byPlan: map<nat, ExistingChild>)
    requires forall p: nat :: p in byPlan <==> p != 0 && Target(o.items, p).Some?
    requires forall p :: p in byPlan ==> StandsFor(o, p, byPlan[p])
    ensures Tracks(o, [], nextId, byPlan)
  {
  }

  lemma {:induction false} TracksKnown(o: Order, lines: seq<SplitLine>, line: SplitLine, nextId: nat,
                                       byPlan: map<nat, ExistingChild>)
    requires Tracks(o, lines, nextId, byPlan) && line.planLine in byPlan
    ensures NewPlans(o.items, lines + [line]) == NewPlans(o.items, lines)
    ensures Tracks(o, lines + [line], nextId, byPlan)
  {
    NewPlansOf(o.items, lines, line);
  }

  lemma {:induction false} TracksAdded(o: Order, lines: seq<SplitLine>, line: SplitLine, nextId: nat,
                                       byPlan: map<nat, ExistingChild>, quantity: int)
    requires Tracks(o, lines, nextId, byPlan) && line.planLine !in byPlan && line.planLine != 0
    ensures NewPlans(o.items, lines + [line]) == NewPlans(o.items, lines) + [line.planLine]
    ensures Target(o.items, line.planLine).None? && line.planLine !in NewPlans(o.items, lines)
    ensures Tracks(o, lines + [line], nextId,
                   byPlan[line.planLine := ExistingChild(nextId + |NewPlans(o.items, lines)|, false, quantity)])
  {
    PlanAdded(o, NewPlans(o.items, lines), nextId, byPlan, line.planLine, quantity);
    NewPlansOf(o.items, lines, line);
  }

  lemma LineReady(o: Order, req: SplitRequest, k: nat)
    requires DistinctIds(o.items) && RequestFault(o, req).None? && k < |req.lines|
    ensures PlansGiven(req.mode, req.lines[..k]) && req.mode != NoSplit && req.lines[k].planLine != 0
    ensures ParentsResolve(o.items, req.mode, req.lines[..k]) && ParentsResolve(o.items, req.mode, [req.lines[k]])
    ensures Named(req.lines, req.lines[k].planLine)
  {
    FaultlessLines(o, req);
    NamedLine(req.lines, req.lines[k].planLine);
    assert req.lines[k] in req.lines;
    if req.mode == Partial {
      forall l | l in req.lines[..k] || l in [req.lines[k]] ensures FindRoot(o.items, l.parent).Some? {
        assert l in req.lines;
      }
    }
  }

  /** The sync itself: delete, then walk the lines, updating or creating one child each. */
  method SyncSplitRows(o: Order, req: SplitRequest, nextId: nat)
    returns (r: Result<Order, SplitError>, freeId: nat)
    requires DistinctIds(o.items) && FreshId(o, nextId)
    ensures r == SyncSplit(o, req, nextId)
    ensures freeId == if r.Ok? then nextId + |NewPlans(o.items, req.lines)| else nextId
  {
    freeId := nextId;
    if |req.lines| > 0 && req.mode == NoSplit {
      return Err(ModeMissing), freeId;
    }
    var fault := CheckLines(o.items, req);
    if fault.Some? {
      return Err(fault.value), freeId;
    }
    var items;
    items, freeId := WalkLines(o, req, nextId);
    return Ok(o.(items := items)), freeId;
  }

  method WalkLines(o: Order, req: SplitRequest, nextId: nat) returns (items: seq<Item>, freeId: nat)
    requires DistinctIds(o.items) && FreshId(o, nextId) && RequestFault(o, req).None?
    ensures items == Applied(o, req, req.lines, nextId)
    ensures freeId == nextId + |NewPlans(o.items, req.lines)|
  {
    freeId := nextId;
    var maxLine := LastLineNo(o.items);
    var byPlan;
    items, byPlan := BeforeLines(o, req, nextId);
    assert req.lines[..0] == [];
    for k := 0 to |req.lines|
      invariant items == Applied(o, req, req.lines[..k], nextId)
      invariant freeId == nextId + |NewPlans(o.items, req.lines[..k])|
      invariant maxLine == MaxLineNo(o.items) + |NewPlans(o.items, req.lines[..k])|
      invariant Tracks(o, req.lines[..k], nextId, byPlan)
    {
      assert req.lines[..k + 1] == req.lines[..k] + [req.lines[k]];
      LineReady(o, req, k);
      items, byPlan, maxLine, freeId :=
        ApplyLine(o, req, req.lines[..k], req.lines[k], nextId, items, byPlan, maxLine, freeId);
    }
    assert req.lines[..|req.lines|] == req.lines;
  }

  /** The kept rows and the map of known plan lines. */
  method BeforeLines(o: Order, req: SplitRequest, ghost nextId: nat)
    returns (items: seq<Item>, byPlan: map<nat, ExistingChild>)
    requires DistinctIds(o.items) && FreshId(o, nextId) && RequestFault(o, req).None?
    ensures items == Applied(o, req, [], nextId) && Tracks(o, [], nextId, byPlan)
  {
    var shipped := ShippedItemIds(o.shipments);
    byPlan := ChildrenByPlan(o, shipped);
    items := DeleteUnplanned(o, req, shipped);
    TracksNothing(o, nextId, byPlan);
    assert PlannedRows(o, req.mode, [], items) == items;
    assert Applied(o, req, [], nextId) == items + [];
  }

  /** One line of the plan. */
  method ApplyLine(o: Order, req: SplitRequest, ghost lines: seq<SplitLine>, line: SplitLine, ghost nextId: nat,
                   items: seq<Item>, byPlan: map<nat, ExistingChild>, maxLine: int, freeId: nat)
    returns (items': seq<Item>, byPlan': map<nat, ExistingChild>, maxLine': int, freeId': nat)
    requires DistinctIds(o.items) && FreshId(o, nextId)
    requires PlansGiven(req.mode, lines) && line.planLine != 0 && Named(req.lines, line.planLine)
    requires ParentsResolve(o.items, req.mode, lines) && ParentsResolve(o.items, req.mode, [line])
    requires items == Applied(o, req, lines, nextId)
    requires freeId == nextId + |NewPlans(o.items, lines)|
    requires maxLine == MaxLineNo(o.items) + |NewPlans(o.items, lines)|
    requires Tracks(o, lines, nextId, byPlan)
    ensures items' == Applied(o, req, lines + [line], nextId)
    ensures freeId' == nextId + |NewPlans(o.items, lines + [line])|
    ensures maxLine' == MaxLineNo(o.items) + |NewPlans(o.items, lines + [line])|
    ensures Tracks(o, lines + [line], nextId, byPlan')
  {
    items', byPlan', maxLine', freeId' := items, byPlan, maxLine, freeId;
    if line.planLine in byPlan {
      var ec := byPlan[line.planLine];
      TracksKnown(o, lines, line, nextId, byPlan);
      KnownChild(o, lines, line, nextId, byPlan);
      items' := ReviseChild(o, req, lines, line, nextId, items, ec);
    } else {
      items', byPlan', maxLine', freeId' := AddChild(o, req, lines, line, nextId, items, byPlan, maxLine, freeId);
    }
  }

  /** A plan line without a child. */
  method AddChild(o: Order, req: SplitRequest, ghost lines: seq<SplitLine>, line: SplitLine, ghost nextId: nat,
                  items: seq<Item>, byPlan: map<nat, ExistingChild>, maxLine: int, freeId: nat)
    returns (items': seq<Item>, byPlan': map<nat, ExistingChild>, maxLine': int, freeId': nat)
    requires DistinctIds(o.items) && FreshId(o, nextId)
    requires PlansGiven(req.mode, lines) && line.planLine != 0 && Named(req.lines, line.planLine)
    requires ParentsResolve(o.items, req.mode, lines) && ParentsResolve(o.items, req.mode, [line])
    requires items == Applied(o, req, lines, nextId)
    requires freeId == nextId + |NewPlans(o.items, lines)|
    requires maxLine == MaxLineNo(o.items) + |NewPlans(o.items, lines)|
    requires Tracks(o, lines, nextId, byPlan) && line.planLine !in byPlan
    ensures items' == Applied(o, req, lines + [line], nextId)
    ensures freeId' == nextId + |NewPlans(o.items, lines + [line])|
    ensures maxLine' == MaxLineNo(o.items) + |NewPlans(o.items, lines + [line])|
    ensures Tracks(o, lines + [line], nextId, byPlan')
  {
    TracksAdded(o, lines, line, nextId, byPlan, line.qty);
    maxLine' := maxLine + 1;
    items' := CreateChild(o, req, lines, line, nextId, items, maxLine', freeId);
    byPlan' := byPlan[line.planLine := ExistingChild(freeId, false, line.qty)];
    freeId' := freeId + 1;
  }

  method ReviseChild(o: Order, req: SplitRequest, ghost lines: seq<SplitLine>, line: SplitLine, ghost nextId: nat,
                     items: seq<Item>, ec: ExistingChild)
    returns (items': seq<Item>)
    requires DistinctIds(o.items) && FreshId(o, nextId)
    requires PlansGiven(req.mode, lines) && line.planLine != 0 && Named(req.lines, line.planLine)
    requires ParentsResolve(o.items, req.mode, lines) && ParentsResolve(o.items, req.mode, [line])
    requires items == Applied(o, req, lines, nextId)
    requires if Target(o.items, line.planLine).Some? then StandsFor(o, line.planLine, ec)
             else AddedFor(o, lines, line.planLine, nextId, ec)
    ensures items' == Applied(o, req, lines + [line], nextId)
  {
    ghost var at := ChildAt(o, req, lines, line, nextId, ec);
    var i := RowOf(items, ec.id, at);
    items' := items[i := AfterLine(o, req.mode, ec, items[i], line)];
  }

  method CreateChild(o: Order, req: SplitRequest, ghost lines: seq<SplitLine>, line: SplitLine, ghost nextId: nat,
                     items: seq<Item>, lineNo: int, id: nat)
    returns (items': seq<Item>)
    requires Target(o.items, line.planLine).None? && line.planLine !in NewPlans(o.items, lines)
    requires ParentsResolve(o.items, req.mode, lines) && ParentsResolve(o.items, req.mode, [line])
    requires items == Applied(o, req, lines, nextId)
    requires id == nextId + |NewPlans(o.items, lines)| && lineNo == MaxLineNo(o.items) + 1 + |NewPlans(o.items, lines)|
    ensures items' == Applied(o, req, lines + [line], nextId)
  {
    AddedRow(o, req, lines, line, nextId);
    items' := items + [Rebuilt(o.items, req.mode, BlankChild(id, lineNo), line)];
  }

  lemma KnownChild(o: Order, lines: seq<SplitLine>, line: SplitLine, nextId: nat, byPlan: map<nat, ExistingChild>)
    requires Tracks(o, lines, nextId, byPlan) && line.planLine in byPlan
    ensures if Target(o.items, line.planLine).Some? then StandsFor(o, line.planLine, byPlan[line.planLine])
            else AddedFor(o, lines, line.planLine, nextId, byPlan[line.planLine])
  {
    if Target(o.items, line.planLine).None? {
      var k :| 0 <= k < |NewPlans(o.items, lines)| && NewPlans(o.items, lines)[k] == line.planLine;
    }
  }

  /** The row a primary key names. */
  method RowOf(items: seq<Item>, id: nat, ghost at: nat) returns (i: nat)
    requires DistinctIds(items) && at < |items| && items[at].id == id
    ensures i == at
  {
    FindItemAt(items, at);
    i := FindItem(items, id).value;
  }

  ghost predicate AddedFor(o: Order, lines: seq<SplitLine>, p: nat, nextId: nat, ec: ExistingChild) {
    !ec.shipped
    && exists k :: 0 <= k < |NewPlans(o.items, lines)| && NewPlans(o.items, lines)[k] == p && ec.id == nextId + k
  }

  /** Where the child of a known plan line is, and what the line makes of it. */
  lemma ChildAt(o: Order, req: SplitRequest, lines: seq<SplitLine>, line: SplitLine, nextId: nat, ec: ExistingChild)
    returns (at: nat)
    requires DistinctIds(o.items) && FreshId(o, nextId)
    requires PlansGiven(req.mode, lines) && line.planLine != 0 && Named(req.lines, line.planLine)
    requires ParentsResolve(o.items, req.mode, lines) && ParentsResolve(o.items, req.mode, [line])
    requires if Target(o.items, line.planLine).Some? then StandsFor(o, line.planLine, ec)
             else AddedFor(o, lines, line.planLine, nextId, ec)
    ensures DistinctIds(Applied(o, req, lines, nextId))
    ensures at < |Applied(o, req, lines, nextId)| && Applied(o, req, lines, nextId)[at].id == ec.id
    ensures Applied(o, req, lines + [line], nextId)
         == Applied(o, req, lines, nextId)[at := AfterLine(o, req.mode, ec, Applied(o, req, lines, nextId)[at], line)]
  {
    AppliedDistinct(o, req, lines, nextId);
    if Target(o.items, line.planLine).Some? {
      at := KeptChildAt(o, req, lines, line, nextId, ec);
    } else {
      at := AddedChildAt(o, req, lines, line, nextId, ec);
    }
  }

  lemma KeptChildAt(o: Order, req: SplitRequest, lines: seq<SplitLine>, line: SplitLine, nextId: nat, ec: ExistingChild)
    returns (at: nat)
    requires DistinctIds(o.items) && FreshId(o, nextId)
    requires PlansGiven(req.mode, lines) && line.planLine != 0 && Named(req.lines, line.planLine)
    requires ParentsResolve(o.items, req.mode, lines) && ParentsResolve(o.items, req.mode, [line])
    requires Target(o.items, line.planLine).Some? && StandsFor(o, line.planLine, ec)
    ensures at < |Applied(o, req, lines, nextId)| && Applied(o, req, lines, nextId)[at].id == ec.id
    ensures Applied(o, req, lines + [line], nextId)
         == Applied(o, req, lines, nextId)[at := AfterLine(o, req.mode, ec, Applied(o, req, lines, nextId)[at], line)]
  {
    var it :| it in o.items && IsPlanChild(it, line.planLine) && Target(o.items, line.planLine) == Some(it.id)
      && ec == ExistingChild(it.id, HasShipRow(o.shipments, it.id), it.quantity);
    at := KeptAt(o, req, it);
    AppliedRow(o, req, lines, nextId, at);
    PlannedKeeps(o, req.mode, lines, it);
    ExistingChildStep(o, req, lines, line, nextId, at);
  }

  lemma AddedAt(o: Order, lines: seq<SplitLine>, p: nat, nextId: nat, ec: ExistingChild) returns (k: nat)
    requires AddedFor(o, lines, p, nextId, ec)
    ensures k < |NewPlans(o.items, lines)| && NewPlans(o.items, lines)[k] == p && ec.id == nextId + k && !ec.shipped
  {
    k :| 0 <= k < |NewPlans(o.items, lines)| && NewPlans(o.items, lines)[k] == p && ec.id == nextId + k && !ec.shipped;
  }

  lemma AddedIsRebuilt(o: Order, mode: SplitKind, ec: ExistingChild, row: Item, line: SplitLine)
    requires !ec.shipped
    ensures AfterLine(o, mode, ec, row, line) == Rebuilt(o.items, mode, row, line)
  {
  }

  lemma AddedChildAt(o: Order, req: SplitRequest, lines: seq<SplitLine>, line: SplitLine, nextId: nat,
                     ec: ExistingChild)
    returns (at: nat)
    requires DistinctIds(o.items) && FreshId(o, nextId)
    requires PlansGiven(req.mode, lines) && line.planLine != 0 && Named(req.lines, line.planLine)
    requires ParentsResolve(o.items, req.mode, lines) && ParentsResolve(o.items, req.mode, [line])
    requires Target(o.items, line.planLine).None? && AddedFor(o, lines, line.planLine, nextId, ec)
    ensures at < |Applied(o, req, lines, nextId)| && Applied(o, req, lines, nextId)[at].id == ec.id
    ensures Applied(o, req, lines + [line], nextId)
         == Applied(o, req, lines, nextId)[at := AfterLine(o, req.mode, ec, Applied(o, req, lines, nextId)[at], line)]
  {
    at := AddedChildIn(o, req.mode, Kept(o, req, o.items), lines, line, nextId, ec);
  }

  lemma AddedChildIn(o: Order, mode: SplitKind, kept: seq<Item>, lines: seq<SplitLine>, line: SplitLine, nextId: nat,
                     ec: ExistingChild)
    returns (at: nat)
    requires PlansGiven(mode, lines) && ParentsResolve(o.items, mode, lines) && ParentsResolve(o.items, mode, [line])
    requires Target(o.items, line.planLine).None? && AddedFor(o, lines, line.planLine, nextId, ec)
    ensures var rows := AppliedTo(o, mode, lines, kept, nextId);
      && at < |rows| && rows[at].id == ec.id
      && AppliedTo(o, mode, lines + [line], kept, nextId) == rows[at := AfterLine(o, mode, ec, rows[at], line)]
  {
    var k := AddedAt(o, lines, line.planLine, nextId, ec);
    at := |kept| + k;
    NewChildFollows(o, mode, lines, nextId, k);
    AppliedAt(o, mode, lines, kept, nextId, at);
    AddedIsRebuilt(o, mode, ec, AppliedTo(o, mode, lines, kept, nextId)[at], line);
    CreatedChildStep(o, mode, kept, lines, line, nextId, at);
  }
}
