/** Writing a synced payload onto the item rows of an order: each line refreshes
    the stored row it matches best, or becomes a new row. */
module RowSync {
  import opened OrderModel

  // ---- matching ----

  /** The ways a line can name a stored row, best first. */
  datatype Tier = ByOid | ByItemAndSku | BySku | ByName | ByLineNo

  predicate Matches(t: Tier, want: Item, root: Item) {
    match t
    case ByOid => want.goods.oid != "" && root.goods.oid == want.goods.oid
    case ByItemAndSku =>
      want.goods.itemId != "" && want.goods.skuId != ""
      && root.goods.itemId == want.goods.itemId && root.goods.skuId == want.goods.skuId
    case BySku => want.goods.skuId != "" && root.goods.skuId == want.goods.skuId
    case ByName =>
      (want.goods.name != "" || want.goods.specs != "")
      && root.goods.name == want.goods.name && root.goods.specs == want.goods.specs
    case ByLineNo => want.lineNo > 0 && root.lineNo == want.lineNo
  }

  /** Rows are read in key order. */
  ghost predicate SortedIds(rows: seq<Item>) {
    && (forall i :: 0 <= i < |rows| ==> rows[i].id != 0)
    && (forall i, j :: 0 <= i < j < |rows| ==> rows[i].id < rows[j].id)
  }

  predicate Candidate(t: Tier, want: Item, root: Item, used: set<nat>) {
    IsRoot(root) && root.id !in used && Matches(t, want, root)
  }

  /** The oldest unused root the tier accepts. */
  function FirstUnused(t: Tier, want: Item, rows: seq<Item>, used: set<nat>): Option<Item> {
    if rows == [] then None
    else
      var n := |rows| - 1;
      var before := FirstUnused(t, want, rows[..n], used);
      if before.Some? then before
      else if Candidate(t, want, rows[n], used) then Some(rows[n])
      else None
  }

  lemma {:induction false} FirstUnusedIs(t: Tier, want: Item, rows: seq<Item>, used: set<nat>)
    ensures var r := FirstUnused(t, want, rows, used);
      if r.Some? then r.value in rows && Candidate(t, want, r.value, used)
      else forall q :: q in rows ==> !Candidate(t, want, q, used)
  {
    if rows != [] {
      var n := |rows| - 1;
      FirstUnusedIs(t, want, rows[..n], used);
      assert rows == rows[..n] + [rows[n]];
    }
  }

  lemma {:induction false} FirstUnusedIsLeast(t: Tier, want: Item, rows: seq<Item>, used: set<nat>, q: Item)
    requires SortedIds(rows) && q in rows && Candidate(t, want, q, used)
    ensures FirstUnused(t, want, rows, used).Some? && FirstUnused(t, want, rows, used).value.id <= q.id
  {
    var n := |rows| - 1;
    var i :| 0 <= i < |rows| && rows[i] == q;
    if i < n {
      assert q in rows[..n];
      FirstUnusedIsLeast(t, want, rows[..n], used, q);
    } else {
      FirstUnusedIs(t, want, rows[..n], used);
    }
  }

  /** Try the tiers in order; row numbers only count when the payload is the whole order. */
  function BestMatch(want: Item, rows: seq<Item>, used: set<nat>, keep: bool): Option<Item> {
    var a := FirstUnused(ByOid, want, rows, used);
    var b := FirstUnused(ByItemAndSku, want, rows, used);
    var c := FirstUnused(BySku, want, rows, used);
    var d := FirstUnused(ByName, want, rows, used);
    if a.Some? then a else if b.Some? then b else if c.Some? then c else if d.Some? then d
    else if keep then None else FirstUnused(ByLineNo, want, rows, used)
  }

  lemma BestMatchIsUnused(want: Item, rows: seq<Item>, used: set<nat>, keep: bool)
    ensures var r := BestMatch(want, rows, used, keep);
      r.Some? ==> r.value in rows && IsRoot(r.value) && r.value.id !in used
  {
    FirstUnusedIs(ByOid, want, rows, used);
    FirstUnusedIs(ByItemAndSku, want, rows, used);
    FirstUnusedIs(BySku, want, rows, used);
    FirstUnusedIs(ByName, want, rows, used);
    FirstUnusedIs(ByLineNo, want, rows, used);
  }

  /** A payload line as a root row; a missing row number is its position. */
  function Prepared(line: Item, i: nat): Item {
    line.(lineNo := if line.lineNo <= 0 then i + 1 else line.lineNo, parent := 0, split := NoSplit, planLine := 0)
  }

  function UsedBy(choices: seq<Option<nat>>): set<nat> {
    set k | 0 <= k < |choices| && choices[k].Some? :: choices[k].value
  }

  /** The stored row each line takes, line by line, no row twice. */
  function Choices(rows: seq<Item>, payload: seq<Item>, keep: bool): (c: seq<Option<nat>>)
    ensures |c| == |payload|
  {
    if payload == [] then []
    else
      var n := |payload| - 1;
      var before := Choices(rows, payload[..n], keep);
      var best := BestMatch(Prepared(payload[n], n), rows, UsedBy(before), keep);
      before + [if best.Some? then Some(best.value.id) else None]
  }

  // ---- the table afterwards ----

  /** The line that took row `id`. */
  function LineOf(choices: seq<Option<nat>>, id: nat): (r: Option<nat>)
    ensures r.Some? ==> r.value < |choices| && choices[r.value] == Some(id)
    ensures r.None? ==> forall k :: 0 <= k < |choices| ==> choices[k] != Some(id)
  {
    if choices == [] then None
    else
      var n := |choices| - 1;
      if choices[n] == Some(id) then Some(n) else LineOf(choices[..n], id)
  }

  /** A matched row keeps its key, number, allocation and place in the split tree. */
  function Refreshed(root: Item, line: Item): Item {
    root.(skuId := if line.skuId == 0 then root.skuId else line.skuId,
          skuCode := FirstNonEmpty(line.skuCode, root.skuCode),
          goods := line.goods.(oid := FirstNonEmpty(line.goods.oid, root.goods.oid)),
          quantity := line.quantity, price := line.price, total := line.total, lineClosed := line.lineClosed)
  }

  predicate HasChildren(rows: seq<Item>, id: nat) {
    id != 0 && exists i :: 0 <= i < |rows| && rows[i].parent == id
  }

  function Touched(row: Item, payload: seq<Item>, choices: seq<Option<nat>>): Item
    requires |choices| == |payload|
  {
    if IsRoot(row) && LineOf(choices, row.id).Some? then Refreshed(row, payload[LineOf(choices, row.id).value]) else row
  }

  /** A root no line took goes, unless other packages may own it or children hang on it. */
  predicate Doomed(row: Item, rows: seq<Item>, choices: seq<Option<nat>>, keep: bool) {
    IsRoot(row) && LineOf(choices, row.id).None? && !keep && !HasChildren(rows, row.id)
  }

  function Survivors(part: seq<Item>, rows: seq<Item>, payload: seq<Item>, choices: seq<Option<nat>>,
                     keep: bool): seq<Item>
    requires |choices| == |payload|
  {
    if part == [] then []
    else
      var n := |part| - 1;
      var before := Survivors(part[..n], rows, payload, choices, keep);
      if Doomed(part[n], rows, choices, keep) then before else before + [Touched(part[n], payload, choices)]
  }

  function MaxRootLine(rows: seq<Item>): int {
    if rows == [] then 0
    else
      var before := MaxRootLine(rows[..|rows| - 1]);
      var row := rows[|rows| - 1];
      if IsRoot(row) && row.lineNo > before then row.lineNo else before
  }

  /** The rows for the lines nothing matched. */
  function Created(payload: seq<Item>, choices: seq<Option<nat>>, keep: bool, nextId: nat, maxLine: int): seq<Item>
    requires |choices| == |payload|
  {
    if payload == [] then []
    else
      var n := |payload| - 1;
      var before := Created(payload[..n], choices[..n], keep, nextId, maxLine);
      if choices[n].Some? then before
      else before + [FreshRow(payload[n], n, |before|, keep, nextId, maxLine)]
  }

  /** Line `i` as the row created after `rank` others; a merged one is numbered after the stored rows. */
  function FreshRow(line: Item, i: nat, rank: nat, keep: bool, nextId: nat, maxLine: int): Item {
    var row := Prepared(line, i).(id := nextId + rank);
    if keep then row.(lineNo := maxLine + rank + 1) else row
  }

  function SyncRows(rows: seq<Item>, payload: seq<Item>, keep: bool, nextId: nat): seq<Item> {
    var choices := Choices(rows, payload, keep);
    Survivors(rows, rows, payload, choices, keep) + Created(payload, choices, keep, nextId, MaxRootLine(rows))
  }

  // ---- the matching is a partial injection into the roots ----

  ghost predicate Injective(choices: seq<Option<nat>>) {
    forall i, j :: 0 <= i < j < |choices| && choices[i].Some? ==> choices[i] != choices[j]
  }

  ghost predicate IntoRoots(rows: seq<Item>, choices: seq<Option<nat>>) {
    forall k :: 0 <= k < |choices| && choices[k].Some? ==>
      exists row :: row in rows && IsRoot(row) && row.id == choices[k].value
  }

  lemma {:induction false} ChoicesInjective(rows: seq<Item>, payload: seq<Item>, keep: bool)
    ensures Injective(Choices(rows, payload, keep)) && IntoRoots(rows, Choices(rows, payload, keep))
  {
    if payload != [] {
      var n := |payload| - 1;
      ChoicesInjective(rows, payload[..n], keep);
      var before := Choices(rows, payload[..n], keep);
      BestMatchIsUnused(Prepared(payload[n], n), rows, UsedBy(before), keep);
      assert forall k :: 0 <= k < n && before[k].Some? ==> before[k].value in UsedBy(before);
    }
  }

  lemma {:induction false} ChoicesPrefix(rows: seq<Item>, payload: seq<Item>, keep: bool, n: nat)
    requires n <= |payload|
    ensures Choices(rows, payload, keep)[..n] == Choices(rows, payload[..n], keep)
    decreases |payload|
  {
    if n == |payload| {
      assert payload[..n] == payload;
    } else {
      ChoicesPrefix(rows, payload[..|payload| - 1], keep, n);
      assert payload[..|payload| - 1][..n] == payload[..n];
    }
  }

  // ---- where the rows of the result come from ----

  ghost predicate FromRow(x: Item, part: seq<Item>, rows: seq<Item>, payload: seq<Item>, choices: seq<Option<nat>>,
                          keep: bool)
    requires |choices| == |payload|
  {
    exists row :: row in part && !Doomed(row, rows, choices, keep) && x == Touched(row, payload, choices)
  }

  lemma {:induction false} SurvivorsAre(part: seq<Item>, rows: seq<Item>, payload: seq<Item>,
                                        choices: seq<Option<nat>>, keep: bool)
    requires |choices| == |payload|
    ensures forall x :: x in Survivors(part, rows, payload, choices, keep) ==>
      FromRow(x, part, rows, payload, choices, keep)
  {
    if part != [] {
      var n := |part| - 1;
      SurvivorsAre(part[..n], rows, payload, choices, keep);
      assert part == part[..n] + [part[n]];
      forall x | x in Survivors(part[..n], rows, payload, choices, keep)
        ensures FromRow(x, part, rows, payload, choices, keep)
      {
        var row :| row in part[..n] && !Doomed(row, rows, choices, keep) && x == Touched(row, payload, choices);
        assert row in part;
      }
    }
  }

  lemma {:induction false} SurvivorsSorted(part: seq<Item>, rows: seq<Item>, payload: seq<Item>,
                                           choices: seq<Option<nat>>, keep: bool)
    requires |choices| == |payload| && SortedIds(part)
    ensures SortedIds(Survivors(part, rows, payload, choices, keep))
    ensures part != [] ==> forall x :: x in Survivors(part, rows, payload, choices, keep) ==>
      x.id <= part[|part| - 1].id
  {
    if part != [] {
      var n := |part| - 1;
      SurvivorsSorted(part[..n], rows, payload, choices, keep);
      assert n > 0 ==> part[..n][n - 1].id < part[n].id;
    }
  }

  lemma {:induction false} RowSurvives(part: seq<Item>, rows: seq<Item>, payload: seq<Item>, choices: seq<Option<nat>>,
                                       keep: bool, row: Item)
    requires |choices| == |payload| && row in part && !Doomed(row, rows, choices, keep)
    ensures Touched(row, payload, choices) in Survivors(part, rows, payload, choices, keep)
  {
    var n := |part| - 1;
    assert part == part[..n] + [part[n]];
    if row in part[..n] {
      RowSurvives(part[..n], rows, payload, choices, keep, row);
    }
  }

  /** The new row for line `j`. */
  function NewRow(payload: seq<Item>, choices: seq<Option<nat>>, keep: bool, nextId: nat, maxLine: int, j: nat): Item
    requires j < |payload| == |choices|
  {
    var rank := |Created(payload[..j], choices[..j], keep, nextId, maxLine)|;
    FreshRow(payload[j], j, rank, keep, nextId, maxLine)
  }

  lemma NewRowPrefix(payload: seq<Item>, choices: seq<Option<nat>>, keep: bool, nextId: nat, maxLine: int, n: nat,
                     j: nat)
    requires j < n <= |payload| == |choices|
    ensures NewRow(payload[..n], choices[..n], keep, nextId, maxLine, j)
         == NewRow(payload, choices, keep, nextId, maxLine, j)
  {
    assert payload[..n][..j] == payload[..j] && choices[..n][..j] == choices[..j];
  }

  /** New keys are consecutive, and every new row belongs to an unmatched line. */
  lemma {:induction false} CreatedAre(payload: seq<Item>, choices: seq<Option<nat>>, keep: bool, nextId: nat,
                                      maxLine: int)
    requires |choices| == |payload| && nextId != 0
    ensures forall i :: 0 <= i < |Created(payload, choices, keep, nextId, maxLine)| ==>
      Created(payload, choices, keep, nextId, maxLine)[i].id == nextId + i
    ensures forall x :: x in Created(payload, choices, keep, nextId, maxLine) ==>
      exists j :: 0 <= j < |payload| && choices[j].None? && x == NewRow(payload, choices, keep, nextId, maxLine, j)
  {
    if payload != [] {
      var n := |payload| - 1;
      CreatedAre(payload[..n], choices[..n], keep, nextId, maxLine);
      var before := Created(payload[..n], choices[..n], keep, nextId, maxLine);
      var all := Created(payload, choices, keep, nextId, maxLine);
      forall x | x in before
        ensures exists j ::
          0 <= j < |payload| && choices[j].None? && x == NewRow(payload, choices, keep, nextId, maxLine, j)
      {
        var j :| 0 <= j < n && choices[..n][j].None?
          && x == NewRow(payload[..n], choices[..n], keep, nextId, maxLine, j);
        NewRowPrefix(payload, choices, keep, nextId, maxLine, n, j);
        assert choices[j].None?;
      }
      if choices[n].None? {
        var last := NewRow(payload, choices, keep, nextId, maxLine, n);
        assert all == before + [last];
      }
    }
  }

  lemma {:induction false} LineCreated(payload: seq<Item>, choices: seq<Option<nat>>, keep: bool, nextId: nat,
                                       maxLine: int, j: nat)
    requires j < |payload| == |choices| && choices[j].None?
    ensures NewRow(payload, choices, keep, nextId, maxLine, j) in Created(payload, choices, keep, nextId, maxLine)
  {
    var n := |payload| - 1;
    if j < n {
      LineCreated(payload[..n], choices[..n], keep, nextId, maxLine, j);
      NewRowPrefix(payload, choices, keep, nextId, maxLine, n, j);
    }
  }

  /** Lines created later get larger keys. */
  lemma {:induction false} RankGrows(payload: seq<Item>, choices: seq<Option<nat>>, keep: bool, nextId: nat,
                                     maxLine: int, i: nat, j: nat)
    requires i < j <= |payload| == |choices| && choices[i].None?
    ensures |Created(payload[..i], choices[..i], keep, nextId, maxLine)|
          < |Created(payload[..j], choices[..j], keep, nextId, maxLine)|
    decreases j
  {
    assert payload[..j][..j - 1] == payload[..j - 1] && choices[..j][..j - 1] == choices[..j - 1];
    if i < j - 1 {
      RankGrows(payload, choices, keep, nextId, maxLine, i, j - 1);
    }
  }

  // ---- replay ----

  ghost predicate DistinctOids(payload: seq<Item>) {
    && (forall i :: 0 <= i < |payload| ==> payload[i].goods.oid != "")
    && (forall i, j :: 0 <= i < j < |payload| ==> payload[i].goods.oid != payload[j].goods.oid)
  }

  ghost predicate FreshKey(rows: seq<Item>, nextId: nat) {
    nextId != 0 && forall x :: x in rows ==> x.id < nextId
  }

  /** The row that holds line `j` after the sync. */
  function OwnId(rows: seq<Item>, payload: seq<Item>, keep: bool, nextId: nat, j: nat): nat
    requires j < |payload|
  {
    var choices := Choices(rows, payload, keep);
    if choices[j].Some? then choices[j].value
    else NewRow(payload, choices, keep, nextId, MaxRootLine(rows), j).id
  }

  lemma OwnIdsDiffer(rows: seq<Item>, payload: seq<Item>, keep: bool, nextId: nat, i: nat, j: nat)
    requires FreshKey(rows, nextId) && i < j < |payload|
    ensures OwnId(rows, payload, keep, nextId, i) != OwnId(rows, payload, keep, nextId, j)
  {
    var choices := Choices(rows, payload, keep);
    ChoicesInjective(rows, payload, keep);
    if choices[i].None? && choices[j].None? {
      RankGrows(payload, choices, keep, nextId, MaxRootLine(rows), i, j);
    }
  }

  lemma SyncedSorted(rows: seq<Item>, payload: seq<Item>, keep: bool, nextId: nat)
    requires SortedIds(rows) && FreshKey(rows, nextId)
    ensures SortedIds(SyncRows(rows, payload, keep, nextId))
  {
    var choices := Choices(rows, payload, keep);
    SurvivorsSorted(rows, rows, payload, choices, keep);
    CreatedAre(payload, choices, keep, nextId, MaxRootLine(rows));
    if rows != [] { assert rows[|rows| - 1] in rows; }
  }

  lemma {:induction false} LineOfChoice(choices: seq<Option<nat>>, j: nat)
    requires Injective(choices) && j < |choices| && choices[j].Some?
    ensures LineOf(choices, choices[j].value) == Some(j)
  {
    var r := LineOf(choices, choices[j].value);
    assert r.Some?;
  }

  /** Quantity, amounts, goods and after-sale state are the line's; what the line leaves empty is not. */
  predicate SaysLine(x: Item, line: Item) {
    && x.quantity == line.quantity && x.price == line.price && x.total == line.total && x.lineClosed == line.lineClosed
    && x.goods.itemId == line.goods.itemId && x.goods.skuId == line.goods.skuId
    && x.goods.name == line.goods.name && x.goods.specs == line.goods.specs
    && (line.goods.oid != "" ==> x.goods.oid == line.goods.oid)
    && (line.skuId != 0 ==> x.skuId == line.skuId) && (line.skuCode != "" ==> x.skuCode == line.skuCode)
  }

  /** Of a stored row that a line took: what the line leaves empty, and its place in the order. */
  predicate KeepsStored(x: Item, row: Item, line: Item) {
    && (line.goods.oid == "" ==> x.goods.oid == row.goods.oid)
    && (line.skuId == 0 ==> x.skuId == row.skuId) && (line.skuCode == "" ==> x.skuCode == row.skuCode)
    && x.id == row.id && x.lineNo == row.lineNo && x.parent == row.parent && x.split == row.split
    && x.planLine == row.planLine && x.packageId == row.packageId && x.ful == row.ful
  }

  /** A new row is a root that has nothing but what line `i` says; where the payload is the whole order it is
      numbered as the line is, or by its position. */
  predicate IsNewFor(x: Item, line: Item, i: nat, keep: bool) {
    && x.goods == line.goods && x.skuId == line.skuId && x.skuCode == line.skuCode
    && x.parent == 0 && x.split == NoSplit && x.planLine == 0 && x.packageId == line.packageId && x.ful == line.ful
    && (!keep ==> x.lineNo == if line.lineNo > 0 then line.lineNo else i + 1)
  }

  /** After the sync a line finds its own row, already saying what the line says. */
  lemma OwnRow(rows: seq<Item>, payload: seq<Item>, keep: bool, nextId: nat, j: nat) returns (x: Item)
    requires FreshKey(rows, nextId) && j < |payload|
    ensures x in SyncRows(rows, payload, keep, nextId) && x.id == OwnId(rows, payload, keep, nextId, j)
    ensures IsRoot(x) && Refreshed(x, payload[j]) == x
    ensures x.goods == payload[j].goods.(oid := x.goods.oid)
    ensures SaysLine(x, payload[j])
    ensures match Choices(rows, payload, keep)[j]
      case Some(id) => exists row :: row in rows && IsRoot(row) && row.id == id && KeepsStored(x, row, payload[j])
      case None => IsNewFor(x, payload[j], j, keep) && forall row :: row in rows ==> row.id < x.id
  {
    var choices := Choices(rows, payload, keep);
    ChoicesInjective(rows, payload, keep);
    if choices[j].Some? {
      var row :| row in rows && IsRoot(row) && row.id == choices[j].value;
      LineOfChoice(choices, j);
      RowSurvives(rows, rows, payload, choices, keep, row);
      x := Touched(row, payload, choices);
    } else {
      LineCreated(payload, choices, keep, nextId, MaxRootLine(rows), j);
      x := NewRow(payload, choices, keep, nextId, MaxRootLine(rows), j);
    }
  }

  /** What a root of the result is: the own row of a line, or a root no line took. */
  lemma RootOfResult(rows: seq<Item>, payload: seq<Item>, keep: bool, nextId: nat, x: Item) returns (line: Option<nat>)
    requires FreshKey(rows, nextId) && x in SyncRows(rows, payload, keep, nextId) && IsRoot(x)
    ensures match line
      case Some(j) => j < |payload| && x.id == OwnId(rows, payload, keep, nextId, j)
        && (payload[j].goods.oid != "" ==> x.goods.oid == payload[j].goods.oid)
      case None => (
        && x in rows && LineOf(Choices(rows, payload, keep), x.id).None?
        && !Doomed(x, rows, Choices(rows, payload, keep), keep))
  {
    var choices := Choices(rows, payload, keep);
    if x in Survivors(rows, rows, payload, choices, keep) {
      SurvivorsAre(rows, rows, payload, choices, keep);
      var row :| row in rows && !Doomed(row, rows, choices, keep) && x == Touched(row, payload, choices);
      line := LineOf(choices, row.id);
    } else {
      CreatedAre(payload, choices, keep, nextId, MaxRootLine(rows));
      var j :| 0 <= j < |payload| && choices[j].None?
        && x == NewRow(payload, choices, keep, nextId, MaxRootLine(rows), j);
      line := Some(j);
    }
  }

  /** A root no line took, with the oid of line `n`, must be younger than the row line `n` took. */
  lemma {:induction false} UntakenIsYounger(rows: seq<Item>, payload: seq<Item>, keep: bool, nextId: nat, n: nat,
                                            e: Item)
    requires SortedIds(rows) && n < |payload| && e in rows && IsRoot(e)
    requires e.goods.oid == payload[n].goods.oid != "" && LineOf(Choices(rows, payload, keep), e.id).None?
    ensures OwnId(rows, payload, keep, nextId, n) <= e.id
  {
    var choices := Choices(rows, payload, keep);
    ChoicesPrefix(rows, payload, keep, n);
    ChoicesPrefix(rows, payload, keep, n + 1);
    var before := Choices(rows, payload[..n], keep);
    assert payload[..n + 1][..n] == payload[..n];
    forall k | 0 <= k < n ensures before[k] != Some(e.id) {
      assert before[k] == choices[k];
    }
    assert Candidate(ByOid, Prepared(payload[n], n), e, UsedBy(before));
    FirstUnusedIsLeast(ByOid, Prepared(payload[n], n), rows, UsedBy(before), e);
    assert choices[n] == Choices(rows, payload[..n + 1], keep)[n];
  }

  /** The second time, every line finds exactly its own row. */
  lemma {:induction false} SecondChoices(rows: seq<Item>, payload: seq<Item>, keep: bool, nextId: nat, n: nat)
    requires SortedIds(rows) && FreshKey(rows, nextId) && DistinctOids(payload) && n <= |payload|
    ensures forall k :: 0 <= k < n ==>
      Choices(SyncRows(rows, payload, keep, nextId), payload[..n], keep)[k]
        == Some(OwnId(rows, payload, keep, nextId, k))
  {
    if n > 0 {
      var after := SyncRows(rows, payload, keep, nextId);
      assert payload[..n][..n - 1] == payload[..n - 1];
      SecondChoices(rows, payload, keep, nextId, n - 1);
      var used := UsedBy(Choices(after, payload[..n - 1], keep));
      SecondBest(rows, payload, keep, nextId, n - 1, used);
    }
  }

  lemma SecondBest(rows: seq<Item>, payload: seq<Item>, keep: bool, nextId: nat, n: nat, used: set<nat>)
    requires SortedIds(rows) && FreshKey(rows, nextId) && DistinctOids(payload) && n < |payload|
    requires forall id :: id in used ==> exists k :: 0 <= k < n && id == OwnId(rows, payload, keep, nextId, k)
    ensures var best := BestMatch(Prepared(payload[n], n), SyncRows(rows, payload, keep, nextId), used, keep);
      best.Some? && best.value.id == OwnId(rows, payload, keep, nextId, n)
  {
    var after, want := SyncRows(rows, payload, keep, nextId), Prepared(payload[n], n);
    var own := OwnRow(rows, payload, keep, nextId, n);
    forall k | 0 <= k < n ensures OwnId(rows, payload, keep, nextId, k) != own.id {
      OwnIdsDiffer(rows, payload, keep, nextId, k, n);
    }
    assert Candidate(ByOid, want, own, used);
    SyncedSorted(rows, payload, keep, nextId);
    FirstUnusedIsLeast(ByOid, want, after, used, own);
    FirstUnusedIs(ByOid, want, after, used);
    var x := FirstUnused(ByOid, want, after, used).value;
    var line := RootOfResult(rows, payload, keep, nextId, x);
    if line.None? {
      UntakenIsYounger(rows, payload, keep, nextId, n, x);
    }
  }

  lemma {:induction false} NothingCreated(payload: seq<Item>, choices: seq<Option<nat>>, keep: bool, nextId: nat,
                                          maxLine: int)
    requires |choices| == |payload| && forall k :: 0 <= k < |choices| ==> choices[k].Some?
    ensures Created(payload, choices, keep, nextId, maxLine) == []
  {
    if payload != [] {
      NothingCreated(payload[..|payload| - 1], choices[..|payload| - 1], keep, nextId, maxLine);
    }
  }

  lemma {:induction false} AllSurvive(part: seq<Item>, rows: seq<Item>, payload: seq<Item>, choices: seq<Option<nat>>,
                                      keep: bool)
    requires |choices| == |payload|
    requires forall x :: x in part ==> !Doomed(x, rows, choices, keep) && Touched(x, payload, choices) == x
    ensures Survivors(part, rows, payload, choices, keep) == part
  {
    if part != [] {
      var n := |part| - 1;
      assert part == part[..n] + [part[n]];
      AllSurvive(part[..n], rows, payload, choices, keep);
    }
  }

  /** A row that children hang on keeps them. */
  lemma ChildrenStay(rows: seq<Item>, payload: seq<Item>, keep: bool, nextId: nat, id: nat)
    requires HasChildren(rows, id)
    ensures HasChildren(SyncRows(rows, payload, keep, nextId), id)
  {
    var i :| 0 <= i < |rows| && rows[i].parent == id;
    var after := SyncRows(rows, payload, keep, nextId);
    ChildUntouched(rows, payload, keep, nextId, rows[i]);
    var k :| 0 <= k < |after| && after[k] == rows[i];
  }

  /** Split children, and any row that is not a root, are left exactly as they are. */
  lemma ChildUntouched(rows: seq<Item>, payload: seq<Item>, keep: bool, nextId: nat, row: Item)
    requires row in rows && !IsRoot(row)
    ensures row in SyncRows(rows, payload, keep, nextId)
  {
    RowSurvives(rows, rows, payload, Choices(rows, payload, keep), keep, row);
  }

  /** Merging a package never deletes a stored root: each keeps its key, allocation and package. */
  lemma MergeKeepsRoots(rows: seq<Item>, payload: seq<Item>, nextId: nat, row: Item)
    requires row in rows
    ensures exists x :: (
      && x in SyncRows(rows, payload, true, nextId)
      && x.id == row.id && x.ful == row.ful && x.packageId == row.packageId && x.lineNo == row.lineNo)
  {
    RowSurvives(rows, rows, payload, Choices(rows, payload, true), true, row);
  }

  lemma SecondFate(rows: seq<Item>, payload: seq<Item>, keep: bool, nextId: nat, choices: seq<Option<nat>>, x: Item)
    requires SortedIds(rows) && FreshKey(rows, nextId) && |choices| == |payload|
    requires forall k :: 0 <= k < |payload| ==> choices[k] == Some(OwnId(rows, payload, keep, nextId, k))
    requires x in SyncRows(rows, payload, keep, nextId)
    ensures !Doomed(x, SyncRows(rows, payload, keep, nextId), choices, keep) && Touched(x, payload, choices) == x
  {
    var after := SyncRows(rows, payload, keep, nextId);
    if IsRoot(x) {
      var line := LineOf(choices, x.id);
      if line.Some? {
        var own := OwnRow(rows, payload, keep, nextId, line.value);
        SyncedSorted(rows, payload, keep, nextId);
        SameKeySameRow(after, x, own);
      } else {
        var was := RootOfResult(rows, payload, keep, nextId, x);
        assert was.None?;
        if !keep { ChildrenStay(rows, payload, keep, nextId, x.id); }
      }
    }
  }

  lemma SameKeySameRow(rows: seq<Item>, x: Item, y: Item)
    requires SortedIds(rows) && x in rows && y in rows && x.id == y.id
    ensures x == y
  {
    var i :| 0 <= i < |rows| && rows[i] == x;
    var j :| 0 <= j < |rows| && rows[j] == y;
  }

  /** Syncing the same payload again changes nothing, creates nothing and deletes nothing,
      in both modes, as soon as the lines carry distinct oids; the stored rows may carry any. */
  lemma ReplayIsNoOp(rows: seq<Item>, payload: seq<Item>, keep: bool, nextId: nat, laterId: nat)
    requires SortedIds(rows) && FreshKey(rows, nextId) && DistinctOids(payload)
    ensures var after := SyncRows(rows, payload, keep, nextId); SyncRows(after, payload, keep, laterId) == after
  {
    var after := SyncRows(rows, payload, keep, nextId);
    SecondChoices(rows, payload, keep, nextId, |payload|);
    assert payload[..|payload|] == payload;
    var choices := Choices(after, payload, keep);
    forall x | x in after { SecondFate(rows, payload, keep, nextId, choices, x); }
    AllSurvive(after, after, payload, choices, keep);
    NothingCreated(payload, choices, keep, laterId, MaxRootLine(after));
    assert after + [] == after;
  }

  // ---- payloads without oids ----

  /** A line that names a product in some way a merge looks at. */
  predicate Identified(line: Item) {
    line.goods.oid != "" || line.goods.skuId != "" || line.goods.name != "" || line.goods.specs != ""
  }

  /** A single line finds the same row again: that row still matches in the tier it was found in,
      and no other row has come to match better. */
  lemma {:induction false} SameTierAgain(t: Tier, line: Item, rows: seq<Item>, after: seq<Item>, own: Item)
    requires SortedIds(after)
    requires forall x :: x in after && x.id != own.id && IsRoot(x) ==> x in rows
    requires own in after && IsRoot(own)
    requires FirstUnused(t, line, rows, {}).None? || (Matches(t, line, own)
      && forall q :: q in rows && Candidate(t, line, q, {}) ==> own.id <= q.id)
    ensures FirstUnused(t, line, after, {}).Some? ==> FirstUnused(t, line, after, {}).value.id == own.id
    ensures Matches(t, line, own) ==> FirstUnused(t, line, after, {}).Some?
  {
    FirstUnusedIs(t, line, rows, {});
    FirstUnusedIs(t, line, after, {});
    if Matches(t, line, own) {
      FirstUnusedIsLeast(t, line, after, {}, own);
    }
  }

  lemma {:induction false} OnlyChoice(rows: seq<Item>, line: Item, keep: bool)
    ensures var best := BestMatch(Prepared(line, 0), rows, {}, keep);
      Choices(rows, [line], keep) == [if best.Some? then Some(best.value.id) else None]
  {
    assert [line][..0] == [];
    assert UsedBy(Choices(rows, [], keep)) == {};
  }

  lemma OthersWereThere(rows: seq<Item>, line: Item, keep: bool, nextId: nat, x: Item)
    requires FreshKey(rows, nextId) && x in SyncRows(rows, [line], keep, nextId) && IsRoot(x)
    requires x.id != OwnId(rows, [line], keep, nextId, 0)
    ensures x in rows
  {
    var was := RootOfResult(rows, [line], keep, nextId, x);
  }

  lemma {:induction false} SingleLineAgain(rows: seq<Item>, line: Item, keep: bool, nextId: nat)
    requires SortedIds(rows) && FreshKey(rows, nextId) && (!keep || Identified(line))
    ensures Choices(SyncRows(rows, [line], keep, nextId), [line], keep) == [Some(OwnId(rows, [line], keep, nextId, 0))]
  {
    var after, want := SyncRows(rows, [line], keep, nextId), Prepared(line, 0);
    var own := OwnRow(rows, [line], keep, nextId, 0);
    SyncedSorted(rows, [line], keep, nextId);
    OnlyChoice(rows, line, keep);
    OnlyChoice(after, line, keep);
    forall x | x in after && x.id != own.id && IsRoot(x) ensures x in rows {
      OthersWereThere(rows, line, keep, nextId, x);
    }
    SingleLineFound(rows, want, keep, after, own);
  }

  lemma SingleLineFound(rows: seq<Item>, want: Item, keep: bool, after: seq<Item>, own: Item)
    requires SortedIds(rows) && SortedIds(after) && own in after && IsRoot(own)
    requires forall x :: x in after && x.id != own.id && IsRoot(x) ==> x in rows
    requires own.goods == want.goods.(oid := own.goods.oid)
    requires want.goods.oid != "" ==> own.goods.oid == want.goods.oid
    requires want.lineNo > 0 && (keep ==> Identified(want))
    requires var best := BestMatch(want, rows, {}, keep);
      if best.Some? then
        own.id == best.value.id && exists x :: x in rows && IsRoot(x) && x.id == best.value.id && own.lineNo == x.lineNo
      else !keep ==> own.lineNo == want.lineNo
    ensures BestMatch(want, after, {}, keep).Some? && BestMatch(want, after, {}, keep).value.id == own.id
  {
    var best := BestMatch(want, rows, {}, keep);
    if best.Some? {
      BestMatchIsUnused(want, rows, {}, keep);
      SameLineNo(rows, best.value, own.lineNo);
      SingleLineMatched(rows, want, keep, after, own);
    } else {
      SingleLineUnmatched(rows, want, keep, after, own);
    }
  }

  lemma SameLineNo(rows: seq<Item>, row: Item, lineNo: int)
    requires SortedIds(rows) && row in rows
    requires exists x :: x in rows && IsRoot(x) && x.id == row.id && lineNo == x.lineNo
    ensures lineNo == row.lineNo
  {
    var x :| x in rows && IsRoot(x) && x.id == row.id && lineNo == x.lineNo;
    SameKeySameRow(rows, x, row);
  }

  lemma SingleLineUnmatched(rows: seq<Item>, want: Item, keep: bool, after: seq<Item>, own: Item)
    requires SortedIds(after) && own in after && IsRoot(own)
    requires forall x :: x in after && x.id != own.id && IsRoot(x) ==> x in rows
    requires BestMatch(want, rows, {}, keep).None?
    requires own.goods == want.goods.(oid := own.goods.oid)
    requires want.goods.oid != "" ==> own.goods.oid == want.goods.oid
    requires if keep then Identified(want) else want.lineNo > 0 && own.lineNo == want.lineNo
    ensures BestMatch(want, after, {}, keep).Some? && BestMatch(want, after, {}, keep).value.id == own.id
  {
    SameTierAgain(ByOid, want, rows, after, own);
    SameTierAgain(ByItemAndSku, want, rows, after, own);
    SameTierAgain(BySku, want, rows, after, own);
    SameTierAgain(ByName, want, rows, after, own);
    if !keep { SameTierAgain(ByLineNo, want, rows, after, own); }
  }

  lemma SingleLineMatched(rows: seq<Item>, want: Item, keep: bool, after: seq<Item>, own: Item)
    requires SortedIds(rows) && SortedIds(after) && own in after && IsRoot(own)
    requires forall x :: x in after && x.id != own.id && IsRoot(x) ==> x in rows
    requires BestMatch(want, rows, {}, keep).Some? && BestMatch(want, rows, {}, keep).value.id == own.id
    requires own.goods == want.goods.(oid := own.goods.oid)
    requires want.goods.oid != "" ==> own.goods.oid == want.goods.oid
    requires own.lineNo == BestMatch(want, rows, {}, keep).value.lineNo
    ensures BestMatch(want, after, {}, keep).Some? && BestMatch(want, after, {}, keep).value.id == own.id
  {
    var t := if FirstUnused(ByOid, want, rows, {}).Some? then ByOid
             else if FirstUnused(ByItemAndSku, want, rows, {}).Some? then ByItemAndSku
             else if FirstUnused(BySku, want, rows, {}).Some? then BySku
             else if FirstUnused(ByName, want, rows, {}).Some? then ByName
             else ByLineNo;
    FirstUnusedIs(t, want, rows, {});
    forall q | q in rows && Candidate(t, want, q, {}) ensures own.id <= q.id {
      FirstUnusedIsLeast(t, want, rows, {}, q);
    }
    assert Matches(t, want, own);
    SameTierAgain(t, want, rows, after, own);
    if t != ByOid { SameTierAgain(ByOid, want, rows, after, own); }
    if t != ByOid && t != ByItemAndSku { SameTierAgain(ByItemAndSku, want, rows, after, own); }
    if t == ByName || t == ByLineNo { SameTierAgain(BySku, want, rows, after, own); }
    if t == ByLineNo { SameTierAgain(ByName, want, rows, after, own); }
  }

  lemma {:induction false} SingleLineFate(rows: seq<Item>, line: Item, keep: bool, nextId: nat, laterId: nat)
    requires SortedIds(rows) && FreshKey(rows, nextId)
    requires Choices(SyncRows(rows, [line], keep, nextId), [line], keep) == [Some(OwnId(rows, [line], keep, nextId, 0))]
    ensures var after := SyncRows(rows, [line], keep, nextId); SyncRows(after, [line], keep, laterId) == after
  {
    var after := SyncRows(rows, [line], keep, nextId);
    var choices := Choices(after, [line], keep);
    forall x | x in after ensures !Doomed(x, after, choices, keep) && Touched(x, [line], choices) == x {
      SecondFate(rows, [line], keep, nextId, choices, x);
    }
    AllSurvive(after, after, [line], choices, keep);
    NothingCreated([line], choices, keep, laterId, MaxRootLine(after));
    assert after + [] == after;
  }

  /** For a single line the replay is a no-op exactly when the line is identified or row numbers count. */
  lemma SingleLineReplay(rows: seq<Item>, line: Item, keep: bool, nextId: nat, laterId: nat)
    requires SortedIds(rows) && FreshKey(rows, nextId)
    ensures var after := SyncRows(rows, [line], keep, nextId);
      SyncRows(after, [line], keep, laterId) == after <==> !keep || Identified(line)
  {
    var after := SyncRows(rows, [line], keep, nextId);
    if keep && !Identified(line) {
      BlankLineGrows(after, line, laterId);
    } else {
      SingleLineAgain(rows, line, keep, nextId);
      SingleLineFate(rows, line, keep, nextId, laterId);
    }
  }

  lemma {:induction false} BlankUnmatched(rows: seq<Item>, line: Item)
    requires line.goods.oid == "" && line.goods.skuId == "" && line.goods.name == "" && line.goods.specs == ""
    ensures Choices(rows, [line], true) == [None]
  {
    var want := Prepared(line, 0);
    FirstUnusedIs(ByOid, want, rows, {});
    FirstUnusedIs(ByItemAndSku, want, rows, {});
    FirstUnusedIs(BySku, want, rows, {});
    FirstUnusedIs(ByName, want, rows, {});
    OnlyChoice(rows, line, true);
  }

  /** Without an identity the promise fails: a merged line with no oid, sku, name or specs is
      inserted again by every sync, whatever is stored. */
  lemma BlankLineGrows(rows: seq<Item>, line: Item, nextId: nat)
    requires line.goods.oid == "" && line.goods.skuId == "" && line.goods.name == "" && line.goods.specs == ""
    ensures |SyncRows(rows, [line], true, nextId)| == |rows| + 1
  {
    var choices := [None];
    BlankUnmatched(rows, line);
    forall x | x in rows ensures !Doomed(x, rows, choices, true) && Touched(x, [line], choices) == x {
      assert LineOf(choices, x.id).None?;
    }
    AllSurvive(rows, rows, [line], choices, true);
    assert [line][..0] == [] && choices[..0] == [];
    assert |Created([line], choices, true, nextId, MaxRootLine(rows))| == 1;
  }

  const STORED := Item(1, 1, 0, "", Goods("", "", "s", "m", ""), 1, 0, 0, false, 0, NoSplit, 0, 0, NO_FULFILMENT)
  const BY_NAME := STORED.(id := 0, goods := Goods("", "", "", "n", ""))
  const BY_SKU := STORED.(id := 0, goods := Goods("", "", "s", "n", ""))

  /** Two identified lines without oids can trade rows on the second sync: the first one,
      inserted at first, then finds the renamed row of the other. */
  lemma ReplayCanSwap()
    ensures SyncRows([STORED], [BY_NAME, BY_SKU], true, 2)
         == [STORED.(goods := BY_SKU.goods), BY_NAME.(id := 2, lineNo := 2)]
    ensures SyncRows([STORED.(goods := BY_SKU.goods), BY_NAME.(id := 2, lineNo := 2)], [BY_NAME, BY_SKU], true, 3)
         == [STORED.(goods := BY_NAME.goods), BY_NAME.(id := 2, lineNo := 2, goods := BY_SKU.goods)]
  {
    FirstChoices();
    FirstSync([BY_NAME, BY_SKU], [None, Some(1)]);
    SecondSwap();
    SecondSync([BY_NAME, BY_SKU], [Some(1), Some(2)]);
  }

  lemma {:induction false} FirstSync(payload: seq<Item>, choices: seq<Option<nat>>)
    requires payload == [BY_NAME, BY_SKU] && choices == [None, Some(1)]
    ensures Survivors([STORED], [STORED], payload, choices, true) == [STORED.(goods := BY_SKU.goods)]
    ensures Created(payload, choices, true, 2, MaxRootLine([STORED])) == [BY_NAME.(id := 2, lineNo := 2)]
  {
    assert payload[..1] == [BY_NAME] && [BY_NAME][..0] == [] && [STORED][..0] == [];
    assert choices[..1] == [None] && choices[..1][..0] == [];
    assert LineOf(choices, 1) == Some(1);
    assert !HasChildren([STORED], 1);
    assert MaxRootLine([STORED]) == 1;
    assert Created([BY_NAME], [None], true, 2, 1) == [BY_NAME.(id := 2, lineNo := 2)];
  }

  lemma {:induction false} SecondSync(payload: seq<Item>, choices: seq<Option<nat>>)
    requires payload == [BY_NAME, BY_SKU] && choices == [Some(1), Some(2)]
    ensures var r, n := STORED.(goods := BY_SKU.goods), BY_NAME.(id := 2, lineNo := 2);
      Survivors([r, n], [r, n], payload, choices, true) == [STORED.(goods := BY_NAME.goods), n.(goods := BY_SKU.goods)]
    ensures var r, n := STORED.(goods := BY_SKU.goods), BY_NAME.(id := 2, lineNo := 2);
      Created(payload, choices, true, 3, MaxRootLine([r, n])) == []
  {
    var r, n := STORED.(goods := BY_SKU.goods), BY_NAME.(id := 2, lineNo := 2);
    assert [r, n][..1] == [r] && [r][..0] == [] && choices[..1] == [Some(1)];
    assert LineOf(choices, 2) == Some(1);
    assert LineOf(choices, 1) == LineOf(choices[..1], 1) == Some(0);
    assert Touched(r, payload, choices) == STORED.(goods := BY_NAME.goods);
    assert Touched(n, payload, choices) == n.(goods := BY_SKU.goods);
    assert Survivors([r], [r, n], payload, choices, true) == [STORED.(goods := BY_NAME.goods)];
    NothingCreated(payload, choices, true, 3, MaxRootLine([r, n]));
  }

  lemma FirstChoices()
    ensures Choices([STORED], [BY_NAME, BY_SKU], true) == [None, Some(1)]
  {
    var payload := [BY_NAME, BY_SKU];
    assert payload[..1] == [BY_NAME];
    OnlyChoice([STORED], BY_NAME, true);
    var used := UsedBy([None]);
    assert used == {};
    var a, b := Prepared(BY_NAME, 0), Prepared(BY_SKU, 1);
    FirstUnusedIs(ByOid, a, [STORED], {});
    FirstUnusedIs(ByItemAndSku, a, [STORED], {});
    FirstUnusedIs(BySku, a, [STORED], {});
    FirstUnusedIs(ByName, a, [STORED], {});
    FirstUnusedIs(ByOid, b, [STORED], {});
    FirstUnusedIs(ByItemAndSku, b, [STORED], {});
    FirstUnusedIsLeast(BySku, b, [STORED], {}, STORED);
    FirstUnusedIs(BySku, b, [STORED], {});
  }

  lemma SecondSwap()
    ensures Choices([STORED.(goods := BY_SKU.goods), BY_NAME.(id := 2, lineNo := 2)], [BY_NAME, BY_SKU], true)
         == [Some(1), Some(2)]
  {
    var payload := [BY_NAME, BY_SKU];
    var r, n := STORED.(goods := BY_SKU.goods), BY_NAME.(id := 2, lineNo := 2);
    var rows := [r, n];
    assert payload[..1] == [BY_NAME];
    OnlyChoice(rows, BY_NAME, true);
    var a, b := Prepared(BY_NAME, 0), Prepared(BY_SKU, 1);
    FirstUnusedIs(ByOid, a, rows, {});
    FirstUnusedIs(ByItemAndSku, a, rows, {});
    FirstUnusedIs(BySku, a, rows, {});
    assert r in rows && n in rows;
    FirstUnusedIsLeast(ByName, a, rows, {}, r);
    FirstUnusedIs(ByName, a, rows, {});
    assert BestMatch(a, rows, {}, true).value.id == 1;
    var used := UsedBy([Some(1)]);
    assert used == {1} by { assert [Some(1)][0] == Some(1); }
    FirstUnusedIs(ByOid, b, rows, used);
    FirstUnusedIs(ByItemAndSku, b, rows, used);
    FirstUnusedIs(BySku, b, rows, used);
    FirstUnusedIsLeast(ByName, b, rows, used, n);
    FirstUnusedIs(ByName, b, rows, used);
  }

  // ---- the loops ----

  lemma {:induction false} FirstUnusedStays(t: Tier, want: Item, rows: seq<Item>, used: set<nat>, k: nat)
    requires k <= |rows| && FirstUnused(t, want, rows[..k], used).Some?
    ensures FirstUnused(t, want, rows, used) == FirstUnused(t, want, rows[..k], used)
    decreases |rows| - k
  {
    if k == |rows| {
      assert rows[..k] == rows;
    } else {
      assert rows[..k + 1][..k] == rows[..k];
      FirstUnusedStays(t, want, rows, used, k + 1);
    }
  }

  method ScanTier(t: Tier, want: Item, rows: seq<Item>, used: set<nat>) returns (found: Option<Item>)
    ensures found == FirstUnused(t, want, rows, used)
  {
    for i := 0 to |rows|
      invariant FirstUnused(t, want, rows[..i], used).None?
    {
      assert rows[..i + 1][..i] == rows[..i];
      if rows[i].split != NoSplit || rows[i].parent > 0 || rows[i].id in used {
        continue;
      }
      if Matches(t, want, rows[i]) {
        FirstUnusedStays(t, want, rows, used, i + 1);
        return Some(rows[i]);
      }
    }
    assert rows[..|rows|] == rows;
    return None;
  }

  method MatchExistingRoot(rows: seq<Item>, want: Item, used: set<nat>, keep: bool) returns (found: Option<Item>)
    ensures found == BestMatch(want, rows, used, keep)
  {
    found := ScanTier(ByOid, want, rows, used);
    if found.Some? { return; }
    found := ScanTier(ByItemAndSku, want, rows, used);
    if found.Some? { return; }
    found := ScanTier(BySku, want, rows, used);
    if found.Some? { return; }
    found := ScanTier(ByName, want, rows, used);
    if found.Some? { return; }
    if !keep {
      found := ScanTier(ByLineNo, want, rows, used);
    }
  }

  function TouchedRows(rows: seq<Item>, payload: seq<Item>, choices: seq<Option<nat>>): (s: seq<Item>)
    requires |choices| == |payload|
    ensures |s| == |rows| && forall i :: 0 <= i < |s| ==> s[i] == Touched(rows[i], payload, choices)
  {
    seq(|rows|, i requires 0 <= i < |rows| => Touched(rows[i], payload, choices))
  }

  /** One more line: only the row it takes changes. */
  lemma TouchedStep(rows: seq<Item>, payload: seq<Item>, choices: seq<Option<nat>>, line: Item, choice: Option<nat>)
    requires SortedIds(rows) && |choices| == |payload|
    requires choice.Some? ==> choice.value !in UsedBy(choices)
    ensures choice.None? ==>
      TouchedRows(rows, payload + [line], choices + [choice]) == TouchedRows(rows, payload, choices)
    ensures forall k :: 0 <= k < |rows| && IsRoot(rows[k]) && choice == Some(rows[k].id) ==>
      TouchedRows(rows, payload + [line], choices + [choice])
      == TouchedRows(rows, payload, choices)[k := Refreshed(rows[k], line)]
  {
    var before, after := TouchedRows(rows, payload, choices), TouchedRows(rows, payload + [line], choices + [choice]);
    assert (choices + [choice])[..|choices|] == choices;
    forall i | 0 <= i < |rows| && choice != Some(rows[i].id) ensures after[i] == before[i] {
      var at := LineOf(choices, rows[i].id);
      assert LineOf(choices + [choice], rows[i].id) == at;
    }
    forall k | 0 <= k < |rows| && IsRoot(rows[k]) && choice == Some(rows[k].id)
      ensures after == before[k := Refreshed(rows[k], line)]
    {
      assert LineOf(choices + [choice], rows[k].id) == Some(|choices|);
    }
  }

  lemma {:induction false} CreatedStep(payload: seq<Item>, choices: seq<Option<nat>>, keep: bool, nextId: nat,
                                       maxLine: int, line: Item, choice: Option<nat>)
    requires |choices| == |payload|
    ensures var before := Created(payload, choices, keep, nextId, maxLine);
      Created(payload + [line], choices + [choice], keep, nextId, maxLine)
      == if choice.Some? then before
         else before + [FreshRow(line, |payload|, |before|, keep, nextId, maxLine)]
  {
    var lines, taken := payload + [line], choices + [choice];
    assert lines[..|payload|] == payload && taken[..|payload|] == choices;
    assert lines[|payload|] == line && taken[|payload|] == choice;
  }

  lemma UsedStep(choices: seq<Option<nat>>, choice: Option<nat>)
    ensures UsedBy(choices + [choice]) == UsedBy(choices) + if choice.Some? then {choice.value} else {}
  {
    var all := choices + [choice];
    forall id | id in UsedBy(choices) ensures id in UsedBy(all) {
      var k :| 0 <= k < |choices| && choices[k].Some? && choices[k].value == id;
      assert all[k] == choices[k];
    }
    if choice.Some? { assert all[|choices|] == choice; }
  }

  lemma {:induction false} ChoiceStep(rows: seq<Item>, payload: seq<Item>, keep: bool, line: Item)
    ensures var before := Choices(rows, payload, keep);
      var best := BestMatch(Prepared(line, |payload|), rows, UsedBy(before), keep);
      Choices(rows, payload + [line], keep) == before + [if best.Some? then Some(best.value.id) else None]
  {
    assert (payload + [line])[..|payload|] == payload;
  }

  lemma {:induction false} UsedIsLineOf(choices: seq<Option<nat>>, id: nat)
    ensures id in UsedBy(choices) <==> LineOf(choices, id).Some?
  {
  }

  /** The table after the lines so far, before anything is deleted. */
  function Upserted(existing: seq<Item>, payload: seq<Item>, keep: bool, nextId: nat): seq<Item> {
    var choices := Choices(existing, payload, keep);
    TouchedRows(existing, payload, choices) + Created(payload, choices, keep, nextId, MaxRootLine(existing))
  }

  function Inserts(existing: seq<Item>, payload: seq<Item>, keep: bool, nextId: nat): nat {
    |Created(payload, Choices(existing, payload, keep), keep, nextId, MaxRootLine(existing))|
  }

  lemma {:induction false} InsertStep(existing: seq<Item>, payload: seq<Item>, keep: bool, nextId: nat, line: Item,
                                      row: Item)
    requires SortedIds(existing)
    requires BestMatch(Prepared(line, |payload|), existing, UsedBy(Choices(existing, payload, keep)), keep).None?
    requires var n := Inserts(existing, payload, keep, nextId);
      row == FreshRow(line, |payload|, n, keep, nextId, MaxRootLine(existing))
    ensures Upserted(existing, payload + [line], keep, nextId) == Upserted(existing, payload, keep, nextId) + [row]
    ensures Inserts(existing, payload + [line], keep, nextId) == Inserts(existing, payload, keep, nextId) + 1
    ensures UsedBy(Choices(existing, payload + [line], keep)) == UsedBy(Choices(existing, payload, keep))
  {
    var choices := Choices(existing, payload, keep);
    ChoiceStep(existing, payload, keep, line);
    UsedStep(choices, None);
    assert Choices(existing, payload + [line], keep) == choices + [None];
    var created := Created(payload, choices, keep, nextId, MaxRootLine(existing));
    assert Created(payload + [line], choices + [None], keep, nextId, MaxRootLine(existing)) == created + [row] by {
      CreatedStep(payload, choices, keep, nextId, MaxRootLine(existing), line, None);
    }
    TouchedStep(existing, payload, choices, line, None);
    AppendRight(TouchedRows(existing, payload, choices), created, row);
  }

  lemma AppendRight<T>(a: seq<T>, b: seq<T>, x: T)
    ensures a + (b + [x]) == a + b + [x]
  {
  }

  lemma UpdateLeft<T>(a: seq<T>, b: seq<T>, k: nat, x: T)
    requires k < |a|
    ensures a[k := x] + b == (a + b)[k := x]
  {
  }

  lemma {:induction false} UpdateStep(existing: seq<Item>, payload: seq<Item>, keep: bool, nextId: nat, line: Item,
                                      k: nat)
    requires SortedIds(existing) && k < |existing|
    requires BestMatch(Prepared(line, |payload|), existing, UsedBy(Choices(existing, payload, keep)), keep)
         == Some(existing[k])
    ensures Upserted(existing, payload + [line], keep, nextId)
         == Upserted(existing, payload, keep, nextId)[k := Refreshed(existing[k], line)]
    ensures Inserts(existing, payload + [line], keep, nextId) == Inserts(existing, payload, keep, nextId)
    ensures UsedBy(Choices(existing, payload + [line], keep))
         == UsedBy(Choices(existing, payload, keep)) + {existing[k].id}
  {
    var choices, choice := Choices(existing, payload, keep), Some(existing[k].id);
    BestMatchIsUnused(Prepared(line, |payload|), existing, UsedBy(choices), keep);
    ChoiceStep(existing, payload, keep, line);
    UsedStep(choices, choice);
    TouchedStep(existing, payload, choices, line, choice);
    CreatedStep(payload, choices, keep, nextId, MaxRootLine(existing), line, choice);
    UpdateLeft(TouchedRows(existing, payload, choices),
               Created(payload, choices, keep, nextId, MaxRootLine(existing)), k,
               Refreshed(existing[k], line));
  }

  lemma SyncedKeys(rows: seq<Item>, payload: seq<Item>, keep: bool, nextId: nat)
    requires SortedIds(rows) && FreshKey(rows, nextId)
    ensures SortedIds(SyncRows(rows, payload, keep, nextId))
    ensures FreshKey(SyncRows(rows, payload, keep, nextId), nextId + Inserts(rows, payload, keep, nextId))
  {
    var choices := Choices(rows, payload, keep);
    SyncedSorted(rows, payload, keep, nextId);
    CreatedAre(payload, choices, keep, nextId, MaxRootLine(rows));
    SurvivorsAre(rows, rows, payload, choices, keep);
    var created := Created(payload, choices, keep, nextId, MaxRootLine(rows));
    forall x | x in created ensures x.id < nextId + |created| {
      var i :| 0 <= i < |created| && created[i] == x;
    }
  }

  /** The item rows of one order, and the next free primary key. */
  class ItemTable {
    var rows: seq<Item>
    var nextId: nat

    ghost predicate Valid()
      reads this
    {
      SortedIds(rows) && FreshKey(rows, nextId)
    }

    constructor (rows: seq<Item>, nextId: nat)
      requires SortedIds(rows) && FreshKey(rows, nextId)
      ensures Valid() && this.rows == rows && this.nextId == nextId
    {
      this.rows, this.nextId := rows, nextId;
    }

    /** ReplaceItems (`keep` false) and MergePackageItems (`keep` true). */
    method ReplaceItems(payload: seq<Item>, keep: bool)
      requires Valid()
      modifies this
      ensures Valid()
      ensures rows == SyncRows(old(rows), payload, keep, old(nextId))
    {
      var existing := rows;
      SyncedKeys(existing, payload, keep, nextId);
      var used := UpsertLines(payload, keep);
      var n := |existing|;
      assert rows[..n] == TouchedRows(existing, payload, Choices(existing, payload, keep));
      var survivors := RemainingRows(existing, rows[..n], payload, keep, used);
      rows := survivors + rows[n..];
    }

    /** After the lines done so far: used keys, rows, next key and, where packages merge, next line number. */
    ghost predicate Upserting(existing: seq<Item>, done: seq<Item>, keep: bool, used: set<nat>, nextLine: int,
                              firstId: nat)
      reads this
    {
      && used == UsedBy(Choices(existing, done, keep))
      && rows == Upserted(existing, done, keep, firstId)
      && nextId == firstId + Inserts(existing, done, keep, firstId)
      && (keep ==> nextLine == MaxRootLine(existing) + Inserts(existing, done, keep, firstId))
    }

    /** Update the row each line matches, or insert one. */
    method UpsertLines(payload: seq<Item>, keep: bool) returns (used: set<nat>)
      requires Valid()
      modifies this
      ensures used == UsedBy(Choices(old(rows), payload, keep))
      ensures rows == Upserted(old(rows), payload, keep, old(nextId))
      ensures nextId == old(nextId) + Inserts(old(rows), payload, keep, old(nextId))
    {
      var existing := rows;
      var nextLine := NextLine(existing);
      used := {};
      assert payload[..0] == [];
      assert TouchedRows(existing, [], []) == existing;
      for i := 0 to |payload|
        invariant Upserting(existing, payload[..i], keep, used, nextLine, old(nextId))
      {
        assert payload[..i + 1] == payload[..i] + [payload[i]];
        used, nextLine := UpsertLine(existing, payload[..i], payload[i], keep, used, nextLine, old(nextId));
      }
      assert payload[..|payload|] == payload;
    }

    /** One line after the lines `done`. */
    method UpsertLine(existing: seq<Item>, done: seq<Item>, line: Item, keep: bool, used: set<nat>, nextLine: int,
                      ghost firstId: nat)
      returns (usedNow: set<nat>, nextLineNow: int)
      requires SortedIds(existing) && Upserting(existing, done, keep, used, nextLine, firstId)
      modifies this
      ensures Upserting(existing, done + [line], keep, usedNow, nextLineNow, firstId)
    {
      usedNow, nextLineNow := used, nextLine;
      var it := Prepared(line, |done|);
      var matched := MatchExistingRoot(existing, it, used, keep);
      if matched.None? {
        it := it.(id := nextId);
        if keep {
          nextLineNow := nextLineNow + 1;
          it := it.(lineNo := nextLineNow);
        }
        InsertStep(existing, done, keep, firstId, line, it);
        rows, nextId := rows + [it], nextId + 1;
      } else {
        BestMatchIsUnused(it, existing, used, keep);
        usedNow := usedNow + {matched.value.id};
        var k := Position(existing, matched.value);
        UpdateStep(existing, done, keep, firstId, line, k);
        rows := rows[k := Refreshed(matched.value, line)];
      }
    }
  }

  method NextLine(rows: seq<Item>) returns (n: int)
    ensures n == MaxRootLine(rows)
  {
    n := 0;
    for i := 0 to |rows|
      invariant n == MaxRootLine(rows[..i])
    {
      assert rows[..i + 1][..i] == rows[..i];
      if IsRoot(rows[i]) && rows[i].lineNo > n {
        n := rows[i].lineNo;
      }
    }
    assert rows[..|rows|] == rows;
  }

  /** The row the primary key names. */
  method Position(rows: seq<Item>, row: Item) returns (k: nat)
    requires SortedIds(rows) && row in rows
    ensures k < |rows| && rows[k] == row
  {
    k := 0;
    while rows[k].id != row.id
      invariant k < |rows| && row in rows[k..]
      decreases |rows| - k
    {
      assert rows[k..] == [rows[k]] + rows[k + 1..];
      k := k + 1;
    }
    SameKeySameRow(rows, rows[k], row);
  }

  /** Delete the roots nobody took, except those with children and those a merge must not touch. */
  method RemainingRows(existing: seq<Item>, current: seq<Item>, ghost payload: seq<Item>, keep: bool, used: set<nat>)
    returns (left: seq<Item>)
    requires used == UsedBy(Choices(existing, payload, keep))
    requires current == TouchedRows(existing, payload, Choices(existing, payload, keep))
    ensures left == Survivors(existing, existing, payload, Choices(existing, payload, keep), keep)
  {
    var parents: set<nat> := {};
    for i := 0 to |existing|
      invariant forall id :: id in parents <==> id != 0 && exists j :: 0 <= j < i && existing[j].parent == id
    {
      if existing[i].parent > 0 {
        parents := parents + {existing[i].parent};
      }
    }
    left := [];
    for i := 0 to |existing|
      invariant left == Survivors(existing[..i], existing, payload, Choices(existing, payload, keep), keep)
    {
      assert existing[..i + 1][..i] == existing[..i];
      var row := existing[i];
      UsedIsLineOf(Choices(existing, payload, keep), row.id);
      if IsRoot(row) && row.id !in used && row.id !in parents && !keep {
        continue;
      }
      left := left + [current[i]];
    }
    assert existing[..|existing|] == existing;
  }
}
