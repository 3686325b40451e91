/** Which stored row each line of a payload takes, and which rows a row sync
    deletes, told on the columns and on the lines' choices. */
module RowOutcome {
  import opened OrderModel
  import opened RowSync
  import SiblingMerge
  import SyncLedger

  // ---- which row a line takes ----

  /** The ways a line can name a row, best first: platform line, item with sku, sku, name with specs, and where
      the payload is the whole order, row number. */
  predicate FitsAt(rank: nat, line: Item, i: nat, keep: bool, row: Item) {
    if rank == 0 then line.goods.oid != "" && row.goods.oid == line.goods.oid
    else if rank == 1 then
      && line.goods.itemId != "" && row.goods.itemId == line.goods.itemId
      && line.goods.skuId != "" && row.goods.skuId == line.goods.skuId
    else if rank == 2 then line.goods.skuId != "" && row.goods.skuId == line.goods.skuId
    else if rank == 3 then
      && (line.goods.name != "" || line.goods.specs != "")
      && row.goods.name == line.goods.name && row.goods.specs == line.goods.specs
    else rank == 4 && !keep && row.lineNo == if line.lineNo > 0 then line.lineNo else i + 1
  }

  /** A root that no line before has taken. */
  predicate Free(taken: seq<Option<nat>>, row: Item) {
    row.split == NoSplit && row.parent == 0 && forall k :: 0 <= k < |taken| ==> taken[k] != Some(row.id)
  }

  function TierOf(rank: nat): Tier
    requires rank <= 4
  {
    if rank == 0 then ByOid else if rank == 1 then ByItemAndSku else if rank == 2 then BySku
    else if rank == 3 then ByName else ByLineNo
  }

  lemma CandidateIs(rank: nat, line: Item, i: nat, keep: bool, taken: seq<Option<nat>>, row: Item)
    requires rank <= 4 && (rank == 4 ==> !keep)
    ensures Candidate(TierOf(rank), Prepared(line, i), row, UsedBy(taken))
       <==> Free(taken, row) && FitsAt(rank, line, i, keep, row)
  {
    assert row.id in UsedBy(taken) <==> exists k :: 0 <= k < |taken| && taken[k] == Some(row.id);
  }

  /** No free root fits in a better way than at `rank`. */
  ghost predicate NoneBetter(rows: seq<Item>, line: Item, i: nat, keep: bool, taken: seq<Option<nat>>, rank: nat) {
    forall q, s :: q in rows && Free(taken, q) && 0 <= s < rank ==> !FitsAt(s, line, i, keep, q)
  }

  /** The row is free, fits, no free one fits in a better way, and it is the oldest that fits as well. */
  ghost predicate IsBest(rows: seq<Item>, line: Item, i: nat, keep: bool, taken: seq<Option<nat>>, row: Item, rank: nat)
  {
    && row in rows && Free(taken, row) && rank <= 4 && FitsAt(rank, line, i, keep, row)
    && NoneBetter(rows, line, i, keep, taken, rank)
    && forall q :: q in rows && Free(taken, q) && FitsAt(rank, line, i, keep, q) ==> row.id <= q.id
  }

  /** The first free root that fits at `rank`. */
  function AtRank(rows: seq<Item>, line: Item, i: nat, taken: seq<Option<nat>>, rank: nat): Option<Item>
    requires rank <= 4
  {
    FirstUnused(TierOf(rank), Prepared(line, i), rows, UsedBy(taken))
  }

  /** It is the oldest of those there are. */
  ghost predicate TierSays(rows: seq<Item>, line: Item, i: nat, keep: bool, taken: seq<Option<nat>>, rank: nat)
    requires rank <= 4
  {
    var r := AtRank(rows, line, i, taken, rank);
    if r.Some? then
      && r.value in rows && Free(taken, r.value) && FitsAt(rank, line, i, keep, r.value)
      && forall q :: q in rows && Free(taken, q) && FitsAt(rank, line, i, keep, q) ==> r.value.id <= q.id
    else forall q :: q in rows && Free(taken, q) ==> !FitsAt(rank, line, i, keep, q)
  }

  lemma FirstAtRank(rows: seq<Item>, line: Item, i: nat, keep: bool, taken: seq<Option<nat>>, rank: nat)
    requires SortedIds(rows) && rank <= 4 && (rank == 4 ==> !keep)
    ensures TierSays(rows, line, i, keep, taken, rank)
  {
    var t, want := TierOf(rank), Prepared(line, i);
    FirstUnusedIs(t, want, rows, UsedBy(taken));
    forall q | q in rows
      ensures Candidate(t, want, q, UsedBy(taken)) <==> Free(taken, q) && FitsAt(rank, line, i, keep, q)
    {
      CandidateIs(rank, line, i, keep, taken, q);
    }
    forall q | q in rows && Candidate(t, want, q, UsedBy(taken))
      ensures FirstUnused(t, want, rows, UsedBy(taken)).Some?
           && FirstUnused(t, want, rows, UsedBy(taken)).value.id <= q.id
    {
      FirstUnusedIsLeast(t, want, rows, UsedBy(taken), q);
    }
  }

  /** Each line takes the best free root, the oldest of several that fit as well, and none exactly if none fits. */
  lemma {:induction false} LineTakesBest(rows: seq<Item>, payload: seq<Item>, keep: bool, j: nat)
    requires SortedIds(rows) && j < |payload|
    ensures var choices := Choices(rows, payload, keep); var taken := choices[..j];
      match choices[j]
      case Some(id) => exists row, rank :: IsBest(rows, payload[j], j, keep, taken, row, rank) && row.id == id
      case None => NoneBetter(rows, payload[j], j, keep, taken, 5)
  {
    var choices, line := Choices(rows, payload, keep), payload[j];
    var taken := choices[..j];
    ChoicesPrefix(rows, payload, keep, j);
    ChoicesPrefix(rows, payload, keep, j + 1);
    assert payload[..j + 1][..j] == payload[..j];
    assert choices[j] == Choices(rows, payload[..j + 1], keep)[j];
    BestIs(rows, line, j, keep, taken);
  }

  lemma BestIs(rows: seq<Item>, line: Item, i: nat, keep: bool, taken: seq<Option<nat>>)
    requires SortedIds(rows)
    ensures match BestMatch(Prepared(line, i), rows, UsedBy(taken), keep)
      case Some(row) => exists rank :: IsBest(rows, line, i, keep, taken, row, rank)
      case None => NoneBetter(rows, line, i, keep, taken, 5)
  {
    FirstAtRank(rows, line, i, keep, taken, 0);
    FirstAtRank(rows, line, i, keep, taken, 1);
    FirstAtRank(rows, line, i, keep, taken, 2);
    FirstAtRank(rows, line, i, keep, taken, 3);
    if !keep { FirstAtRank(rows, line, i, keep, taken, 4); }
    var best := BestMatch(Prepared(line, i), rows, UsedBy(taken), keep);
    if best.Some? {
      var rank :| 0 <= rank <= 4 && (rank == 4 ==> !keep) && AtRank(rows, line, i, taken, rank) == best
        && forall s :: 0 <= s < rank ==> AtRank(rows, line, i, taken, s).None?;
      assert IsBest(rows, line, i, keep, taken, best.value, rank);
    }
  }

  // ---- which rows go ----

  /** A row goes exactly if the payload is the whole order, the row is a root that no line took, and no other row
      hangs on it. */
  lemma {:induction false} RowsDeleted(rows: seq<Item>, payload: seq<Item>, keep: bool, nextId: nat, row: Item)
    requires row in rows && DistinctIds(rows) && FreshKey(rows, nextId)
    ensures !SiblingMerge.HasRow(SyncRows(rows, payload, keep, nextId), row.id)
       <==> !keep && Free(Choices(rows, payload, keep), row) && forall c :: c in rows ==> c.parent != row.id
  {
    SyncLedger.SyncedHas(rows, payload, keep, nextId, row);
    var choices := Choices(rows, payload, keep);
    if c :| c in rows && c.parent == row.id {
      var i :| 0 <= i < |rows| && rows[i] == c;
    }
    assert row.id != 0 by { var i :| 0 <= i < |rows| && rows[i] == row; }
    if HasChildren(rows, row.id) {
      var i :| 0 <= i < |rows| && rows[i].parent == row.id;
      assert rows[i] in rows;
    }
    if !IsRoot(row) { assert !Free(choices, row); }
  }

  /** A row that no line took is as it was, if it is there at all. */
  lemma {:induction false} UntakenStays(rows: seq<Item>, payload: seq<Item>, keep: bool, nextId: nat, row: Item)
    requires row in rows && DistinctIds(rows) && FreshKey(rows, nextId)
    requires IsRoot(row) ==> Free(Choices(rows, payload, keep), row)
    ensures var after := SyncRows(rows, payload, keep, nextId);
      SiblingMerge.HasRow(after, row.id) <==> row in after
  {
    SyncLedger.SyncedHas(rows, payload, keep, nextId, row);
  }

  /** Where packages are merged, a new row is numbered after all stored roots. */
  lemma {:induction false} MergedRowNumber(rows: seq<Item>, payload: seq<Item>, nextId: nat, j: nat)
    requires FreshKey(rows, nextId) && j < |payload| && Choices(rows, payload, true)[j].None?
    ensures exists x :: (
      && x in SyncRows(rows, payload, true, nextId) && x.id == OwnId(rows, payload, true, nextId, j)
      && forall row :: row in rows && IsRoot(row) ==> row.lineNo < x.lineNo)
  {
    var choices := Choices(rows, payload, true);
    LineCreated(payload, choices, true, nextId, MaxRootLine(rows), j);
    MaxRootLineIs(rows);
    var x := NewRow(payload, choices, true, nextId, MaxRootLine(rows), j);
    assert x in SyncRows(rows, payload, true, nextId);
  }

  lemma {:induction false} MaxRootLineIs(rows: seq<Item>)
    ensures forall row :: row in rows && IsRoot(row) ==> row.lineNo <= MaxRootLine(rows)
  {
    if rows != [] {
      var n := |rows| - 1;
      MaxRootLineIs(rows[..n]);
      assert rows == rows[..n] + [rows[n]];
    }
  }
}
