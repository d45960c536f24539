/** How many columns the expanded table has: no more than its cells need. */
module TableColumns {
  import opened TableLayout
  import opened TableTheorems

  /** Some cell starts in column `c`. */
  ghost predicate Starts(rows: Rows, c: int) {
    exists r: nat, k: nat :: IsCell(rows, r, k) && Column(rows, ColumnCount(rows, |rows|), r, k) == c
  }

  /* ---------- how far a cell reaches down ---------- */

  /** Without column spans a cell holds its column from its own row on: to the bottom if its row span is 0, and for as
      many rows as it says otherwise. */
  lemma HoldsItsColumn(rows: Rows, r: nat, k: nat, i: nat)
    requires NoColSpans(rows) && IsCell(rows, r, k) && i < |rows|
    ensures var columns := ColumnCount(rows, |rows|);
      var reaches := r <= i && (rows[r][k].rowspan == 0 || i < r + rows[r][k].rowspan);
      && (Shows(rows, r, k, i, Column(rows, columns, r, k)) <==> reaches)
      && (reaches ==> Entry(rows, i, Column(rows, columns, r, k)) == Some(rows[r][k].text))
  {
    var columns := ColumnCount(rows, |rows|);
    var c := Column(rows, columns, r, k);
    CoversColumn(rows, columns, r, k, i, c);
    if r <= i < End(rows, r, k) {
      NoColSpansSeparate(rows);
      NoCellDropped(rows, r, k);
      OnlyCover(rows, r, k, i, c);
      ShownText(rows, r, k, i, c);
    }
  }

  lemma OnlyCover(rows: Rows, r: nat, k: nat, i: nat, c: nat)
    requires NoColSpans(rows) && IsCell(rows, r, k) && Covers(rows, ColumnCount(rows, |rows|), r, k, i, c)
    ensures LastCover(rows, ColumnCount(rows, |rows|), r, k, |rows|, 0, i, c)
  {
    var columns := ColumnCount(rows, |rows|);
    forall q: nat, j: nat | IsCell(rows, q, j) && Precedes(r, k, q, j) ensures !Covers(rows, columns, q, j, i, c) {
      if Covers(rows, columns, q, j, i, c) { CoverIsUnique(rows, columns, r, k, q, j, i, c); }
    }
  }

  /* ---------- the row that the count comes from ---------- */

  lemma {:induction false} CountIsReached(rows: Rows, n: nat) returns (r: nat)
    requires n <= |rows| && ColumnCount(rows, n) > 0
    ensures r < n && ColumnCount(rows, n) == Width(rows[r]) + |Active(rows, r)|
  {
    r := n - 1;
    if ColumnCount(rows, n) != Width(rows[r]) + |Active(rows, r)| { r := CountIsReached(rows, n - 1); }
  }

  /* ---------- without column spans ---------- */

  ghost predicate DistinctFirsts(pairs: seq<(nat, nat)>) {
    forall i, j | 0 <= i < j < |pairs| :: pairs[i].0 != pairs[j].0
  }

  /** Every pair of the list is a pending span of its column. */
  ghost predicate ArePending(pairs: seq<(nat, nat)>, pending: map<nat, nat>) {
    forall i | 0 <= i < |pairs| :: pairs[i].0 in pending && pending[pairs[i].0] == pairs[i].1
  }

  lemma {:induction false} PassPosition(pairs: seq<(nat, nat)>, i: nat) returns (j: nat)
    requires i < |PassPairs(pairs)|
    ensures i <= j < |pairs| && pairs[j].1 > 1 && PassPairs(pairs)[i] == (pairs[j].0, pairs[j].1 - 1)
  {
    if pairs[0].1 <= 1 {
      j := PassPosition(pairs[1..], i);
      j := j + 1;
    } else if i == 0 {
      j := 0;
    } else {
      j := PassPosition(pairs[1..], i - 1);
      j := j + 1;
    }
  }

  lemma {:induction false} PassStaysDistinct(pairs: seq<(nat, nat)>)
    requires DistinctFirsts(pairs)
    ensures DistinctFirsts(PassPairs(pairs))
  {
    if pairs == [] {
    } else {
      PassStaysDistinct(pairs[1..]);
      forall i | 0 <= i < |PassPairs(pairs[1..])| ensures PassPairs(pairs[1..])[i].0 != pairs[0].0 {
        var j := PassPosition(pairs[1..], i);
        assert pairs[1..][j] == pairs[j + 1];
      }
    }
  }

  lemma PassStaysPending(pairs: seq<(nat, nat)>, pending: map<nat, nat>)
    requires ArePending(pairs, pending)
    ensures ArePending(PassPairs(pairs), NextRow(pending))
  {
    forall i | 0 <= i < |PassPairs(pairs)|
      ensures PassPairs(pairs)[i].0 in NextRow(pending)
      ensures NextRow(pending)[PassPairs(pairs)[i].0] == PassPairs(pairs)[i].1
    {
      var j := PassPosition(pairs, i);
      assert pending[pairs[j].0] == pairs[j].1;
    }
  }

  /** The list of the first pass names different columns, each with its pending span. */
  ghost predicate Matching(rows: Rows, columns: nat, r: nat, k: nat)
    requires r < |rows| && k <= |rows[r]|
  {
    var pairs := Pairs(rows, columns, r) + RowPairs(rows, columns, r, k);
    DistinctFirsts(pairs) && ArePending(pairs, Before(rows, columns, r, k).pending)
  }

  lemma MatchingNextCell(rows: Rows, columns: nat, r: nat, k: nat)
    requires NoColSpans(rows) && r < |rows| && 0 < k <= |rows[r]| && Matching(rows, columns, r, k - 1)
    ensures Matching(rows, columns, r, k)
  {
    var before, column := Before(rows, columns, r, k - 1).pending, Column(rows, columns, r, k - 1);
    var span := RowSpan(rows, r, rows[r][k - 1]);
    NextPending(rows, columns, r, k);
    MatchingMore(Pairs(rows, columns, r) + RowPairs(rows, columns, r, k - 1), before, column, span);
    Regroup(Pairs(rows, columns, r), RowPairs(rows, columns, r, k - 1), [(column, span)]);
  }

  lemma NextPending(rows: Rows, columns: nat, r: nat, k: nat)
    requires NoColSpans(rows) && r < |rows| && 0 < k <= |rows[r]|
    ensures var before, column := Before(rows, columns, r, k - 1).pending, Column(rows, columns, r, k - 1);
      column !in before
      && Before(rows, columns, r, k).pending == before[column := RowSpan(rows, r, rows[r][k - 1])]
  {
    assert IsCell(rows, r, k - 1);
    PendingValues(rows, columns, r, k - 1);
    OccupyOne(Before(rows, columns, r, k - 1).pending, Column(rows, columns, r, k - 1), columns,
              RowSpan(rows, r, rows[r][k - 1]));
  }

  lemma MatchingMore(pairs: seq<(nat, nat)>, pending: map<nat, nat>, column: nat, span: nat)
    requires DistinctFirsts(pairs) && ArePending(pairs, pending) && column !in pending
    ensures DistinctFirsts(pairs + [(column, span)]) && ArePending(pairs + [(column, span)], pending[column := span])
  {
  }

  lemma Regroup(a: seq<(nat, nat)>, b: seq<(nat, nat)>, c: seq<(nat, nat)>)
    ensures a + (b + c) == a + b + c
  {
  }

  lemma MatchingNextRow(rows: Rows, columns: nat, r: nat)
    requires 0 < r < |rows| && Matching(rows, columns, r - 1, |rows[r - 1]|)
    ensures Matching(rows, columns, r, 0)
  {
    var n := |rows[r - 1]|;
    var pairs := Pairs(rows, columns, r - 1) + RowPairs(rows, columns, r - 1, n);
    PassStaysDistinct(pairs);
    PassStaysPending(pairs, Before(rows, columns, r - 1, n).pending);
    assert Pairs(rows, columns, r) + RowPairs(rows, columns, r, 0) == PassPairs(pairs);
  }

  lemma {:induction false} PairsMatch(rows: Rows, columns: nat, r: nat, k: nat)
    requires NoColSpans(rows) && r < |rows| && k <= |rows[r]|
    ensures Matching(rows, columns, r, k)
    decreases r, k
  {
    if k > 0 {
      PairsMatch(rows, columns, r, k - 1);
      MatchingNextCell(rows, columns, r, k);
    } else if r > 0 {
      PairsMatch(rows, columns, r - 1, |rows[r - 1]|);
      MatchingNextRow(rows, columns, r);
    }
  }

  lemma {:induction false} FirstsAll(pairs: seq<(nat, nat)>)
    requires DistinctFirsts(pairs)
    ensures |Firsts(pairs)| == |pairs|
    ensures forall c | c in Firsts(pairs) :: exists i :: 0 <= i < |pairs| && pairs[i].0 == c
  {
    if pairs == [] {
    } else {
      FirstsAll(pairs[1..]);
      assert forall i | 0 <= i < |pairs| - 1 :: pairs[1..][i] == pairs[i + 1];
    }
  }

  lemma {:induction false} RowPairsSize(rows: Rows, columns: nat, r: nat, k: nat)
    requires r < |rows| && k <= |rows[r]|
    ensures |RowPairs(rows, columns, r, k)| == k
  {
    if k > 0 { RowPairsSize(rows, columns, r, k - 1); }
  }

  lemma {:induction false} SingleWidth(cells: seq<Cell>)
    requires forall k | 0 <= k < |cells| :: cells[k].colspan == 1
    ensures Width(cells) == |cells|
  {
    if |cells| > 1 { SingleWidth(cells[1..]); }
  }

  /** As many different numbers below `n` as there are: all of them. */
  lemma {:induction false} Pigeonhole(keys: set<nat>, n: nat)
    requires |keys| == n && forall c | c in keys :: c < n
    ensures forall c: nat | c < n :: c in keys
  {
    if n == 0 {
    } else if n - 1 in keys {
      Pigeonhole(keys - {n - 1}, n - 1);
    } else {
      UpToSize(n - 1);
      Subset(keys, UpTo(n - 1));
    }
  }

  function UpTo(n: nat): set<nat> {
    if n == 0 then {} else UpTo(n - 1) + {n - 1}
  }

  lemma {:induction false} UpToSize(n: nat)
    ensures |UpTo(n)| == n && forall c: nat :: c in UpTo(n) <==> c < n
  {
    if n > 0 { UpToSize(n - 1); }
  }

  /** The columns that are taken in row `r`: as many as the first pass counts for it. */
  lemma TakenColumns(rows: Rows, columns: nat, r: nat) returns (taken: set<nat>)
    requires NoColSpans(rows) && r < |rows|
    ensures |taken| == Width(rows[r]) + |Active(rows, r)|
    ensures forall c | c in taken :: c in Before(rows, columns, r, |rows[r]|).pending
  {
    var n := |rows[r]|;
    var pairs := Pairs(rows, columns, r) + RowPairs(rows, columns, r, n);
    PairsMatch(rows, columns, r, n);
    FirstsAll(pairs);
    PairsActive(rows, columns, r);
    FirstsSize(Pairs(rows, columns, r));
    RowPairsSize(rows, columns, r, n);
    assert forall k | 0 <= k < n :: IsCell(rows, r, k);
    SingleWidth(rows[r]);
    taken := Firsts(pairs);
  }

  /** Without column spans there is a row of the matrix in which every column holds a text ... */
  lemma SomeRowIsFull(rows: Rows) returns (r: nat)
    requires NoColSpans(rows) && ColumnCount(rows, |rows|) > 0
    ensures r < |rows|
    ensures forall c: nat | c < ColumnCount(rows, |rows|) :: Entry(rows, r, c).Some?
  {
    var columns := ColumnCount(rows, |rows|);
    r := CountIsReached(rows, |rows|);
    var taken := TakenColumns(rows, columns, r);
    PendingIsExact(rows, columns, r, |rows[r]|);
    forall c | c in taken ensures c < columns && Entry(rows, r, c).Some? { TakenIsShown(rows, r, c); }
    Pigeonhole(taken, columns);
  }

  lemma TakenIsShown(rows: Rows, r: nat, c: nat)
    requires NoColSpans(rows) && r < |rows| && PendingExact(rows, ColumnCount(rows, |rows|), r, |rows[r]|)
    requires c in Before(rows, ColumnCount(rows, |rows|), r, |rows[r]|).pending
    ensures c < ColumnCount(rows, |rows|) && Entry(rows, r, c).Some?
  {
    var columns := ColumnCount(rows, |rows|);
    var v := Before(rows, columns, r, |rows[r]|).pending[c];
    var q: nat, j: nat :| Blocks(rows, columns, q, j, r, |rows[r]|, c, v);
    NothingLost(rows, q, j, r);
  }

  /** ... so no column is a phantom: in every one, the last included, some cell starts. */
  lemma NoPhantomColumn(rows: Rows, c: nat)
    requires NoColSpans(rows)
    ensures Starts(rows, c) <==> c < ColumnCount(rows, |rows|)
  {
    if c < ColumnCount(rows, |rows|) {
      var r := SomeRowIsFull(rows);
      NothingInvented(rows, r, c);
    }
    if Starts(rows, c) {
      var r: nat, k: nat :| IsCell(rows, r, k) && Column(rows, ColumnCount(rows, |rows|), r, k) == c;
      NoColSpansSeparate(rows);
      NoCellDropped(rows, r, k);
    }
  }

  /* ---------- without row spans ---------- */

  ghost predicate NoRowSpans(rows: Rows) {
    forall r: nat, k: nat | IsCell(rows, r, k) ::
      rows[r][k].rowspan == 1 || (rows[r][k].rowspan == 0 && r == |rows| - 1)
  }

  /** The slots of the first `k` cells, one for a column span of 0. */
  function Slots(cells: seq<Cell>, k: nat): nat
    requires k <= |cells|
  {
    if k == 0 then 0 else Slots(cells, k - 1) + if cells[k - 1].colspan == 0 then 1 else cells[k - 1].colspan
  }

  /** Only the last cell of the row may reach to the last column. */
  ghost predicate ReachesLast(cells: seq<Cell>) {
    forall k | 0 <= k < |cells| - 1 :: cells[k].colspan >= 1
  }

  /** The row is not empty, and no row needs more slots in front of its last cell. */
  ghost predicate IsWidest(rows: Rows, r: nat) {
    && r < |rows| && rows[r] != []
    && forall q | 0 <= q < |rows| && rows[q] != [] ::
         Slots(rows[q], |rows[q]| - 1) <= Slots(rows[r], |rows[r]| - 1)
  }

  lemma {:induction false} SlotsTail(cells: seq<Cell>, k: nat)
    requires 0 < k <= |cells|
    ensures Slots(cells, k) == (if cells[0].colspan == 0 then 1 else cells[0].colspan) + Slots(cells[1..], k - 1)
  {
    if k > 1 { SlotsTail(cells, k - 1); }
  }

  lemma {:induction false} WidthIsSlots(cells: seq<Cell>)
    requires cells != []
    ensures Width(cells) == Slots(cells, |cells| - 1) + 1
  {
    if |cells| > 1 {
      WidthIsSlots(cells[1..]);
      SlotsTail(cells, |cells| - 1);
    }
  }

  lemma {:induction false} SlotsGrow(cells: seq<Cell>, j: nat, k: nat)
    requires j <= k <= |cells|
    ensures Slots(cells, k) >= Slots(cells, j) + k - j
  {
    if j < k { SlotsGrow(cells, j, k - 1); }
  }

  lemma {:induction false} NothingPasses(spans: seq<nat>)
    requires forall i | 0 <= i < |spans| :: spans[i] <= 1
    ensures Pass(spans) == []
  {
    if spans != [] { NothingPasses(spans[1..]); }
  }

  lemma {:induction false} SpansAreOne(rows: Rows, r: nat, cells: seq<Cell>)
    requires r < |rows| && forall k | 0 <= k < |cells| :: RowSpan(rows, r, cells[k]) == 1
    ensures forall i | 0 <= i < |Spans(rows, r, cells)| :: Spans(rows, r, cells)[i] == 1
  {
    if cells != [] { SpansAreOne(rows, r, cells[1..]); }
  }

  lemma OnesInRow(rows: Rows, r: nat)
    requires NoRowSpans(rows) && r < |rows|
    ensures forall k | 0 <= k < |rows[r]| :: RowSpan(rows, r, rows[r][k]) == 1
  {
    assert forall k | 0 <= k < |rows[r]| :: IsCell(rows, r, k);
  }

  lemma {:induction false} NothingActive(rows: Rows, r: nat)
    requires NoRowSpans(rows) && r <= |rows|
    ensures Active(rows, r) == []
  {
    if r > 0 {
      NothingActive(rows, r - 1);
      OnesInRow(rows, r - 1);
      SpansAreOne(rows, r - 1, rows[r - 1]);
      NothingPasses([] + Spans(rows, r - 1, rows[r - 1]));
    }
  }

  /** Without row spans the count is one more than the slots in front of the last cell of a widest row. */
  lemma CountOfWidest(rows: Rows) returns (r: nat)
    requires NoRowSpans(rows) && ColumnCount(rows, |rows|) > 0
    ensures IsWidest(rows, r) && ColumnCount(rows, |rows|) == Slots(rows[r], |rows[r]| - 1) + 1
  {
    r := CountIsReached(rows, |rows|);
    NothingActive(rows, r);
    WidthIsSlots(rows[r]);
    forall q | 0 <= q < |rows| && rows[q] != []
      ensures Slots(rows[q], |rows[q]| - 1) <= Slots(rows[r], |rows[r]| - 1)
    {
      NothingActive(rows, q);
      WidthIsSlots(rows[q]);
      CountGrows(rows, q, |rows|);
    }
  }

  /** What is pending lasts for this row only, and stands left of the cursor. */
  ghost predicate OnlyHere(at: Cursor) {
    forall c | c in at.pending :: at.pending[c] == 1
  }

  ghost predicate AllLeft(at: Cursor) {
    forall c | c in at.pending :: c < at.column
  }

  lemma {:induction false} NothingLasts(rows: Rows, columns: nat, r: nat, k: nat)
    requires NoRowSpans(rows) && r < |rows| && k <= |rows[r]|
    ensures OnlyHere(Before(rows, columns, r, k))
    ensures k == 0 ==> Before(rows, columns, r, 0) == Cursor(map[], 0)
    decreases r, k
  {
    if k > 0 {
      NothingLasts(rows, columns, r, k - 1);
      assert IsCell(rows, r, k - 1);
    } else if r > 0 {
      NothingLasts(rows, columns, r - 1, |rows[r - 1]|);
      assert NextRow(Before(rows, columns, r - 1, |rows[r - 1]|).pending) == map[];
    }
  }

  /** As long as no cell reaches to the last column, the cells of a row stand side by side. */
  lemma {:induction false} SideBySide(rows: Rows, columns: nat, r: nat, k: nat)
    requires NoRowSpans(rows) && r < |rows| && k <= |rows[r]|
    requires forall j | 0 <= j < k :: rows[r][j].colspan >= 1
    ensures AllLeft(Before(rows, columns, r, k)) && Before(rows, columns, r, k).column == Slots(rows[r], k)
    ensures k < |rows[r]| ==> Column(rows, columns, r, k) == Slots(rows[r], k)
  {
    if k == 0 {
      NothingLasts(rows, columns, r, 0);
    } else {
      SideBySide(rows, columns, r, k - 1);
      var at := Before(rows, columns, r, k - 1);
      assert Skip(at.pending, at.column) == at.column;
      assert Before(rows, columns, r, k) == Place(at, rows[r][k - 1], columns, RowSpan(rows, r, rows[r][k - 1]));
    }
  }

  /** After a cell that reaches to the last column no cell of the row starts inside the matrix. */
  lemma {:induction false} AllBeyond(rows: Rows, columns: nat, r: nat, j: nat, k: nat)
    requires r < |rows| && j < k <= |rows[r]| && rows[r][j].colspan == 0
    ensures Before(rows, columns, r, k).column >= columns
    decreases k
  {
    if j < k - 1 { AllBeyond(rows, columns, r, j, k - 1); }
    var at := Before(rows, columns, r, k - 1);
    assert Before(rows, columns, r, k) == Place(at, rows[r][k - 1], columns, RowSpan(rows, r, rows[r][k - 1]));
  }

  lemma StartsInLast(rows: Rows, r: nat, k: nat)
    requires NoRowSpans(rows) && IsCell(rows, r, k)
    requires Column(rows, ColumnCount(rows, |rows|), r, k) == ColumnCount(rows, |rows|) - 1
    ensures IsWidest(rows, r) && ReachesLast(rows[r])
  {
    StartsAfterSlots(rows, r, k);
    var widest := CountOfWidest(rows);
    OnlyTheLast(rows, widest, r, k);
  }

  lemma OnlyTheLast(rows: Rows, widest: nat, r: nat, k: nat)
    requires IsWidest(rows, widest) && IsCell(rows, r, k) && forall j | 0 <= j < k :: rows[r][j].colspan >= 1
    requires Slots(rows[r], k) == Slots(rows[widest], |rows[widest]| - 1)
    ensures IsWidest(rows, r) && ReachesLast(rows[r])
  {
    SlotsGrow(rows[r], k, |rows[r]| - 1);
  }

  lemma StartsAfterSlots(rows: Rows, r: nat, k: nat)
    requires NoRowSpans(rows) && IsCell(rows, r, k)
    requires Column(rows, ColumnCount(rows, |rows|), r, k) < ColumnCount(rows, |rows|)
    ensures forall j | 0 <= j < k :: rows[r][j].colspan >= 1
    ensures Column(rows, ColumnCount(rows, |rows|), r, k) == Slots(rows[r], k)
  {
    var columns := ColumnCount(rows, |rows|);
    forall j | 0 <= j < k ensures rows[r][j].colspan >= 1 {
      if rows[r][j].colspan == 0 { AllBeyond(rows, columns, r, j, k); }
    }
    SideBySide(rows, columns, r, k);
  }

  lemma LastOfWidest(rows: Rows, r: nat)
    requires NoRowSpans(rows) && ColumnCount(rows, |rows|) > 0 && IsWidest(rows, r) && ReachesLast(rows[r])
    ensures Starts(rows, ColumnCount(rows, |rows|) - 1)
  {
    var widest := CountOfWidest(rows);
    SideBySide(rows, ColumnCount(rows, |rows|), r, |rows[r]| - 1);
    assert IsCell(rows, r, |rows[r]| - 1);
  }

  /** Without row spans the last column is a phantom, in which no cell starts, exactly if every widest row has a cell
      with a column span of 0 before its last. */
  lemma LastColumnIff(rows: Rows)
    requires NoRowSpans(rows) && ColumnCount(rows, |rows|) > 0
    ensures Starts(rows, ColumnCount(rows, |rows|) - 1)
       <==> exists r: nat :: IsWidest(rows, r) && ReachesLast(rows[r])
  {
    if r: nat :| IsWidest(rows, r) && ReachesLast(rows[r]) { LastOfWidest(rows, r); }
    if Starts(rows, ColumnCount(rows, |rows|) - 1) {
      var r: nat, k: nat :|
        IsCell(rows, r, k) && Column(rows, ColumnCount(rows, |rows|), r, k) == ColumnCount(rows, |rows|) - 1;
      StartsInLast(rows, r, k);
    }
  }

  /** In particular there is no phantom column if only last cells reach to the last column. */
  lemma NoPhantomInRows(rows: Rows)
    requires NoRowSpans(rows) && ColumnCount(rows, |rows|) > 0
    requires forall r | 0 <= r < |rows| :: ReachesLast(rows[r])
    ensures Starts(rows, ColumnCount(rows, |rows|) - 1)
  {
    var r := CountOfWidest(rows);
    LastColumnIff(rows);
  }

  const ZERO: Rows := [[Cell(1, 0, "A"), Cell(1, 1, "B")]]

  /** A column span of 0 in front of another cell: two columns are counted, and "B" would start in the third. */
  lemma ZeroLeavesAPhantom()
    ensures ColumnCount(ZERO, 1) == 2 && !Starts(ZERO, 1)
  {
    assert ZERO[0][1..] == [Cell(1, 1, "B")] && Active(ZERO, 0) == [];
    assert ColumnCount(ZERO, 0) == 0 && Width(ZERO[0]) == 2;
    LastColumnIff(ZERO);
  }
}
