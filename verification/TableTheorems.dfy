/** What the expansion of a table means, for every table and for those without column spans. */
module TableTheorems {
  import opened TableLayout

  /* ---------- every table: the last cell wins ---------- */

  /** Document order. */
  predicate Precedes(q: nat, j: nat, r: nat, k: nat) {
    q < r || (q == r && j < k)
  }

  /** Cell `k` of row `r` covers the slot, and no later cell among those before (rEnd, kEnd) does. */
  ghost predicate LastCover(rows: Rows, columns: nat, r: nat, k: nat, rEnd: nat, kEnd: nat, i: nat, c: nat) {
    && IsCell(rows, r, k) && Precedes(r, k, rEnd, kEnd) && Covers(rows, columns, r, k, i, c)
    && forall q: nat, j: nat | IsCell(rows, q, j) && Precedes(r, k, q, j) && Precedes(q, j, rEnd, kEnd) ::
         !Covers(rows, columns, q, j, i, c)
  }

  /** `x` is the text of the last cell before (r, k) that covers the slot, or None. */
  ghost predicate IsLast(rows: Rows, columns: nat, r: nat, k: nat, i: nat, c: nat, x: Option<string>) {
    if x.None?
    then forall q: nat, j: nat | IsCell(rows, q, j) && Precedes(q, j, r, k) :: !Covers(rows, columns, q, j, i, c)
    else exists q: nat, j: nat :: LastCover(rows, columns, q, j, r, k, i, c) && rows[q][j].text == x.value
  }

  lemma {:induction false} PaintedByLast(rows: Rows, columns: nat, r: nat, k: nat, i: nat, c: nat)
    requires r <= |rows| && k <= (if r < |rows| then |rows[r]| else 0)
    ensures IsLast(rows, columns, r, k, i, c, Painted(rows, columns, r, k, i, c))
    decreases r, k
  {
    if k > 0 {
      PaintedByLast(rows, columns, r, k - 1, i, c);
      LastAfterCell(rows, columns, r, k, i, c, Painted(rows, columns, r, k - 1, i, c));
    } else if r > 0 {
      var n := |rows[r - 1]|;
      PaintedByLast(rows, columns, r - 1, n, i, c);
      LastAfterRow(rows, columns, r, i, c, Painted(rows, columns, r - 1, n, i, c));
    }
  }

  lemma LastAfterRow(rows: Rows, columns: nat, r: nat, i: nat, c: nat, x: Option<string>)
    requires 0 < r <= |rows| && IsLast(rows, columns, r - 1, |rows[r - 1]|, i, c, x)
    ensures IsLast(rows, columns, r, 0, i, c, x)
  {
    LastStays(rows, columns, r - 1, |rows[r - 1]|, r, 0, i, c, x);
  }

  lemma LastAfterCell(rows: Rows, columns: nat, r: nat, k: nat, i: nat, c: nat, x: Option<string>)
    requires r < |rows| && 0 < k <= |rows[r]| && IsLast(rows, columns, r, k - 1, i, c, x)
    ensures IsLast(rows, columns, r, k, i, c,
                   if Covers(rows, columns, r, k - 1, i, c) then Some(rows[r][k - 1].text) else x)
  {
    OnlyCell(r, k);
    if Covers(rows, columns, r, k - 1, i, c) {
      NowLast(rows, columns, r, k, i, c);
    } else {
      LastStays(rows, columns, r, k - 1, r, k, i, c, x);
    }
  }

  lemma OnlyCell(r: nat, k: nat)
    requires k > 0
    ensures forall q: nat, j: nat :: Precedes(q, j, r, k) && !Precedes(q, j, r, k - 1) ==> q == r && j == k - 1
    ensures forall q: nat, j: nat :: Precedes(r, k - 1, q, j) ==> !Precedes(q, j, r, k)
  {
  }

  lemma NowLast(rows: Rows, columns: nat, r: nat, k: nat, i: nat, c: nat)
    requires r < |rows| && 0 < k <= |rows[r]| && Covers(rows, columns, r, k - 1, i, c)
    ensures IsLast(rows, columns, r, k, i, c, Some(rows[r][k - 1].text))
  {
    OnlyCell(r, k);
    assert IsCell(rows, r, k - 1) && Precedes(r, k - 1, r, k);
    assert LastCover(rows, columns, r, k - 1, r, k, i, c);
  }

  /** Cells that do not cover the slot do not matter. */
  lemma LastStays(rows: Rows, columns: nat, r0: nat, k0: nat, r: nat, k: nat, i: nat, c: nat, x: Option<string>)
    requires IsLast(rows, columns, r0, k0, i, c, x) && !Precedes(r, k, r0, k0)
    requires forall q: nat, j: nat | IsCell(rows, q, j) && Precedes(q, j, r, k) && !Precedes(q, j, r0, k0) ::
      !Covers(rows, columns, q, j, i, c)
    ensures IsLast(rows, columns, r, k, i, c, x)
  {
    if x.Some? {
      var q: nat, j: nat :| LastCover(rows, columns, q, j, r0, k0, i, c) && rows[q][j].text == x.value;
      StillLast(rows, columns, q, j, r0, k0, r, k, i, c);
    }
  }

  lemma StillLast(rows: Rows, columns: nat, q: nat, j: nat, r0: nat, k0: nat, r: nat, k: nat, i: nat, c: nat)
    requires LastCover(rows, columns, q, j, r0, k0, i, c) && !Precedes(r, k, r0, k0)
    requires forall q: nat, j: nat | IsCell(rows, q, j) && Precedes(q, j, r, k) && !Precedes(q, j, r0, k0) ::
      !Covers(rows, columns, q, j, i, c)
    ensures LastCover(rows, columns, q, j, r, k, i, c)
  {
  }

  /** For every table, whatever its spans: a slot is None exactly if no cell covers it, and otherwise holds the text of
      the last cell in document order that does. */
  lemma EntryIsLastCover(rows: Rows, i: nat, c: nat)
    ensures var columns := ColumnCount(rows, |rows|);
      if Entry(rows, i, c).None? then
        forall r: nat, k: nat | IsCell(rows, r, k) :: !Covers(rows, columns, r, k, i, c)
      else
        exists r: nat, k: nat ::
          LastCover(rows, columns, r, k, |rows|, 0, i, c) && rows[r][k].text == Entry(rows, i, c).value
  {
    PaintedByLast(rows, ColumnCount(rows, |rows|), |rows|, 0, i, c);
  }

  /* ---------- without column spans: what is pending ---------- */

  ghost predicate NoColSpans(rows: Rows) {
    forall r: nat, k: nat | IsCell(rows, r, k) :: rows[r][k].colspan == 1
  }

  /** The first row that a cell does not reach. */
  function End(rows: Rows, r: nat, k: nat): nat
    requires r < |rows| && k < |rows[r]|
  {
    r + RowSpan(rows, r, rows[r][k])
  }

  /** Before cell `k` of row `r`, the earlier cell (q, j) still blocks column `c`, for `v` rows. */
  ghost predicate Blocks(rows: Rows, columns: nat, q: nat, j: nat, r: nat, k: nat, c: nat, v: nat) {
    && IsCell(rows, q, j) && Precedes(q, j, r, k) && Column(rows, columns, q, j) == c
    && End(rows, q, j) > r && v == End(rows, q, j) - r
  }

  /** The map of pending spans says exactly which earlier cells reach this row. */
  ghost predicate PendingExact(rows: Rows, columns: nat, r: nat, k: nat)
    requires r < |rows| && k <= |rows[r]|
  {
    var pending := Before(rows, columns, r, k).pending;
    && (forall c | c in pending :: exists q: nat, j: nat :: Blocks(rows, columns, q, j, r, k, c, pending[c]))
    && (forall q: nat, j: nat | IsCell(rows, q, j) && Precedes(q, j, r, k) && End(rows, q, j) > r ::
          && Column(rows, columns, q, j) in pending
          && pending[Column(rows, columns, q, j)] == End(rows, q, j) - r)
  }

  lemma OccupyOne(pending: map<nat, nat>, column: nat, columns: nat, span: nat)
    ensures Occupy(pending, column, columns, 1, span) == pending[column := span]
  {
    assert forall c | c in Covered(column, columns, 1) :: c == column;
  }

  lemma {:induction false} PendingIsExact(rows: Rows, columns: nat, r: nat, k: nat)
    requires NoColSpans(rows) && r < |rows| && k <= |rows[r]|
    ensures PendingExact(rows, columns, r, k)
    decreases r, k
  {
    if k > 0 {
      PendingIsExact(rows, columns, r, k - 1);
      PendingNextCell(rows, columns, r, k);
    } else if r > 0 {
      PendingIsExact(rows, columns, r - 1, |rows[r - 1]|);
      PendingNextRow(rows, columns, r);
    } else {
      PendingFirstRow(rows, columns);
    }
  }

  lemma PendingFirstRow(rows: Rows, columns: nat)
    requires rows != []
    ensures PendingExact(rows, columns, 0, 0)
  {
    assert Before(rows, columns, 0, 0).pending == map[];
  }

  lemma PendingNextCell(rows: Rows, columns: nat, r: nat, k: nat)
    requires NoColSpans(rows) && r < |rows| && 0 < k <= |rows[r]| && PendingExact(rows, columns, r, k - 1)
    ensures PendingExact(rows, columns, r, k)
  {
    var before := Before(rows, columns, r, k - 1).pending;
    var column := Column(rows, columns, r, k - 1);
    var span := RowSpan(rows, r, rows[r][k - 1]);
    assert IsCell(rows, r, k - 1);
    OccupyOne(before, column, columns, span);
    var pending := Before(rows, columns, r, k).pending;
    assert pending == before[column := span];
    assert column !in before;
    forall c | c in pending ensures exists q: nat, j: nat :: Blocks(rows, columns, q, j, r, k, c, pending[c]) {
      if c == column {
        assert Blocks(rows, columns, r, k - 1, r, k, c, pending[c]);
      } else {
        var q: nat, j: nat :| Blocks(rows, columns, q, j, r, k - 1, c, before[c]);
        assert Blocks(rows, columns, q, j, r, k, c, pending[c]);
      }
    }
    forall q: nat, j: nat | IsCell(rows, q, j) && Precedes(q, j, r, k) && End(rows, q, j) > r
      ensures Column(rows, columns, q, j) in pending && pending[Column(rows, columns, q, j)] == End(rows, q, j) - r
    {
      PendingAfterCell(rows, columns, r, k, q, j, column, span);
    }
  }

  lemma PendingAfterCell(rows: Rows, columns: nat, r: nat, k: nat, q: nat, j: nat, column: nat, span: nat)
    requires r < |rows| && 0 < k <= |rows[r]| && PendingExact(rows, columns, r, k - 1)
    requires column == Column(rows, columns, r, k - 1) && span == RowSpan(rows, r, rows[r][k - 1])
    requires column !in Before(rows, columns, r, k - 1).pending
    requires IsCell(rows, q, j) && Precedes(q, j, r, k) && End(rows, q, j) > r
    ensures var pending := Before(rows, columns, r, k - 1).pending[column := span];
      Column(rows, columns, q, j) in pending && pending[Column(rows, columns, q, j)] == End(rows, q, j) - r
  {
    if !(q == r && j == k - 1) { assert Precedes(q, j, r, k - 1); }
  }

  lemma PendingNextRow(rows: Rows, columns: nat, r: nat)
    requires 0 < r < |rows| && PendingExact(rows, columns, r - 1, |rows[r - 1]|)
    ensures PendingExact(rows, columns, r, 0)
  {
    var n := |rows[r - 1]|;
    var before := Before(rows, columns, r - 1, n).pending;
    var pending := Before(rows, columns, r, 0).pending;
    assert pending == NextRow(before);
    forall c | c in pending ensures exists q: nat, j: nat :: Blocks(rows, columns, q, j, r, 0, c, pending[c]) {
      var q: nat, j: nat :| Blocks(rows, columns, q, j, r - 1, n, c, before[c]);
      assert Blocks(rows, columns, q, j, r, 0, c, pending[c]);
    }
    forall q: nat, j: nat | IsCell(rows, q, j) && Precedes(q, j, r, 0) && End(rows, q, j) > r
      ensures Column(rows, columns, q, j) in pending && pending[Column(rows, columns, q, j)] == End(rows, q, j) - r
    {
      assert Precedes(q, j, r - 1, n);
    }
  }

  /** A cell is placed in a column that no earlier cell still reaching its row occupies. */
  lemma ColumnIsFree(rows: Rows, columns: nat, r: nat, k: nat, q: nat, j: nat)
    requires NoColSpans(rows) && IsCell(rows, r, k) && IsCell(rows, q, j) && Precedes(q, j, r, k) && End(rows, q, j) > r
    ensures Column(rows, columns, q, j) != Column(rows, columns, r, k)
  {
    PendingIsExact(rows, columns, r, k);
  }

  lemma CoversColumn(rows: Rows, columns: nat, r: nat, k: nat, i: nat, c: nat)
    requires NoColSpans(rows) && IsCell(rows, r, k)
    ensures Covers(rows, columns, r, k, i, c) <==> r <= i < End(rows, r, k) && c == Column(rows, columns, r, k)
  {
    assert rows[r][k].colspan == 1;
  }

  /** At most one cell covers a slot. */
  lemma CoverIsUnique(rows: Rows, columns: nat, r: nat, k: nat, q: nat, j: nat, i: nat, c: nat)
    requires NoColSpans(rows) && IsCell(rows, r, k) && IsCell(rows, q, j)
    requires Covers(rows, columns, r, k, i, c) && Covers(rows, columns, q, j, i, c)
    ensures r == q && k == j
  {
    CoversColumn(rows, columns, r, k, i, c);
    CoversColumn(rows, columns, q, j, i, c);
    if Precedes(q, j, r, k) {
      ColumnIsFree(rows, columns, r, k, q, j);
    } else if Precedes(r, k, q, j) {
      ColumnIsFree(rows, columns, q, j, r, k);
    }
  }

  /* ---------- the first pass counts enough columns ---------- */

  /** No cell spans both rows and columns, and only the last cell of a row may reach to the last column. */
  ghost predicate SpansSeparate(rows: Rows) {
    forall r: nat, k: nat | IsCell(rows, r, k) ::
      && (rows[r][k].colspan >= 1 || k == |rows[r]| - 1)
      && (RowSpan(rows, r, rows[r][k]) == 1 || rows[r][k].colspan == 1)
  }

  function Below(keys: set<nat>, column: nat): set<nat> {
    set c | c in keys && c < column
  }

  function Total(cells: seq<Cell>, k: nat): nat
    requires k <= |cells|
  {
    if k == 0 then 0 else Total(cells, k - 1) + cells[k - 1].colspan
  }

  lemma {:induction false} BelowGrows(keys: set<nat>, low: nat, high: nat)
    requires low <= high && forall c | low <= c < high :: c in keys
    ensures |Below(keys, high)| >= |Below(keys, low)| + high - low
    decreases high - low
  {
    if low < high {
      BelowGrows(keys, low, high - 1);
      assert Below(keys, high) == Below(keys, high - 1) + {high - 1};
    }
  }

  lemma BelowMonotone(keys: set<nat>, low: nat, high: nat)
    requires low <= high
    ensures |Below(keys, low)| <= |Below(keys, high)| <= |keys|
  {
    Subset(Below(keys, low), Below(keys, high));
    Subset(Below(keys, high), keys);
  }

  lemma {:induction false} Subset<T>(a: set<T>, b: set<T>)
    requires a <= b
    ensures |a| <= |b|
  {
    if a == {} {
    } else {
      var x :| x in a;
      Subset(a - {x}, b - {x});
    }
  }

  /** The columns used in a row are those of its own cells and those pending from above. */
  lemma {:induction false} CursorBound(rows: Rows, columns: nat, r: nat, k: nat)
    requires SpansSeparate(rows) && IsCell(rows, r, k)
    ensures var above := Before(rows, columns, r, 0).pending;
      var at := Before(rows, columns, r, k);
      && at.column <= Total(rows[r], k) + |Below(above.Keys, at.column)|
      && forall c | c >= at.column :: c in at.pending ==> c in above
    decreases k
  {
    if k == 0 {
    } else {
      CursorBound(rows, columns, r, k - 1);
      var above := Before(rows, columns, r, 0).pending.Keys;
      assert IsCell(rows, r, k - 1);
      CursorAdvances(Before(rows, columns, r, k - 1), rows[r][k - 1], columns, RowSpan(rows, r, rows[r][k - 1]), above);
    }
  }

  lemma CursorAdvances(at: Cursor, cell: Cell, columns: nat, span: nat, above: set<nat>)
    requires cell.colspan >= 1 && forall c | c >= at.column :: c in at.pending ==> c in above
    ensures var next := Place(at, cell, columns, span);
      && next.column - |Below(above, next.column)| <= at.column - |Below(above, at.column)| + cell.colspan
      && forall c | c >= next.column :: c in next.pending ==> c in above
  {
    var column := Skip(at.pending, at.column);
    BelowGrows(above, at.column, column);
    BelowMonotone(above, column, column + cell.colspan);
    assert forall c | c in Covered(column, columns, cell.colspan) :: c < column + cell.colspan;
  }

  lemma ColumnBound(rows: Rows, columns: nat, r: nat, k: nat)
    requires SpansSeparate(rows) && IsCell(rows, r, k)
    ensures Column(rows, columns, r, k) <= Total(rows[r], k) + |Before(rows, columns, r, 0).pending.Keys|
  {
    CursorBound(rows, columns, r, k);
    var above := Before(rows, columns, r, 0).pending.Keys;
    var at := Before(rows, columns, r, k);
    BelowGrows(above, at.column, Column(rows, columns, r, k));
    BelowMonotone(above, Column(rows, columns, r, k), Column(rows, columns, r, k));
  }

  lemma {:induction false} TotalTail(cells: seq<Cell>, k: nat)
    requires 0 < k <= |cells|
    ensures Total(cells, k) == cells[0].colspan + Total(cells[1..], k - 1)
  {
    if k > 1 { TotalTail(cells, k - 1); }
  }

  lemma {:induction false} WidthBound(cells: seq<Cell>, k: nat)
    requires k < |cells|
    ensures Total(cells, k) < Width(cells)
  {
    if k == 0 {
    } else {
      WidthBound(cells[1..], k - 1);
      TotalTail(cells, k);
    }
  }

  /** The list of the first pass, each span paired with the column that the second pass gives its cell. */
  function Pairs(rows: Rows, columns: nat, r: nat): seq<(nat, nat)>
    requires r <= |rows|
  {
    if r == 0 then [] else PassPairs(Pairs(rows, columns, r - 1) + RowPairs(rows, columns, r - 1, |rows[r - 1]|))
  }

  function RowPairs(rows: Rows, columns: nat, r: nat, k: nat): seq<(nat, nat)>
    requires r < |rows| && k <= |rows[r]|
  {
    if k == 0 then []
    else RowPairs(rows, columns, r, k - 1) + [(Column(rows, columns, r, k - 1), RowSpan(rows, r, rows[r][k - 1]))]
  }

  function PassPairs(pairs: seq<(nat, nat)>): seq<(nat, nat)> {
    if pairs == [] then []
    else if pairs[0].1 > 1 then [(pairs[0].0, pairs[0].1 - 1)] + PassPairs(pairs[1..])
    else PassPairs(pairs[1..])
  }

  function Seconds(pairs: seq<(nat, nat)>): seq<nat> {
    if pairs == [] then [] else [pairs[0].1] + Seconds(pairs[1..])
  }

  function Firsts(pairs: seq<(nat, nat)>): set<nat> {
    if pairs == [] then {} else {pairs[0].0} + Firsts(pairs[1..])
  }

  lemma Associate(a: seq<nat>, b: seq<nat>, c: seq<nat>)
    ensures a + (b + c) == a + b + c
  {
  }

  lemma {:induction false} SecondsConcat(a: seq<(nat, nat)>, b: seq<(nat, nat)>)
    ensures Seconds(a + b) == Seconds(a) + Seconds(b)
  {
    if a == [] {
      assert a + b == b;
    } else {
      SecondsConcat(a[1..], b);
      assert (a + b)[0] == a[0] && (a + b)[1..] == a[1..] + b;
      assert Seconds(a + b) == [a[0].1] + Seconds(a[1..] + b) && Seconds(a) == [a[0].1] + Seconds(a[1..]);
      Associate([a[0].1], Seconds(a[1..]), Seconds(b));
    }
  }

  lemma {:induction false} SecondsPass(pairs: seq<(nat, nat)>)
    ensures Seconds(PassPairs(pairs)) == Pass(Seconds(pairs))
  {
    if pairs == [] {
    } else {
      SecondsPass(pairs[1..]);
      assert Seconds(pairs)[1..] == Seconds(pairs[1..]);
      if pairs[0].1 > 1 {
        var p := (pairs[0].0, pairs[0].1 - 1);
        assert PassPairs(pairs) == [p] + PassPairs(pairs[1..]);
        SecondsConcat([p], PassPairs(pairs[1..]));
        assert Seconds([p]) == [p.1];
      }
    }
  }

  lemma {:induction false} SpansSnoc(rows: Rows, r: nat, cells: seq<Cell>, cell: Cell)
    requires r < |rows|
    ensures Spans(rows, r, cells + [cell]) == Spans(rows, r, cells) + [RowSpan(rows, r, cell)]
  {
    if cells == [] {
      assert cells + [cell] == [cell];
      assert Spans(rows, r, [cell]) == [RowSpan(rows, r, cell)] + Spans(rows, r, []);
    } else {
      SpansSnoc(rows, r, cells[1..], cell);
      assert (cells + [cell])[1..] == cells[1..] + [cell];
    }
  }

  lemma {:induction false} RowSeconds(rows: Rows, columns: nat, r: nat, k: nat)
    requires r < |rows| && k <= |rows[r]|
    ensures Seconds(RowPairs(rows, columns, r, k)) == Spans(rows, r, rows[r][..k])
  {
    if k == 0 {
    } else {
      RowSeconds(rows, columns, r, k - 1);
      var last := (Column(rows, columns, r, k - 1), RowSpan(rows, r, rows[r][k - 1]));
      SecondsConcat(RowPairs(rows, columns, r, k - 1), [last]);
      assert Seconds([last]) == [last.1] + Seconds([]);
      assert rows[r][..k] == rows[r][..k - 1] + [rows[r][k - 1]];
      SpansSnoc(rows, r, rows[r][..k - 1], rows[r][k - 1]);
    }
  }

  lemma {:induction false} PairsActive(rows: Rows, columns: nat, r: nat)
    requires r <= |rows|
    ensures Seconds(Pairs(rows, columns, r)) == Active(rows, r)
  {
    if r == 0 {
    } else {
      var n := |rows[r - 1]|;
      var above, own := Pairs(rows, columns, r - 1), RowPairs(rows, columns, r - 1, n);
      PairsActive(rows, columns, r - 1);
      RowSeconds(rows, columns, r - 1, n);
      assert rows[r - 1][..n] == rows[r - 1];
      NextActive(rows, r, above, own);
    }
  }

  lemma NextActive(rows: Rows, r: nat, above: seq<(nat, nat)>, own: seq<(nat, nat)>)
    requires 0 < r <= |rows| && Seconds(above) == Active(rows, r - 1) && Seconds(own) == Spans(rows, r - 1, rows[r - 1])
    ensures Seconds(PassPairs(above + own)) == Active(rows, r)
  {
    SecondsConcat(above, own);
    SecondsPass(above + own);
  }

  lemma {:induction false} PassKeeps(pairs: seq<(nat, nat)>, c: nat, v: nat)
    requires (c, v) in pairs && v > 1
    ensures (c, v - 1) in PassPairs(pairs)
  {
    if pairs[0] != (c, v) {
      assert (c, v) in pairs[1..];
      PassKeeps(pairs[1..], c, v);
    }
  }

  /** The pending span of column `c`, if it lasts beyond this row, is in the list. */
  ghost predicate Listed(rows: Rows, columns: nat, r: nat, k: nat, c: nat)
    requires r < |rows| && k <= |rows[r]|
  {
    var at := Before(rows, columns, r, k).pending;
    c in at && (at[c] > 1 || k == 0) ==>
      (c, at[c]) in Pairs(rows, columns, r) || (c, at[c]) in RowPairs(rows, columns, r, k)
  }

  lemma ListedNextCell(rows: Rows, columns: nat, r: nat, k: nat, c: nat)
    requires SpansSeparate(rows) && r < |rows| && 0 < k <= |rows[r]| && Listed(rows, columns, r, k - 1, c)
    ensures Listed(rows, columns, r, k, c)
  {
    var at := Before(rows, columns, r, k).pending;
    var cell, column := rows[r][k - 1], Column(rows, columns, r, k - 1);
    var span, before := RowSpan(rows, r, cell), Before(rows, columns, r, k - 1).pending;
    assert IsCell(rows, r, k - 1);
    if span > 1 { OccupyOne(before, column, columns, span); }
    if c in at && at[c] > 1 && c != column { assert c in before && at[c] == before[c]; }
  }

  lemma PassKeepsPending(before: map<nat, nat>, above: seq<(nat, nat)>, own: seq<(nat, nat)>, c: nat)
    requires c in NextRow(before) ==> (c, before[c]) in above || (c, before[c]) in own
    ensures c in NextRow(before) ==> (c, NextRow(before)[c]) in PassPairs(above + own)
  {
    if c in NextRow(before) { PassKeeps(above + own, c, before[c]); }
  }

  lemma ListedNextRow(rows: Rows, columns: nat, r: nat, c: nat)
    requires 0 < r < |rows| && Listed(rows, columns, r - 1, |rows[r - 1]|, c)
    ensures Listed(rows, columns, r, 0, c)
  {
    var n := |rows[r - 1]|;
    var before := Before(rows, columns, r - 1, n).pending;
    PassKeepsPending(before, Pairs(rows, columns, r - 1), RowPairs(rows, columns, r - 1, n), c);
    assert Before(rows, columns, r, 0).pending == NextRow(before);
  }

  lemma {:induction false} PendingListed(rows: Rows, columns: nat, r: nat, k: nat, c: nat)
    requires SpansSeparate(rows) && r < |rows| && k <= |rows[r]|
    ensures Listed(rows, columns, r, k, c)
    decreases r, k
  {
    if k > 0 {
      PendingListed(rows, columns, r, k - 1, c);
      ListedNextCell(rows, columns, r, k, c);
    } else if r > 0 {
      PendingListed(rows, columns, r - 1, |rows[r - 1]|, c);
      ListedNextRow(rows, columns, r, c);
    }
  }

  lemma {:induction false} FirstsSize(pairs: seq<(nat, nat)>)
    ensures |Firsts(pairs)| <= |pairs| == |Seconds(pairs)|
    ensures forall p | p in pairs :: p.0 in Firsts(pairs)
  {
    if pairs == [] {
    } else {
      FirstsSize(pairs[1..]);
    }
  }

  lemma PendingFewer(rows: Rows, columns: nat, r: nat)
    requires SpansSeparate(rows) && r < |rows|
    ensures |Before(rows, columns, r, 0).pending.Keys| <= |Active(rows, r)|
  {
    PairsActive(rows, columns, r);
    var pending, pairs := Before(rows, columns, r, 0).pending, Pairs(rows, columns, r);
    FirstsSize(pairs);
    forall c | c in pending.Keys ensures c in Firsts(pairs) {
      PendingListed(rows, columns, r, 0, c);
      assert (c, pending[c]) in pairs;
    }
    Subset(pending.Keys, Firsts(pairs));
  }

  lemma {:induction false} CountGrows(rows: Rows, r: nat, n: nat)
    requires r < n <= |rows|
    ensures Width(rows[r]) + |Active(rows, r)| <= ColumnCount(rows, n)
  {
    if r < n - 1 { CountGrows(rows, r, n - 1); }
  }

  /** The two passes agree: the first counts a column for every cell of the second, so no cell is dropped. */
  lemma NoCellDropped(rows: Rows, r: nat, k: nat)
    requires SpansSeparate(rows) && IsCell(rows, r, k)
    ensures Column(rows, ColumnCount(rows, |rows|), r, k) < ColumnCount(rows, |rows|)
  {
    var columns := ColumnCount(rows, |rows|);
    ColumnBound(rows, columns, r, k);
    PendingFewer(rows, columns, r);
    WidthBound(rows[r], k);
    CountGrows(rows, r, |rows|);
  }

  lemma MovesOn(at: Cursor, cell: Cell, columns: nat, span: nat, low: nat)
    requires low < columns && low <= Skip(at.pending, at.column)
    ensures Place(at, cell, columns, span).column > low
  {
  }

  /** Later cells of the row start further to the right, whatever their spans. */
  lemma {:induction false} LaterStartsRight(rows: Rows, columns: nat, r: nat, k: nat, j: nat)
    requires r < |rows| && k < j <= |rows[r]| && Column(rows, columns, r, k) < columns
    ensures Before(rows, columns, r, j).column > Column(rows, columns, r, k)
    decreases j
  {
    if j > k + 1 { LaterStartsRight(rows, columns, r, k, j - 1); }
    MovesOn(Before(rows, columns, r, j - 1), rows[r][j - 1], columns, RowSpan(rows, r, rows[r][j - 1]),
            Column(rows, columns, r, k));
  }

  lemma CoversOwnSlot(rows: Rows, columns: nat, r: nat, k: nat)
    requires IsCell(rows, r, k) && Column(rows, columns, r, k) < columns
    ensures Covers(rows, columns, r, k, r, Column(rows, columns, r, k))
  {
  }

  /** No later cell covers the first slot of a cell's own row. */
  lemma LastInOwnSlot(rows: Rows, columns: nat, r: nat, k: nat)
    requires IsCell(rows, r, k) && Column(rows, columns, r, k) < columns
    ensures LastCover(rows, columns, r, k, |rows|, 0, r, Column(rows, columns, r, k))
  {
    var c := Column(rows, columns, r, k);
    CoversOwnSlot(rows, columns, r, k);
    forall q: nat, j: nat | IsCell(rows, q, j) && Precedes(r, k, q, j) ensures !Covers(rows, columns, q, j, r, c) {
      if q == r { LaterStartsRight(rows, columns, r, k, j); }
    }
  }

  /** The cell is the one whose text a slot inside the matrix ends up with. */
  ghost predicate Shows(rows: Rows, r: nat, k: nat, i: nat, c: nat) {
    && i < |rows| && c < ColumnCount(rows, |rows|)
    && LastCover(rows, ColumnCount(rows, |rows|), r, k, |rows|, 0, i, c)
  }

  /** In every table, whatever its spans: a cell is shown somewhere in the matrix exactly if its column is below the
      count, that is, if writing its first slot raises no IndexError. */
  lemma ShownIff(rows: Rows, r: nat, k: nat)
    requires IsCell(rows, r, k)
    ensures (exists i: nat, c: nat :: Shows(rows, r, k, i, c))
       <==> Column(rows, ColumnCount(rows, |rows|), r, k) < ColumnCount(rows, |rows|)
  {
    var columns := ColumnCount(rows, |rows|);
    if Column(rows, columns, r, k) < columns {
      LastInOwnSlot(rows, columns, r, k);
      assert Shows(rows, r, k, r, Column(rows, columns, r, k));
    }
  }

  lemma LastIsUnique(rows: Rows, columns: nat, r: nat, k: nat, q: nat, j: nat, i: nat, c: nat)
    requires LastCover(rows, columns, r, k, |rows|, 0, i, c) && LastCover(rows, columns, q, j, |rows|, 0, i, c)
    ensures r == q && k == j
  {
    assert Precedes(r, k, q, j) || Precedes(q, j, r, k) || (r == q && k == j);
  }

  /** Where a cell is shown the matrix has its text. */
  lemma ShownText(rows: Rows, r: nat, k: nat, i: nat, c: nat)
    requires IsCell(rows, r, k) && Shows(rows, r, k, i, c)
    ensures Entry(rows, i, c) == Some(rows[r][k].text)
  {
    var columns := ColumnCount(rows, |rows|);
    EntryIsLastCover(rows, i, c);
    if Entry(rows, i, c).Some? {
      var q: nat, j: nat :|
        LastCover(rows, columns, q, j, |rows|, 0, i, c) && rows[q][j].text == Entry(rows, i, c).value;
      LastIsUnique(rows, columns, r, k, q, j, i, c);
    }
  }

  /** A shown cell has its text in the first slot of its own row. */
  lemma OwnSlotKept(rows: Rows, r: nat, k: nat)
    requires IsCell(rows, r, k) && Column(rows, ColumnCount(rows, |rows|), r, k) < ColumnCount(rows, |rows|)
    ensures Entry(rows, r, Column(rows, ColumnCount(rows, |rows|), r, k)) == Some(rows[r][k].text)
  {
    LastInOwnSlot(rows, ColumnCount(rows, |rows|), r, k);
    ShownText(rows, r, k, r, Column(rows, ColumnCount(rows, |rows|), r, k));
  }

  /** After a cell that reaches to the last column the next one of its row covers no slot of the matrix. */
  lemma NextIsDropped(rows: Rows, r: nat, k: nat, i: nat, c: nat)
    requires IsCell(rows, r, k) && IsCell(rows, r, k + 1) && rows[r][k].colspan == 0
    requires i < |rows| && c < ColumnCount(rows, |rows|)
    ensures !Covers(rows, ColumnCount(rows, |rows|), r, k + 1, i, c)
  {
    NextColumn(rows, ColumnCount(rows, |rows|), r, k);
  }

  lemma NextColumn(rows: Rows, columns: nat, r: nat, k: nat)
    requires IsCell(rows, r, k) && IsCell(rows, r, k + 1) && rows[r][k].colspan == 0
    ensures Column(rows, columns, r, k + 1) >= columns
  {
    assert Before(rows, columns, r, k + 1) ==
      Place(Before(rows, columns, r, k), rows[r][k], columns, RowSpan(rows, r, rows[r][k]));
  }

  /** In particular the text of every cell is found in its own row when no cell spans both rows and columns. */
  lemma NoTextDropped(rows: Rows, r: nat, k: nat)
    requires SpansSeparate(rows) && IsCell(rows, r, k)
    ensures var c := Column(rows, ColumnCount(rows, |rows|), r, k);
      c < ColumnCount(rows, |rows|) && Entry(rows, r, c) == Some(rows[r][k].text)
  {
    NoCellDropped(rows, r, k);
    OwnSlotKept(rows, r, k);
  }

  const MIXED: Rows := [[Cell(2, 2, "A"), Cell(1, 1, "B")], [Cell(1, 1, "C"), Cell(1, 1, "D")]]

  lemma MixedCount()
    ensures ColumnCount(MIXED, 2) == 3
  {
    SpansTwo(MIXED, 0);
    assert Spans(MIXED, 0, MIXED[0]) == [2, 1];
    assert Pass([2, 1]) == [1] + Pass([1]) && Pass([1]) == Pass([]) == [];
    assert Active(MIXED, 0) == [] && [] + Spans(MIXED, 0, MIXED[0]) == [2, 1];
    assert |Active(MIXED, 1)| == 1;
    assert MIXED[0][1..] == [Cell(1, 1, "B")] && MIXED[1][1..] == [Cell(1, 1, "D")];
    assert Width(MIXED[0]) == 3 && Width(MIXED[1]) == 2;
    assert ColumnCount(MIXED, 1) == 3;
  }

  lemma SpansTwo(rows: Rows, r: nat)
    requires r < |rows| && |rows[r]| == 2
    ensures Spans(rows, r, rows[r]) == [RowSpan(rows, r, rows[r][0]), RowSpan(rows, r, rows[r][1])]
  {
    var tail := rows[r][1..];
    assert tail == [rows[r][1]] && tail[1..] == [];
    assert Spans(rows, r, tail) == [RowSpan(rows, r, rows[r][1])] + Spans(rows, r, []);
  }

  lemma MixedFirstRow()
    ensures Before(MIXED, 3, 0, 2).pending == map[0 := 2, 1 := 2, 2 := 1]
  {
    assert Before(MIXED, 3, 0, 0) == Cursor(map[], 0);
    PlacedFirst();
    assert Before(MIXED, 3, 0, 1) == Place(Cursor(map[], 0), MIXED[0][0], 3, 2);
    PlacedSecond();
    assert Before(MIXED, 3, 0, 2) == Place(Cursor(map[0 := 2, 1 := 2], 2), MIXED[0][1], 3, 1);
  }

  lemma PlacedFirst()
    ensures Place(Cursor(map[], 0), Cell(2, 2, "A"), 3, 2) == Cursor(map[0 := 2, 1 := 2], 2)
  {
    assert Skip(map[], 0) == 0 && Covered(0, 3, 2) == {0, 1};
  }

  lemma PlacedSecond()
    ensures Place(Cursor(map[0 := 2, 1 := 2], 2), Cell(1, 1, "B"), 3, 1) == Cursor(map[0 := 2, 1 := 2, 2 := 1], 3)
  {
    assert Skip(map[0 := 2, 1 := 2], 2) == 2 && Covered(2, 3, 1) == {2};
  }

  lemma MixedSecondRow()
    ensures Column(MIXED, 3, 1, 1) == 3
  {
    MixedFirstRow();
    var pending := map[0 := 1, 1 := 1];
    MixedShorter();
    assert Before(MIXED, 3, 1, 0) == Cursor(pending, 0);
    SkipTwo(pending);
    MixedPlaced(pending);
    assert Before(MIXED, 3, 1, 1) == Place(Cursor(pending, 0), MIXED[1][0], 3, 1);
    SkipThree(map[0 := 1, 1 := 1, 2 := 1]);
  }

  lemma MixedShorter()
    ensures NextRow(map[0 := 2, 1 := 2, 2 := 1]) == map[0 := 1, 1 := 1]
  {
    var pending: map<nat, nat> := map[0 := 2, 1 := 2, 2 := 1];
    assert Shorter(pending, 0) == 1 && Shorter(pending, 1) == 1;
  }

  lemma MixedPlaced(pending: map<nat, nat>)
    requires pending == map[0 := 1, 1 := 1] && Skip(pending, 0) == 2
    ensures Place(Cursor(pending, 0), Cell(1, 1, "C"), 3, 1) == Cursor(map[0 := 1, 1 := 1, 2 := 1], 3)
  {
    assert Covered(2, 3, 1) == {2};
    assert Occupy(pending, 2, 3, 1, 1) == map[0 := 1, 1 := 1, 2 := 1];
  }

  lemma SkipThree(pending: map<nat, nat>)
    requires pending == map[0 := 1, 1 := 1, 2 := 1]
    ensures Skip(pending, 3) == 3
  {
  }

  lemma SkipTwo(pending: map<nat, nat>)
    requires pending == map[0 := 1, 1 := 1]
    ensures Skip(pending, 0) == 2
  {
    assert Skip(pending, 2) == 2 && Skip(pending, 1) == 2;
  }

  lemma MixedCoverIsNotD(r: nat, k: nat, i: nat, c: nat)
    requires IsCell(MIXED, r, k) && c < 3 && Covers(MIXED, 3, r, k, i, c)
    ensures MIXED[r][k].text != "D"
  {
    MixedSecondRow();
    assert !(r == 1 && k == 1);
    assert MIXED[r][k].text[0] in "ABC" && "D"[0] == 'D';
  }

  /** The restriction is needed: a cell that spans both rows and columns counts once in the first pass but takes two
      columns in the second, and the last cell of the next row has no slot at all. */
  lemma MixedSpansDropACell(i: nat, c: nat)
    requires i < 2 && c < ColumnCount(MIXED, 2)
    ensures ColumnCount(MIXED, 2) == Column(MIXED, 3, 1, 1) == 3
    ensures MIXED[1][1].text == "D" && Entry(MIXED, i, c) != Some("D")
  {
    MixedCount();
    MixedSecondRow();
    EntryIsLastCover(MIXED, i, c);
    forall r: nat, k: nat | IsCell(MIXED, r, k) && Covers(MIXED, 3, r, k, i, c) ensures MIXED[r][k].text != "D" {
      MixedCoverIsNotD(r, k, i, c);
    }
  }

  /* ---------- the main result for tables without column spans ---------- */

  lemma NoColSpansSeparate(rows: Rows)
    requires NoColSpans(rows)
    ensures SpansSeparate(rows)
  {
  }

  /** Without column spans no cell is overwritten or dropped: in each row that it spans, a cell's own column holds its
      text, and every other entry is None. */
  lemma NothingLost(rows: Rows, r: nat, k: nat, i: nat)
    requires NoColSpans(rows) && IsCell(rows, r, k) && r <= i < End(rows, r, k)
    ensures var columns := ColumnCount(rows, |rows|);
      Column(rows, columns, r, k) < columns && Entry(rows, i, Column(rows, columns, r, k)) == Some(rows[r][k].text)
  {
    var columns := ColumnCount(rows, |rows|);
    var c := Column(rows, columns, r, k);
    NoColSpansSeparate(rows);
    NoCellDropped(rows, r, k);
    CoversColumn(rows, columns, r, k, i, c);
    EntryIsLastCover(rows, i, c);
    if Entry(rows, i, c).Some? {
      var q: nat, j: nat :|
        LastCover(rows, columns, q, j, |rows|, 0, i, c) && rows[q][j].text == Entry(rows, i, c).value;
      CoverIsUnique(rows, columns, r, k, q, j, i, c);
    }
  }

  /** ... and nothing is invented: a slot with a text is covered by exactly one cell, which has that text. */
  lemma NothingInvented(rows: Rows, i: nat, c: nat)
    requires NoColSpans(rows) && Entry(rows, i, c).Some?
    ensures var columns := ColumnCount(rows, |rows|);
      exists r: nat, k: nat :: IsCell(rows, r, k) && r <= i < End(rows, r, k) && Column(rows, columns, r, k) == c
        && rows[r][k].text == Entry(rows, i, c).value
  {
    var columns := ColumnCount(rows, |rows|);
    EntryIsLastCover(rows, i, c);
    var r: nat, k: nat :| LastCover(rows, columns, r, k, |rows|, 0, i, c) && rows[r][k].text == Entry(rows, i, c).value;
    CoversColumn(rows, columns, r, k, i, c);
  }

  /* ---------- the layout is the one of the standard ---------- */

  /** Section 4.9.12.1 of the HTML Living Standard, for cells one column wide: the cells of a row stand from left to
      right, each in the first column that neither an earlier cell of the row nor one from above occupies. */
  ghost predicate Blocked(rows: Rows, at: (nat, nat) -> nat, r: nat, c: nat) {
    exists q: nat, j: nat :: IsCell(rows, q, j) && q < r && End(rows, q, j) > r && at(q, j) == c
  }

  ghost predicate Placed(rows: Rows, at: (nat, nat) -> nat, r: nat, k: nat)
    requires IsCell(rows, r, k)
  {
    && (k > 0 ==> at(r, k - 1) < at(r, k))
    && !Blocked(rows, at, r, at(r, k))
    && forall c: nat | c < at(r, k) && (k > 0 ==> c > at(r, k - 1)) :: Blocked(rows, at, r, c)
  }

  ghost predicate IsLayout(rows: Rows, at: (nat, nat) -> nat) {
    forall r: nat, k: nat | IsCell(rows, r, k) :: Placed(rows, at, r, k)
  }

  /** `at` agrees with the program on all earlier cells. */
  ghost predicate Agrees(rows: Rows, columns: nat, at: (nat, nat) -> nat, r: nat, k: nat) {
    forall q: nat, j: nat | IsCell(rows, q, j) && Precedes(q, j, r, k) :: at(q, j) == Column(rows, columns, q, j)
  }

  lemma PendingIsBlocked(rows: Rows, columns: nat, at: (nat, nat) -> nat, r: nat, k: nat, c: nat)
    requires NoColSpans(rows) && IsCell(rows, r, k) && Agrees(rows, columns, at, r, k)
    requires PendingExact(rows, columns, r, k) && c in Before(rows, columns, r, k).pending
    requires k > 0 ==> c > at(r, k - 1)
    ensures Blocked(rows, at, r, c)
  {
    var v := Before(rows, columns, r, k).pending[c];
    var q: nat, j: nat :| Blocks(rows, columns, q, j, r, k, c, v);
    assert IsCell(rows, q, j) && Precedes(q, j, r, k) && at(q, j) == Column(rows, columns, q, j) == c;
    if q == r {
      assert IsCell(rows, r, k - 1) && Precedes(r, k - 1, r, k);
      RowIncreases(rows, columns, r, j, k - 1);
    }
  }

  lemma BlockedIsPending(rows: Rows, columns: nat, at: (nat, nat) -> nat, r: nat, k: nat, c: nat)
    requires IsCell(rows, r, k) && Agrees(rows, columns, at, r, k)
    requires PendingExact(rows, columns, r, k) && Blocked(rows, at, r, c)
    ensures c in Before(rows, columns, r, k).pending
  {
    var q: nat, j: nat :| IsCell(rows, q, j) && q < r && End(rows, q, j) > r && at(q, j) == c;
    assert Precedes(q, j, r, k) && at(q, j) == Column(rows, columns, q, j);
  }

  lemma PendingColumns(rows: Rows, columns: nat, at: (nat, nat) -> nat, r: nat, k: nat, c: nat)
    requires NoColSpans(rows) && IsCell(rows, r, k) && Agrees(rows, columns, at, r, k)
    requires k > 0 ==> c > at(r, k - 1)
    ensures Blocked(rows, at, r, c) <==> c in Before(rows, columns, r, k).pending
  {
    PendingIsExact(rows, columns, r, k);
    if c in Before(rows, columns, r, k).pending { PendingIsBlocked(rows, columns, at, r, k, c); }
    if Blocked(rows, at, r, c) { BlockedIsPending(rows, columns, at, r, k, c); }
  }

  lemma CursorNext(rows: Rows, columns: nat, r: nat, k: nat)
    requires NoColSpans(rows) && IsCell(rows, r, k) && k > 0
    ensures Before(rows, columns, r, k).column == Column(rows, columns, r, k - 1) + 1
  {
    assert IsCell(rows, r, k - 1);
    assert Before(rows, columns, r, k) ==
      Place(Before(rows, columns, r, k - 1), rows[r][k - 1], columns, RowSpan(rows, r, rows[r][k - 1]));
  }

  lemma {:induction false} RowIncreases(rows: Rows, columns: nat, r: nat, j: nat, k: nat)
    requires NoColSpans(rows) && IsCell(rows, r, k) && j <= k
    ensures Column(rows, columns, r, j) <= Column(rows, columns, r, k)
    ensures j < k ==> Column(rows, columns, r, j) < Column(rows, columns, r, k)
    ensures k > 0 ==> Before(rows, columns, r, k).column == Column(rows, columns, r, k - 1) + 1
    decreases k
  {
    if k == 0 {
    } else {
      CursorNext(rows, columns, r, k);
      assert IsCell(rows, r, k - 1);
      if j < k { RowIncreases(rows, columns, r, j, k - 1); }
    }
  }

  /** The program's columns are a layout in the sense of the standard ... */
  lemma ColumnsAreALayout(rows: Rows, columns: nat, at: (nat, nat) -> nat)
    requires NoColSpans(rows) && forall r: nat, k: nat | IsCell(rows, r, k) :: at(r, k) == Column(rows, columns, r, k)
    ensures IsLayout(rows, at)
  {
    forall r: nat, k: nat | IsCell(rows, r, k) ensures Placed(rows, at, r, k) {
      RowIncreases(rows, columns, r, k, k);
      PendingValues(rows, columns, r, k);
      if k > 0 { assert IsCell(rows, r, k - 1); }
      PendingColumns(rows, columns, at, r, k, at(r, k));
      forall c: nat | c < at(r, k) && (k > 0 ==> c > at(r, k - 1)) ensures Blocked(rows, at, r, c) {
        PendingColumns(rows, columns, at, r, k, c);
      }
    }
  }

  lemma PendingValues(rows: Rows, columns: nat, r: nat, k: nat)
    requires NoColSpans(rows) && IsCell(rows, r, k)
    ensures var pending := Before(rows, columns, r, k).pending; forall c | c in pending :: pending[c] != 0
  {
    PendingIsExact(rows, columns, r, k);
  }

  /** ... and it is the only one. */
  lemma {:induction false} LayoutIsUnique(rows: Rows, columns: nat, at: (nat, nat) -> nat, r: nat, k: nat)
    requires NoColSpans(rows) && IsLayout(rows, at) && IsCell(rows, r, k)
    ensures at(r, k) == Column(rows, columns, r, k)
    decreases r, k
  {
    forall q: nat, j: nat | IsCell(rows, q, j) && Precedes(q, j, r, k) ensures at(q, j) == Column(rows, columns, q, j) {
      LayoutIsUnique(rows, columns, at, q, j);
    }
    assert Placed(rows, at, r, k);
    if k > 0 { assert IsCell(rows, r, k - 1); }
    RowIncreases(rows, columns, r, k, k);
    PendingValues(rows, columns, r, k);
    PendingColumns(rows, columns, at, r, k, at(r, k));
    PendingColumns(rows, columns, at, r, k, Column(rows, columns, r, k));
  }
}
