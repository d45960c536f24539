/**
 The expansion of an HTML table with row and column spans into a matrix: `table_to_2d` in
 rocky/tools/add_ooi_information.py. This module defines where the program puts each cell.
 */
module TableLayout {

  datatype Option<+T> = None | Some(value: T)

  /** A `td` or `th` element; the spans are the values of the attributes, 1 if absent. */
  datatype Cell = Cell(rowspan: nat, colspan: nat, text: string)

  type Rows = seq<seq<Cell>>

  /* ---------- the first pass: how many columns ---------- */

  /** A row span of 0 reaches to the bottom, lines 102 and 124. */
  function RowSpan(rows: Rows, r: nat, cell: Cell): (span: nat)
    requires r < |rows|
    ensures span >= 1
  {
    if cell.rowspan == 0 then |rows| - r else cell.rowspan
  }

  /** The width that the first pass gives to a row's own cells; the last one counts for 1, line 99. */
  function Width(cells: seq<Cell>): nat {
    if |cells| == 0 then 0
    else if |cells| == 1 then 1
    else (if cells[0].colspan == 0 then 1 else cells[0].colspan) + Width(cells[1..])
  }

  function Spans(rows: Rows, r: nat, cells: seq<Cell>): seq<nat>
    requires r < |rows|
  {
    if cells == [] then [] else [RowSpan(rows, r, cells[0])] + Spans(rows, r, cells[1..])
  }

  /** Line 103. */
  function Pass(spans: seq<nat>): seq<nat> {
    if spans == [] then []
    else if spans[0] > 1 then [spans[0] - 1] + Pass(spans[1..])
    else Pass(spans[1..])
  }

  /** `rowspans_list` before row `r`. */
  function Active(rows: Rows, r: nat): seq<nat>
    requires r <= |rows|
  {
    if r == 0 then [] else Pass(Active(rows, r - 1) + Spans(rows, r - 1, rows[r - 1]))
  }

  function Max(a: nat, b: nat): nat {
    if a < b then b else a
  }

  /** `colcount` after the first `r` rows. */
  function ColumnCount(rows: Rows, r: nat): nat
    requires r <= |rows|
  {
    if r == 0 then 0 else Max(ColumnCount(rows, r - 1), Width(rows[r - 1]) + |Active(rows, r - 1)|)
  }

  /* ---------- the second pass: where each cell goes ---------- */

  /** The row spans still pending in each column, and the column where the search for the next cell starts. */
  datatype Cursor = Cursor(pending: map<nat, nat>, column: nat)

  function KeysFrom(pending: map<nat, nat>, column: nat): set<nat> {
    set c | c in pending && c >= column
  }

  /** Lines 119-121: the first column from `column` on with nothing pending. */
  function Skip(pending: map<nat, nat>, column: nat): (free: nat)
    ensures column <= free
    ensures free !in pending || pending[free] == 0
    ensures forall c | column <= c < free :: c in pending && pending[c] != 0
    decreases |KeysFrom(pending, column)|
  {
    if column in pending && pending[column] != 0 then
      assert KeysFrom(pending, column + 1) == KeysFrom(pending, column) - {column};
      Skip(pending, column + 1)
    else column
  }

  /** A column span of 0 reaches to the last column, line 125. It is negative for a cell beyond that. */
  function ColSpan(cell: Cell, column: nat, columns: nat): int {
    if cell.colspan == 0 then columns - column else cell.colspan
  }

  predicate Spanned(c: nat, column: nat, width: int) {
    column <= c < column + width
  }

  /** The columns inside the matrix among the first `width` columns of a cell at `column`. */
  function Covered(column: nat, columns: nat, width: int): set<nat> {
    set c: nat | c < columns && Spanned(c, column, width)
  }

  /** Lines 124-134: a cell at `column` takes over the pending spans of the columns it covers. */
  function Occupy(pending: map<nat, nat>, column: nat, columns: nat, width: int, span: nat): map<nat, nat> {
    map c | c in pending.Keys + {column} + Covered(column, columns, width) ::
      if c == column || c in Covered(column, columns, width) then span else pending[c]
  }

  function Place(at: Cursor, cell: Cell, columns: nat, span: nat): Cursor {
    var column := Skip(at.pending, at.column);
    var width := ColSpan(cell, column, columns);
    Cursor(Occupy(at.pending, column, columns, width, span), column + width)
  }

  function Shorter(pending: map<nat, nat>, column: nat): nat
    requires column in pending && pending[column] > 1
  {
    pending[column] - 1
  }

  /** Line 138. */
  function NextRow(pending: map<nat, nat>): map<nat, nat> {
    map c | c in pending && pending[c] > 1 :: Shorter(pending, c)
  }

  /** The state of the second pass just before cell `k` of row `r`. */
  function Before(rows: Rows, columns: nat, r: nat, k: nat): Cursor
    requires r < |rows| && k <= |rows[r]|
    decreases r, k
  {
    if k > 0 then
      Place(Before(rows, columns, r, k - 1), rows[r][k - 1], columns, RowSpan(rows, r, rows[r][k - 1]))
    else if r == 0 then Cursor(map[], 0)
    else Cursor(NextRow(Before(rows, columns, r - 1, |rows[r - 1]|).pending), 0)
  }

  ghost predicate IsCell(rows: Rows, r: int, k: int) {
    0 <= r < |rows| && 0 <= k < |rows[r]|
  }

  /** The column of cell `k` of row `r`. */
  function Column(rows: Rows, columns: nat, r: nat, k: nat): nat
    requires r < |rows| && k < |rows[r]|
  {
    var at := Before(rows, columns, r, k);
    Skip(at.pending, at.column)
  }

  /** Slot (i, c) lies within the spans of cell `k` of row `r`. */
  predicate Covers(rows: Rows, columns: nat, r: nat, k: nat, i: nat, c: nat)
    requires r < |rows| && k < |rows[r]|
  {
    var column := Column(rows, columns, r, k);
    && r <= i < r + RowSpan(rows, r, rows[r][k])
    && Spanned(c, column, ColSpan(rows[r][k], column, columns))
  }

  /** What the cells before cell `k` of row `r` leave in slot (i, c): the text of the last that covers it. */
  function Painted(rows: Rows, columns: nat, r: nat, k: nat, i: nat, c: nat): Option<string>
    requires r <= |rows| && k <= (if r < |rows| then |rows[r]| else 0)
    decreases r, k
  {
    if k > 0 then
      if Covers(rows, columns, r, k - 1, i, c) then Some(rows[r][k - 1].text)
      else Painted(rows, columns, r, k - 1, i, c)
    else if r == 0 then None
    else Painted(rows, columns, r - 1, |rows[r - 1]|, i, c)
  }

  /** The matrix that the program returns. */
  function Entry(rows: Rows, i: nat, c: nat): Option<string> {
    Painted(rows, ColumnCount(rows, |rows|), |rows|, 0, i, c)
  }
}
