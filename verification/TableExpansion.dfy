/** `table_to_2d` itself, filling its matrix in place, proved against the layout. */
module TableExpansion {
  import opened TableLayout

  /** Lines 84-103. */
  method CountColumns(rows: Rows) returns (columns: nat)
    ensures columns == ColumnCount(rows, |rows|)
  {
    var rowspans: seq<nat> := [];
    columns := 0;
    for r := 0 to |rows|
      invariant rowspans == Active(rows, r) && columns == ColumnCount(rows, r)
    {
      columns := Max(columns, Width(rows[r]) + |rowspans|);
      rowspans := Pass(rowspans + Spans(rows, r, rows[r]));
    }
  }

  /** One value of `drow` in lines 129-136: writes outside the matrix are ignored. */
  method FillSpan(table: array2<Option<string>>, row: nat, column: nat, width: int, text: string, span: nat,
                  pending: map<nat, nat>)
    returns (pending': map<nat, nat>)
    modifies table
    ensures pending' ==
      if row < table.Length0
      then map c | c in pending.Keys + Covered(column, table.Length1, width) ::
             if c in Covered(column, table.Length1, width) then span else pending[c]
      else pending
    ensures forall i, c | 0 <= i < table.Length0 && 0 <= c < table.Length1 ::
      table[i, c] == if i == row && Spanned(c, column, width) then Some(text) else old(table[i, c])
  {
    var columns := table.Length1;
    pending' := pending;
    var dcol := 0;
    while dcol < width
      invariant 0 <= dcol && (dcol <= width || dcol == 0)
      invariant pending' ==
        if row < table.Length0
        then map c | c in pending.Keys + Covered(column, columns, dcol) ::
               if c in Covered(column, columns, dcol) then span else pending[c]
        else pending
      invariant forall i, c | 0 <= i < table.Length0 && 0 <= c < columns ::
        table[i, c] == if i == row && Spanned(c, column, dcol) then Some(text) else old(table[i, c])
    {
      if row < table.Length0 && column + dcol < columns {
        table[row, column + dcol] := Some(text);
        pending' := pending'[column + dcol := span];
      }
      dcol := dcol + 1;
    }
  }

  /** Lines 124-136. */
  method FillCell(table: array2<Option<string>>, row: nat, column: nat, cell: Cell, span: nat, pending: map<nat, nat>)
    returns (pending': map<nat, nat>)
    requires row < table.Length0 && span >= 1
    modifies table
    ensures pending' == Occupy(pending, column, table.Length1, ColSpan(cell, column, table.Length1), span)
    ensures forall i, c | 0 <= i < table.Length0 && 0 <= c < table.Length1 ::
      table[i, c] ==
        if row <= i < row + span && Spanned(c, column, ColSpan(cell, column, table.Length1)) then Some(cell.text)
        else old(table[i, c])
  {
    var width := ColSpan(cell, column, table.Length1);
    pending' := pending[column := span];
    var drow := 0;
    while drow < span
      invariant 0 <= drow <= span
      invariant pending' ==
        if drow == 0 then pending[column := span] else Occupy(pending, column, table.Length1, width, span)
      invariant forall i, c | 0 <= i < table.Length0 && 0 <= c < table.Length1 ::
        table[i, c] == if row <= i < row + drow && Spanned(c, column, width) then Some(cell.text) else old(table[i, c])
    {
      pending' := FillSpan(table, row + drow, column, width, cell.text, span, pending');
      drow := drow + 1;
    }
  }

  /** Lines 119-121: the loop ends, at the first free column. */
  method SkipPending(pending: map<nat, nat>, start: nat) returns (column: nat)
    ensures column == Skip(pending, start)
  {
    column := start;
    while column in pending && pending[column] != 0
      invariant Skip(pending, column) == Skip(pending, start)
      decreases |KeysFrom(pending, column)|
    {
      assert KeysFrom(pending, column + 1) == KeysFrom(pending, column) - {column};
      column := column + 1;
    }
  }

  /** The matrix holds what the cells before cell `k` of row `r` leave. */
  ghost predicate Filled(rows: Rows, table: array2<Option<string>>, r: nat, k: nat)
    requires r <= |rows| && k <= (if r < |rows| then |rows[r]| else 0)
    reads table
  {
    && table.Length0 == |rows|
    && forall i, c | 0 <= i < table.Length0 && 0 <= c < table.Length1 ::
         table[i, c] == Painted(rows, table.Length1, r, k, i, c)
  }

  /** The end of a row is the beginning of the next. */
  lemma RowDone(rows: Rows, table: array2<Option<string>>, r: nat)
    requires r < |rows| && Filled(rows, table, r, |rows[r]|)
    ensures Filled(rows, table, r + 1, 0)
  {
    forall i, c | 0 <= i < table.Length0 && 0 <= c < table.Length1
      ensures table[i, c] == Painted(rows, table.Length1, r + 1, 0, i, c)
    {
      assert Painted(rows, table.Length1, r + 1, 0, i, c) == Painted(rows, table.Length1, r, |rows[r]|, i, c);
    }
  }

  lemma NextPending(rows: Rows, columns: nat, r: nat)
    requires r + 1 < |rows|
    ensures Before(rows, columns, r + 1, 0).pending == NextRow(Before(rows, columns, r, |rows[r]|).pending)
  {
  }

  /** Lines 83-140, for every table: the slots hold the text of the last cell that the layout puts there. */
  method TableTo2D(rows: Rows) returns (table: array2<Option<string>>)
    ensures table.Length0 == |rows| && table.Length1 == ColumnCount(rows, |rows|)
    ensures forall i, c | 0 <= i < table.Length0 && 0 <= c < table.Length1 :: table[i, c] == Entry(rows, i, c)
  {
    var columns := CountColumns(rows);
    table := EmptyTable(rows, columns);
    var pending: map<nat, nat> := map[];
    for row := 0 to |rows|
      invariant fresh(table) && table.Length1 == columns && Filled(rows, table, row, 0)
      invariant row < |rows| ==> pending == Before(rows, columns, row, 0).pending
    {
      pending := FillNext(rows, row, table, pending);
    }
  }

  /** Line 110. */
  method EmptyTable(rows: Rows, columns: nat) returns (table: array2<Option<string>>)
    ensures fresh(table) && table.Length1 == columns && Filled(rows, table, 0, 0)
  {
    table := new Option<string>[|rows|, columns]((i, c) => None);
  }

  /** Lines 115-138. */
  method FillNext(rows: Rows, row: nat, table: array2<Option<string>>, pending0: map<nat, nat>)
    returns (pending: map<nat, nat>)
    requires row < |rows| && Filled(rows, table, row, 0) && pending0 == Before(rows, table.Length1, row, 0).pending
    modifies table
    ensures Filled(rows, table, row + 1, 0)
    ensures row + 1 < |rows| ==> pending == Before(rows, table.Length1, row + 1, 0).pending
  {
    pending := FillRow(rows, row, table, pending0);
    pending := NextRow(pending);
    RowDone(rows, table, row);
    if row + 1 < |rows| { NextPending(rows, table.Length1, row); }
  }

  /** Lines 115-135. */
  method FillRow(rows: Rows, row: nat, table: array2<Option<string>>, pending0: map<nat, nat>)
    returns (pending: map<nat, nat>)
    requires row < |rows| && Filled(rows, table, row, 0) && pending0 == Before(rows, table.Length1, row, 0).pending
    modifies table
    ensures pending == Before(rows, table.Length1, row, |rows[row]|).pending && Filled(rows, table, row, |rows[row]|)
  {
    var columns := table.Length1;
    var spanOffset: int := 0;
    pending := pending0;
    for k := 0 to |rows[row]|
      invariant Filled(rows, table, row, k) && pending == Before(rows, columns, row, k).pending
      invariant k + spanOffset == Before(rows, columns, row, k).column
    {
      var cell := rows[row][k];
      var column := SkipPending(pending, k + spanOffset);
      var span := RowSpan(rows, row, cell);
      spanOffset := column - k + ColSpan(cell, column, columns) - 1;
      pending := FillCell(table, row, column, cell, span, pending);
    }
  }
}
