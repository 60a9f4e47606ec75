/** String offsets and terminal columns of one row (src/lib/terminal-cell-columns.ts). */
module CellColumns {

  /** One visited cell: the columns it spans and the characters it contributes; 0 counts as 1. */
  datatype Cell = Cell(width: nat, charLen: nat)

  datatype ColumnMap = ColumnMap(columnOfOffset: seq<nat>, offsetOfColumn: seq<nat>,
                                 totalColumns: nat, totalOffsets: nat)

  function Width(cell: Cell): (w: nat)
    ensures w > 0
  {
    if cell.width == 0 then 1 else cell.width
  }

  function Length(cell: Cell): (n: nat)
    ensures n > 0
  {
    if cell.charLen == 0 then 1 else cell.charLen
  }

  // ---------------------------------------------------------------- where cells begin

  /** The column at which cell `n` begins. */
  function Column(cells: seq<Cell>, n: nat): nat
    requires n <= |cells|
  {
    if n == 0 then 0 else Column(cells, n - 1) + Width(cells[n - 1])
  }

  /** The string offset at which cell `n` begins. */
  function Offset(cells: seq<Cell>, n: nat): nat
    requires n <= |cells|
  {
    if n == 0 then 0 else Offset(cells, n - 1) + Length(cells[n - 1])
  }

  /** The cell that an offset, or a column, of the first `n` cells belongs to. */
  function CellOfOffset(cells: seq<Cell>, n: nat, offset: nat): (k: nat)
    requires n <= |cells| && offset < Offset(cells, n)
    ensures k < n && Offset(cells, k) <= offset < Offset(cells, k + 1)
  {
    if offset >= Offset(cells, n - 1) then n - 1 else CellOfOffset(cells, n - 1, offset)
  }

  function CellOfColumn(cells: seq<Cell>, n: nat, column: nat): (k: nat)
    requires n <= |cells| && column < Column(cells, n)
    ensures k < n && Column(cells, k) <= column < Column(cells, k + 1)
  {
    if column >= Column(cells, n - 1) then n - 1 else CellOfColumn(cells, n - 1, column)
  }

  /** A map describes the cells: every offset leads to its cell's first column, and every column to its
      cell's first offset. */
  ghost predicate Describes(m: ColumnMap, cells: seq<Cell>, n: nat)
    requires n <= |cells|
  {
    && m.totalColumns == |m.offsetOfColumn| == Column(cells, n)
    && m.totalOffsets == |m.columnOfOffset| == Offset(cells, n)
    && (forall o | 0 <= o < |m.columnOfOffset| :: m.columnOfOffset[o] == Column(cells, CellOfOffset(cells, n, o)))
    && (forall c | 0 <= c < |m.offsetOfColumn| :: m.offsetOfColumn[c] == Offset(cells, CellOfColumn(cells, n, c)))
  }

  method BuildColumnMap(cells: seq<Cell>) returns (r: ColumnMap)
    ensures Describes(r, cells, |cells|)
  {
    r := ColumnMap([], [], 0, 0);
    for n := 0 to |cells|
      invariant Describes(r, cells, n)
    {
      var w, len := Width(cells[n]), Length(cells[n]);
      var columns := Repeat(r.columnOfOffset, r.totalColumns, len);
      var offsets := Repeat(r.offsetOfColumn, r.totalOffsets, w);
      var next := ColumnMap(columns, offsets, r.totalColumns + w, r.totalOffsets + len);
      OneMoreCell(r, next, cells, n);
      r := next;
    }
  }

  method Repeat(list: seq<nat>, value: nat, times: nat) returns (longer: seq<nat>)
    ensures |longer| == |list| + times && longer[..|list|] == list
    ensures forall i | |list| <= i < |longer| :: longer[i] == value
  {
    longer := list;
    for k := 0 to times
      invariant |longer| == |list| + k && longer[..|list|] == list
      invariant forall i | |list| <= i < |longer| :: longer[i] == value
    {
      longer := longer + [value];
    }
  }

  lemma OneMoreCell(r: ColumnMap, next: ColumnMap, cells: seq<Cell>, n: nat)
    requires n < |cells| && Describes(r, cells, n)
    requires next.totalColumns == r.totalColumns + Width(cells[n]) == |next.offsetOfColumn|
    requires next.totalOffsets == r.totalOffsets + Length(cells[n]) == |next.columnOfOffset|
    requires next.columnOfOffset[..|r.columnOfOffset|] == r.columnOfOffset
    requires next.offsetOfColumn[..|r.offsetOfColumn|] == r.offsetOfColumn
    requires forall i | |r.columnOfOffset| <= i < |next.columnOfOffset| :: next.columnOfOffset[i] == r.totalColumns
    requires forall i | |r.offsetOfColumn| <= i < |next.offsetOfColumn| :: next.offsetOfColumn[i] == r.totalOffsets
    ensures Describes(next, cells, n + 1)
  {
    assert forall o | 0 <= o < |r.columnOfOffset| :: next.columnOfOffset[o] == r.columnOfOffset[o];
    assert forall c | 0 <= c < |r.offsetOfColumn| :: next.offsetOfColumn[c] == r.offsetOfColumn[c];
  }

  // ---------------------------------------------------------------- conversions

  function OffsetToColumn(m: ColumnMap, offset: int): int {
    if offset < 0 then 0
    else if offset < |m.columnOfOffset| then m.columnOfOffset[offset]
    else m.totalColumns + (offset - m.totalOffsets)
  }

  function OffsetToColumnExclusive(m: ColumnMap, endOffsetExclusive: int): int {
    var lastCol := OffsetToColumn(m, endOffsetExclusive - 1);
    var lastWidth := OffsetToColumn(m, endOffsetExclusive) - lastCol;
    lastCol + if lastWidth > 1 then lastWidth else 1
  }

  function ColumnToOffset(m: ColumnMap, column: int): int {
    if column < 0 then 0
    else if column < |m.offsetOfColumn| then m.offsetOfColumn[column]
    else m.totalOffsets
  }

  // ---------------------------------------------------------------- ranges

  lemma {:induction false} ColumnsGrow(cells: seq<Cell>, m: nat, n: nat)
    requires m < n <= |cells|
    ensures Column(cells, m) < Column(cells, n) && Offset(cells, m) < Offset(cells, n)
    decreases n
  {
    if m < n - 1 {
      ColumnsGrow(cells, m, n - 1);
    }
  }

  /** A column lies before a cell's first column exactly when its own cell comes before. */
  lemma ColumnBefore(cells: seq<Cell>, column: nat, k: nat)
    requires column < Column(cells, |cells|) && k <= |cells|
    ensures column < Column(cells, k) <==> CellOfColumn(cells, |cells|, column) < k
  {
    var n := CellOfColumn(cells, |cells|, column);
    if n + 1 < k {
      ColumnsGrow(cells, n + 1, k);
    }
    if k < n {
      ColumnsGrow(cells, k, n);
    }
  }

  lemma OffsetBefore(cells: seq<Cell>, offset: nat, k: nat)
    requires offset < Offset(cells, |cells|) && k <= |cells|
    ensures offset < Offset(cells, k) <==> CellOfOffset(cells, |cells|, offset) < k
  {
    var n := CellOfOffset(cells, |cells|, offset);
    if n + 1 < k {
      ColumnsGrow(cells, n + 1, k);
    }
    if k < n {
      ColumnsGrow(cells, k, n);
    }
  }

  /** The first cell after the one that holds an offset, and whether the next offset is its start. */
  predicate EndsCell(cells: seq<Cell>, endExclusive: nat)
    requires 0 < endExclusive <= Offset(cells, |cells|)
  {
    endExclusive == Offset(cells, CellOfOffset(cells, |cells|, endExclusive - 1) + 1)
  }

  /** The exclusive end column of a range is the end of its last cell, or the cell's first column and one
      more where the range ends inside the cell. */
  lemma EndColumn(m: ColumnMap, cells: seq<Cell>, endExclusive: nat)
    requires Describes(m, cells, |cells|) && 0 < endExclusive <= m.totalOffsets
    ensures var last := CellOfOffset(cells, |cells|, endExclusive - 1);
            OffsetToColumnExclusive(m, endExclusive)
            == if EndsCell(cells, endExclusive) then Column(cells, last + 1) else Column(cells, last) + 1
  {
    if endExclusive < m.totalOffsets {
      CellAfter(cells, endExclusive);
    } else {
      LastCell(cells);
    }
  }

  lemma CellAfter(cells: seq<Cell>, offset: nat)
    requires 0 < offset < Offset(cells, |cells|)
    ensures var last := CellOfOffset(cells, |cells|, offset - 1);
            CellOfOffset(cells, |cells|, offset) == if EndsCell(cells, offset) then last + 1 else last
  {
    var last := CellOfOffset(cells, |cells|, offset - 1);
    OffsetBefore(cells, offset, last);
    OffsetBefore(cells, offset, last + 1);
    if EndsCell(cells, offset) {
      assert last + 1 < |cells|;
      OffsetBefore(cells, offset, last + 2);
    }
  }

  lemma LastCell(cells: seq<Cell>)
    requires cells != []
    ensures CellOfOffset(cells, |cells|, Offset(cells, |cells|) - 1) == |cells| - 1
    ensures EndsCell(cells, Offset(cells, |cells|))
  {
  }

  /** A column is inside the converted range of some characters exactly when its cell holds one of them,
      provided the range ends with a cell or inside one that is a single column wide. */
  lemma ColumnInRangeIffCellIs(m: ColumnMap, cells: seq<Cell>, start: nat, endExclusive: nat, column: nat)
    requires Describes(m, cells, |cells|) && start < endExclusive <= m.totalOffsets && column < m.totalColumns
    requires EndsCell(cells, endExclusive) || Width(cells[CellOfOffset(cells, |cells|, endExclusive - 1)]) == 1
    ensures OffsetToColumn(m, start) <= column < OffsetToColumnExclusive(m, endExclusive) <==>
            HoldsSome(cells, CellOfColumn(cells, |cells|, column), start, endExclusive)
  {
    var first, last := CellOfOffset(cells, |cells|, start), CellOfOffset(cells, |cells|, endExclusive - 1);
    var k := CellOfColumn(cells, |cells|, column);
    EndColumn(m, cells, endExclusive);
    ColumnBefore(cells, column, first);
    ColumnBefore(cells, column, last + 1);
    HoldsSomeIffBetween(cells, k, start, endExclusive);
  }

  /** A cell holds one of the characters of a range. */
  ghost predicate HoldsSome(cells: seq<Cell>, k: nat, start: nat, endExclusive: nat)
    requires k < |cells|
  {
    Offset(cells, k) < endExclusive && start < Offset(cells, k + 1)
  }

  lemma HoldsSomeIffBetween(cells: seq<Cell>, k: nat, start: nat, endExclusive: nat)
    requires k < |cells| && start < endExclusive <= Offset(cells, |cells|)
    ensures HoldsSome(cells, k, start, endExclusive) <==>
            CellOfOffset(cells, |cells|, start) <= k <= CellOfOffset(cells, |cells|, endExclusive - 1)
  {
    OffsetBefore(cells, start, k + 1);
    OffsetBefore(cells, endExclusive - 1, k);
  }

  /** For every range: the first column of a cell is inside the converted range exactly when the cell holds
      one of the characters, and any further column exactly when the cell's last character is one. */
  lemma ColumnInRangeIff(m: ColumnMap, cells: seq<Cell>, start: nat, endExclusive: nat, column: nat)
    requires Describes(m, cells, |cells|) && start < endExclusive <= m.totalOffsets && column < m.totalColumns
    ensures var k := CellOfColumn(cells, |cells|, column);
            OffsetToColumn(m, start) <= column < OffsetToColumnExclusive(m, endExclusive)
            <==> if column == Column(cells, k) then HoldsSome(cells, k, start, endExclusive)
                 else start < Offset(cells, k + 1) <= endExclusive
  {
    ColumnFromStart(m, cells, start, column);
    ColumnBeforeEnd(m, cells, endExclusive, column);
  }

  lemma ColumnFromStart(m: ColumnMap, cells: seq<Cell>, start: nat, column: nat)
    requires Describes(m, cells, |cells|) && start < m.totalOffsets && column < m.totalColumns
    ensures OffsetToColumn(m, start) <= column <==> start < Offset(cells, CellOfColumn(cells, |cells|, column) + 1)
  {
    ColumnBefore(cells, column, CellOfOffset(cells, |cells|, start));
    OffsetBefore(cells, start, CellOfColumn(cells, |cells|, column) + 1);
  }

  lemma ColumnBeforeEnd(m: ColumnMap, cells: seq<Cell>, endExclusive: nat, column: nat)
    requires Describes(m, cells, |cells|) && 0 < endExclusive <= m.totalOffsets && column < m.totalColumns
    ensures var k := CellOfColumn(cells, |cells|, column);
            column < OffsetToColumnExclusive(m, endExclusive)
            <==> if column == Column(cells, k) then Offset(cells, k) < endExclusive
                 else Offset(cells, k + 1) <= endExclusive
  {
    EndColumn(m, cells, endExclusive);
    CellsInOrder(cells, CellOfOffset(cells, |cells|, endExclusive - 1), CellOfColumn(cells, |cells|, column));
  }

  /** Of two cells, the earlier ends where the later begins or before, in columns and in characters. */
  lemma CellsInOrder(cells: seq<Cell>, last: nat, k: nat)
    requires k < |cells| && last < |cells|
    ensures k < last ==> Offset(cells, k + 1) <= Offset(cells, last) && Column(cells, k + 1) <= Column(cells, last)
    ensures last < k ==> Offset(cells, last + 1) <= Offset(cells, k) && Column(cells, last + 1) <= Column(cells, k)
  {
    if k + 1 < last {
      ColumnsGrow(cells, k + 1, last);
    }
    if last + 1 < k {
      ColumnsGrow(cells, last + 1, k);
    }
  }

  /** Otherwise the last columns of the last cell are lost: a wide cell of several characters, of which
      the range ends with one that is not the last. */
  lemma EndInsideWideCellIsCut(m: ColumnMap, cells: seq<Cell>, start: nat, endExclusive: nat)
    requires Describes(m, cells, |cells|) && start < endExclusive <= m.totalOffsets
    requires !EndsCell(cells, endExclusive) && Width(cells[CellOfOffset(cells, |cells|, endExclusive - 1)]) > 1
    ensures var last := CellOfOffset(cells, |cells|, endExclusive - 1);
            var column := Column(cells, last + 1) - 1;
            && HoldsSome(cells, last, start, endExclusive) && column < m.totalColumns
            && CellOfColumn(cells, |cells|, column) == last
            && column >= OffsetToColumnExclusive(m, endExclusive)
  {
    var last := CellOfOffset(cells, |cells|, endExclusive - 1);
    EndColumn(m, cells, endExclusive);
    HoldsSomeIffBetween(cells, last, start, endExclusive);
    OffsetBefore(cells, start, last + 1);
    LastColumnOfCell(cells, last);
  }

  lemma LastColumnOfCell(cells: seq<Cell>, k: nat)
    requires k < |cells|
    ensures var column := Column(cells, k + 1) - 1;
            column < Column(cells, |cells|) && CellOfColumn(cells, |cells|, column) == k
  {
    if k + 1 < |cells| {
      ColumnsGrow(cells, k + 1, |cells|);
    }
    ColumnBefore(cells, Column(cells, k + 1) - 1, k);
    ColumnBefore(cells, Column(cells, k + 1) - 1, k + 1);
  }

  /** Both conversions keep the order of positions, before, on and behind the row; behind it, each offset is
      one more column. */
  lemma ConversionsGrow(m: ColumnMap, cells: seq<Cell>, a: int, b: int)
    requires Describes(m, cells, |cells|) && a <= b
    ensures OffsetToColumn(m, a) <= OffsetToColumn(m, b) && ColumnToOffset(m, a) <= ColumnToOffset(m, b)
    ensures m.totalOffsets <= a ==> OffsetToColumn(m, b) - OffsetToColumn(m, a) == b - a
    ensures OffsetToColumn(m, m.totalOffsets) == m.totalColumns && ColumnToOffset(m, m.totalColumns) == m.totalOffsets
  {
    if 0 <= a < m.totalOffsets {
      OffsetColumnsGrow(m, cells, a, b);
    }
    if 0 <= a < m.totalColumns {
      ColumnOffsetsGrow(m, cells, a, b);
    }
  }

  lemma OffsetColumnsGrow(m: ColumnMap, cells: seq<Cell>, a: nat, b: nat)
    requires Describes(m, cells, |cells|) && a <= b && a < m.totalOffsets
    ensures OffsetToColumn(m, a) <= OffsetToColumn(m, b)
  {
    var i := CellOfOffset(cells, |cells|, a);
    if b < m.totalOffsets {
      OffsetBefore(cells, a, CellOfOffset(cells, |cells|, b) + 1);
      CellsInOrder(cells, i, CellOfOffset(cells, |cells|, b));
    } else {
      ColumnsGrow(cells, i, |cells|);
    }
  }

  lemma ColumnOffsetsGrow(m: ColumnMap, cells: seq<Cell>, a: nat, b: nat)
    requires Describes(m, cells, |cells|) && a <= b && a < m.totalColumns
    ensures ColumnToOffset(m, a) <= ColumnToOffset(m, b)
  {
    var i := CellOfColumn(cells, |cells|, a);
    if b < m.totalColumns {
      ColumnBefore(cells, a, CellOfColumn(cells, |cells|, b) + 1);
      CellsInOrder(cells, i, CellOfColumn(cells, |cells|, b));
    } else {
      ColumnsGrow(cells, i, |cells|);
    }
  }

  /** Going to a column and back leads to the cell's first offset; going the other way, to the cell's
      first column. */
  lemma ThereAndBack(m: ColumnMap, cells: seq<Cell>, offset: nat, column: nat)
    requires Describes(m, cells, |cells|)
    ensures offset < m.totalOffsets ==>
              ColumnToOffset(m, OffsetToColumn(m, offset)) == Offset(cells, CellOfOffset(cells, |cells|, offset))
    ensures column < m.totalColumns ==>
              OffsetToColumn(m, ColumnToOffset(m, column)) == Column(cells, CellOfColumn(cells, |cells|, column))
  {
    if offset < m.totalOffsets {
      FirstColumnOfCell(cells, CellOfOffset(cells, |cells|, offset));
    }
    if column < m.totalColumns {
      FirstColumnOfCell(cells, CellOfColumn(cells, |cells|, column));
    }
  }

  lemma FirstColumnOfCell(cells: seq<Cell>, k: nat)
    requires k < |cells|
    ensures Column(cells, k) < Column(cells, |cells|) && CellOfColumn(cells, |cells|, Column(cells, k)) == k
    ensures Offset(cells, k) < Offset(cells, |cells|) && CellOfOffset(cells, |cells|, Offset(cells, k)) == k
  {
    ColumnsGrow(cells, k, |cells|);
    ColumnBefore(cells, Column(cells, k), k);
    ColumnBefore(cells, Column(cells, k), k + 1);
    OffsetBefore(cells, Offset(cells, k), k);
    OffsetBefore(cells, Offset(cells, k), k + 1);
  }
}
