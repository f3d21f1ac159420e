/**
 * The contingency table of the homogeneity test, as a value: a 9 x 9 grid of
 * observed counts stored row-major, where a deleted (or never entered) cell
 * holds no value. Row, column and grand totals, the bounding box of the
 * filled cells, the degrees of freedom and the expected counts under
 * homogeneity are defined here, with the facts that relate them.
 */
module ContingencyTable {
  import opened Wrappers

  const MaxNumberOfRows: nat := 9
  const MaxNumberOfColumns: nat := 9

  /** Capacity of the observed and expected arrays: one slot per cell. */
  const NumberOfCells: nat := MaxNumberOfRows * MaxNumberOfColumns

  /** A (row, column) position, or a (rows, columns) size. */
  datatype Index2D = Index2D(row: int, col: int)

  /** A position inside the 9 x 9 grid. */
  predicate InGrid(row: int, column: int) {
    0 <= row < MaxNumberOfRows && 0 <= column < MaxNumberOfColumns
  }

  /** A grid of cells, row-major; None is a deleted cell. */
  predicate IsTable(cells: seq<Option<real>>) {
    |cells| == NumberOfCells
  }

  // ----- Index conversions -----

  /** Row-major flat index of a grid position. */
  function Index2DToIndex(row: int, column: int): (index: nat)
    requires InGrid(row, column)
    ensures index < NumberOfCells
  {
    row * MaxNumberOfColumns + column
  }

  /** Grid position of a flat index. */
  function IndexToIndex2D(index: int): (p: Index2D)
    requires 0 <= index < NumberOfCells
    ensures InGrid(p.row, p.col)
  {
    Index2D(index / MaxNumberOfColumns, index % MaxNumberOfColumns)
  }

  /** Flat index, then position, gives back the flat index. */
  lemma IndexRoundTrip(index: int)
    requires 0 <= index < NumberOfCells
    ensures var p := IndexToIndex2D(index); Index2DToIndex(p.row, p.col) == index
  {
  }

  /** Position, then flat index, gives back the position; so the two are inverse bijections. */
  lemma Index2DRoundTrip(row: int, column: int)
    requires InGrid(row, column)
    ensures IndexToIndex2D(Index2DToIndex(row, column)) == Index2D(row, column)
  {
    var i := Index2DToIndex(row, column);
    assert i / MaxNumberOfColumns == row && i % MaxNumberOfColumns == column;
  }

  /** Distinct positions have distinct flat indexes. */
  lemma Index2DToIndexInjective(r1: int, c1: int, r2: int, c2: int)
    requires InGrid(r1, c1) && InGrid(r2, c2)
    requires Index2DToIndex(r1, c1) == Index2DToIndex(r2, c2)
    ensures r1 == r2 && c1 == c2
  {
    Index2DRoundTrip(r1, c1);
    Index2DRoundTrip(r2, c2);
  }

  /** Index of a box position when a box of `numberOfColumns` columns is read row by row. */
  function ResultsIndexOf(p: Index2D, numberOfColumns: nat): int {
    p.row * numberOfColumns + p.col
  }

  /**
   * Position of the `resultsIndex`-th value pair when the results are a box
   * of `numberOfColumns` columns, read row by row.
   */
  function ResultsIndexToIndex2D(resultsIndex: nat, numberOfColumns: nat): (p: Index2D)
    requires numberOfColumns > 0
    ensures 0 <= p.row && 0 <= p.col < numberOfColumns
    ensures ResultsIndexOf(p, numberOfColumns) == resultsIndex
  {
    Index2D(resultsIndex / numberOfColumns, resultsIndex % numberOfColumns)
  }

  /**
   * Results indexes below rows * columns land inside the rows x columns box,
   * and the index is recovered by reading the box row by row.
   */
  lemma ResultsIndexInBox(resultsIndex: nat, rows: nat, columns: nat)
    requires columns > 0 && resultsIndex < rows * columns
    ensures var p := ResultsIndexToIndex2D(resultsIndex, columns);
            0 <= p.row < rows && 0 <= p.col < columns
            && p.row * columns + p.col == resultsIndex
  {
    var p := ResultsIndexToIndex2D(resultsIndex, columns);
    assert p.row * columns + p.col == resultsIndex;
  }

  /** Every position of a box of `columns` columns is reached, by the index that reads it row by row. */
  lemma ResultsPositionReached(row: nat, column: nat, columns: nat)
    requires column < columns
    ensures ResultsIndexToIndex2D(row * columns + column, columns) == Index2D(row, column)
  {
    var p := ResultsIndexToIndex2D(row * columns + column, columns);
    RowStartsIncrease(p.row, row, columns);
    RowStartsIncrease(row, p.row, columns);
  }

  /** A later row of a box starts at least a whole row after an earlier one ends. */
  lemma RowStartsIncrease(a: nat, b: nat, columns: nat)
    ensures a < b ==> (a + 1) * columns <= b * columns
  {
    if a < b {
      assert b * columns == (a + 1) * columns + (b - a - 1) * columns;
    }
  }

  // ----- Cells and totals -----

  function Cell(cells: seq<Option<real>>, row: int, column: int): Option<real>
    requires IsTable(cells) && InGrid(row, column)
  {
    cells[Index2DToIndex(row, column)]
  }

  /** Contribution of a cell to a total: its value, or nothing when deleted. */
  function ValueOf(cell: Option<real>): real {
    if cell.Some? then cell.value else 0.0
  }

  /** Sum of the present cells among the first `n` columns of `row`. */
  function RowSumUpTo(cells: seq<Option<real>>, row: int, n: nat): real
    requires IsTable(cells) && 0 <= row < MaxNumberOfRows && n <= MaxNumberOfColumns
  {
    if n == 0 then 0.0 else RowSumUpTo(cells, row, n - 1) + ValueOf(Cell(cells, row, n - 1))
  }

  /** Sum of the present cells of a row. */
  function RowSum(cells: seq<Option<real>>, row: int): real
    requires IsTable(cells) && 0 <= row < MaxNumberOfRows
  {
    RowSumUpTo(cells, row, MaxNumberOfColumns)
  }

  /** Sum of the present cells among the first `n` rows of `column`. */
  function ColumnSumUpTo(cells: seq<Option<real>>, column: int, n: nat): real
    requires IsTable(cells) && 0 <= column < MaxNumberOfColumns && n <= MaxNumberOfRows
  {
    if n == 0 then 0.0 else ColumnSumUpTo(cells, column, n - 1) + ValueOf(Cell(cells, n - 1, column))
  }

  /** Sum of the present cells of a column. */
  function ColumnSum(cells: seq<Option<real>>, column: int): real
    requires IsTable(cells) && 0 <= column < MaxNumberOfColumns
  {
    ColumnSumUpTo(cells, column, MaxNumberOfRows)
  }

  /** Sum of the present cells among the first `n` slots of the flat array. */
  function PrefixSum(cells: seq<Option<real>>, n: nat): real
    requires n <= |cells|
  {
    if n == 0 then 0.0 else PrefixSum(cells, n - 1) + ValueOf(cells[n - 1])
  }

  /** Grand total: the sum of every present cell. */
  function TableSum(cells: seq<Option<real>>): real
    requires IsTable(cells)
  {
    PrefixSum(cells, NumberOfCells)
  }

  /** Sum of the first `n` row totals. */
  function SumOfRowSums(cells: seq<Option<real>>, n: nat): real
    requires IsTable(cells) && n <= MaxNumberOfRows
  {
    if n == 0 then 0.0 else SumOfRowSums(cells, n - 1) + RowSum(cells, n - 1)
  }

  /** Sum over the first `m` columns of their partial totals over the first `n` rows. */
  function SumOfColumnSumsUpTo(cells: seq<Option<real>>, m: nat, n: nat): real
    requires IsTable(cells) && m <= MaxNumberOfColumns && n <= MaxNumberOfRows
  {
    if m == 0 then 0.0 else SumOfColumnSumsUpTo(cells, m - 1, n) + ColumnSumUpTo(cells, m - 1, n)
  }

  /** Sum of the first `m` column totals. */
  function SumOfColumnSums(cells: seq<Option<real>>, m: nat): real
    requires IsTable(cells) && m <= MaxNumberOfColumns
  {
    SumOfColumnSumsUpTo(cells, m, MaxNumberOfRows)
  }

  /** The flat prefix that ends inside row `row` splits into whole rows and part of that row. */
  lemma {:induction false} PrefixSumWithinRow(cells: seq<Option<real>>, row: int, k: nat)
    requires IsTable(cells) && 0 <= row < MaxNumberOfRows && k <= MaxNumberOfColumns
    ensures PrefixSum(cells, row * MaxNumberOfColumns + k)
            == PrefixSum(cells, row * MaxNumberOfColumns) + RowSumUpTo(cells, row, k)
  {
    if k > 0 {
      PrefixSumWithinRow(cells, row, k - 1);
    }
  }

  /** The flat prefix of `n` whole rows sums to the first `n` row totals. */
  lemma {:induction false} PrefixSumByRows(cells: seq<Option<real>>, n: nat)
    requires IsTable(cells) && n <= MaxNumberOfRows
    ensures PrefixSum(cells, n * MaxNumberOfColumns) == SumOfRowSums(cells, n)
  {
    if n > 0 {
      PrefixSumByRows(cells, n - 1);
      PrefixSumWithinRow(cells, n - 1, MaxNumberOfColumns);
    }
  }

  /** Adding row `n` to every column's partial total adds row `n`'s partial total. */
  lemma {:induction false} SumOfColumnSumsStep(cells: seq<Option<real>>, m: nat, n: nat)
    requires IsTable(cells) && m <= MaxNumberOfColumns && n < MaxNumberOfRows
    ensures SumOfColumnSumsUpTo(cells, m, n + 1) == SumOfColumnSumsUpTo(cells, m, n) + RowSumUpTo(cells, n, m)
  {
    if m > 0 {
      SumOfColumnSumsStep(cells, m - 1, n);
    }
  }

  /** Summing by columns over the first `n` rows gives the same as summing their row totals. */
  lemma {:induction false} ColumnsAgreeWithRows(cells: seq<Option<real>>, n: nat)
    requires IsTable(cells) && n <= MaxNumberOfRows
    ensures SumOfColumnSumsUpTo(cells, MaxNumberOfColumns, n) == SumOfRowSums(cells, n)
  {
    if n == 0 {
      ZeroColumnSums(cells, MaxNumberOfColumns);
    } else {
      ColumnsAgreeWithRows(cells, n - 1);
      SumOfColumnSumsStep(cells, MaxNumberOfColumns, n - 1);
    }
  }

  lemma {:induction false} ZeroColumnSums(cells: seq<Option<real>>, m: nat)
    requires IsTable(cells) && m <= MaxNumberOfColumns
    ensures SumOfColumnSumsUpTo(cells, m, 0) == 0.0
  {
    if m > 0 {
      ZeroColumnSums(cells, m - 1);
    }
  }

  /** The row totals and the column totals both add up to the grand total. */
  lemma MarginalsAddUpToTotal(cells: seq<Option<real>>)
    requires IsTable(cells)
    ensures SumOfRowSums(cells, MaxNumberOfRows) == TableSum(cells)
    ensures SumOfColumnSums(cells, MaxNumberOfColumns) == TableSum(cells)
  {
    PrefixSumByRows(cells, MaxNumberOfRows);
    ColumnsAgreeWithRows(cells, MaxNumberOfRows);
  }

  // ----- Effective dimensions -----

  /** Some cell of the row is present. */
  ghost predicate RowHasValue(cells: seq<Option<real>>, row: int)
    requires IsTable(cells) && 0 <= row < MaxNumberOfRows
  {
    exists c :: 0 <= c < MaxNumberOfColumns && Cell(cells, row, c).Some?
  }

  /** Some cell of the column is present. */
  ghost predicate ColumnHasValue(cells: seq<Option<real>>, column: int)
    requires IsTable(cells) && 0 <= column < MaxNumberOfColumns
  {
    exists r :: 0 <= r < MaxNumberOfRows && Cell(cells, r, column).Some?
  }

  /** One past the last non-empty row among the first `n`; 0 when they are all empty. */
  ghost function BoxRows(cells: seq<Option<real>>, n: nat): (k: nat)
    requires IsTable(cells) && n <= MaxNumberOfRows
    ensures k <= n
  {
    if n == 0 then 0
    else if RowHasValue(cells, n - 1) then n
    else BoxRows(cells, n - 1)
  }

  /** One past the last non-empty column among the first `n`; 0 when they are all empty. */
  ghost function BoxColumns(cells: seq<Option<real>>, n: nat): (k: nat)
    requires IsTable(cells) && n <= MaxNumberOfColumns
    ensures k <= n
  {
    if n == 0 then 0
    else if ColumnHasValue(cells, n - 1) then n
    else BoxColumns(cells, n - 1)
  }

  /** The effective (rows, columns) of the table: the bounding box of its present cells. */
  ghost function BoundingBox(cells: seq<Option<real>>): Index2D
    requires IsTable(cells)
  {
    Index2D(BoxRows(cells, MaxNumberOfRows), BoxColumns(cells, MaxNumberOfColumns))
  }

  lemma {:induction false} BoxRowsCovers(cells: seq<Option<real>>, n: nat, row: int)
    requires IsTable(cells) && n <= MaxNumberOfRows && 0 <= row < n && RowHasValue(cells, row)
    ensures row < BoxRows(cells, n)
  {
    if row < n - 1 && !RowHasValue(cells, n - 1) {
      BoxRowsCovers(cells, n - 1, row);
    }
  }

  lemma {:induction false} BoxColumnsCovers(cells: seq<Option<real>>, n: nat, column: int)
    requires IsTable(cells) && n <= MaxNumberOfColumns && 0 <= column < n && ColumnHasValue(cells, column)
    ensures column < BoxColumns(cells, n)
  {
    if column < n - 1 && !ColumnHasValue(cells, n - 1) {
      BoxColumnsCovers(cells, n - 1, column);
    }
  }

  lemma {:induction false} BoxRowsTight(cells: seq<Option<real>>, n: nat)
    requires IsTable(cells) && n <= MaxNumberOfRows
    ensures BoxRows(cells, n) > 0 ==> RowHasValue(cells, BoxRows(cells, n) - 1)
  {
    if n > 0 && !RowHasValue(cells, n - 1) {
      BoxRowsTight(cells, n - 1);
    }
  }

  lemma {:induction false} BoxColumnsTight(cells: seq<Option<real>>, n: nat)
    requires IsTable(cells) && n <= MaxNumberOfColumns
    ensures BoxColumns(cells, n) > 0 ==> ColumnHasValue(cells, BoxColumns(cells, n) - 1)
  {
    if n > 0 && !ColumnHasValue(cells, n - 1) {
      BoxColumnsTight(cells, n - 1);
    }
  }

  /**
   * The bounding box fits the grid, contains every present cell, and is the
   * smallest such box: its last row and its last column each hold a value.
   */
  lemma BoundingBoxIsSmallest(cells: seq<Option<real>>)
    requires IsTable(cells)
    ensures var box := BoundingBox(cells);
            0 <= box.row <= MaxNumberOfRows && 0 <= box.col <= MaxNumberOfColumns
            && (forall r, c :: InGrid(r, c) && Cell(cells, r, c).Some? ==> r < box.row && c < box.col)
            && (box.row > 0 ==> RowHasValue(cells, box.row - 1))
            && (box.col > 0 ==> ColumnHasValue(cells, box.col - 1))
  {
    forall r, c | InGrid(r, c) && Cell(cells, r, c).Some?
      ensures r < BoundingBox(cells).row && c < BoundingBox(cells).col
    {
      assert RowHasValue(cells, r);
      assert ColumnHasValue(cells, c);
      BoxRowsCovers(cells, MaxNumberOfRows, r);
      BoxColumnsCovers(cells, MaxNumberOfColumns, c);
    }
    BoxRowsTight(cells, MaxNumberOfRows);
    BoxColumnsTight(cells, MaxNumberOfColumns);
  }

  lemma {:induction false} BoxRowsIs(cells: seq<Option<real>>, n: nat, k: nat)
    requires IsTable(cells) && k <= n <= MaxNumberOfRows
    requires k == 0 || RowHasValue(cells, k - 1)
    requires forall r :: k <= r < n ==> !RowHasValue(cells, r)
    ensures BoxRows(cells, n) == k
  {
    if n > k {
      BoxRowsIs(cells, n - 1, k);
    }
  }

  lemma {:induction false} BoxColumnsIs(cells: seq<Option<real>>, n: nat, k: nat)
    requires IsTable(cells) && k <= n <= MaxNumberOfColumns
    requires k == 0 || ColumnHasValue(cells, k - 1)
    requires forall c :: k <= c < n ==> !ColumnHasValue(cells, c)
    ensures BoxColumns(cells, n) == k
  {
    if n > k {
      BoxColumnsIs(cells, n - 1, k);
    }
  }

  /** Any box that contains every present cell and whose last row and column hold values is the bounding box. */
  lemma BoundingBoxUnique(cells: seq<Option<real>>, box: Index2D)
    requires IsTable(cells)
    requires 0 <= box.row <= MaxNumberOfRows && 0 <= box.col <= MaxNumberOfColumns
    requires forall r, c :: InGrid(r, c) && Cell(cells, r, c).Some? ==> r < box.row && c < box.col
    requires box.row > 0 ==> RowHasValue(cells, box.row - 1)
    requires box.col > 0 ==> ColumnHasValue(cells, box.col - 1)
    ensures BoundingBox(cells) == box
  {
    BoxRowsIs(cells, MaxNumberOfRows, box.row);
    BoxColumnsIs(cells, MaxNumberOfColumns, box.col);
  }

  /** Degrees of freedom of a table whose effective size is `max`. */
  function DegreesOfFreedom(max: Index2D): (d: int)
    ensures max.row >= 2 && max.col >= 2 ==> d >= 1
    ensures max.row == 1 || max.col == 1 ==> d == 0
  {
    (max.row - 1) * (max.col - 1)
  }

  /** Exactly the cells of the top-left rows x columns block are present. */
  ghost predicate FullBlock(cells: seq<Option<real>>, rows: nat, columns: nat)
    requires IsTable(cells)
  {
    forall r, c :: InGrid(r, c) ==> (Cell(cells, r, c).Some? <==> r < rows && c < columns)
  }

  /**
   * A fully filled rows x columns table has that size as its effective
   * dimensions and (rows - 1)(columns - 1) degrees of freedom.
   */
  lemma FullBlockDimensions(cells: seq<Option<real>>, rows: nat, columns: nat)
    requires IsTable(cells) && 1 <= rows <= MaxNumberOfRows && 1 <= columns <= MaxNumberOfColumns
    requires FullBlock(cells, rows, columns)
    ensures BoundingBox(cells) == Index2D(rows, columns)
    ensures DegreesOfFreedom(BoundingBox(cells)) == (rows - 1) * (columns - 1)
  {
    assert Cell(cells, rows - 1, 0).Some?;
    assert Cell(cells, 0, columns - 1).Some?;
    BoundingBoxUnique(cells, Index2D(rows, columns));
  }

  /** A full 3 x 4 table has 6 degrees of freedom. */
  lemma ThreeByFourDegreesOfFreedom(cells: seq<Option<real>>)
    requires IsTable(cells) && FullBlock(cells, 3, 4)
    ensures DegreesOfFreedom(BoundingBox(cells)) == 6
  {
    FullBlockDimensions(cells, 3, 4);
  }

  /** The table with every cell of `row` deleted. */
  function DeleteRow(cells: seq<Option<real>>, row: int): (r: seq<Option<real>>)
    requires IsTable(cells) && 0 <= row < MaxNumberOfRows
    ensures IsTable(r)
    ensures forall rr, c :: InGrid(rr, c) ==> Cell(r, rr, c) == if rr == row then None else Cell(cells, rr, c)
  {
    var r := seq(NumberOfCells, i requires 0 <= i < NumberOfCells =>
      if i / MaxNumberOfColumns == row then None else cells[i]);
    assert forall rr, c :: InGrid(rr, c) ==> Index2DToIndex(rr, c) / MaxNumberOfColumns == rr by {
      forall rr, c | InGrid(rr, c) ensures Index2DToIndex(rr, c) / MaxNumberOfColumns == rr {
        Index2DRoundTrip(rr, c);
      }
    }
    r
  }

  /**
   * Deleting the last row of a full table shrinks its effective row count by
   * one; for a 4 x 4 table the degrees of freedom go from 9 to 6.
   */
  lemma DeleteLastRowShrinksBox(cells: seq<Option<real>>, rows: nat, columns: nat)
    requires IsTable(cells) && 2 <= rows <= MaxNumberOfRows && 1 <= columns <= MaxNumberOfColumns
    requires FullBlock(cells, rows, columns)
    ensures BoundingBox(DeleteRow(cells, rows - 1)) == Index2D(rows - 1, columns)
    ensures rows == 4 && columns == 4 ==>
              DegreesOfFreedom(BoundingBox(cells)) == 9
              && DegreesOfFreedom(BoundingBox(DeleteRow(cells, rows - 1))) == 6
  {
    var deleted := DeleteRow(cells, rows - 1);
    assert FullBlock(deleted, rows - 1, columns);
    FullBlockDimensions(cells, rows, columns);
    FullBlockDimensions(deleted, rows - 1, columns);
  }

  /**
   * The effective size is a bounding box, not a count of non-empty rows:
   * emptying a row above the last one of a full table leaves the size, and
   * so the degrees of freedom, unchanged.
   */
  lemma DeleteInteriorRowKeepsBox(cells: seq<Option<real>>, rows: nat, columns: nat, row: int)
    requires IsTable(cells) && 2 <= rows <= MaxNumberOfRows && 1 <= columns <= MaxNumberOfColumns
    requires FullBlock(cells, rows, columns) && 0 <= row < rows - 1
    ensures BoundingBox(DeleteRow(cells, row)) == Index2D(rows, columns)
    ensures DegreesOfFreedom(BoundingBox(DeleteRow(cells, row))) == DegreesOfFreedom(BoundingBox(cells))
  {
    var deleted := DeleteRow(cells, row);
    assert Cell(deleted, rows - 1, columns - 1).Some?;
    BoundingBoxUnique(deleted, Index2D(rows, columns));
    FullBlockDimensions(cells, rows, columns);
  }

  // ----- Expected counts under homogeneity -----

  /** Expected count from the marginals: row total x column total / grand total, undefined on a zero total. */
  function ExpectedCount(rowTotal: real, columnTotal: real, total: real): Option<real> {
    if total == 0.0 then None else Some(rowTotal * columnTotal / total)
  }

  /** Expected count of a cell of the table. */
  function Expected(cells: seq<Option<real>>, row: int, column: int): Option<real>
    requires IsTable(cells) && InGrid(row, column)
  {
    ExpectedCount(RowSum(cells, row), ColumnSum(cells, column), TableSum(cells))
  }

  /** Sum of the expected counts of the first `m` cells of a row. */
  function ExpectedRowSum(cells: seq<Option<real>>, row: int, m: nat): real
    requires IsTable(cells) && 0 <= row < MaxNumberOfRows && m <= MaxNumberOfColumns
    requires TableSum(cells) != 0.0
  {
    if m == 0 then 0.0 else ExpectedRowSum(cells, row, m - 1) + Expected(cells, row, m - 1).value
  }

  /** Sum of the expected counts of the first `n` cells of a column. */
  function ExpectedColumnSum(cells: seq<Option<real>>, column: int, n: nat): real
    requires IsTable(cells) && 0 <= column < MaxNumberOfColumns && n <= MaxNumberOfRows
    requires TableSum(cells) != 0.0
  {
    if n == 0 then 0.0 else ExpectedColumnSum(cells, column, n - 1) + Expected(cells, n - 1, column).value
  }

  lemma AddQuotients(a: real, x: real, y: real, t: real)
    requires t != 0.0
    ensures a * x / t + a * y / t == a * (x + y) / t
  {
    assert a * (x + y) == a * x + a * y;
  }

  lemma {:induction false} ExpectedRowSumFactors(cells: seq<Option<real>>, row: int, m: nat)
    requires IsTable(cells) && 0 <= row < MaxNumberOfRows && m <= MaxNumberOfColumns
    requires TableSum(cells) != 0.0
    ensures ExpectedRowSum(cells, row, m) == RowSum(cells, row) * SumOfColumnSums(cells, m) / TableSum(cells)
  {
    if m > 0 {
      ExpectedRowSumFactors(cells, row, m - 1);
      var r, t := RowSum(cells, row), TableSum(cells);
      AddQuotients(r, SumOfColumnSums(cells, m - 1), ColumnSum(cells, m - 1), t);
      assert Expected(cells, row, m - 1).value == r * ColumnSum(cells, m - 1) / t;
      assert SumOfColumnSums(cells, m) == SumOfColumnSums(cells, m - 1) + ColumnSum(cells, m - 1);
    }
  }

  lemma {:induction false} ExpectedColumnSumFactors(cells: seq<Option<real>>, column: int, n: nat)
    requires IsTable(cells) && 0 <= column < MaxNumberOfColumns && n <= MaxNumberOfRows
    requires TableSum(cells) != 0.0
    ensures ExpectedColumnSum(cells, column, n) == ColumnSum(cells, column) * SumOfRowSums(cells, n) / TableSum(cells)
  {
    if n > 0 {
      ExpectedColumnSumFactors(cells, column, n - 1);
      var col, t := ColumnSum(cells, column), TableSum(cells);
      AddQuotients(col, SumOfRowSums(cells, n - 1), RowSum(cells, n - 1), t);
      assert RowSum(cells, n - 1) * col == col * RowSum(cells, n - 1);
      assert Expected(cells, n - 1, column).value == col * RowSum(cells, n - 1) / t;
      assert SumOfRowSums(cells, n) == SumOfRowSums(cells, n - 1) + RowSum(cells, n - 1);
    }
  }

  /**
   * The expected counts keep the observed marginals: across a row they add
   * up to that row's total, down a column to that column's total.
   */
  lemma ExpectedKeepsMarginals(cells: seq<Option<real>>, row: int, column: int)
    requires IsTable(cells) && InGrid(row, column)
    requires TableSum(cells) != 0.0
    ensures ExpectedRowSum(cells, row, MaxNumberOfColumns) == RowSum(cells, row)
    ensures ExpectedColumnSum(cells, column, MaxNumberOfRows) == ColumnSum(cells, column)
  {
    MarginalsAddUpToTotal(cells);
    ExpectedRowSumFactors(cells, row, MaxNumberOfColumns);
    ExpectedColumnSumFactors(cells, column, MaxNumberOfRows);
  }

  /** On a table whose grand total is zero no expected count is defined. */
  lemma ExpectedUndefinedOnZeroTotal(cells: seq<Option<real>>, row: int, column: int)
    requires IsTable(cells) && InGrid(row, column)
    ensures Expected(cells, row, column).None? <==> TableSum(cells) == 0.0
  {
  }

  /** Where its row and its column both have a positive total, a cell's expected count is positive. */
  lemma ExpectedPositive(cells: seq<Option<real>>, row: int, column: int)
    requires IsTable(cells) && InGrid(row, column)
    requires RowSum(cells, row) > 0.0 && ColumnSum(cells, column) > 0.0 && TableSum(cells) > 0.0
    ensures Expected(cells, row, column).Some? && Expected(cells, row, column).value > 0.0
  {
    var product := RowSum(cells, row) * ColumnSum(cells, column);
    assert product > 0.0;
    var q := product / TableSum(cells);
    assert q * TableSum(cells) == product;
  }
}
