/**
 * The homogeneity test: a chi-square test on a contingency table of at most
 * 9 rows and 9 columns, kept in fixed arrays that its methods update in
 * place. The arrays hold the observed counts (row-major), the expected
 * counts, and the row and column totals; further fields hold the grand total
 * and the effective size of the results.
 */
module Homogeneity {
  import opened Wrappers
  import opened ContingencyTable
  import opened Chi2Test
  import Inference

  /**
   * An entry is accepted at a position when it is finite once converted to
   * float (the base check of every model) and is a count, so not negative.
   */
  function AuthorizedParameterAtPosition(p: Inference.Double, row: int, column: int): (r: bool)
    requires InGrid(row, column)
    ensures r <==> p.Finite? && 0.0 <= p.value < Inference.FloatOverflow
  {
    Inference.AuthorizedParameterAtIndex(p, Index2DToIndex(row, column)) && p.value >= 0.0
  }

  class HomogeneityTest {
    /** Observed counts, row-major; None is the NaN sentinel of a deleted or empty cell. */
    var input: array<Option<real>>
    /** Expected counts, row-major; None is a NaN from a zero grand total. */
    var expectedValues: array<Option<real>>
    var rowTotals: array<real>
    var columnTotals: array<real>
    var total: real
    var numberOfResultRows: int
    var numberOfResultColumns: int
    var degreesOfFreedom: int
    /** The chi-square statistic of the last computation; None when it was not finite. */
    var testCriterion: Option<real>

    ghost predicate Valid()
      reads this`input, this`expectedValues, this`rowTotals, this`columnTotals, this`numberOfResultRows, this`numberOfResultColumns
    {
      && input.Length == NumberOfCells
      && expectedValues.Length == NumberOfCells
      && rowTotals.Length == MaxNumberOfRows
      && columnTotals.Length == MaxNumberOfColumns
      && input != expectedValues
      && rowTotals != columnTotals
      && 0 <= numberOfResultRows <= MaxNumberOfRows
      && 0 <= numberOfResultColumns <= MaxNumberOfColumns
    }

    /** The observed table as a value. */
    ghost function Cells(): seq<Option<real>>
      reads this`input, input
    {
      input[..]
    }

    /** The stored totals are those of the present cells. */
    ghost predicate TotalsCurrent()
      reads this`input, this`rowTotals, this`columnTotals, this`total, input, rowTotals, columnTotals
      requires input.Length == NumberOfCells && rowTotals.Length == MaxNumberOfRows && columnTotals.Length == MaxNumberOfColumns
    {
      && (forall r :: 0 <= r < MaxNumberOfRows ==> rowTotals[r] == RowSum(Cells(), r))
      && (forall c :: 0 <= c < MaxNumberOfColumns ==> columnTotals[c] == ColumnSum(Cells(), c))
      && total == TableSum(Cells())
    }

    /** A new test starts with every cell empty. */
    constructor ()
      ensures Valid() && fresh(input) && fresh(expectedValues) && fresh(rowTotals) && fresh(columnTotals)
      ensures forall i :: 0 <= i < NumberOfCells ==> input[i].None? && expectedValues[i].None?
      ensures TotalsCurrent()
      ensures numberOfResultRows == 0 && numberOfResultColumns == 0
    {
      input := new Option<real>[NumberOfCells](_ => None);
      expectedValues := new Option<real>[NumberOfCells](_ => None);
      rowTotals := new real[MaxNumberOfRows](_ => 0.0);
      columnTotals := new real[MaxNumberOfColumns](_ => 0.0);
      total := 0.0;
      numberOfResultRows, numberOfResultColumns := 0, 0;
      degreesOfFreedom := 0;
      testCriterion := None;
      new;
      EmptyTableSums(input[..]);
    }

    /** One statistic parameter per slot of the observed and expected arrays: 9 x 9 = 81. */
    function NumberOfStatisticParameters(): (n: nat)
      reads this`input, this`expectedValues, this`rowTotals, this`columnTotals, this`numberOfResultRows, this`numberOfResultColumns
      requires Valid()
      ensures n == input.Length == expectedValues.Length == MaxNumberOfRows * MaxNumberOfColumns
      ensures n == 81
    {
      MaxNumberOfColumns * MaxNumberOfRows
    }

    /** The cell at a position: its value, or None when deleted. */
    function ParameterAtPosition(row: int, column: int): (cell: Option<real>)
      reads this`input, this`expectedValues, this`rowTotals, this`columnTotals, this`numberOfResultRows, this`numberOfResultColumns, input
      requires Valid() && InGrid(row, column)
      ensures cell == Cell(Cells(), row, column)
    {
      input[Index2DToIndex(row, column)]
    }

    /** Stores a value at a position; every other cell keeps its value. */
    method SetParameterAtPosition(value: real, row: int, column: int)
      requires Valid() && InGrid(row, column)
      modifies input
      ensures Valid()
      ensures Cells() == old(Cells())[Index2DToIndex(row, column) := Some(value)]
      ensures ParameterAtPosition(row, column) == Some(value)
      ensures forall r, c :: InGrid(r, c) && (r, c) != (row, column) ==>
                Cell(Cells(), r, c) == Cell(old(Cells()), r, c)
    {
      input[Index2DToIndex(row, column)] := Some(value);
      forall r, c | InGrid(r, c) && (r, c) != (row, column)
        ensures Cell(Cells(), r, c) == Cell(old(Cells()), r, c)
      {
        if Index2DToIndex(r, c) == Index2DToIndex(row, column) {
          Index2DToIndexInjective(r, c, row, column);
        }
      }
    }

    /**
     * Deletes the cell at a position. Reports true exactly when the cell held
     * a value and it was the last value of its row or of its column.
     */
    method DeleteParameterAtPosition(row: int, column: int) returns (emptiedLine: bool)
      requires Valid() && InGrid(row, column)
      modifies input
      ensures Valid()
      ensures Cells() == old(Cells())[Index2DToIndex(row, column) := None]
      ensures emptiedLine <==>
                Cell(old(Cells()), row, column).Some?
                && (!RowHasValue(Cells(), row) || !ColumnHasValue(Cells(), column))
    {
      var index := Index2DToIndex(row, column);
      var wasPresent := input[index].Some?;
      input[index] := None;
      if !wasPresent {
        return false;
      }
      var rowHasValue := false;
      var c := 0;
      while c < MaxNumberOfColumns
        invariant 0 <= c <= MaxNumberOfColumns
        invariant rowHasValue <==> exists k :: 0 <= k < c && Cell(Cells(), row, k).Some?
      {
        assert Cell(Cells(), row, c) == input[Index2DToIndex(row, c)];
        if input[Index2DToIndex(row, c)].Some? {
          rowHasValue := true;
        }
        c := c + 1;
      }
      var columnHasValue := false;
      var r := 0;
      while r < MaxNumberOfRows
        invariant 0 <= r <= MaxNumberOfRows
        invariant columnHasValue <==> exists k :: 0 <= k < r && Cell(Cells(), k, column).Some?
      {
        assert Cell(Cells(), r, column) == input[Index2DToIndex(r, column)];
        if input[Index2DToIndex(r, column)].Some? {
          columnHasValue := true;
        }
        r := r + 1;
      }
      emptiedLine := !rowHasValue || !columnHasValue;
    }

    /** Recomputes the row, column and grand totals from the present cells. */
    method RecomputeData()
      requires Valid()
      modifies rowTotals, columnTotals, this`total
      ensures Valid() && TotalsCurrent()
    {
      var r := 0;
      while r < MaxNumberOfRows
        invariant 0 <= r <= MaxNumberOfRows
        invariant forall k :: 0 <= k < r ==> rowTotals[k] == RowSum(Cells(), k)
      {
        var sum := 0.0;
        var c := 0;
        while c < MaxNumberOfColumns
          invariant 0 <= c <= MaxNumberOfColumns
          invariant sum == RowSumUpTo(Cells(), r, c)
        {
          sum := sum + ValueOf(input[Index2DToIndex(r, c)]);
          c := c + 1;
        }
        rowTotals[r] := sum;
        r := r + 1;
      }
      var c := 0;
      while c < MaxNumberOfColumns
        invariant 0 <= c <= MaxNumberOfColumns
        invariant forall k :: 0 <= k < MaxNumberOfRows ==> rowTotals[k] == RowSum(Cells(), k)
        invariant forall k :: 0 <= k < c ==> columnTotals[k] == ColumnSum(Cells(), k)
      {
        var sum := 0.0;
        var r := 0;
        while r < MaxNumberOfRows
          invariant 0 <= r <= MaxNumberOfRows
          invariant sum == ColumnSumUpTo(Cells(), c, r)
        {
          sum := sum + ValueOf(input[Index2DToIndex(r, c)]);
          r := r + 1;
        }
        columnTotals[c] := sum;
        c := c + 1;
      }
      var sum := 0.0;
      var i := 0;
      while i < NumberOfCells
        invariant 0 <= i <= NumberOfCells
        invariant sum == PrefixSum(Cells(), i)
      {
        sum := sum + ValueOf(input[i]);
        i := i + 1;
      }
      total := sum;
    }

    function Total(): real
      reads this`input, this`expectedValues, this`rowTotals, this`columnTotals, this`numberOfResultRows, this`numberOfResultColumns, this`total, input, rowTotals, columnTotals
      requires Valid()
      ensures TotalsCurrent() ==> Total() == TableSum(Cells())
    {
      total
    }

    function RowTotal(row: int): real
      reads this`input, this`expectedValues, this`rowTotals, this`columnTotals, this`numberOfResultRows, this`numberOfResultColumns, this`total, input, rowTotals, columnTotals
      requires Valid() && 0 <= row < MaxNumberOfRows
      ensures TotalsCurrent() ==> RowTotal(row) == RowSum(Cells(), row)
    {
      rowTotals[row]
    }

    function ColumnTotal(column: int): real
      reads this`input, this`expectedValues, this`rowTotals, this`columnTotals, this`numberOfResultRows, this`numberOfResultColumns, this`total, input, rowTotals, columnTotals
      requires Valid() && 0 <= column < MaxNumberOfColumns
      ensures TotalsCurrent() ==> ColumnTotal(column) == ColumnSum(Cells(), column)
    {
      columnTotals[column]
    }

    /**
     * The effective size of the table: the smallest (rows, columns) box,
     * anchored at the top-left corner, that holds every present cell.
     */
    method ComputeDimensions() returns (max: Index2D)
      requires Valid()
      ensures max == BoundingBox(Cells())
      ensures 0 <= max.row <= MaxNumberOfRows && 0 <= max.col <= MaxNumberOfColumns
    {
      var rows, columns := 0, 0;
      var r := 0;
      while r < MaxNumberOfRows
        invariant 0 <= r <= MaxNumberOfRows
        invariant 0 <= rows <= r && 0 <= columns <= MaxNumberOfColumns
        invariant forall rr, cc :: 0 <= rr < r && 0 <= cc < MaxNumberOfColumns && Cell(Cells(), rr, cc).Some? ==>
                    rr < rows && cc < columns
        invariant rows > 0 ==> RowHasValue(Cells(), rows - 1)
        invariant columns > 0 ==> ColumnHasValue(Cells(), columns - 1)
      {
        var c := 0;
        while c < MaxNumberOfColumns
          invariant 0 <= c <= MaxNumberOfColumns
          invariant 0 <= rows <= r + 1 && 0 <= columns <= MaxNumberOfColumns
          invariant forall rr, cc :: 0 <= rr < r && 0 <= cc < MaxNumberOfColumns && Cell(Cells(), rr, cc).Some? ==>
                      rr < rows && cc < columns
          invariant forall cc :: 0 <= cc < c && Cell(Cells(), r, cc).Some? ==> r < rows && cc < columns
          invariant rows > 0 ==> RowHasValue(Cells(), rows - 1)
          invariant columns > 0 ==> ColumnHasValue(Cells(), columns - 1)
        {
          if input[Index2DToIndex(r, c)].Some? {
            assert Cell(Cells(), r, c).Some?;
            rows := r + 1;
            if columns < c + 1 {
              columns := c + 1;
            }
          }
          c := c + 1;
        }
        r := r + 1;
      }
      max := Index2D(rows, columns);
      BoundingBoxUnique(Cells(), max);
    }

    /**
     * Expected count at a position under homogeneity: row total x column
     * total / grand total; None (a NaN) when the grand total is zero.
     */
    function ExpectedValueAtLocation(row: int, column: int): (e: Option<real>)
      reads this`input, this`expectedValues, this`rowTotals, this`columnTotals, this`numberOfResultRows, this`numberOfResultColumns, this`total, input, rowTotals, columnTotals
      requires Valid() && InGrid(row, column)
      ensures TotalsCurrent() ==> e == Expected(Cells(), row, column)
    {
      ExpectedCount(rowTotals[row], columnTotals[column], total)
    }

    /** Fills the expected counts of the cells inside the `max` box; the others keep theirs. */
    method ComputeExpectedValues(max: Index2D)
      requires Valid() && 0 <= max.row <= MaxNumberOfRows && 0 <= max.col <= MaxNumberOfColumns
      modifies expectedValues
      ensures Valid()
      ensures forall r, c :: 0 <= r < max.row && 0 <= c < max.col ==>
                expectedValues[Index2DToIndex(r, c)] == ExpectedValueAtLocation(r, c)
      ensures TotalsCurrent() ==> forall r, c :: 0 <= r < max.row && 0 <= c < max.col ==>
                expectedValues[Index2DToIndex(r, c)] == Expected(Cells(), r, c)
      ensures forall r, c :: InGrid(r, c) && !(r < max.row && c < max.col) ==>
                expectedValues[Index2DToIndex(r, c)] == old(expectedValues[Index2DToIndex(r, c)])
    {
      var r := 0;
      while r < max.row
        invariant 0 <= r <= max.row
        invariant forall rr, cc :: 0 <= rr < r && 0 <= cc < max.col ==>
                    expectedValues[Index2DToIndex(rr, cc)] == ExpectedValueAtLocation(rr, cc)
        invariant forall rr, cc :: InGrid(rr, cc) && !(rr < r && cc < max.col) ==>
                    expectedValues[Index2DToIndex(rr, cc)] == old(expectedValues[Index2DToIndex(rr, cc)])
      {
        var c := 0;
        while c < max.col
          invariant 0 <= c <= max.col
          invariant forall rr, cc :: 0 <= rr < r && 0 <= cc < max.col ==>
                      expectedValues[Index2DToIndex(rr, cc)] == ExpectedValueAtLocation(rr, cc)
          invariant forall cc :: 0 <= cc < c ==>
                      expectedValues[Index2DToIndex(r, cc)] == ExpectedValueAtLocation(r, cc)
          invariant forall rr, cc :: InGrid(rr, cc) && !(rr < r && cc < max.col) && !(rr == r && cc < c) ==>
                      expectedValues[Index2DToIndex(rr, cc)] == old(expectedValues[Index2DToIndex(rr, cc)])
        {
          expectedValues[Index2DToIndex(r, c)] := ExpectedValueAtLocation(r, c);
          forall rr, cc | InGrid(rr, cc) && Index2DToIndex(rr, cc) == Index2DToIndex(r, c)
            ensures rr == r && cc == c
          {
            Index2DToIndexInjective(rr, cc, r, c);
          }
          c := c + 1;
        }
        r := r + 1;
      }
    }

    /** Number of (observed, expected) pairs: the cells of the results box. */
    function NumberOfValuePairs(): (n: nat)
      reads this`input, this`expectedValues, this`rowTotals, this`columnTotals, this`numberOfResultRows, this`numberOfResultColumns
      requires Valid()
      ensures n <= NumberOfCells
    {
      numberOfResultRows * numberOfResultColumns
    }

    /** Flat array index of the `resultsIndex`-th pair, read row by row inside the results box. */
    function ResultsIndexToArrayIndex(resultsIndex: nat): (index: nat)
      reads this`input, this`expectedValues, this`rowTotals, this`columnTotals, this`numberOfResultRows, this`numberOfResultColumns
      requires Valid() && resultsIndex < NumberOfValuePairs()
      ensures index < NumberOfCells
      ensures var p := ResultsIndexToIndex2D(resultsIndex, numberOfResultColumns);
              0 <= p.row < numberOfResultRows && 0 <= p.col < numberOfResultColumns
              && index == Index2DToIndex(p.row, p.col)
    {
      ResultsIndexInBox(resultsIndex, numberOfResultRows, numberOfResultColumns);
      var p := ResultsIndexToIndex2D(resultsIndex, numberOfResultColumns);
      Index2DToIndex(p.row, p.col)
    }

    /** The observed count of a value pair. */
    function ObservedValue(resultsIndex: nat): Option<real>
      reads this`input, this`expectedValues, this`rowTotals, this`columnTotals, this`numberOfResultRows, this`numberOfResultColumns, input
      requires Valid() && resultsIndex < NumberOfValuePairs()
    {
      input[ResultsIndexToArrayIndex(resultsIndex)]
    }

    /** The expected count of a value pair. */
    function ExpectedValue(resultsIndex: nat): Option<real>
      reads this`input, this`expectedValues, this`rowTotals, this`columnTotals, this`numberOfResultRows, this`numberOfResultColumns, expectedValues
      requires Valid() && resultsIndex < NumberOfValuePairs()
    {
      expectedValues[ResultsIndexToArrayIndex(resultsIndex)]
    }

    /**
     * The `resultsIndex`-th value pair holds the observed cell and the stored
     * expected count at the same position of the results box, read row by row.
     */
    lemma ValuePairAtBoxPosition(resultsIndex: nat)
      requires Valid() && resultsIndex < NumberOfValuePairs()
      ensures var p := ResultsIndexToIndex2D(resultsIndex, numberOfResultColumns);
              && 0 <= p.row < numberOfResultRows && 0 <= p.col < numberOfResultColumns
              && ObservedValue(resultsIndex) == Cell(Cells(), p.row, p.col)
              && ExpectedValue(resultsIndex) == expectedValues[Index2DToIndex(p.row, p.col)]
    {
    }

    /** The first `n` value pairs, in results order. */
    ghost function ValuePairsUpTo(n: nat): (pairs: seq<ValuePair>)
      reads this`input, this`expectedValues, this`rowTotals, this`columnTotals, this`numberOfResultRows, this`numberOfResultColumns, input, expectedValues
      requires Valid() && n <= NumberOfValuePairs()
      ensures |pairs| == n
    {
      if n == 0 then [] else ValuePairsUpTo(n - 1) + [ValuePair(ObservedValue(n - 1), ExpectedValue(n - 1))]
    }

    /** Every value pair of the results box, in results order. */
    ghost function ValuePairs(): seq<ValuePair>
      reads this`input, this`expectedValues, this`rowTotals, this`columnTotals, this`numberOfResultRows, this`numberOfResultColumns, input, expectedValues
      requires Valid()
    {
      ValuePairsUpTo(NumberOfValuePairs())
    }

    /** Pearson's statistic summed over every value pair of the results box. */
    method ComputeChi2() returns (chi2: Option<real>)
      requires Valid()
      ensures chi2 == PearsonStatistic(ValuePairs())
    {
      chi2 := Some(0.0);
      var n := NumberOfValuePairs();
      ghost var pairs: seq<ValuePair> := [];
      var i := 0;
      while i < n
        invariant 0 <= i <= n == NumberOfValuePairs()
        invariant pairs == ValuePairsUpTo(i)
        invariant chi2 == PearsonStatistic(pairs)
      {
        var pair := ValuePair(ObservedValue(i), ExpectedValue(i));
        PearsonSnoc(pairs, pair);
        chi2 := AddTerm(chi2, Contribution(pair));
        pairs := pairs + [pair];
        i := i + 1;
      }
    }

    /**
     * The test accepts the table once its effective size is at least 2 x 2;
     * the degrees of freedom are then at least 1.
     */
    method ValidateInputs() returns (ok: bool)
      requires Valid()
      ensures ok <==> BoundingBox(Cells()).row >= 2 && BoundingBox(Cells()).col >= 2
      ensures ok ==> DegreesOfFreedom(BoundingBox(Cells())) >= 1
    {
      var max := ComputeDimensions();
      ok := max.row >= 2 && max.col >= 2;
    }

    /**
     * The first part of the test: refreshes the totals, takes the bounding
     * box of the present cells as the results box, and derives the degrees
     * of freedom and the expected counts inside the box.
     */
    method ComputeResults()
      requires Valid()
      modifies rowTotals, columnTotals, expectedValues, this`total, this`numberOfResultRows,
        this`numberOfResultColumns, this`degreesOfFreedom
      ensures Valid() && TotalsCurrent()
      ensures Index2D(numberOfResultRows, numberOfResultColumns) == BoundingBox(Cells())
      ensures degreesOfFreedom == DegreesOfFreedom(BoundingBox(Cells()))
      ensures forall r, c :: 0 <= r < numberOfResultRows && 0 <= c < numberOfResultColumns ==>
                expectedValues[Index2DToIndex(r, c)] == Expected(Cells(), r, c)
    {
      RecomputeData();
      var max := ComputeDimensions();
      ComputeExpectedValues(max);
      numberOfResultRows := max.row;
      numberOfResultColumns := max.col;
      degreesOfFreedom := DegreesOfFreedom(max);
    }

    /**
     * Runs the test: refreshes the totals, the results box, the degrees of
     * freedom and the expected counts, then computes Pearson's statistic
     * over the value pairs of the results box.
     */
    method ComputeTest()
      requires Valid()
      modifies rowTotals, columnTotals, expectedValues, this`total, this`numberOfResultRows,
        this`numberOfResultColumns, this`degreesOfFreedom, this`testCriterion
      ensures Valid() && TotalsCurrent()
      ensures Index2D(numberOfResultRows, numberOfResultColumns) == BoundingBox(Cells())
      ensures degreesOfFreedom == DegreesOfFreedom(BoundingBox(Cells()))
      ensures forall r, c :: 0 <= r < numberOfResultRows && 0 <= c < numberOfResultColumns ==>
                expectedValues[Index2DToIndex(r, c)] == Expected(Cells(), r, c)
      ensures testCriterion == PearsonStatistic(ValuePairs())
    {
      ComputeResults();
      testCriterion := ComputeChi2();
    }
  }

  /** In a table with no present cell every total is zero. */
  lemma EmptyTableSums(cells: seq<Option<real>>)
    requires IsTable(cells) && forall i :: 0 <= i < |cells| ==> cells[i].None?
    ensures forall r :: 0 <= r < MaxNumberOfRows ==> RowSum(cells, r) == 0.0
    ensures forall c :: 0 <= c < MaxNumberOfColumns ==> ColumnSum(cells, c) == 0.0
    ensures TableSum(cells) == 0.0
  {
    forall r | 0 <= r < MaxNumberOfRows ensures RowSum(cells, r) == 0.0 {
      EmptyRowSum(cells, r, MaxNumberOfColumns);
    }
    forall c | 0 <= c < MaxNumberOfColumns ensures ColumnSum(cells, c) == 0.0 {
      EmptyColumnSum(cells, c, MaxNumberOfRows);
    }
    EmptyPrefixSum(cells, NumberOfCells);
  }

  lemma {:induction false} EmptyRowSum(cells: seq<Option<real>>, row: int, n: nat)
    requires IsTable(cells) && forall i :: 0 <= i < |cells| ==> cells[i].None?
    requires 0 <= row < MaxNumberOfRows && n <= MaxNumberOfColumns
    ensures RowSumUpTo(cells, row, n) == 0.0
  {
    if n > 0 {
      EmptyRowSum(cells, row, n - 1);
    }
  }

  lemma {:induction false} EmptyColumnSum(cells: seq<Option<real>>, column: int, n: nat)
    requires IsTable(cells) && forall i :: 0 <= i < |cells| ==> cells[i].None?
    requires 0 <= column < MaxNumberOfColumns && n <= MaxNumberOfRows
    ensures ColumnSumUpTo(cells, column, n) == 0.0
  {
    if n > 0 {
      EmptyColumnSum(cells, column, n - 1);
    }
  }

  lemma {:induction false} EmptyPrefixSum(cells: seq<Option<real>>, n: nat)
    requires IsTable(cells) && forall i :: 0 <= i < |cells| ==> cells[i].None?
    requires n <= NumberOfCells
    ensures PrefixSum(cells, n) == 0.0
  {
    if n > 0 {
      EmptyPrefixSum(cells, n - 1);
    }
  }
}
