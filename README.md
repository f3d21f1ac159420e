# Inference engine core of the calculator, in Dafny

This project models four pieces of the calculator's probability application
and expression engine, and proves properties about them:

- **The homogeneity test** (`HomogeneityTest`). It is a chi-square test on a
  contingency table of at most 9 rows and 9 columns. The table is stored
  row-major in fixed arrays: the observed counts, the expected counts, the
  row totals and the column totals. Further fields hold the grand total, the
  effective size of the results (the bounding box of the present cells) and
  the degrees of freedom. Cells are set, read and deleted by (row, column).
  A deleted cell holds the NaN sentinel `k_undefinedValue`; the model
  represents it as `None`. The module `Homogeneity` holds the class with its
  arrays, whose methods update them in place. The module `ContingencyTable`
  holds the table as a value, with the index conversions, the row, column
  and grand totals, the bounding box, the degrees of freedom and the
  expected counts. The methods are proved against these definitions.
- **The chi-square categorical test** (`Chi2Test`). Module `Chi2Test` holds
  Pearson's statistic, the sum of (observed − expected)² / expected over the
  value pairs. A pair contributes nothing defined when its observed value is
  deleted or its expected value is undefined or zero; the whole sum is then
  `None`. The module also holds `indexOfDegreeOfFreedom`.
- **Inference lifecycle and base validation** (`Inference::Initialize`,
  `authorizedParameterAtIndex`). Module `Inference` holds the active model
  as a sum type over the sub-applications. Switching sub-application
  replaces it with that sub-application's default model. A model here is
  only which variant is active: it holds no parameter values, so resetting
  the parameters on a switch, or keeping them when nothing changes, is not
  represented. A parameter is
  authorized when it is still finite after conversion to single precision.
- **Logical operator metadata** (`LogicalOperatorNode`,
  `BinaryLogicalOperatorNode`). Module `LogicalOperator` holds the operator
  enumeration, the name table, name lookup, precedence, child counts,
  Boolean evaluation and the operator-type field with its setter.

Double-precision values that are entered by the user are the datatype
`Inference.Double`: a finite real, an infinity, or NaN. Counts and totals
are `real`. A NaN produced by a computation is `None`.

## Model

| member | source | states |
|---|---|---|
| `LogicalOperator.Ordinal` | poincare/include/poincare/logical_operator.h:69-76 | every operator has a position below the enumeration length 5 |
| `LogicalOperator.TableCoversEnumeration` | poincare/include/poincare/logical_operator.h:88-100 | the name table has exactly one entry per operator, and it sits at that operator's position |
| `LogicalOperator.NamesDistinct` | poincare/include/poincare/logical_operator.h:93-99 | the five names are pairwise distinct and none of them is "not" |
| `LogicalOperator.LookupFrom` | poincare/include/poincare/logical_operator.h:93-99 | scanning the table from a position finds an operator exactly when some later entry carries the token, and then returns that entry's type |
| `LogicalOperator.IsBinaryLogicalOperator` | poincare/include/poincare/logical_operator.h:77 | lookup of the first `nameLength` characters succeeds exactly when they equal a table name, and then yields that entry's type |
| `LogicalOperator.LookupThenName` | poincare/include/poincare/logical_operator.h:77 | a successful lookup gives an operator whose own name is the looked-up text |
| `LogicalOperator.NotIsNotBinary` | poincare/include/poincare/logical_operator.h:34 | "not" is not a binary operator name |
| `LogicalOperator.NameFrom` | poincare/include/poincare/logical_operator.h:102 | scanning the table from a position finds a name exactly when some later entry has the operator, and it is that entry's name |
| `LogicalOperator.OperatorName` | poincare/include/poincare/logical_operator.h:102 | an operator's name is the name paired with it in the table |
| `LogicalOperator.LookupOwnName` | poincare/include/poincare/logical_operator.h:93-102 | looking up an operator's own name gives back that operator |
| `LogicalOperator.NamesFitBuffer` | poincare/include/poincare/logical_operator.h:23 | every name, "not" included, has at most 4 characters and fits the 7-character buffer with a space on each side and a terminator |
| `LogicalOperator.LogicalOperatorTypePrecedence` | poincare/include/poincare/logical_operator.h:11-12 | precedence lies between −1 and 2; it is 2 exactly for a not node and −1 exactly for a node that is not a logical operator |
| `LogicalOperator.PrecedenceOrder` | poincare/include/poincare/logical_operator.h:11-12 | not has precedence 2, and and nand have 1, or, xor and nor have 0, any other node has −1, below every logical operator |
| `LogicalOperator.TruthTable` | poincare/include/poincare/logical_operator.h:85 | each operator has a four-row truth table, an independent reference for evaluation |
| `LogicalOperator.Evaluate` | poincare/include/poincare/logical_operator.h:85 | evaluation agrees on all inputs with the operator's truth table |
| `LogicalOperator.EvaluateNegationsAndSymmetry` | poincare/include/poincare/logical_operator.h:85 | nand is the negation of and, nor the negation of or, and every connective is symmetric |
| `LogicalOperator.NumberOfChildren` | poincare/include/poincare/logical_operator.h:37 | a logical node has one child exactly when it is a not node, and two exactly when it is binary |
| `LogicalOperator.BinaryLogicalOperatorNode.constructor` | poincare/include/poincare/logical_operator.h:120 | a new node holds the operator type it was built with |
| `LogicalOperator.BinaryLogicalOperatorNode.OperatorType` | poincare/include/poincare/logical_operator.h:83 | the type read from a node is the operator of the node's binary kind |
| `LogicalOperator.BinaryLogicalOperatorNode.SetOperatorType` | poincare/include/poincare/logical_operator.h:83-84 | after setting a type, reading the type gives it back |
| `LogicalOperator.BinaryLogicalOperatorNode.Kind` | poincare/include/poincare/logical_operator.h:79-81 | a binary logical node is of the binary kind and has two children |
| `Inference.ToFloat` | apps/probability/models/inference.cpp:40 | the conversion to single precision keeps NaN as NaN, keeps a finite value unchanged when it is below the overflow threshold 2^128 − 2^103 in magnitude, and otherwise gives an infinity |
| `Inference.AuthorizedParameterAtIndex` | apps/probability/models/inference.cpp:39-41 | a parameter is authorized exactly when it is finite and below the float overflow threshold in magnitude |
| `Inference.AuthorizedIgnoresIndex` | apps/probability/models/inference.cpp:39-41 | the answer does not depend on the index |
| `Inference.AuthorizedBounds` | apps/probability/models/inference.cpp:39-41 | NaN and infinities are refused, every value within the largest float is accepted, and every value at or beyond the overflow threshold is refused |
| `Inference.SubAppOf` | apps/probability/models/inference.cpp:12 | a distribution belongs to Probability, a significance test to Test and a confidence interval to Interval, and to no other sub-application |
| `Inference.DefaultModel` | apps/probability/models/inference.cpp:16-25 | the default model of a sub-application belongs to that sub-application |
| `Inference.Initialize` | apps/probability/models/inference.cpp:11-30 | the switch reports a change exactly when the sub-application differs; without a change the model is kept; afterwards the model belongs to the requested sub-application |
| `Inference.InitializeInstallsDefault` | apps/probability/models/inference.cpp:15-29 | on a change, Probability gets the binomial distribution, Test the one-mean t test and Interval the one-mean t interval |
| `Inference.InitializeTwice` | apps/probability/models/inference.cpp:11-14 | a second switch to the same sub-application reports no change and keeps the model |
| `Inference.InitializeInPlace` | apps/probability/models/inference.cpp:11-30 | replacing the stored model in place agrees with the switch on its result and its new model |
| `Chi2Test.TermSign` | apps/probability/models/statistic/chi2_test.h:64 | with a positive expected value a pair's term is non-negative, and zero exactly when observed equals expected |
| `Chi2Test.Contribution` | apps/probability/models/statistic/chi2_test.h:61-64 | a pair contributes a defined term exactly when its observed and expected values are present and the expected value is not zero |
| `Chi2Test.PearsonSnoc` | apps/probability/models/statistic/chi2_test.h:64 | appending a pair adds its term to the statistic, and an undefined term makes the statistic undefined |
| `Chi2Test.PearsonDefinedIff` | apps/probability/models/statistic/chi2_test.h:64 | Pearson's statistic, summed over the pairs in order, is defined exactly when every pair's term is |
| `Chi2Test.PearsonZeroIffPerfectFit` | apps/probability/models/statistic/chi2_test.h:64 | with every pair present and every expected value positive, the statistic is non-negative, and zero exactly when every observed value equals its expected value |
| `Chi2Test.PearsonZeroOnExactFit` | apps/probability/models/statistic/chi2_test.h:61-64 | when every observed value equals its non-zero expected value the statistic is 0 |
| `Chi2Test.IndexOfDegreeOfFreedom` | apps/probability/models/statistic/chi2_test.h:34 | the degree-of-freedom parameter comes right after the threshold |
| `ContingencyTable.Index2DToIndex` | apps/probability/models/statistic/homogeneity_test.h:65 | a grid position maps to a flat index inside the 81 cells |
| `ContingencyTable.IndexToIndex2D` | apps/probability/models/statistic/homogeneity_test.h:63 | a flat index inside the 81 cells maps to a position of the 9 x 9 grid |
| `ContingencyTable.IndexRoundTrip` | apps/probability/models/statistic/homogeneity_test.h:63-65 | converting a flat index to a position and back gives the index |
| `ContingencyTable.Index2DRoundTrip` | apps/probability/models/statistic/homogeneity_test.h:63-65 | converting a position to a flat index and back gives the position |
| `ContingencyTable.Index2DToIndexInjective` | apps/probability/models/statistic/homogeneity_test.h:64-65 | two positions with the same flat index are the same position |
| `ContingencyTable.ResultsIndexInBox` | apps/probability/models/statistic/homogeneity_test.h:66 | each results index below rows x columns maps inside the rows x columns box, and reading the box row by row gives the index back |
| `ContingencyTable.MarginalsAddUpToTotal` | apps/probability/models/statistic/homogeneity_test.h:41-43 | the row totals and the column totals each add up to the grand total |
| `ContingencyTable.BoundingBoxIsSmallest` | apps/probability/models/statistic/homogeneity_test.h:45-49 | the bounding box is at most 9 x 9, holds every present cell, and its last row and last column each hold a present cell |
| `ContingencyTable.BoundingBoxUnique` | apps/probability/models/statistic/homogeneity_test.h:45-49 | any box within 9 x 9 that holds every present cell and whose last row and column are non-empty is the bounding box |
| `ContingencyTable.FullBlockDimensions` | apps/probability/models/statistic/homogeneity_test.h:60 | a fully filled rows x columns table has that effective size and (rows − 1)(columns − 1) degrees of freedom |
| `ContingencyTable.ThreeByFourDegreesOfFreedom` | apps/probability/models/statistic/homogeneity_test.h:60 | a full 3 x 4 table has 6 degrees of freedom |
| `ContingencyTable.DeleteRow` | apps/probability/models/statistic/homogeneity_test.h:28 | deleting every cell of a row empties that row and keeps every other cell |
| `ContingencyTable.ResultsPositionReached` | apps/probability/models/statistic/homogeneity_test.h:66 | every position of the box is reached: the results index that reads it row by row maps back to it |
| `ContingencyTable.ResultsIndexToIndex2D` | apps/probability/models/statistic/homogeneity_test.h:66 | a results index maps to a column inside the box and a row such that reading row by row gives the index back |
| `ContingencyTable.DegreesOfFreedom` | apps/probability/models/statistic/homogeneity_test.h:60 | a table of at least 2 x 2 has at least one degree of freedom; a single row or a single column has none |
| `ContingencyTable.DeleteLastRowShrinksBox` | apps/probability/models/statistic/homogeneity_test.h:45-60 | emptying the last row of a full table shrinks its effective row count by one; for 4 x 4 the degrees of freedom go from 9 to 6 |
| `ContingencyTable.DeleteInteriorRowKeepsBox` | apps/probability/models/statistic/homogeneity_test.h:45-60 | emptying a row above the last row of a full table keeps its effective size and its degrees of freedom |
| `ContingencyTable.ExpectedKeepsMarginals` | apps/probability/models/statistic/homogeneity_test.h:39 | with a non-zero grand total, the expected counts of a row add up to its observed total, and those of a column to its observed total |
| `ContingencyTable.ExpectedUndefinedOnZeroTotal` | apps/probability/models/statistic/homogeneity_test.h:39 | an expected count is undefined exactly when the grand total is zero |
| `ContingencyTable.ExpectedPositive` | apps/probability/models/statistic/homogeneity_test.h:39 | where the row total, the column total and the grand total are positive, the expected count is defined and positive |
| `Homogeneity.AuthorizedParameterAtPosition` | apps/probability/models/statistic/homogeneity_test.h:27 | an entry is accepted exactly when it is finite, not negative and below the float overflow threshold |
| `Homogeneity.HomogeneityTest.constructor` | apps/probability/models/statistic/homogeneity_test.h:14 | a new test has every cell empty, zero totals and an empty results box |
| `Homogeneity.HomogeneityTest.NumberOfStatisticParameters` | apps/probability/models/statistic/homogeneity_test.h:33-35 | the parameter count is 9 x 9 = 81, the capacity of both the observed and the expected arrays |
| `Homogeneity.HomogeneityTest.ParameterAtPosition` | apps/probability/models/statistic/homogeneity_test.h:26 | reading a position gives that cell of the table |
| `Homogeneity.HomogeneityTest.SetParameterAtPosition` | apps/probability/models/statistic/homogeneity_test.h:25 | after setting a value, reading that position gives it and every other cell is unchanged |
| `Homogeneity.HomogeneityTest.DeleteParameterAtPosition` | apps/probability/models/statistic/chi2_test.h:42-44 | the cell becomes deleted, and the result is true exactly when it held a value that was the last of its row or of its column |
| `Homogeneity.HomogeneityTest.RecomputeData` | apps/probability/models/statistic/homogeneity_test.h:29 | afterwards each row total, each column total and the grand total is the sum of the present cells it covers |
| `Homogeneity.HomogeneityTest.Total` | apps/probability/models/statistic/homogeneity_test.h:41 | with current totals, the grand total is the sum of all present cells |
| `Homogeneity.HomogeneityTest.RowTotal` | apps/probability/models/statistic/homogeneity_test.h:42 | with current totals, a row total is the sum of that row's present cells |
| `Homogeneity.HomogeneityTest.ColumnTotal` | apps/probability/models/statistic/homogeneity_test.h:43 | with current totals, a column total is the sum of that column's present cells |
| `Homogeneity.HomogeneityTest.ComputeDimensions` | apps/probability/models/statistic/homogeneity_test.h:49 | the result is the bounding box of the present cells, never beyond 9 x 9 |
| `Homogeneity.HomogeneityTest.ExpectedValueAtLocation` | apps/probability/models/statistic/homogeneity_test.h:39 | with current totals, the result is the table's expected count at that position: row total x column total / grand total, undefined on a zero total |
| `Homogeneity.HomogeneityTest.ComputeExpectedValues` | apps/probability/models/statistic/homogeneity_test.h:68 | every cell inside the box gets its expected count and every cell outside keeps its old one |
| `Homogeneity.HomogeneityTest.NumberOfValuePairs` | apps/probability/models/statistic/homogeneity_test.h:56 | there are at most 81 value pairs |
| `Homogeneity.HomogeneityTest.ResultsIndexToArrayIndex` | apps/probability/models/statistic/homogeneity_test.h:67 | a results index maps to the flat index of a cell inside the results box |
| `Homogeneity.HomogeneityTest.ValuePairAtBoxPosition` | apps/probability/models/statistic/homogeneity_test.h:54-55 | a value pair's observed value is the table's cell, and its expected value the stored expected count, at the same position inside the results box |
| `Homogeneity.HomogeneityTest.ComputeChi2` | apps/probability/models/statistic/chi2_test.h:64 | the loop's result is Pearson's statistic over all value pairs of the results box |
| `Homogeneity.HomogeneityTest.ValidateInputs` | apps/probability/models/statistic/homogeneity_test.h:20 | the table is accepted exactly when its effective size is at least 2 x 2, and then it has at least one degree of freedom |
| `Homogeneity.HomogeneityTest.ComputeResults` | apps/probability/models/statistic/homogeneity_test.h:22 | the part of the test before the statistic: afterwards the totals are current, the results box is the bounding box of the present cells, the degrees of freedom are those of that box, and the expected counts in the box are those of the table |
| `Homogeneity.HomogeneityTest.ComputeTest` | apps/probability/models/statistic/homogeneity_test.h:22 | afterwards the totals are current, the results box is the bounding box, the degrees of freedom are (rows − 1)(columns − 1), the expected counts in the box are those of the table, and the criterion is Pearson's statistic |

## Left out

- The bodies of the homogeneity test and the chi-square test are not part of this model; only their declarations are. The model follows what the names, the fields and the doc comments commit to: Pearson's test of homogeneity.
- Homogeneity.HomogeneityTest.SetParameterAtPosition: it changes only the cell. The totals become current again through `RecomputeData`, which the header declares as a separate step. The edit does not update the totals; an incremental update on every edit is not modelled.
- Homogeneity.HomogeneityTest.DeleteParameterAtPosition: a cell never set and a deleted cell are both `None`, so they cannot be told apart. The effective size is recomputed only by `ComputeDimensions`, never by the deletion itself. The deletion does not update the totals either; they become current through `RecomputeData`.
- Homogeneity.HomogeneityTest.ValidateInputs: only the size condition is modelled: at least 2 effective rows and 2 effective columns.
- Homogeneity.HomogeneityTest.ComputeTest: the p-value, the critical value and the threshold are not computed. The Chi2 distribution functions are not part of this model.
- ContingencyTable.DegreesOfFreedom is (rows − 1)(columns − 1) without clamping. The lower bound of 1 holds once `ValidateInputs` accepts the table.
- Inference.ToFloat: rounding of finite values to float precision is not modelled; only the NaN, infinity and overflow classification is.
- Floating point: counts, totals and expected counts are exact reals. Rounding is not modelled. A NaN or an infinity produced by a computation is `None`. A zero expected count gives an undefined term rather than an infinity.
- `observedValueAtPosition`, `expectedValueAtPosition` and the `index2DToIndex(Index2D)` overload are private helpers. They are folded into `ObservedValue`, `ExpectedValue` and `ContingencyTable.Index2DToIndex`.
- The flat-index accessors `setParameterAtIndex` and `parameterAtIndex` are hidden in the source. The model offers access by (row, column) only.
- The axis bounds `computeXMin`, `computeXMax` and `computeYMax`, the density, the cumulative distribution and its inverse: they call `DistributionChi2`, which is not part of this model.
- `initializeCategoricalType`, `categoricalType`, `title`, `setGraphTitle`, the parameter representations and the critical-value symbol: presentation and selection glue outside the modelled core.
- `Inference::computeCurveViewRange`: float range clamping in `Shared::Range1D`, which is not part of this model.
- Inference.Initialize: the destructor and placement construction are modelled as replacing a sum-type value. The `default: assert(false)` branch cannot be reached, because the sum type has exactly three sub-applications.
- The logical operators' layout, serialisation, approximation, reduction, `IsApproximativelyNotZero` and `childAtIndexNeedsUserParentheses` depend on the expression and layout engine, which is not part of this model.
- ContingencyTable.DeleteLastRowShrinksBox: only emptying the last row shrinks the effective size. Empty interior rows and columns are never compacted, so emptying an interior row of a full table keeps its size and its degrees of freedom (`ContingencyTable.DeleteInteriorRowKeepsBox`). Whether the source compacts them is not visible in its declarations.
