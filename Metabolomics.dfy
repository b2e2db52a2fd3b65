/**
 Normalization of a metabolite abundance table and the two-group differential
 abundance scan (`MetabolomicsAnalyzer.normalize_data` and
 `MetabolomicsAnalyzer.find_differential_metabolites`).

 The table's reductions (`min`, `max`, `mean`, `std`) work down each sample
 column, as pandas' `DataFrame` reductions do by default; the base-2 logarithm,
 the square root and the two-sample t-test are parameters.
 */
module Metabolomics {
  import opened Tables
  import opened Stats

  /** The method `normalize_data` uses when none is given. */
  const DefaultNormalization: string := "log2"

  /** The p-value threshold `find_differential_metabolites` uses when none is given. */
  const DefaultThreshold: real := 0.05

  // ---------------------------------------------------------------------------
  // Normalization

  datatype Normalization = Log2 | ZScore | MinMax

  function NormalizationName(m: Normalization): string
  {
    match m
    case Log2 => "log2"
    case ZScore => "zscore"
    case MinMax => "minmax"
  }

  /** The normalization a method name selects; every other name is unknown. */
  function ParseNormalization(name: string): (r: Option<Normalization>)
    ensures r.None? <==> name !in {"log2", "zscore", "minmax"}
    ensures r.Some? ==> NormalizationName(r.value) == name
  {
    if name == "log2" then Some(Log2)
    else if name == "zscore" then Some(ZScore)
    else if name == "minmax" then Some(MinMax)
    else None
  }

  /** Every normalization is selected by its own name. */
  lemma NormalizationNameRoundTrip(m: Normalization)
    ensures ParseNormalization(NormalizationName(m)) == Some(m)
  {
    match m
    case Log2 =>
    case ZScore =>
    case MinMax =>
  }

  /** The default method name is recognised, as the log transform. */
  lemma DefaultNormalizationRecognised()
    ensures ParseNormalization(DefaultNormalization) == Some(Log2)
  {
  }

  /** `np.log2(data + 1)`: entry by entry, with a pseudocount of 1. */
  function Log2Transform(t: AbundanceTable, log2: real -> real): (r: AbundanceTable)
    requires t.Valid()
    ensures r.Valid() && r.SameShape(t)
  {
    AbundanceTable(t.rows, t.columns,
      seq(|t.values|, i requires 0 <= i < |t.values| =>
        seq(|t.values[i]|, j requires 0 <= j < |t.values[i]| => log2(t.values[i][j] + 1.0))))
  }

  /**
   The standard deviation of sample column `j` (`std` with `ddof=1`): when `sqrt`
   squares back to its argument, its square is the column's sample variance.
   */
  function ColumnStd(t: AbundanceTable, j: nat, sqrt: real -> real): (r: real)
    requires t.Valid() && j < |t.columns| && |t.rows| >= 2
    ensures (forall v :: v >= 0.0 ==> sqrt(v) * sqrt(v) == v) ==> r * r == SampleVariance(Column(t, j))
  {
    sqrt(SampleVariance(Column(t, j)))
  }

  /**
   The z-score is finite everywhere: a single row has no sample standard
   deviation, and a column of equal values has a zero one.
   */
  predicate ZScoreDefined(t: AbundanceTable, sqrt: real -> real)
    requires t.Valid()
  {
    |t.rows| != 1 &&
    forall j :: 0 <= j < |t.columns| ==> |t.rows| >= 2 ==> ColumnStd(t, j, sqrt) != 0.0
  }

  /** `(data - data.mean()) / data.std()`, column by column. */
  function ZScoreTransform(t: AbundanceTable, sqrt: real -> real): (r: AbundanceTable)
    requires t.Valid() && ZScoreDefined(t, sqrt)
    ensures r.Valid() && r.SameShape(t)
  {
    AbundanceTable(t.rows, t.columns,
      seq(|t.values|, i requires 0 <= i < |t.values| =>
        seq(|t.values[i]|, j requires 0 <= j < |t.values[i]| =>
          (t.values[i][j] - Mean(Column(t, j))) / ColumnStd(t, j, sqrt))))
  }

  /** Min-max scaling is finite everywhere: no non-empty column is constant. */
  predicate MinMaxDefined(t: AbundanceTable)
    requires t.Valid()
  {
    forall j :: 0 <= j < |t.columns| ==> |t.rows| > 0 ==> Min(Column(t, j)) != Max(Column(t, j))
  }

  /** `(data - data.min()) / (data.max() - data.min())`, column by column. */
  function MinMaxTransform(t: AbundanceTable): (r: AbundanceTable)
    requires t.Valid() && MinMaxDefined(t)
    ensures r.Valid() && r.SameShape(t)
  {
    AbundanceTable(t.rows, t.columns,
      seq(|t.values|, i requires 0 <= i < |t.values| =>
        seq(|t.values[i]|, j requires 0 <= j < |t.values[i]| =>
          (t.values[i][j] - Min(Column(t, j))) / (Max(Column(t, j)) - Min(Column(t, j))))))
  }

  /**
   The normalized table: the transform the name selects, with the same labels and
   shape. An unknown method name fails whatever the table holds.
   */
  function Normalize(t: AbundanceTable, name: string, log2: real -> real, sqrt: real -> real): (r: Result<AbundanceTable>)
    requires t.Valid()
    requires name == "zscore" ==> ZScoreDefined(t, sqrt)
    requires name == "minmax" ==> MinMaxDefined(t)
    ensures r.Err? <==> ParseNormalization(name).None?
    ensures r.Err? ==> r.error == UnknownNormalizationMethod(name)
    ensures r.Ok? ==> r.value.Valid() && r.value.SameShape(t)
    ensures ParseNormalization(name) == Some(Log2) ==> r == Ok(Log2Transform(t, log2))
    ensures ParseNormalization(name) == Some(ZScore) ==> r == Ok(ZScoreTransform(t, sqrt))
    ensures ParseNormalization(name) == Some(MinMax) ==> r == Ok(MinMaxTransform(t))
  {
    match ParseNormalization(name)
    case None => Err(UnknownNormalizationMethod(name))
    case Some(Log2) => Ok(Log2Transform(t, log2))
    case Some(ZScore) => Ok(ZScoreTransform(t, sqrt))
    case Some(MinMax) => Ok(MinMaxTransform(t))
  }

  /**
   For a `log2` that is strictly increasing on the positive reals, as the
   base-2 logarithm is, with `log2(1) = 0`, the log transform keeps the order of
   any two entries above -1 (so that both shifted values are positive) and maps
   a zero abundance to zero.
   */
  lemma {:induction false} Log2PreservesOrder(t: AbundanceTable, log2: real -> real, i: nat, j: nat, k: nat, l: nat)
    requires t.Valid() && i < |t.rows| && k < |t.rows| && j < |t.columns| && l < |t.columns|
    requires forall x, y :: 0.0 < x < y ==> log2(x) < log2(y)
    requires log2(1.0) == 0.0
    requires t.values[i][j] > -1.0 && t.values[k][l] > -1.0
    ensures var r := Log2Transform(t, log2);
      (t.values[i][j] < t.values[k][l] <==> r.values[i][j] < r.values[k][l]) &&
      (t.values[i][j] == 0.0 ==> r.values[i][j] == 0.0)
  {
    var r := Log2Transform(t, log2);
    var x, y := t.values[i][j] + 1.0, t.values[k][l] + 1.0;
    assert r.values[i][j] == log2(x) && r.values[k][l] == log2(y);
    if y < x {
      assert log2(y) < log2(x);
    } else if x < y {
      assert log2(x) < log2(y);
    }
  }

  /**
   With an `exp2` that undoes `log2` on the positive reals, `exp2(v) - 1`
   recovers every entry above -1 from its transformed value.
   */
  lemma {:induction false} Log2TransformRoundTrip(t: AbundanceTable, log2: real -> real, exp2: real -> real, i: nat, j: nat)
    requires t.Valid() && i < |t.rows| && j < |t.columns|
    requires forall x :: x > 0.0 ==> exp2(log2(x)) == x
    requires t.values[i][j] > -1.0
    ensures exp2(Log2Transform(t, log2).values[i][j]) - 1.0 == t.values[i][j]
  {
    var x := t.values[i][j] + 1.0;
    assert Log2Transform(t, log2).values[i][j] == log2(x);
    assert exp2(log2(x)) == x;
  }

  /**
   Min-max scaling puts every entry in [0, 1]; an entry becomes 0 exactly when
   it is its column's minimum and 1 exactly when it is the maximum.
   */
  lemma {:induction false} MinMaxRange(t: AbundanceTable, i: nat, j: nat)
    requires t.Valid() && MinMaxDefined(t) && i < |t.rows| && j < |t.columns|
    ensures var r := MinMaxTransform(t);
      0.0 <= r.values[i][j] <= 1.0 &&
      (r.values[i][j] == 0.0 <==> t.values[i][j] == Min(Column(t, j))) &&
      (r.values[i][j] == 1.0 <==> t.values[i][j] == Max(Column(t, j)))
  {
    var col := Column(t, j);
    assert col[i] == t.values[i][j];
    UnitRatio(t.values[i][j] - Min(col), Max(col) - Min(col));
  }

  /** Within a column, min-max scaling keeps the order of the entries. */
  lemma {:induction false} MinMaxPreservesOrder(t: AbundanceTable, i: nat, k: nat, j: nat)
    requires t.Valid() && MinMaxDefined(t) && i < |t.rows| && k < |t.rows| && j < |t.columns|
    ensures var r := MinMaxTransform(t);
      t.values[i][j] <= t.values[k][j] <==> r.values[i][j] <= r.values[k][j]
  {
    var col := Column(t, j);
    assert col[i] == t.values[i][j] && col[k] == t.values[k][j];
    DivMonotone(t.values[i][j] - Min(col), t.values[k][j] - Min(col), Max(col) - Min(col));
  }

  /** Each non-empty column of the scaled table has minimum 0 and maximum 1. */
  lemma {:induction false} MinMaxColumnEnds(t: AbundanceTable, j: nat)
    requires t.Valid() && MinMaxDefined(t) && j < |t.columns| && |t.rows| > 0
    ensures Min(Column(MinMaxTransform(t), j)) == 0.0
    ensures Max(Column(MinMaxTransform(t), j)) == 1.0
  {
    var r := MinMaxTransform(t);
    var col, out := Column(t, j), Column(r, j);
    var lo :| 0 <= lo < |col| && col[lo] == Min(col);
    var hi :| 0 <= hi < |col| && col[hi] == Max(col);
    forall k | 0 <= k < |out|
      ensures 0.0 <= out[k] <= 1.0
    {
      MinMaxRange(t, k, j);
    }
    MinMaxRange(t, lo, j);
    MinMaxRange(t, hi, j);
    assert out[lo] == 0.0 && out[hi] == 1.0;
  }

  /** Scaling an already scaled table changes nothing. */
  lemma {:induction false} MinMaxIdempotent(t: AbundanceTable)
    requires t.Valid() && MinMaxDefined(t)
    ensures MinMaxDefined(MinMaxTransform(t))
    ensures MinMaxTransform(MinMaxTransform(t)) == MinMaxTransform(t)
  {
    var r := MinMaxTransform(t);
    if |t.rows| > 0 {
      forall j | 0 <= j < |t.columns|
        ensures Min(Column(r, j)) == 0.0 && Max(Column(r, j)) == 1.0
      {
        MinMaxColumnEnds(t, j);
      }
    }
    var rr := MinMaxTransform(r);
    forall i | 0 <= i < |rr.values|
      ensures rr.values[i] == r.values[i]
    {
      forall j | 0 <= j < |rr.values[i]|
        ensures rr.values[i][j] == r.values[i][j]
      {
        assert rr.values[i][j] == (r.values[i][j] - 0.0) / (1.0 - 0.0);
      }
    }
  }

  /** Every z-scored column with at least two rows sums (so averages) to 0. */
  lemma {:induction false} ZScoreColumnMeanZero(t: AbundanceTable, sqrt: real -> real, j: nat)
    requires t.Valid() && ZScoreDefined(t, sqrt) && j < |t.columns| && |t.rows| >= 2
    ensures Sum(Column(ZScoreTransform(t, sqrt), j)) == 0.0
    ensures Mean(Column(ZScoreTransform(t, sqrt), j)) == 0.0
  {
    ZScoreColumnScaled(t, sqrt, j);
    CenteredSumZero(Column(t, j), Column(ZScoreTransform(t, sqrt), j), ColumnStd(t, j, sqrt));
  }

  /**
   When `sqrt` squares back to its argument, every z-scored column with at
   least two rows has sample variance 1.
   */
  lemma {:induction false} ZScoreColumnUnitVariance(t: AbundanceTable, sqrt: real -> real, j: nat)
    requires t.Valid() && ZScoreDefined(t, sqrt) && j < |t.columns| && |t.rows| >= 2
    requires forall v :: v >= 0.0 ==> sqrt(v) * sqrt(v) == v
    ensures SampleVariance(Column(ZScoreTransform(t, sqrt), j)) == 1.0
  {
    var x, y := Column(t, j), Column(ZScoreTransform(t, sqrt), j);
    var d := ColumnStd(t, j, sqrt);
    var m := (|x| - 1) as real;
    ZScoreColumnSquares(t, sqrt, j);
    assert d * d == SampleVariance(x);
    UnitVarianceStep(SumOfSquares(y), SquaredDeviation(x, Mean(x)), d, m);
    ZScoreColumnMeanZero(t, sqrt, j);
    SquaredDeviationAtZero(y);
  }

  /** The squares of a z-scored column, times the variance, give the squared deviation from the mean. */
  lemma {:induction false} ZScoreColumnSquares(t: AbundanceTable, sqrt: real -> real, j: nat)
    requires t.Valid() && ZScoreDefined(t, sqrt) && j < |t.columns| && |t.rows| >= 2
    ensures var x, d := Column(t, j), ColumnStd(t, j, sqrt);
      SumOfSquares(Column(ZScoreTransform(t, sqrt), j)) * (d * d) == SquaredDeviation(x, Mean(x))
  {
    var x, y := Column(t, j), Column(ZScoreTransform(t, sqrt), j);
    ZScoreColumnScaled(t, sqrt, j);
    SquaresShiftScale(x, y, Mean(x), ColumnStd(t, j, sqrt));
  }

  /** Each z-score times the column's standard deviation is the entry's distance from the column mean. */
  lemma {:induction false} ZScoreColumnScaled(t: AbundanceTable, sqrt: real -> real, j: nat)
    requires t.Valid() && ZScoreDefined(t, sqrt) && j < |t.columns| && |t.rows| >= 2
    ensures var x, y := Column(t, j), Column(ZScoreTransform(t, sqrt), j);
      |x| == |y| &&
      forall k :: 0 <= k < |x| ==> y[k] * ColumnStd(t, j, sqrt) == x[k] - Mean(x)
  {
    var x, y := Column(t, j), Column(ZScoreTransform(t, sqrt), j);
    forall k | 0 <= k < |x|
      ensures y[k] * ColumnStd(t, j, sqrt) == x[k] - Mean(x)
    {
      QuotientTimesDivisor(x[k] - Mean(x), ColumnStd(t, j, sqrt));
    }
  }

  // ---------------------------------------------------------------------------
  // Differential abundance

  /** What `scipy.stats.ttest_ind` returns: the t statistic and the two-sided p-value. */
  datatype TTest = TTest(statistic: real, pValue: real)

  /**
   One row of the result frame. A fold change, or its logarithm, that numpy
   would produce as an infinity or NaN (a zero group-1 mean, a logarithm of a
   non-positive ratio) is `None`.
   */
  datatype DifferentialRecord = DifferentialRecord(
    metabolite: string,
    pValue: real,
    tStatistic: real,
    foldChange: Option<real>,
    log2FoldChange: Option<real>,
    significant: bool,
    group1Mean: real,
    group2Mean: real)

  /** `mean2 / mean1` where it is a finite number. */
  function FoldChange(mean1: real, mean2: real): (r: Option<real>)
    ensures r.Some? <==> mean1 != 0.0
    ensures r.Some? ==> r.value * mean1 == mean2
  {
    if mean1 == 0.0 then None else Some(mean2 / mean1)
  }

  /** `log2(fold_change)` where it is a finite number. */
  function Log2FoldChange(fc: Option<real>, log2: real -> real): (r: Option<real>)
    ensures r.Some? <==> fc.Some? && fc.value > 0.0
    ensures r.Some? ==> r.value == log2(fc.value)
  {
    if fc.Some? && fc.value > 0.0 then Some(log2(fc.value)) else None
  }

  /** The statistics of row `i`, comparing the samples at positions `idx1` with those at `idx2`. */
  function DifferentialRecordFor(t: AbundanceTable, i: nat, idx1: seq<nat>, idx2: seq<nat>,
                                 threshold: real, ttest: (seq<real>, seq<real>) -> TTest,
                                 log2: real -> real): (r: DifferentialRecord)
    requires t.Valid() && i < |t.rows| && |idx1| > 0 && |idx2| > 0
    requires forall k :: 0 <= k < |idx1| ==> idx1[k] < |t.columns|
    requires forall k :: 0 <= k < |idx2| ==> idx2[k] < |t.columns|
    ensures r.metabolite == t.rows[i]
    ensures r.pValue == ttest(Select(t.values[i], idx1), Select(t.values[i], idx2)).pValue
    ensures r.tStatistic == ttest(Select(t.values[i], idx1), Select(t.values[i], idx2)).statistic
    ensures r.group1Mean * (|idx1| as real) == Sum(Select(t.values[i], idx1))
    ensures r.group2Mean * (|idx2| as real) == Sum(Select(t.values[i], idx2))
    ensures r.significant <==> r.pValue < threshold
    ensures r.foldChange.Some? <==> r.group1Mean != 0.0
    ensures r.foldChange.Some? ==> r.foldChange.value * r.group1Mean == r.group2Mean
    ensures r.log2FoldChange.Some? <==> r.foldChange.Some? && r.foldChange.value > 0.0
    ensures r.log2FoldChange.Some? ==> r.log2FoldChange.value == log2(r.foldChange.value)
  {
    var g1, g2 := Select(t.values[i], idx1), Select(t.values[i], idx2);
    var test := ttest(g1, g2);
    var m1, m2 := Mean(g1), Mean(g2);
    var fc := FoldChange(m1, m2);
    DifferentialRecord(t.rows[i], test.pValue, test.statistic, fc, Log2FoldChange(fc, log2),
                       test.pValue < threshold, m1, m2)
  }

  /** Under the default threshold a row is significant exactly when its p-value is below 0.05. */
  lemma DefaultThresholdSignificance(t: AbundanceTable, i: nat, idx1: seq<nat>, idx2: seq<nat>,
                                     ttest: (seq<real>, seq<real>) -> TTest, log2: real -> real)
    requires t.Valid() && i < |t.rows| && |idx1| > 0 && |idx2| > 0
    requires forall k :: 0 <= k < |idx1| ==> idx1[k] < |t.columns|
    requires forall k :: 0 <= k < |idx2| ==> idx2[k] < |t.columns|
    ensures DifferentialRecordFor(t, i, idx1, idx2, DefaultThreshold, ttest, log2).significant <==>
            ttest(Select(t.values[i], idx1), Select(t.values[i], idx2)).pValue < 0.05
  {
  }

  /**
   The record of row `i`: the two sample groups are looked up, group 1 first,
   and the first sample name missing from the table is the error.
   */
  method RowRecord(t: AbundanceTable, i: nat, group1: seq<string>, group2: seq<string>,
                   threshold: real, ttest: (seq<real>, seq<real>) -> TTest, log2: real -> real)
    returns (r: Result<DifferentialRecord>)
    requires t.Valid() && i < |t.rows| && |group1| > 0 && |group2| > 0
    ensures r.Err? <==> Resolve(t.columns, group1).Err? || Resolve(t.columns, group2).Err?
    ensures r.Err? ==> r.error == (if Resolve(t.columns, group1).Err? then Resolve(t.columns, group1).error
                                   else Resolve(t.columns, group2).error)
    ensures r.Ok? ==> r.value == DifferentialRecordFor(t, i, Resolve(t.columns, group1).value,
                                                       Resolve(t.columns, group2).value, threshold, ttest, log2)
  {
    var idx1 := Resolve(t.columns, group1);
    if idx1.Err? {
      return Err(idx1.error);
    }
    var idx2 := Resolve(t.columns, group2);
    if idx2.Err? {
      return Err(idx2.error);
    }
    return Ok(DifferentialRecordFor(t, i, idx1.value, idx2.value, threshold, ttest, log2));
  }

  /** The records of the first `n` rows, for groups already resolved to positions. */
  function DifferentialRecords(t: AbundanceTable, idx1: seq<nat>, idx2: seq<nat>, threshold: real,
                               ttest: (seq<real>, seq<real>) -> TTest, log2: real -> real, n: nat): (r: seq<DifferentialRecord>)
    requires t.Valid() && n <= |t.rows| && |idx1| > 0 && |idx2| > 0
    requires forall k :: 0 <= k < |idx1| ==> idx1[k] < |t.columns|
    requires forall k :: 0 <= k < |idx2| ==> idx2[k] < |t.columns|
    ensures |r| == n
  {
    if n == 0 then []
    else DifferentialRecords(t, idx1, idx2, threshold, ttest, log2, n - 1) +
         [DifferentialRecordFor(t, n - 1, idx1, idx2, threshold, ttest, log2)]
  }

  /** Entry `i` of the records is the record of row `i`. */
  lemma {:induction false} DifferentialRecordsEntries(t: AbundanceTable, idx1: seq<nat>, idx2: seq<nat>, threshold: real,
                                                      ttest: (seq<real>, seq<real>) -> TTest, log2: real -> real, n: nat)
    requires t.Valid() && n <= |t.rows| && |idx1| > 0 && |idx2| > 0
    requires forall k :: 0 <= k < |idx1| ==> idx1[k] < |t.columns|
    requires forall k :: 0 <= k < |idx2| ==> idx2[k] < |t.columns|
    ensures forall i :: 0 <= i < n ==>
      DifferentialRecords(t, idx1, idx2, threshold, ttest, log2, n)[i] ==
      DifferentialRecordFor(t, i, idx1, idx2, threshold, ttest, log2)
  {
    if n > 0 {
      DifferentialRecordsEntries(t, idx1, idx2, threshold, ttest, log2, n - 1);
    }
  }

  /**
   One record per metabolite, in row order. The two sample groups are looked up
   for each row in turn, so a sample name missing from the table fails only
   when the table has at least one metabolite.
   */
  method FindDifferentialMetabolites(t: AbundanceTable, group1: seq<string>, group2: seq<string>,
                                     threshold: real, ttest: (seq<real>, seq<real>) -> TTest,
                                     log2: real -> real)
    returns (r: Result<seq<DifferentialRecord>>)
    requires t.Valid() && Distinct(t.rows) && Distinct(t.columns)
    requires |t.rows| > 0 ==> |group1| > 0 && |group2| > 0
    ensures r.Err? <==> |t.rows| > 0 && (Resolve(t.columns, group1).Err? || Resolve(t.columns, group2).Err?)
    ensures r.Err? ==> r.error == (if Resolve(t.columns, group1).Err? then Resolve(t.columns, group1).error
                                   else Resolve(t.columns, group2).error)
    ensures r.Ok? ==> |r.value| == |t.rows|
    ensures r.Ok? ==> forall i :: 0 <= i < |t.rows| ==>
      Resolve(t.columns, group1).Ok? && Resolve(t.columns, group2).Ok? &&
      r.value[i] == DifferentialRecordFor(t, i, Resolve(t.columns, group1).value,
                                          Resolve(t.columns, group2).value, threshold, ttest, log2)
  {
    var records: seq<DifferentialRecord> := [];
    for i := 0 to |t.rows|
      invariant |records| == i
      invariant i > 0 ==>
        Resolve(t.columns, group1).Ok? && Resolve(t.columns, group2).Ok? &&
        records == DifferentialRecords(t, Resolve(t.columns, group1).value, Resolve(t.columns, group2).value,
                                       threshold, ttest, log2, i)
    {
      var record := RowRecord(t, i, group1, group2, threshold, ttest, log2);
      if record.Err? {
        return Err(record.error);
      }
      records := records + [record.value];
    }
    if |t.rows| > 0 {
      DifferentialRecordsEntries(t, Resolve(t.columns, group1).value, Resolve(t.columns, group2).value,
                                 threshold, ttest, log2, |t.rows|);
    }
    return Ok(records);
  }

  /** Swapping the two groups swaps the means and inverts the fold change. */
  lemma {:induction false} SwapGroups(t: AbundanceTable, i: nat, idx1: seq<nat>, idx2: seq<nat>,
                                      threshold: real, ttest: (seq<real>, seq<real>) -> TTest,
                                      log2: real -> real)
    requires t.Valid() && i < |t.rows| && |idx1| > 0 && |idx2| > 0
    requires forall k :: 0 <= k < |idx1| ==> idx1[k] < |t.columns|
    requires forall k :: 0 <= k < |idx2| ==> idx2[k] < |t.columns|
    ensures var a, b := DifferentialRecordFor(t, i, idx1, idx2, threshold, ttest, log2),
                        DifferentialRecordFor(t, i, idx2, idx1, threshold, ttest, log2);
      a.group1Mean == b.group2Mean && a.group2Mean == b.group1Mean &&
      (a.foldChange.Some? && b.foldChange.Some? ==> a.foldChange.value * b.foldChange.value == 1.0)
  {
    var a := DifferentialRecordFor(t, i, idx1, idx2, threshold, ttest, log2);
    if a.foldChange.Some? && a.group2Mean != 0.0 {
      Reciprocal(a.group1Mean, a.group2Mean);
    }
  }

  /**
   With a `log2` that turns reciprocals into negatives, as the base-2 logarithm
   does, swapping the groups negates a finite log fold change.
   */
  lemma {:induction false} SwapGroupsLog2(t: AbundanceTable, i: nat, idx1: seq<nat>, idx2: seq<nat>,
                                          threshold: real, ttest: (seq<real>, seq<real>) -> TTest,
                                          log2: real -> real)
    requires t.Valid() && i < |t.rows| && |idx1| > 0 && |idx2| > 0
    requires forall k :: 0 <= k < |idx1| ==> idx1[k] < |t.columns|
    requires forall k :: 0 <= k < |idx2| ==> idx2[k] < |t.columns|
    requires forall x :: x > 0.0 ==> log2(1.0 / x) == -log2(x)
    ensures var a, b := DifferentialRecordFor(t, i, idx1, idx2, threshold, ttest, log2),
                        DifferentialRecordFor(t, i, idx2, idx1, threshold, ttest, log2);
      a.log2FoldChange.Some? <==> b.log2FoldChange.Some?
    ensures var a, b := DifferentialRecordFor(t, i, idx1, idx2, threshold, ttest, log2),
                        DifferentialRecordFor(t, i, idx2, idx1, threshold, ttest, log2);
      a.log2FoldChange.Some? ==> b.log2FoldChange.value == -a.log2FoldChange.value
  {
    var a := DifferentialRecordFor(t, i, idx1, idx2, threshold, ttest, log2);
    var b := DifferentialRecordFor(t, i, idx2, idx1, threshold, ttest, log2);
    if a.log2FoldChange.Some? {
      ReciprocalPositive(a.group1Mean, a.group2Mean);
      Reciprocal(a.group1Mean, a.group2Mean);
    }
    if b.log2FoldChange.Some? {
      ReciprocalPositive(b.group1Mean, b.group2Mean);
    }
  }

  /**
   With a t-test whose p-value does not depend on the order of the two groups,
   as the two-sided Student test's does not, swapping the groups leaves the
   significance call unchanged.
   */
  lemma {:induction false} SwapGroupsSignificance(t: AbundanceTable, i: nat, idx1: seq<nat>, idx2: seq<nat>,
                                                  threshold: real, ttest: (seq<real>, seq<real>) -> TTest,
                                                  log2: real -> real)
    requires t.Valid() && i < |t.rows| && |idx1| > 0 && |idx2| > 0
    requires forall k :: 0 <= k < |idx1| ==> idx1[k] < |t.columns|
    requires forall k :: 0 <= k < |idx2| ==> idx2[k] < |t.columns|
    requires forall g, h :: ttest(g, h).pValue == ttest(h, g).pValue
    ensures DifferentialRecordFor(t, i, idx1, idx2, threshold, ttest, log2).significant ==
            DifferentialRecordFor(t, i, idx2, idx1, threshold, ttest, log2).significant
  {
    var g1, g2 := Select(t.values[i], idx1), Select(t.values[i], idx2);
    assert ttest(g1, g2).pValue == ttest(g2, g1).pValue;
  }

  /** A metabolite whose two groups have the same non-zero mean has fold change 1. */
  lemma {:induction false} EqualMeansFoldChangeOne(t: AbundanceTable, i: nat, idx1: seq<nat>, idx2: seq<nat>,
                                                   threshold: real, ttest: (seq<real>, seq<real>) -> TTest,
                                                   log2: real -> real)
    requires t.Valid() && i < |t.rows| && |idx1| > 0 && |idx2| > 0
    requires forall k :: 0 <= k < |idx1| ==> idx1[k] < |t.columns|
    requires forall k :: 0 <= k < |idx2| ==> idx2[k] < |t.columns|
    requires Mean(Select(t.values[i], idx1)) == Mean(Select(t.values[i], idx2)) != 0.0
    ensures DifferentialRecordFor(t, i, idx1, idx2, threshold, ttest, log2).foldChange == Some(1.0)
    ensures DifferentialRecordFor(t, i, idx1, idx2, threshold, ttest, log2).log2FoldChange == Some(log2(1.0))
  {
  }
}
