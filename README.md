# Basic bioinformatics analysis, modelled in Dafny

This project models the numeric core of `examples/basic_analysis.py`. It covers two analyzers over a labelled abundance
table. In the table, rows are taxa or metabolites, columns are samples, and `values[i][j]` is the abundance of row `i`
in sample `j`.

- **Alpha diversity** (`MetagenomicsAnalyzer.calculate_diversity`) gives one score per sample. Before scoring, the
  model drops every entry that is not strictly positive. It then computes one of:
  - the Shannon index `-Σ p ln p`;
  - the Simpson index `1 - Σ p²`;
  - the richness (the number of taxa present).

  Here `p` is an abundance divided by the sample's total. The method name is checked once per sample, inside the loop
  over samples. So an unknown name is an error only when the table has a sample; a table without samples gives an
  empty map.
- **Normalization** (`MetabolomicsAnalyzer.normalize_data`) is one of `log2(x + 1)`, the z-score or min-max scaling.
  The z-score and min-max scaling use the mean, sample standard deviation, minimum and maximum of each sample column,
  because pandas reduces a `DataFrame` down its columns by default. An unknown method name is always an error.
- **Differential abundance** (`MetabolomicsAnalyzer.find_differential_metabolites`) produces one record per
  metabolite, in row order. Each record holds:
  - the group means;
  - the two-sample t-test's statistic and p-value;
  - the fold change `mean2 / mean1` and its base-2 logarithm;
  - the flag `p < threshold`.

  The two sample groups are looked up for every row, group 1 first. A name that is not a sample is an error, but only
  when the table has a row.

Modules:

- `Tables` holds the table, the errors (`UnknownDiversityMethod`, `UnknownNormalizationMethod` and `MissingSample`, the
  last for pandas' `KeyError`), `Result` and label lookup.
- `Stats` holds the reductions (sum, mean, sample variance with `n - 1`, min, max, the positive filter, proportions)
  and the arithmetic facts about them.
- `Metagenomics` holds calculate_diversity.
- `Metabolomics` holds normalize_data and find_differential_metabolites.

`real` stands in for floating point. Functions with no exact counterpart over the reals are parameters of the
operations:

- the natural logarithm `ln` and the base-2 logarithm `log2`;
- the square root `sqrt`;
- `scipy.stats.ttest_ind`, as `ttest`.

A lemma that needs a fact about one of these takes that fact as a precondition, for example `ln(1) = 0` or
`sqrt(v) * sqrt(v) = v`.

The model follows the code at two edge cases:

- A sample with no present taxon is not an error. The empty array divided by its zero total is still empty, and a sum
  over it is 0. So its Shannon index is 0, its Simpson index is 1 and its richness is 0.
- Normalization works per sample column, as pandas' column-wise `min`, `max`, `mean` and `std` do, not per row.

## Model

| member | source | states |
|---|---|---|
| `Tables.Resolve` | examples/basic_analysis.py:196-197 | Looking up a list of sample names fails exactly when one of them is not a column. The error names the first missing sample, and every name before it is a column. Otherwise it gives, in the order of the list, the position of a column carrying each name. |
| `Tables.Select` | examples/basic_analysis.py:196-197 | The selected values are, in the order of the positions, the row's entries at those positions. |
| `Tables.Column` | examples/basic_analysis.py:55 | A sample column has one value per row, and its `i`-th value is row `i`'s entry in that sample. |
| `Tables.DistinctCount` | examples/basic_analysis.py:39 | A list of distinct sample names has as many different names as entries. |
| `Stats.Positives` | examples/basic_analysis.py:56 | The mask `a[a > 0]` keeps only strictly positive entries and never lengthens the array. |
| `Stats.PositivesMembers` | examples/basic_analysis.py:56 | A value is in the filtered array exactly when it is in the original and strictly positive. |
| `Stats.PositivesSingleton` | examples/basic_analysis.py:56 | A one-entry array keeps its entry exactly when the entry is strictly positive. |
| `Stats.PositivesCount` | examples/basic_analysis.py:56 | The filtered array has one entry per strictly positive position of the original. |
| `Stats.PositivesAppend` | examples/basic_analysis.py:56 | Filtering a concatenation is concatenating the filtered parts. Together with `Stats.PositivesSingleton` this fixes the filter's contents and their order. |
| `Stats.ProportionsSumToOne` | examples/basic_analysis.py:60 | Abundances divided by a non-zero total add up to 1. |
| `Stats.ProportionsScaled` | examples/basic_analysis.py:60 | Each proportion times the total is the abundance it came from. |
| `Stats.ProportionsInUnitInterval` | examples/basic_analysis.py:60 | Each proportion of positive abundances lies in (0, 1], and is strictly below 1 when there are two or more abundances. |
| `Stats.UnitSumSquares` | examples/basic_analysis.py:65 | Proportions that add up to 1 have `Σ p² ≥ 1/n`, which is positive (Cauchy-Schwarz). |
| `Stats.SquaresAtMostSum` | examples/basic_analysis.py:65 | For values in [0, 1], `Σ p² ≤ Σ p`, strictly when every value is strictly between 0 and 1. |
| `Stats.Min` | examples/basic_analysis.py:169 | The column minimum is an entry of the column and no larger than any entry. |
| `Stats.Max` | examples/basic_analysis.py:169 | The column maximum is an entry of the column and no smaller than any entry. |
| `Stats.Mean` | examples/basic_analysis.py:203 | The mean of a non-empty array times its length is its sum. |
| `Stats.MeanBetweenExtremes` | examples/basic_analysis.py:216-217 | The mean of a non-empty array lies between its smallest and its largest entry. |
| `Stats.SampleVariance` | examples/basic_analysis.py:166 | The variance behind `std()` (with `n - 1`) is non-negative, and `n - 1` times it is the squared deviation from the mean. |
| `Stats.CenteredSumZero` | examples/basic_analysis.py:166 | Values centred on their mean and divided by a non-zero scale sum, and average, to 0. |
| `Metagenomics.ParseDiversityMetric` | examples/basic_analysis.py:58-70 | Exactly the names "shannon", "simpson" and "richness" are recognised, each as the metric of that name. |
| `Metagenomics.MetricNameRoundTrip` | examples/basic_analysis.py:58-68 | Each metric is selected by its own name. |
| `Metagenomics.DefaultDiversityMethodRecognised` | examples/basic_analysis.py:42 | The default method name "shannon" is recognised, as the Shannon index. |
| `Metagenomics.SampleProportions` | examples/basic_analysis.py:60-64 | There is one proportion per present taxon. With a taxon present they add up to 1, and each one times the sample's total is that taxon's abundance. |
| `Metagenomics.EntropyTerms` | examples/basic_analysis.py:61 | There is one term `p ln p` per proportion, and it is non-positive wherever `p > 0` and `ln p <= 0`. |
| `Metagenomics.ShannonIndex` | examples/basic_analysis.py:58-61 | With no taxon present the Shannon index is 0. |
| `Metagenomics.SimpsonIndex` | examples/basic_analysis.py:62-65 | The Simpson index is at most 1, and it is 1 with no taxon present. |
| `Metagenomics.SampleDiversity` | examples/basic_analysis.py:55-68 | A column's richness lies between 0 and the column's length, and its Simpson index is at most 1. A column with no positive entry scores 1 for Simpson and 0 for Shannon and richness. |
| `Metagenomics.SampleScore` | examples/basic_analysis.py:55-70 | One sample's score fails with the unknown-method error exactly when the name is unknown. Otherwise it is the sample column's diversity under the named metric. |
| `Metagenomics.CalculateDiversity` | examples/basic_analysis.py:52-74 | The call fails with the unknown-method error exactly when the name is unknown and there is a sample. Otherwise it returns one score per sample column, keyed by the column's name, and that score is the column's diversity. |
| `Metagenomics.RichnessCountsPresentTaxa` | examples/basic_analysis.py:66-68 | Richness is the number of strictly positive entries in the column. |
| `Metagenomics.RichnessExample` | examples/basic_analysis.py:66-68 | The column 5, 0, 3, 0, 1 has richness 3. |
| `Metagenomics.AbsentTaxonIgnored` | examples/basic_analysis.py:55-56 | Inserting a zero or negative abundance anywhere in a column changes no diversity score. |
| `Metagenomics.SampleProportionsSumToOne` | examples/basic_analysis.py:60-64 | With at least one taxon present, the proportions lie in (0, 1] and add up to 1. |
| `Metagenomics.SimpsonRange` | examples/basic_analysis.py:62-65 | The Simpson index lies in [0, 1]. It is 1 exactly when no taxon is present and 0 exactly when one taxon is present. |
| `Metagenomics.SimpsonEvennessBound` | examples/basic_analysis.py:62-65 | With `n` taxa present the Simpson index is at most `1 - 1/n`, with equality when the present taxa are equally abundant. |
| `Metagenomics.ShannonSingleTaxon` | examples/basic_analysis.py:58-61 | If `ln(1) = 0`, a sample with at most one present taxon has Shannon index 0. |
| `Metagenomics.ShannonOfOneTaxon` | examples/basic_analysis.py:60-61 | If `ln(1) = 0`, a single present taxon has proportion 1 and Shannon index 0. |
| `Metagenomics.ShannonNonNegative` | examples/basic_analysis.py:58-61 | If `ln` is non-positive on (0, 1], the Shannon index is non-negative. |
| `Metabolomics.ParseNormalization` | examples/basic_analysis.py:161-171 | Exactly the names "log2", "zscore" and "minmax" are recognised, each as the method of that name. |
| `Metabolomics.NormalizationNameRoundTrip` | examples/basic_analysis.py:161-169 | Each normalization is selected by its own name. |
| `Metabolomics.DefaultNormalizationRecognised` | examples/basic_analysis.py:151 | The default method name "log2" is recognised, as the log transform. |
| `Metabolomics.ColumnStd` | examples/basic_analysis.py:166 | If `sqrt` squares back to its argument, the square of a column's standard deviation is the column's sample variance. |
| `Metabolomics.Log2Transform` | examples/basic_analysis.py:163 | The log transform returns a rectangular table with the same labels and shape. |
| `Metabolomics.ZScoreTransform` | examples/basic_analysis.py:166 | The z-score returns a rectangular table with the same labels and shape. |
| `Metabolomics.MinMaxTransform` | examples/basic_analysis.py:169 | Min-max scaling returns a rectangular table with the same labels and shape. |
| `Metabolomics.Normalize` | examples/basic_analysis.py:151-173 | The call fails with the unknown-method error exactly when the name is unknown, whatever the table. Otherwise it returns a new table with the same labels and shape. That table is the log transform for "log2", the z-score for "zscore" and min-max scaling for "minmax". |
| `Metabolomics.Log2PreservesOrder` | examples/basic_analysis.py:163 | If `log2` is strictly increasing on the positive reals with `log2(1) = 0`, the transform keeps the order of any two entries above -1, and it maps 0 to 0. |
| `Metabolomics.Log2TransformRoundTrip` | examples/basic_analysis.py:163 | If `exp2` undoes `log2` on the positive reals, `exp2(v) - 1` gives back every entry above -1 from its transformed value `v`. |
| `Metabolomics.MinMaxRange` | examples/basic_analysis.py:169 | Every scaled entry lies in [0, 1]. It is 0 exactly at its column's minimum and 1 exactly at its column's maximum. |
| `Metabolomics.MinMaxPreservesOrder` | examples/basic_analysis.py:169 | Within a column, scaling keeps the order of the entries in both directions. |
| `Metabolomics.MinMaxColumnEnds` | examples/basic_analysis.py:169 | Each non-empty scaled column has minimum 0 and maximum 1. |
| `Metabolomics.MinMaxIdempotent` | examples/basic_analysis.py:169 | Scaling an already scaled table is defined and changes nothing. |
| `Metabolomics.ZScoreColumnScaled` | examples/basic_analysis.py:166 | Each z-score times the column's standard deviation is the entry's distance from the column mean. |
| `Metabolomics.ZScoreColumnMeanZero` | examples/basic_analysis.py:166 | Every z-scored column sums, and averages, to 0. |
| `Metabolomics.ZScoreColumnUnitVariance` | examples/basic_analysis.py:166 | If `sqrt` squares back to its argument, every z-scored column has sample variance 1. |
| `Metabolomics.FoldChange` | examples/basic_analysis.py:203 | The fold change is finite exactly when the group-1 mean is non-zero, and then it times the group-1 mean is the group-2 mean. |
| `Metabolomics.Log2FoldChange` | examples/basic_analysis.py:204 | The log fold change is finite exactly when the fold change is finite and positive, and then it is `log2` of the fold change. |
| `Metabolomics.DifferentialRecordFor` | examples/basic_analysis.py:194-218 | A record carries the row's metabolite. Its p-value and t statistic are those of the t-test on the row's values in group 1 and in group 2. Each group mean times the group's size is the total of the row's values in that group. `significant` holds exactly when `p < threshold`. The fold change is finite exactly when the group-1 mean is non-zero, and then it is the ratio of the means. The log fold change is finite exactly when the fold change is finite and positive, and then it is `log2` of the fold change. |
| `Metabolomics.DefaultThresholdSignificance` | examples/basic_analysis.py:178 | Under the default threshold 0.05, a row is significant exactly when its p-value is below 0.05. |
| `Metabolomics.RowRecord` | examples/basic_analysis.py:196-218 | One row's step fails exactly when a group names a non-sample, with group 1's error first. Otherwise it gives the row's record for the positions of the two groups. |
| `Metabolomics.DifferentialRecordsEntries` | examples/basic_analysis.py:194-218 | Entry `i` of those records is the record of row `i`. |
| `Metabolomics.FindDifferentialMetabolites` | examples/basic_analysis.py:192-220 | The call fails with the first missing sample name exactly when there is a row and a group names a non-sample, group 1 first. Otherwise it returns one record per row, in row order, each computed from the row's values in the two groups. |
| `Metabolomics.SwapGroups` | examples/basic_analysis.py:203 | Swapping the groups swaps the means, and two finite fold changes multiply to 1. |
| `Metabolomics.SwapGroupsLog2` | examples/basic_analysis.py:204 | If `log2(1/x) = -log2(x)`, swapping the groups keeps a log fold change finite exactly when it was, and negates it. |
| `Metabolomics.SwapGroupsSignificance` | examples/basic_analysis.py:200-207 | If the t-test's p-value ignores the order of the groups, swapping the groups leaves `significant` unchanged. |
| `Metabolomics.EqualMeansFoldChangeOne` | examples/basic_analysis.py:203-204 | Equal non-zero group means give fold change 1 and log fold change `log2(1)`. |

## Left out

- Plotting and styling are not modelled, because they only draw with matplotlib and seaborn. This covers `plot_abundance_heatmap`, `plot_diversity_comparison`, `plot_volcano_plot` and the style setup.
- Logging setup, `generate_sample_data` and `main` are not modelled: they are demonstration code, and the data generator draws random numbers.
- The constructors' stored fields are not modelled separately, because they are set once and never changed. The stored `metadata` is never read by the modelled operations.
- The logarithms, the square root and the t-test are parameters, so their numeric behaviour is not modelled. Lemmas that need one of their properties state it as a precondition.
- Floating point rounding, NaN and infinities are not modelled: values are exact reals.
- Metabolomics.ZScoreTransform: requires at least two rows (or none) and a non-zero standard deviation in every column. With one row pandas' `std` is NaN, and with a constant column every z-score is NaN.
- Metabolomics.MinMaxTransform: requires every non-empty column to have a maximum above its minimum. For a constant column the code yields NaN.
- Metabolomics.Normalize: inherits those two requirements for "zscore" and "minmax".
- Metabolomics.FindDifferentialMetabolites: requires both groups to be non-empty when the table has a row. The code gives NaN means and t-test results for an empty group. A table without rows gives an empty result whatever the groups.
- Metabolomics.FindDifferentialMetabolites: requires distinct row names and distinct sample names, because pandas returns several rows or columns for a repeated label.
- Metabolomics.FoldChange: infinite and NaN fold changes are both `None`, and so are their logarithms.
- Metabolomics.DifferentialRecordFor: the t-test's p-value is always a real number. For two constant groups, such as 10, 10 against 10, 10, `ttest_ind` returns a NaN p-value, and then `p_value < threshold` is False. The model leaves that case to the `ttest` parameter.
- Metabolomics.Log2PreservesOrder: covers only entries above -1. For an entry of -1 or less, `log2(x + 1)` is minus infinity or NaN.
- Metabolomics.FindDifferentialMetabolites: pandas' `KeyError` lists every missing label; the model reports the first one.
- Metagenomics.CalculateDiversity: requires distinct sample names. With a repeated label, `data[sample]` selects several columns, and the code then overwrites a map entry.
- Metagenomics.CalculateDiversity: richness is returned as a real rather than an integer.
- Metagenomics.CalculateDiversity: the result is a map, so it does not record the order in which the samples were inserted. A Python dict keeps that order, and `plot_diversity_comparison` relies on it when it lists the keys and the values (lines 122-123).
