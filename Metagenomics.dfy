/**
 Alpha diversity of the samples of a taxonomic abundance table
 (`MetagenomicsAnalyzer.calculate_diversity`). Each sample is a column; the
 taxa with a zero (or negative) abundance are dropped before the index is
 computed. The natural logarithm is a parameter `ln`.
 */
module Metagenomics {
  import opened Tables
  import opened Stats

  datatype DiversityMetric = Shannon | Simpson | Richness

  /** The method `calculate_diversity` uses when none is given. */
  const DefaultDiversityMethod: string := "shannon"

  /** The method name that selects each metric. */
  function MetricName(m: DiversityMetric): string
  {
    match m
    case Shannon => "shannon"
    case Simpson => "simpson"
    case Richness => "richness"
  }

  /** The metric a method name selects; every other name is unknown. */
  function ParseDiversityMetric(name: string): (r: Option<DiversityMetric>)
    ensures r.None? <==> name !in {"shannon", "simpson", "richness"}
    ensures r.Some? ==> MetricName(r.value) == name
  {
    if name == "shannon" then Some(Shannon)
    else if name == "simpson" then Some(Simpson)
    else if name == "richness" then Some(Richness)
    else None
  }

  /** Every metric is selected by its own name. */
  lemma MetricNameRoundTrip(m: DiversityMetric)
    ensures ParseDiversityMetric(MetricName(m)) == Some(m)
  {
    match m
    case Shannon =>
    case Simpson =>
    case Richness =>
  }

  /** The default method name is recognised, as Shannon. */
  lemma DefaultDiversityMethodRecognised()
    ensures ParseDiversityMetric(DefaultDiversityMethod) == Some(Shannon)
  {
  }

  /**
   `abundances / abundances.sum()` over the present taxa. With no taxon present
   the array is empty and so are its proportions.
   */
  function SampleProportions(present: seq<real>): (p: seq<real>)
    requires AllPositive(present)
    ensures |p| == |present|
    ensures |present| > 0 ==> Sum(p) == 1.0
    ensures |present| > 0 ==> forall k :: 0 <= k < |p| ==> p[k] * Sum(present) == present[k]
  {
    if |present| == 0 then []
    else
      SumPositive(present);
      ProportionsSumToOne(present);
      ProportionsScaled(present);
      Proportions(present)
  }

  /** `p * log(p)`, entry by entry. */
  function EntropyTerms(p: seq<real>, ln: real -> real): (r: seq<real>)
    ensures |r| == |p|
    ensures forall k :: 0 <= k < |p| && p[k] > 0.0 && ln(p[k]) <= 0.0 ==> r[k] <= 0.0
  {
    seq(|p|, k requires 0 <= k < |p| => p[k] * ln(p[k]))
  }

  /** Shannon index `-Σ p ln p` of the present taxa. */
  function ShannonIndex(present: seq<real>, ln: real -> real): (r: real)
    requires AllPositive(present)
    ensures |present| == 0 ==> r == 0.0
  {
    -Sum(EntropyTerms(SampleProportions(present), ln))
  }

  /** Simpson index `1 - Σ p²` of the present taxa. */
  function SimpsonIndex(present: seq<real>): (r: real)
    requires AllPositive(present)
    ensures r <= 1.0
    ensures |present| == 0 ==> r == 1.0
  {
    SumOfSquaresNonNegative(SampleProportions(present));
    1.0 - SumOfSquares(SampleProportions(present))
  }

  /**
   The score of one sample column under `metric`. A column with no present taxon
   scores 0 under Shannon and richness and 1 under Simpson.
   */
  function SampleDiversity(metric: DiversityMetric, column: seq<real>, ln: real -> real): (r: real)
    ensures metric == Richness ==> 0.0 <= r <= |column| as real
    ensures metric == Simpson ==> r <= 1.0
    ensures |Positives(column)| == 0 ==> r == (if metric == Simpson then 1.0 else 0.0)
  {
    var present := Positives(column);
    match metric
    case Shannon => ShannonIndex(present, ln)
    case Simpson => SimpsonIndex(present)
    case Richness => |present| as real
  }

  /**
   The score of sample `j`: the method name is looked up first, and an
   unknown name is the error.
   */
  method SampleScore(t: AbundanceTable, j: nat, name: string, ln: real -> real) returns (r: Result<real>)
    requires t.Valid() && j < |t.columns|
    ensures r.Err? <==> ParseDiversityMetric(name).None?
    ensures r.Err? ==> r.error == UnknownDiversityMethod(name)
    ensures r.Ok? ==> r.value == SampleDiversity(ParseDiversityMetric(name).value, Column(t, j), ln)
  {
    var metric := ParseDiversityMetric(name);
    if metric.None? {
      return Err(UnknownDiversityMethod(name));
    }
    return Ok(SampleDiversity(metric.value, Column(t, j), ln));
  }

  /**
   One score per sample, keyed by the sample's name. The method name is checked
   for each sample in turn, so an unknown name fails only when the table has at
   least one sample; a table with no samples yields an empty map whatever the name.
   */
  method CalculateDiversity(t: AbundanceTable, name: string, ln: real -> real)
    returns (r: Result<map<string, real>>)
    requires t.Valid() && Distinct(t.columns)
    ensures r.Err? <==> |t.columns| > 0 && ParseDiversityMetric(name).None?
    ensures r.Err? ==> r.error == UnknownDiversityMethod(name)
    ensures r.Ok? ==> r.value.Keys == set c | c in t.columns
    ensures r.Ok? ==> |r.value| == |t.columns|
    ensures r.Ok? ==> forall j :: 0 <= j < |t.columns| ==>
      ParseDiversityMetric(name).Some? &&
      r.value[t.columns[j]] == SampleDiversity(ParseDiversityMetric(name).value, Column(t, j), ln)
  {
    var scores: map<string, real> := map[];
    for j := 0 to |t.columns|
      invariant scores.Keys == set c | c in t.columns[..j]
      invariant j > 0 ==> ParseDiversityMetric(name).Some?
      invariant forall k :: 0 <= k < j ==>
        t.columns[k] in scores &&
        scores[t.columns[k]] == SampleDiversity(ParseDiversityMetric(name).value, Column(t, k), ln)
    {
      var score := SampleScore(t, j, name, ln);
      if score.Err? {
        return Err(score.error);
      }
      assert t.columns[..j + 1] == t.columns[..j] + [t.columns[j]];
      assert forall k :: 0 <= k < j ==> t.columns[k] != t.columns[j];
      scores := scores[t.columns[j] := score.value];
    }
    assert t.columns[..|t.columns|] == t.columns;
    DistinctCount(t.columns);
    return Ok(scores);
  }

  /** Richness is the number of taxa with a positive abundance in the sample. */
  lemma {:induction false} RichnessCountsPresentTaxa(column: seq<real>, ln: real -> real)
    ensures SampleDiversity(Richness, column, ln) == |PositiveIndices(column)| as real
  {
    PositivesCount(column);
  }

  /** A sample column holding 5, 0, 3, 0 and 1 has richness 3. */
  lemma {:induction false} RichnessExample(ln: real -> real)
    ensures SampleDiversity(Richness, [5.0, 0.0, 3.0, 0.0, 1.0], ln) == 3.0
  {
    var s := [5.0, 0.0, 3.0, 0.0, 1.0];
    assert s[..4] == [5.0, 0.0, 3.0, 0.0] && s[..4][..3] == [5.0, 0.0, 3.0];
    assert s[..4][..3][..2] == [5.0, 0.0] && s[..4][..3][..2][..1] == [5.0];
    assert s[..4][..3][..2][..1][..0] == [];
    assert Positives([5.0]) == [5.0];
    assert Positives([5.0, 0.0]) == [5.0];
    assert Positives([5.0, 0.0, 3.0]) == [5.0, 3.0];
    assert Positives([5.0, 0.0, 3.0, 0.0]) == [5.0, 3.0];
    assert Positives(s) == [5.0, 3.0, 1.0];
  }

  /** Inserting an absent taxon (abundance at most 0) anywhere changes no score. */
  lemma {:induction false} AbsentTaxonIgnored(a: seq<real>, x: real, b: seq<real>, metric: DiversityMetric, ln: real -> real)
    requires x <= 0.0
    ensures Positives(a + [x] + b) == Positives(a + b)
    ensures SampleDiversity(metric, a + [x] + b, ln) == SampleDiversity(metric, a + b, ln)
  {
    PositivesAppend(a + [x], b);
    PositivesAppend(a, [x]);
    PositivesAppend(a, b);
    assert Positives([x]) == Positives([]) by {
      assert [x][..0] == [];
    }
  }

  /** The proportions of a sample with a present taxon lie in (0, 1] and add up to 1. */
  lemma {:induction false} SampleProportionsSumToOne(present: seq<real>)
    requires AllPositive(present) && |present| > 0
    ensures Sum(SampleProportions(present)) == 1.0
    ensures forall k :: 0 <= k < |present| ==> 0.0 < SampleProportions(present)[k] <= 1.0
    ensures |present| >= 2 ==> forall k :: 0 <= k < |present| ==> SampleProportions(present)[k] < 1.0
  {
    ProportionsInUnitInterval(present);
    ProportionsSumToOne(present);
  }

  /**
   The Simpson index lies in [0, 1]. It is 1 exactly when no taxon is present
   (the sum over an empty array is 0) and 0 exactly when a single taxon is present.
   */
  lemma {:induction false} SimpsonRange(column: seq<real>, ln: real -> real)
    ensures 0.0 <= SampleDiversity(Simpson, column, ln) <= 1.0
    ensures SampleDiversity(Simpson, column, ln) == 1.0 <==> |Positives(column)| == 0
    ensures SampleDiversity(Simpson, column, ln) == 0.0 <==> |Positives(column)| == 1
  {
    var present := Positives(column);
    if |present| > 0 {
      var p := SampleProportions(present);
      SampleProportionsSumToOne(present);
      SquaresAtMostSum(p);
      UnitSumSquares(p);
      if |present| == 1 {
        assert p == [p[0]];
        assert p[0] == 1.0 by {
          assert Sum(p) == Sum(p[..0]) + p[0];
        }
        assert SumOfSquares(p) == SumOfSquares(p[..0]) + p[0] * p[0];
      }
    }
  }

  /**
   With `n` taxa present the Simpson index is at most `1 - 1/n`, and it reaches
   that bound when the present taxa are equally abundant.
   */
  lemma {:induction false} SimpsonEvennessBound(column: seq<real>, ln: real -> real)
    requires |Positives(column)| > 0
    ensures SampleDiversity(Simpson, column, ln) <= 1.0 - 1.0 / (|Positives(column)| as real)
    ensures (forall k :: 0 <= k < |Positives(column)| ==> Positives(column)[k] == Positives(column)[0]) ==>
      SampleDiversity(Simpson, column, ln) == 1.0 - 1.0 / (|Positives(column)| as real)
  {
    var present := Positives(column);
    SquaresOfProportionsAtLeast(present);
    if forall k :: 0 <= k < |present| ==> present[k] == present[0] {
      SquaresOfEvenProportions(present);
    }
  }

  lemma {:induction false} SquaresOfProportionsAtLeast(present: seq<real>)
    requires AllPositive(present) && |present| > 0
    ensures SumOfSquares(SampleProportions(present)) >= 1.0 / (|present| as real)
  {
    var p := SampleProportions(present);
    SampleProportionsSumToOne(present);
    UnitSumSquares(p);
    ReciprocalAtMost(|present| as real, SumOfSquares(p));
  }

  lemma {:induction false} SquaresOfEvenProportions(present: seq<real>)
    requires AllPositive(present) && |present| > 0
    requires forall k :: 0 <= k < |present| ==> present[k] == present[0]
    ensures SumOfSquares(SampleProportions(present)) == 1.0 / (|present| as real)
  {
    var p := SampleProportions(present);
    var n := |present| as real;
    var c := present[0];
    SumConstant(present, c);
    forall k | 0 <= k < |p|
      ensures p[k] == 1.0 / n
    {
      EvenShare(p[k], Sum(present), c, n);
    }
    SumOfSquaresConstant(p, 1.0 / n);
    EvenSquares(n);
  }

  /** With `ln(1) = 0`, a sample with at most one present taxon has Shannon index 0. */
  lemma {:induction false} ShannonSingleTaxon(column: seq<real>, ln: real -> real)
    requires ln(1.0) == 0.0
    requires |Positives(column)| <= 1
    ensures SampleDiversity(Shannon, column, ln) == 0.0
  {
    var present := Positives(column);
    if |present| == 1 {
      ShannonOfOneTaxon(present, ln);
    }
  }

  /** The single present taxon has proportion 1, whose entropy term `1 * ln(1)` is zero. */
  lemma {:induction false} ShannonOfOneTaxon(present: seq<real>, ln: real -> real)
    requires AllPositive(present) && |present| == 1 && ln(1.0) == 0.0
    ensures ShannonIndex(present, ln) == 0.0
  {
    var p := SampleProportions(present);
    assert p[0] == 1.0 by {
      assert Sum(p) == Sum(p[..0]) + p[0];
    }
    var terms := EntropyTerms(p, ln);
    assert terms[0] == 0.0;
    assert Sum(terms) == Sum(terms[..0]) + terms[0];
  }

  /** When `ln` is non-positive on (0, 1], as the natural logarithm is, the Shannon index is non-negative. */
  lemma {:induction false} ShannonNonNegative(column: seq<real>, ln: real -> real)
    requires forall x :: 0.0 < x <= 1.0 ==> ln(x) <= 0.0
    ensures SampleDiversity(Shannon, column, ln) >= 0.0
  {
    var present := Positives(column);
    var p := SampleProportions(present);
    var terms := EntropyTerms(p, ln);
    if |present| > 0 {
      SampleProportionsSumToOne(present);
      forall k | 0 <= k < |terms|
        ensures terms[k] <= 0.0
      {
        ProductNonPositive(p[k], ln(p[k]));
      }
    }
    SumNonPositive(terms);
  }
}
