/**
 The shared data model: an abundance table whose rows are entities (taxa or
 metabolites) and whose columns are samples, the errors the analyses raise,
 and label lookups on the column index.
 */
module Tables {

  datatype Option<+T> = None | Some(value: T)

  /** The exceptions the analyses raise. */
  datatype AnalysisError =
    | UnknownDiversityMethod(name: string)       // ValueError in calculate_diversity
    | UnknownNormalizationMethod(name: string)   // ValueError in normalize_data
    | MissingSample(id: string)                  // KeyError from a label lookup

  datatype Result<+T> = Ok(value: T) | Err(error: AnalysisError)

  /** A labelled matrix: `values[i][j]` is the abundance of entity `rows[i]` in sample `columns[j]`. */
  datatype AbundanceTable = AbundanceTable(rows: seq<string>, columns: seq<string>, values: seq<seq<real>>)
  {
    /** Rectangular: one value row per entity, one value per sample in each. */
    predicate Valid()
    {
      |values| == |rows| &&
      forall i :: 0 <= i < |values| ==> |values[i]| == |columns|
    }

    predicate SameShape(other: AbundanceTable)
    {
      rows == other.rows && columns == other.columns && |values| == |other.values| &&
      forall i :: 0 <= i < |values| ==> |values[i]| == |other.values[i]|
    }
  }

  predicate Distinct<T(==)>(s: seq<T>)
  {
    forall i, j :: 0 <= i < j < |s| ==> s[i] != s[j]
  }

  /** A sequence without repeats has as many distinct elements as entries. */
  lemma {:induction false} DistinctCount<T>(s: seq<T>)
    requires Distinct(s)
    ensures |set x | x in s| == |s|
  {
    if |s| > 0 {
      var n := |s| - 1;
      DistinctCount(s[..n]);
      assert (set x | x in s) == (set x | x in s[..n]) + {s[n]};
      assert s[n] !in s[..n];
    }
  }

  /** The values of sample column `j`, in row order (`data[sample].values`). */
  function Column(t: AbundanceTable, j: nat): (r: seq<real>)
    requires t.Valid() && j < |t.columns|
    ensures |r| == |t.rows|
    ensures forall i :: 0 <= i < |r| ==> r[i] == t.values[i][j]
  {
    seq(|t.rows|, i requires 0 <= i < |t.rows| => t.values[i][j])
  }

  /** Position of the first occurrence of `x` in `s`, if any. */
  function IndexOf(s: seq<string>, x: string): (r: Option<nat>)
    ensures r.None? <==> x !in s
    ensures r.Some? ==> r.value < |s| && s[r.value] == x && x !in s[..r.value]
  {
    if |s| == 0 then None
    else if s[0] == x then Some(0)
    else match IndexOf(s[1..], x)
      case None => None
      case Some(k) => Some(k + 1)
  }

  /**
   Label selection `.loc[row, ids]`: the column position of every id, in the order
   the ids are given; the first id that is not a column makes the lookup fail.
   */
  function Resolve(columns: seq<string>, ids: seq<string>): (r: Result<seq<nat>>)
    ensures r.Err? <==> exists k :: 0 <= k < |ids| && ids[k] !in columns
    ensures r.Err? ==> r.error.MissingSample? && r.error.id in ids && r.error.id !in columns
    ensures r.Err? ==> exists k :: 0 <= k < |ids| && ids[k] !in columns && r.error == MissingSample(ids[k]) &&
                                   forall l :: 0 <= l < k ==> ids[l] in columns
    ensures r.Ok? ==> |r.value| == |ids|
    ensures r.Ok? ==> forall k :: 0 <= k < |ids| ==> r.value[k] < |columns| && columns[r.value[k]] == ids[k]
  {
    if |ids| == 0 then Ok([])
    else
      match IndexOf(columns, ids[0])
      case None => Err(MissingSample(ids[0]))
      case Some(j) =>
        match Resolve(columns, ids[1..])
        case Err(e) => Err(e)
        case Ok(rest) => Ok([j] + rest)
  }

  /** The entries of `row` at the positions `idx`, in that order. */
  function Select(row: seq<real>, idx: seq<nat>): (r: seq<real>)
    requires forall k :: 0 <= k < |idx| ==> idx[k] < |row|
    ensures |r| == |idx|
    ensures forall k {:trigger r[k]} :: 0 <= k < |r| ==> r[k] == row[idx[k]]
  {
    seq(|idx|, k requires 0 <= k < |idx| => row[idx[k]])
  }
}
