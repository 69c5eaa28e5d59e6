/** One run of the dashboard's computation, from a raw score matrix and a
    number of departments to the department estimates: clip and round the
    marks, label every row, count the labels, turn the counts into shares of
    the roster, and estimate departments from the shares.
 */
module Analysis {
  import opened Rounding
  import opened Marks
  import opened Orientation
  import opened Roster
  import opened Departments

  /** Clips and rounds every raw mark of the matrix at once. */
  method BuildScoreMatrix(raw: array<Row>, den: int) returns (marks: array<Row>)
    requires den > 0
    ensures fresh(marks)
    ensures marks[..] == ScoreMatrix(raw[..], den)
  {
    marks := new Row[raw.Length](i requires 0 <= i < raw.Length reads raw => RoundRow(raw[i], den));
    assert marks[..] == ScoreMatrix(raw[..], den);
  }

  /** The roster's score matrix and its orientation column. */
  method GenerateRoster(raw: array<Row>, den: int) returns (marks: array<Row>, orientation: array<Orientation>)
    requires den > 0
    ensures fresh(marks) && fresh(orientation)
    ensures marks[..] == ScoreMatrix(raw[..], den)
    ensures orientation[..] == Labels(marks[..])
  {
    marks := BuildScoreMatrix(raw, den);
    orientation := LabelRows(marks);
  }

  /** Counts an orientation column and estimates the departments each
      orientation needs out of total. */
  method EstimateFromColumn(orientation: array<Orientation>, total: int)
    returns (counts: map<Orientation, nat>, estimates: map<Orientation, int>)
    ensures IsValueCounts(orientation[..], counts)
    ensures estimates.Keys == counts.Keys
    ensures forall o :: o in estimates ==>
      0 < counts[o] <= orientation.Length &&
      IsRounding(counts[o] * total, orientation.Length, estimates[o])
    ensures total >= 0 ==> forall o :: o in estimates ==> 0 <= estimates[o] <= total
    ensures orientation.Length > 0 ==> Distance(SumEstimates(estimates), total) <= 2
  {
    counts := CountOrientations(orientation);
    ghost var column := orientation[..];
    ValueCountsTotal(column, counts);
    var proportions := Proportions(counts, orientation.Length);
    estimates := EstimateDepartments(proportions, total);
    if total >= 0 {
      EstimateBounds(proportions, total);
    }
    if orientation.Length > 0 {
      EstimatesNearTotal(column, counts, total);
    }
  }

  /** Builds the roster from the raw marks, counts its orientations and
      estimates the departments each one needs. */
  method AnalyseRoster(raw: array<Row>, den: int, total: int)
    returns (marks: array<Row>, orientation: array<Orientation>,
             counts: map<Orientation, nat>, estimates: map<Orientation, int>)
    requires den > 0
    ensures fresh(marks) && fresh(orientation)
    ensures marks[..] == ScoreMatrix(raw[..], den)
    ensures orientation[..] == Labels(marks[..])
    ensures IsValueCounts(orientation[..], counts)
    ensures estimates.Keys == counts.Keys
    ensures forall o :: o in estimates ==>
      0 < counts[o] <= raw.Length && IsRounding(counts[o] * total, raw.Length, estimates[o])
    ensures total >= 0 ==> forall o :: o in estimates ==> 0 <= estimates[o] <= total
    ensures raw.Length > 0 ==> Distance(SumEstimates(estimates), total) <= 2
  {
    marks, orientation := GenerateRoster(raw, den);
    counts, estimates := EstimateFromColumn(orientation, total);
  }
}
