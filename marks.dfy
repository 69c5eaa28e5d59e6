/** The marks of one student. A mark is out of 20 with two decimals; the model
    keeps it as an integer number of hundredths, 0 to 2000. The raw marks are
    drawn at random before they are clipped into range and rounded; the model
    takes each raw mark as a given rational num/den instead.
 */
module Marks {
  import opened Rounding

  /** 20 marks, in hundredths. */
  const MaxMark: int := 2000

  /** The six subject marks of one row, in the column order of the roster. */
  datatype Row = Row(
    mathematics: int,
    physics: int,
    english: int,
    arabic: int,
    computerScience: int,
    algebra: int)

  /** Every mark of the row lies between 0 and 20. */
  predicate InRange(row: Row) {
    0 <= row.mathematics <= MaxMark &&
    0 <= row.physics <= MaxMark &&
    0 <= row.english <= MaxMark &&
    0 <= row.arabic <= MaxMark &&
    0 <= row.computerScience <= MaxMark &&
    0 <= row.algebra <= MaxMark
  }

  /** x clipped into [lo, hi]: the point of the interval closest to x. */
  function Clip(x: int, lo: int, hi: int): (r: int)
    requires lo <= hi
    ensures lo <= r <= hi
    ensures forall y :: lo <= y <= hi ==> Distance(x, r) <= Distance(x, y)
  {
    if x < lo then lo else if x > hi then hi else x
  }

  /** The raw mark num/den clipped into [0, 20] and rounded to hundredths,
      halves to even. */
  function Mark(num: int, den: int): (m: int)
    requires den > 0
    ensures 0 <= m <= MaxMark
    ensures IsRounding(Clip(num, 0, 20 * den) * 100, den, m)
    ensures 0 <= num <= 20 * den ==> IsRounding(num * 100, den, m)
  {
    var c := Clip(num, 0, 20 * den);
    RoundWithin(c * 100, den, 0, MaxMark);
    RoundHalfEven(c * 100, den)
  }

  /** A mark that is already in range and already has two decimals, h/100,
      is left as it is, over whatever denominator it is written:
      num/den == h/100 gives back h. */
  lemma MarkKeepsExactMarks(h: int, num: int, den: int)
    requires den > 0 && 0 <= h <= MaxMark && num * 100 == h * den
    ensures Mark(num, den) == h
  {
    assert 0 <= num <= 20 * den by {
      MulAtLeast(h, 0, den);
      MulAtLeast(MaxMark, h, den);
    }
    RoundExact(h, den);
  }

  /** Clipping and rounding a whole row, mark by mark. */
  function RoundRow(raw: Row, den: int): (row: Row)
    requires den > 0
    ensures InRange(row)
  {
    Row(Mark(raw.mathematics, den), Mark(raw.physics, den),
        Mark(raw.english, den), Mark(raw.arabic, den),
        Mark(raw.computerScience, den), Mark(raw.algebra, den))
  }

  /** Clipping and rounding do nothing to a row that is already clipped and
      rounded, so doing them twice is the same as doing them once. */
  lemma RoundRowIdempotent(raw: Row, den: int)
    requires den > 0
    ensures RoundRow(RoundRow(raw, den), 100) == RoundRow(raw, den)
  {
    var row := RoundRow(raw, den);
    MarkKeepsExactMarks(row.mathematics, row.mathematics, 100);
    MarkKeepsExactMarks(row.physics, row.physics, 100);
    MarkKeepsExactMarks(row.english, row.english, 100);
    MarkKeepsExactMarks(row.arabic, row.arabic, 100);
    MarkKeepsExactMarks(row.computerScience, row.computerScience, 100);
    MarkKeepsExactMarks(row.algebra, row.algebra, 100);
  }

  /** The score matrix: every raw row clipped and rounded, in order. */
  function ScoreMatrix(raw: seq<Row>, den: int): (rows: seq<Row>)
    requires den > 0
    ensures |rows| == |raw|
    ensures forall i :: 0 <= i < |rows| ==> InRange(rows[i]) && rows[i] == RoundRow(raw[i], den)
  {
    seq(|raw|, i requires 0 <= i < |raw| => RoundRow(raw[i], den))
  }
}
