/** The roster's orientation column and its value counts: every row is given
    its orientation in order, and the orientations are then counted.
 */
module Roster {
  import opened Marks
  import opened Orientation

  /** The orientation column of a roster, one label per row, in row order. */
  function Labels(rows: seq<Row>): (labels: seq<Orientation>)
    ensures |labels| == |rows|
    ensures forall i :: 0 <= i < |rows| ==> labels[i] == Determine(rows[i])
  {
    if rows == [] then [] else Labels(rows[..|rows| - 1]) + [Determine(rows[|rows| - 1])]
  }

  /** Labelling a roster made of two parts labels each part on its own. */
  lemma LabelsAppend(a: seq<Row>, b: seq<Row>)
    ensures Labels(a + b) == Labels(a) + Labels(b)
  {
    assert |Labels(a + b)| == |Labels(a) + Labels(b)|;
    forall i | 0 <= i < |a + b|
      ensures Labels(a + b)[i] == (Labels(a) + Labels(b))[i]
    {
      if i < |a| {
        assert (a + b)[i] == a[i];
      } else {
        assert (a + b)[i] == b[i - |a|];
      }
    }
  }

  /** Fills the orientation column: one label per row of the score matrix. */
  method LabelRows(marks: array<Row>) returns (orientation: array<Orientation>)
    ensures fresh(orientation)
    ensures orientation.Length == marks.Length
    ensures orientation[..] == Labels(marks[..])
  {
    orientation := new Orientation[marks.Length];
    for i := 0 to marks.Length
      invariant forall k :: 0 <= k < i ==> orientation[k] == Determine(marks[k])
    {
      orientation[i] := Determine(marks[i]);
    }
  }

  /** How many times o occurs in s. */
  function Occurrences(s: seq<Orientation>, o: Orientation): nat {
    if s == [] then 0
    else Occurrences(s[..|s| - 1], o) + (if s[|s| - 1] == o then 1 else 0)
  }

  /** Appending one label adds one to its own count and leaves the others. */
  lemma OccurrencesSnoc(s: seq<Orientation>, x: Orientation, o: Orientation)
    ensures Occurrences(s + [x], o) == Occurrences(s, o) + (if x == o then 1 else 0)
  {
    assert (s + [x])[..|s|] == s;
  }

  /** Occurrences agrees with the multiplicity in the multiset of s. */
  lemma {:induction false} OccurrencesMultiset(s: seq<Orientation>, o: Orientation)
    ensures Occurrences(s, o) == multiset(s)[o]
  {
    if s != [] {
      var init := s[..|s| - 1];
      assert s == init + [s[|s| - 1]];
      OccurrencesMultiset(init, o);
    }
  }

  /** An orientation has a positive count exactly when it occurs. */
  lemma {:induction false} OccurrencesPositive(s: seq<Orientation>, o: Orientation)
    ensures Occurrences(s, o) > 0 <==> o in s
  {
    if s != [] {
      var init := s[..|s| - 1];
      assert s == init + [s[|s| - 1]];
      OccurrencesPositive(init, o);
    }
  }

  /** The counts of the four orientations add up to the length of s. */
  lemma {:induction false} OccurrencesSum(s: seq<Orientation>)
    ensures Occurrences(s, Mathematics) + Occurrences(s, ComputerScience) +
            Occurrences(s, Languages) + Occurrences(s, Physics) == |s|
  {
    if s != [] {
      OccurrencesSum(s[..|s| - 1]);
    }
  }

  /** counts holds the value counts of s: one entry for each orientation that
      occurs in s, and none for an orientation that does not, each with the
      number of times it occurs. */
  predicate IsValueCounts(s: seq<Orientation>, counts: map<Orientation, nat>) {
    forall o: Orientation ::
      (o in counts <==> o in s) &&
      (o in counts ==> counts[o] == Occurrences(s, o))
  }

  /** Value counts are determined by the column they count. */
  lemma ValueCountsUnique(s: seq<Orientation>, c1: map<Orientation, nat>, c2: map<Orientation, nat>)
    requires IsValueCounts(s, c1) && IsValueCounts(s, c2)
    ensures c1 == c2
  {
    assert c1.Keys == c2.Keys by {
      forall o | o in c1 ensures o in c2 { }
      forall o | o in c2 ensures o in c1 { }
    }
  }

  /** The count of o in counts, zero when o is absent. */
  function CountOf(counts: map<Orientation, nat>, o: Orientation): nat {
    if o in counts then counts[o] else 0
  }

  /** The sum of all counts. */
  function Total(counts: map<Orientation, nat>): nat {
    CountOf(counts, Mathematics) + CountOf(counts, ComputerScience) +
    CountOf(counts, Languages) + CountOf(counts, Physics)
  }

  /** The value counts of a column add up to the number of rows. */
  lemma ValueCountsTotal(s: seq<Orientation>, counts: map<Orientation, nat>)
    requires IsValueCounts(s, counts)
    ensures Total(counts) == |s|
    ensures forall o :: o in counts ==> 0 < counts[o] <= |s|
  {
    forall o: Orientation ensures CountOf(counts, o) == Occurrences(s, o) {
      OccurrencesPositive(s, o);
    }
    OccurrencesSum(s);
    forall o | o in counts ensures 0 < counts[o] <= |s| {
      OccurrencesPositive(s, o);
      assert o == Mathematics || o == ComputerScience || o == Languages || o == Physics;
    }
  }

  /** Counting one more label bumps its own entry, adding it if new. */
  lemma ValueCountsSnoc(s: seq<Orientation>, x: Orientation, counts: map<Orientation, nat>)
    requires IsValueCounts(s, counts)
    ensures IsValueCounts(s + [x], counts[x := CountOf(counts, x) + 1])
  {
    var next := counts[x := CountOf(counts, x) + 1];
    forall p: Orientation
      ensures (p in next <==> p in s + [x])
      ensures p in next ==> next[p] == Occurrences(s + [x], p)
    {
      OccurrencesSnoc(s, x, p);
      OccurrencesPositive(s, p);
      assert p in s + [x] <==> p in s || p == x;
    }
  }

  /** Counts the orientation column. */
  method CountOrientations(orientation: array<Orientation>) returns (counts: map<Orientation, nat>)
    ensures IsValueCounts(orientation[..], counts)
    ensures forall o :: o in counts ==> counts[o] == multiset(orientation[..])[o]
  {
    counts := map[];
    for i := 0 to orientation.Length
      invariant IsValueCounts(orientation[..i], counts)
    {
      var o := orientation[i];
      assert orientation[..i + 1] == orientation[..i] + [o];
      ValueCountsSnoc(orientation[..i], o, counts);
      counts := counts[o := CountOf(counts, o) + 1];
    }
    assert orientation[..] == orientation[..orientation.Length];
    forall o | o in counts ensures counts[o] == multiset(orientation[..])[o] {
      OccurrencesMultiset(orientation[..], o);
    }
  }
}
