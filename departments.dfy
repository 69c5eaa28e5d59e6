/** The share of students in each orientation and the number of departments
    that share calls for. A share is kept as the exact fraction count/students
    of two integers; the estimate for a label is its share of the total
    number of departments, rounded half to even.
 */
module Departments {
  import opened Rounding
  import opened Orientation
  import opened Roster

  /** The fraction count/students. */
  datatype Proportion = Proportion(count: nat, students: nat)

  /** Each counted label's share of the roster: its count over the roster
      size. */
  function Proportions(counts: map<Orientation, nat>, students: nat): (p: map<Orientation, Proportion>)
    ensures p.Keys == counts.Keys
    ensures forall o :: o in p ==> p[o].count == counts[o] && p[o].students == students
  {
    map o | o in counts :: Proportion(counts[o], students)
  }

  /** The numerator of o's share, zero when o has no share. */
  function ShareOf(p: map<Orientation, Proportion>, o: Orientation): nat {
    if o in p then p[o].count else 0
  }

  /** The value counts of a roster give shares over the roster size that lie
      in (0, 1] and whose numerators add up to the roster size; for a
      non-empty roster the shares therefore add up to exactly one. */
  lemma ProportionsSumToOne(s: seq<Orientation>, counts: map<Orientation, nat>)
    requires IsValueCounts(s, counts)
    ensures forall o :: o in Proportions(counts, |s|) ==>
      0 < Proportions(counts, |s|)[o].count <= Proportions(counts, |s|)[o].students == |s|
    ensures ShareOf(Proportions(counts, |s|), Mathematics) +
            ShareOf(Proportions(counts, |s|), ComputerScience) +
            ShareOf(Proportions(counts, |s|), Languages) +
            ShareOf(Proportions(counts, |s|), Physics) == |s|
  {
    ValueCountsTotal(s, counts);
    var p := Proportions(counts, |s|);
    forall o: Orientation ensures ShareOf(p, o) == CountOf(counts, o) { }
  }

  /** The number of departments each label's share of total calls for. */
  function EstimateDepartments(p: map<Orientation, Proportion>, total: int): (e: map<Orientation, int>)
    requires forall o :: o in p ==> p[o].students > 0
    ensures e.Keys == p.Keys
    ensures forall o :: o in e ==> IsRounding(p[o].count * total, p[o].students, e[o])
  {
    map o | o in p :: RoundHalfEven(p[o].count * total, p[o].students)
  }

  /** A share between 0 and 1 never calls for fewer than none or more than
      all of the departments. */
  lemma EstimateBounds(p: map<Orientation, Proportion>, total: int)
    requires total >= 0
    requires forall o :: o in p ==> 0 < p[o].students && p[o].count <= p[o].students
    ensures forall o :: o in EstimateDepartments(p, total) ==>
      0 <= EstimateDepartments(p, total)[o] <= total
  {
    forall o | o in p ensures 0 <= RoundHalfEven(p[o].count * total, p[o].students) <= total {
      var c, n := p[o].count, p[o].students;
      assert 0 <= c * total <= total * n by {
        if total > 0 {
          MulAtLeast(n, c, total);
        }
      }
      RoundWithin(c * total, n, 0, total);
    }
  }

  /** The estimate for o, zero when o has none. */
  function EstimateOf(e: map<Orientation, int>, o: Orientation): int {
    if o in e then e[o] else 0
  }

  /** The sum of all estimates. */
  function SumEstimates(e: map<Orientation, int>): int {
    EstimateOf(e, Mathematics) + EstimateOf(e, ComputerScience) +
    EstimateOf(e, Languages) + EstimateOf(e, Physics)
  }

  /** (c1 + c2 + c3 + c4) * t spelled out term by term. */
  lemma MulSum4(c1: int, c2: int, c3: int, c4: int, t: int)
    ensures (c1 + c2 + c3 + c4) * t == c1 * t + c2 * t + c3 * t + c4 * t
  {
  }

  /** Four rounding errors of at most half a unit each, over shares that add
      up to one, leave the rounded values at most two away from the total. */
  lemma RoundingErrorsAddUp(c1: int, c2: int, c3: int, c4: int,
                            r1: int, r2: int, r3: int, r4: int, n: int, total: int)
    requires n > 0 && c1 + c2 + c3 + c4 == n
    requires 2 * Distance(c1 * total, r1 * n) <= n && 2 * Distance(c2 * total, r2 * n) <= n
    requires 2 * Distance(c3 * total, r3 * n) <= n && 2 * Distance(c4 * total, r4 * n) <= n
    ensures Distance(r1 + r2 + r3 + r4, total) <= 2
  {
    var gap := total - (r1 + r2 + r3 + r4);
    MulSum4(c1, c2, c3, c4, total);
    MulSum4(r1, r2, r3, r4, n);
    MulSub(total, r1 + r2 + r3 + r4, n);
    assert n * total == total * n;
    // the four errors add up to gap * n
    assert gap * n == (c1 * total - r1 * n) + (c2 * total - r2 * n) +
                      (c3 * total - r3 * n) + (c4 * total - r4 * n);
    if gap >= 3 {
      MulAtLeast(gap, 3, n);
      assert false;
    }
    if gap <= -3 {
      MulAtLeast(-gap, 3, n);
      MulSub(0, gap, n);
      assert false;
    }
  }

  /** The estimates need not add up to total, since each is rounded on its
      own, but with four labels they miss it by at most two. */
  lemma EstimatesNearTotal(s: seq<Orientation>, counts: map<Orientation, nat>, total: int)
    requires IsValueCounts(s, counts) && |s| > 0
    ensures Distance(SumEstimates(EstimateDepartments(Proportions(counts, |s|), total)), total) <= 2
  {
    ProportionsSumToOne(s, counts);
    var n := |s|;
    var p := Proportions(counts, n);
    var e := EstimateDepartments(p, total);
    LabelError(p, n, total, Mathematics);
    LabelError(p, n, total, ComputerScience);
    LabelError(p, n, total, Languages);
    LabelError(p, n, total, Physics);
    RoundingErrorsAddUp(ShareOf(p, Mathematics), ShareOf(p, ComputerScience),
                        ShareOf(p, Languages), ShareOf(p, Physics),
                        EstimateOf(e, Mathematics), EstimateOf(e, ComputerScience),
                        EstimateOf(e, Languages), EstimateOf(e, Physics), n, total);
  }

  /** The rounding error of one label's estimate, in units of 1/n, is at most
      one half; a label without a share has none. */
  lemma LabelError(p: map<Orientation, Proportion>, n: int, total: int, o: Orientation)
    requires n > 0 && forall o :: o in p ==> p[o].students == n
    ensures 2 * Distance(ShareOf(p, o) * total, EstimateOf(EstimateDepartments(p, total), o) * n) <= n
  {
    var c, r := ShareOf(p, o), EstimateOf(EstimateDepartments(p, total), o);
    if o in p {
      assert IsRounding(c * total, n, r);
    } else {
      assert c * total - r * n == 0;
    }
  }

  /** Four labels with a quarter of the roster each and ten departments:
      every share calls for 2.5 departments, which rounds to 2, so the
      estimates add up to 8 and not 10. */
  lemma EvenSplitExample()
    ensures EstimateDepartments(
      Proportions(map[Mathematics := 1, ComputerScience := 1, Languages := 1, Physics := 1], 4), 10)
      == map[Mathematics := 2, ComputerScience := 2, Languages := 2, Physics := 2]
  {
    var counts := map[Mathematics := 1, ComputerScience := 1, Languages := 1, Physics := 1];
    var e := EstimateDepartments(Proportions(counts, 4), 10);
    assert RoundHalfEven(10, 4) == 2;
    assert e.Keys == {Mathematics, ComputerScience, Languages, Physics};
  }
}
