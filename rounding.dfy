/** Integer rounding of a rational num/den to the nearest integer, ties to the
    even neighbour. This is the rule numpy's `round` applies both to the marks
    (scaled to hundredths) and to the department estimates.
 */
module Rounding {

  /** How far apart two integers are. */
  function Distance(x: int, y: int): nat {
    if x < y then y - x else x - y
  }

  /** r is at most half a unit away from num/den. */
  predicate IsNearest(num: int, den: int, r: int)
    requires den > 0
  {
    2 * Distance(num, r * den) <= den
  }

  /** r is a correct round-half-to-even of num/den: it is a nearest integer,
      and when num/den lies exactly halfway between two integers it is the
      even one. */
  predicate IsRounding(num: int, den: int, r: int)
    requires den > 0
  {
    IsNearest(num, den, r) &&
    (2 * Distance(num, r * den) == den ==> r % 2 == 0)
  }

  /** num/den rounded to the nearest integer, halves going to the even side. */
  function RoundHalfEven(num: int, den: int): (r: int)
    requires den > 0
    ensures IsRounding(num, den, r)
  {
    var q := num / den;
    var rem := num % den;
    assert num - q * den == rem;
    assert num - (q + 1) * den == rem - den;
    if 2 * rem < den then q
    else if 2 * rem > den then q + 1
    else if q % 2 == 0 then q
    else q + 1
  }

  /** Distributivity of a difference over a product, kept apart so the
      solver never has to find it inside a larger proof. */
  lemma MulSub(a: int, b: int, den: int)
    ensures (a - b) * den == a * den - b * den
  {
  }

  /** A product with a positive factor keeps the order of the other factor. */
  lemma MulAtLeast(k: int, m: int, den: int)
    requires den > 0 && k >= m
    ensures k * den >= m * den
  {
    MulSub(k, m, den);
  }

  /** There is only one correct rounding: RoundHalfEven is the only function
      meeting its contract. */
  lemma RoundingUnique(num: int, den: int, r1: int, r2: int)
    requires den > 0
    requires IsRounding(num, den, r1) && IsRounding(num, den, r2)
    ensures r1 == r2
  {
    if r1 < r2 {
      NearestGap(num, den, r1, r2);
      assert false;
    } else if r2 < r1 {
      NearestGap(num, den, r2, r1);
      assert false;
    }
  }

  /** Two different nearest integers are neighbours with num/den exactly
      halfway between them. */
  lemma NearestGap(num: int, den: int, lo: int, hi: int)
    requires den > 0 && lo < hi
    requires IsNearest(num, den, lo) && IsNearest(num, den, hi)
    ensures hi == lo + 1
    ensures 2 * (num - lo * den) == den && 2 * (hi * den - num) == den
  {
    MulSub(hi, lo, den);
    if hi - lo >= 2 {
      MulAtLeast(hi - lo, 2, den);
      assert false;
    }
  }

  /** A value meets the contract of RoundHalfEven exactly when it is the value
      RoundHalfEven returns. */
  lemma IsRoundingIff(num: int, den: int, r: int)
    requires den > 0
    ensures IsRounding(num, den, r) <==> r == RoundHalfEven(num, den)
  {
    if IsRounding(num, den, r) {
      RoundingUnique(num, den, r, RoundHalfEven(num, den));
    }
  }

  /** Rounding an exact multiple of den gives the multiplier back. */
  lemma RoundExact(k: int, den: int)
    requires den > 0
    ensures RoundHalfEven(k * den, den) == k
  {
    assert k * den - k * den == 0;
    RoundingUnique(k * den, den, k, RoundHalfEven(k * den, den));
  }

  /** Rounding never leaves an integer interval that contains num/den. */
  lemma RoundWithin(num: int, den: int, lo: int, hi: int)
    requires den > 0
    requires lo * den <= num <= hi * den
    ensures lo <= RoundHalfEven(num, den) <= hi
  {
    var r := RoundHalfEven(num, den);
    if r < lo {
      MulAtLeast(lo - r, 1, den);
      MulSub(lo, r, den);
      assert false;
    }
    if r > hi {
      MulAtLeast(r - hi, 1, den);
      MulSub(r, hi, den);
      assert false;
    }
  }
}
