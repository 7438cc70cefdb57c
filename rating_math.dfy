/** Integer arithmetic behind a product's cached TotalRating: the mean of its
    ratings, rounded to the nearest integer with ties going to the even
    neighbour (the default rounding of the runtime's Math.Round). */
module RatingMath {

  function Sum(xs: seq<int>): (r: int) {
    if xs == [] then 0 else xs[0] + Sum(xs[1..])
  }

  lemma {:induction false} SumOfAppend(xs: seq<int>, ys: seq<int>)
    ensures Sum(xs + ys) == Sum(xs) + Sum(ys)
  {
    if xs == [] {
      assert xs + ys == ys;
    } else {
      assert (xs + ys)[1..] == xs[1..] + ys;
      SumOfAppend(xs[1..], ys);
    }
  }

  /** Every value in [lo, hi] puts the sum in [lo * n, hi * n]. */
  lemma {:induction false} SumBounds(xs: seq<int>, lo: int, hi: int)
    requires forall x :: x in xs ==> lo <= x <= hi
    ensures lo * |xs| <= Sum(xs) <= hi * |xs|
  {
    if xs != [] {
      var n := |xs[1..]|;
      assert xs[0] in xs;
      assert forall x :: x in xs[1..] ==> x in xs;
      SumBounds(xs[1..], lo, hi);
      assert Sum(xs) == xs[0] + Sum(xs[1..]);
      assert lo <= xs[0] <= hi;
      assert lo * n <= Sum(xs[1..]) <= hi * n;
      assert |xs| == n + 1;
      assert lo * (n + 1) == lo * n + lo && hi * (n + 1) == hi * n + hi;
    }
  }

  /** num / den rounded to the nearest integer, ties to the even one. */
  function RoundHalfToEven(num: int, den: int): (r: int)
    requires den > 0
  {
    var q, m := num / den, num % den;
    if 2 * m < den then q
    else if 2 * m > den then q + 1
    else if q % 2 == 0 then q
    else q + 1
  }

  /** RoundHalfToEven is within one half of num / den, and a tie goes to the even neighbour. */
  lemma RoundHalfToEvenIsNearest(num: int, den: int)
    requires den > 0
    ensures 2 * num - den <= 2 * (den * RoundHalfToEven(num, den)) <= 2 * num + den
    ensures 2 * (den * RoundHalfToEven(num, den)) == 2 * num - den ==> RoundHalfToEven(num, den) % 2 == 0
    ensures 2 * (den * RoundHalfToEven(num, den)) == 2 * num + den ==> RoundHalfToEven(num, den) % 2 == 0
  {
    var q, m := num / den, num % den;
    assert num == den * q + m && 0 <= m < den;
    assert den * (q + 1) == den * q + den;
  }

  /** A multiple of a positive n that lies in [0, n) is zero. */
  lemma MultipleBelowIsZero(n: int, k: int)
    requires n > 0 && 0 <= n * k < n
    ensures k == 0
  {
  }

  /** A value within one half of num / den, with num / den in [1, 5], is in [1, 5]. */
  lemma NearStarRangeIsInStarRange(num: int, den: int, r: int)
    requires den > 0 && den <= num <= 5 * den
    requires 2 * num - den <= 2 * (den * r) <= 2 * num + den
    ensures 1 <= r <= 5
  {
  }

  /** The cached aggregate: 0 for no ratings, otherwise the rounded mean. */
  function MeanRounded(xs: seq<int>): (r: int) {
    if |xs| == 0 then 0 else RoundHalfToEven(Sum(xs), |xs|)
  }

  /** The mean of star ratings (each 1..5) is itself a star rating. */
  lemma MeanOfStarRatingsIsStarRating(xs: seq<int>)
    requires |xs| > 0
    requires forall x :: x in xs ==> 1 <= x <= 5
    ensures 1 <= MeanRounded(xs) <= 5
  {
    SumBounds(xs, 1, 5);
    RoundHalfToEvenIsNearest(Sum(xs), |xs|);
    NearStarRangeIsInStarRange(Sum(xs), |xs|, RoundHalfToEven(Sum(xs), |xs|));
  }

  /** When every rating is the same value, the aggregate is that value. */
  lemma MeanOfEqualRatings(xs: seq<int>, v: int)
    requires |xs| > 0
    requires forall x :: x in xs ==> x == v
    ensures MeanRounded(xs) == v
  {
    SumBounds(xs, v, v);
    var n := |xs|;
    var q, m := Sum(xs) / n, Sum(xs) % n;
    assert n * q + m == n * v;
    assert n * (v - q) == m;
    MultipleBelowIsZero(n, v - q);
  }
}
