/**
 * The arithmetic of a stall's rating (backend/app/routes/reviews.py):
 * update_stall_rating's rounded mean and get_stall_rating_stats' histogram.
 * Ratings are tenths; the mean is rounded on its exact value.
 */
module RatingAggregate {
  import opened Rounding
  import opened ReviewRecord

  /** sum(r.rating for r in reviews), in tenths. */
  function Sum(ratings: seq<Tenths>): (s: int)
    ensures 10 * |ratings| <= s <= 50 * |ratings|
  {
    if ratings == [] then 0 else Sum(ratings[..|ratings| - 1]) + ratings[|ratings| - 1]
  }

  /**
   * The stall's aggregate: 0.0 with no reviews, otherwise round(total / count, 1),
   * which is the nearest tenth to the mean and again a valid rating.
   */
  function StallRating(ratings: seq<Tenths>): (r: int)
    ensures ratings == [] ==> r == 0
    ensures ratings != [] ==> 10 <= r <= 50 && NearestTiesEven(Sum(ratings), |ratings|, r)
  {
    if ratings == [] then 0
    else
      RoundWithin(Sum(ratings), |ratings|, 10, 50);
      RoundHalfEven(Sum(ratings), |ratings|)
  }

  /** round(review.rating): the histogram bucket, always one of 1..5 (1.5 and 2.5 go to 2, 3.5 and 4.5 to 4). */
  function Bucket(t: Tenths): (b: int)
    ensures 1 <= b <= 5 && NearestTiesEven(t, 10, b)
  {
    RoundWithin(t, 10, 1, 5);
    RoundHalfEven(t, 10)
  }

  /** How many ratings fall into bucket k. */
  function Count(ratings: seq<Tenths>, k: int): (c: nat)
    ensures c <= |ratings|
  {
    if ratings == [] then 0
    else Count(ratings[..|ratings| - 1], k) + (if Bucket(ratings[|ratings| - 1]) == k then 1 else 0)
  }

  /** The rating_distribution dictionary: bucket 1..5 to its count. */
  function Distribution(ratings: seq<Tenths>): (m: map<int, nat>)
    ensures m.Keys == {1, 2, 3, 4, 5}
  {
    map k | 1 <= k <= 5 :: Count(ratings, k)
  }

  const EmptyDistribution: map<int, nat> := map[1 := 0, 2 := 0, 3 := 0, 4 := 0, 5 := 0]

  /** The response of get_stall_rating_stats. */
  datatype RatingStats = RatingStats(stallId: int, averageRating: int, totalReviews: nat, ratingDistribution: map<int, nat>)

  /** The statistics of one stall's review ratings, without the empty-stall special case. */
  function StatsOf(stallId: int, ratings: seq<Tenths>): (s: RatingStats)
    ensures s.stallId == stallId && s.totalReviews == |ratings|
    ensures s.ratingDistribution.Keys == {1, 2, 3, 4, 5}
    ensures ratings == [] ==> s.averageRating == 0
    ensures ratings != [] ==> 10 <= s.averageRating <= 50
  {
    RatingStats(stallId, StallRating(ratings), |ratings|, Distribution(ratings))
  }

  /** Counting one more rating raises exactly its bucket by one. */
  lemma DistributionStep(ratings: seq<Tenths>, i: nat)
    requires i < |ratings|
    ensures var d := Distribution(ratings[..i]);
      Distribution(ratings[..i + 1]) == d[Bucket(ratings[i]) := d[Bucket(ratings[i])] + 1]
  {
    assert ratings[..i + 1][..i] == ratings[..i];
  }

  lemma EmptyDistributionIsDistribution()
    ensures Distribution([]) == EmptyDistribution
  {
  }

  /** Every rating lands in exactly one of the five buckets, so the counts add up to the total. */
  lemma {:induction false} DistributionAddsUp(ratings: seq<Tenths>)
    ensures Count(ratings, 1) + Count(ratings, 2) + Count(ratings, 3) + Count(ratings, 4) + Count(ratings, 5) == |ratings|
  {
    if ratings != [] {
      DistributionAddsUp(ratings[..|ratings| - 1]);
    }
  }

  /** A stall with no reviews: average 0.0, total 0 and an all-zero histogram. */
  lemma NoReviewsStats(stallId: int)
    ensures StatsOf(stallId, []) == RatingStats(stallId, 0, 0, EmptyDistribution)
  {
    EmptyDistributionIsDistribution();
  }

  /** The statistics stay within range: average 1.0..5.0 and a histogram that sums to the count. */
  lemma {:induction false} StatsConsistent(stallId: int, ratings: seq<Tenths>)
    requires ratings != []
    ensures var s := StatsOf(stallId, ratings);
      && 10 <= s.averageRating <= 50
      && s.totalReviews == |ratings|
      && s.ratingDistribution[1] + s.ratingDistribution[2] + s.ratingDistribution[3]
         + s.ratingDistribution[4] + s.ratingDistribution[5] == s.totalReviews
  {
    DistributionAddsUp(ratings);
  }

  /** Two reviews rated 4.0 and 5.0: average 4.5, total 2, one each in buckets 4 and 5. */
  lemma TwoReviewsExample(stallId: int)
    ensures StatsOf(stallId, [40, 50]) == RatingStats(stallId, 45, 2, map[1 := 0, 2 := 0, 3 := 0, 4 := 1, 5 := 1])
  {
    var s: seq<Tenths> := [40, 50];
    assert s[..1] == [40];
    assert Sum(s) == 90;
    RoundHalfEvenUnique(90, 2, 45);
    assert Bucket(40) == 4 by { RoundHalfEvenUnique(40, 10, 4); }
    assert Bucket(50) == 5 by { RoundHalfEvenUnique(50, 10, 5); }
    assert Distribution(s) == map[1 := 0, 2 := 0, 3 := 0, 4 := 1, 5 := 1];
  }

  /** The half-way ratings bucket to the even neighbour. */
  lemma HalfwayBuckets()
    ensures Bucket(15) == 2 && Bucket(25) == 2 && Bucket(35) == 4 && Bucket(45) == 4
  {
    RoundHalfEvenUnique(15, 10, 2);
    RoundHalfEvenUnique(25, 10, 2);
    RoundHalfEvenUnique(35, 10, 4);
    RoundHalfEvenUnique(45, 10, 4);
  }
}
