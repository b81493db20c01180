/**
 * The weighted item score: 50% rating, 25% sentiment, 15% engagement and 10%
 * recency, on a 0-100 scale. The statistics of an item's reviews are inputs
 * (they come from a query), and the natural logarithm is a parameter about
 * which only `LogLaws` is known.
 */
module Score {
  import opened Numeric

  /** The aggregate row over an item's reviews. */
  datatype ReviewStats = ReviewStats(reviewCount: nat, avgRating: real, avgSentiment: real, latestReview: int)

  /** Likes, dislikes and comments over all reviews of an item. */
  datatype Engagement = Engagement(likes: nat, dislikes: nat, comments: nat)

  /**
   * What the score needs of the logarithm: ln 1 = 0, and ln is strictly
   * increasing. At 0 the library gives -INF and below 0 NAN; this model
   * gives a value below ln of every positive number instead.
   */
  ghost predicate LogLaws(ln: real -> real) {
    ln(1.0) == 0.0 && forall x, y :: x < y ==> ln(x) < ln(y)
  }

  /** Seconds in a day, for the whole-day difference of two timestamps. */
  const SecondsPerDay := 86400

  /** (avg - 1) / 4: the average rating mapped from [1, 5] onto [0, 1]. */
  function RatingNorm(avgRating: real): real {
    (avgRating - 1.0) / 4.0
  }

  /** (s + 1) / 2: the average sentiment mapped from [-1, 1] onto [0, 1]. */
  function SentimentNorm(avgSentiment: real): real {
    (avgSentiment + 1.0) / 2.0
  }

  /** ln(1 + likes - dislikes + comments) / 4.6, capped at 1 from above only. */
  function EngagementNorm(e: Engagement, ln: real -> real): (r: real)
    ensures r <= 1.0
  {
    Min(ln((1 + e.likes - e.dislikes + e.comments) as real) / 4.6, 1.0)
  }

  /** The whole number of days between two timestamps in seconds, in either order. */
  function DaysBetween(now: int, latest: int): nat {
    (if now >= latest then now - latest else latest - now) / SecondsPerDay
  }

  /** 1 / (1 + days / 30): decays over about a month. */
  function RecencyNorm(days: nat): real {
    1.0 / (1.0 + (days as real) / 30.0)
  }

  /** The combined score before rounding; 0 for an item without reviews. */
  function WeightedScore(stats: ReviewStats, e: Engagement, now: int, ln: real -> real): real {
    if stats.reviewCount == 0 then 0.0
    else
      var score01 :=
        0.5 * RatingNorm(stats.avgRating)
        + 0.25 * SentimentNorm(stats.avgSentiment)
        + 0.15 * EngagementNorm(e, ln)
        + 0.10 * RecencyNorm(DaysBetween(now, stats.latestReview));
      score01 * 100.0
  }

  /** The rating component is 0 at a one-star average, 1 at five stars, and in [0, 1] exactly for averages in [1, 5]. */
  lemma RatingNormRange(avg: real)
    ensures RatingNorm(1.0) == 0.0 && RatingNorm(5.0) == 1.0
    ensures 0.0 <= RatingNorm(avg) <= 1.0 <==> 1.0 <= avg <= 5.0
  {
  }

  /** Recency is 1 on the day of the latest review and lies in (0, 1]. */
  lemma RecencyRange(days: nat)
    ensures RecencyNorm(0) == 1.0
    ensures 0.0 < RecencyNorm(days) <= 1.0
  {
    var d := 1.0 + (days as real) / 30.0;
    assert d >= 1.0;
    var r := 1.0 / d;
    assert r * d == 1.0;
  }

  /** Recency strictly decreases as the latest review gets older. */
  lemma RecencyDecreasing(d1: nat, d2: nat)
    requires d1 < d2
    ensures RecencyNorm(d2) < RecencyNorm(d1)
  {
    var a := 1.0 + (d1 as real) / 30.0;
    var b := 1.0 + (d2 as real) / 30.0;
    assert 1.0 <= a < b;
    var ra, rb := 1.0 / a, 1.0 / b;
    assert ra * a == 1.0 && rb * b == 1.0;
    assert ra * b > ra * a by {
      assert ra > 0.0;
    }
  }

  /** Under the logarithm's laws the engagement component is non-negative exactly when likes + comments >= dislikes. */
  lemma EngagementSign(e: Engagement, ln: real -> real)
    requires LogLaws(ln)
    ensures EngagementNorm(e, ln) >= 0.0 <==> e.likes + e.comments >= e.dislikes
  {
    var x := (1 + e.likes - e.dislikes + e.comments) as real;
    if e.likes + e.comments >= e.dislikes {
      if x > 1.0 {
        assert ln(1.0) < ln(x);
      }
    } else {
      assert x < 1.0;
      assert ln(x) < ln(1.0);
    }
  }

  /**
   * The weights sum to 1: with a rating average in [1, 5], a sentiment average
   * in [-1, 1] and no more dislikes than likes and comments together, the score
   * lies in [0, 100].
   */
  lemma WeightedScoreBounds(stats: ReviewStats, e: Engagement, now: int, ln: real -> real)
    requires LogLaws(ln)
    requires 1.0 <= stats.avgRating <= 5.0 && -1.0 <= stats.avgSentiment <= 1.0
    requires e.likes + e.comments >= e.dislikes
    ensures 0.0 <= WeightedScore(stats, e, now, ln) <= 100.0
  {
    EngagementSign(e, ln);
    RecencyRange(DaysBetween(now, stats.latestReview));
  }

  /** With everything else fixed, a higher rating average never lowers the score. */
  lemma WeightedScoreMonotoneInRating(stats: ReviewStats, avg': real, e: Engagement, now: int, ln: real -> real)
    requires stats.avgRating <= avg'
    ensures WeightedScore(stats, e, now, ln) <= WeightedScore(stats.(avgRating := avg'), e, now, ln)
  {
  }

  /** An item without reviews scores 0 whatever its engagement and age. */
  lemma NoReviewsScoresZero(stats: ReviewStats, e: Engagement, now: int, ln: real -> real)
    requires stats.reviewCount == 0
    ensures WeightedScore(stats, e, now, ln) == 0.0
  {
  }
}
