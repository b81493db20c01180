/**
 * The post-review endpoint: validates the item, the star rating and the
 * trimmed review text, checks that the item exists, scores the text's
 * sentiment, stores the review and forces a recomputation of the item's score
 * from the statistics of all its reviews.
 */
module PostReview {
  import opened Wrappers
  import opened Text
  import opened Sentiment
  import opened Score
  import opened ScoreCache

  /** A row of the reviews table; `createdAt` is in seconds. */
  datatype Review = Review(reviewId: nat, itemId: int, userId: int, rating: int, text: string,
                           sentiment: real, createdAt: int)

  /** Why a review is refused, in the order the endpoint checks. */
  datatype ReviewError = NotLoggedIn | InvalidItemId | RatingOutOfRange | ReviewTooShort | ItemNotFound | InsertFailed

  /** What a stored review returns: its id, its sentiment and the item's new score. */
  datatype ReviewPosted = ReviewPosted(reviewId: nat, sentiment: real, itemScore: real)

  /** The shortest review text accepted, in bytes. */
  const MinReviewLength := 10

  /** The first failed check on an (already trimmed) review, or None when all pass. */
  function ValidateReview(itemId: int, rating: int, text: string): (r: Option<ReviewError>)
    ensures r == Some(InvalidItemId) <==> itemId <= 0
    ensures r == Some(RatingOutOfRange) <==> itemId > 0 && (rating < 1 || rating > 5)
    ensures r == Some(ReviewTooShort) <==>
              itemId > 0 && 1 <= rating <= 5 && (IsFalsy(text) || |text| < MinReviewLength)
    ensures r.None? <==> itemId > 0 && 1 <= rating <= 5 && |text| >= MinReviewLength
  {
    if itemId <= 0 then Some(InvalidItemId)
    else if rating < 1 || rating > 5 then Some(RatingOutOfRange)
    else if IsFalsy(text) || |text| < MinReviewLength then Some(ReviewTooShort)
    else None
  }

  /** The `empty` test adds nothing to the length test: a falsy text is shorter than ten bytes. */
  lemma EmptinessImpliedByLength(text: string)
    ensures IsFalsy(text) ==> |text| < MinReviewLength
  {
  }

  /** The reviews of one item, in insertion order. */
  function ItemReviews(rs: seq<Review>, item: int): (m: seq<Review>)
    ensures |m| <= |rs|
    ensures forall k :: 0 <= k < |m| ==> m[k].itemId == item && m[k] in rs
  {
    if rs == [] then []
    else
      var init := ItemReviews(rs[..|rs| - 1], item);
      if rs[|rs| - 1].itemId == item then init + [rs[|rs| - 1]] else init
  }

  function SumRatings(m: seq<Review>): int {
    if m == [] then 0 else SumRatings(m[..|m| - 1]) + m[|m| - 1].rating
  }

  function SumSentiments(m: seq<Review>): real {
    if m == [] then 0.0 else SumSentiments(m[..|m| - 1]) + m[|m| - 1].sentiment
  }

  /** `MAX(created_at)` over a non-empty list of reviews. */
  function Latest(m: seq<Review>): (t: int)
    requires m != []
    ensures forall k :: 0 <= k < |m| ==> m[k].createdAt <= t
    ensures exists k :: 0 <= k < |m| && m[k].createdAt == t
  {
    if |m| == 1 then m[0].createdAt
    else
      var t := Latest(m[..|m| - 1]);
      var last := m[|m| - 1].createdAt;
      if last > t then last else t
  }

  /**
   * The statistics row `compute_score` reads for an item: COUNT, AVG(rating),
   * AVG(sentiment_score) and MAX(created_at) over its reviews.
   */
  function StatsOf(rs: seq<Review>, item: int): (s: ReviewStats)
    ensures s.reviewCount == |ItemReviews(rs, item)|
  {
    var m := ItemReviews(rs, item);
    if m == [] then ReviewStats(0, 0.0, 0.0, 0)
    else ReviewStats(|m|, SumRatings(m) as real / |m| as real, SumSentiments(m) / |m| as real, Latest(m))
  }

  /** Every stored review has a rating of 1 to 5 stars and a sentiment in [-1, 1]. */
  predicate WellFormed(rs: seq<Review>) {
    forall k :: 0 <= k < |rs| ==> 1 <= rs[k].rating <= 5 && -1.0 <= rs[k].sentiment <= 1.0
  }

  lemma WellFormedAppend(rs: seq<Review>, r: Review)
    requires WellFormed(rs) && 1 <= r.rating <= 5 && -1.0 <= r.sentiment <= 1.0
    ensures WellFormed(rs + [r])
  {
    assert forall k :: 0 <= k < |rs| ==> (rs + [r])[k] == rs[k];
  }

  /** Storing a review adds it to its item's reviews and leaves every other item's reviews alone. */
  lemma ItemReviewsAppend(rs: seq<Review>, r: Review, item: int)
    ensures ItemReviews(rs + [r], item) == if r.itemId == item then ItemReviews(rs, item) + [r] else ItemReviews(rs, item)
  {
    assert (rs + [r])[..|rs + [r]| - 1] == rs;
  }

  /** A posted review raises its item's review count by one and changes no other item's statistics. */
  lemma StatsAfterPost(rs: seq<Review>, r: Review, other: int)
    requires other != r.itemId
    ensures StatsOf(rs + [r], r.itemId).reviewCount == StatsOf(rs, r.itemId).reviewCount + 1
    ensures StatsOf(rs + [r], other) == StatsOf(rs, other)
  {
    ItemReviewsAppend(rs, r, r.itemId);
    ItemReviewsAppend(rs, r, other);
  }

  lemma {:induction false} SumRatingsBounds(m: seq<Review>)
    requires WellFormed(m)
    ensures |m| <= SumRatings(m) <= 5 * |m|
    ensures -(|m| as real) <= SumSentiments(m) <= |m| as real
  {
    if m != [] {
      SumRatingsBounds(m[..|m| - 1]);
    }
  }

  /** An average of n values, each in [lo, hi], lies in [lo, hi]. */
  lemma AverageBounds(sum: real, n: nat, lo: real, hi: real)
    requires n > 0 && lo * n as real <= sum <= hi * n as real
    ensures lo <= sum / n as real <= hi
  {
    var a := sum / n as real;
    assert a * n as real == sum;
  }

  /** The statistics of well-formed reviews have a rating average in [1, 5] and a sentiment average in [-1, 1]. */
  lemma StatsInRange(rs: seq<Review>, item: int)
    requires WellFormed(rs)
    requires StatsOf(rs, item).reviewCount > 0
    ensures 1.0 <= StatsOf(rs, item).avgRating <= 5.0
    ensures -1.0 <= StatsOf(rs, item).avgSentiment <= 1.0
  {
    var m := ItemReviews(rs, item);
    assert WellFormed(m) by {
      forall k | 0 <= k < |m|
        ensures 1 <= m[k].rating <= 5 && -1.0 <= m[k].sentiment <= 1.0
      {
        var j :| 0 <= j < |rs| && rs[j] == m[k];
      }
    }
    SumRatingsBounds(m);
    AverageBounds(SumRatings(m) as real, |m|, 1.0, 5.0);
    AverageBounds(SumSentiments(m), |m|, -1.0, 1.0);
  }

  /**
   * The score computed from well-formed reviews lies in [0, 100] whenever the
   * likes and comments are not outnumbered by the dislikes.
   */
  lemma ReviewedScoreInRange(rs: seq<Review>, item: int, e: Engagement, now: int, ln: real -> real)
    requires WellFormed(rs) && LogLaws(ln)
    requires e.likes + e.comments >= e.dislikes
    ensures 0.0 <= WeightedScore(StatsOf(rs, item), e, now, ln) <= 100.0
  {
    if StatsOf(rs, item).reviewCount > 0 {
      StatsInRange(rs, item);
      WeightedScoreBounds(StatsOf(rs, item), e, now, ln);
    }
  }

  /** The reviews table, the set of existing items and the scores table it keeps up to date. */
  class ReviewBoard {
    var reviews: seq<Review>
    var items: set<int>
    const lex: Lexicon
    const cache: ScoreStore

    ghost predicate Valid()
      reads this
    {
      WellFormed(reviews)
    }

    constructor(items: set<int>, lex: Lexicon, cache: ScoreStore)
      ensures this.items == items && this.lex == lex && this.cache == cache && reviews == [] && Valid()
    {
      this.items := items;
      this.lex := lex;
      this.cache := cache;
      reviews := [];
    }

    /**
     * `post_review`: a logged-in user, the validation chain, the item's
     * existence and the insert, in that order, each failure returning before
     * anything is written. On success the review gets the next id, the
     * sentiment of its trimmed text and the current time, and the item's score
     * is recomputed whether or not its stored score is fresh; the engagement
     * counts the recomputation reads, and whether its write succeeds, are inputs.
     */
    method PostReview(session: Option<int>, itemId: int, rating: int, reviewText: string, insertOk: bool,
                      e: Option<Engagement>, writeOk: bool)
      returns (r: Result<ReviewPosted, ReviewError>)
      requires Valid()
      modifies this, cache
      ensures Valid()
      ensures items == old(items) && cache.now == old(cache.now)
      ensures session.None? ==> r == Err(NotLoggedIn)
      ensures session.Some? ==>
                var v := ValidateReview(itemId, rating, Trim(reviewText));
                && (v.Some? ==> r == Err(v.value))
                && (v.None? && itemId !in items ==> r == Err(ItemNotFound))
                && (v.None? && itemId in items && !insertOk ==> r == Err(InsertFailed))
                && (v.None? && itemId in items && insertOk ==> r.Ok?)
      ensures r.Err? ==> reviews == old(reviews) && cache.scores == old(cache.scores)
      ensures r.Ok? ==>
                var text := Trim(reviewText);
                var s := Polarity(Tokens(text), lex);
                && session.Some?
                && reviews == old(reviews) + [Review(|old(reviews)| + 1, itemId, session.value, rating, text, s, cache.now)]
                && r.value.reviewId == |old(reviews)| + 1 && r.value.sentiment == s
                && (r.value.itemScore, cache.scores) ==
                     Computed(old(cache.scores), itemId, Some(StatsOf(reviews, itemId)), e, writeOk, cache.now, cache.ln)
      ensures r.Ok? && writeOk && e.Some? && LogLaws(cache.ln) && e.value.likes + e.value.comments >= e.value.dislikes ==>
                itemId in cache.scores && 0.0 <= cache.scores[itemId].value <= 100.0
    {
      if session.None? {
        return Err(NotLoggedIn);
      }
      var text := Trim(reviewText);
      var v := ValidateReview(itemId, rating, text);
      if v.Some? {
        return Err(v.value);
      }
      if itemId !in items {
        return Err(ItemNotFound);
      }
      var sentiment := AnalyzeSentiment(text, lex);
      if !insertOk {
        return Err(InsertFailed);
      }
      var id := |reviews| + 1;
      var review := Review(id, itemId, session.value, rating, text, sentiment, cache.now);
      WellFormedAppend(reviews, review);
      reviews := reviews + [review];
      var stats := StatsOf(reviews, itemId);
      ItemReviewsAppend(old(reviews), review, itemId);
      var score := cache.ComputeScore(itemId, Some(stats), e, writeOk);
      if writeOk && e.Some? && LogLaws(cache.ln) && e.value.likes + e.value.comments >= e.value.dislikes {
        ReviewedScoreInRange(reviews, itemId, e.value, cache.now, cache.ln);
        assert cache.scores[itemId].value == WeightedScore(stats, e.value, cache.now, cache.ln);
      }
      r := Ok(ReviewPosted(id, sentiment, score));
    }
  }
}
