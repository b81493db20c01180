/**
 * The `scores` table: one record per item holding the last computed score and
 * the time it was written. A record at most one hour old is served as is;
 * otherwise the score is recomputed and upserted.
 */
module ScoreCache {
  import opened Wrappers
  import opened Numeric
  import opened Score

  /** A row of the scores table. */
  datatype ScoreRecord = ScoreRecord(value: real, lastUpdated: int)

  /** How long a stored score is served, in seconds. */
  const MaxAge := 3600

  /** A record is fresh unless it was written more than an hour before `now`. */
  predicate IsFresh(r: ScoreRecord, now: int) {
    r.lastUpdated >= now - MaxAge
  }

  /** The stored value an item's lookup serves at time `now`, if any. */
  function CachedScore(scores: map<int, ScoreRecord>, item: int, now: int): (r: Option<real>)
    ensures r.Some? <==> item in scores && IsFresh(scores[item], now)
    ensures r.Some? ==> r.value == scores[item].value
  {
    if item in scores && IsFresh(scores[item], now) then Some(scores[item].value) else None
  }

  /**
   * A record written at time `t` is served for exactly the hour [t, t + 3600]
   * (an age of exactly one hour is still fresh), and it is the unrounded value
   * that is served.
   */
  lemma FreshWindow(scores: map<int, ScoreRecord>, item: int, v: real, t: int, later: int)
    requires t <= later
    ensures CachedScore(scores[item := ScoreRecord(v, t)], item, later) ==
              if later <= t + MaxAge then Some(v) else None
  {
  }

  /** A served value and what the computation that stored it returned differ by at most half a cent. */
  lemma ServedNearReturned(scores: map<int, ScoreRecord>, item: int, s: ReviewStats, g: Engagement,
                           now: int, ln: real -> real)
    ensures var (ret, after) := Computed(scores, item, Some(s), Some(g), true, now, ln);
            item in after && -0.005 <= after[item].value - ret <= 0.005
  {
    if s.reviewCount > 0 {
      RoundError(WeightedScore(s, g, now, ln), 2);
      assert Pow10(2) == 100;
    }
  }

  /** The table after `update_scores_table`: the item's record replaced, unless the write failed. */
  function Upsert(scores: map<int, ScoreRecord>, item: int, score: real, now: int, writeOk: bool): map<int, ScoreRecord> {
    if writeOk then scores[item := ScoreRecord(score, now)] else scores
  }

  /**
   * What `compute_score` returns and the table it leaves, given the review
   * statistics and engagement counts it reads (None when that query fails).
   */
  function Computed(scores: map<int, ScoreRecord>, item: int, stats: Option<ReviewStats>, e: Option<Engagement>,
                    writeOk: bool, now: int, ln: real -> real): (real, map<int, ScoreRecord>)
  {
    match stats
    case None => (0.0, scores)
    case Some(s) =>
      if s.reviewCount == 0 then (0.0, Upsert(scores, item, 0.0, now, writeOk))
      else
        match e
        case None => (0.0, scores)
        case Some(g) =>
          var raw := WeightedScore(s, g, now, ln);
          (Round(raw, 2), Upsert(scores, item, raw, now, writeOk))
  }

  /**
   * What `get_or_compute_score` returns and the table it leaves: the stored
   * value of a fresh record, untouched, or else a recomputation (also when the
   * lookup fails, `readOk` false).
   */
  function GetOrComputed(scores: map<int, ScoreRecord>, item: int, readOk: bool, stats: Option<ReviewStats>,
                         e: Option<Engagement>, writeOk: bool, now: int, ln: real -> real): (real, map<int, ScoreRecord>)
  {
    if readOk && CachedScore(scores, item, now).Some? then (scores[item].value, scores)
    else Computed(scores, item, stats, e, writeOk, now, ln)
  }

  /**
   * Asking twice in a row with a successful read and write serves the second
   * time what the first time stored: no recomputation within the hour, and the
   * two answers agree to two decimal places.
   */
  lemma SecondLookupServesStored(scores: map<int, ScoreRecord>, item: int, s: ReviewStats, g: Engagement,
                                 now: int, ln: real -> real)
    requires s.reviewCount > 0
    ensures var (first, after) := GetOrComputed(scores, item, true, Some(s), Some(g), true, now, ln);
            var (second, after2) := GetOrComputed(after, item, true, Some(s), Some(g), true, now, ln);
            after2 == after && Round(second, 2) == Round(first, 2)
  {
    var raw := WeightedScore(s, g, now, ln);
    if CachedScore(scores, item, now).Some? {
      assert GetOrComputed(scores, item, true, Some(s), Some(g), true, now, ln).1 == scores;
    } else {
      assert GetOrComputed(scores, item, true, Some(s), Some(g), true, now, ln) == (Round(raw, 2), scores[item := ScoreRecord(raw, now)]);
      RoundIdempotent(raw, 2);
    }
  }

  /**
   * After a successful computation the item has one record, holding the
   * unrounded score and the current time, which is served from then on; the
   * caller got the rounded score; no other item's record changed.
   */
  lemma ComputedStoresUnrounded(scores: map<int, ScoreRecord>, item: int, s: ReviewStats, g: Engagement,
                                now: int, ln: real -> real)
    requires s.reviewCount > 0
    ensures var (ret, after) := Computed(scores, item, Some(s), Some(g), true, now, ln);
            && ret == Round(WeightedScore(s, g, now, ln), 2)
            && after.Keys == scores.Keys + {item}
            && after[item] == ScoreRecord(WeightedScore(s, g, now, ln), now)
            && CachedScore(after, item, now) == Some(WeightedScore(s, g, now, ln))
            && forall other :: other in scores && other != item ==> after[other] == scores[other]
  {
  }

  /** A failed read or write changes no record; a failed statistics query returns 0. */
  lemma ComputedFailures(scores: map<int, ScoreRecord>, item: int, stats: Option<ReviewStats>, e: Option<Engagement>,
                         now: int, ln: real -> real)
    ensures Computed(scores, item, stats, e, false, now, ln).1 == scores
    ensures Computed(scores, item, None, e, true, now, ln) == (0.0, scores)
  {
  }

  /** Without reviews the item's record is set to 0 and 0 is returned. */
  lemma ComputedNoReviews(scores: map<int, ScoreRecord>, item: int, s: ReviewStats, e: Option<Engagement>,
                          now: int, ln: real -> real)
    requires s.reviewCount == 0
    ensures Computed(scores, item, Some(s), e, true, now, ln) == (0.0, scores[item := ScoreRecord(0.0, now)])
  {
  }

  /** The scores table with a clock. Query results and write failures are inputs of the methods. */
  class ScoreStore {
    var scores: map<int, ScoreRecord>
    var now: int
    const ln: real -> real

    constructor(ln: real -> real, now: int)
      ensures this.ln == ln && this.now == now && scores == map[]
    {
      this.ln := ln;
      this.now := now;
      scores := map[];
    }

    /** Time passes; nothing is stored. */
    method Tick(seconds: nat)
      modifies this
      ensures now == old(now) + seconds && scores == old(scores)
    {
      now := now + seconds;
    }

    /**
     * `update_scores_table`: insert or overwrite the item's record with the
     * score and the current time. A failed write is swallowed and stores nothing.
     */
    method UpdateScoresTable(item: int, score: real, writeOk: bool)
      modifies this
      ensures now == old(now)
      ensures scores == Upsert(old(scores), item, score, now, writeOk)
    {
      if writeOk {
        scores := scores[item := ScoreRecord(score, now)];
      }
    }

    /**
     * `compute_score`: stores the unrounded score and returns it rounded to 2
     * places; without reviews it stores and returns 0; a failed query returns
     * 0 and writes nothing.
     */
    method ComputeScore(item: int, stats: Option<ReviewStats>, e: Option<Engagement>, writeOk: bool)
      returns (score: real)
      modifies this
      ensures now == old(now)
      ensures (score, scores) == Computed(old(scores), item, stats, e, writeOk, now, ln)
    {
      if stats.None? {
        return 0.0;
      }
      var s := stats.value;
      if s.reviewCount == 0 {
        UpdateScoresTable(item, 0.0, writeOk);
        return 0.0;
      }
      if e.None? {
        return 0.0;
      }
      var raw := WeightedScore(s, e.value, now, ln);
      UpdateScoresTable(item, raw, writeOk);
      score := Round(raw, 2);
    }

    /**
     * `get_or_compute_score`: serves the stored value when the item has a
     * fresh record, and recomputes otherwise (also when the lookup fails).
     */
    method GetOrComputeScore(item: int, readOk: bool, stats: Option<ReviewStats>, e: Option<Engagement>, writeOk: bool)
      returns (score: real)
      modifies this
      ensures now == old(now)
      ensures (score, scores) == GetOrComputed(old(scores), item, readOk, stats, e, writeOk, now, ln)
    {
      if readOk {
        var cached := CachedScore(scores, item, now);
        if cached.Some? {
          return cached.value;
        }
      }
      score := ComputeScore(item, stats, e, writeOk);
    }
  }
}
