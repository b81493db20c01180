/**
 * Creating a user post: the request is validated in a fixed order, the post is
 * stored with its sentiment score, and the product's community insights (a
 * positive and a negative keyword list of at most ten entries each) absorb the
 * post's keywords on the side its sentiment points to.
 */
module Posts {
  import opened Wrappers
  import opened Text
  import opened Seqs
  import opened Sentiment
  import opened Keywords

  /** The fields of a create-post request, after `intval`/`floatval` and before trimming. */
  datatype PostRequest = PostRequest(
    categoryId: int, productName: string, rating: real, postText: string, tags: string, isVerified: bool)

  /** A stored post. A category id that is not positive is stored as null. */
  datatype UserPost = UserPost(
    postId: nat, userId: int, categoryId: Option<int>, productName: string, rating: real,
    postText: string, tags: string, sentimentScore: real, isVerified: bool)

  datatype CreatePostError =
    | NotLoggedIn
    | ProductNameRequired
    | RatingOutOfRange
    | TextTooShort
    | TableMissing
    | InsertFailed

  /** The shortest post text accepted, in bytes. */
  const MinPostLength := 20

  /**
   * The validation chain on the trimmed fields: a missing product name first,
   * then a rating outside [1, 5], then a text shorter than 20 bytes.
   */
  function ValidatePost(productName: string, rating: real, postText: string): (r: Option<CreatePostError>)
    ensures r == Some(ProductNameRequired) <==> IsFalsy(productName)
    ensures r == Some(RatingOutOfRange) <==> !IsFalsy(productName) && (rating < 1.0 || rating > 5.0)
    ensures r == Some(TextTooShort) <==>
              !IsFalsy(productName) && 1.0 <= rating <= 5.0 && |postText| < MinPostLength
    ensures r.None? <==> !IsFalsy(productName) && 1.0 <= rating <= 5.0 && |postText| >= MinPostLength
  {
    if IsFalsy(productName) then Some(ProductNameRequired)
    else if rating < 1.0 || rating > 5.0 then Some(RatingOutOfRange)
    else if |postText| < MinPostLength then Some(TextTooShort)
    else None
  }

  // ---------------------------------------------------------------------------
  // Community insights

  /** A product's insight row: its positive and negative keyword lists. */
  datatype Insight = Insight(positive: seq<string>, negative: seq<string>)

  /** How many keywords a stored list keeps. */
  const MaxStored := 10

  /** Sentiment strictly above this touches the positive list. */
  const PositiveGate := 0.3

  /** Sentiment strictly below this touches the negative list. */
  const NegativeGate := -0.3

  /** A stored keyword list: no repetitions and at most ten entries. */
  predicate ValidKeywordList(ws: seq<string>) {
    Distinct(ws) && |ws| <= MaxStored
  }

  predicate ValidInsight(i: Insight) {
    ValidKeywordList(i.positive) && ValidKeywordList(i.negative)
  }

  /** `array_unique(array_merge(old, new))`: old entries first, then unseen new ones, without repetitions. */
  function MergeKeywords(existing: seq<string>, words: seq<string>): seq<string> {
    Unique(existing + words)
  }

  /**
   * The insight row after a post: an existing row merges the keywords into the
   * gated side and both lists are cut to ten; a new row holds the keywords on
   * the gated side only.
   */
  function MergeInsight(existing: Option<Insight>, words: seq<string>, sentiment: real): Insight {
    match existing
    case Some(i) =>
      var positive := if sentiment > PositiveGate then MergeKeywords(i.positive, words) else i.positive;
      var negative :=
        if sentiment > PositiveGate then i.negative
        else if sentiment < NegativeGate then MergeKeywords(i.negative, words)
        else i.negative;
      Insight(Take(positive, MaxStored), Take(negative, MaxStored))
    case None =>
      Insight(if sentiment > PositiveGate then words else [], if sentiment < NegativeGate then words else [])
  }

  /** Merging keeps a stored list valid. */
  lemma MergeKeepsValid(existing: Option<Insight>, words: seq<string>, sentiment: real)
    requires existing.Some? ==> ValidInsight(existing.value)
    requires existing.None? ==> ValidKeywordList(words)
    ensures ValidInsight(MergeInsight(existing, words, sentiment))
  {
    if existing.Some? {
      var i := existing.value;
      TakeKeepsDistinct(MergeKeywords(i.positive, words), MaxStored);
      TakeKeepsDistinct(MergeKeywords(i.negative, words), MaxStored);
      TakeKeepsDistinct(i.positive, MaxStored);
      TakeKeepsDistinct(i.negative, MaxStored);
    }
  }

  lemma TakeKeepsDistinct(s: seq<string>, n: nat)
    requires Distinct(s)
    ensures Distinct(Take(s, n))
  {
  }

  /** Sentiment in [-0.3, 0.3] leaves both stored lists as they were, and a gated side leaves the other one as it was. */
  lemma GatingIsStrict(i: Insight, words: seq<string>, sentiment: real)
    requires ValidInsight(i)
    ensures NegativeGate <= sentiment <= PositiveGate ==> MergeInsight(Some(i), words, sentiment) == i
    ensures sentiment > PositiveGate ==> MergeInsight(Some(i), words, sentiment).negative == i.negative
    ensures sentiment < NegativeGate ==> MergeInsight(Some(i), words, sentiment).positive == i.positive
  {
  }

  /**
   * The merged list starts with the existing entries, in their order, and
   * holds nothing but existing entries and new keywords, without repetitions;
   * a new keyword is dropped only when the list is full.
   */
  lemma MergeKeepsExistingFirst(existing: seq<string>, words: seq<string>)
    requires ValidKeywordList(existing)
    ensures var m := Take(MergeKeywords(existing, words), MaxStored);
            && |existing| <= |m| && m[..|existing|] == existing
            && ValidKeywordList(m)
            && (forall k :: 0 <= k < |m| ==> m[k] in existing || m[k] in words)
            && (forall k :: 0 <= k < |words| && words[k] !in m ==> |m| == MaxStored)
  {
    var u := MergeKeywords(existing, words);
    var m := Take(u, MaxStored);
    assert |existing| <= |m| && m[..|existing|] == existing by {
      UniquePrefix(existing, words);
      UniqueOfDistinct(existing);
    }
    assert ValidKeywordList(m) by {
      assert Distinct(u);
    }
    forall k | 0 <= k < |m|
      ensures m[k] in existing || m[k] in words
    {
      assert m[k] == u[k] && u[k] in existing + words;
    }
    forall k | 0 <= k < |words| && words[k] !in m
      ensures |m| == MaxStored
    {
      assert (existing + words)[|existing| + k] == words[k];
      assert words[k] in u;
    }
  }

  /** Once every keyword is in a distinct list, merging them again adds nothing. */
  lemma {:induction false} UniqueAbsorbs(m: seq<string>, words: seq<string>)
    requires Distinct(m)
    requires forall k :: 0 <= k < |words| ==> words[k] in m
    ensures Unique(m + words) == m
    decreases |words|
  {
    if words == [] {
      assert m + words == m;
      UniqueOfDistinct(m);
    } else {
      var w' := words[..|words| - 1];
      assert (m + words)[..|m + words| - 1] == m + w';
      UniqueAbsorbs(m, w');
    }
  }

  /** Merging the same keywords into a list twice gives the list of the first merge. */
  lemma MergeTwice(existing: seq<string>, words: seq<string>)
    requires ValidKeywordList(existing)
    ensures var m := Take(MergeKeywords(existing, words), MaxStored);
            Take(MergeKeywords(m, words), MaxStored) == m
  {
    var u := MergeKeywords(existing, words);
    var m := Take(u, MaxStored);
    MergeKeepsExistingFirst(existing, words);
    if |u| <= MaxStored {
      assert m == u;
      forall k | 0 <= k < |words|
        ensures words[k] in m
      {
        assert (existing + words)[|existing| + k] == words[k];
      }
      UniqueAbsorbs(m, words);
    } else {
      UniquePrefix(m, words);
      UniqueOfDistinct(m);
    }
  }

  /** Re-merging the same keywords with the same sentiment leaves the row unchanged. */
  lemma MergeInsightIdempotent(i: Insight, words: seq<string>, sentiment: real)
    requires ValidInsight(i)
    ensures var once := MergeInsight(Some(i), words, sentiment);
            MergeInsight(Some(once), words, sentiment) == once
  {
    MergeTwice(i.positive, words);
    MergeTwice(i.negative, words);
    var once := MergeInsight(Some(i), words, sentiment);
    MergeKeepsValid(Some(i), words, sentiment);
    assert Take(once.positive, MaxStored) == once.positive;
    assert Take(once.negative, MaxStored) == once.negative;
  }

  // ---------------------------------------------------------------------------
  // The posts and insights store

  /**
   * The key under which the insights table finds a product. The column's
   * utf8mb4_unicode_ci collation ignores letter case, and its unique key
   * makes names that differ only in case one row.
   */
  function Collate(product: string): (k: string)
    ensures |k| == |product|
    ensures forall i :: 0 <= i < |k| ==> k[i] == Lower(product[i])
  {
    LowerStr(product)
  }

  /** A row of the insights table: the product name it was created with and its keyword lists. */
  datatype InsightRow = InsightRow(productName: string, insight: Insight)

  /**
   * The insights table, keyed by collation key, after a post about `product`
   * with the given text and sentiment: the row that matches the name merges
   * the keywords and keeps its stored name, or a new row holds them under
   * this name; a failure leaves the table as it was.
   */
  function UpdatedInsights(insights: map<string, InsightRow>, product: string, postText: string, sentiment: real,
                           ok: bool): map<string, InsightRow>
  {
    if ok then
      var key := Collate(product);
      var existing := if key in insights then Some(insights[key].insight) else None;
      var name := if key in insights then insights[key].productName else product;
      insights[key := InsightRow(name, MergeInsight(existing, ExtractKeywords(postText), sentiment))]
    else insights
  }

  /**
   * A post touches exactly one row, the one its product name collates to:
   * every other row is unchanged, no row disappears, and at most one appears.
   */
  lemma UpdateTouchesOneRow(insights: map<string, InsightRow>, product: string, postText: string, sentiment: real)
    ensures var after := UpdatedInsights(insights, product, postText, sentiment, true);
            && after.Keys == insights.Keys + {Collate(product)}
            && (forall k :: k in insights && k != Collate(product) ==> after[k] == insights[k])
            && (Collate(product) in insights ==> after[Collate(product)].productName == insights[Collate(product)].productName)
            && (Collate(product) !in insights ==> after[Collate(product)].productName == product)
  {
  }

  /**
   * Names that differ only in letter case share a row: after posts about
   * "iPhone 15" and then "iphone 15" there is one row, still named
   * "iPhone 15", which has absorbed both posts' keywords.
   */
  lemma CaseVariantsShareRow(postA: string, postB: string, sentiment: real)
    ensures var first := UpdatedInsights(map[], "iPhone 15", postA, sentiment, true);
            var second := UpdatedInsights(first, "iphone 15", postB, sentiment, true);
            && |second.Keys| == 1
            && second[Collate("iPhone 15")] ==
                 InsightRow("iPhone 15", MergeInsight(Some(first[Collate("iPhone 15")].insight),
                                                      ExtractKeywords(postB), sentiment))
  {
    var key := Collate("iPhone 15");
    assert Collate("iphone 15") == key by {
      assert Collate("iphone 15") == "iphone 15";
      assert key == "iphone 15";
    }
    var first := UpdatedInsights(map[], "iPhone 15", postA, sentiment, true);
    assert first.Keys == {key};
  }

  class PostBoard {
    var posts: seq<UserPost>
    var insights: map<string, InsightRow>
    const lex: Lexicon

    /** Every stored keyword list is valid. */
    ghost predicate Valid()
      reads this
    {
      forall p :: p in insights ==> ValidInsight(insights[p].insight)
    }

    constructor(lex: Lexicon)
      ensures this.lex == lex && posts == [] && insights == map[] && Valid()
    {
      this.lex := lex;
      posts := [];
      insights := map[];
    }

    /**
     * `updateCommunityInsights`: merges the post's keywords into the row whose
     * name matches the product's under the table's case-insensitive
     * collation, or creates the row. A failure (`ok` false) is swallowed and
     * changes nothing.
     */
    method UpdateCommunityInsights(product: string, postText: string, sentiment: real, ok: bool)
      requires Valid()
      modifies this
      ensures Valid()
      ensures posts == old(posts)
      ensures insights == UpdatedInsights(old(insights), product, postText, sentiment, ok)
    {
      if !ok {
        return;
      }
      var words := ExtractKeywords(postText);
      KeywordsAreDistinctContentWords(postText);
      var key := Collate(product);
      var existing := if key in insights then Some(insights[key].insight) else None;
      var name := if key in insights then insights[key].productName else product;
      MergeKeepsValid(existing, words, sentiment);
      insights := insights[key := InsightRow(name, MergeInsight(existing, words, sentiment))];
    }

    /**
     * The create-post endpoint: a logged-in user, the validation chain on the
     * trimmed fields, the table check and the insert, in that order; each
     * failure returns before anything is written. On success the post is
     * stored with the sentiment of its trimmed text and the insights are
     * updated, whose failure does not fail the request.
     */
    method CreatePost(session: Option<int>, req: PostRequest, tableExists: bool, insertOk: bool, insightsOk: bool)
      returns (r: Result<(nat, real), CreatePostError>)
      requires Valid()
      modifies this
      ensures Valid()
      ensures session.None? ==> r == Err(NotLoggedIn)
      ensures session.Some? ==>
                var v := ValidatePost(Trim(req.productName), req.rating, Trim(req.postText));
                && (v.Some? ==> r == Err(v.value))
                && (v.None? && !tableExists ==> r == Err(TableMissing))
                && (v.None? && tableExists && !insertOk ==> r == Err(InsertFailed))
      ensures r.Err? ==> posts == old(posts) && insights == old(insights)
      ensures r.Ok? ==>
                var text := Trim(req.postText);
                var product := Trim(req.productName);
                var s := Polarity(Tokens(text), lex);
                && session.Some?
                && r.value == (|old(posts)| + 1, s)
                && posts == old(posts) + [UserPost(|old(posts)| + 1, session.value,
                                                   if req.categoryId > 0 then Some(req.categoryId) else None,
                                                   product, req.rating, text, Trim(req.tags), s, req.isVerified)]
                && insights == UpdatedInsights(old(insights), product, text, s, insightsOk)
      ensures (session.Some? && ValidatePost(Trim(req.productName), req.rating, Trim(req.postText)).None? &&
               tableExists && insertOk) ==> r.Ok?
    {
      if session.None? {
        return Err(NotLoggedIn);
      }
      var product := Trim(req.productName);
      var text := Trim(req.postText);
      var v := ValidatePost(product, req.rating, text);
      if v.Some? {
        return Err(v.value);
      }
      if !tableExists {
        return Err(TableMissing);
      }
      var sentiment := AnalyzeSentiment(text, lex);
      if !insertOk {
        return Err(InsertFailed);
      }
      var id := StorePost(session.value, req, product, text, sentiment, insightsOk);
      r := Ok((id, sentiment));
    }

    /** The insert with the next id, then the insight update for the post's product. */
    method StorePost(user: int, req: PostRequest, product: string, text: string, sentiment: real, insightsOk: bool)
      returns (id: nat)
      requires Valid()
      modifies this
      ensures Valid()
      ensures id == |old(posts)| + 1
      ensures posts == old(posts) + [UserPost(id, user, if req.categoryId > 0 then Some(req.categoryId) else None,
                                              product, req.rating, text, Trim(req.tags), sentiment, req.isVerified)]
      ensures insights == UpdatedInsights(old(insights), product, text, sentiment, insightsOk)
    {
      id := |posts| + 1;
      var category := if req.categoryId > 0 then Some(req.categoryId) else None;
      posts := posts + [UserPost(id, user, category, product, req.rating, text, Trim(req.tags), sentiment, req.isVerified)];
      UpdateCommunityInsights(product, text, sentiment, insightsOk);
    }
  }
}
