# Smart review system: a verified model of its core logic

The smart review system is a PHP site where users review official items and
write their own product posts. This project models the logic in its endpoints
and helpers in Dafny, and proves properties of that model:

- **Sentiment.** The lexicon scorer tokenises a text, counts hits in a positive
  and a negative word list, and returns (p - n) / (p + n). The word-list loader
  normalises its lines, and a label function maps a score to
  Positive / Negative / Neutral.
- **Item score.** The weighted score is 50 % rating, 25 % sentiment,
  15 % engagement and 10 % recency, scaled to 0-100. The `scores` table serves a
  record for one hour and otherwise recomputes and upserts it.
- **Posting.** Creating a user post validates the request, stores the post and
  merges its five most frequent keywords into the product's community insights.
  Posting a review validates it, stores it and forces a recomputation of the
  item's score.
- **Likes.** Like/dislike toggles apply to reviews and posts, and a like toggle
  applies to comments. Each returns the counts derived from the records.
- **Comparisons.** The universal comparison takes `item_<id>` / `post_<id>`
  identifiers. Two further endpoints compare two items or two posts.
- **Search and feed.** The combined search of items and posts ranks its
  results by relevance tier, sorts them and keeps ten. The post search takes a
  column filter. The paged feed offers three sort orders.
- **Browser logic.** The compare selection on the results page holds at most
  two ids. `formatDate` turns a date into a relative-time phrase.

## Conventions

- Query results, the current time, the word lists, the logarithm and database
  failures are inputs of the model.
- Tables that an endpoint changes are fields of a class whose methods update
  them. The model has four such classes: the score table, the post board, the
  review board and the like tables.
- Loops in the source are loops in the model. Each is proved equal to a
  function that specifies it, and the properties are proved about that function.
- PHP's `usort` and `arsort` are stable in PHP 8, and the SQL ORDER BY clauses
  are modelled the same way: `Ranking.SortDesc` is a stable descending sort.
  Ties keep their input order.
- Strings are sequences of characters, one character per byte for `strlen`
  and `substr`.

Where the code and its documentation disagree, the model follows the code:

- The doc comment of `analyze_sentiment` (functions/analyze_sentiment.php:11-12)
  says an all-positive sentence scores 0.8. The code returns exactly 1.0 for any
  text with positive hits and no negative ones; see `Sentiment.PolarityOne`.
- The header of compute_score.php (line 7) promises a score in 0-100. The code
  clamps only the engagement component, and only from above. The score lies in
  0-100 only under the conditions stated in `Score.WeightedScoreBounds`.

## Model

| member | source | states |
|---|---|---|
| Sentiment.Normalize | functions/analyze_sentiment.php:30-31 | every character becomes its lower-case form if it is a letter, digit or whitespace, and a space otherwise; the length is kept |
| Sentiment.AnalyzeSentiment | functions/analyze_sentiment.php:21-65 | the counting loop returns the ratio (p - n) / (p + n) of the token hits, or 0 without hits, and the result lies in [-1, 1] |
| Sentiment.PolarityBounds | functions/analyze_sentiment.php:58-64 | the ratio always lies in [-1, 1], so the clamp never changes the score |
| Sentiment.Ratio | functions/analyze_sentiment.php:61 | for hit counts that are not both zero, the ratio is 1 iff there are no negatives, -1 iff there are no positives, 0 iff the counts balance, and it lies in [-1, 1] |
| Sentiment.PolarityOne | functions/analyze_sentiment.php:11-12 | the score is exactly 1.0 iff some token is positive and none is negative, so an all-positive sentence scores 1.0 and not the 0.8 of the doc comment |
| Sentiment.PolarityMinusOne | functions/analyze_sentiment.php:61-64 | the score is exactly -1.0 iff some token is negative and none is positive |
| Sentiment.PolarityZero | functions/analyze_sentiment.php:34-36 | the score is 0.0 iff the two hit counts are equal, which covers no tokens and no hits |
| Sentiment.SharedTokenCountsTwice | functions/analyze_sentiment.php:42-49 | a token in both lists raises both counts by one |
| Sentiment.PolarityPermutation | functions/analyze_sentiment.php:42-61 | reordering the tokens does not change the score |
| Sentiment.HitsPermutation | functions/analyze_sentiment.php:42-49 | a hit count depends only on the multiset of tokens |
| Sentiment.TokensAreAlphanumeric | functions/analyze_sentiment.php:30-32 | every token is non-empty and made of letters and digits only |
| Sentiment.PunctuationSplits | functions/analyze_sentiment.php:31-32 | punctuation separates tokens: "great!!!good" gives the two tokens "great" and "good" |
| Sentiment.SentimentLabel | functions/analyze_sentiment.php:106-110 | Positive iff the score is above 0.3, Negative iff below -0.3, Neutral iff in [-0.3, 0.3], both bounds included |
| Sentiment.LabelOfHits | functions/analyze_sentiment.php:61-110 | a text is labelled Positive iff 7 p > 13 n for its hit counts |
| Sentiment.ImplodeExplode | functions/analyze_sentiment.php:78 | splitting a file's content at newlines loses nothing: joining the lines gives the content back |
| Sentiment.NormalizeWordList | functions/analyze_sentiment.php:78-82 | the normalised list is no longer than the file's lines |
| Sentiment.NormalizeWordListMembers | functions/analyze_sentiment.php:78-82 | a word is in the list iff some line, trimmed, is neither "" nor "0" and lower-cases to it: the filter drops exactly those lines and keeps every other |
| Sentiment.NormalizedEntries | functions/analyze_sentiment.php:78-82 | every entry is lower-case, trimmed at both ends, and neither "" nor "0" |
| Sentiment.NormalizeWordListIdempotent | functions/analyze_sentiment.php:78-82 | normalising an already normalised list changes nothing |
| Sentiment.LoadWordList | functions/analyze_sentiment.php:74-83 | a missing file gives an empty list; otherwise every entry is a normalised word |
| Sentiment.LoadWordListMembers | functions/analyze_sentiment.php:74-83 | a loaded list holds exactly the lower-cased trimmed lines of the file that are neither "" nor "0" |
| Score.EngagementNorm | functions/compute_score.php:56-58 | the engagement component never exceeds 1 |
| Score.RatingNormRange | functions/compute_score.php:48 | one star maps to 0 and five stars to 1; the component lies in [0, 1] iff the average lies in [1, 5] |
| Score.RecencyRange | functions/compute_score.php:62-66 | recency is 1 on the day of the latest review and lies in (0, 1] |
| Score.RecencyDecreasing | functions/compute_score.php:66 | recency strictly decreases as the latest review gets older |
| Score.EngagementSign | functions/compute_score.php:56-58 | engagement is non-negative iff likes + comments >= dislikes; nothing bounds it from below |
| Score.WeightedScoreBounds | functions/compute_score.php:69-77 | the weights sum to 1, so with averages in range and no excess of dislikes the score lies in [0, 100] |
| Score.WeightedScoreMonotoneInRating | functions/compute_score.php:48-74 | with everything else fixed, a higher rating average never lowers the score |
| Score.NoReviewsScoresZero | functions/compute_score.php:26-29 | an item without reviews scores 0, whatever its engagement and age |
| ScoreCache.CachedScore | functions/compute_score.php:122-126 | a stored value is served iff the item has a record at most one hour old, and it is the stored value itself |
| ScoreCache.FreshWindow | functions/compute_score.php:122 | a record written at time t is served from t to t + 3600 inclusive, and not after |
| ScoreCache.ServedNearReturned | functions/compute_score.php:80-82 | the stored unrounded score and the rounded score returned by the same computation differ by at most 0.005 |
| ScoreCache.SecondLookupServesStored | functions/compute_score.php:111-126 | a second lookup right after a first one recomputes nothing, leaves the table alone, and agrees with the first to two places |
| ScoreCache.ComputedStoresUnrounded | functions/compute_score.php:69-102 | a successful computation returns the score rounded to 2 places and leaves exactly one record for the item, holding the unrounded score and the current time; no other record changes |
| ScoreCache.ComputedFailures | functions/compute_score.php:84-105 | a failed write changes no record; a failed statistics query returns 0 and changes no record |
| ScoreCache.ComputedNoReviews | functions/compute_score.php:26-29 | without reviews the item's record is set to 0 and 0 is returned |
| ScoreCache.ScoreStore.UpdateScoresTable | functions/compute_score.php:93-106 | the item's record is inserted or overwritten with the score and the current time; a failed write stores nothing |
| ScoreCache.ScoreStore.ComputeScore | functions/compute_score.php:10-88 | the returned score and the new table are those of the computation specified by `Computed` |
| ScoreCache.ScoreStore.GetOrComputeScore | functions/compute_score.php:111-131 | a fresh record is served untouched; otherwise, also when the lookup fails, the score is recomputed |
| Keywords.DeleteNonLettersSpec | api/create_post.php:144 | only letters and whitespace survive, and a text made of letters and whitespace is kept whole |
| Keywords.NonLetterJoins | api/create_post.php:143-145 | a non-letter, a digit included, between two runs of letters joins them into one word: "battery-life" gives "batterylife" |
| Keywords.RemoveStopWords | api/create_post.php:148-149 | no stop word survives, and every other word does |
| Keywords.Frequencies | api/create_post.php:152 | one entry per distinct word, in first-occurrence order, holding the word's number of occurrences |
| Keywords.KeywordsAreDistinctContentWords | api/create_post.php:142-156 | at most five keywords, no repetitions, each a word of the post and none of them a stop word |
| Keywords.KeywordsByFrequency | api/create_post.php:152-155 | keywords come in non-increasing frequency, and equally frequent ones in order of first occurrence |
| Keywords.KeywordsAreTopFive | api/create_post.php:152-155 | no word left out is more frequent than a keyword, and fewer than five keywords means no word was left out |
| Keywords.LeftOutWord | api/create_post.php:153-155 | a word that is not a keyword means five keywords were chosen, each at least as frequent as it |
| Posts.ValidatePost | api/create_post.php:29-42 | the first failing check is reported, in this order: a falsy product name, then a rating outside [1, 5], then a text under 20 bytes; none fails iff all three hold |
| Posts.MergeKeepsValid | api/create_post.php:106-133 | merging keeps both stored lists free of repetitions and at most ten long |
| Posts.GatingIsStrict | api/create_post.php:111-115 | a sentiment in [-0.3, 0.3] leaves the row as it was; a positive one leaves the negative list alone, and a negative one the positive list |
| Posts.MergeKeepsExistingFirst | api/create_post.php:112-122 | the merged list starts with the existing entries in order, holds only existing entries and new keywords without repetitions, and drops a new keyword only when it is full |
| Posts.MergeTwice | api/create_post.php:112-122 | merging the same keywords into a list twice gives the list of the first merge |
| Posts.MergeInsightIdempotent | api/create_post.php:106-122 | re-merging the same keywords with the same sentiment leaves the row unchanged |
| Posts.Collate | setup_user_posts.php:137-145 | the key a product name is found under is the name with each letter lower-cased, the same length |
| Posts.UpdateTouchesOneRow | api/create_post.php:100-133 | a post touches only the row its name collates to: no other row changes, none disappears, at most one appears, and an existing row keeps the name it was created with |
| Posts.CaseVariantsShareRow | api/create_post.php:100-133 | posts about "iPhone 15" and then "iphone 15" share one row, still named "iPhone 15", which merges the second post's keywords into the first's |
| Posts.PostBoard.UpdateCommunityInsights | api/create_post.php:96-137 | the row whose name matches the product case-insensitively becomes the merge of its old lists with the post's keywords, or a new row is created; a failure changes nothing; stored lists stay valid |
| Posts.PostBoard.CreatePost | api/create_post.php:12-91 | login, validation, table and insert failures are reported in that order and write nothing; success appends the trimmed post with the next id and its sentiment, and updates the insights, whose failure does not fail the request |
| Posts.PostBoard.StorePost | api/create_post.php:60-79 | the post is appended with the next id, a non-positive category stored as null, and the insights are updated |
| PostReview.ValidateReview | api/post_review.php:28-41 | a non-positive item id is reported first, then a rating outside 1..5, then a falsy or short text; none fails iff all hold |
| PostReview.EmptinessImpliedByLength | api/post_review.php:38 | the `empty` test adds nothing to the length test |
| PostReview.ItemReviewsAppend | api/post_review.php:56-60 | storing a review adds it to its own item's reviews only |
| PostReview.StatsAfterPost | api/post_review.php:56-65 | a posted review raises its item's count by one and changes no other item's statistics |
| PostReview.StatsInRange | functions/compute_score.php:13-23 | the averages over well-formed reviews lie in [1, 5] and [-1, 1] |
| PostReview.ReviewedScoreInRange | api/post_review.php:65 | the score recomputed from well-formed reviews lies in [0, 100] when dislikes do not outnumber likes and comments |
| PostReview.ReviewBoard.PostReview | api/post_review.php:14-78 | failures are reported in order and write nothing; success appends the review with its sentiment and recomputes the item's score from all its reviews, bypassing freshness; that score is returned |
| Likes.ToggleAction | api/like_review.php:39-56 | "added" iff the user has no record, "removed" iff the record has the same type, "updated" iff it has the other type |
| Likes.Toggled | api/like_review.php:39-56 | only the voter's record changes; it is absent after a removal and holds the new type otherwise |
| Likes.ToggledValid | api/like_post.php:27-45 | every record stays a like or a dislike; one record per (post, user) holds by construction |
| Likes.VoterIff | api/like_review.php:59-67 | a user counts as a voter of a type iff their record holds that type |
| Likes.ToggledCounts | api/like_review.php:39-74 | added: the vote's type gains one; removed: it loses one; updated: it gains one and the other type loses one; other targets are untouched |
| Likes.ToggleTwice | api/like_review.php:39-56 | voting the same way twice restores the table when the user had no record or one of that type |
| Likes.ToggleTwiceAfterOpposite | api/like_review.php:45-50 | after a dislike, two likes leave no record: a repeated vote is not an undo after an update |
| Likes.ToggledLike | api/like_comment.php:23-31 | the user's like flips and no other like changes |
| Likes.ToggledLikeTwice | api/like_comment.php:23-31 | liking a comment twice restores the table |
| Likes.Likers | api/like_comment.php:34-38 | the counted users are exactly those with a like on the comment |
| Likes.ToggledLikeCount | api/like_comment.php:23-38 | a like raises the count by one and an unlike lowers it by one |
| Likes.LikeStore.LikeReview | api/like_review.php:11-74 | login, id and type failures are reported in that order with no change; a failed lookup or write reports failure with no change; a failed counts query reports the same failure after the vote is recorded; success toggles the user's record and returns the action and the review's counts |
| Likes.LikeStore.LikePost | api/like_post.php:10-62 | a non-positive id and a bad type share one refusal; a failed write changes nothing, and a failed counts query fails after the vote is recorded; success toggles the record and returns the post's counts |
| Likes.LikeStore.LikeComment | api/like_comment.php:9-43 | the comment id is not checked; a failed write changes nothing, and a failed count query fails after the like is toggled; success toggles the like and returns the comment's like count |
| Compare.ExcerptsBounded | api/compare_universal.php:121-144 | at most three excerpts; each is the text itself up to 100 bytes, otherwise its first 100 bytes and "..." |
| Compare.SplitAtFirst | api/compare_universal.php:26-30 | no split iff the text has no "_"; otherwise the text is the head, "_" and the rest, and the head has no "_" |
| Compare.SplitAtFirstOf | api/compare_universal.php:26 | the split is at the first "_" whatever follows |
| Compare.ParseIdentifier | api/compare_universal.php:26-49 | an identifier without "_" is an invalid format; a parsed identifier has a positive id |
| Compare.ParseIdentifierOf | api/compare_universal.php:26-75 | "post_12_x" is post 12; a zero id is refused before the type; an id beyond PHP_INT_MAX saturates; only the exact types "item" and "post" are accepted |
| Compare.ParseIdentifierExponent | api/compare_universal.php:26-49 | the id goes through `intval` with its exponent form: "post_1e3" is post 1000 |
| Compare.OfficialScore | api/compare_universal.php:115-153 | an item's score is 0 without a record and otherwise within 0.05 of the stored value, however old the record; it is never recomputed |
| Compare.PostMetadata | api/compare_universal.php:204-211 | the category ("N/A" without one), then the author, then "Verified Purchase" only for a verified post |
| Compare.UserPostEntry | api/compare_universal.php:164-228 | a post is found iff the table exists and holds it; its likes and dislikes are the numbers of its votes of each type |
| Compare.Resolve | api/compare_universal.php:38-75 | a resolved entry has the parsed id and is an item entry iff the type was "item" |
| Compare.Lookup | api/compare_universal.php:24-89 | with the database answering, an identifier resolves as `Resolve` says; otherwise it fails, with a failed query exactly when it is well formed, since parsing runs no query |
| Compare.UniversalShape | api/compare_universal.php:16-81 | success iff both identifiers are present, their queries answer and both resolve, giving a's then b's entry; a's failure is reported first; an identifier compared with itself is accepted |
| Compare.UniversalQueryFailure | api/compare_universal.php:24-89 | "Comparison failed" is reported iff the loop reaches a query that throws: a's when a is well formed, or b's when a resolved and b is well formed |
| Compare.CompareUniversal | api/compare_universal.php:16-89 | the endpoint, its exception handler included, returns what `Universal` specifies |
| Compare.ResolveInOrder | api/compare_universal.php:24-76 | the loop succeeds iff every identifier resolves, giving their entries in order; otherwise it reports the failure of an identifier all of whose predecessors resolved |
| Compare.InOrderOfTwo | api/compare_universal.php:24-76 | for two identifiers the loop reports a's failure, else b's, else both entries, a's first |
| Compare.ItemsComparisonShape | api/compare.php:11-108 | invalid or equal ids are refused first with no score change; a query of a that throws before its score, or a missing a, fails with no score change; a later throw or a missing b fails too; success iff both items exist and all their queries answer, giving two sides, a then b, each with its score rounded to two places |
| Compare.MissingSecondStillRefreshesFirst | api/compare.php:27-55 | when the second item is missing, the first item's score has already been recomputed and stored |
| Compare.ThrowAfterScoreKeepsRefresh | api/compare.php:54-78 | when the first item's pros or cons query throws, the comparison fails but the score recomputed just before stays stored |
| Compare.CompareItems | api/compare.php:11-108 | the loop's result and the score table it leaves, exception handler included, are those that `ItemsComparison` specifies |
| Compare.PostSide | api/compare_posts.php:45-76 | a side exists iff the post does, and carries the post's like and dislike counts |
| Compare.PostSideOf | api/compare_posts.php:33-76 | a side exists iff the post's queries answer and the post exists; a throwing query gives the failed comparison |
| Compare.PostsComparisonShape | api/compare_posts.php:10-87 | success iff the ids are positive and distinct, the queries answer, the table exists and both posts exist; then a's side then b's, each with its like count; a missing first post is reported first; "Comparison failed" iff a query that runs throws |
| Compare.ComparePosts | api/compare_posts.php:10-87 | the loop, exception handler included, returns what `PostsComparison` specifies |
| Search.RelevanceTiers | api/search.php:80-92 | 100 iff the product name matches, 80 iff the tags but not the name match, 60 iff only the text matches; 50 iff the WHERE excludes the post |
| Search.PostHits | api/search.php:102-120 | one result per post row, in order, each built from its row |
| Search.PostHitsInTiers | api/search.php:80-110 | every post result scores 60, 80 or 100 and has a description of at most 153 bytes |
| Search.SearchResults | api/search.php:10-139 | refused iff the trimmed query is falsy; otherwise at most ten results drawn from the candidates, sorted by (score, rating) descending, with nothing left out outranking a result, all candidates kept when at most ten, and `count` their number |
| Search.TopSpec | api/search.php:124-132 | the first n of a stable descending sort are at most n, drawn from the input, in order, and outranked by nothing left out |
| Search.CollectItemHits | api/search.php:52-62 | the item loop builds one result per row, in order |
| Search.CollectPostHits | api/search.php:102-120 | the post loop appends one result per row after the item results |
| Search.SearchItemsAndPosts | api/search.php:10-144 | with the database answering, the endpoint returns what `SearchSpec` specifies; otherwise a query that passed the check reports "Search failed." |
| Search.Columns | api/search_posts.php:29-34 | one column iff the filter is "product", "tags" or "content"; otherwise each of the three columns |
| Search.ParamsMatchPlaceholders | api/search_posts.php:29-42 | as written, the parameters match the placeholders iff the filter is "all", "product", "tags" or "content" |
| Search.UnknownFilterMatchesAll | api/search_posts.php:29-34 | an unknown filter searches the three columns that "all" searches |
| Search.UnknownFilterFailsAsWritten | api/search_posts.php:29-42 | as written, the filter "everything" or "" makes a valid search fail |
| Search.SearchPostsAgreesOnKnownFilters | api/search_posts.php:29-42 | for the four documented filters the corrected binding changes nothing |
| Search.UnknownFilterSearchesAll | api/search_posts.php:29-42 | with the corrected binding, an unknown filter returns what "all" returns |
| Search.PreviewHits | api/search_posts.php:72-85 | one preview per row, in order |
| Search.SearchPostsResults | api/search_posts.php:10-93 | at most 20 results, each a post matching the query in the filter's columns, each preview at most 203 bytes, and `count` their number |
| Search.SearchPosts | api/search_posts.php:10-98 | with the database answering, the endpoint returns what `SearchPostsSpec` specifies; otherwise a query that passed the check reports "Search failed." |
| Search.CollectPreviews | api/search_posts.php:72-85 | the by-reference loop sets one preview per row |
| Text.Truncate | api/search.php:108-110 | the text itself up to the limit, otherwise its first bytes up to the limit and "..." |
| Text.IntVal | api/compare_universal.php:39 | `intval` of a string always lies between PHP_INT_MIN and PHP_INT_MAX |
| Text.SaturateRange | api/get_feed.php:10-12 | a value outside the 64-bit range becomes the nearer of PHP_INT_MIN and PHP_INT_MAX, and one inside it is kept |
| Text.IntValOfDigits | api/get_feed.php:10-12 | digits followed by anything that does not continue a number read as their value, saturated |
| Text.IntValOfDecimal | api/compare_universal.php:39 | the decimal form of n followed by such a remainder reads back as n, or PHP_INT_MAX when n exceeds it |
| Text.IntValOfScientific | api/compare_universal.php:39 | digits d, "e" and digits x read as d times 10 to the x, saturated |
| Text.IntValExponentExample | api/compare_universal.php:39 | "1e3" reads as 1000, where the leading digits alone would give 1 |
| Text.IntValOfFraction | api/get_feed.php:10-12 | digits, a "." and more digits read as the digits before the ".": the fraction is dropped |
| Text.IntValNegative | api/get_feed.php:10-12 | a "-" negates the already truncated magnitude, so "-2.7" reads as -2: truncation is toward zero |
| Text.IntValUnsigned | api/get_feed.php:10-12 | a string starting with a digit reads as its saturated magnitude |
| Feed.ParseRequest | api/get_feed.php:10-12 | absent parameters give category 0, sort "recent" and page 1; present ones go through `intval`, with its exponent, fraction and saturation |
| Feed.SortModeOf | api/get_feed.php:27-31 | "popular" and "rating" select their orders, and anything else sorts by creation time |
| Feed.OffsetSign | api/get_feed.php:13-14 | the offset is negative iff the page is below 1, is a multiple of 20, and grows by 20 per page |
| Feed.NonNumericPage | api/get_feed.php:12-14 | a page that is not a number is page 0, whose offset is negative |
| Feed.BuildQuery | api/get_feed.php:18-60 | one parameter per placeholder plus limit and offset; the category comes first and only when positive |
| Feed.Window | api/get_feed.php:56 | at most n rows, those at the offset and after it, in order |
| Feed.WindowsConsecutive | api/get_feed.php:13-56 | two consecutive pages together are the window twice as long |
| Feed.UserLikeZero | api/get_feed.php:72 | the viewer's vote is 0 iff there is no record, and otherwise 1 or -1 |
| Feed.Annotated | api/get_feed.php:67-74 | each post keeps its row and carries the viewer's vote only for a logged-in viewer |
| Feed.FeedPage | api/get_feed.php:10-81 | fails iff the page is below 1; at most 20 posts of the category, in sort order; the page echoed; `has_more` iff at least 20 rows remain from the offset |
| Feed.WindowOfSorted | api/get_feed.php:53-56 | a window of the sorted rows is drawn from the rows, in order, and full iff enough rows remain |
| Feed.FullFirstPage | api/get_feed.php:80 | with exactly 20 posts, page 1 is full and claims more |
| Feed.EmptySecondPage | api/get_feed.php:80 | with exactly 20 posts, the page 2 that page 1 announced is empty |
| Feed.AnnotateLikes | api/get_feed.php:67-74 | the by-reference loop sets each post's vote |
| Feed.GetFeed | api/get_feed.php:10-86 | with the database answering, the endpoint returns what `FeedSpec` specifies; a query that throws gives "Failed to load feed." |
| Client.ToggledSelection | public/search_results.php:147-157 | the selection never holds more than two ids or an id twice; a third id is refused and changes nothing; otherwise the id's membership flips and no other id changes |
| Client.SelectThenDeselect | public/search_results.php:148-156 | selecting and then deselecting an id restores the selection |
| Client.DeselectThenSelectReorders | public/search_results.php:148-156 | deselecting and reselecting the first of two ids moves it behind the other |
| Client.CompareSelection.ToggleCompare | public/search_results.php:147-161 | a refused id is reported for unchecking and changes nothing; otherwise the selection is toggled and the section is visible iff two ids are selected |
| Client.CompareSelection.CompareSelected | public/search_results.php:163-168 | a pair is produced iff exactly two ids are selected, in insertion order, and the two differ |
| Client.NestedFloor | public/js/main.js:40-43 | flooring twice equals flooring once by the product of the divisors |
| Client.Bucket | public/js/main.js:39-55 | more than 7 days gives the date; 1 to 7 days, hours and minutes give their count; under a minute, a future date included, gives "Just now" |
| Client.SingularExactlyForOne | public/js/main.js:48-52 | the singular phrase is used exactly for a count of one |
| Client.FormatDateBoundaries | public/js/main.js:45-55 | 59 999 ms and -5 000 ms give "Just now", 60 000 ms "1 minute ago", one day "1 day ago", just under eight days "7 days ago", eight days the date |

## Left out

- SQL and PDO. Query results are inputs, in the order their ORDER BY gives.
  Tables are maps, sets and sequences. Whether the database answers is an input
  at each point where an exception changes the outcome: one per endpoint for
  search and the feed, one per identifier, item or post for the comparisons,
  and separate ones for a write and the count read after it. The text of a
  `PDOException`, which `compare_universal` appends to its message, is not
  modelled.
- Search.SearchItemsAndPosts: the `search_logs` insert is not modelled; only
  its failure is, which reports a failed search like any other query.
- SQL ORDER BY ties. MySQL leaves the order of tied rows unspecified; the model
  breaks ties by input order.
- The `%` and `_` wildcards inside a search query. The model treats them as
  literal characters. LIKE is modelled as a case-insensitive substring test.
- Sessions. A logged-in user is `Some(user id)`.
- The JSON request bodies and `json_decode`. The decoded fields are parameters.
  The item `metadata` column is not modelled, because its JSON is opaque to the
  logic.
- `lastInsertId`. Ids are sequential in the model.
- The search logging insert of `search`. It has no effect on the response.
- The word-list files and the lazy global cache of the scorer. The contents of
  the files are parameters.
- Unicode. `mb_strtolower`, `\p{L}` and `\p{N}` are modelled on ASCII letters
  and digits.
- Floating point. Scores are exact reals, and PHP `round` is rounding half away
  from zero on reals.
- The natural logarithm. It is a parameter with ln 1 = 0 and strict
  monotonicity. Its argument, 1 + likes - dislikes + comments, is an integer;
  at 0 PHP's `log` returns -INF and below 0 NAN, which the model does not
  represent.
- `DateTime` and `strtotime`. Timestamps are integer seconds, and the day
  difference is the whole number of days between them.
- `toLocaleDateString` is a parameter of `Client.FormatDate`. An invalid date,
  which gives NaN in the browser, is not modelled.
- The DOM. This covers `showMessage`, the checkbox element and the navigation
  in `compareSelected`, which the model returns as the pair to navigate to.
- Concurrency. The check-then-write sequences are modelled as single,
  sequential requests.
- Feed.GetFeed: a negative OFFSET is modelled as the failure the endpoint
  reports. With native prepared statements the database rejects it; the model
  does not state the error text.
- Posts.PostBoard.CreatePost: the request's `rating` is taken after `floatval`
  and `category_id` after `intval`. The conversion of arbitrary JSON values is
  not modelled.
- PostReview.ReviewBoard.PostReview: the engagement counts the recomputation
  reads are an input, not derived from the like tables.
- Text.IntVal: a numeric string beyond the range of a double (about 1.8e308,
  which PHP reads as INF and so as 0) is not modelled, nor is the rounding of a
  long decimal or exponent form to the nearest double before truncation; the
  model truncates the exact value. Trailing whitespace is not treated apart,
  since it ends the numeric prefix either way.
- Feed.GetFeed: `(page - 1) * 20` overflows to a float for a page near
  PHP_INT_MAX; the model computes the exact offset.
- Sentiment.Hits: `in_array` is non-strict, so a numeric token and a numeric
  list entry compare as numbers ("01" matches "1"); the model compares the
  strings exactly.
- Posts.Collate: utf8mb4_unicode_ci also equates accented and unaccented
  letters and ignores trailing spaces; the model folds the case of ASCII
  letters only.

## Findings

| source | as written | input that shows it | evidently intended | confidence | as-written member | corrected member |
|---|---|---|---|---|---|---|
| api/search_posts.php:29-42 | an unknown filter selects the three-column WHERE clause (three placeholders) but binds one parameter, so the statement fails and the search reports "Search failed." | `q=phone&filter=everything`, or `filter=` (empty) | an unknown filter searches all three columns, as "all" does, with one parameter per placeholder | not executed | Search.UnknownFilterFailsAsWritten | Search.UnknownFilterSearchesAll |
