/**
 * The two search endpoints. `search` looks for the trimmed query in official
 * items (title, description) and user posts (product name, text, tags), gives
 * posts a relevance tier, merges both lists, sorts them by score then rating
 * and keeps ten. `search_posts` searches user posts only, in the columns a
 * filter selects. Table rows are given in the order of each query's ORDER BY;
 * the WHERE and the LIMIT are modelled.
 */
module Search {
  import opened Wrappers
  import opened Text
  import opened Seqs
  import opened Numeric
  import opened Ranking

  /** An official item as the item query sees it: the stored score (None without a record) and the rating average. */
  datatype ItemRecord = ItemRecord(itemId: int, title: string, description: string, storedScore: Option<real>,
                                   avgRating: real, reviewCount: nat)

  /** A user post with its author, category and engagement counts. */
  datatype PostRecord = PostRecord(postId: int, productName: string, postText: string, rating: real, tags: string,
                                   isVerified: bool, sentiment: real, createdAt: int, userName: string,
                                   categoryName: Option<string>, commentCount: nat, likes: nat, dislikes: nat)

  /** Why a search fails. */
  datatype SearchError = QueryRequired | PostsUnavailable | SearchFailed

  /** Rows each source query returns, results kept, and the description cut of a post result. */
  const PerSourceLimit := 5
  const MaxResults := 10
  const DescriptionLength := 150

  // ---------------------------------------------------------------------------
  // search
  // ---------------------------------------------------------------------------

  /** The item query's WHERE: the title or the description contains the query. */
  predicate ItemMatches(i: ItemRecord, q: string) {
    Like(i.title, q) || Like(i.description, q)
  }

  /** The post query's WHERE: the product name, the text or the tags contain the query. */
  predicate PostMatches(p: PostRecord, q: string) {
    Like(p.productName, q) || Like(p.postText, q) || Like(p.tags, q)
  }

  /** The post query's CASE: 100 for the product name, else 80 for the tags, else 60 for the text, else 50. */
  function Relevance(p: PostRecord, q: string): real {
    if Like(p.productName, q) then 100.0
    else if Like(p.tags, q) then 80.0
    else if Like(p.postText, q) then 60.0
    else 50.0
  }

  /**
   * The tiers follow the columns' precedence, and the ELSE tier 50 is exactly
   * the posts the WHERE excludes: no returned post scores 50.
   */
  lemma RelevanceTiers(p: PostRecord, q: string)
    ensures Relevance(p, q) == 100.0 <==> Like(p.productName, q)
    ensures Relevance(p, q) == 80.0 <==> !Like(p.productName, q) && Like(p.tags, q)
    ensures Relevance(p, q) == 60.0 <==> !Like(p.productName, q) && !Like(p.tags, q) && Like(p.postText, q)
    ensures Relevance(p, q) == 50.0 <==> !PostMatches(p, q)
    ensures PostMatches(p, q) ==> Relevance(p, q) >= 60.0
  {
  }

  /** One search result. */
  datatype Hit =
    | ItemHit(id: int, title: string, description: string, score: real, avgRating: real, reviewCount: nat)
    | PostHit(id: int, title: string, description: string, score: real, avgRating: real, reviewCount: nat,
              author: string, verified: string, tags: string, createdAt: int)

  /** An item result: stored score (0 without one) to two places, rating average to one. */
  function ItemHitOf(i: ItemRecord): Hit {
    ItemHit(i.itemId, i.title, i.description, Round(i.storedScore.GetOr(0.0), 2), Round(i.avgRating, 1), i.reviewCount)
  }

  /** A post result: its relevance as score, its rating to one place, its text cut to 150 bytes. */
  function PostHitOf(p: PostRecord, q: string): Hit {
    PostHit(p.postId, p.productName, Truncate(p.postText, DescriptionLength), Relevance(p, q), Round(p.rating, 1),
            p.commentCount, p.userName, if p.isVerified then "Yes" else "No", p.tags, p.createdAt)
  }

  function ItemHits(rows: seq<ItemRecord>): seq<Hit> {
    if rows == [] then [] else ItemHits(rows[..|rows| - 1]) + [ItemHitOf(rows[|rows| - 1])]
  }

  function PostHits(rows: seq<PostRecord>, q: string): (hs: seq<Hit>)
    ensures |hs| == |rows|
    ensures forall k :: 0 <= k < |rows| ==> hs[k] == PostHitOf(rows[k], q)
  {
    if rows == [] then [] else PostHits(rows[..|rows| - 1], q) + [PostHitOf(rows[|rows| - 1], q)]
  }

  /** The rows the item query returns (LIMIT 5) for a query. */
  function ItemRows(items: seq<ItemRecord>, q: string): seq<ItemRecord> {
    Take(Filter(items, i => ItemMatches(i, q)), PerSourceLimit)
  }

  /** The rows the post query returns (LIMIT 5), none when the posts table is missing. */
  function PostRows(postsTable: bool, posts: seq<PostRecord>, q: string): seq<PostRecord> {
    if postsTable then Take(Filter(posts, p => PostMatches(p, q)), PerSourceLimit) else []
  }

  /** The `usort` comparator: score descending, then rating average descending; PHP's sort is stable. */
  function HitKey(h: Hit): Key {
    Key(h.score, h.avgRating)
  }

  /** Items then posts, before sorting. */
  function Candidates(items: seq<ItemRecord>, postsTable: bool, posts: seq<PostRecord>, q: string): seq<Hit> {
    ItemHits(ItemRows(items, q)) + PostHits(PostRows(postsTable, posts, q), q)
  }

  /** The response: the trimmed query, the count and the results. */
  datatype SearchResponse = SearchResponse(query: string, count: nat, results: seq<Hit>)

  /** `search`: refuse a falsy trimmed query; otherwise sort the candidates and keep ten. */
  function SearchSpec(rawQuery: string, items: seq<ItemRecord>, postsTable: bool, posts: seq<PostRecord>)
    : Result<SearchResponse, SearchError>
  {
    var q := Trim(rawQuery);
    if IsFalsy(q) then Err(QueryRequired)
    else
      var results := Take(SortDesc(Candidates(items, postsTable, posts, q), HitKey), MaxResults);
      Ok(SearchResponse(q, |results|, results))
  }

  /**
   * A search is refused exactly when the trimmed query is "" or "0". Its
   * results are at most ten, each of them a candidate and none repeated
   * beyond its occurrences among the candidates, in non-increasing
   * (score, rating) order, no candidate left out outranks a result, and
   * `count` is their number.
   */
  lemma SearchResults(rawQuery: string, items: seq<ItemRecord>, postsTable: bool, posts: seq<PostRecord>)
    ensures SearchSpec(rawQuery, items, postsTable, posts).Err? <==> IsFalsy(Trim(rawQuery))
    ensures var r := SearchSpec(rawQuery, items, postsTable, posts);
            r.Ok? ==>
              var hits := r.value.results;
              var all := Candidates(items, postsTable, posts, Trim(rawQuery));
              && r.value.count == |hits| && |hits| <= MaxResults
              && multiset(hits) <= multiset(all)
              && (forall p, q :: 0 <= p < q < |hits| ==> !Outranks(HitKey(hits[q]), HitKey(hits[p])))
              && (|all| <= MaxResults ==> multiset(hits) == multiset(all))
              && (forall x, k :: x in multiset(all) - multiset(hits) && 0 <= k < |hits| ==>
                    !Outranks(HitKey(x), HitKey(hits[k])))
  {
    var q := Trim(rawQuery);
    if !IsFalsy(q) {
      TopSpec(Candidates(items, postsTable, posts, q), HitKey, MaxResults);
    }
  }

  /**
   * The first `n` of a stable descending sort: at most `n`, drawn from `s`, in
   * order, all of `s` when it is short, and nothing left out outranks anything kept.
   */
  lemma TopSpec<T>(s: seq<T>, key: T -> Key, n: nat)
    ensures var top := Take(SortDesc(s, key), n);
            && |top| <= n
            && multiset(top) <= multiset(s)
            && (forall p, q :: 0 <= p < q < |top| ==> !Outranks(key(top[q]), key(top[p])))
            && (|s| <= n ==> multiset(top) == multiset(s))
            && (forall x, k :: x in multiset(s) - multiset(top) && 0 <= k < |top| ==> !Outranks(key(x), key(top[k])))
  {
    var sorted := SortDesc(s, key);
    SortDescSpec(s, key);
    var top := Take(sorted, n);
    assert sorted == top + sorted[|top|..];
    assert multiset(sorted) == multiset(top) + multiset(sorted[|top|..]);
    PrefixOutranksRest(sorted, key, |top|);
  }

  /** In a non-increasing sequence, nothing after the first `m` outranks anything among them. */
  lemma PrefixOutranksRest<T>(sorted: seq<T>, key: T -> Key, m: nat)
    requires m <= |sorted|
    requires forall p, q :: 0 <= p < q < |sorted| ==> !Outranks(key(sorted[q]), key(sorted[p]))
    ensures forall x, k :: x in multiset(sorted) - multiset(sorted[..m]) && 0 <= k < m ==>
              !Outranks(key(x), key(sorted[k]))
  {
    var top := sorted[..m];
    var rest := sorted[m..];
    assert sorted == top + rest;
    assert multiset(sorted) - multiset(top) == multiset(rest);
    forall x, k | x in multiset(sorted) - multiset(top) && 0 <= k < m
      ensures !Outranks(key(x), key(sorted[k]))
    {
      assert x in rest;
      var j :| 0 <= j < |rest| && rest[j] == x;
      assert sorted[m + j] == x;
    }
  }

  /** Every post result scores 60, 80 or 100, and its description is at most 153 bytes. */
  lemma PostHitsInTiers(postsTable: bool, posts: seq<PostRecord>, q: string)
    ensures forall h :: h in PostHits(PostRows(postsTable, posts, q), q) ==>
              h.PostHit? && (h.score == 100.0 || h.score == 80.0 || h.score == 60.0) &&
              |h.description| <= DescriptionLength + 3
  {
    var rows := PostRows(postsTable, posts, q);
    forall h | h in PostHits(rows, q)
      ensures h.PostHit? && (h.score == 100.0 || h.score == 80.0 || h.score == 60.0) &&
              |h.description| <= DescriptionLength + 3
    {
      var k :| 0 <= k < |rows| && h == PostHitOf(rows[k], q);
      assert rows[k] in Filter(posts, p => PostMatches(p, q));
      FilterMembers(posts, p => PostMatches(p, q), rows[k]);
      RelevanceTiers(rows[k], q);
    }
  }

  /** The loop over the item rows. */
  method CollectItemHits(rows: seq<ItemRecord>) returns (results: seq<Hit>)
    ensures results == ItemHits(rows)
  {
    results := [];
    for k := 0 to |rows|
      invariant results == ItemHits(rows[..k])
    {
      assert rows[..k + 1][..k] == rows[..k];
      results := results + [ItemHitOf(rows[k])];
    }
    assert rows[..|rows|] == rows;
  }

  /** The loop over the post rows, appending to the item results. */
  method CollectPostHits(prefix: seq<Hit>, rows: seq<PostRecord>, q: string) returns (results: seq<Hit>)
    ensures results == prefix + PostHits(rows, q)
  {
    results := prefix;
    for k := 0 to |rows|
      invariant results == prefix + PostHits(rows[..k], q)
    {
      assert rows[..k + 1][..k] == rows[..k];
      results := results + [PostHitOf(rows[k], q)];
    }
    assert rows[..|rows|] == rows;
  }

  /**
   * `search`: the two result loops, then the sort and the cut. `queryOk` says
   * whether the database answers the log insert and the queries; when one of
   * them throws, the search that got past the query check reports a failed
   * search.
   */
  method SearchItemsAndPosts(rawQuery: string, items: seq<ItemRecord>, postsTable: bool, posts: seq<PostRecord>,
                             queryOk: bool)
    returns (r: Result<SearchResponse, SearchError>)
    ensures queryOk ==> r == SearchSpec(rawQuery, items, postsTable, posts)
    ensures !queryOk ==> r == if IsFalsy(Trim(rawQuery)) then Err(QueryRequired) else Err(SearchFailed)
  {
    var q := Trim(rawQuery);
    if IsFalsy(q) {
      return Err(QueryRequired);
    }
    if !queryOk {
      return Err(SearchFailed);
    }
    var results := CollectItemHits(ItemRows(items, q));
    results := CollectPostHits(results, PostRows(postsTable, posts, q), q);
    var top := Take(SortDesc(results, HitKey), MaxResults);
    r := Ok(SearchResponse(q, |top|, top));
  }

  // ---------------------------------------------------------------------------
  // search_posts
  // ---------------------------------------------------------------------------

  /** The columns a post search can look in. */
  datatype Column = ProductName | Tags | PostText

  function ColumnValue(p: PostRecord, c: Column): string {
    match c
    case ProductName => p.productName
    case Tags => p.tags
    case PostText => p.postText
    }

  /** The `match` on the filter: one column for "product", "tags" and "content", all three for anything else. */
  function Columns(filter: string): (cs: seq<Column>)
    ensures |cs| == 1 <==> filter == "product" || filter == "tags" || filter == "content"
    ensures |cs| == 1 || multiset(cs) == multiset{ProductName, PostText, Tags}
  {
    if filter == "product" then [ProductName]
    else if filter == "tags" then [Tags]
    else if filter == "content" then [PostText]
    else [ProductName, PostText, Tags]
  }

  /** How many `?` the WHERE clause has: one per column. */
  function Placeholders(filter: string): nat {
    |Columns(filter)|
  }

  /** How many parameters the code binds as written: three only for "all". */
  function ParamsAsWritten(filter: string): nat {
    if filter == "all" then 3 else 1
  }

  /** The intended binding: one parameter per placeholder. */
  function Params(filter: string): (n: nat)
    ensures n == Placeholders(filter)
  {
    |Columns(filter)|
  }

  /** As written, placeholders and parameters agree exactly for the four documented filters. */
  lemma ParamsMatchPlaceholders(filter: string)
    ensures ParamsAsWritten(filter) == Placeholders(filter) <==>
              filter == "all" || filter == "product" || filter == "tags" || filter == "content"
  {
  }

  /** A row matches when one of the filter's columns contains the query. */
  predicate MatchesFilter(p: PostRecord, q: string, filter: string) {
    exists k :: 0 <= k < |Columns(filter)| && Like(ColumnValue(p, Columns(filter)[k]), q)
  }

  /** An unknown filter searches the same three columns as "all". */
  lemma UnknownFilterMatchesAll(p: PostRecord, q: string, filter: string)
    requires filter != "product" && filter != "tags" && filter != "content"
    ensures MatchesFilter(p, q, filter) <==> MatchesFilter(p, q, "all")
    ensures MatchesFilter(p, q, "all") <==> PostMatches(p, q)
  {
    assert Columns(filter) == Columns("all") == [ProductName, PostText, Tags];
    if PostMatches(p, q) {
      if Like(p.productName, q) {
        assert Like(ColumnValue(p, Columns("all")[0]), q);
      } else if Like(p.postText, q) {
        assert Like(ColumnValue(p, Columns("all")[1]), q);
      } else {
        assert Like(ColumnValue(p, Columns("all")[2]), q);
      }
    }
  }

  /** The most rows a post search returns, and the preview length. */
  const MaxPostResults := 20
  const PreviewLength := 200

  /** A post search result: the row and its preview. */
  datatype PostSearchHit = PostSearchHit(post: PostRecord, preview: string)

  /** The response: the trimmed query, the filter, the count and the results. */
  datatype PostSearchResponse = PostSearchResponse(query: string, filter: string, count: nat, results: seq<PostSearchHit>)

  /** The preview: the whole text up to 200 bytes, else its first 200 bytes and "...". */
  function PreviewOf(p: PostRecord): PostSearchHit {
    PostSearchHit(p, Truncate(p.postText, PreviewLength))
  }

  function PreviewHits(rows: seq<PostRecord>): (hs: seq<PostSearchHit>)
    ensures |hs| == |rows|
    ensures forall k :: 0 <= k < |rows| ==> hs[k] == PreviewOf(rows[k])
  {
    if rows == [] then [] else PreviewHits(rows[..|rows| - 1]) + [PreviewOf(rows[|rows| - 1])]
  }

  /** The rows the post search returns: those matching the filter's columns, at most 20. */
  function FilteredRows(posts: seq<PostRecord>, q: string, filter: string): seq<PostRecord> {
    Take(Filter(posts, p => MatchesFilter(p, q, filter)), MaxPostResults)
  }

  /**
   * `search_posts` as written: the filter defaults to "all"; a falsy trimmed
   * query and a missing table are refused; a filter for which the code binds
   * fewer parameters than the clause has placeholders makes the statement
   * fail, reported as a failed search.
   */
  function SearchPostsAsWritten(rawQuery: string, filter: Option<string>, postsTable: bool, posts: seq<PostRecord>)
    : Result<PostSearchResponse, SearchError>
  {
    var q := Trim(rawQuery);
    var f := filter.GetOr("all");
    if IsFalsy(q) then Err(QueryRequired)
    else if !postsTable then Err(PostsUnavailable)
    else if ParamsAsWritten(f) != Placeholders(f) then Err(SearchFailed)
    else
      var results := PreviewHits(FilteredRows(posts, q, f));
      Ok(PostSearchResponse(q, f, |results|, results))
  }

  /** As written, any filter outside the four documented ones fails the search, e.g. "everything". */
  lemma UnknownFilterFailsAsWritten(rawQuery: string, posts: seq<PostRecord>)
    requires !IsFalsy(Trim(rawQuery))
    ensures SearchPostsAsWritten(rawQuery, Some("everything"), true, posts) == Err(SearchFailed)
    ensures SearchPostsAsWritten(rawQuery, Some(""), true, posts) == Err(SearchFailed)
  {
    assert "everything" != "all" && "everything" != "product" && "everything" != "tags" && "everything" != "content";
  }

  /** `search_posts` with one parameter bound per placeholder: an unknown filter searches all three columns. */
  function SearchPostsSpec(rawQuery: string, filter: Option<string>, postsTable: bool, posts: seq<PostRecord>)
    : Result<PostSearchResponse, SearchError>
  {
    var q := Trim(rawQuery);
    var f := filter.GetOr("all");
    if IsFalsy(q) then Err(QueryRequired)
    else if !postsTable then Err(PostsUnavailable)
    else
      var results := PreviewHits(FilteredRows(posts, q, f));
      Ok(PostSearchResponse(q, f, |results|, results))
  }

  /** For the four documented filters, binding one parameter per placeholder changes nothing. */
  lemma SearchPostsAgreesOnKnownFilters(rawQuery: string, filter: Option<string>, postsTable: bool, posts: seq<PostRecord>)
    requires var f := filter.GetOr("all"); f == "all" || f == "product" || f == "tags" || f == "content"
    ensures SearchPostsSpec(rawQuery, filter, postsTable, posts) == SearchPostsAsWritten(rawQuery, filter, postsTable, posts)
  {
    ParamsMatchPlaceholders(filter.GetOr("all"));
  }

  /** With one parameter per placeholder, an unknown filter returns the rows "all" returns. */
  lemma UnknownFilterSearchesAll(rawQuery: string, filter: string, postsTable: bool, posts: seq<PostRecord>)
    requires filter != "product" && filter != "tags" && filter != "content"
    ensures var r := SearchPostsSpec(rawQuery, Some(filter), postsTable, posts);
            var all := SearchPostsSpec(rawQuery, Some("all"), postsTable, posts);
            r.Ok? <==> all.Ok?
    ensures var r := SearchPostsSpec(rawQuery, Some(filter), postsTable, posts);
            var all := SearchPostsSpec(rawQuery, Some("all"), postsTable, posts);
            r.Ok? ==> r.value.results == all.value.results
  {
    var q := Trim(rawQuery);
    forall p | p in posts
      ensures MatchesFilter(p, q, filter) == MatchesFilter(p, q, "all")
    {
      UnknownFilterMatchesAll(p, q, filter);
    }
    FilterSame(posts, p => MatchesFilter(p, q, filter), p => MatchesFilter(p, q, "all"));
  }

  /**
   * Every post search result is a post matching the query in the filter's
   * columns, at most 20 are returned, each preview is at most 203 bytes, and
   * `count` is their number.
   */
  lemma SearchPostsResults(rawQuery: string, filter: Option<string>, postsTable: bool, posts: seq<PostRecord>)
    ensures var r := SearchPostsSpec(rawQuery, filter, postsTable, posts);
            r.Ok? ==>
              && r.value.count == |r.value.results| <= MaxPostResults
              && forall k :: 0 <= k < |r.value.results| ==>
                   r.value.results[k].post in posts &&
                   MatchesFilter(r.value.results[k].post, r.value.query, r.value.filter) &&
                   |r.value.results[k].preview| <= PreviewLength + 3
  {
    var q := Trim(rawQuery);
    var f := filter.GetOr("all");
    if !IsFalsy(q) && postsTable {
      var rows := FilteredRows(posts, q, f);
      var hs := PreviewHits(rows);
      assert SearchPostsSpec(rawQuery, filter, postsTable, posts) == Ok(PostSearchResponse(q, f, |hs|, hs));
      forall k | 0 <= k < |hs|
        ensures hs[k].post in posts && MatchesFilter(hs[k].post, q, f) && |hs[k].preview| <= PreviewLength + 3
      {
        assert hs[k] == PreviewOf(rows[k]);
        assert rows[k] in Filter(posts, p => MatchesFilter(p, q, f));
        FilterMembers(posts, p => MatchesFilter(p, q, f), rows[k]);
        TruncateStable(rows[k].postText, PreviewLength);
      }
    }
  }

  /**
   * `search_posts`: the result loop that adds each row's preview. `queryOk`
   * says whether the database answers; when it does not, the SHOW TABLES
   * query, the first to run, throws and the search reports a failed search.
   */
  method SearchPosts(rawQuery: string, filter: Option<string>, postsTable: bool, posts: seq<PostRecord>, queryOk: bool)
    returns (r: Result<PostSearchResponse, SearchError>)
    ensures queryOk ==> r == SearchPostsSpec(rawQuery, filter, postsTable, posts)
    ensures !queryOk ==> r == if IsFalsy(Trim(rawQuery)) then Err(QueryRequired) else Err(SearchFailed)
  {
    var q := Trim(rawQuery);
    var f := filter.GetOr("all");
    if IsFalsy(q) {
      return Err(QueryRequired);
    }
    if !queryOk {
      return Err(SearchFailed);
    }
    if !postsTable {
      return Err(PostsUnavailable);
    }
    var results := CollectPreviews(FilteredRows(posts, q, f));
    r := Ok(PostSearchResponse(q, f, |results|, results));
  }

  /** The by-reference loop that adds each row's preview. */
  method CollectPreviews(rows: seq<PostRecord>) returns (results: seq<PostSearchHit>)
    ensures results == PreviewHits(rows)
  {
    results := [];
    for k := 0 to |rows|
      invariant results == PreviewHits(rows[..k])
    {
      assert rows[..k + 1][..k] == rows[..k];
      results := results + [PreviewOf(rows[k])];
    }
    assert rows[..|rows|] == rows;
  }
}
