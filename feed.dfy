/**
 * The feed endpoint: reads the category, sort and page parameters, builds the
 * WHERE clause and its parameters, pages through the user posts twenty at a
 * time in the chosen order, and, for a logged-in user, annotates each post with
 * the user's own vote. The posts table is an input sequence; the SQL ORDER BY
 * is a stable descending sort of it.
 */
module Feed {
  import opened Wrappers
  import opened Text
  import opened Seqs
  import opened Ranking
  import opened Likes

  /** Posts per page. */
  const PageSize := 20

  /** A user post with the aggregates the feed query computes for it; its rating has one decimal. */
  datatype FeedRow = FeedRow(postId: int, categoryId: Option<int>, rating: real, createdAt: int,
                             likes: nat, dislikes: nat, commentCount: nat)

  /** The three orders the feed offers. */
  datatype SortMode = Popular | ByRating | Recent

  /** The request after defaults and `intval`. */
  datatype FeedRequest = FeedRequest(category: int, sort: string, page: int)

  /** Absent parameters default to category 0, sort "recent" and page 1; present ones go through `intval`. */
  function ParseRequest(category: Option<string>, sort: Option<string>, page: Option<string>): (r: FeedRequest)
    ensures category.None? ==> r.category == 0
    ensures category.Some? ==> r.category == IntVal(category.value)
    ensures r.sort == sort.GetOr("recent")
    ensures page.None? ==> r.page == 1
    ensures page.Some? ==> r.page == IntVal(page.value)
  {
    FeedRequest(if category.Some? then IntVal(category.value) else 0,
                sort.GetOr("recent"),
                if page.Some? then IntVal(page.value) else 1)
  }

  /** The `match` on the sort parameter: anything but "popular" and "rating" is the newest first. */
  function SortModeOf(sort: string): (m: SortMode)
    ensures m == Popular <==> sort == "popular"
    ensures m == ByRating <==> sort == "rating"
    ensures m == Recent <==> sort != "popular" && sort != "rating"
  {
    if sort == "popular" then Popular
    else if sort == "rating" then ByRating
    else Recent
  }

  /** The ORDER BY key of a row: net votes plus comments, the rating, or the creation time. */
  function SortKey(mode: SortMode, row: FeedRow): Key {
    match mode
    case Popular => Key((row.likes as int - row.dislikes as int + row.commentCount as int) as real, 0.0)
    case ByRating => Key(row.rating, 0.0)
    case Recent => Key(row.createdAt as real, 0.0)
  }

  /** `(page - 1) * limit`, with no lower bound on the page. */
  function Offset(page: int): int {
    (page - 1) * PageSize
  }

  /** The offset is a multiple of the page size, and it is negative exactly for pages below 1. */
  lemma OffsetSign(page: int)
    ensures Offset(page) < 0 <==> page <= 0
    ensures Offset(page) % PageSize == 0
    ensures Offset(page + 1) == Offset(page) + PageSize
  {
  }

  /** A page that does not parse as a number is page 0, whose offset is negative. */
  lemma NonNumericPage()
    ensures ParseRequest(None, None, Some("next")).page == 0
    ensures Offset(ParseRequest(None, None, Some("next")).page) < 0
  {
    assert IntVal("next") == 0 by {
      assert !IsDigit('n');
    }
  }

  /**
   * Builds the WHERE clause and the statement parameters by appending: the
   * category condition and its parameter only for a positive category, then
   * the limit and the offset.
   */
  method BuildQuery(req: FeedRequest) returns (where: string, params: seq<int>)
    ensures Count(where, '?') + 2 == |params|
    ensures |params| == if req.category > 0 then 3 else 2
    ensures params[|params| - 2] == PageSize && params[|params| - 1] == Offset(req.page)
    ensures req.category > 0 ==> params[0] == req.category
  {
    where := "1=1";
    params := [];
    if req.category > 0 {
      CountAppend(where, " AND up.category_id = ?", '?');
      where := where + " AND up.category_id = ?";
      params := params + [req.category];
    }
    params := params + [PageSize, Offset(req.page)];
  }

  /** The rows the WHERE clause keeps: all of them, or those of the category when it is positive. */
  function Selected(rows: seq<FeedRow>, category: int): seq<FeedRow> {
    Filter(rows, (r: FeedRow) => category <= 0 || r.categoryId == Some(category))
  }

  /** The feed in its ORDER BY order. */
  function Ordered(rows: seq<FeedRow>, req: FeedRequest): seq<FeedRow> {
    var mode := SortModeOf(req.sort);
    SortDesc(Selected(rows, req.category), (r: FeedRow) => SortKey(mode, r))
  }

  /** `LIMIT n OFFSET off` over an ordered result. */
  function Window<T>(s: seq<T>, off: nat, n: nat): (w: seq<T>)
    ensures |w| <= n
    ensures off + |w| <= |s| || w == []
    ensures forall k :: 0 <= k < |w| ==> off + k < |s| && w[k] == s[off + k]
  {
    if off >= |s| then [] else Take(s[off..], n)
  }

  /** Two consecutive pages are the window twice as long. */
  lemma WindowsConsecutive<T>(s: seq<T>, off: nat, n: nat)
    ensures Window(s, off, n) + Window(s, off + n, n) == Window(s, off, 2 * n)
  {
    var w1 := Window(s, off, n);
    var w2 := Window(s, off + n, n);
    var w := Window(s, off, 2 * n);
    if off + n <= |s| {
      assert |w1| == n;
      assert |w| == |w1| + |w2|;
      forall k | 0 <= k < |w|
        ensures (w1 + w2)[k] == w[k]
      {
        if k >= n {
          assert w2[k - n] == s[off + k];
        }
      }
    } else {
      assert w2 == [];
      assert w1 == w;
    }
  }

  /** Why the feed fails. */
  datatype FeedError = FeedFailed

  /** A post of the feed with the viewer's own vote, present only for a logged-in viewer. */
  datatype FeedPost = FeedPost(row: FeedRow, userLike: Option<int>)

  /** The response: the posts, the page number and whether another page may follow. */
  datatype FeedResponse = FeedResponse(posts: seq<FeedPost>, page: int, hasMore: bool)

  /** The viewer's vote on a post: 0 when there is none, otherwise its type. */
  function UserLike(votes: Votes, postId: int, user: int): int {
    if (postId, user) in votes then votes[(postId, user)] else 0
  }

  /** With votes of 1 and -1 only, the viewer's vote is 0 exactly when they have not voted. */
  lemma UserLikeZero(votes: Votes, postId: int, user: int)
    requires ValidVotes(votes)
    ensures UserLike(votes, postId, user) == 0 <==> (postId, user) !in votes
    ensures UserLike(votes, postId, user) == 1 || UserLike(votes, postId, user) == -1 || UserLike(votes, postId, user) == 0
  {
  }

  function Annotated(rows: seq<FeedRow>, session: Option<int>, votes: Votes): (ps: seq<FeedPost>)
    ensures |ps| == |rows|
    ensures forall k :: 0 <= k < |rows| ==>
              ps[k].row == rows[k] &&
              ps[k].userLike == if session.Some? then Some(UserLike(votes, rows[k].postId, session.value)) else None
  {
    if rows == [] then []
    else
      var last := rows[|rows| - 1];
      Annotated(rows[..|rows| - 1], session, votes) +
        [FeedPost(last, if session.Some? then Some(UserLike(votes, last.postId, session.value)) else None)]
  }

  /**
   * `get_feed`: a negative offset makes the database refuse the LIMIT clause,
   * reported as a failed load; otherwise the page of the ordered posts, and
   * `has_more` when the page is full.
   */
  function FeedSpec(category: Option<string>, sort: Option<string>, page: Option<string>, session: Option<int>,
                    rows: seq<FeedRow>, votes: Votes): Result<FeedResponse, FeedError>
  {
    var req := ParseRequest(category, sort, page);
    var off := Offset(req.page);
    if off < 0 then Err(FeedFailed)
    else
      var posts := Window(Ordered(rows, req), off, PageSize);
      Ok(FeedResponse(Annotated(posts, session, votes), req.page, |posts| == PageSize))
  }

  /**
   * The feed fails exactly for pages below 1. A page holds at most twenty
   * posts, all of the requested category when it is positive, in
   * non-increasing order of the sort key, and `has_more` holds exactly when
   * twenty or more posts remain from the page's offset, so a full last page
   * still claims more.
   */
  lemma FeedPage(category: Option<string>, sort: Option<string>, page: Option<string>, session: Option<int>,
                 rows: seq<FeedRow>, votes: Votes)
    ensures var req := ParseRequest(category, sort, page);
            FeedSpec(category, sort, page, session, rows, votes).Err? <==> req.page <= 0
    ensures var req := ParseRequest(category, sort, page);
            var r := FeedSpec(category, sort, page, session, rows, votes);
            r.Ok? ==>
              var ps := r.value.posts;
              var mode := SortModeOf(req.sort);
              && |ps| <= PageSize
              && r.value.page == req.page
              && (r.value.hasMore <==> Offset(req.page) + PageSize <= |Selected(rows, req.category)|)
              && (forall k :: 0 <= k < |ps| ==>
                    ps[k].row in rows && (req.category > 0 ==> ps[k].row.categoryId == Some(req.category)))
              && (forall p, q :: 0 <= p < q < |ps| ==>
                    !Outranks(SortKey(mode, ps[q].row), SortKey(mode, ps[p].row)))
  {
    var req := ParseRequest(category, sort, page);
    OffsetSign(req.page);
    if req.page > 0 {
      var off := Offset(req.page);
      var mode := SortModeOf(req.sort);
      var keep := (r: FeedRow) => req.category <= 0 || r.categoryId == Some(req.category);
      var sel := Selected(rows, req.category);
      var posts := Window(Ordered(rows, req), off, PageSize);
      WindowOfSorted(sel, (r: FeedRow) => SortKey(mode, r), off, PageSize);
      var ps := Annotated(posts, session, votes);
      forall k | 0 <= k < |ps|
        ensures ps[k].row in rows && (req.category > 0 ==> ps[k].row.categoryId == Some(req.category))
      {
        assert ps[k].row == posts[k] && posts[k] in sel;
        FilterMembers(rows, keep, posts[k]);
      }
      forall p, q | 0 <= p < q < |ps|
        ensures !Outranks(SortKey(mode, ps[q].row), SortKey(mode, ps[p].row))
      {
        assert ps[p].row == posts[p] && ps[q].row == posts[q];
      }
    }
  }

  /** A window of a stable descending sort: drawn from the input, in order, full exactly when enough remain. */
  lemma WindowOfSorted<T>(s: seq<T>, key: T -> Key, off: nat, n: nat)
    requires n > 0
    ensures var w := Window(SortDesc(s, key), off, n);
            && (|w| == n <==> off + n <= |s|)
            && (forall k :: 0 <= k < |w| ==> w[k] in s)
            && (forall p, q :: 0 <= p < q < |w| ==> !Outranks(key(w[q]), key(w[p])))
  {
    var sorted := SortDesc(s, key);
    SortDescSpec(s, key);
    var w := Window(sorted, off, n);
    forall k | 0 <= k < |w|
      ensures w[k] in s
    {
      assert w[k] in multiset(sorted);
    }
    forall p, q | 0 <= p < q < |w|
      ensures !Outranks(key(w[q]), key(w[p]))
    {
      assert w[p] == sorted[off + p] && w[q] == sorted[off + q];
    }
  }

  /** Twenty posts and page 1: the page is full and claims more. */
  lemma FullFirstPage(rows: seq<FeedRow>, votes: Votes)
    requires |rows| == PageSize
    ensures var r := FeedSpec(None, None, None, None, rows, votes);
            r.Ok? && r.value.hasMore && |r.value.posts| == PageSize
  {
    assert Selected(rows, 0) == rows by {
      FilterAll(rows, (r: FeedRow) => 0 <= 0 || r.categoryId == Some(0));
    }
  }

  /** Twenty posts and page 2: the page that page 1 announced is empty. */
  lemma EmptySecondPage(rows: seq<FeedRow>, votes: Votes)
    requires |rows| == PageSize
    ensures var r := FeedSpec(None, None, Some("2"), None, rows, votes);
            r.Ok? && r.value.posts == []
  {
    assert ParseRequest(None, None, Some("2")) == FeedRequest(0, "recent", 2) by {
      var two := NatToString(2);
      assert two == "2";
      IntValOfDecimal(2, []);
      assert two + [] == two;
    }
    assert Selected(rows, 0) == rows by {
      FilterAll(rows, (r: FeedRow) => 0 <= 0 || r.categoryId == Some(0));
    }
  }

  /** The by-reference loop that sets `user_like` on each post of a logged-in viewer. */
  method AnnotateLikes(rows: seq<FeedRow>, session: Option<int>, votes: Votes) returns (posts: seq<FeedPost>)
    ensures posts == Annotated(rows, session, votes)
  {
    posts := [];
    for k := 0 to |rows|
      invariant posts == Annotated(rows[..k], session, votes)
    {
      assert rows[..k + 1][..k] == rows[..k];
      var like := if session.Some? then Some(UserLike(votes, rows[k].postId, session.value)) else None;
      posts := posts + [FeedPost(rows[k], like)];
    }
    assert rows[..|rows|] == rows;
  }

  /**
   * `get_feed`. `queryOk` says whether the database answers the feed query
   * and the vote lookups; when one of them throws, the load fails.
   */
  method GetFeed(category: Option<string>, sort: Option<string>, page: Option<string>, session: Option<int>,
                 rows: seq<FeedRow>, votes: Votes, queryOk: bool) returns (r: Result<FeedResponse, FeedError>)
    ensures queryOk ==> r == FeedSpec(category, sort, page, session, rows, votes)
    ensures !queryOk ==> r == Err(FeedFailed)
  {
    if !queryOk {
      return Err(FeedFailed);
    }
    var req := ParseRequest(category, sort, page);
    var where, params := BuildQuery(req);
    var off := Offset(req.page);
    if off < 0 {
      return Err(FeedFailed);
    }
    var fetched := Window(Ordered(rows, req), off, PageSize);
    var posts := AnnotateLikes(fetched, session, votes);
    r := Ok(FeedResponse(posts, req.page, |fetched| == PageSize));
  }
}
