/**
 * The three comparison endpoints. The universal one compares any two of
 * official items and user posts named by "item_<id>" / "post_<id>"
 * identifiers; the other two compare two official items (scores through the
 * score cache) or two user posts (with their engagement counts). Each walks
 * its two ids in order and stops at the first failure.
 */
module Compare {
  import opened Wrappers
  import opened Text
  import opened Seqs
  import opened Numeric
  import opened Score
  import opened ScoreCache
  import opened Likes

  // ---------------------------------------------------------------------------
  // The stored rows the endpoints read
  // ---------------------------------------------------------------------------

  /**
   * An official item with the aggregates of its reviews, and the review texts
   * the pros (rating >= 4) and cons (rating <= 2) queries return, in their
   * ORDER BY order, before the LIMIT.
   */
  datatype ItemRow = ItemRow(title: string, description: string, reviewCount: nat, avgRating: real,
                             avgSentiment: real, proTexts: seq<string>, conTexts: seq<string>)

  /** A user post with its author's name and its category's name, if any. */
  datatype PostRow = PostRow(productName: string, postText: string, rating: real, sentiment: real, tags: string,
                             userName: string, categoryName: Option<string>, isVerified: bool, createdAt: int)

  /** The tables the comparisons read: items, user posts (when that table exists), post votes and comment counts. */
  datatype Catalog = Catalog(items: map<int, ItemRow>, postsTable: bool, posts: map<int, PostRow>,
                             postVotes: Votes, postComments: map<int, nat>)

  /** How many pros and cons an item shows, and how many bytes of each. */
  const MaxExcerpts := 3
  const ExcerptLength := 100

  /** The pros or cons shown: the first three texts, each cut to 100 bytes plus "..." when longer. */
  function Excerpts(texts: seq<string>): seq<string> {
    var shown := Take(texts, MaxExcerpts);
    seq(|shown|, k requires 0 <= k < |shown| => Truncate(shown[k], ExcerptLength))
  }

  /** At most three excerpts, each the start of its text and never longer than 103 bytes. */
  lemma ExcerptsBounded(texts: seq<string>)
    ensures |Excerpts(texts)| <= MaxExcerpts && |Excerpts(texts)| <= |texts|
    ensures forall k :: 0 <= k < |Excerpts(texts)| ==>
              |Excerpts(texts)[k]| <= ExcerptLength + 3 &&
              (|texts[k]| <= ExcerptLength ==> Excerpts(texts)[k] == texts[k]) &&
              (|texts[k]| > ExcerptLength ==> Excerpts(texts)[k] == texts[k][..ExcerptLength] + "...")
  {
    var shown := Take(texts, MaxExcerpts);
    forall k | 0 <= k < |Excerpts(texts)|
      ensures shown[k] == texts[k]
    {
    }
  }

  /** The posts' likes, dislikes and comments. */
  function PostLikes(c: Catalog, id: int): nat {
    Counts(c.postVotes, id).0
  }

  function PostDislikes(c: Catalog, id: int): nat {
    Counts(c.postVotes, id).1
  }

  function CommentCount(c: Catalog, id: int): nat {
    if id in c.postComments then c.postComments[id] else 0
  }

  // ---------------------------------------------------------------------------
  // compare_universal: identifiers
  // ---------------------------------------------------------------------------

  /** `explode(sep, s, 2)`: the text before the first separator and everything after it, or None without one. */
  function SplitAtFirst(s: string, sep: char): (r: Option<(string, string)>)
    ensures r.None? <==> sep !in s
    ensures r.Some? ==> s == r.value.0 + [sep] + r.value.1 && sep !in r.value.0
  {
    if s == [] then None
    else if s[0] == sep then Some(([], s[1..]))
    else
      match SplitAtFirst(s[1..], sep)
      case None => None
      case Some(parts) =>
        assert s == [s[0]] + s[1..];
        Some(([s[0]] + parts.0, parts.1))
  }

  /** The split is at the first separator: a head without the separator is found again, whatever follows. */
  lemma {:induction false} SplitAtFirstOf(head: string, sep: char, tail: string)
    requires sep !in head
    ensures SplitAtFirst(head + [sep] + tail, sep) == Some((head, tail))
  {
    var s := head + [sep] + tail;
    if head == [] {
      assert s == [sep] + tail;
    } else {
      assert s[1..] == head[1..] + [sep] + tail;
      SplitAtFirstOf(head[1..], sep, tail);
      assert [head[0]] + head[1..] == head;
    }
  }

  /** The two kinds of things the universal comparison accepts. */
  datatype Kind = OfficialItem | UserPost

  /** A parsed identifier. */
  datatype Target = Target(kind: Kind, id: int)

  /** Why a universal comparison fails, in the order the checks run. */
  datatype UniversalError =
    | TwoRequired
    | InvalidFormat(identifier: string)
    | InvalidId(identifier: string)
    | InvalidType(typ: string)
    | ItemNotFound(id: int)
    | PostNotFound(id: int)
    | QueryFailed

  /**
   * An identifier: split at the first "_"; the part after it read with
   * `intval` must be positive; the part before it must be exactly "item" or
   * "post". The id is checked before the type.
   */
  function ParseIdentifier(s: string): (r: Result<Target, UniversalError>)
    ensures r == Err(InvalidFormat(s)) <==> '_' !in s
    ensures r.Ok? ==> r.value.id > 0
  {
    match SplitAtFirst(s, '_')
    case None => Err(InvalidFormat(s))
    case Some(parts) =>
      var id := IntVal(parts.1);
      if id <= 0 then Err(InvalidId(s))
      else if parts.0 == "item" then Ok(Target(OfficialItem, id))
      else if parts.0 == "post" then Ok(Target(UserPost, id))
      else Err(InvalidType(parts.0))
  }

  /**
   * How an identifier "<typ>_<n><rest>" parses when `typ` has no "_" and
   * `rest` does not continue the number: "post_12_x" is post 12, "item_0" and
   * "item_abc" have an invalid id, an id beyond PHP_INT_MAX saturates, and any
   * type other than "item" or "post", "Item" included, is invalid.
   */
  lemma ParseIdentifierOf(typ: string, n: nat, rest: string)
    requires '_' !in typ
    requires EndsNumber(rest)
    ensures var s := typ + "_" + NatToString(n) + rest;
            var id := if n <= PhpIntMax then n else PhpIntMax;
            ParseIdentifier(s) ==
              if n == 0 then Err(InvalidId(s))
              else if typ == "item" then Ok(Target(OfficialItem, id))
              else if typ == "post" then Ok(Target(UserPost, id))
              else Err(InvalidType(typ))
  {
    var s := typ + "_" + NatToString(n) + rest;
    assert s == typ + ['_'] + (NatToString(n) + rest);
    SplitAtFirstOf(typ, '_', NatToString(n) + rest);
    IntValOfDecimal(n, rest);
  }

  /** The id is read with the exponent form: "post_1e3" is post 1000. */
  lemma ParseIdentifierExponent()
    ensures ParseIdentifier("post_1e3") == Ok(Target(UserPost, 1000))
  {
    assert "post_1e3" == "post" + ['_'] + "1e3";
    SplitAtFirstOf("post", '_', "1e3");
    IntValExponentExample();
  }

  // ---------------------------------------------------------------------------
  // compare_universal: entries
  // ---------------------------------------------------------------------------

  /** One side of a universal comparison. */
  datatype Entry =
    | ItemEntry(id: int, title: string, description: string, rating: real, sentiment: real, score: real,
                reviewCount: nat, pros: seq<string>, cons: seq<string>)
    | PostEntry(id: int, title: string, description: string, rating: real, sentiment: real, reviewCount: nat,
                metadata: seq<(string, string)>, tags: string, likes: nat, dislikes: nat, userName: string,
                createdAt: int, isVerified: bool)

  /** `getOfficialItem`: the stored score, 0 without a record, never recomputed; averages and score rounded. */
  function OfficialItemEntry(c: Catalog, scores: map<int, ScoreRecord>, id: int): (r: Option<Entry>)
    ensures r.Some? <==> id in c.items
  {
    if id !in c.items then None
    else
      var row := c.items[id];
      var score := if id in scores then scores[id].value else 0.0;
      Some(ItemEntry(id, row.title, row.description, Round(row.avgRating, 1), Round(row.avgSentiment, 2),
                     Round(score, 1), row.reviewCount, Excerpts(row.proTexts), Excerpts(row.conTexts)))
  }

  /**
   * An official item's score is its stored value to one decimal place, even
   * when the record is stale, and 0 when it has none.
   */
  lemma OfficialScore(c: Catalog, scores: map<int, ScoreRecord>, id: int)
    requires id in c.items
    ensures id !in scores ==> OfficialItemEntry(c, scores, id).value.score == 0.0
    ensures id in scores ==>
              var score := OfficialItemEntry(c, scores, id).value.score;
              -0.05 <= score - scores[id].value <= 0.05
  {
    if id in scores {
      RoundError(scores[id].value, 1);
      assert Pow10(1) == 10;
    } else {
      RoundHalfAwayOfInt(0);
      assert Round(0.0, 1) == 0.0;
    }
  }

  /** A post's metadata: its category ("N/A" without one), its author, and "Verified Purchase" only when verified. */
  function PostMetadata(row: PostRow): (m: seq<(string, string)>)
    ensures |m| == if row.isVerified then 3 else 2
    ensures m[0] == ("Category", row.categoryName.GetOr("N/A")) && m[1] == ("Author", row.userName)
    ensures row.isVerified ==> m[2] == ("Verified Purchase", "Yes")
  {
    [("Category", row.categoryName.GetOr("N/A")), ("Author", row.userName)] +
      (if row.isVerified then [("Verified Purchase", "Yes")] else [])
  }

  /** `getUserPost`: nothing when the posts table is missing or has no such post. */
  function UserPostEntry(c: Catalog, id: int): (r: Option<Entry>)
    ensures r.Some? <==> c.postsTable && id in c.posts
    ensures r.Some? ==> r.value.PostEntry? && r.value.likes == |Voters(c.postVotes, id, 1)| && r.value.dislikes == |Voters(c.postVotes, id, -1)|
  {
    if !c.postsTable || id !in c.posts then None
    else
      var row := c.posts[id];
      Some(PostEntry(id, row.productName, row.postText, row.rating, row.sentiment, CommentCount(c, id),
                     PostMetadata(row), row.tags, PostLikes(c, id), PostDislikes(c, id), row.userName,
                     row.createdAt, row.isVerified))
  }

  /** One identifier resolved to its entry, or the error that stops the comparison. */
  function Resolve(c: Catalog, scores: map<int, ScoreRecord>, identifier: string): (r: Result<Entry, UniversalError>)
    ensures r.Ok? ==> ParseIdentifier(identifier).Ok? && r.value.id == ParseIdentifier(identifier).value.id
    ensures r.Ok? ==> (r.value.ItemEntry? <==> ParseIdentifier(identifier).value.kind == OfficialItem)
  {
    match ParseIdentifier(identifier)
    case Err(e) => Err(e)
    case Ok(t) =>
      if t.kind == OfficialItem then
        match OfficialItemEntry(c, scores, t.id)
        case None => Err(ItemNotFound(t.id))
        case Some(entry) => Ok(entry)
      else
        match UserPostEntry(c, t.id)
        case None => Err(PostNotFound(t.id))
        case Some(entry) => Ok(entry)
  }

  /**
   * An identifier resolved against a database that may throw: `answers` says
   * whether the queries for it succeed. A malformed identifier is refused
   * before any query runs; for a well-formed one the first query throws, and
   * the exception ends the comparison.
   */
  function Lookup(c: Catalog, scores: map<int, ScoreRecord>, answers: bool, identifier: string): (r: Result<Entry, UniversalError>)
    ensures answers ==> r == Resolve(c, scores, identifier)
    ensures !answers ==> r.Err? && (r == Err(QueryFailed) <==> ParseIdentifier(identifier).Ok?)
  {
    if answers then Resolve(c, scores, identifier)
    else
      match ParseIdentifier(identifier)
      case Err(e) => Err(e)
      case Ok(_) => Err(QueryFailed)
  }

  /**
   * The whole universal comparison: both identifiers present, then a's entry,
   * then b's; `answers` says for each identifier whether its queries succeed.
   */
  function Universal(c: Catalog, scores: map<int, ScoreRecord>, a: string, b: string, answers: string -> bool)
    : Result<seq<Entry>, UniversalError>
  {
    if IsFalsy(a) || IsFalsy(b) then Err(TwoRequired)
    else
      match Lookup(c, scores, answers(a), a)
      case Err(e) => Err(e)
      case Ok(ea) =>
        match Lookup(c, scores, answers(b), b)
        case Err(e) => Err(e)
        case Ok(eb) => Ok([ea, eb])
  }

  /**
   * A successful comparison has exactly two entries, a's then b's; a failure
   * of a is reported even when b would fail too; comparing an identifier with
   * itself is not refused.
   */
  lemma UniversalShape(c: Catalog, scores: map<int, ScoreRecord>, a: string, b: string, answers: string -> bool)
    ensures var r := Universal(c, scores, a, b, answers);
            && (r.Ok? <==> !IsFalsy(a) && !IsFalsy(b) && answers(a) && answers(b) &&
                           Resolve(c, scores, a).Ok? && Resolve(c, scores, b).Ok?)
            && (r.Ok? ==> r.value == [Resolve(c, scores, a).value, Resolve(c, scores, b).value])
            && (!IsFalsy(a) && !IsFalsy(b) && answers(a) && Resolve(c, scores, a).Err? ==> r == Err(Resolve(c, scores, a).error))
    ensures !IsFalsy(a) && answers(a) && Resolve(c, scores, a).Ok? ==>
              Universal(c, scores, a, a, answers) == Ok([Resolve(c, scores, a).value, Resolve(c, scores, a).value])
  {
  }

  /**
   * A failed query is reported exactly when the comparison reaches an
   * identifier whose queries throw: a well-formed a, or a well-formed b after
   * a resolved. A refusal that comes first is reported instead.
   */
  lemma UniversalQueryFailure(c: Catalog, scores: map<int, ScoreRecord>, a: string, b: string, answers: string -> bool)
    ensures Universal(c, scores, a, b, answers) == Err(QueryFailed) <==>
              !IsFalsy(a) && !IsFalsy(b) && ParseIdentifier(a).Ok? &&
              (!answers(a) || (Resolve(c, scores, a).Ok? && ParseIdentifier(b).Ok? && !answers(b)))
  {
    if !IsFalsy(a) && !IsFalsy(b) && answers(a) {
      ResolveNeverQueryFailed(c, scores, a);
      if Resolve(c, scores, a).Ok? && answers(b) {
        ResolveNeverQueryFailed(c, scores, b);
      }
    }
  }

  /** Resolving never reports a failed query: its refusals come from the identifier or a missing row. */
  lemma ResolveNeverQueryFailed(c: Catalog, scores: map<int, ScoreRecord>, identifier: string)
    ensures Resolve(c, scores, identifier) != Err(QueryFailed)
  {
  }

  /** `compare_universal`: the loop over [a, b] that stops at the first identifier that fails. */
  method CompareUniversal(c: Catalog, scores: map<int, ScoreRecord>, a: string, b: string, answers: string -> bool)
    returns (r: Result<seq<Entry>, UniversalError>)
    ensures r == Universal(c, scores, a, b, answers)
  {
    if IsFalsy(a) || IsFalsy(b) {
      return Err(TwoRequired);
    }
    r := ResolveInOrder([a, b], id => Lookup(c, scores, answers(id), id));
    InOrderOfTwo(a, b, id => Lookup(c, scores, answers(id), id), r);
  }

  /** For two identifiers the loop's outcome is a's failure, else b's, else both entries. */
  lemma InOrderOfTwo(a: string, b: string, resolve: string -> Result<Entry, UniversalError>,
                     r: Result<seq<Entry>, UniversalError>)
    requires var ids := [a, b];
             && (r.Ok? <==> forall j :: 0 <= j < |ids| ==> resolve(ids[j]).Ok?)
             && (r.Ok? ==> |r.value| == |ids| &&
                           forall j :: 0 <= j < |ids| ==> resolve(ids[j]).Ok? && r.value[j] == resolve(ids[j]).value)
             && (r.Err? ==> exists k :: 0 <= k < |ids| && resolve(ids[k]) == Err(r.error) &&
                                        forall j :: 0 <= j < k ==> resolve(ids[j]).Ok?)
    ensures r == match resolve(a)
                 case Err(e) => Err(e)
                 case Ok(x) => match resolve(b)
                   case Err(e) => Err(e)
                   case Ok(y) => Ok([x, y])
  {
    var ids := [a, b];
    assert ids[0] == a && ids[1] == b;
    if r.Err? {
      var k :| 0 <= k < |ids| && resolve(ids[k]) == Err(r.error) && forall j :: 0 <= j < k ==> resolve(ids[j]).Ok?;
      if k == 1 {
        assert resolve(ids[0]).Ok?;
      }
    } else {
      assert resolve(ids[0]).Ok? && resolve(ids[1]).Ok?;
      assert r.value == [resolve(a).value, resolve(b).value];
    }
  }

  /**
   * The loop over the identifiers: each is resolved in order, and the first
   * failure ends the request with that failure; otherwise the entries come in
   * the identifiers' order.
   */
  method ResolveInOrder(ids: seq<string>, resolve: string -> Result<Entry, UniversalError>)
    returns (r: Result<seq<Entry>, UniversalError>)
    ensures r.Ok? <==> forall j :: 0 <= j < |ids| ==> resolve(ids[j]).Ok?
    ensures r.Ok? ==> |r.value| == |ids| &&
                      forall j :: 0 <= j < |ids| ==> resolve(ids[j]).Ok? && r.value[j] == resolve(ids[j]).value
    ensures r.Err? ==> exists k :: 0 <= k < |ids| && resolve(ids[k]) == Err(r.error) &&
                                   forall j :: 0 <= j < k ==> resolve(ids[j]).Ok?
  {
    var comparison: seq<Entry> := [];
    for k := 0 to |ids|
      invariant |comparison| == k
      invariant forall j :: 0 <= j < k ==> resolve(ids[j]).Ok? && comparison[j] == resolve(ids[j]).value
    {
      var entry := resolve(ids[k]);
      if entry.Err? {
        return Err(entry.error);
      }
      comparison := comparison + [entry.value];
    }
    r := Ok(comparison);
  }

  // ---------------------------------------------------------------------------
  // compare: two official items, scores through the cache
  // ---------------------------------------------------------------------------

  /** Why an item comparison fails. */
  datatype CompareError = InvalidIds | SameIds | NotFound(id: int) | ItemsQueryFailed

  /** One side of an item comparison. */
  datatype ItemComparison = ItemComparison(itemId: int, title: string, description: string, score: real,
                                           avgRating: real, avgSentiment: real, reviewCount: nat,
                                           pros: seq<string>, cons: seq<string>)

  /**
   * Where an item's own queries throw: the item or statistics lookup before
   * its score is served, or the pros or cons lookup after it.
   */
  datatype ItemQueries = AllAnswered | FailsBeforeScore | FailsAfterScore

  /**
   * What each score lookup reads when it has to recompute, whether its read
   * and write succeed, and where each item's own queries throw.
   */
  datatype ScoreInputs = ScoreInputs(readOk: bool, stats: int -> Option<ReviewStats>,
                                     engagement: int -> Option<Engagement>, writeOk: bool,
                                     queries: int -> ItemQueries)

  /** An item's side of the comparison, given the score the cache served. */
  function ItemSide(row: ItemRow, id: int, served: real): ItemComparison {
    ItemComparison(id, row.title, row.description, Round(served, 2), Round(row.avgRating, 1),
                   Round(row.avgSentiment, 2), row.reviewCount, Excerpts(row.proTexts), Excerpts(row.conTexts))
  }

  /**
   * The entries for `ids` in order and the scores table after their lookups;
   * the first missing item or throwing query ends the walk, after the lookups
   * of the items before it have already run. A query that throws after an
   * item's score was served leaves that score stored.
   */
  function ItemsFrom(c: Catalog, scores: map<int, ScoreRecord>, ids: seq<int>, q: ScoreInputs, now: int, ln: real -> real)
    : (Result<seq<ItemComparison>, CompareError>, map<int, ScoreRecord>)
    decreases |ids|
  {
    if ids == [] then (Ok([]), scores)
    else if q.queries(ids[0]) == FailsBeforeScore then (Err(ItemsQueryFailed), scores)
    else if ids[0] !in c.items then (Err(NotFound(ids[0])), scores)
    else
      var (served, after) := GetOrComputed(scores, ids[0], q.readOk, q.stats(ids[0]), q.engagement(ids[0]),
                                           q.writeOk, now, ln);
      if q.queries(ids[0]) == FailsAfterScore then (Err(ItemsQueryFailed), after)
      else
        var (rest, final) := ItemsFrom(c, after, ids[1..], q, now, ln);
        (Prepend([ItemSide(c.items[ids[0]], ids[0], served)], rest), final)
  }

  /** Sides already produced, in front of the outcome of the rest of the walk. */
  function Prepend(done: seq<ItemComparison>, r: Result<seq<ItemComparison>, CompareError>)
    : Result<seq<ItemComparison>, CompareError>
  {
    if r.Err? then r else Ok(done + r.value)
  }

  lemma PrependTwice(a: seq<ItemComparison>, b: seq<ItemComparison>, r: Result<seq<ItemComparison>, CompareError>)
    ensures Prepend(a, Prepend(b, r)) == Prepend(a + b, r)
    ensures Prepend([], r) == r
  {
    if r.Ok? {
      assert a + (b + r.value) == (a + b) + r.value;
      assert [] + r.value == r.value;
    }
  }

  /** `compare`: both ids positive and different, then the walk over [a, b]. */
  function ItemsComparison(c: Catalog, scores: map<int, ScoreRecord>, a: int, b: int, q: ScoreInputs, now: int,
                           ln: real -> real): (Result<seq<ItemComparison>, CompareError>, map<int, ScoreRecord>)
  {
    if a <= 0 || b <= 0 then (Err(InvalidIds), scores)
    else if a == b then (Err(SameIds), scores)
    else ItemsFrom(c, scores, [a, b], q, now, ln)
  }

  /**
   * Refusals come first and change no score; a query of a that throws before
   * its score is served changes no score either; with both items present and
   * every query answered the result is a's side then b's side, each score
   * rounded to two places.
   */
  lemma ItemsComparisonShape(c: Catalog, scores: map<int, ScoreRecord>, a: int, b: int, q: ScoreInputs, now: int,
                             ln: real -> real)
    ensures var (r, after) := ItemsComparison(c, scores, a, b, q, now, ln);
            && (a <= 0 || b <= 0 ==> r == Err(InvalidIds) && after == scores)
            && (a > 0 && b > 0 && a == b ==> r == Err(SameIds) && after == scores)
            && (a > 0 && b > 0 && a != b && q.queries(a) == FailsBeforeScore ==> r == Err(ItemsQueryFailed) && after == scores)
            && (a > 0 && b > 0 && a != b && q.queries(a) != FailsBeforeScore && a !in c.items ==>
                  r == Err(NotFound(a)) && after == scores)
            && (a > 0 && b > 0 && a != b && a in c.items && q.queries(a) == FailsAfterScore ==> r == Err(ItemsQueryFailed))
            && (a > 0 && b > 0 && a != b && a in c.items && q.queries(a) == AllAnswered && q.queries(b) == FailsBeforeScore ==>
                  r == Err(ItemsQueryFailed))
            && (a > 0 && b > 0 && a != b && a in c.items && q.queries(a) == AllAnswered && b !in c.items ==>
                  q.queries(b) == FailsBeforeScore || r == Err(NotFound(b)))
            && (r.Ok? <==> a > 0 && b > 0 && a != b && a in c.items && b in c.items &&
                           q.queries(a) == AllAnswered && q.queries(b) == AllAnswered)
            && (r.Ok? ==>
                  |r.value| == 2 && r.value[0].itemId == a && r.value[1].itemId == b &&
                  Round(r.value[0].score, 2) == r.value[0].score && Round(r.value[1].score, 2) == r.value[1].score)
  {
    if a > 0 && b > 0 && a != b && q.queries(a) != FailsBeforeScore && a in c.items {
      var (sa, s1) := GetOrComputed(scores, a, q.readOk, q.stats(a), q.engagement(a), q.writeOk, now, ln);
      assert [a, b][1..] == [b];
      if q.queries(a) == FailsAfterScore {
      } else if q.queries(b) == FailsBeforeScore {
        assert ItemsFrom(c, s1, [b], q, now, ln) == (Err(ItemsQueryFailed), s1);
      } else if b !in c.items {
        assert ItemsFrom(c, s1, [b], q, now, ln) == (Err(NotFound(b)), s1);
      } else if q.queries(b) == FailsAfterScore {
        var (sb, s2) := GetOrComputed(s1, b, q.readOk, q.stats(b), q.engagement(b), q.writeOk, now, ln);
        assert ItemsFrom(c, s1, [b], q, now, ln) == (Err(ItemsQueryFailed), s2);
      } else {
        var (sb, s2) := GetOrComputed(s1, b, q.readOk, q.stats(b), q.engagement(b), q.writeOk, now, ln);
        assert [b][1..] == [];
        assert ItemsFrom(c, s2, [], q, now, ln) == (Ok([]), s2);
        var sideA, sideB := ItemSide(c.items[a], a, sa), ItemSide(c.items[b], b, sb);
        assert [sideB] + [] == [sideB];
        assert ItemsFrom(c, s1, [b], q, now, ln) == (Prepend([sideB], Ok([])), s2);
        assert ItemsFrom(c, scores, [a, b], q, now, ln) == (Prepend([sideA], Prepend([sideB], Ok([]))), s2);
        assert [sideA] + [sideB] == [sideA, sideB];
        RoundIdempotent(sa, 2);
        RoundIdempotent(sb, 2);
      }
    }
  }

  /**
   * A comparison that fails on a missing second item has already refreshed
   * the first item's stored score: the abort is not free of effects.
   */
  lemma MissingSecondStillRefreshesFirst(c: Catalog, scores: map<int, ScoreRecord>, a: int, b: int, s: ReviewStats,
                                         g: Engagement, now: int, ln: real -> real)
    requires 0 < a && 0 < b && a != b && a in c.items && b !in c.items
    requires s.reviewCount > 0
    ensures var q := ScoreInputs(false, _ => Some(s), _ => Some(g), true, _ => AllAnswered);
            var (r, after) := ItemsComparison(c, scores, a, b, q, now, ln);
            r == Err(NotFound(b)) && a in after && after[a] == ScoreRecord(WeightedScore(s, g, now, ln), now)
  {
    var q := ScoreInputs(false, _ => Some(s), _ => Some(g), true, _ => AllAnswered);
    assert [a, b][1..] == [b];
    assert q.stats(a) == Some(s) && q.engagement(a) == Some(g);
    var raw := WeightedScore(s, g, now, ln);
    var s1 := scores[a := ScoreRecord(raw, now)];
    assert GetOrComputed(scores, a, q.readOk, q.stats(a), q.engagement(a), q.writeOk, now, ln) == (Round(raw, 2), s1);
    assert ItemsFrom(c, s1, [b], q, now, ln) == (Err(NotFound(b)), s1);
  }

  /**
   * A query that throws after the first item's score was served (its pros or
   * cons lookup) fails the comparison, yet the recomputed score stays stored.
   */
  lemma ThrowAfterScoreKeepsRefresh(c: Catalog, scores: map<int, ScoreRecord>, a: int, b: int, s: ReviewStats,
                                    g: Engagement, now: int, ln: real -> real)
    requires 0 < a && 0 < b && a != b && a in c.items
    requires s.reviewCount > 0
    ensures var q := ScoreInputs(false, _ => Some(s), _ => Some(g), true,
                                 id => if id == a then FailsAfterScore else AllAnswered);
            var (r, after) := ItemsComparison(c, scores, a, b, q, now, ln);
            r == Err(ItemsQueryFailed) && a in after && after[a] == ScoreRecord(WeightedScore(s, g, now, ln), now)
  {
    var q := ScoreInputs(false, _ => Some(s), _ => Some(g), true, id => if id == a then FailsAfterScore else AllAnswered);
    assert q.stats(a) == Some(s) && q.engagement(a) == Some(g) && q.queries(a) == FailsAfterScore;
    var raw := WeightedScore(s, g, now, ln);
    var s1 := scores[a := ScoreRecord(raw, now)];
    assert GetOrComputed(scores, a, q.readOk, q.stats(a), q.engagement(a), q.writeOk, now, ln) == (Round(raw, 2), s1);
    assert ItemsFrom(c, scores, [a, b], q, now, ln) == (Err(ItemsQueryFailed), s1);
  }

  /** `compare`: validates the ids, then looks each item up and serves its score through the cache, in order. */
  method CompareItems(c: Catalog, store: ScoreStore, a: int, b: int, q: ScoreInputs)
    returns (r: Result<seq<ItemComparison>, CompareError>)
    modifies store
    ensures store.now == old(store.now)
    ensures (r, store.scores) == ItemsComparison(c, old(store.scores), a, b, q, store.now, store.ln)
  {
    if a <= 0 || b <= 0 {
      return Err(InvalidIds);
    }
    if a == b {
      return Err(SameIds);
    }
    var ids := [a, b];
    var comparison: seq<ItemComparison> := [];
    assert ids[0..] == ids;
    PrependTwice([], [], ItemsFrom(c, store.scores, ids, q, store.now, store.ln).0);
    for k := 0 to |ids|
      invariant store.now == old(store.now)
      invariant ItemsFrom(c, old(store.scores), ids, q, store.now, store.ln) ==
                  (Prepend(comparison, ItemsFrom(c, store.scores, ids[k..], q, store.now, store.ln).0),
                   ItemsFrom(c, store.scores, ids[k..], q, store.now, store.ln).1)
    {
      var id := ids[k];
      assert ids[k..][0] == id && ids[k..][1..] == ids[k + 1..];
      if q.queries(id) == FailsBeforeScore {
        return Err(ItemsQueryFailed);
      }
      if id !in c.items {
        return Err(NotFound(id));
      }
      ghost var before := store.scores;
      var served := store.GetOrComputeScore(id, q.readOk, q.stats(id), q.engagement(id), q.writeOk);
      if q.queries(id) == FailsAfterScore {
        return Err(ItemsQueryFailed);
      }
      var side := ItemSide(c.items[id], id, served);
      ghost var rest := ItemsFrom(c, store.scores, ids[k + 1..], q, store.now, store.ln);
      assert ItemsFrom(c, before, ids[k..], q, store.now, store.ln) == (Prepend([side], rest.0), rest.1);
      PrependTwice(comparison, [side], rest.0);
      comparison := comparison + [side];
    }
    assert ids[|ids|..] == [];
    assert ItemsFrom(c, store.scores, ids[|ids|..], q, store.now, store.ln) == (Ok([]), store.scores);
    assert comparison + [] == comparison;
    r := Ok(comparison);
  }

  // ---------------------------------------------------------------------------
  // compare_posts: two user posts with engagement counts
  // ---------------------------------------------------------------------------

  /** Why a post comparison fails. */
  datatype PostCompareError = InvalidPostIds | SamePostIds | PostsUnavailable | MissingPost(id: int) | PostsQueryFailed

  /** One side of a post comparison: the stored row with its likes, dislikes and comment count. */
  datatype PostComparison = PostComparison(postId: int, row: PostRow, likes: nat, dislikes: nat, commentCount: nat)

  /** A post's side, or the error for a missing post. */
  function PostSide(c: Catalog, id: int): (r: Result<PostComparison, PostCompareError>)
    ensures r.Ok? <==> id in c.posts
    ensures r.Ok? ==> r.value.postId == id && r.value.likes == |Voters(c.postVotes, id, 1)| &&
                      r.value.dislikes == |Voters(c.postVotes, id, -1)|
  {
    if id !in c.posts then Err(MissingPost(id))
    else Ok(PostComparison(id, c.posts[id], PostLikes(c, id), PostDislikes(c, id), CommentCount(c, id)))
  }

  /** A post's side when its queries may throw: the first of them, the post lookup, ends the comparison. */
  function PostSideOf(c: Catalog, answers: bool, id: int): (r: Result<PostComparison, PostCompareError>)
    ensures r.Ok? <==> answers && id in c.posts
    ensures r == Err(PostsQueryFailed) <==> !answers
  {
    if answers then PostSide(c, id) else Err(PostsQueryFailed)
  }

  /**
   * `compare_posts`: ids positive, then different, then the SHOW TABLES query
   * (`showOk` says whether it answers) and the table present, then a's side
   * and b's side; `answers` says for each post whether its queries succeed.
   */
  function PostsComparison(c: Catalog, a: int, b: int, showOk: bool, answers: int -> bool)
    : Result<seq<PostComparison>, PostCompareError>
  {
    if a <= 0 || b <= 0 then Err(InvalidPostIds)
    else if a == b then Err(SamePostIds)
    else if !showOk then Err(PostsQueryFailed)
    else if !c.postsTable then Err(PostsUnavailable)
    else
      match PostSideOf(c, answers(a), a)
      case Err(e) => Err(e)
      case Ok(pa) =>
        match PostSideOf(c, answers(b), b)
        case Err(e) => Err(e)
        case Ok(pb) => Ok([pa, pb])
  }

  /**
   * With valid distinct ids, both posts present and every query answered the
   * result is a's side then b's side, each with its counts; a missing post
   * fails it; a failed query is reported exactly when a query that runs
   * throws.
   */
  lemma PostsComparisonShape(c: Catalog, a: int, b: int, showOk: bool, answers: int -> bool)
    ensures var r := PostsComparison(c, a, b, showOk, answers);
            && (r.Ok? <==> a > 0 && b > 0 && a != b && showOk && c.postsTable && answers(a) && answers(b) &&
                           a in c.posts && b in c.posts)
            && (r.Ok? ==> |r.value| == 2 && r.value[0].postId == a && r.value[1].postId == b &&
                          r.value[0].likes == |Voters(c.postVotes, a, 1)| && r.value[1].likes == |Voters(c.postVotes, b, 1)|)
            && (a > 0 && b > 0 && a != b && showOk && c.postsTable && answers(a) && a !in c.posts ==> r == Err(MissingPost(a)))
            && (r == Err(PostsQueryFailed) <==>
                  a > 0 && b > 0 && a != b &&
                  (!showOk || (c.postsTable && (!answers(a) || (a in c.posts && !answers(b))))))
  {
  }

  /** The post comparison's loop over [a, b]. */
  method ComparePosts(c: Catalog, a: int, b: int, showOk: bool, answers: int -> bool)
    returns (r: Result<seq<PostComparison>, PostCompareError>)
    ensures r == PostsComparison(c, a, b, showOk, answers)
  {
    if a <= 0 || b <= 0 {
      return Err(InvalidPostIds);
    }
    if a == b {
      return Err(SamePostIds);
    }
    if !showOk {
      return Err(PostsQueryFailed);
    }
    if !c.postsTable {
      return Err(PostsUnavailable);
    }
    var ids := [a, b];
    var comparison: seq<PostComparison> := [];
    for k := 0 to |ids|
      invariant |comparison| == k
      invariant forall j :: 0 <= j < k ==> PostSideOf(c, answers(ids[j]), ids[j]).Ok? &&
                                           comparison[j] == PostSideOf(c, answers(ids[j]), ids[j]).value
    {
      var side := PostSideOf(c, answers(ids[k]), ids[k]);
      if side.Err? {
        if k == 1 {
          assert PostSideOf(c, answers(ids[0]), ids[0]).Ok?;
        }
        return Err(side.error);
      }
      comparison := comparison + [side.value];
    }
    assert comparison == [PostSideOf(c, answers(ids[0]), ids[0]).value, PostSideOf(c, answers(ids[1]), ids[1]).value];
    r := Ok(comparison);
  }
}
