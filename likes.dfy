/**
 * Likes and dislikes. A review or a post holds at most one vote per user,
 * 1 (like) or -1 (dislike): voting the same way again withdraws the vote,
 * voting the other way changes it. A comment holds at most one like per user,
 * and liking it again withdraws the like.
 */
module Likes {
  import opened Wrappers

  /** What a vote did to the voter's record. */
  datatype Action = Added | Removed | Updated

  /** A vote table, keyed by (target id, user id); one record per key by construction. */
  type Votes = map<(int, int), int>

  /** A like or a dislike. */
  predicate IsVoteType(t: int) {
    t == 1 || t == -1
  }

  /** Every record holds a like or a dislike. */
  predicate ValidVotes(v: Votes) {
    forall k :: k in v ==> IsVoteType(v[k])
  }

  /** The effect a vote of type `t` has on the record at `key`. */
  function ToggleAction(v: Votes, key: (int, int), t: int): (a: Action)
    ensures a == Added <==> key !in v
    ensures a == Removed <==> key in v && v[key] == t
    ensures a == Updated <==> key in v && v[key] != t
  {
    if key !in v then Added else if v[key] == t then Removed else Updated
  }

  /** The table after a vote of type `t` at `key`. */
  function Toggled(v: Votes, key: (int, int), t: int): (r: Votes)
    ensures forall k :: k != key ==> (k in r <==> k in v) && (k in v ==> r[k] == v[k])
    ensures key in r <==> ToggleAction(v, key, t) != Removed
    ensures key in r ==> r[key] == t
  {
    match ToggleAction(v, key, t)
    case Added => v[key := t]
    case Removed => v - {key}
    case Updated => v[key := t]
  }

  /** A vote keeps every record a like or a dislike. */
  lemma ToggledValid(v: Votes, key: (int, int), t: int)
    requires ValidVotes(v) && IsVoteType(t)
    ensures ValidVotes(Toggled(v, key, t))
  {
  }

  /** The users whose vote on `target` is of type `t`; the SQL counts are their numbers. */
  function Voters(v: Votes, target: int, t: int): set<int> {
    set k | k in v && k.0 == target && v[k] == t :: k.1
  }

  /** A user is a voter of type `t` on `target` exactly when their record on it holds `t`. */
  lemma VoterIff(v: Votes, target: int, t: int, u: int)
    ensures u in Voters(v, target, t) <==> (target, u) in v && v[(target, u)] == t
  {
    if (target, u) in v && v[(target, u)] == t {
      assert (target, u).1 == u;
    }
  }

  /** How many likes and dislikes `target` has: `SUM(CASE WHEN like_type = …)`. */
  function Counts(v: Votes, target: int): (c: (nat, nat)) {
    (|Voters(v, target, 1)|, |Voters(v, target, -1)|)
  }

  lemma CardAdd(s: set<int>, u: int)
    requires u !in s
    ensures |s + {u}| == |s| + 1
  {
  }

  /** Deleting a record takes its user out of the voters of its target. */
  lemma VotersRemove(v: Votes, target: int, user: int, x: int)
    ensures Voters(v - {(target, user)}, target, x) == Voters(v, target, x) - {user}
  {
  }

  /** Writing a record moves its user to the voters of the record's type. */
  lemma VotersWrite(v: Votes, target: int, user: int, t: int, x: int)
    ensures Voters(v[(target, user) := t], target, x) ==
              (Voters(v, target, x) - {user}) + (if x == t then {user} else {})
  {
  }

  /** Other targets keep their voters. */
  lemma VotersElsewhere(v: Votes, target: int, user: int, t: int, other: int, x: int)
    requires other != target
    ensures Voters(Toggled(v, (target, user), t), other, x) == Voters(v, other, x)
  {
  }

  /** A first vote adds one voter of its type and leaves the other type's voters alone. */
  lemma AddedCounts(v: Votes, target: int, user: int, t: int)
    requires IsVoteType(t) && (target, user) !in v
    ensures |Voters(v[(target, user) := t], target, t)| == |Voters(v, target, t)| + 1
    ensures Voters(v[(target, user) := t], target, -t) == Voters(v, target, -t)
  {
    var same := Voters(v, target, t);
    assert |Voters(v[(target, user) := t], target, t)| == |same| + 1 by {
      VotersWrite(v, target, user, t, t);
      assert user !in same;
      assert same - {user} == same;
      CardAdd(same, user);
    }
    assert Voters(v[(target, user) := t], target, -t) == Voters(v, target, -t) by {
      VotersWrite(v, target, user, t, -t);
      assert Voters(v, target, -t) - {user} == Voters(v, target, -t);
    }
  }

  /** Repeating a vote removes one voter of its type and leaves the other type's voters alone. */
  lemma RemovedCounts(v: Votes, target: int, user: int, t: int)
    requires IsVoteType(t) && (target, user) in v && v[(target, user)] == t
    ensures |Voters(v - {(target, user)}, target, t)| + 1 == |Voters(v, target, t)|
    ensures Voters(v - {(target, user)}, target, -t) == Voters(v, target, -t)
  {
    var same := Voters(v, target, t);
    VotersRemove(v, target, user, t);
    VotersRemove(v, target, user, -t);
    var same' := same - {user};
    assert user in same;
    assert same == same' + {user};
    CardAdd(same', user);
  }

  /** Switching a vote moves one voter from the other type to the vote's type. */
  lemma UpdatedCounts(v: Votes, target: int, user: int, t: int)
    requires IsVoteType(t) && (target, user) in v && v[(target, user)] == -t
    ensures |Voters(v[(target, user) := t], target, t)| == |Voters(v, target, t)| + 1
    ensures |Voters(v[(target, user) := t], target, -t)| + 1 == |Voters(v, target, -t)|
  {
    var same, opp := Voters(v, target, t), Voters(v, target, -t);
    var opp' := opp - {user};
    assert user !in same && user in opp;
    assert Voters(v[(target, user) := t], target, t) == same + {user} by {
      VotersWrite(v, target, user, t, t);
      assert same - {user} == same;
    }
    assert Voters(v[(target, user) := t], target, -t) == opp' by {
      VotersWrite(v, target, user, t, -t);
    }
    assert opp == opp' + {user};
    CardAdd(same, user);
    CardAdd(opp', user);
  }

  /**
   * A vote moves the counts of its target by exactly one step: added, the
   * vote's type gains one; removed, it loses one; updated, it gains one and the
   * other type loses one. Other targets' voters do not change.
   */
  lemma ToggledCounts(v: Votes, target: int, user: int, t: int)
    requires ValidVotes(v) && IsVoteType(t)
    ensures var v' := Toggled(v, (target, user), t);
            match ToggleAction(v, (target, user), t)
            case Added => |Voters(v', target, t)| == |Voters(v, target, t)| + 1 &&
                          |Voters(v', target, -t)| == |Voters(v, target, -t)|
            case Removed => |Voters(v', target, t)| + 1 == |Voters(v, target, t)| &&
                            |Voters(v', target, -t)| == |Voters(v, target, -t)|
            case Updated => |Voters(v', target, t)| == |Voters(v, target, t)| + 1 &&
                            |Voters(v', target, -t)| + 1 == |Voters(v, target, -t)|
    ensures forall other, x :: other != target ==> Voters(Toggled(v, (target, user), t), other, x) == Voters(v, other, x)
  {
    var key := (target, user);
    match ToggleAction(v, key, t)
    case Added => AddedCounts(v, target, user, t);
    case Removed => RemovedCounts(v, target, user, t);
    case Updated => UpdatedCounts(v, target, user, t);
    forall other, x | other != target
      ensures Voters(Toggled(v, key, t), other, x) == Voters(v, other, x)
    {
      VotersElsewhere(v, target, user, t, other, x);
    }
  }

  /** Voting twice the same way restores the table when the voter had no record or one of that type. */
  lemma ToggleTwice(v: Votes, key: (int, int), t: int)
    requires key !in v || v[key] == t
    ensures Toggled(Toggled(v, key, t), key, t) == v
  {
    if key in v {
      assert Toggled(Toggled(v, key, t), key, t) == (v - {key})[key := t];
    }
  }

  /** A dislike followed by two likes leaves no record: a double vote is not an undo after an update. */
  lemma ToggleTwiceAfterOpposite(v: Votes, key: (int, int))
    requires key in v && v[key] == -1
    ensures ToggleAction(v, key, 1) == Updated
    ensures key !in Toggled(Toggled(v, key, 1), key, 1)
    ensures Toggled(Toggled(v, key, 1), key, 1) != v
  {
    var once := Toggled(v, key, 1);
    assert once[key] == 1;
  }

  /** A comment-like table: the (comment id, user id) pairs that like a comment. */
  type CommentLikes = set<(int, int)>

  /** `like_comment`'s toggle: unlike when liked, like otherwise. */
  function ToggledLike(s: CommentLikes, key: (int, int)): (r: CommentLikes)
    ensures key in r <==> key !in s
    ensures forall k :: k != key ==> (k in r <==> k in s)
  {
    if key in s then s - {key} else s + {key}
  }

  /** Liking a comment twice restores the table. */
  lemma ToggledLikeTwice(s: CommentLikes, key: (int, int))
    ensures ToggledLike(ToggledLike(s, key), key) == s
  {
    if key in s {
      assert ToggledLike(ToggledLike(s, key), key) == (s - {key}) + {key};
    }
  }

  /** The users who like a comment; `COUNT(*)` is their number. */
  function Likers(s: CommentLikes, comment: int): (us: set<int>)
    ensures forall u :: u in us <==> (comment, u) in s
  {
    set k | k in s && k.0 == comment :: k.1
  }

  /** Liking a comment changes its like count by one, up when it was not liked and down when it was. */
  lemma ToggledLikeCount(s: CommentLikes, comment: int, user: int)
    ensures (comment, user) !in s ==> |Likers(ToggledLike(s, (comment, user)), comment)| == |Likers(s, comment)| + 1
    ensures (comment, user) in s ==> |Likers(ToggledLike(s, (comment, user)), comment)| + 1 == |Likers(s, comment)|
  {
    var key := (comment, user);
    var before, after := Likers(s, comment), Likers(ToggledLike(s, key), comment);
    if key in s {
      assert before == after + {user};
      CardAdd(after, user);
    } else {
      assert after == before + {user};
      CardAdd(before, user);
    }
  }

  /** Why a review vote is refused. */
  datatype ReviewVoteError = ReviewLoginRequired | InvalidReviewId | InvalidLikeType | ReviewVoteFailed

  /** Why a post vote is refused; the id and the type share one message. */
  datatype PostVoteError = PostLoginRequired | InvalidParameters | PostVoteFailed

  /** Why a comment like is refused. */
  datatype CommentLikeError = CommentLoginRequired | CommentLikeFailed

  /** What a review vote reports: its action and the review's new counts. */
  datatype ReviewVoted = ReviewVoted(action: Action, likes: nat, dislikes: nat)

  /** The three like tables; failures of the database are inputs of the methods. */
  class LikeStore {
    var reviewVotes: Votes
    var postVotes: Votes
    var commentLikes: CommentLikes

    ghost predicate Valid()
      reads this
    {
      ValidVotes(reviewVotes) && ValidVotes(postVotes)
    }

    constructor()
      ensures reviewVotes == map[] && postVotes == map[] && commentLikes == {} && Valid()
    {
      reviewVotes := map[];
      postVotes := map[];
      commentLikes := {};
    }

    /**
     * `like_review`: the review id must be positive and the type 1 or -1,
     * checked in that order; then the voter's record is added, removed or
     * updated and the review's counts returned. `writeOk` is whether the
     * lookup and the write succeed; `countOk` whether the counts query after
     * the committed write does. Either failure reports the same error, but a
     * failed count comes after the vote has been recorded.
     */
    method LikeReview(session: Option<int>, reviewId: int, likeType: int, writeOk: bool, countOk: bool)
      returns (r: Result<ReviewVoted, ReviewVoteError>)
      requires Valid()
      modifies this
      ensures Valid()
      ensures postVotes == old(postVotes) && commentLikes == old(commentLikes)
      ensures session.None? ==> r == Err(ReviewLoginRequired)
      ensures session.Some? && reviewId <= 0 ==> r == Err(InvalidReviewId)
      ensures session.Some? && reviewId > 0 && !IsVoteType(likeType) ==> r == Err(InvalidLikeType)
      ensures session.Some? && reviewId > 0 && IsVoteType(likeType) && !(writeOk && countOk) ==> r == Err(ReviewVoteFailed)
      ensures session.Some? && reviewId > 0 && IsVoteType(likeType) && writeOk && countOk ==> r.Ok?
      ensures session.Some? && reviewId > 0 && IsVoteType(likeType) && writeOk ==>
                reviewVotes == Toggled(old(reviewVotes), (reviewId, session.value), likeType)
      ensures !(session.Some? && reviewId > 0 && IsVoteType(likeType) && writeOk) ==> reviewVotes == old(reviewVotes)
      ensures r.Ok? ==>
                && session.Some? && reviewId > 0 && IsVoteType(likeType) && writeOk && countOk
                && r.value == ReviewVoted(ToggleAction(old(reviewVotes), (reviewId, session.value), likeType),
                                          Counts(reviewVotes, reviewId).0, Counts(reviewVotes, reviewId).1)
    {
      if session.None? {
        return Err(ReviewLoginRequired);
      }
      if reviewId <= 0 {
        return Err(InvalidReviewId);
      }
      if !IsVoteType(likeType) {
        return Err(InvalidLikeType);
      }
      if !writeOk {
        return Err(ReviewVoteFailed);
      }
      var key := (reviewId, session.value);
      var action := ToggleAction(reviewVotes, key, likeType);
      ToggledValid(reviewVotes, key, likeType);
      reviewVotes := Toggled(reviewVotes, key, likeType);
      if !countOk {
        return Err(ReviewVoteFailed);
      }
      var counts := Counts(reviewVotes, reviewId);
      r := Ok(ReviewVoted(action, counts.0, counts.1));
    }

    /**
     * `like_post`: one check refuses a non-positive post id and a type other
     * than 1 or -1 alike; otherwise the same toggle as for reviews, returning
     * the post's counts (likes, dislikes). As for reviews, a failed counts
     * query reports failure after the vote has been recorded.
     */
    method LikePost(session: Option<int>, postId: int, likeType: int, writeOk: bool, countOk: bool)
      returns (r: Result<(nat, nat), PostVoteError>)
      requires Valid()
      modifies this
      ensures Valid()
      ensures reviewVotes == old(reviewVotes) && commentLikes == old(commentLikes)
      ensures session.None? ==> r == Err(PostLoginRequired)
      ensures session.Some? && (postId <= 0 || !IsVoteType(likeType)) ==> r == Err(InvalidParameters)
      ensures session.Some? && postId > 0 && IsVoteType(likeType) && !(writeOk && countOk) ==> r == Err(PostVoteFailed)
      ensures session.Some? && postId > 0 && IsVoteType(likeType) && writeOk && countOk ==> r.Ok?
      ensures session.Some? && postId > 0 && IsVoteType(likeType) && writeOk ==>
                postVotes == Toggled(old(postVotes), (postId, session.value), likeType)
      ensures !(session.Some? && postId > 0 && IsVoteType(likeType) && writeOk) ==> postVotes == old(postVotes)
      ensures r.Ok? ==>
                && session.Some? && postId > 0 && IsVoteType(likeType) && writeOk && countOk
                && r.value == Counts(postVotes, postId)
    {
      if session.None? {
        return Err(PostLoginRequired);
      }
      if postId <= 0 || !IsVoteType(likeType) {
        return Err(InvalidParameters);
      }
      if !writeOk {
        return Err(PostVoteFailed);
      }
      var key := (postId, session.value);
      ToggledValid(postVotes, key, likeType);
      postVotes := Toggled(postVotes, key, likeType);
      if !countOk {
        return Err(PostVoteFailed);
      }
      r := Ok(Counts(postVotes, postId));
    }

    /**
     * `like_comment`: no check on the comment id; likes or unlikes and
     * returns the comment's like count. A failed count query reports failure
     * after the like has been recorded or withdrawn.
     */
    method LikeComment(session: Option<int>, commentId: int, writeOk: bool, countOk: bool)
      returns (r: Result<nat, CommentLikeError>)
      requires Valid()
      modifies this
      ensures Valid()
      ensures reviewVotes == old(reviewVotes) && postVotes == old(postVotes)
      ensures session.None? ==> r == Err(CommentLoginRequired)
      ensures session.Some? && !(writeOk && countOk) ==> r == Err(CommentLikeFailed)
      ensures session.Some? && writeOk && countOk ==> r.Ok?
      ensures session.Some? && writeOk ==> commentLikes == ToggledLike(old(commentLikes), (commentId, session.value))
      ensures !(session.Some? && writeOk) ==> commentLikes == old(commentLikes)
      ensures r.Ok? ==>
                && session.Some? && writeOk && countOk
                && r.value == |Likers(commentLikes, commentId)|
    {
      if session.None? {
        return Err(CommentLoginRequired);
      }
      if !writeOk {
        return Err(CommentLikeFailed);
      }
      commentLikes := ToggledLike(commentLikes, (commentId, session.value));
      if !countOk {
        return Err(CommentLikeFailed);
      }
      r := Ok(|Likers(commentLikes, commentId)|);
    }
  }
}
