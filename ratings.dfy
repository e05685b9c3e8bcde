/**
 * Votes on translation responses: the upsert `tresponse_rate` performs on the
 * `rating` table (app/core.py) and what it does to the aggregates the
 * `translation` view and `plus_ratings`/`minus_ratings` report (app/models.py).
 */
module Ratings {
  import opened Wrappers
  import opened Models

  /** The only values `tresponse_rate` accepts. */
  predicate IsVote(v: int) {
    v == 1 || v == -1
  }

  predicate AllVotes(rs: seq<Rating>) {
    forall r :: r in rs ==> IsVote(r.rating)
  }

  /**
   * The rating rows once a user has cast `v` on a response: the user's
   * existing row takes the new value and timestamp, otherwise a row with id
   * `id` is added.
   */
  function Vote(rs: seq<Rating>, translationId: Id, userId: Id, v: int, id: Id, now: Time): seq<Rating> {
    match FindRating(rs, translationId, userId)
    case Some(k) => rs[k := rs[k].(timestamp := now, rating := v)]
    case None => rs + [Rating(id, translationId, userId, now, v)]
  }

  /** The row that holds the user's vote once it is cast: the existing row updated, or the new one. */
  function VotedRow(rs: seq<Rating>, translationId: Id, userId: Id, v: int, id: Id, now: Time): Rating {
    match FindRating(rs, translationId, userId)
    case Some(k) => rs[k].(timestamp := now, rating := v)
    case None => Rating(id, translationId, userId, now, v)
  }

  /** The voted row is the one a later lookup of (response, user) finds. */
  lemma VotedRowIsFound(rs: seq<Rating>, translationId: Id, userId: Id, v: int, id: Id, now: Time)
    ensures var after := Vote(rs, translationId, userId, v, id, now);
            var k := FindRating(after, translationId, userId);
            k.Some? && after[k.value] == VotedRow(rs, translationId, userId, v, id, now)
  {
    var after := Vote(rs, translationId, userId, v, id, now);
    match FindRating(rs, translationId, userId)
    case Some(k) =>
      assert RatingKeyIs(after[k], translationId, userId);
      assert FindRating(after, translationId, userId) == Some(k);
    case None =>
      assert RatingKeyIs(after[|rs|], translationId, userId);
      assert FindRating(after, translationId, userId) == Some(|rs|);
  }

  /**
   * After a vote exactly one row holds the user's vote on the response, with
   * the new value and time; a re-vote adds no row, and every other vote is
   * left as it was.
   */
  lemma VoteLeavesOneRow(rs: seq<Rating>, translationId: Id, userId: Id, v: int, id: Id, now: Time)
    requires UniqueRatings(rs)
    ensures var after := Vote(rs, translationId, userId, v, id, now);
            var k := FindRating(after, translationId, userId);
            && UniqueRatings(after)
            && k.Some? && after[k.value].rating == v && after[k.value].timestamp == now
            && (forall j :: 0 <= j < |after| && RatingKeyIs(after[j], translationId, userId) ==> j == k.value)
            && |after| == |rs| + (if FindRating(rs, translationId, userId).None? then 1 else 0)
            && (forall j :: 0 <= j < |rs| && !RatingKeyIs(rs[j], translationId, userId) ==> after[j] == rs[j])
  {
    var after := Vote(rs, translationId, userId, v, id, now);
    match FindRating(rs, translationId, userId)
    case Some(k) =>
      assert after == rs[k := rs[k].(timestamp := now, rating := v)];
      forall i, j | 0 <= i < j < |after|
        ensures !RatingKeyIs(after[j], after[i].translationId, after[i].userId)
      {
        assert RatingKeyIs(after[i], rs[i].translationId, rs[i].userId);
        assert RatingKeyIs(after[j], rs[j].translationId, rs[j].userId);
      }
      assert RatingKeyIs(after[k], translationId, userId);
    case None =>
      var row := Rating(id, translationId, userId, now, v);
      assert after == rs + [row];
      assert after[|rs|] == row;
  }

  /** Casting the same vote again changes nothing (the second cast updates the row the first left). */
  lemma VoteIdempotent(rs: seq<Rating>, translationId: Id, userId: Id, v: int, id: Id, id': Id, now: Time)
    ensures Vote(Vote(rs, translationId, userId, v, id, now), translationId, userId, v, id', now)
         == Vote(rs, translationId, userId, v, id, now)
  {
    var after := Vote(rs, translationId, userId, v, id, now);
    match FindRating(rs, translationId, userId)
    case Some(k) =>
      assert after[k] == rs[k].(timestamp := now, rating := v);
      assert RatingKeyIs(after[k], translationId, userId);
      assert FindRating(after, translationId, userId) == Some(k);
    case None =>
      assert after[|rs|] == Rating(id, translationId, userId, now, v);
      assert RatingKeyIs(after[|rs|], translationId, userId);
      assert FindRating(after, translationId, userId) == Some(|rs|);
  }

  /** Replacing one row changes a value count by what the old and the new row contribute. */
  lemma {:induction false} CountValueUpdate(rs: seq<Rating>, k: nat, x: Rating, translationId: Id, w: int)
    requires k < |rs|
    ensures CountValue(rs[k := x], translationId, w) + (if RatingIs(rs[k], translationId, w) then 1 else 0)
         == CountValue(rs, translationId, w) + (if RatingIs(x, translationId, w) then 1 else 0)
  {
    var n := |rs|;
    if k == n - 1 {
      assert rs[k := x][..n - 1] == rs[..n - 1];
    } else {
      assert rs[k := x][..n - 1] == rs[..n - 1][k := x];
      CountValueUpdate(rs[..n - 1], k, x, translationId, w);
    }
  }

  /** Replacing one row by one for the same response keeps the response's row count. */
  lemma {:induction false} RatingCountUpdate(rs: seq<Rating>, k: nat, x: Rating)
    requires k < |rs| && x.translationId == rs[k].translationId
    ensures forall t :: RatingCount(rs[k := x], t) == RatingCount(rs, t)
  {
    var n := |rs|;
    if k == n - 1 {
      assert rs[k := x][..n - 1] == rs[..n - 1];
    } else {
      assert rs[k := x][..n - 1] == rs[..n - 1][k := x];
      RatingCountUpdate(rs[..n - 1], k, x);
    }
  }

  /**
   * How a vote moves the counts: the value `w` gains one row if the vote is
   * `w` and loses one if the user's previous vote was `w`; the response gains
   * a rating row only on a first vote.
   */
  lemma VoteTally(rs: seq<Rating>, translationId: Id, userId: Id, v: int, id: Id, now: Time, w: int)
    ensures var after := Vote(rs, translationId, userId, v, id, now);
            var prior := FindRating(rs, translationId, userId);
            && CountValue(after, translationId, w) + (if prior.Some? && rs[prior.value].rating == w then 1 else 0)
               == CountValue(rs, translationId, w) + (if v == w then 1 else 0)
            && RatingCount(after, translationId) == RatingCount(rs, translationId) + (if prior.None? then 1 else 0)
  {
    var after := Vote(rs, translationId, userId, v, id, now);
    match FindRating(rs, translationId, userId)
    case Some(k) =>
      var x := rs[k].(timestamp := now, rating := v);
      CountValueUpdate(rs, k, x, translationId, w);
      RatingCountUpdate(rs, k, x);
    case None =>
      assert after[..|after| - 1] == rs;
  }

  /**
   * With every stored value a vote, the view's `rating` (the sum) is
   * `plus_ratings - minus_ratings` and its `count` is `plus_ratings + minus_ratings`.
   */
  lemma {:induction false} AggregatesAgree(rs: seq<Rating>, translationId: Id)
    requires AllVotes(rs)
    ensures RatingSum(rs, translationId) == PlusRatings(rs, translationId) - MinusRatings(rs, translationId)
    ensures RatingCount(rs, translationId) == PlusRatings(rs, translationId) + MinusRatings(rs, translationId)
  {
    if rs != [] {
      var init := rs[..|rs| - 1];
      assert forall r :: r in init ==> r in rs;
      AggregatesAgree(init, translationId);
      assert rs[|rs| - 1] in rs;
    }
  }

  /** `tresponse_rate` stores only votes, so the table keeps holding only votes. */
  lemma VoteKeepsVotes(rs: seq<Rating>, translationId: Id, userId: Id, v: int, id: Id, now: Time)
    requires AllVotes(rs) && IsVote(v)
    ensures AllVotes(Vote(rs, translationId, userId, v, id, now))
  {
    var after := Vote(rs, translationId, userId, v, id, now);
    forall r | r in after ensures IsVote(r.rating) {
      var i :| 0 <= i < |after| && after[i] == r;
      if i < |rs| && rs[i] == r {
        assert rs[i] in rs;
      }
    }
  }

  /** The view row of a rated response reports the net vote and the number of voters. */
  lemma ViewReportsVotes(t: Tables, id: Id)
    requires AllVotes(t.ratings)
    requires ViewRow(t, id).Some? && RatingCount(t.ratings, id) > 0
    ensures ViewRow(t, id).value.rating == Some(PlusRatings(t.ratings, id) - MinusRatings(t.ratings, id))
    ensures ViewRow(t, id).value.count == Some(PlusRatings(t.ratings, id) + MinusRatings(t.ratings, id))
  {
    AggregatesAgree(t.ratings, id);
  }
}
