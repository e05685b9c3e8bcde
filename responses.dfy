/**
 * The handlers of app/core.py that work on one stored response:
 * `tresponse_rate` (a user's vote on it) and `translation_response` (a
 * user's own human translation of the same text: submit, look up, delete).
 * Both run behind `login_required`, so the current user is always known.
 */
module ResponseHandlers {
  import opened Wrappers
  import opened Text
  import opened Models
  import opened Ratings
  import opened TranslateHandler

  // ------------------------------------------------------------ the vote

  /** What `tresponse_rate` returns: the stored row as JSON, a refusal, a failed commit (500), or an exception. */
  datatype RateOutcome =
    | Rated(row: Rating)
    | RateRefused(message: string, status: int)
    | RateFailed
    | RateRaised

  datatype RateRun = RateRun(outcome: RateOutcome, tables: Tables)

  /**
   * The specification of `tresponse_rate` over the committed tables `t`, with
   * `id` the id a new rating row gets and `commitFails` whether the database
   * refuses the commit.
   */
  function RateSpec(t: Tables, id: Id, idB62: string, user: Id, v: int, services: Services, now: Time,
                    commitFails: bool): RateRun
  {
    if !IsVote(v) then RateRun(RateRefused("Invalid rating\n", 400), t)
    else match services.decodeId(idB62)
      case None => RateRun(RateRaised, t)
      case Some(responseId) =>
        match FetchResponseById(t.responses, responseId)
        case None => RateRun(RateRefused("Requested resource does not exist\n", 404), t)
        case Some(response) =>
          if commitFails then RateRun(RateFailed, t)
          else RateRun(Rated(VotedRow(t.ratings, response.id, user, v, id, now)),
                       t.(ratings := Vote(t.ratings, response.id, user, v, id, now)))
  }

  /**
   * The `id_b62` a committed `translate` call returns (`AnswerIsStored`: the
   * encoding of its id) can be rated: a vote on it is a vote on the answered
   * response, never a 404.
   */
  lemma AnswerCanBeRated(t: Tables, firstId: Id, form: TranslateForm, ctx: RequestContext, services: Services,
                         now: Time, ratingId: Id, user: Id, v: int, voteNow: Time)
    requires IdCodecInverse(services) && IsVote(v)
    requires TranslateSpec(t, firstId, form, ctx, services, now, false).outcome.Translated?
    requires TranslateSpec(t, firstId, form, ctx, services, now, false).outcome.id.Some?
    ensures var run := TranslateSpec(t, firstId, form, ctx, services, now, false);
            var id := run.outcome.id.value;
            RateSpec(run.tables, ratingId, services.encodeId(id), user, v, services, voteNow, false)
              == RateRun(Rated(VotedRow(run.tables.ratings, id, user, v, ratingId, voteNow)),
                         run.tables.(ratings := Vote(run.tables.ratings, id, user, v, ratingId, voteNow)))
  {
    var run := TranslateSpec(t, firstId, form, ctx, services, now, false);
    AnswerIsStored(t, firstId, form, ctx, services, now);
    assert services.decodeId(services.encodeId(run.outcome.id.value)) == Some(run.outcome.id.value);
  }

  /** What a vote stages: a new row, or new values for the user's stored row. */
  function VoteChanges(rs: seq<Rating>, translationId: Id, userId: Id, v: int, id: Id, now: Time): ChangeSet {
    match FindRating(rs, translationId, userId)
    case Some(k) => NoChanges.(ratingEdits := map[k := rs[k].(timestamp := now, rating := v)])
    case None => NoChanges.(ratings := [Rating(id, translationId, userId, now, v)])
  }

  /** Committing a vote's changes gives the voted rating rows, and the database accepts them. */
  lemma VoteCommits(t: Tables, translationId: Id, userId: Id, v: int, id: Id, now: Time)
    requires Constraints(t)
    ensures var cs := VoteChanges(t.ratings, translationId, userId, v, id, now);
            Apply(t, cs) == t.(ratings := Vote(t.ratings, translationId, userId, v, id, now))
            && Constraints(Apply(t, cs))
  {
    var cs := VoteChanges(t.ratings, translationId, userId, v, id, now);
    assert t.requests + [] == t.requests && t.responses + [] == t.responses;
    assert t.logs + FlushedLogs([]) == t.logs && t.users + [] == t.users;
    match FindRating(t.ratings, translationId, userId)
    case Some(k) =>
      assert EditRatings(t.ratings, cs.ratingEdits) + [] == t.ratings[k := t.ratings[k].(timestamp := now, rating := v)];
    case None =>
      assert EditRatings(t.ratings, map[]) == t.ratings;
    VoteLeavesOneRow(t.ratings, translationId, userId, v, id, now);
  }

  /**
   * `tresponse_rate()`: `v` is the form value `r` as an integer, `user` the
   * current user.
   */
  method Rate(db: Database, idB62: string, user: Id, v: int, services: Services, now: Time, commitFails: bool)
    returns (outcome: RateOutcome)
    requires db.Valid() && db.pending == NoChanges
    modifies db
    ensures db.Valid() && db.pending == NoChanges
    ensures RateRun(outcome, db.tables) == RateSpec(old(db.tables), old(db.nextId), idB62, user, v, services, now, commitFails)
  {
    if !(v == -1 || v == 1) {
      return RateRefused("Invalid rating\n", 400);
    }
    var responseId := services.decodeId(idB62);
    if responseId.None? {
      return RateRaised;
    }
    var response := FetchResponseById(db.tables.responses, responseId.value);
    if response.None? {
      return RateRefused("Requested resource does not exist\n", 404);
    }
    outcome := CastVote(db, response.value.id, user, v, now, commitFails);
  }

  /** Lines 591-602: the user's rating row is staged, new or with the new value and time. */
  method StageVote(db: Database, translationId: Id, user: Id, v: int, now: Time) returns (row: Rating)
    requires db.Valid() && db.pending == NoChanges
    modifies db
    ensures db.Valid() && db.tables == old(db.tables)
    ensures db.pending == VoteChanges(db.tables.ratings, translationId, user, v, old(db.nextId), now)
    ensures row == VotedRow(db.tables.ratings, translationId, user, v, old(db.nextId), now)
  {
    var k := FindRating(db.tables.ratings, translationId, user);
    if k.None? {
      row := db.InsertRating(translationId, user, v, now);
    } else {
      row := db.tables.ratings[k.value].(timestamp := now, rating := v);
      db.EditRating(k.value, row);
    }
  }

  /** Lines 591-611 for a known response: the vote is staged and committed. */
  method CastVote(db: Database, translationId: Id, user: Id, v: int, now: Time, commitFails: bool)
    returns (outcome: RateOutcome)
    requires db.Valid() && db.pending == NoChanges
    modifies db
    ensures db.Valid() && db.pending == NoChanges
    ensures outcome == (if commitFails then RateFailed
                        else Rated(VotedRow(old(db.tables).ratings, translationId, user, v, old(db.nextId), now)))
    ensures db.tables == if commitFails then old(db.tables)
                         else old(db.tables).(ratings := Vote(old(db.tables).ratings, translationId, user, v, old(db.nextId), now))
  {
    var row := StageVote(db, translationId, user, v, now);
    VoteCommits(db.tables, translationId, user, v, old(db.nextId), now);
    var ok := db.Commit(commitFails);
    if ok {
      outcome := Rated(row);
    } else {
      outcome := RateFailed;
    }
  }

  /** A value other than 1 or -1 is refused with 400 and changes nothing. */
  lemma NonVoteRefused(t: Tables, id: Id, idB62: string, user: Id, v: int, services: Services, now: Time,
                       commitFails: bool)
    requires !IsVote(v)
    ensures RateSpec(t, id, idB62, user, v, services, now, commitFails)
         == RateRun(RateRefused("Invalid rating\n", 400), t)
  {
  }

  /** A vote on an id no response has is answered with 404 and changes nothing. */
  lemma UnknownResponseNotFound(t: Tables, id: Id, idB62: string, user: Id, v: int, services: Services,
                                now: Time, commitFails: bool)
    requires IsVote(v) && services.decodeId(idB62).Some?
    requires forall r :: r in t.responses ==> r.id != services.decodeId(idB62).value
    ensures RateSpec(t, id, idB62, user, v, services, now, commitFails)
         == RateRun(RateRefused("Requested resource does not exist\n", 404), t)
  {
  }

  /**
   * A committed vote leaves exactly one row for (response, user), holding
   * the vote, which is the row returned; a re-vote adds no row; every other
   * rating and every other table is as it was, and the constraints hold.
   */
  lemma RateLeavesOneRow(t: Tables, id: Id, idB62: string, user: Id, v: int, services: Services, now: Time)
    requires Constraints(t) && IsVote(v) && services.decodeId(idB62).Some?
    requires FetchResponseById(t.responses, services.decodeId(idB62).value).Some?
    ensures var run := RateSpec(t, id, idB62, user, v, services, now, false);
            var rid := services.decodeId(idB62).value;
            var k := FindRating(run.tables.ratings, rid, user);
            && run.outcome.Rated?
            && k.Some? && run.tables.ratings[k.value] == run.outcome.row
            && run.outcome.row.rating == v && run.outcome.row.timestamp == now
            && (forall j :: 0 <= j < |run.tables.ratings| && RatingKeyIs(run.tables.ratings[j], rid, user) ==> j == k.value)
            && |run.tables.ratings| == |t.ratings| + (if FindRating(t.ratings, rid, user).None? then 1 else 0)
            && (forall j :: 0 <= j < |t.ratings| && !RatingKeyIs(t.ratings[j], rid, user) ==> run.tables.ratings[j] == t.ratings[j])
            && run.tables == t.(ratings := run.tables.ratings)
            && Constraints(run.tables)
  {
    var rid := services.decodeId(idB62).value;
    VoteLeavesOneRow(t.ratings, rid, user, v, id, now);
    VotedRowIsFound(t.ratings, rid, user, v, id, now);
  }

  /** Voting the same way twice leaves the tables as the first vote did. */
  lemma RateTwiceSame(t: Tables, id: Id, id': Id, idB62: string, user: Id, v: int, services: Services, now: Time)
    ensures var once := RateSpec(t, id, idB62, user, v, services, now, false);
            RateSpec(once.tables, id', idB62, user, v, services, now, false).tables == once.tables
  {
    if IsVote(v) && services.decodeId(idB62).Some? {
      var rid := services.decodeId(idB62).value;
      if FetchResponseById(t.responses, rid).Some? {
        VoteIdempotent(t.ratings, rid, user, v, id, id', now);
      }
    }
  }

  // ------------------------------------------- the user's own translation

  /** The three methods of `/tr/<id>/response`: POST a translation, GET the page, DELETE the response. */
  datatype PageRequest = Submit(text: string) | Show | Remove

  /**
   * What `translation_response` answers: the rendered page with its status,
   * the `translation` view row and the user's response in it; an empty body
   * after a deletion; `(str(e), 500)` when the deletion fails; or an exception.
   */
  datatype PageOutcome =
    | Page(status: int, translation: Option<Translation>, response: Option<TranslationResponse>)
    | Removed
    | RemoveFailed
    | PageRaised

  datatype PageRun = PageRun(outcome: PageOutcome, tables: Tables)

  /** The human translation a user submits for the text and pair of a view row. */
  function HumanRow(id: Id, user: Id, now: Time, view: Translation, text: string): TranslationResponse {
    TranslationResponse(id, Some(user), now, view.source, view.target, 3, view.originalTextHash, None, text)
  }

  /**
   * The specification of `translation_response` (app/core.py:476-534) over
   * the committed tables `t`, with `id` the id a new response row gets.
   */
  function PageSpec(t: Tables, id: Id, idB62: string, user: Id, request: PageRequest, services: Services,
                    now: Time, commitFails: bool): PageRun
  {
    match services.decodeId(idB62)
    case None => PageRun(PageRaised, t)
    case Some(responseId) =>
      match request
      case Submit(text) => SubmitSpec(t, id, responseId, user, text, now, commitFails)
      case Remove => RemoveSpec(t, responseId, commitFails)
      case Show => ShowSpec(t, responseId, user)
  }

  /** POST: an empty translation is refused; otherwise the user's response is added and committed. */
  function SubmitSpec(t: Tables, id: Id, responseId: Id, user: Id, text: string, now: Time, commitFails: bool): PageRun {
    var view := ViewRow(t, responseId);
    var stripped := Strip(text, UnicodeStr);
    if |stripped| <= 0 then PageRun(Page(400, view, None), t)
    else if view.None? then PageRun(PageRaised, t)
    else
      var row := HumanRow(id, user, now, view.value, stripped);
      var v := view.value;
      if !commitFails && FetchOwnResponse(t.responses, user, v.originalTextHash, v.source, v.target).None?
      then PageRun(Page(200, view, Some(row)), t.(responses := t.responses + [row]))
      else PageRun(PageRaised, t)
  }

  /** DELETE: the response with the id is deleted, whoever owns it. */
  function RemoveSpec(t: Tables, responseId: Id, commitFails: bool): PageRun {
    if FetchResponseById(t.responses, responseId).Some? && !commitFails
    then PageRun(Removed, t.(responses := WithoutIds(t.responses, {responseId})))
    else PageRun(RemoveFailed, t)
  }

  /** GET: the page with the user's own human response for the same text and pair, if any. */
  function ShowSpec(t: Tables, responseId: Id, user: Id): PageRun {
    var view := ViewRow(t, responseId);
    if view.None? then PageRun(PageRaised, t)
    else
      var v := view.value;
      PageRun(Page(200, view, FetchOwnResponse(t.responses, user, v.originalTextHash, v.source, v.target)), t)
  }

  /** The page of the `id_b62` a committed `translate` call returns shows that response's view row. */
  lemma AnswerPageShown(t: Tables, firstId: Id, form: TranslateForm, ctx: RequestContext, services: Services,
                        now: Time, newId: Id, user: Id, pageNow: Time)
    requires IdCodecInverse(services)
    requires TranslateSpec(t, firstId, form, ctx, services, now, false).outcome.Translated?
    requires TranslateSpec(t, firstId, form, ctx, services, now, false).outcome.id.Some?
    ensures var run := TranslateSpec(t, firstId, form, ctx, services, now, false);
            var page := PageSpec(run.tables, newId, services.encodeId(run.outcome.id.value), user, Show, services,
                                 pageNow, false);
            && page.tables == run.tables && page.outcome.Page? && page.outcome.status == 200
            && page.outcome.translation.Some? && page.outcome.translation.value.id == run.outcome.id.value
  {
    var run := TranslateSpec(t, firstId, form, ctx, services, now, false);
    var id := run.outcome.id.value;
    AnswerIsStored(t, firstId, form, ctx, services, now);
    ShownById(run.tables, newId, services.encodeId(id), id, user, services, pageNow);
  }

  /** The page of a stored response's `id_b62` shows its view row. */
  lemma ShownById(t: Tables, newId: Id, idB62: string, id: Id, user: Id, services: Services, pageNow: Time)
    requires services.decodeId(idB62) == Some(id)
    requires FetchResponseById(t.responses, id).Some?
    ensures var page := PageSpec(t, newId, idB62, user, Show, services, pageNow, false);
            && page.tables == t && page.outcome.Page? && page.outcome.status == 200
            && page.outcome.translation.Some? && page.outcome.translation.value.id == id
  {
    assert PageSpec(t, newId, idB62, user, Show, services, pageNow, false) == ShowSpec(t, id, user);
  }

  /**
   * A user's human response can be added exactly when that user has none
   * for the same text and pair: the unique constraint on responses.
   */
  lemma OwnResponseUnique(rs: seq<TranslationResponse>, row: TranslationResponse, user: Id)
    requires UniqueResponses(rs)
    requires row.userId == Some(user) && row.mode == 3
    ensures UniqueResponses(rs + [row])
        <==> FetchOwnResponse(rs, user, row.originalTextHash, row.source, row.target).None?
  {
    var after := rs + [row];
    var own := FetchOwnResponse(rs, user, row.originalTextHash, row.source, row.target);
    if own.None? {
      forall i, j | 0 <= i < j < |after| && after[i].userId.Some? && after[j].userId.Some?
        ensures !(after[i].userId == after[j].userId &&
                  ResponseKeyIs(after[j], after[i].originalTextHash, after[i].source, after[i].target, after[i].mode))
      {
        assert after[i] == rs[i];
        if j < |rs| {
          assert after[j] == rs[j];
        }
      }
    } else {
      var k :| 0 <= k < |rs| && rs[k] == own.value;
      assert after[k] == rs[k] && after[|rs|] == row;
    }
  }

  /** Responses are unique when the first clashes with none of the rest and the rest are unique. */
  lemma UniqueCons(x: TranslationResponse, rest: seq<TranslationResponse>)
    ensures UniqueResponses([x] + rest) <==> UniqueResponses(rest) && forall y :: y in rest ==> !Conflict(x, y)
  {
    if UniqueResponses([x] + rest) {
      UniqueTail(x, rest);
    }
    if UniqueResponses(rest) && forall y :: y in rest ==> !Conflict(x, y) {
      UniqueAddHead(x, rest);
    }
  }

  lemma UniqueTail(x: TranslationResponse, rest: seq<TranslationResponse>)
    requires UniqueResponses([x] + rest)
    ensures UniqueResponses(rest) && forall y :: y in rest ==> !Conflict(x, y)
  {
    var rs := [x] + rest;
    forall i, j | 0 <= i < j < |rest| ensures !Conflict(rest[i], rest[j]) {
      assert rest[i] == rs[i + 1] && rest[j] == rs[j + 1];
    }
    forall y | y in rest ensures !Conflict(x, y) {
      var j :| 0 <= j < |rest| && rest[j] == y;
      assert rs[0] == x && rs[j + 1] == y;
    }
  }

  lemma UniqueAddHead(x: TranslationResponse, rest: seq<TranslationResponse>)
    requires UniqueResponses(rest) && forall y :: y in rest ==> !Conflict(x, y)
    ensures UniqueResponses([x] + rest)
  {
    var rs := [x] + rest;
    forall i, j | 0 <= i < j < |rs| ensures !Conflict(rs[i], rs[j]) {
      assert rs[j] == rest[j - 1] && rest[j - 1] in rest;
      if i > 0 {
        assert rs[i] == rest[i - 1];
      }
    }
  }

  /** Deleting responses keeps the unique constraint: what remains is a subsequence. */
  lemma {:induction false} DeletionKeepsUnique(rs: seq<TranslationResponse>, ids: set<Id>)
    requires UniqueResponses(rs)
    ensures UniqueResponses(WithoutIds(rs, ids))
  {
    if rs != [] {
      assert rs == [rs[0]] + rs[1..];
      UniqueCons(rs[0], rs[1..]);
      DeletionKeepsUnique(rs[1..], ids);
      var rest := WithoutIds(rs[1..], ids);
      if rs[0].id !in ids {
        UniqueCons(rs[0], rest);
      }
    }
  }

  /** The pending changes of a submission, committed, give the tables with the new row. */
  lemma SubmitApplies(t: Tables, row: TranslationResponse)
    ensures Apply(t, NoChanges.(responses := [row])) == t.(responses := t.responses + [row])
  {
    assert EditRatings(t.ratings, map[]) == t.ratings;
    assert t.requests + [] == t.requests && t.ratings + [] == t.ratings && t.users + [] == t.users;
  }

  /** The pending changes of a deletion, committed, give the tables without the row. */
  lemma RemoveApplies(t: Tables, id: Id)
    requires Constraints(t)
    ensures Apply(t, NoChanges.(deletions := {id})) == t.(responses := WithoutIds(t.responses, {id}))
    ensures Constraints(Apply(t, NoChanges.(deletions := {id})))
  {
    assert EditRatings(t.ratings, map[]) == t.ratings;
    assert t.requests + [] == t.requests && t.ratings + [] == t.ratings && t.users + [] == t.users;
    DeletionKeepsUnique(t.responses, {id});
  }

  /** An empty (or all-blank) submission is refused with 400 and changes nothing. */
  lemma EmptySubmissionRefused(t: Tables, id: Id, responseId: Id, user: Id, text: string, now: Time,
                               commitFails: bool)
    requires Strip(text, UnicodeStr) == []
    ensures SubmitSpec(t, id, responseId, user, text, now, commitFails)
         == PageRun(Page(400, ViewRow(t, responseId), None), t)
  {
  }

  /**
   * A first submission by a user for a text and pair adds exactly one
   * response: the user's, in mode 3, under the key of the viewed response,
   * holding the stripped text, with a fresh id; the constraints still hold,
   * and the page shown afterwards holds that response.
   */
  lemma SubmissionAddsOwnResponse(t: Tables, id: Id, responseId: Id, user: Id, text: string, now: Time)
    requires Constraints(t) && TablesBelow(t, id)
    requires Strip(text, UnicodeStr) != []
    requires ViewRow(t, responseId).Some?
    requires var v := ViewRow(t, responseId).value;
             FetchOwnResponse(t.responses, user, v.originalTextHash, v.source, v.target).None?
    ensures var run := SubmitSpec(t, id, responseId, user, text, now, false);
            var v := ViewRow(t, responseId).value;
            && run.outcome.Page? && run.outcome.status == 200 && run.outcome.response.Some?
            && var row := run.outcome.response.value;
               && run.tables == t.(responses := t.responses + [row])
               && row.userId == Some(user) && ResponseKeyIs(row, v.originalTextHash, v.source, v.target, 3)
               && (var answered := FetchResponseById(t.responses, responseId).value;
                   ResponseKeyIs(row, answered.originalTextHash, answered.source, answered.target, 3))
               && row.translatedText == Strip(text, UnicodeStr) && row.intermediateText == None
               && (forall r :: r in t.responses ==> r.id != row.id)
               && Constraints(run.tables)
               && ShowSpec(run.tables, responseId, user).outcome == Page(200, ViewRow(t, responseId), Some(row))
  {
    var v := ViewRow(t, responseId).value;
    var row := HumanRow(id, user, now, v, Strip(text, UnicodeStr));
    var t' := t.(responses := t.responses + [row]);
    assert SubmitSpec(t, id, responseId, user, text, now, false) == PageRun(Page(200, Some(v), Some(row)), t');
    OwnResponseUnique(t.responses, row, user);
    assert Constraints(t');
    AddedIsShown(t, responseId, row, user);
  }

  /** Once a user's response is added for the key of a viewed response, the page shows it. */
  lemma AddedIsShown(t: Tables, responseId: Id, row: TranslationResponse, user: Id)
    requires ViewRow(t, responseId).Some?
    requires var v := ViewRow(t, responseId).value;
             row.userId == Some(user) && ResponseKeyIs(row, v.originalTextHash, v.source, v.target, 3)
             && FetchOwnResponse(t.responses, user, v.originalTextHash, v.source, v.target).None?
    ensures ShowSpec(t.(responses := t.responses + [row]), responseId, user).outcome
         == Page(200, ViewRow(t, responseId), Some(row))
  {
    var v := ViewRow(t, responseId).value;
    var t' := t.(responses := t.responses + [row]);
    var byId := (q: TranslationResponse) => q.id == responseId;
    FirstAppend(t.responses, [row], byId);
    assert ViewRow(t', responseId) == ViewRow(t, responseId);
    var own := (q: TranslationResponse) => q.userId == Some(user) && ResponseKeyIs(q, v.originalTextHash, v.source, v.target, 3);
    FirstAppend(t.responses, [row], own);
    assert First([row], own) == Some(0);
    assert t'.responses[|t.responses|] == row;
  }

  /** A second submission by the same user for the same text and pair fails at the commit and changes nothing. */
  lemma ResubmissionFails(t: Tables, id: Id, responseId: Id, user: Id, text: string, now: Time, commitFails: bool)
    requires Strip(text, UnicodeStr) != []
    requires ViewRow(t, responseId).Some?
    requires var v := ViewRow(t, responseId).value;
             FetchOwnResponse(t.responses, user, v.originalTextHash, v.source, v.target).Some?
    ensures SubmitSpec(t, id, responseId, user, text, now, commitFails) == PageRun(PageRaised, t)
  {
  }

  /**
   * Deleting an existing response removes it and nothing else, whoever owns
   * it, and keeps the constraints; deleting an unknown id fails with 500 and
   * changes nothing.
   */
  lemma RemoveDeletesOnlyIt(t: Tables, responseId: Id, commitFails: bool)
    requires Constraints(t)
    ensures var run := RemoveSpec(t, responseId, commitFails);
            && (run.outcome == Removed <==> FetchResponseById(t.responses, responseId).Some? && !commitFails)
            && (run.outcome != Removed ==> run.outcome == RemoveFailed && run.tables == t)
            && FetchResponseById(run.tables.responses, responseId).None? == (run.outcome == Removed || FetchResponseById(t.responses, responseId).None?)
            && (run.outcome == Removed ==>
                  && (forall r :: r in run.tables.responses <==> r in t.responses && r.id != responseId)
                  && run.tables == t.(responses := run.tables.responses))
            && Constraints(run.tables)
  {
    DeletionKeepsUnique(t.responses, {responseId});
    var run := RemoveSpec(t, responseId, commitFails);
    if run.outcome == Removed {
      forall k | 0 <= k < |run.tables.responses| ensures run.tables.responses[k].id != responseId {
        assert run.tables.responses[k] in run.tables.responses;
      }
    }
  }

  /** The POST branch of `translation_response()`. */
  method SubmitPage(db: Database, responseId: Id, user: Id, text: string, now: Time, commitFails: bool)
    returns (outcome: PageOutcome)
    requires db.Valid() && db.pending == NoChanges
    modifies db
    ensures db.Valid() && db.pending == NoChanges
    ensures PageRun(outcome, db.tables) == SubmitSpec(old(db.tables), old(db.nextId), responseId, user, text, now, commitFails)
  {
    var view := ViewRow(db.tables, responseId);
    var stripped := Strip(text, UnicodeStr);
    if |stripped| <= 0 {
      return Page(400, view, None);
    }
    if view.None? {
      return PageRaised;
    }
    var row, ok := AddOwnResponse(db, user, view.value, stripped, now, commitFails);
    if ok {
      outcome := Page(200, view, Some(row));
    } else {
      // the IntegrityError or other commit error is not caught
      outcome := PageRaised;
    }
  }

  /**
   * Lines 498-505: the user's response is inserted and committed at once; the
   * commit fails when the user already has one for the text and pair.
   */
  method AddOwnResponse(db: Database, user: Id, v: Translation, text: string, now: Time, commitFails: bool)
    returns (row: TranslationResponse, ok: bool)
    requires db.Valid() && db.pending == NoChanges
    modifies db
    ensures db.Valid() && db.pending == NoChanges
    ensures row == HumanRow(old(db.nextId), user, now, v, text)
    ensures ok == (!commitFails && FetchOwnResponse(old(db.tables).responses, user, v.originalTextHash, v.source, v.target).None?)
    ensures db.tables == if ok then old(db.tables).(responses := old(db.tables).responses + [row]) else old(db.tables)
  {
    var t0 := db.tables;
    row := db.InsertResponse(Some(user), v.source, v.target, 3, v.originalTextHash, None, text, now);
    assert row == HumanRow(old(db.nextId), user, now, v, text);
    assert db.pending == NoChanges.(responses := [row]);
    SubmitApplies(t0, row);
    OwnResponseUnique(t0.responses, row, user);
    ok := db.Commit(commitFails);
  }

  /** The DELETE branch of `translation_response()`. */
  method RemovePage(db: Database, responseId: Id, commitFails: bool) returns (outcome: PageOutcome)
    requires db.Valid() && db.pending == NoChanges
    modifies db
    ensures db.Valid() && db.pending == NoChanges
    ensures PageRun(outcome, db.tables) == RemoveSpec(old(db.tables), responseId, commitFails)
  {
    var response := FetchResponseById(db.tables.responses, responseId);
    if response.None? {
      // `db.session.delete(None)` raises inside the `try`
      return RemoveFailed;
    }
    RemoveApplies(db.tables, responseId);
    db.DeleteResponse(response.value.id);
    assert db.pending == NoChanges.(deletions := {responseId});
    var ok := db.Commit(commitFails);
    outcome := if ok then Removed else RemoveFailed;
  }

  /**
   * `translation_response()`: `request` is the HTTP method with the POST
   * form's `text`, `user` the current user.
   */
  method TranslationResponsePage(db: Database, idB62: string, user: Id, request: PageRequest, services: Services,
                                 now: Time, commitFails: bool) returns (outcome: PageOutcome)
    requires db.Valid() && db.pending == NoChanges
    modifies db
    ensures db.Valid() && db.pending == NoChanges
    ensures PageRun(outcome, db.tables)
         == PageSpec(old(db.tables), old(db.nextId), idB62, user, request, services, now, commitFails)
  {
    var responseId := services.decodeId(idB62);
    if responseId.None? {
      return PageRaised;
    }
    match request
    case Submit(text) =>
      outcome := SubmitPage(db, responseId.value, user, text, now, commitFails);
    case Remove =>
      outcome := RemovePage(db, responseId.value, commitFails);
    case Show =>
      var view := ViewRow(db.tables, responseId.value);
      if view.None? {
        return PageRaised;
      }
      var v := view.value;
      outcome := Page(200, view, FetchOwnResponse(db.tables.responses, user, v.originalTextHash, v.source, v.target));
  }
}
