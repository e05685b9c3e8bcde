/**
 * app/models.py: the five tables (translation requests, translation responses,
 * access logs, ratings, users), their lookups and unique constraints, the
 * `translation` view with its rating aggregates, and the database session:
 * rows are staged in a change set and a commit applies them all at once or
 * none of them.
 */
module Models {
  import opened Wrappers

  /** Row identities: `uuid4()` values, modelled as numbers issued by a counter. */
  type Id = nat

  /** Timestamps (`datetime.now()`), supplied by the caller. */
  type Time = int

  datatype TranslationRequest = TranslationRequest(
    id: Id, userId: Option<Id>, timestamp: Time,
    source: string, target: string, originalText: string, originalTextHash: string)

  /** `mode` 1 is a direct machine translation, 2 one through Japanese, 3 a human one. */
  datatype TranslationResponse = TranslationResponse(
    id: Id, userId: Option<Id>, timestamp: Time,
    source: string, target: string, mode: int, originalTextHash: string,
    intermediateText: Option<string>, translatedText: string)

  /** `flag` stays NULL (`None`) on a row until it is flushed, when the column default applies. */
  datatype AccessLog = AccessLog(
    id: Id, translationId: Option<Id>, userId: Option<Id>, timestamp: Time,
    userAgent: Option<string>, remoteAddress: Option<string>, flag: Option<int>)

  datatype Rating = Rating(id: Id, translationId: Id, userId: Id, timestamp: Time, rating: int)

  datatype User = User(
    id: Id, oauthProvider: Option<string>, oauthId: string, oauthUsername: string,
    familyName: string, givenName: string, email: string, locale: string, gender: Option<string>)

  /** The keyword arguments the login handler passes to `User.insert`. */
  datatype OAuthProfile = OAuthProfile(
    oauthId: string, oauthUsername: string, givenName: string, familyName: string,
    email: string, locale: string)

  /** A row of the `translation` view: a response, its request's text and its rating sum and count. */
  datatype Translation = Translation(
    id: Id, userId: Option<Id>, timestamp: Time, source: string, target: string, mode: int,
    originalText: Option<string>, originalTextHash: string,
    intermediateText: Option<string>, translatedText: string,
    rating: Option<int>, count: Option<nat>)

  /** `TranslationAccessLog.FLAG_CREATED`: the access created a new response. */
  const FlagCreated: int := 1

  /** The column default of `TranslationAccessLog.flag`. */
  const DefaultFlag: int := 0

  datatype Tables = Tables(
    requests: seq<TranslationRequest>, responses: seq<TranslationResponse>,
    logs: seq<AccessLog>, ratings: seq<Rating>, users: seq<User>)

  const EmptyTables: Tables := Tables([], [], [], [], [])

  /**
   * What a session holds before it commits: new rows per table, new values for
   * already stored rating rows (by position), and responses to delete (by id).
   */
  datatype ChangeSet = ChangeSet(
    requests: seq<TranslationRequest>, responses: seq<TranslationResponse>,
    logs: seq<AccessLog>, ratings: seq<Rating>, ratingEdits: map<nat, Rating>,
    deletions: set<Id>, users: seq<User>)

  const NoChanges: ChangeSet := ChangeSet([], [], [], [], map[], {}, [])

  // ---------------------------------------------------------------- lookups

  /** The position of the first element satisfying `p` (`query.filter_by(...).first()`). */
  function First<T>(s: seq<T>, p: T -> bool): (k: Option<nat>)
    ensures k.Some? ==> k.value < |s| && p(s[k.value]) && forall j :: 0 <= j < k.value ==> !p(s[j])
    ensures k.None? ==> forall j :: 0 <= j < |s| ==> !p(s[j])
  {
    if s == [] then None
    else if p(s[0]) then Some(0)
    else
      match First(s[1..], p)
      case None => None
      case Some(i) => Some(i + 1)
  }

  predicate RequestKeyIs(r: TranslationRequest, hash: string, source: string, target: string) {
    r.originalTextHash == hash && r.source == source && r.target == target
  }

  /** The key `TranslationResponse.fetch` looks up: no `user_id` in it. */
  predicate ResponseKeyIs(r: TranslationResponse, hash: string, source: string, target: string, mode: int) {
    r.originalTextHash == hash && r.source == source && r.target == target && r.mode == mode
  }

  /** `TranslationRequest.fetch(None, hash, source, target)` */
  function FetchRequest(rs: seq<TranslationRequest>, hash: string, source: string, target: string)
    : (r: Option<TranslationRequest>)
    ensures r.Some? ==> r.value in rs && RequestKeyIs(r.value, hash, source, target)
    ensures r.None? <==> forall k :: 0 <= k < |rs| ==> !RequestKeyIs(rs[k], hash, source, target)
  {
    match First(rs, (q: TranslationRequest) => RequestKeyIs(q, hash, source, target))
    case None => None
    case Some(k) => Some(rs[k])
  }

  /** Rows added after a match do not change which row `first()` finds; after no match, it looks among them. */
  lemma FirstAppend<T>(s: seq<T>, e: seq<T>, p: T -> bool)
    ensures First(s + e, p) == match First(s, p)
                               case Some(k) => Some(k)
                               case None => match First(e, p)
                                            case None => None
                                            case Some(j) => Some(|s| + j)
  {
    forall i | 0 <= i < |s| ensures (s + e)[i] == s[i] { }
    forall i | 0 <= i < |e| ensures (s + e)[|s| + i] == e[i] { }
  }

  lemma FetchRequestAppend(rs: seq<TranslationRequest>, extra: seq<TranslationRequest>,
                           hash: string, source: string, target: string)
    ensures FetchRequest(rs + extra, hash, source, target)
         == if FetchRequest(rs, hash, source, target).Some? then FetchRequest(rs, hash, source, target)
            else FetchRequest(extra, hash, source, target)
  {
    var p := (q: TranslationRequest) => RequestKeyIs(q, hash, source, target);
    FirstAppend(rs, extra, p);
    if First(rs, p).None? && First(extra, p).Some? {
      assert (rs + extra)[|rs| + First(extra, p).value] == extra[First(extra, p).value];
    }
  }

  /** `TranslationRequest.fetch(id_b62)` once the id is decoded: `query.get(id)`. */
  function FetchRequestById(rs: seq<TranslationRequest>, id: Id): (r: Option<TranslationRequest>)
    ensures r.Some? ==> r.value in rs && r.value.id == id
    ensures r.None? <==> forall k :: 0 <= k < |rs| ==> rs[k].id != id
  {
    match First(rs, (q: TranslationRequest) => q.id == id)
    case None => None
    case Some(k) => Some(rs[k])
  }

  /** `TranslationResponse.fetch(None, hash, source, target, mode)`: any owner, human or machine. */
  function FetchResponse(rs: seq<TranslationResponse>, hash: string, source: string, target: string, mode: int)
    : (r: Option<TranslationResponse>)
    ensures r.Some? ==> r.value in rs && ResponseKeyIs(r.value, hash, source, target, mode)
    ensures r.None? <==> forall k :: 0 <= k < |rs| ==> !ResponseKeyIs(rs[k], hash, source, target, mode)
  {
    match First(rs, (q: TranslationResponse) => ResponseKeyIs(q, hash, source, target, mode))
    case None => None
    case Some(k) => Some(rs[k])
  }

  lemma FetchResponseAppend(rs: seq<TranslationResponse>, extra: seq<TranslationResponse>,
                            hash: string, source: string, target: string, mode: int)
    ensures FetchResponse(rs + extra, hash, source, target, mode)
         == if FetchResponse(rs, hash, source, target, mode).Some? then FetchResponse(rs, hash, source, target, mode)
            else FetchResponse(extra, hash, source, target, mode)
  {
    var p := (q: TranslationResponse) => ResponseKeyIs(q, hash, source, target, mode);
    FirstAppend(rs, extra, p);
    if First(rs, p).None? && First(extra, p).Some? {
      assert (rs + extra)[|rs| + First(extra, p).value] == extra[First(extra, p).value];
    }
  }

  /** `TranslationResponse.fetch(id_b62)` once the id is decoded: `query.get(id)`. */
  function FetchResponseById(rs: seq<TranslationResponse>, id: Id): (r: Option<TranslationResponse>)
    ensures r.Some? ==> r.value in rs && r.value.id == id
    ensures r.None? <==> forall k :: 0 <= k < |rs| ==> rs[k].id != id
  {
    match First(rs, (q: TranslationResponse) => q.id == id)
    case None => None
    case Some(k) => Some(rs[k])
  }

  /** The human response a user submitted for a text and language pair (mode 3 and that owner). */
  function FetchOwnResponse(rs: seq<TranslationResponse>, userId: Id, hash: string, source: string, target: string)
    : (r: Option<TranslationResponse>)
    ensures r.Some? ==> r.value in rs && r.value.userId == Some(userId) && ResponseKeyIs(r.value, hash, source, target, 3)
    ensures r.None? <==> forall k :: 0 <= k < |rs| ==>
              !(rs[k].userId == Some(userId) && ResponseKeyIs(rs[k], hash, source, target, 3))
  {
    match First(rs, (q: TranslationResponse) => q.userId == Some(userId) && ResponseKeyIs(q, hash, source, target, 3))
    case None => None
    case Some(k) => Some(rs[k])
  }

  predicate RatingKeyIs(r: Rating, translationId: Id, userId: Id) {
    r.translationId == translationId && r.userId == userId
  }

  /** `Rating.query.filter_by(translation_id=…, user_id=…).first()`, as a position. */
  function FindRating(rs: seq<Rating>, translationId: Id, userId: Id): (k: Option<nat>)
    ensures k.Some? ==> k.value < |rs| && RatingKeyIs(rs[k.value], translationId, userId)
    ensures k.Some? ==> forall j :: 0 <= j < k.value ==> !RatingKeyIs(rs[j], translationId, userId)
    ensures k.None? <==> forall j :: 0 <= j < |rs| ==> !RatingKeyIs(rs[j], translationId, userId)
  {
    First(rs, (r: Rating) => RatingKeyIs(r, translationId, userId))
  }

  /** `User.query.filter_by(oauth_id=…).first()`, as a position. */
  function FindUser(us: seq<User>, oauthId: string): (k: Option<nat>)
    ensures k.Some? ==> k.value < |us| && us[k.value].oauthId == oauthId
    ensures k.Some? ==> forall j :: 0 <= j < k.value ==> us[j].oauthId != oauthId
    ensures k.None? <==> forall j :: 0 <= j < |us| ==> us[j].oauthId != oauthId
  {
    First(us, (u: User) => u.oauthId == oauthId)
  }

  // ------------------------------------------------------ unique constraints

  /**
   * Two responses `UniqueConstraint('user_id', 'source', 'target', 'mode',
   * 'original_text_hash')` forbids together: the same owner and the same key.
   * NULL `user_id`s never compare equal, so machine responses never conflict.
   */
  predicate Conflict(a: TranslationResponse, b: TranslationResponse) {
    a.userId.Some? && b.userId.Some? && a.userId == b.userId &&
    ResponseKeyIs(b, a.originalTextHash, a.source, a.target, a.mode)
  }

  predicate UniqueResponses(rs: seq<TranslationResponse>) {
    forall i, j :: 0 <= i < j < |rs| ==> !Conflict(rs[i], rs[j])
  }

  /** `UniqueConstraint('translation_id', 'user_id')`: one vote per user per response. */
  predicate UniqueRatings(rs: seq<Rating>) {
    forall i, j :: 0 <= i < j < |rs| ==> !RatingKeyIs(rs[j], rs[i].translationId, rs[i].userId)
  }

  /** `oauth_id` is `unique=True` (which also makes `(oauth_provider, oauth_id)` unique). */
  predicate UniqueUsers(us: seq<User>) {
    forall i, j :: 0 <= i < j < |us| ==> us[i].oauthId != us[j].oauthId
  }

  /** A user whose `oauth_id` is not yet stored can be added, and is then the one found by it. */
  lemma NewUserAccepted(t: Tables, user: User)
    requires Constraints(t) && FindUser(t.users, user.oauthId).None?
    ensures Constraints(t.(users := t.users + [user]))
    ensures FindUser(t.users + [user], user.oauthId) == Some(|t.users|)
  {
    var us := t.users + [user];
    forall i, j | 0 <= i < j < |us| ensures us[i].oauthId != us[j].oauthId {
      assert us[i] == t.users[i];
      if j < |t.users| {
        assert us[j] == t.users[j];
      }
    }
    assert us[|t.users|] == user;
    forall j | 0 <= j < |t.users| ensures us[j].oauthId != user.oauthId {
      assert us[j] == t.users[j];
    }
  }

  /** What the database refuses to commit. */
  predicate Constraints(t: Tables) {
    UniqueResponses(t.responses) && UniqueRatings(t.ratings) && UniqueUsers(t.users)
  }

  // ----------------------------------------------------------------- commit

  /** A log row as stored: an unset `flag` takes the column default. */
  function Flushed(log: AccessLog): AccessLog {
    if log.flag == None then log.(flag := Some(DefaultFlag)) else log
  }

  function FlushedLogs(logs: seq<AccessLog>): (r: seq<AccessLog>)
    ensures |r| == |logs|
  {
    seq(|logs|, i requires 0 <= i < |logs| => Flushed(logs[i]))
  }

  /** The responses that remain once those with the given ids are deleted, in order. */
  function WithoutIds(rs: seq<TranslationResponse>, ids: set<Id>): (r: seq<TranslationResponse>)
    ensures forall x :: x in r <==> x in rs && x.id !in ids
    ensures ids == {} ==> r == rs
  {
    if rs == [] then []
    else (if rs[0].id in ids then [] else [rs[0]]) + WithoutIds(rs[1..], ids)
  }

  function EditRatings(rs: seq<Rating>, edits: map<nat, Rating>): (r: seq<Rating>)
    ensures |r| == |rs|
  {
    seq(|rs|, i requires 0 <= i < |rs| => if i in edits then edits[i] else rs[i])
  }

  /** The tables after a successful commit of `cs`. */
  function Apply(t: Tables, cs: ChangeSet): Tables {
    Tables(
      t.requests + cs.requests,
      WithoutIds(t.responses, cs.deletions) + cs.responses,
      t.logs + FlushedLogs(cs.logs),
      EditRatings(t.ratings, cs.ratingEdits) + cs.ratings,
      t.users + cs.users)
  }

  /** Committing only new users appends them and changes no other table. */
  lemma ApplyUsers(t: Tables, us: seq<User>)
    ensures Apply(t, NoChanges.(users := us)) == t.(users := t.users + us)
  {
    assert EditRatings(t.ratings, map[]) == t.ratings;
    assert FlushedLogs([]) == [];
  }

  // ----------------------------------------------------------- ids in use

  predicate TablesBelow(t: Tables, n: Id) {
    && (forall r :: r in t.requests ==> r.id < n)
    && (forall r :: r in t.responses ==> r.id < n)
    && (forall r :: r in t.logs ==> r.id < n)
    && (forall r :: r in t.ratings ==> r.id < n)
    && (forall r :: r in t.users ==> r.id < n)
  }

  predicate ChangesBelow(cs: ChangeSet, n: Id) {
    && TablesBelow(Tables(cs.requests, cs.responses, cs.logs, cs.ratings, cs.users), n)
    && (forall k :: k in cs.ratingEdits ==> cs.ratingEdits[k].id < n)
  }

  lemma ApplyBelow(t: Tables, cs: ChangeSet, n: Id)
    requires TablesBelow(t, n) && ChangesBelow(cs, n)
    ensures TablesBelow(Apply(t, cs), n)
  {
    var a := Apply(t, cs);
    forall r | r in a.logs ensures r.id < n {
      var i :| 0 <= i < |a.logs| && a.logs[i] == r;
      if i >= |t.logs| {
        assert r == Flushed(cs.logs[i - |t.logs|]);
        assert cs.logs[i - |t.logs|] in cs.logs;
      }
    }
    forall r | r in a.ratings ensures r.id < n {
      var i :| 0 <= i < |a.ratings| && a.ratings[i] == r;
      if i < |t.ratings| && i !in cs.ratingEdits {
        assert t.ratings[i] in t.ratings;
      }
    }
  }

  // ---------------------------------------------------- the translation view

  /** Rows of `rating` for a response. */
  function RatingCount(rs: seq<Rating>, translationId: Id): nat {
    if rs == [] then 0
    else RatingCount(rs[..|rs| - 1], translationId) + (if rs[|rs| - 1].translationId == translationId then 1 else 0)
  }

  /** `sum(rating)` over a response's rows. */
  function RatingSum(rs: seq<Rating>, translationId: Id): int {
    if rs == [] then 0
    else RatingSum(rs[..|rs| - 1], translationId) + (if rs[|rs| - 1].translationId == translationId then rs[|rs| - 1].rating else 0)
  }

  /** Rows of `rating` for a response holding the value `v`. */
  function CountValue(rs: seq<Rating>, translationId: Id, v: int): nat {
    if rs == [] then 0
    else CountValue(rs[..|rs| - 1], translationId, v) + (if RatingIs(rs[|rs| - 1], translationId, v) then 1 else 0)
  }

  predicate RatingIs(r: Rating, translationId: Id, v: int) {
    r.translationId == translationId && r.rating == v
  }

  /** `Translation.plus_ratings`: `Rating.query.filter_by(translation_id=id, rating=1).count()`. */
  function PlusRatings(rs: seq<Rating>, translationId: Id): nat {
    CountValue(rs, translationId, 1)
  }

  /** `Translation.minus_ratings`: the same with `rating=-1`. */
  function MinusRatings(rs: seq<Rating>, translationId: Id): nat {
    CountValue(rs, translationId, -1)
  }

  /** A value counted as +1 or -1 is a row of that response: neither count exceeds the row count. */
  lemma {:induction false} CountsBounded(rs: seq<Rating>, translationId: Id)
    ensures PlusRatings(rs, translationId) + MinusRatings(rs, translationId) <= RatingCount(rs, translationId)
  {
    if rs != [] {
      CountsBounded(rs[..|rs| - 1], translationId);
    }
  }

  /** The `translation` view's row for one response. */
  function ViewOf(t: Tables, r: TranslationResponse): Translation {
    var request := FetchRequest(t.requests, r.originalTextHash, r.source, r.target);
    var n := RatingCount(t.ratings, r.id);
    Translation(
      r.id, r.userId, r.timestamp, r.source, r.target, r.mode,
      if request.Some? then Some(request.value.originalText) else None,
      r.originalTextHash, r.intermediateText, r.translatedText,
      if n == 0 then None else Some(RatingSum(t.ratings, r.id)),
      if n == 0 then None else Some(n))
  }

  /**
   * `Translation.query.get(id)`: the view row for a response id, with the
   * request text from the left join on (source, target, hash), and the rating
   * sum and count from the grouped `rating` subquery, both NULL when the
   * response has no ratings.
   */
  function ViewRow(t: Tables, id: Id): (v: Option<Translation>)
    ensures v.Some? <==> FetchResponseById(t.responses, id).Some?
    ensures v.Some? ==> v.value.id == id
    ensures v.Some? ==> (v.value.count == None <==> RatingCount(t.ratings, id) == 0)
    ensures v.Some? && v.value.count.Some? ==>
              v.value.count.value == RatingCount(t.ratings, id) && v.value.rating == Some(RatingSum(t.ratings, id))
    ensures v.Some? ==>
              var r := FetchResponseById(t.responses, id).value;
              && v.value.userId == r.userId && v.value.timestamp == r.timestamp
              && v.value.source == r.source && v.value.target == r.target && v.value.mode == r.mode
              && v.value.originalTextHash == r.originalTextHash
              && v.value.intermediateText == r.intermediateText && v.value.translatedText == r.translatedText
    ensures v.Some? ==>
              (v.value.originalText.None? <==>
                 forall k :: 0 <= k < |t.requests| ==>
                   !RequestKeyIs(t.requests[k], v.value.originalTextHash, v.value.source, v.value.target))
    ensures v.Some? && v.value.originalText.Some? ==>
              exists q :: q in t.requests && q.originalText == v.value.originalText.value &&
                          RequestKeyIs(q, v.value.originalTextHash, v.value.source, v.value.target)
  {
    match FetchResponseById(t.responses, id)
    case None => None
    case Some(r) => Some(ViewOf(t, r))
  }

  /** `Translation.fetch(None, hash, source, target, mode)`: the view row of the first matching response. */
  function FetchTranslation(t: Tables, hash: string, source: string, target: string, mode: int): (v: Option<Translation>)
    ensures v.Some? <==> FetchResponse(t.responses, hash, source, target, mode).Some?
    ensures v.Some? ==> v.value.originalTextHash == hash && v.value.source == source &&
                        v.value.target == target && v.value.mode == mode
    ensures v.Some? ==>
              var r := FetchResponse(t.responses, hash, source, target, mode).value;
              && v.value.id == r.id && v.value.userId == r.userId && v.value.timestamp == r.timestamp
              && v.value.intermediateText == r.intermediateText && v.value.translatedText == r.translatedText
              && (v.value.count == None <==> RatingCount(t.ratings, r.id) == 0)
              && (v.value.count.Some? ==>
                    v.value.count.value == RatingCount(t.ratings, r.id) && v.value.rating == Some(RatingSum(t.ratings, r.id)))
    ensures v.Some? ==>
              (v.value.originalText.None? <==>
                 forall k :: 0 <= k < |t.requests| ==> !RequestKeyIs(t.requests[k], hash, source, target))
    ensures v.Some? && v.value.originalText.Some? ==>
              exists q :: q in t.requests && q.originalText == v.value.originalText.value && RequestKeyIs(q, hash, source, target)
  {
    match FetchResponse(t.responses, hash, source, target, mode)
    case None => None
    case Some(r) => Some(ViewOf(t, r))
  }

  // ------------------------------------------------------------- the session

  /** A failed commit: the database raised (an `IntegrityError` or any other error). */
  datatype CommitError = CommitError

  /**
   * The database and the session in front of it. `tables` is what is
   * committed; `pending` is what the session has staged since; `nextId` is the
   * id the next new row gets.
   */
  class Database {
    var tables: Tables
    var pending: ChangeSet
    var nextId: Id

    ghost predicate Valid()
      reads this
    {
      Constraints(tables) && TablesBelow(tables, nextId) && ChangesBelow(pending, nextId)
    }

    constructor ()
      ensures Valid()
      ensures tables == EmptyTables && pending == NoChanges
    {
      tables := EmptyTables;
      pending := NoChanges;
      nextId := 0;
    }

    /** `TranslationRequest.insert(commit=False, …)`: one new row, staged, with a fresh id. */
    method InsertRequest(userId: Option<Id>, source: string, target: string, originalText: string,
                         originalTextHash: string, now: Time) returns (row: TranslationRequest)
      requires Valid()
      modifies this
      ensures Valid()
      ensures row == TranslationRequest(old(nextId), userId, now, source, target, originalText, originalTextHash)
      ensures forall r :: r in old(tables.requests) + old(pending.requests) ==> r.id != row.id
      ensures pending == old(pending).(requests := old(pending.requests) + [row])
      ensures tables == old(tables) && nextId == old(nextId) + 1
    {
      row := TranslationRequest(nextId, userId, now, source, target, originalText, originalTextHash);
      pending := pending.(requests := pending.requests + [row]);
      nextId := nextId + 1;
    }

    /** `TranslationResponse.insert(commit=False, …)`: one new row, staged, with a fresh id. */
    method InsertResponse(userId: Option<Id>, source: string, target: string, mode: int,
                          originalTextHash: string, intermediateText: Option<string>,
                          translatedText: string, now: Time) returns (row: TranslationResponse)
      requires Valid()
      modifies this
      ensures Valid()
      ensures row == TranslationResponse(old(nextId), userId, now, source, target, mode, originalTextHash,
                                         intermediateText, translatedText)
      ensures forall r :: r in old(tables.responses) + old(pending.responses) ==> r.id != row.id
      ensures pending == old(pending).(responses := old(pending.responses) + [row])
      ensures tables == old(tables) && nextId == old(nextId) + 1
    {
      row := TranslationResponse(nextId, userId, now, source, target, mode, originalTextHash,
                                 intermediateText, translatedText);
      pending := pending.(responses := pending.responses + [row]);
      nextId := nextId + 1;
    }

    /**
     * `TranslationAccessLog.insert(commit=False, user_id, user_agent, remote_address)`:
     * one new row, staged, with a fresh id; `translation_id` and `flag` are not set.
     */
    method InsertAccessLog(userId: Option<Id>, userAgent: Option<string>, remoteAddress: Option<string>,
                           now: Time) returns (row: AccessLog)
      requires Valid()
      modifies this
      ensures Valid()
      ensures row == AccessLog(old(nextId), None, userId, now, userAgent, remoteAddress, None)
      ensures forall r :: r in old(tables.logs) + old(pending.logs) ==> r.id != row.id
      ensures pending == old(pending).(logs := old(pending.logs) + [row])
      ensures tables == old(tables) && nextId == old(nextId) + 1
    {
      row := AccessLog(nextId, None, userId, now, userAgent, remoteAddress, None);
      pending := pending.(logs := pending.logs + [row]);
      nextId := nextId + 1;
    }

    /** Assigning attributes of a staged log row (the row keeps its id). */
    method UpdateStagedLog(k: nat, log: AccessLog)
      requires Valid()
      requires k < |pending.logs| && log.id == pending.logs[k].id
      modifies this
      ensures Valid()
      ensures pending == old(pending).(logs := old(pending.logs)[k := log])
      ensures tables == old(tables) && nextId == old(nextId)
    {
      assert pending.logs[k] in pending.logs;
      pending := pending.(logs := pending.logs[k := log]);
    }

    /** `Rating.insert(commit=False, translation_id, user_id, rating)`: one new row, staged, with a fresh id. */
    method InsertRating(translationId: Id, userId: Id, rating: int, now: Time) returns (row: Rating)
      requires Valid()
      modifies this
      ensures Valid()
      ensures row == Rating(old(nextId), translationId, userId, now, rating)
      ensures forall r :: r in old(tables.ratings) + old(pending.ratings) ==> r.id != row.id
      ensures pending == old(pending).(ratings := old(pending.ratings) + [row])
      ensures tables == old(tables) && nextId == old(nextId) + 1
    {
      row := Rating(nextId, translationId, userId, now, rating);
      pending := pending.(ratings := pending.ratings + [row]);
      nextId := nextId + 1;
    }

    /** Assigning attributes of a stored rating row: the new values wait for the commit. */
    method EditRating(k: nat, row: Rating)
      requires Valid()
      requires k < |tables.ratings| && row.id == tables.ratings[k].id
      modifies this
      ensures Valid()
      ensures pending == old(pending).(ratingEdits := old(pending.ratingEdits)[k := row])
      ensures tables == old(tables) && nextId == old(nextId)
    {
      assert tables.ratings[k] in tables.ratings;
      pending := pending.(ratingEdits := pending.ratingEdits[k := row]);
    }

    /** `db.session.delete(response)`: the deletion waits for the commit. */
    method DeleteResponse(id: Id)
      requires Valid()
      modifies this
      ensures Valid()
      ensures pending == old(pending).(deletions := old(pending.deletions) + {id})
      ensures tables == old(tables) && nextId == old(nextId)
    {
      pending := pending.(deletions := pending.deletions + {id});
    }

    /**
     * `db.session.commit()`: the staged changes are applied together when the
     * database accepts them (it enforces the unique constraints, and may fail
     * for reasons of its own, `fails`), otherwise none is; either way the
     * session is empty afterwards.
     */
    method Commit(fails: bool) returns (ok: bool)
      requires Valid()
      modifies this
      ensures Valid()
      ensures ok == (!fails && Constraints(Apply(old(tables), old(pending))))
      ensures tables == (if ok then Apply(old(tables), old(pending)) else old(tables))
      ensures pending == NoChanges && nextId == old(nextId)
    {
      var merged := Apply(tables, pending);
      ok := !fails && Constraints(merged);
      if ok {
        ApplyBelow(tables, pending, nextId);
        tables := merged;
      }
      pending := NoChanges;
    }

    /** `db.session.rollback()`, and the session's close at the end of every request. */
    method Rollback()
      requires Valid()
      modifies this
      ensures Valid()
      ensures pending == NoChanges && tables == old(tables) && nextId == old(nextId)
    {
      pending := NoChanges;
    }

    /** `db.session.add(User(**profile))`: the new user row, staged, with a fresh id. */
    method StageUser(profile: OAuthProfile) returns (user: User)
      requires Valid()
      modifies this
      ensures Valid()
      ensures user == User(old(nextId), None, profile.oauthId, profile.oauthUsername, profile.familyName,
                           profile.givenName, profile.email, profile.locale, None)
      ensures pending == old(pending).(users := old(pending.users) + [user])
      ensures tables == old(tables) && nextId == old(nextId) + 1
    {
      user := User(nextId, None, profile.oauthId, profile.oauthUsername, profile.familyName,
                   profile.givenName, profile.email, profile.locale, None);
      pending := pending.(users := pending.users + [user]);
      nextId := nextId + 1;
    }

    /**
     * `User.insert(**profile)`: the stored user with that `oauth_id` if there is
     * one, and nothing is written; otherwise a new user, committed at once.
     */
    method InsertUser(profile: OAuthProfile, fails: bool) returns (result: Result<User, CommitError>)
      requires Valid() && pending == NoChanges
      modifies this
      ensures Valid() && pending == NoChanges
      ensures FindUser(old(tables.users), profile.oauthId).Some? ==>
                result == Ok(old(tables.users)[FindUser(old(tables.users), profile.oauthId).value]) &&
                tables == old(tables)
      ensures FindUser(old(tables.users), profile.oauthId).None? ==>
                var user := User(old(nextId), None, profile.oauthId, profile.oauthUsername, profile.familyName,
                                 profile.givenName, profile.email, profile.locale, None);
                && (result.Ok? <==> !fails)
                && (result.Ok? ==> result.value == user && tables == old(tables).(users := old(tables.users) + [user]))
                && (result.Err? ==> tables == old(tables))
      ensures result.Ok? ==> FindUser(tables.users, profile.oauthId).Some? &&
                             tables.users[FindUser(tables.users, profile.oauthId).value] == result.value
    {
      var k := FindUser(tables.users, profile.oauthId);
      if k.Some? {
        return Ok(tables.users[k.value]);
      }
      result := AddUser(profile, fails);
    }

    /** The new-user path of `User.insert`: the row is added and committed. */
    method AddUser(profile: OAuthProfile, fails: bool) returns (result: Result<User, CommitError>)
      requires Valid() && pending == NoChanges
      requires FindUser(tables.users, profile.oauthId).None?
      modifies this
      ensures Valid() && pending == NoChanges
      ensures var user := User(old(nextId), None, profile.oauthId, profile.oauthUsername, profile.familyName,
                               profile.givenName, profile.email, profile.locale, None);
              && (result.Ok? <==> !fails)
              && (result.Ok? ==> result.value == user && tables == old(tables).(users := old(tables.users) + [user]))
              && (result.Err? ==> tables == old(tables))
      ensures result.Ok? ==> FindUser(tables.users, profile.oauthId) == Some(|old(tables.users)|)
    {
      var before := tables;
      var user := StageUser(profile);
      ApplyUsers(before, [user]);
      NewUserAccepted(before, user);
      var ok := Commit(fails);
      if ok {
        result := Ok(user);
      } else {
        result := Err(CommitError);
      }
    }
  }
}
