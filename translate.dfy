/**
 * `translate()` in app/core.py: the machine translation behind a cache keyed
 * by the text's fingerprint, the language pair and the mode, with an access
 * log row per request. The handler starts with an empty session (the session
 * is closed after every request) and leaves it empty: what it staged is
 * committed as one unit or dropped.
 */
module TranslateHandler {
  import opened Wrappers
  import opened Text
  import opened Utils
  import opened Shaping
  import opened Models

  /** The form fields of a translate request: `t`, `m`, `sl` and `tl`. */
  datatype TranslateForm = TranslateForm(text: string, mode: string, source: string, target: string)

  /** What a request carries besides its form: the logged-in user, the User-Agent header and the addresses. */
  datatype RequestContext = RequestContext(
    user: Option<Id>, userAgent: Option<string>, forwardedFor: seq<string>, remoteAddr: Option<string>)

  /**
   * What the handlers call but this model does not define: the supported
   * languages (`VALID_LANGUAGES`), the text fingerprint (nilsimsa), the
   * compact id encoding (base62 of the UUID) with its decoding, and the
   * translation provider.
   */
  datatype Services = Services(
    languages: set<string>, fingerprint: string -> string,
    encodeId: Id -> string, decodeId: string -> Option<Id>, provider: Provider)

  /** `base62.decode` undoes `base62.encode` of a response's UUID: a returned `id_b62` names that response. */
  ghost predicate IdCodecInverse(services: Services) {
    forall id: Id :: services.decodeId(services.encodeId(id)) == Some(id)
  }

  /** What `translate` returns: the result dictionary, a `(message, 400)` pair, or an exception. */
  datatype TranslateOutcome =
    | Translated(id: Option<Id>, idB62: Option<string>, intermediateText: Option<string>, translatedText: string)
    | Refused(message: string, status: int)
    | Raised(failure: Failure)

  /** `request.form[k].strip()` for the four fields. */
  function Stripped(form: TranslateForm): TranslateForm {
    TranslateForm(Strip(form.text, UnicodeStr), Strip(form.mode, UnicodeStr),
                  Strip(form.source, UnicodeStr), Strip(form.target, UnicodeStr))
  }

  /** A translation that gets past the checks of lines 364-374. */
  predicate Admitted(f: TranslateForm, languages: set<string>) {
    f.source != f.target && f.source in languages && f.target in languages
  }

  /** The value of a decimal numeral. */
  function DecimalValue(s: string): nat {
    if s == [] then 0 else DecimalValue(s[..|s| - 1]) * 10 + ((s[|s| - 1] as int - '0' as int) % 10)
  }

  /**
   * How the database reads the mode text when it compares it with the integer
   * `mode` column: a decimal numeral gives its value, anything else makes the
   * query fail.
   */
  function ModeColumn(mode: string): (m: Option<int>)
    ensures m.Some? <==> mode != [] && forall k :: 0 <= k < |mode| ==> IsDigit(mode[k])
    ensures m.Some? ==> m.value >= 0
  {
    if mode != [] && forall k :: 0 <= k < |mode| ==> IsDigit(mode[k]) then Some(DecimalValue(mode)) else None
  }

  /** Every decimal numeral is read as its number: `ModeColumn` undoes `DecimalString`. */
  lemma ModeColumnReadsNumerals(n: nat)
    ensures ModeColumn(DecimalString(n)) == Some(n)
  {
    NumeralValue(n);
  }

  lemma {:induction false} NumeralValue(n: nat)
    ensures var s := DecimalString(n);
            && s != [] && (forall k :: 0 <= k < |s| ==> IsDigit(s[k])) && DecimalValue(s) == n
    decreases n
  {
    var s := DecimalString(n);
    if n < 10 {
      assert s[..|s| - 1] == [];
    } else {
      var high := DecimalString(n / 10);
      var low := DecimalString(n % 10);
      NumeralValue(n / 10);
      NumeralValue(n % 10);
      assert s == high + low && |low| == 1;
      assert s[..|s| - 1] == high;
      assert s[|s| - 1] == low[0];
      assert DecimalValue(low) == (low[0] as int - '0' as int) % 10 by {
        assert low[..0] == [];
      }
      forall k | 0 <= k < |s| ensures IsDigit(s[k]) {
        if k < |high| {
          assert s[k] == high[k];
        }
      }
    }
  }

  /** A leading `0` does not change the value of a numeral. */
  lemma {:induction false} LeadingZeroIgnored(s: string)
    ensures DecimalValue(['0'] + s) == DecimalValue(s)
    decreases |s|
  {
    var z := ['0'] + s;
    if s == [] {
      assert z[..|z| - 1] == [];
    } else {
      assert z[..|z| - 1] == ['0'] + s[..|s| - 1];
      LeadingZeroIgnored(s[..|s| - 1]);
    }
  }

  /** Leading zeros are ignored: `'0' * zeros + '%d' % n` is read as `n` as well. */
  lemma {:induction false} ModeColumnIgnoresLeadingZeros(zeros: nat, n: nat)
    ensures ModeColumn(seq(zeros, _ => '0') + DecimalString(n)) == Some(n)
    decreases zeros
  {
    var s := seq(zeros, _ => '0') + DecimalString(n);
    if zeros == 0 {
      assert s == DecimalString(n);
      ModeColumnReadsNumerals(n);
    } else {
      var rest := seq(zeros - 1, _ => '0') + DecimalString(n);
      assert s == ['0'] + rest;
      ModeColumnIgnoresLeadingZeros(zeros - 1, n);
      LeadingZeroIgnored(rest);
      forall k | 0 <= k < |s| ensures IsDigit(s[k]) {
        if k > 0 {
          assert s[k] == rest[k - 1];
        }
      }
    }
  }

  lemma ModeColumnOfModes()
    ensures ModeColumn("1") == Some(1) && ModeColumn("2") == Some(2) && ModeColumn("3") == Some(3)
  {
    assert DecimalValue("1") == DecimalValue([]) * 10 + 1;
    assert DecimalValue("2") == DecimalValue([]) * 10 + 2;
    assert DecimalValue("3") == DecimalValue([]) * 10 + 3;
  }

  /**
   * Lines 421-424: the access-log flag once the access has created a response.
   * A NULL flag becomes `FLAG_CREATED`; otherwise `flag | FLAG_CREATED`.
   */
  function MarkCreated(flag: Option<int>): (r: int)
    ensures r % 2 == 1
    ensures flag == None ==> r == FlagCreated
    ensures flag.Some? ==> r / 2 == flag.value / 2
  {
    if flag == None then FlagCreated
    else if flag.value % 2 == 0 then flag.value + 1
    else flag.value
  }

  /** What the provider work on a cache miss produces. */
  datatype MissWork =
    | Produced(intermediate: Option<string>, translated: string)
    | BadMode
    | ProviderFailed(failure: Failure)

  /** The intermediate language of mode 2. */
  const Intermediate: string := "ja"

  /**
   * Lines 402-409: on a cache miss, mode '1' asks the provider once, source to
   * target; mode '2' asks it twice, through Japanese; any other mode is refused
   * without asking.
   */
  function MissTranslation(provider: Provider, text: string, mode: string, source: string, target: string,
                           userAgent: Option<string>): (r: (MissWork, seq<ProviderCall>))
    requires source != target
    ensures mode != "1" && mode != "2" ==> r == (BadMode, [])
    ensures r.0 != BadMode <==> mode == "1" || mode == "2"
    ensures r.0.Produced? ==> (r.0.intermediate == None <==> mode == "1")
    ensures mode == "1" && userAgent.Some? ==>
              |r.1| == 1 && r.1[0].text == text && r.1[0].source == source && r.1[0].target == target
    ensures mode == "1" && r.0.Produced? ==>
              |r.1| == 1 && r.0.translated == ShapeOutput(provider(r.1[0]).sentences) && provider(r.1[0]).status == 200
    ensures mode == "1" && userAgent.Some? ==> (r.0.Produced? <==> provider(r.1[0]).status == 200)
    ensures mode == "2" && userAgent.Some? && source != Intermediate ==>
              1 <= |r.1| && r.1[0].text == text && r.1[0].source == source && r.1[0].target == Intermediate
    ensures mode == "2" && r.0.Produced? && Intermediate != target ==>
              r.1 != [] && var last := r.1[|r.1| - 1];
              last.text == r.0.intermediate.value && last.source == Intermediate && last.target == target
    ensures |r.1| <= 2
    ensures forall c :: c in r.1 ==> userAgent.Some? && c.userAgent == NormalizeUserAgent(userAgent.value)
  {
    if mode == "1" then Direct(provider, text, source, target, userAgent)
    else if mode == "2" then ThroughIntermediate(provider, text, source, target, userAgent)
    else (BadMode, [])
  }

  /** Mode '1' (lines 402-403): one request, source to target. */
  function Direct(provider: Provider, text: string, source: string, target: string,
                  userAgent: Option<string>): (r: (MissWork, seq<ProviderCall>))
    requires source != target
    ensures r.0 != BadMode
    ensures r.0.Produced? ==> r.0.intermediate == None
    ensures userAgent.Some? ==>
              |r.1| == 1 && r.1[0].text == text && r.1[0].source == source && r.1[0].target == target
    ensures r.0.Produced? ==>
              |r.1| == 1 && r.0.translated == ShapeOutput(provider(r.1[0]).sentences) && provider(r.1[0]).status == 200
    ensures userAgent.Some? ==> (r.0.Produced? <==> provider(r.1[0]).status == 200)
    ensures userAgent.Some? && r.0.ProviderFailed? ==>
              r.0.failure.HttpError? && r.0.failure.exception.statusCode == provider(r.1[0]).status
    ensures userAgent.None? ==> r == (ProviderFailed(InternalError), [])
    ensures |r.1| <= 1
    ensures forall c :: c in r.1 ==> userAgent.Some? && c.userAgent == NormalizeUserAgent(userAgent.value)
  {
    var (result, calls) := ProviderTranslate(provider, text, source, target, userAgent);
    if result.Err? then (ProviderFailed(result.error), calls)
    else (Produced(None, result.value), calls)
  }

  /** Mode '2' (lines 404-407): source to Japanese, then the Japanese text to target. */
  function ThroughIntermediate(provider: Provider, text: string, source: string, target: string,
                               userAgent: Option<string>): (r: (MissWork, seq<ProviderCall>))
    ensures r.0 != BadMode
    ensures r.0.Produced? ==> r.0.intermediate.Some?
    ensures userAgent.Some? && source != Intermediate ==>
              1 <= |r.1| && r.1[0].text == text && r.1[0].source == source && r.1[0].target == Intermediate
    ensures r.0.Produced? && Intermediate != target ==>
              r.1 != [] && var last := r.1[|r.1| - 1];
              last.text == r.0.intermediate.value && last.source == Intermediate && last.target == target
    ensures target == Intermediate && r.0.Produced? ==> r.0.translated == r.0.intermediate.value
    ensures |r.1| <= 2
    ensures forall c :: c in r.1 ==> userAgent.Some? && c.userAgent == NormalizeUserAgent(userAgent.value)
  {
    var (first, calls1) := ProviderTranslate(provider, text, source, Intermediate, userAgent);
    if first.Err? then (ProviderFailed(first.error), calls1)
    else
      var (second, calls2) := ProviderTranslate(provider, first.value, Intermediate, target, userAgent);
      if second.Err? then (ProviderFailed(second.error), calls1 + calls2)
      else (Produced(Some(first.value), second.value), calls1 + calls2)
  }

  /**
   * Mode '2' between two languages other than Japanese: the second request is
   * made exactly when the first is answered with 200, on the shaped first
   * reply; the translation is produced exactly when the second is answered
   * with 200 too, and it stores both shaped replies. Otherwise the status of
   * the last reply is raised.
   */
  lemma ThroughIntermediateReplies(provider: Provider, text: string, source: string, target: string, ua: string)
    requires source != Intermediate && target != Intermediate
    ensures var r := ThroughIntermediate(provider, text, source, target, Some(ua));
            var c1 := ProviderCall(text, source, Intermediate, NormalizeUserAgent(ua));
            var mid := ShapeOutput(provider(c1).sentences);
            var c2 := ProviderCall(mid, Intermediate, target, NormalizeUserAgent(ua));
            && (provider(c1).status != 200 ==>
                  r.1 == [c1] && r.0.ProviderFailed? && r.0.failure.HttpError?
                  && r.0.failure.exception.statusCode == provider(c1).status)
            && (provider(c1).status == 200 ==>
                  && r.1 == [c1, c2]
                  && (r.0.Produced? <==> provider(c2).status == 200)
                  && (r.0.Produced? ==> r.0 == Produced(Some(mid), ShapeOutput(provider(c2).sentences)))
                  && (r.0.ProviderFailed? ==>
                        r.0.failure.HttpError? && r.0.failure.exception.statusCode == provider(c2).status))
  {
    var c1 := ProviderCall(text, source, Intermediate, NormalizeUserAgent(ua));
    var first := ProviderTranslate(provider, text, source, Intermediate, Some(ua));
    assert first == (Ask(provider, c1), [c1]);
    if provider(c1).status == 200 {
      var mid := ShapeOutput(provider(c1).sentences);
      var c2 := ProviderCall(mid, Intermediate, target, NormalizeUserAgent(ua));
      assert ProviderTranslate(provider, mid, Intermediate, target, Some(ua)) == (Ask(provider, c2), [c2]);
    }
  }

  /**
   * Mode '2' when one side is Japanese makes one request only, because the
   * leg from Japanese to Japanese returns its text unchanged. Into Japanese,
   * the shaped reply is both the intermediate text and the translation; out of
   * Japanese, the text itself is the intermediate text. Either way the
   * translation is produced exactly when that reply is 200, and otherwise its
   * status is raised.
   */
  lemma ThroughJapaneseOneRequest(provider: Provider, text: string, source: string, target: string, ua: string)
    ensures var r := ThroughIntermediate(provider, text, source, target, Some(ua));
            var c := ProviderCall(text, source, target, NormalizeUserAgent(ua));
            var out := ShapeOutput(provider(c).sentences);
            (source == Intermediate) != (target == Intermediate) ==>
              && r.1 == [c]
              && (r.0.Produced? <==> provider(c).status == 200)
              && (r.0.Produced? && target == Intermediate ==> r.0 == Produced(Some(out), out))
              && (r.0.Produced? && source == Intermediate ==> r.0 == Produced(Some(text), out))
              && (r.0.ProviderFailed? ==>
                    r.0.failure.HttpError? && r.0.failure.exception.statusCode == provider(c).status)
  {
    var c := ProviderCall(text, source, target, NormalizeUserAgent(ua));
    if target == Intermediate && source != Intermediate {
      assert ProviderTranslate(provider, text, source, Intermediate, Some(ua)) == (Ask(provider, c), [c]);
      if provider(c).status == 200 {
        var out := ShapeOutput(provider(c).sentences);
        assert ProviderTranslate(provider, out, Intermediate, target, Some(ua)) == (Ok(out), []);
      }
    } else if source == Intermediate && target != Intermediate {
      assert ProviderTranslate(provider, text, source, Intermediate, Some(ua)) == (Ok(text), []);
      assert ProviderTranslate(provider, text, Intermediate, target, Some(ua)) == (Ask(provider, c), [c]);
    }
  }

  /**
   * With a provider that answers `<target>:<text>`, mode '2' stores
   * `ja:<text>` as the intermediate text and `<target>:ja:<text>` as the
   * translation.
   */
  lemma EchoThroughJapanese(text: string, source: string, target: string, ua: string)
    requires source != Intermediate && target != Intermediate && source != target
    requires target != [] && text != [] && '\n' !in target + ":" + Intermediate + ":" + text
    requires !IsSpace(target[0], UnicodeStr) && !IsSpace(text[|text| - 1], UnicodeStr)
    ensures ThroughIntermediate(EchoProvider(), text, source, target, Some(ua)).0
         == Produced(Some(Intermediate + ":" + text), target + ":" + Intermediate + ":" + text)
  {
    var mid := Intermediate + ":" + text;
    assert target + ":" + mid == target + ":" + Intermediate + ":" + text;
    assert '\n' !in mid by {
      assert forall k :: 0 <= k < |mid| ==> mid[k] == (target + ":" + mid)[|target| + 1 + k];
    }
    assert Intermediate[0] == 'j';
    EchoTranslates(text, source, Intermediate, ua);
    assert mid[|mid| - 1] == text[|text| - 1];
    EchoTranslates(mid, Intermediate, target, ua);
  }

  /** The access-log row a translate call commits. */
  function LogRow(id: Id, ctx: RequestContext, now: Time, translationId: Id, created: bool): AccessLog {
    AccessLog(id, Some(translationId), ctx.user, now, ctx.userAgent,
              GetRemoteAddress(ctx.forwardedFor, ctx.remoteAddr),
              Some(if created then MarkCreated(None) else DefaultFlag))
  }

  /** The request row a translate call stages when the request is new. */
  function RequestRow(id: Id, f: TranslateForm, hash: string, now: Time): TranslationRequest {
    TranslationRequest(id, None, now, f.source, f.target, f.text, hash)
  }

  /** The response row a translate call creates on a cache miss: its id follows the log's and the request's. */
  function ResponseRow(t: Tables, f: TranslateForm, hash: string, firstId: Id, now: Time, mode: int,
                       intermediate: Option<string>, translated: string): TranslationResponse
  {
    var requestMiss := FetchRequest(t.requests, hash, f.source, f.target).None?;
    TranslationResponse(firstId + (if requestMiss then 2 else 1), None, now, f.source, f.target, mode, hash,
                        intermediate, translated)
  }

  /**
   * The tables after a translate call commits: its access log, the request row
   * if the request was not yet known, the response row if it was created.
   */
  function Recorded(t: Tables, f: TranslateForm, hash: string, ctx: RequestContext, now: Time, firstId: Id,
                    response: TranslationResponse, created: bool): Tables
  {
    var requestMiss := FetchRequest(t.requests, hash, f.source, f.target).None?;
    t.(requests := t.requests + (if requestMiss then [RequestRow(firstId + 1, f, hash, now)] else []),
       responses := t.responses + (if created then [response] else []),
       logs := t.logs + [LogRow(firstId, ctx, now, response.id, created)])
  }

  /** The returned dictionary for a stored or new response. */
  function Answer(r: TranslationResponse, services: Services): TranslateOutcome {
    Translated(Some(r.id), Some(services.encodeId(r.id)), r.intermediateText, r.translatedText)
  }

  /** What one `translate` call returns, asks the provider, and leaves in the tables. */
  datatype TranslateRun = TranslateRun(outcome: TranslateOutcome, calls: seq<ProviderCall>, tables: Tables)

  /**
   * The specification of `translate` (app/core.py:360-439) over the committed
   * tables `t`, with `firstId` the id its first new row gets and `commitFails`
   * whether the database refuses the final commit.
   */
  function TranslateSpec(t: Tables, firstId: Id, form: TranslateForm, ctx: RequestContext, services: Services,
                         now: Time, commitFails: bool): TranslateRun
  {
    var f := Stripped(form);
    if f.source == f.target then TranslateRun(Translated(None, None, None, f.text), [], t)
    else if f.source !in services.languages then TranslateRun(Refused("Invalid source language\n", 400), [], t)
    else if f.target !in services.languages then TranslateRun(Refused("Invalid target language\n", 400), [], t)
    else
      AdmittedSpec(t, firstId, f, services.fingerprint(f.text), ctx, services, now, commitFails)
  }

  /** `translate()` once the languages are accepted: `f` is the stripped form, `hash` its text's fingerprint. */
  function AdmittedSpec(t: Tables, firstId: Id, f: TranslateForm, hash: string, ctx: RequestContext,
                        services: Services, now: Time, commitFails: bool): TranslateRun
    requires f.source != f.target
  {
    match ModeColumn(f.mode)
    case None => TranslateRun(Raised(InternalError), [], t)
    case Some(mode) =>
      match FetchResponse(t.responses, hash, f.source, f.target, mode)
      case Some(r) =>
        TranslateRun(Answer(r, services), [],
                     if commitFails then t else Recorded(t, f, hash, ctx, now, firstId, r, false))
      case None => MissSpec(t, firstId, f, hash, mode, ctx, services, now, commitFails)
  }

  /** `translate()` on a cache miss for the mode's column value `mode`. */
  function MissSpec(t: Tables, firstId: Id, f: TranslateForm, hash: string, mode: int, ctx: RequestContext,
                    services: Services, now: Time, commitFails: bool): TranslateRun
    requires f.source != f.target
  {
    var (work, calls) := MissTranslation(services.provider, f.text, f.mode, f.source, f.target, ctx.userAgent);
    match work
    case BadMode => TranslateRun(Refused("Invalid mode\n", 400), calls, t)
    case ProviderFailed(failure) => TranslateRun(Raised(failure), calls, t)
    case Produced(intermediate, translated) =>
      var row := ResponseRow(t, f, hash, firstId, now, mode, intermediate, translated);
      TranslateRun(Answer(row, services), calls,
                   if commitFails then t else Recorded(t, f, hash, ctx, now, firstId, row, true))
  }

  /** The changes a translate call stages are always acceptable to the database. */
  lemma TranslateChangesAccepted(t: Tables, cs: ChangeSet)
    requires Constraints(t)
    requires cs.ratings == [] && cs.ratingEdits == map[] && cs.deletions == {} && cs.users == []
    requires forall r :: r in cs.responses ==> r.userId == None
    ensures Apply(t, cs) == t.(requests := t.requests + cs.requests, responses := t.responses + cs.responses,
                               logs := t.logs + FlushedLogs(cs.logs))
    ensures Constraints(Apply(t, cs))
  {
    assert EditRatings(t.ratings, map[]) == t.ratings;
    assert t.users + [] == t.users;
    assert t.ratings + [] == t.ratings;
  }

  /** The log row a translate call stages first, before it knows the response. */
  function OpenLog(id: Id, ctx: RequestContext, now: Time): AccessLog {
    AccessLog(id, None, ctx.user, now, ctx.userAgent, GetRemoteAddress(ctx.forwardedFor, ctx.remoteAddr), None)
  }

  /** What a translate call has staged once the cache lookup begins: its log, and its request if new. */
  function Staged(t: Tables, f: TranslateForm, hash: string, ctx: RequestContext, now: Time, firstId: Id): ChangeSet {
    var requestMiss := FetchRequest(t.requests, hash, f.source, f.target).None?;
    NoChanges.(logs := [OpenLog(firstId, ctx, now)],
               requests := if requestMiss then [RequestRow(firstId + 1, f, hash, now)] else [])
  }

  /** Lines 386-393 of `translate()`: the access log and, for an unknown request, the request row. */
  method StageRequest(db: Database, f: TranslateForm, hash: string, ctx: RequestContext, now: Time)
    requires db.Valid() && db.pending == NoChanges
    modifies db
    ensures db.Valid() && db.tables == old(db.tables)
    ensures db.nextId == old(db.nextId) + 1 + |db.pending.requests|
    ensures db.pending == Staged(db.tables, f, hash, ctx, now, old(db.nextId))
  {
    var _ := db.InsertAccessLog(ctx.user, ctx.userAgent, GetRemoteAddress(ctx.forwardedFor, ctx.remoteAddr), now);
    var request := FetchRequest(db.tables.requests, hash, f.source, f.target);
    if request == None {
      var _ := db.InsertRequest(None, f.source, f.target, f.text, hash, now);
    }
  }

  /**
   * The end of `translate()`: the log row learns the response (and whether it
   * was created), then everything staged is committed, or rolled back when
   * the commit fails.
   */
  method RecordAnswer(db: Database, f: TranslateForm, hash: string, ctx: RequestContext, now: Time, firstId: Id,
                      row: TranslationResponse, created: bool, commitFails: bool)
    requires db.Valid() && (created ==> row.userId == None)
    requires db.pending == Staged(db.tables, f, hash, ctx, now, firstId).(responses := if created then [row] else [])
    modifies db
    ensures db.Valid() && db.pending == NoChanges
    ensures db.tables == if commitFails then old(db.tables) else Recorded(old(db.tables), f, hash, ctx, now, firstId, row, created)
  {
    var t0 := db.tables;
    var log := OpenLog(firstId, ctx, now).(translationId := Some(row.id));
    if created {
      log := log.(flag := Some(MarkCreated(log.flag)));
    }
    db.UpdateStagedLog(0, log);
    assert FlushedLogs(db.pending.logs) == [LogRow(firstId, ctx, now, row.id, created)];
    TranslateChangesAccepted(t0, db.pending);
    var _ := db.Commit(commitFails);
  }

  /** `translate()` on a cache miss: the provider requests, then the new response row. */
  method TranslateMiss(db: Database, f: TranslateForm, hash: string, mode: int, ctx: RequestContext,
                       services: Services, now: Time, firstId: Id, commitFails: bool)
    returns (outcome: TranslateOutcome, calls: seq<ProviderCall>)
    requires f.source != f.target
    requires db.Valid() && db.pending == Staged(db.tables, f, hash, ctx, now, firstId)
    requires db.nextId == firstId + 1 + |db.pending.requests|
    modifies db
    ensures db.Valid() && db.pending == NoChanges
    ensures TranslateRun(outcome, calls, db.tables)
         == MissSpec(old(db.tables), firstId, f, hash, mode, ctx, services, now, commitFails)
  {
    // NOTE: the provider requests may be slow
    var (work, workCalls) := MissTranslation(services.provider, f.text, f.mode, f.source, f.target, ctx.userAgent);
    calls := workCalls;
    match work
    case BadMode =>
      db.Rollback();
      outcome := Refused("Invalid mode\n", 400);
    case ProviderFailed(failure) =>
      db.Rollback();
      outcome := Raised(failure);
    case Produced(intermediate, translated) =>
      var row := CreateResponse(db, f, hash, mode, ctx, now, firstId, intermediate, translated, commitFails);
      outcome := Answer(row, services);
  }

  /** Lines 410-425 of `translate()`: the new machine response is stored with the access log. */
  method CreateResponse(db: Database, f: TranslateForm, hash: string, mode: int, ctx: RequestContext, now: Time,
                        firstId: Id, intermediate: Option<string>, translated: string, commitFails: bool)
    returns (row: TranslationResponse)
    requires db.Valid() && db.pending == Staged(db.tables, f, hash, ctx, now, firstId)
    requires db.nextId == firstId + 1 + |db.pending.requests|
    modifies db
    ensures db.Valid() && db.pending == NoChanges
    ensures row == ResponseRow(old(db.tables), f, hash, firstId, now, mode, intermediate, translated)
    ensures db.tables == if commitFails then old(db.tables) else Recorded(old(db.tables), f, hash, ctx, now, firstId, row, true)
  {
    row := db.InsertResponse(None, f.source, f.target, mode, hash, intermediate, translated, now);
    RecordAnswer(db, f, hash, ctx, now, firstId, row, true, commitFails);
  }

  /** `translate()` once the languages are accepted: the log, the cache lookup, the miss path. */
  method TranslateAdmitted(db: Database, f: TranslateForm, hash: string, ctx: RequestContext,
                           services: Services, now: Time, commitFails: bool)
    returns (outcome: TranslateOutcome, calls: seq<ProviderCall>)
    requires f.source != f.target
    requires db.Valid() && db.pending == NoChanges
    modifies db
    ensures db.Valid() && db.pending == NoChanges
    ensures TranslateRun(outcome, calls, db.tables)
         == AdmittedSpec(old(db.tables), old(db.nextId), f, hash, ctx, services, now, commitFails)
  {
    var firstId := db.nextId;
    StageRequest(db, f, hash, ctx, now);

    var mode := ModeColumn(f.mode);
    if mode == None {
      db.Rollback();
      return Raised(InternalError), [];
    }
    var cached := FetchResponse(db.tables.responses, hash, f.source, f.target, mode.value);
    if cached.Some? {
      RecordAnswer(db, f, hash, ctx, now, firstId, cached.value, false, commitFails);
      return Answer(cached.value, services), [];
    }
    outcome, calls := TranslateMiss(db, f, hash, mode.value, ctx, services, now, firstId, commitFails);
  }

  /**
   * `translate()`. `calls` lists the provider requests made; `commitFails`
   * says whether the database refuses the final commit, which the handler
   * logs and rolls back without changing its answer.
   */
  method Translate(db: Database, form: TranslateForm, ctx: RequestContext, services: Services,
                   now: Time, commitFails: bool) returns (outcome: TranslateOutcome, calls: seq<ProviderCall>)
    requires db.Valid() && db.pending == NoChanges
    modifies db
    ensures db.Valid() && db.pending == NoChanges
    ensures TranslateRun(outcome, calls, db.tables)
         == TranslateSpec(old(db.tables), old(db.nextId), form, ctx, services, now, commitFails)
  {
    var f := Stripped(form);
    if f.source == f.target {
      return Translated(None, None, None, f.text), [];
    }
    if f.source !in services.languages {
      return Refused("Invalid source language\n", 400), [];
    }
    if f.target !in services.languages {
      return Refused("Invalid target language\n", 400), [];
    }
    outcome, calls := TranslateAdmitted(db, f, services.fingerprint(f.text), ctx, services, now, commitFails);
  }

  // ------------------------------------------------------------- properties

  /** No translation is looked up, asked for or recorded when the stripped languages are equal: the text comes back. */
  lemma SameLanguageEchoes(t: Tables, firstId: Id, form: TranslateForm, ctx: RequestContext, services: Services,
                           now: Time, commitFails: bool)
    requires Stripped(form).source == Stripped(form).target
    ensures TranslateSpec(t, firstId, form, ctx, services, now, commitFails)
         == TranslateRun(Translated(None, None, None, Stripped(form).text), [], t)
  {
  }

  /** An unsupported language is refused with status 400 before anything is logged or asked. */
  lemma UnsupportedLanguageRefused(t: Tables, firstId: Id, form: TranslateForm, ctx: RequestContext,
                                   services: Services, now: Time, commitFails: bool)
    requires Stripped(form).source != Stripped(form).target
    requires !Admitted(Stripped(form), services.languages)
    ensures var run := TranslateSpec(t, firstId, form, ctx, services, now, commitFails);
            run.outcome.Refused? && run.outcome.status == 400 && run.calls == [] && run.tables == t
  {
  }

  /** Past the language checks, `translate()` is `AdmittedSpec` on the stripped form. */
  lemma AdmittedUnfolds(t: Tables, firstId: Id, form: TranslateForm, ctx: RequestContext,
                        services: Services, now: Time, commitFails: bool)
    requires Admitted(Stripped(form), services.languages)
    ensures TranslateSpec(t, firstId, form, ctx, services, now, commitFails)
         == AdmittedSpec(t, firstId, Stripped(form), services.fingerprint(Stripped(form).text), ctx, services, now, commitFails)
  {
  }

  /** A stored response with the key is answered as it is, without the provider, and no response is added. */
  lemma CacheHit(t: Tables, firstId: Id, f: TranslateForm, hash: string, ctx: RequestContext,
                 services: Services, now: Time, commitFails: bool, mode: int, r: TranslationResponse)
    requires f.source != f.target
    requires ModeColumn(f.mode) == Some(mode)
    requires FetchResponse(t.responses, hash, f.source, f.target, mode) == Some(r)
    ensures var run := AdmittedSpec(t, firstId, f, hash, ctx, services, now, commitFails);
            && run.calls == []
            && run.outcome == Translated(Some(r.id), Some(services.encodeId(r.id)), r.intermediateText, r.translatedText)
            && run.tables.responses == t.responses
            && (!commitFails ==> run.tables.logs == t.logs + [LogRow(firstId, ctx, now, r.id, false)])
  {
  }

  /** The same for a whole call: a cache hit never asks the provider. */
  lemma CacheHitSkipsProvider(t: Tables, firstId: Id, form: TranslateForm, ctx: RequestContext,
                              services: Services, now: Time, commitFails: bool, mode: int, r: TranslationResponse)
    requires Admitted(Stripped(form), services.languages)
    requires ModeColumn(Stripped(form).mode) == Some(mode)
    requires FetchResponse(t.responses, services.fingerprint(Stripped(form).text),
                           Stripped(form).source, Stripped(form).target, mode) == Some(r)
    ensures var run := TranslateSpec(t, firstId, form, ctx, services, now, commitFails);
            && run.calls == []
            && run.outcome == Translated(Some(r.id), Some(services.encodeId(r.id)), r.intermediateText, r.translatedText)
            && run.tables.responses == t.responses
            && (!commitFails ==> run.tables.logs == t.logs + [LogRow(firstId, ctx, now, r.id, false)])
  {
    AdmittedUnfolds(t, firstId, form, ctx, services, now, commitFails);
    CacheHit(t, firstId, Stripped(form), services.fingerprint(Stripped(form).text), ctx, services, now, commitFails, mode, r);
  }

  /** No two stored requests share a key: `translate` only inserts a request it did not find. */
  ghost predicate UniqueRequestKeys(rs: seq<TranslationRequest>) {
    forall i, j :: 0 <= i < j < |rs| ==> !RequestKeyIs(rs[j], rs[i].originalTextHash, rs[i].source, rs[i].target)
  }

  /**
   * What an admitted call leaves behind: nothing unless it answers and the
   * commit succeeds; otherwise its log row, the request row exactly when no
   * request had the key, and a new response row exactly when no response had
   * the key, which is then the one answered, owned by nobody, with a fresh id.
   */
  lemma AdmittedRecords(t: Tables, firstId: Id, f: TranslateForm, hash: string, ctx: RequestContext,
                        services: Services, now: Time, commitFails: bool)
    requires f.source != f.target
    ensures var run := AdmittedSpec(t, firstId, f, hash, ctx, services, now, commitFails);
            var ok := AdmittedSpec(t, firstId, f, hash, ctx, services, now, false);
            && run.outcome == ok.outcome && run.calls == ok.calls
            && (!run.outcome.Translated? || commitFails ==> run.tables == t)
            && (run.outcome.Translated? ==> run.outcome.id.Some?)
    ensures var run := AdmittedSpec(t, firstId, f, hash, ctx, services, now, false);
            run.outcome.Translated? ==>
              && ModeColumn(f.mode).Some?
              && var mode := ModeColumn(f.mode).value;
                 var created := FetchResponse(t.responses, hash, f.source, f.target, mode).None?;
                 var requestMiss := FetchRequest(t.requests, hash, f.source, f.target).None?;
                 && run.tables.requests == t.requests + (if requestMiss then [RequestRow(firstId + 1, f, hash, now)] else [])
                 && run.tables.logs == t.logs + [LogRow(firstId, ctx, now, run.outcome.id.value, created)]
                 && run.tables.ratings == t.ratings && run.tables.users == t.users
                 && (!created ==> run.tables.responses == t.responses)
                 && (created ==>
                       var r := ResponseRow(t, f, hash, firstId, now, mode,
                                            run.outcome.intermediateText, run.outcome.translatedText);
                       && run.tables.responses == t.responses + [r]
                       && run.outcome == Answer(r, services)
                       && r.id >= firstId && r.userId == None
                       && (mode == 1 || mode == 2) && (r.intermediateText == None <==> mode == 1))
  {
    ModeColumnOfModes();
    assert t.responses + [] == t.responses;
  }

  /** Committing a translate call keeps the table constraints, the request-key uniqueness and the id bound. */
  lemma RecordedKeepsInvariants(t: Tables, f: TranslateForm, hash: string, ctx: RequestContext, now: Time,
                                firstId: Id, response: TranslationResponse, created: bool)
    requires Constraints(t) && UniqueRequestKeys(t.requests) && TablesBelow(t, firstId)
    requires created ==> response.userId == None && response.id < firstId + 3
    ensures var t' := Recorded(t, f, hash, ctx, now, firstId, response, created);
            Constraints(t') && UniqueRequestKeys(t'.requests) && TablesBelow(t', firstId + 3)
  {
    var requestMiss := FetchRequest(t.requests, hash, f.source, f.target).None?;
    var cs := NoChanges.(
      requests := if requestMiss then [RequestRow(firstId + 1, f, hash, now)] else [],
      responses := if created then [response] else [],
      logs := [LogRow(firstId, ctx, now, response.id, created)]);
    assert FlushedLogs(cs.logs) == cs.logs;
    TranslateChangesAccepted(t, cs);
    var t' := Recorded(t, f, hash, ctx, now, firstId, response, created);
    assert t' == Apply(t, cs);
    assert TablesBelow(t, firstId + 3);
    assert ChangesBelow(cs, firstId + 3);
    ApplyBelow(t, cs, firstId + 3);
    RequestKeysStayUnique(t.requests, f, hash, now, firstId + 1);
  }

  /** A request row is added only when its key is not yet stored, so request keys stay unique. */
  lemma RequestKeysStayUnique(rs: seq<TranslationRequest>, f: TranslateForm, hash: string, now: Time, id: Id)
    requires UniqueRequestKeys(rs)
    ensures var requestMiss := FetchRequest(rs, hash, f.source, f.target).None?;
            UniqueRequestKeys(rs + (if requestMiss then [RequestRow(id, f, hash, now)] else []))
  {
    if FetchRequest(rs, hash, f.source, f.target).None? {
      var rs' := rs + [RequestRow(id, f, hash, now)];
      forall i, j | 0 <= i < j < |rs'|
        ensures !RequestKeyIs(rs'[j], rs'[i].originalTextHash, rs'[i].source, rs'[i].target)
      {
        assert rs'[i] == rs[i];
        if j < |rs| {
          assert rs'[j] == rs[j];
        }
      }
    } else {
      assert rs + [] == rs;
    }
  }

  /** A call leaves the table constraints, the request-key uniqueness and the id bound as it found them. */
  lemma AdmittedKeepsInvariants(t: Tables, firstId: Id, f: TranslateForm, hash: string, ctx: RequestContext,
                                services: Services, now: Time, commitFails: bool)
    requires f.source != f.target
    requires Constraints(t) && UniqueRequestKeys(t.requests) && TablesBelow(t, firstId)
    ensures var run := AdmittedSpec(t, firstId, f, hash, ctx, services, now, commitFails);
            Constraints(run.tables) && UniqueRequestKeys(run.tables.requests) && TablesBelow(run.tables, firstId + 3)
  {
    assert TablesBelow(t, firstId + 3);
    if !commitFails && ModeColumn(f.mode).Some? {
      var mode := ModeColumn(f.mode).value;
      match FetchResponse(t.responses, hash, f.source, f.target, mode)
      case Some(r) =>
        RecordedKeepsInvariants(t, f, hash, ctx, now, firstId, r, false);
      case None =>
        var (work, calls) := MissTranslation(services.provider, f.text, f.mode, f.source, f.target, ctx.userAgent);
        if work.Produced? {
          var row := ResponseRow(t, f, hash, firstId, now, mode, work.intermediate, work.translated);
          RecordedKeepsInvariants(t, f, hash, ctx, now, firstId, row, true);
        }
    }
  }

  /**
   * Asking again for an answered translation is a cache hit: the same answer
   * comes back, whoever asks and whether or not that commit succeeds, and the
   * provider is not asked.
   */
  lemma AdmittedRepeatHits(t: Tables, firstId: Id, f: TranslateForm, hash: string, ctx: RequestContext,
                           services: Services, now: Time,
                           nextFirstId: Id, nextCtx: RequestContext, nextNow: Time, nextCommitFails: bool)
    requires f.source != f.target
    requires AdmittedSpec(t, firstId, f, hash, ctx, services, now, false).outcome.Translated?
    ensures var run := AdmittedSpec(t, firstId, f, hash, ctx, services, now, false);
            var again := AdmittedSpec(run.tables, nextFirstId, f, hash, nextCtx, services, nextNow, nextCommitFails);
            again.outcome == run.outcome && again.calls == []
  {
    var run := AdmittedSpec(t, firstId, f, hash, ctx, services, now, false);
    AdmittedRecords(t, firstId, f, hash, ctx, services, now, false);
    var mode := ModeColumn(f.mode).value;
    var found := FetchResponse(t.responses, hash, f.source, f.target, mode);
    var added := run.tables.responses[|t.responses|..];
    assert run.tables.responses == t.responses + added;
    FetchResponseAppend(t.responses, added, hash, f.source, f.target, mode);
    if found.None? {
      assert added == [run.tables.responses[|t.responses|]];
    }
  }

  /**
   * On a cache miss with a User-Agent, mode '1' asks the provider once for
   * the pair itself, mode '2' asks first for the source into Japanese, and
   * any other mode is refused with 400 without asking.
   */
  lemma MissAsksByMode(t: Tables, firstId: Id, f: TranslateForm, hash: string, ctx: RequestContext,
                       services: Services, now: Time, commitFails: bool, mode: int)
    requires f.source != f.target
    requires ModeColumn(f.mode) == Some(mode)
    requires FetchResponse(t.responses, hash, f.source, f.target, mode) == None
    requires ctx.userAgent.Some?
    ensures var run := AdmittedSpec(t, firstId, f, hash, ctx, services, now, commitFails);
            && (f.mode == "1" ==> run.calls == [ProviderCall(f.text, f.source, f.target, NormalizeUserAgent(ctx.userAgent.value))])
            && (f.mode == "2" && f.source != Intermediate ==>
                  run.calls[0] == ProviderCall(f.text, f.source, Intermediate, NormalizeUserAgent(ctx.userAgent.value)))
            && (f.mode != "1" && f.mode != "2" ==>
                  run == TranslateRun(Refused("Invalid mode\n", 400), [], t))
  {
    var (work, calls) := MissTranslation(services.provider, f.text, f.mode, f.source, f.target, ctx.userAgent);
    if f.mode == "1" || (f.mode == "2" && f.source != Intermediate) {
      assert calls[0] in calls;
    }
  }

  /**
   * On a miss, the texts answered (and stored) are the shaped provider
   * replies: in mode '1' the reply to the one request; in mode '2' the reply
   * to the request for Japanese and the reply to the request that translates
   * it. A reply other than 200 is raised with its status.
   */
  lemma MissStoresReplies(t: Tables, firstId: Id, f: TranslateForm, hash: string, ctx: RequestContext,
                          services: Services, now: Time, commitFails: bool, mode: int)
    requires f.source != f.target
    requires ModeColumn(f.mode) == Some(mode)
    requires FetchResponse(t.responses, hash, f.source, f.target, mode) == None
    requires ctx.userAgent.Some?
    ensures var run := AdmittedSpec(t, firstId, f, hash, ctx, services, now, commitFails);
            var p := services.provider;
            var c := ProviderCall(f.text, f.source, f.target, NormalizeUserAgent(ctx.userAgent.value));
            f.mode == "1" ==>
              && (run.outcome.Translated? <==> p(c).status == 200)
              && (run.outcome.Translated? ==>
                    run.outcome.intermediateText == None && run.outcome.translatedText == ShapeOutput(p(c).sentences))
              && (!run.outcome.Translated? ==>
                    run.outcome.Raised? && run.outcome.failure.HttpError?
                    && run.outcome.failure.exception.statusCode == p(c).status)
    ensures var run := AdmittedSpec(t, firstId, f, hash, ctx, services, now, commitFails);
            var p := services.provider;
            var ua := NormalizeUserAgent(ctx.userAgent.value);
            var c1 := ProviderCall(f.text, f.source, Intermediate, ua);
            var mid := ShapeOutput(p(c1).sentences);
            var c2 := ProviderCall(mid, Intermediate, f.target, ua);
            f.mode == "2" && f.source != Intermediate && f.target != Intermediate ==>
              && run.calls == (if p(c1).status == 200 then [c1, c2] else [c1])
              && (run.outcome.Translated? <==> p(c1).status == 200 && p(c2).status == 200)
              && (run.outcome.Translated? ==>
                    run.outcome.intermediateText == Some(mid)
                    && run.outcome.translatedText == ShapeOutput(p(c2).sentences))
    ensures var run := AdmittedSpec(t, firstId, f, hash, ctx, services, now, commitFails);
            var p := services.provider;
            var c := ProviderCall(f.text, f.source, f.target, NormalizeUserAgent(ctx.userAgent.value));
            var out := ShapeOutput(p(c).sentences);
            f.mode == "2" && (f.source == Intermediate || f.target == Intermediate) ==>
              && run.calls == [c]
              && (run.outcome.Translated? <==> p(c).status == 200)
              && (run.outcome.Translated? ==>
                    run.outcome.intermediateText == Some(if f.source == Intermediate then f.text else out)
                    && run.outcome.translatedText == out)
              && (!run.outcome.Translated? ==>
                    run.outcome.Raised? && run.outcome.failure.HttpError?
                    && run.outcome.failure.exception.statusCode == p(c).status)
  {
    if f.mode == "1" {
      var (work, calls) := MissTranslation(services.provider, f.text, f.mode, f.source, f.target, ctx.userAgent);
      assert calls[0] in calls;
    } else if f.mode == "2" && f.source != Intermediate && f.target != Intermediate {
      ThroughIntermediateReplies(services.provider, f.text, f.source, f.target, ctx.userAgent.value);
    } else if f.mode == "2" {
      ThroughJapaneseOneRequest(services.provider, f.text, f.source, f.target, ctx.userAgent.value);
    }
  }

  /** A committed answer names a response that is stored, by its id and by the encoding of that id. */
  lemma AdmittedAnswerIsStored(t: Tables, firstId: Id, f: TranslateForm, hash: string, ctx: RequestContext,
                               services: Services, now: Time)
    requires f.source != f.target
    requires AdmittedSpec(t, firstId, f, hash, ctx, services, now, false).outcome.Translated?
    ensures var run := AdmittedSpec(t, firstId, f, hash, ctx, services, now, false);
            && run.outcome.id.Some? && run.outcome.idB62 == Some(services.encodeId(run.outcome.id.value))
            && FetchResponseById(run.tables.responses, run.outcome.id.value).Some?
  {
    var run := AdmittedSpec(t, firstId, f, hash, ctx, services, now, false);
    AdmittedRecords(t, firstId, f, hash, ctx, services, now, false);
    var mode := ModeColumn(f.mode).value;
    var cached := FetchResponse(t.responses, hash, f.source, f.target, mode);
    var rs := run.tables.responses;
    if cached.Some? {
      assert run.outcome == Answer(cached.value, services);
      var k :| 0 <= k < |t.responses| && t.responses[k] == cached.value;
      assert rs[k].id == run.outcome.id.value;
    } else {
      var r := ResponseRow(t, f, hash, firstId, now, mode, run.outcome.intermediateText, run.outcome.translatedText);
      assert rs[|t.responses|] == r;
    }
  }

  // ------------------------------------------------ the same, for whole calls

  /**
   * Only an answered request leaves a trace: a refusal, an exception or an
   * echo leaves the tables as they were, and so does a failed commit, which
   * changes neither the answer nor the provider requests.
   */
  lemma OnlyAnswersAreRecorded(t: Tables, firstId: Id, form: TranslateForm, ctx: RequestContext,
                               services: Services, now: Time, commitFails: bool)
    ensures var run := TranslateSpec(t, firstId, form, ctx, services, now, commitFails);
            !run.outcome.Translated? || run.outcome.id.None? || commitFails ==> run.tables == t
    ensures var run := TranslateSpec(t, firstId, form, ctx, services, now, commitFails);
            var ok := TranslateSpec(t, firstId, form, ctx, services, now, false);
            run.outcome == ok.outcome && run.calls == ok.calls
  {
    if Admitted(Stripped(form), services.languages) {
      AdmittedUnfolds(t, firstId, form, ctx, services, now, commitFails);
      AdmittedUnfolds(t, firstId, form, ctx, services, now, false);
      AdmittedRecords(t, firstId, Stripped(form), services.fingerprint(Stripped(form).text), ctx, services, now, commitFails);
    }
  }

  /** `translate` keeps the unique constraints, the request-key uniqueness and the id bound. */
  lemma TranslateKeepsInvariants(t: Tables, firstId: Id, form: TranslateForm, ctx: RequestContext,
                                 services: Services, now: Time, commitFails: bool)
    requires Constraints(t) && UniqueRequestKeys(t.requests) && TablesBelow(t, firstId)
    ensures var run := TranslateSpec(t, firstId, form, ctx, services, now, commitFails);
            Constraints(run.tables) && UniqueRequestKeys(run.tables.requests) && TablesBelow(run.tables, firstId + 3)
  {
    if Admitted(Stripped(form), services.languages) {
      AdmittedUnfolds(t, firstId, form, ctx, services, now, commitFails);
      AdmittedKeepsInvariants(t, firstId, Stripped(form), services.fingerprint(Stripped(form).text), ctx, services, now, commitFails);
    } else {
      assert TablesBelow(t, firstId + 3);
    }
  }

  /** The id a committed `translate` call returns names a stored response. */
  lemma AnswerIsStored(t: Tables, firstId: Id, form: TranslateForm, ctx: RequestContext, services: Services,
                       now: Time)
    requires TranslateSpec(t, firstId, form, ctx, services, now, false).outcome.Translated?
    requires TranslateSpec(t, firstId, form, ctx, services, now, false).outcome.id.Some?
    ensures var run := TranslateSpec(t, firstId, form, ctx, services, now, false);
            && run.outcome.idB62 == Some(services.encodeId(run.outcome.id.value))
            && FetchResponseById(run.tables.responses, run.outcome.id.value).Some?
  {
    var f := Stripped(form);
    if Admitted(f, services.languages) {
      AdmittedUnfolds(t, firstId, form, ctx, services, now, false);
      AdmittedAnswerIsStored(t, firstId, f, services.fingerprint(f.text), ctx, services, now);
    }
  }

  /** Once a translation is answered and committed, the same request is answered the same way from the cache. */
  lemma RepeatIsCacheHit(t: Tables, firstId: Id, form: TranslateForm, ctx: RequestContext, services: Services,
                         now: Time, nextFirstId: Id, nextCtx: RequestContext, nextNow: Time, nextCommitFails: bool)
    requires TranslateSpec(t, firstId, form, ctx, services, now, false).outcome.Translated?
    ensures var run := TranslateSpec(t, firstId, form, ctx, services, now, false);
            var again := TranslateSpec(run.tables, nextFirstId, form, nextCtx, services, nextNow, nextCommitFails);
            again.outcome == run.outcome && again.calls == []
  {
    var f := Stripped(form);
    if Admitted(f, services.languages) {
      var run := TranslateSpec(t, firstId, form, ctx, services, now, false);
      AdmittedUnfolds(t, firstId, form, ctx, services, now, false);
      AdmittedUnfolds(run.tables, nextFirstId, form, nextCtx, services, nextNow, nextCommitFails);
      AdmittedRepeatHits(t, firstId, f, services.fingerprint(f.text), ctx, services, now,
                         nextFirstId, nextCtx, nextNow, nextCommitFails);
    }
  }
}
