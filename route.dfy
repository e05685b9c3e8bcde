/**
 * The `/v1.0/translate` route of app/core.py (`translate_1_0`): it passes what
 * `translate()` returns to `jsonify` and turns exceptions into replies, an
 * `HTTPException` into its message and status, any other into a 500.
 *
 * `jsonify` (Flask 0.x) builds `dict(*args)` from its argument. A result
 * dictionary goes through; a `(message, status)` pair does not: `dict` reads
 * the pair as a sequence of key/value pairs, finds the message in its first
 * place, and raises `ValueError`, so every refusal of `translate()` reaches
 * the client as a 500. `Route` models the route as written; `IntendedRoute`
 * returns a refusal as the pair it is.
 */
module TranslateRoute {
  import opened Wrappers
  import opened Utils
  import opened Shaping
  import opened Models
  import opened TranslateHandler

  /** What the route sends back: the JSON of the result dictionary, a text body with a status, or a 500. */
  datatype RouteReply =
    | Json(id: Option<Id>, idB62: Option<string>, intermediateText: Option<string>, translatedText: string)
    | Text(message: string, status: int)
    | ServerError

  function Status(r: RouteReply): int {
    match r
    case Json(_, _, _, _) => 200
    case Text(_, status) => status
    case ServerError => 500
  }

  /** The reply to an exception raised inside `translate()` (lines 354-358). */
  function ExceptionReply(failure: Failure): (r: RouteReply)
    ensures failure.HttpError? ==> r == Text(failure.exception.message, failure.exception.statusCode)
    ensures failure.InternalError? ==> Status(r) == 500
  {
    match failure
    case HttpError(e) => Text(e.message, e.statusCode)
    case InternalError => ServerError
  }

  /**
   * `str(e)` of the `ValueError` that `dict(pair)` raises when the pair's
   * first element, a string of `n` characters, is not itself a pair.
   */
  function DictUpdateError(n: nat): string {
    "dictionary update sequence element #0 has length " + DecimalString(n) + "; 2 is required"
  }

  /**
   * Lines 351-358 as written: a refusal is passed to `jsonify`, which raises,
   * and the exception handler answers 500. (A two-character message would make
   * `dict` fail one step later, on the status; that too is a 500.)
   */
  function Route(outcome: TranslateOutcome): (r: RouteReply)
    ensures outcome.Translated? <==> r.Json?
    ensures outcome.Refused? ==> Status(r) == 500
    ensures outcome.Raised? ==> r == ExceptionReply(outcome.failure)
  {
    match outcome
    case Translated(id, idB62, intermediate, translated) => Json(id, idB62, intermediate, translated)
    case Refused(message, _) =>
      if |message| == 2 then ServerError else Text(DictUpdateError(|message|), 500)
    case Raised(failure) => ExceptionReply(failure)
  }

  /** The route as evidently intended: a refusal is answered with its own message and status. */
  function IntendedRoute(outcome: TranslateOutcome): (r: RouteReply)
    ensures outcome.Translated? <==> r.Json?
    ensures outcome.Refused? ==> r == Text(outcome.message, outcome.status)
    ensures outcome.Raised? ==> r == ExceptionReply(outcome.failure)
  {
    match outcome
    case Translated(id, idB62, intermediate, translated) => Json(id, idB62, intermediate, translated)
    case Refused(message, status) => Text(message, status)
    case Raised(failure) => ExceptionReply(failure)
  }

  /** The two agree on everything but refusals, and differ on every refusal whose status is not 500. */
  lemma RoutesDifferOnlyOnRefusals(outcome: TranslateOutcome)
    ensures !outcome.Refused? ==> Route(outcome) == IntendedRoute(outcome)
    ensures outcome.Refused? && outcome.status != 500 ==> Route(outcome) != IntendedRoute(outcome)
  {
    if outcome.Refused? {
      assert Status(Route(outcome)) == 500;
      assert Status(IntendedRoute(outcome)) == outcome.status;
    }
  }

  /**
   * An unsupported source language, as written, reaches the client as a 500
   * carrying the `ValueError` text, although `translate()` refused it with 400.
   */
  lemma UnsupportedSourceAnswered500(t: Tables, firstId: Id, form: TranslateForm, ctx: RequestContext,
                                     services: Services, now: Time, commitFails: bool)
    requires Stripped(form).source != Stripped(form).target
    requires Stripped(form).source !in services.languages
    ensures var outcome := TranslateSpec(t, firstId, form, ctx, services, now, commitFails).outcome;
            && outcome == Refused("Invalid source language\n", 400)
            && Route(outcome) == Text("dictionary update sequence element #0 has length 24; 2 is required", 500)
  {
    SourceRefusalText();
  }

  /** The `ValueError` text for the 24-character refusal of an unsupported source language. */
  lemma SourceRefusalText()
    ensures Route(Refused("Invalid source language\n", 400))
         == Text("dictionary update sequence element #0 has length 24; 2 is required", 500)
  {
    assert |"Invalid source language\n"| == 24;
    assert DecimalString(24) == DecimalString(2) + DecimalString(4) == "24";
  }

  /**
   * With the intended route, every refusal of a request (an unsupported
   * language, an unknown mode on a cache miss) is answered with status 400
   * and its message, and a translation with status 200.
   */
  lemma IntendedRouteAnswers(t: Tables, firstId: Id, form: TranslateForm, ctx: RequestContext,
                             services: Services, now: Time, commitFails: bool)
    ensures var outcome := TranslateSpec(t, firstId, form, ctx, services, now, commitFails).outcome;
            var r := IntendedRoute(outcome);
            && (outcome.Refused? ==> Status(r) == 400 && r.message == outcome.message)
            && (outcome.Translated? ==> Status(r) == 200)
  {
    var f := Stripped(form);
    if Admitted(f, services.languages) {
      AdmittedUnfolds(t, firstId, form, ctx, services, now, commitFails);
      RefusalsAre400(t, firstId, f, services.fingerprint(f.text), ctx, services, now, commitFails);
    }
  }

  /** Past the language checks, the only refusal `translate()` makes is the 400 of an unknown mode. */
  lemma RefusalsAre400(t: Tables, firstId: Id, f: TranslateForm, hash: string, ctx: RequestContext,
                       services: Services, now: Time, commitFails: bool)
    requires f.source != f.target
    ensures var outcome := AdmittedSpec(t, firstId, f, hash, ctx, services, now, commitFails).outcome;
            outcome.Refused? ==> outcome == Refused("Invalid mode\n", 400)
  {
  }
}
