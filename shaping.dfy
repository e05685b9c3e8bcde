/**
 * The pure parts of app/core.py: the user-agent rewrite and the shaping of the
 * provider's output inside `__translate__`, `__translate__` itself as a function
 * of an abstract provider, and the status guard of the `test` endpoint.
 */
module Shaping {
  import opened Wrappers
  import opened Text
  import opened Utils

  predicate IsDigit(c: char) {
    '0' <= c <= '9'
  }

  /** The length of the run of ASCII digits `s` starts with (Python 2's `\d` on a plain pattern). */
  function LeadingDigits(s: string): (n: nat)
    ensures n <= |s|
    ensures forall k :: 0 <= k < n ==> IsDigit(s[k])
    ensures n < |s| ==> !IsDigit(s[n])
  {
    if s == [] || !IsDigit(s[0]) then 0 else 1 + LeadingDigits(s[1..])
  }

  /** `re.match(r'Mozilla/\d+\.\d+ \(.*', ua)` succeeds: the `.*` tail matches anything. */
  predicate IsMozillaAgent(ua: string) {
    |ua| >= 8 && ua[..8] == "Mozilla/" &&
    var a := ua[8..];
    var n := LeadingDigits(a);
    0 < n < |a| && a[n] == '.' &&
    var b := a[n + 1..];
    var m := LeadingDigits(b);
    0 < m && m + 2 <= |b| && b[m] == ' ' && b[m + 1] == '('
  }

  const MozillaWrapper: string := "Mozilla/5.0 ("

  lemma WrappedAgentMatches(ua: string)
    ensures IsMozillaAgent(MozillaWrapper + ua + ")")
  {
    var s := MozillaWrapper + ua + ")";
    assert s[..8] == "Mozilla/";
    var a := s[8..];
    assert a[0] == '5' && a[1] == '.';
    assert LeadingDigits(a[1..]) == 0;
    assert LeadingDigits(a) == 1;
    var b := a[2..];
    assert b[0] == '0' && b[1] == ' ' && b[2] == '(';
    assert LeadingDigits(b[1..]) == 0;
    assert LeadingDigits(b) == 1;
  }

  /** Lines 77-78: an agent that does not look like a browser's is wrapped as `Mozilla/5.0 (<agent>)`. */
  function NormalizeUserAgent(ua: string): (r: string)
    ensures IsMozillaAgent(r)
    ensures IsMozillaAgent(ua) ==> r == ua
  {
    if IsMozillaAgent(ua) then ua
    else
      WrappedAgentMatches(ua);
      MozillaWrapper + ua + ")"
  }

  /** Normalising an agent a second time changes nothing. */
  lemma NormalizeIdempotent(ua: string)
    ensures NormalizeUserAgent(NormalizeUserAgent(ua)) == NormalizeUserAgent(ua)
  {
  }

  /** Every line stripped, as `map(lambda x: x.strip(), lines)` does. */
  function StripEach(lines: seq<string>): (r: seq<string>)
    ensures |r| == |lines|
    ensures forall k :: 0 <= k < |r| ==> r[k] == Strip(lines[k], UnicodeStr)
  {
    seq(|lines|, k requires 0 <= k < |lines| => Strip(lines[k], UnicodeStr))
  }

  /** Lines 116-119: the `trans` fields joined by single spaces, then every line stripped. */
  function ShapeOutput(sentences: seq<string>): string
  {
    Join(StripEach(Split(Join(sentences, " "), '\n')), "\n")
  }

  /**
   * The shaped output has exactly the lines of the space-joined sentences,
   * each one stripped, so no line of it begins or ends with whitespace.
   */
  lemma ShapedLines(sentences: seq<string>)
    ensures var raw := Split(Join(sentences, " "), '\n');
            var lines := Split(ShapeOutput(sentences), '\n');
            && |lines| == |raw|
            && (forall k :: 0 <= k < |lines| ==> lines[k] == Strip(raw[k], UnicodeStr))
            && (forall k :: 0 <= k < |lines| ==>
                  lines[k] == [] || (!IsSpace(lines[k][0], UnicodeStr) && !IsSpace(lines[k][|lines[k]| - 1], UnicodeStr)))
  {
    var raw := Split(Join(sentences, " "), '\n');
    ShapedLinesAreStripped(raw);
    assert ShapeOutput(sentences) == Join(StripEach(raw), "\n");
  }

  /** Splitting the joined stripped lines gives back the stripped lines. */
  lemma ShapedLinesAreStripped(raw: seq<string>)
    requires |raw| >= 1 && forall k :: 0 <= k < |raw| ==> '\n' !in raw[k]
    ensures Split(Join(StripEach(raw), "\n"), '\n') == StripEach(raw)
  {
    var stripped := StripEach(raw);
    forall k | 0 <= k < |stripped|
      ensures '\n' !in stripped[k]
    {
      StripKeepsAbsent(raw[k], UnicodeStr, '\n');
    }
    SplitJoin(stripped, '\n');
  }

  /** Joining newline-free pieces with spaces gives a newline-free string. */
  lemma {:induction false} JoinSpacesKeepsLine(sentences: seq<string>)
    requires forall k :: 0 <= k < |sentences| ==> '\n' !in sentences[k]
    ensures '\n' !in Join(sentences, " ")
  {
    if |sentences| > 1 {
      JoinSpacesKeepsLine(sentences[1..]);
    }
  }

  /** When no sentence holds a newline, the output is simply the stripped space-joined sentences. */
  lemma SingleLineOutput(sentences: seq<string>)
    requires forall k :: 0 <= k < |sentences| ==> '\n' !in sentences[k]
    ensures ShapeOutput(sentences) == Strip(Join(sentences, " "), UnicodeStr)
  {
    JoinSpacesKeepsLine(sentences);
    SplitWithoutSeparator(Join(sentences, " "), '\n');
  }

  /** `'%d' % n` */
  function DecimalString(n: int): string
    decreases if n < 0 then 1 - n else n
  {
    if n < 0 then "-" + DecimalString(-n)
    else if n < 10 then [('0' as int + n) as char]
    else DecimalString(n / 10) + DecimalString(n % 10)
  }

  /** What the provider answers to one request: the HTTP status and the `trans` fields of its sentences. */
  datatype ProviderReply = ProviderReply(status: int, sentences: seq<string>)

  /** One request to the provider: the text, the language pair and the User-Agent header sent. */
  datatype ProviderCall = ProviderCall(text: string, source: string, target: string, userAgent: string)

  /** The translation provider behind its HTTP interface. */
  type Provider = ProviderCall -> ProviderReply

  /**
   * How a handler fails: an `HTTPException`, or any other exception, which the
   * route turns into a 500 answer.
   */
  datatype Failure = HttpError(exception: HttpException) | InternalError

  /**
   * `__translate__(text, source, target, user_agent)`: the translated text and
   * the provider requests made (none or one).
   */
  function ProviderTranslate(provider: Provider, text: string, source: string, target: string,
                             userAgent: Option<string>): (r: (Result<string, Failure>, seq<ProviderCall>))
    ensures |r.1| <= 1
    ensures r.1 == [] <==> source == target || userAgent == None
    ensures source == target ==> r.0 == Ok(text)
    ensures source != target && userAgent == None ==> r.0 == Err(InternalError)
    ensures forall c :: c in r.1 ==>
              c.text == text && c.source == source && c.target == target && IsMozillaAgent(c.userAgent)
    ensures forall c :: c in r.1 ==> userAgent.Some? && c.userAgent == NormalizeUserAgent(userAgent.value)
    ensures r.1 != [] ==> (r.0.Ok? <==> provider(r.1[0]).status == 200)
    ensures r.1 != [] && r.0.Ok? ==> r.0.value == ShapeOutput(provider(r.1[0]).sentences)
    ensures r.1 != [] && r.0.Err? ==>
              r.0.error.HttpError? && r.0.error.exception.statusCode == provider(r.1[0]).status
  {
    if source == target then (Ok(text), [])
    else if userAgent == None then (Err(InternalError), [])
    else
      var call := ProviderCall(text, source, target, NormalizeUserAgent(userAgent.value));
      (Ask(provider, call), [call])
  }

  /** One request to the provider: a reply other than 200 raises an `HTTPException` with its status. */
  function Ask(provider: Provider, call: ProviderCall): (r: Result<string, Failure>)
    ensures r.Ok? <==> provider(call).status == 200
    ensures r.Ok? ==> r.value == ShapeOutput(provider(call).sentences)
    ensures r.Err? ==> r.error.HttpError? && r.error.exception.statusCode == provider(call).status
  {
    var reply := provider(call);
    if reply.status != 200 then
      Err(HttpError(NewHttpException("Google Translate returned HTTP " + DecimalString(reply.status), reply.status)))
    else
      Ok(ShapeOutput(reply.sentences))
  }

  /** A stand-in provider that answers every request with `<target>:<text>`. */
  function EchoProvider(): Provider {
    (c: ProviderCall) => ProviderReply(200, [c.target + ":" + c.text])
  }

  /** With the echo provider, a single-line text is answered with that text prefixed by the target language. */
  lemma EchoTranslates(text: string, source: string, target: string, ua: string)
    requires source != target && target != [] && text != [] && '\n' !in target + ":" + text
    requires !IsSpace(target[0], UnicodeStr) && !IsSpace(text[|text| - 1], UnicodeStr)
    ensures ProviderTranslate(EchoProvider(), text, source, target, Some(ua)) ==
            (Ok(target + ":" + text), [ProviderCall(text, source, target, NormalizeUserAgent(ua))])
  {
    var call := ProviderCall(text, source, target, NormalizeUserAgent(ua));
    assert EchoProvider()(call) == ProviderReply(200, [target + ":" + text]);
    EchoShaped(target, text);
  }

  /** The echo provider's answer to a single-line text is that text prefixed with the target language. */
  lemma EchoShaped(target: string, text: string)
    requires target != [] && text != [] && '\n' !in target + ":" + text
    requires !IsSpace(target[0], UnicodeStr) && !IsSpace(text[|text| - 1], UnicodeStr)
    ensures ShapeOutput([target + ":" + text]) == target + ":" + text
  {
    var line := target + ":" + text;
    SingleLineOutput([line]);
    assert line[0] == target[0] && line[|line| - 1] == text[|text| - 1];
    assert StripLeft(line, UnicodeStr) == line;
  }

  /** The `test` endpoint's answer, body and status, for the given status code and message. */
  function TestReply(statusCode: int, message: string): (r: (string, int))
    ensures 200 <= r.1 < 600 && |r.0| <= 8000
    ensures 200 <= statusCode < 600 && |message| <= 8000 ==> r == (message, statusCode)
    ensures !(200 <= statusCode < 600 && |message| <= 8000) ==> r == ("", 400)
  {
    if 200 <= statusCode < 600 && |message| <= 8000 then (message, statusCode) else ("", 400)
  }
}
