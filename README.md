# Translator: the translation cache, votes and human responses, in Dafny

This project models the core of the `translator` web service (a Flask
application over PostgreSQL). The service sits in front of a machine
translation provider:

- **`translate`** answers a request `(text, mode, source, target)`.
  - Mode 1 translates directly.
  - Mode 2 goes through Japanese.
  - A response stored under the same key (the nilsimsa fingerprint of the text, the language pair and the mode) is served from the cache.
  - Every admitted request writes an access-log row.
  - All rows a request stages are committed together or not at all.
- **`tresponse_rate`** lets a logged-in user vote +1 or -1 on a response, once per user. A re-vote overwrites the earlier one.
- **`translation_response`** lets a logged-in user submit a human translation of the same text (mode 3), show it, or delete a response.
- **The `translation` view** reports each response with its request's text and the sum and count of its ratings.
- **`bin/import_gaedb.py`** loads an export of the old App Engine datastore line by line. Each line is committed on its own, and a duplicate is rolled back.

Modules, one per source concern:

| file | module | models |
|---|---|---|
| `wrappers.dfy` | `Wrappers` | `Option`, `Result` |
| `text.dfy` | `Text` | Python 2 `strip`, `split`, `join` (byte and unicode strings strip different whitespace) |
| `utils.dfy` | `Utils` | app/utils.py |
| `shaping.dfy` | `Shaping` | `__translate__`: User-Agent rewrite, status check, output shaping; the `test` endpoint |
| `models.dfy` | `Models` | app/models.py: rows, lookups, unique constraints, the view, and the session as `class Database` |
| `ratings.dfy` | `Ratings` | the vote upsert and the rating aggregates |
| `translate.dfy` | `TranslateHandler` | `translate()` |
| `route.dfy` | `TranslateRoute` | the `/v1.0/translate` route around `translate()` |
| `responses.dfy` | `ResponseHandlers` | `tresponse_rate` and `translation_response` |
| `gae_import.dfy` | `GaeImport` | `import_data`, with the imported table as `class LegacyStore` |

The database is a `class Database`:

- `tables` holds what is committed.
- `pending` is a change set holding what the session has staged.
- `nextId` is a counter that stands in for `uuid4()`.

`Commit(fails)` applies the whole change set exactly when the database accepts it. It is refused when a unique constraint would break, or when `fails` says the database fails for a reason of its own. Either way, `Commit` leaves the session empty.

Each handler is a module-level method that takes the `Database` as a parameter `db` and may change it. Its `ensures` ties its answer and the new tables to a specification function of the old tables:

- `TranslateSpec`
- `RateSpec`
- `PageSpec`
- `ImportSpec`

The properties below are lemmas about those functions. Services the core only calls are parameters of the model:

- the fingerprint, base62 and its decoding;
- the provider, as a function from a request to a status and sentences;
- the date and JSON parsers, SHA-1 and `uuid64.issue`.

Where the code and its documentation disagree, the model follows the code:

- **DELETE ownership.** `DELETE /tr/<id>/response` deletes the response with that id whoever owns it. The code has no ownership check.
- **Unknown id on DELETE.** An unknown id reaches `db.session.delete(None)` inside the `try`, so the answer is a 500.
- **Refusals through the route.** `translate()` refuses an unsupported language or mode with 400, but the route turns these refusals into 500s (see Findings).

## Model

| member | source | states |
|---|---|---|
| Text.Strip | app/core.py:361-362 | `strip()` keeps no leading or trailing whitespace of its string type and never lengthens the string |
| Text.StripBounds | app/core.py:361-362 | the stripped text is the slice between an all-blank prefix and an all-blank suffix |
| Text.StripKeepsAbsent | app/core.py:116-119 | stripping never introduces a character (a line stays free of newlines) |
| Text.StripIdempotent | app/core.py:361-362 | stripping twice is stripping once |
| Text.Split | app/core.py:119 | `split(sep)` gives at least one piece, and no piece contains the separator |
| Text.JoinSplit | app/core.py:119 | joining the pieces of a split with the separator gives back the string |
| Text.SplitJoin | app/core.py:119 | splitting a join of separator-free pieces gives back the pieces |
| Text.SplitWithoutSeparator | app/core.py:119 | a string without the separator splits into itself alone |
| Utils.NewHttpException | app/utils.py:5-10 | the exception carries the message and status code it was built with |
| Utils.GetRemoteAddress | app/utils.py:13-17 | the first `X-Forwarded-For` value when there is one, else the peer address |
| Utils.ForwardedAddressWins | app/utils.py:13-17 | later forwarded values and the peer address never matter once a forwarded value exists |
| Shaping.WrappedAgentMatches | app/core.py:77-78 | `Mozilla/5.0 (<agent>)` matches `Mozilla/\d+\.\d+ \(.*` for every agent |
| Shaping.NormalizeUserAgent | app/core.py:77-78 | the agent sent always matches the browser pattern, and a matching agent is sent unchanged |
| Shaping.NormalizeIdempotent | app/core.py:77-78 | rewriting an already rewritten agent changes nothing |
| Shaping.StripEach | app/core.py:119 | every line stripped, in order, and no line more or fewer |
| Shaping.ShapedLinesAreStripped | app/core.py:119 | splitting the joined stripped lines at newlines gives those lines back |
| Shaping.ShapedLines | app/core.py:116-119 | the output has exactly the lines of the space-joined sentences, each stripped, none beginning or ending in whitespace |
| Shaping.SingleLineOutput | app/core.py:116-119 | for newline-free sentences, the output is the stripped space-joined sentences |
| Shaping.ProviderTranslate | app/core.py:61-119 | equal languages return the text without a request; without a User-Agent, a different pair fails before any request; otherwise exactly one request with the rewritten agent; status 200 gives the shaped sentences, any other status an `HTTPException` with that status |
| Shaping.Ask | app/core.py:104-119 | a reply with status 200 gives its shaped sentences; any other status an `HTTPException` carrying that status |
| Shaping.EchoTranslates | app/core.py:61-119 | with a provider that answers `<target>:<text>`, a one-line text comes back as `<target>:<text>` after one request with the rewritten agent |
| Shaping.EchoShaped | app/core.py:116-119 | a single line without outer whitespace passes through shaping unchanged |
| Shaping.TestReply | app/core.py:442-452 | the message and status are echoed when the status is in 200..599 and the message is at most 8000 characters; otherwise an empty 400 |
| Models.First | app/models.py:54-56 | `first()`: the earliest matching position, or none when nothing matches |
| Models.FetchRequest | app/models.py:47-56 | a stored request with the hash and pair, found exactly when one exists |
| Models.FetchRequestById | app/models.py:49-51 | the stored request with the id, found exactly when one exists |
| Models.FetchResponse | app/models.py:97-106 | a stored response with the hash, pair and mode (any owner), found exactly when one exists |
| Models.FetchResponseById | app/models.py:99-101 | the stored response with the id, found exactly when one exists |
| Models.FetchOwnResponse | app/core.py:525-530 | the user's mode-3 response with the hash and pair, found exactly when one exists |
| Models.FindRating | app/core.py:591 | the first rating row of (response, user), found exactly when one exists |
| Models.FindUser | app/models.py:262 | the first user with the `oauth_id`: no earlier user has it, and a user is found exactly when one exists |
| Models.FirstAppend | app/models.py:54-56 | rows added after a match do not change what `first()` finds; after no match, it finds the first added match |
| Models.FetchRequestAppend | app/models.py:54-56 | a request lookup over added rows finds the earlier row if there was one, else looks among the new ones |
| Models.FetchResponseAppend | app/models.py:104-106 | a response lookup over added rows finds the earlier row if there was one, else looks among the new ones |
| Models.WithoutIds | app/core.py:515-516 | deletion keeps exactly the rows whose id is not deleted, and deleting nothing keeps all rows |
| Models.ApplyBelow | app/models.py:60 | committing rows with ids below the counter keeps every stored id below it (ids stay fresh) |
| Models.ApplyUsers | app/models.py:271-272 | committing only new users appends them and leaves every other table as it was |
| Models.NewUserAccepted | app/models.py:237 | a user whose `oauth_id` is not stored is accepted by the unique constraint, and a lookup by that `oauth_id` then finds the new row |
| Models.CountsBounded | app/models.py:156-163 | `plus_ratings + minus_ratings` never exceeds the number of rating rows of the response |
| Models.ViewRow | app/models.py:121-134 | the view has a row for an id exactly when a response has it. The row carries that response's owner, time, pair, mode, hash and texts; `original_text` is NULL exactly when no request has the hash and pair, and otherwise is the text of one such request. Rating sum and count are NULL exactly when the response has no ratings, else the sum and the row count |
| Models.FetchTranslation | app/models.py:165-174 | a view row is found exactly when a response with the hash, pair and mode exists. It carries the first such response's id, owner, time and texts; `original_text` is NULL exactly when no request has the hash and pair, and otherwise is the text of one such request. Rating sum and count are NULL exactly when the response has no ratings, else the sum and the row count |
| Models.Database.InsertRequest | app/models.py:58-69 | `insert(commit=False)` stages one request row with a fresh id and the given fields; nothing is committed |
| Models.Database.InsertResponse | app/models.py:108-119 | stages one response row with a fresh id and the given fields |
| Models.Database.InsertAccessLog | app/models.py:196-207 | stages one log row with a fresh id, without a response and with no flag yet |
| Models.Database.UpdateStagedLog | app/core.py:421-427 | assigning attributes of the staged log row replaces that row only |
| Models.Database.InsertRating | app/models.py:222-233 | stages one rating row with a fresh id |
| Models.Database.EditRating | app/core.py:600-602 | new values for a stored rating row wait for the commit |
| Models.Database.DeleteResponse | app/core.py:515 | the deletion waits for the commit |
| Models.Database.Commit | app/core.py:429-433 | all staged changes are applied exactly when the database accepts them (unique constraints hold and it does not fail), otherwise none; the session is empty afterwards |
| Models.Database.Rollback | app/core.py:433 | the staged changes are dropped and the tables are as committed |
| Models.Database.InsertUser | app/models.py:260-274 | an existing `oauth_id` returns the stored user and writes nothing; otherwise a new user is committed and is the one a later lookup finds |
| Models.Database.StageUser | app/models.py:265-271 | stages one user row with a fresh id, no provider and the profile fields; nothing is committed |
| Models.Database.AddUser | app/models.py:264-272 | for an unknown `oauth_id`, the new user is committed unless the database fails, and is then the one a lookup finds |
| Ratings.VotedRowIsFound | app/core.py:591-602 | after a vote, the row a lookup of (response, user) finds is the updated or newly added one |
| Ratings.VoteLeavesOneRow | app/core.py:591-602 | after a vote exactly one row holds the user's vote, with the new value and time; a re-vote adds no row; other rows are unchanged; the unique constraint holds |
| Ratings.VoteIdempotent | app/core.py:591-602 | casting the same vote again changes nothing |
| Ratings.VoteTally | app/core.py:591-602 | a vote moves each value count by one in and one out; the row count grows only on a first vote |
| Ratings.AggregatesAgree | app/models.py:132 | with only ±1 stored, the view's sum is `plus_ratings - minus_ratings` and its count is `plus_ratings + minus_ratings` |
| Ratings.VoteKeepsVotes | app/core.py:582-584 | votes are ±1, so the rating table keeps holding only ±1 |
| Ratings.ViewReportsVotes | app/models.py:121-163 | the view row of a rated response reports the net vote and the number of voters |
| TranslateHandler.ModeColumn | app/core.py:398 | the mode text is compared as a number exactly when it is a decimal numeral; otherwise the query fails |
| TranslateHandler.ModeColumnReadsNumerals | app/core.py:398 | the numeral `'%d' % n` of every n is read as n |
| TranslateHandler.LeadingZeroIgnored | app/core.py:398 | a leading `0` does not change the value a numeral is read as |
| TranslateHandler.ModeColumnIgnoresLeadingZeros | app/core.py:398 | the numeral of every n after any number of leading zeros is read as n as well |
| TranslateHandler.NumeralValue | app/core.py:398 | the decimal numeral of a number is made of digits and has that value |
| TranslateHandler.ModeColumnOfModes | app/core.py:402-405 | the texts '1', '2' and '3' are the modes 1, 2 and 3 |
| TranslateHandler.MarkCreated | app/core.py:421-424 | the flag gets the `FLAG_CREATED` bit: NULL becomes 1; otherwise the bit is set and the other bits are kept |
| TranslateHandler.MissTranslation | app/core.py:400-409 | mode '1' asks the provider once for the pair, and produces a translation exactly when the reply is 200; mode '2' asks source→Japanese, then Japanese→target on the intermediate text; any other mode is refused without a request; at most two requests, all with the rewritten agent |
| TranslateHandler.Direct | app/core.py:402-404 | mode '1': one request for the pair with the rewritten agent. The translation is produced exactly when the reply is 200, and is then the shaped reply with no intermediate text; any other status is raised as an `HTTPException` with it; without an agent, an internal error and no request |
| TranslateHandler.ThroughIntermediate | app/core.py:405-407 | mode '2': the first request is source→Japanese on the text, the last is Japanese→target on the intermediate text, at most two requests |
| TranslateHandler.ThroughIntermediateReplies | app/core.py:405-407 | between languages other than Japanese: the second request is made exactly when the first reply is 200, on the shaped first reply; the translation is produced exactly when both replies are 200, with the shaped first reply as intermediate text and the shaped second reply as translation; otherwise the last status is raised |
| TranslateHandler.ThroughJapaneseOneRequest | app/core.py:405-407 | when exactly one of the languages is Japanese: one request, source to target, and the translation is produced exactly when its reply is 200. Into Japanese the shaped reply is both intermediate text and translation; out of Japanese the text itself is the intermediate text. Otherwise that status is raised |
| TranslateHandler.EchoThroughJapanese | app/core.py:405-407 | with a provider that answers `<target>:<text>`, mode '2' gives `ja:<text>` as intermediate text and `<target>:ja:<text>` as translation |
| TranslateHandler.TranslateChangesAccepted | app/models.py:73 | what `translate` stages (rows without owner, no ratings, users or deletions) never violates a unique constraint |
| TranslateHandler.StageRequest | app/core.py:379-396 | stages the access log, plus the request row exactly when no request has the key; nothing is committed |
| TranslateHandler.RecordAnswer | app/core.py:421-433 | the log row gets the response id (and the created flag); a successful commit stores the log, the new request and the new response, and a failed one leaves the tables unchanged |
| TranslateHandler.TranslateMiss | app/core.py:400-419 | the miss path matches `MissSpec` |
| TranslateHandler.CreateResponse | app/core.py:410-433 | the new ownerless response gets the id after the log and the request; a successful commit stores it with the log, a failed one leaves the tables unchanged |
| TranslateHandler.TranslateAdmitted | app/core.py:376-439 | past the language checks, matches `AdmittedSpec` |
| TranslateHandler.Translate | app/core.py:360-439 | the answer, the provider requests and the new tables are those of `TranslateSpec`, and the session ends empty |
| TranslateHandler.SameLanguageEchoes | app/core.py:364-369 | equal stripped languages return the stripped text, with no id, no request and no row |
| TranslateHandler.UnsupportedLanguageRefused | app/core.py:371-374 | an unsupported language gets 400, before anything is logged or asked |
| TranslateHandler.AdmittedUnfolds | app/core.py:371-376 | past the language checks, `translate` is `AdmittedSpec` of the stripped form and its fingerprint |
| TranslateHandler.CacheHit | app/core.py:398-400 | a stored response with the key is returned without asking the provider or adding a response, and the log records it |
| TranslateHandler.CacheHitSkipsProvider | app/core.py:360-439 | the same for a whole `translate` call |
| TranslateHandler.AdmittedRecords | app/core.py:379-433 | answer and requests do not depend on the commit; only an answered, committed call changes the tables. It then adds its log, the request exactly when it was unknown, and, exactly when no response had the key, a fresh ownerless response in mode 1 or 2 (intermediate text only in mode 2), which is the one answered |
| TranslateHandler.RecordedKeepsInvariants | app/core.py:386-433 | a committed call keeps the unique constraints, the uniqueness of request keys and fresh ids |
| TranslateHandler.RequestKeysStayUnique | app/core.py:386-396 | a request row is added only for an unknown key, so no two requests share hash and pair |
| TranslateHandler.AdmittedKeepsInvariants | app/core.py:376-439 | the same for every admitted call, committed or not |
| TranslateHandler.AdmittedRepeatHits | app/core.py:398-419 | once an answer is committed, asking again returns the same answer from the cache, without the provider |
| TranslateHandler.MissAsksByMode | app/core.py:400-409 | on a miss, mode '1' makes exactly the request for the pair, mode '2' first asks for Japanese, and other modes are refused with 400 and change nothing |
| TranslateHandler.MissStoresReplies | app/core.py:400-419 | on a miss, the answered and stored texts are the shaped provider replies: mode '1' answers exactly when its reply is 200, and otherwise raises that status; mode '2' between languages other than Japanese makes the second request only after a 200 and answers exactly when both replies are 200; mode '2' into or out of Japanese makes one request, source to target, answers exactly when its reply is 200 and otherwise raises that status |
| TranslateHandler.AdmittedAnswerIsStored | app/core.py:429-439 | a committed answer's id names a stored response, and its `id_b62` is the encoding of that id |
| TranslateHandler.OnlyAnswersAreRecorded | app/core.py:429-439 | refusals, exceptions, echoes and failed commits leave the tables unchanged; a failed commit changes neither the answer nor the requests |
| TranslateHandler.TranslateKeepsInvariants | app/core.py:360-439 | every `translate` call keeps the unique constraints, request-key uniqueness and fresh ids |
| TranslateHandler.RepeatIsCacheHit | app/core.py:360-439 | once a translation is answered and committed, the same request is answered the same way without the provider |
| TranslateHandler.AnswerIsStored | app/core.py:360-439 | the same for a whole `translate` call that returns an id |
| TranslateRoute.ExceptionReply | app/core.py:354-358 | an `HTTPException` is answered with its message and status; any other exception with 500 |
| TranslateRoute.Route | app/core.py:351-358 | as written: a result dictionary becomes JSON; every refusal becomes a 500; exceptions as above |
| TranslateRoute.IntendedRoute | app/core.py:351-358 | as intended: a refusal is answered with its own message and status |
| TranslateRoute.RoutesDifferOnlyOnRefusals | app/core.py:351-358 | the two routes agree except on refusals, where they always differ |
| TranslateRoute.SourceRefusalText | app/core.py:352 | the refusal of a source language becomes the 500 text of `dict`'s `ValueError` |
| TranslateRoute.UnsupportedSourceAnswered500 | app/core.py:351-374 | as written, an unsupported source language reaches the client as that 500 |
| TranslateRoute.IntendedRouteAnswers | app/core.py:351-409 | through the intended route, every refusal of `translate` is a 400 with its message, and a translation a 200 |
| TranslateRoute.RefusalsAre400 | app/core.py:400-409 | past the language checks, the only refusal is "Invalid mode" with 400 |
| ResponseHandlers.VoteCommits | app/core.py:591-605 | what a vote stages commits to exactly the voted rating rows, and the database accepts it |
| ResponseHandlers.StageVote | app/core.py:591-602 | a first vote stages a new rating row with a fresh id; a re-vote stages new values for the stored row; nothing is committed |
| ResponseHandlers.CastVote | app/core.py:591-611 | a committed vote leaves the ratings of `Vote` and answers the voted row; a failed commit changes nothing and answers 500 |
| ResponseHandlers.Rate | app/core.py:579-611 | the answer and the new tables are those of `RateSpec` |
| ResponseHandlers.NonVoteRefused | app/core.py:582-584 | a value other than ±1 gets 400 and changes nothing |
| ResponseHandlers.UnknownResponseNotFound | app/core.py:586-589 | a vote on an unknown response gets 404 and changes nothing |
| ResponseHandlers.RateLeavesOneRow | app/core.py:591-607 | a committed vote leaves exactly one row for (response, user), holding the vote, and returns that row; a re-vote adds no row; nothing else changes; the constraints hold |
| ResponseHandlers.RateTwiceSame | app/core.py:591-602 | voting the same way twice leaves the tables as the first vote did |
| ResponseHandlers.AnswerCanBeRated | app/core.py:586-589 | when decoding undoes encoding, a vote on the `id_b62` a committed `translate` returned is a vote on that response, never a 404 |
| ResponseHandlers.OwnResponseUnique | app/models.py:73 | a user's mode-3 response can be added exactly when that user has none for the same text and pair |
| ResponseHandlers.DeletionKeepsUnique | app/models.py:73 | deleting responses keeps the unique constraint |
| ResponseHandlers.UniqueCons | app/models.py:73 | responses are unique exactly when the first clashes with none of the rest and the rest are unique |
| ResponseHandlers.SubmitApplies | app/core.py:498-505 | committing a submission appends the new response and nothing else |
| ResponseHandlers.RemoveApplies | app/core.py:515-516 | committing a deletion removes the response and nothing else, and keeps the constraints |
| ResponseHandlers.EmptySubmissionRefused | app/core.py:491-496 | an empty or blank submission gets the page with 400 and changes nothing |
| ResponseHandlers.SubmissionAddsOwnResponse | app/core.py:497-507 | a user's first submission adds exactly one response: theirs, in mode 3, under the hash and pair of the response being answered, with the stripped text and a fresh id. The constraints hold, and the page afterwards shows it |
| ResponseHandlers.AddedIsShown | app/core.py:524-532 | once the user's response is added, the GET page shows that response |
| ResponseHandlers.AnswerPageShown | app/core.py:476-534 | when decoding undoes encoding, the page of the `id_b62` a committed `translate` returned shows that response's view row with status 200 |
| ResponseHandlers.ShownById | app/core.py:479-534 | the page of a stored response's `id_b62` shows its view row with status 200 and changes nothing |
| ResponseHandlers.ResubmissionFails | app/core.py:498-505 | a second submission by the same user for the same text and pair fails at the commit and changes nothing |
| ResponseHandlers.RemoveDeletesOnlyIt | app/core.py:511-522 | deleting an existing response removes it and nothing else, whoever owns it; an unknown id or a failed commit gives 500 and changes nothing |
| ResponseHandlers.SubmitPage | app/core.py:490-507 | the POST branch matches `SubmitSpec` |
| ResponseHandlers.AddOwnResponse | app/core.py:498-505 | the user's mode-3 row is committed exactly when the database does not fail and the user has no response for the text and pair; otherwise nothing changes |
| ResponseHandlers.RemovePage | app/core.py:511-522 | the DELETE branch matches `RemoveSpec` |
| ResponseHandlers.TranslationResponsePage | app/core.py:476-534 | the answer and the new tables are those of `PageSpec` |
| GaeImport.ParseLine | bin/import_gaedb.py:38-52 | a line without exactly four tab-separated columns is skipped. A four-column line whose timestamp or JSON does not parse raises and ends the import. Otherwise the line is parsed: the row's id is `uuid64.issue` of the parsed timestamp (with the line's position as the stand-in for its random part), the languages are the stripped first two columns, the hash is the SHA-1 of the stripped JSON column, and the data is the parsed column |
| GaeImport.Step | bin/import_gaedb.py:56-60 | a line never removes stored rows (`NewRowStored` states that a new row is added) |
| GaeImport.NewRowStored | bin/import_gaedb.py:52-60 | a parsed row whose hash and id are not stored is committed, right after the rows stored before its line, whatever the later lines do |
| GaeImport.MalformedLineSkipped | bin/import_gaedb.py:41-43 | a malformed line adds no row and the import goes on |
| GaeImport.DuplicateDropped | bin/import_gaedb.py:56-60 | a row whose hash is stored is rolled back and the import goes on |
| GaeImport.ParseLineAt | bin/import_gaedb.py:45-50 | a line's position changes only its row id |
| GaeImport.RepeatedLineStoredOnce | bin/import_gaedb.py:56-60 | the same line twice in a row stores at most one row |
| GaeImport.ImportKeepsEarlierRows | bin/import_gaedb.py:56-60 | each line is committed on its own: later lines never undo earlier rows |
| GaeImport.StepKeepsUnique | bin/import_gaedb.py:19 | an accepted row keeps hashes and ids unique |
| GaeImport.ImportKeepsUnique | bin/import_gaedb.py:15-20 | the import keeps hashes and ids unique |
| GaeImport.LegacyStore.Add | bin/import_gaedb.py:56-60 | the row is stored exactly when no stored row has its hash or id; otherwise the table is unchanged |
| GaeImport.LegacyStore.ImportData | bin/import_gaedb.py:34-60 | the rows and whether every line was read are those of `ImportSpec` |

## Left out

- The provider's network side is not modelled:
  - the proxy factory, the direct fallback request and their timeouts;
  - the request payload and headers other than the User-Agent;
  - JSON decoding of the reply, including the `results[0].sentences` fallback.

  The provider is a function from a request (text, pair, agent) to a status and a list of `trans` strings.
- The nilsimsa fingerprint, base62 encoding and decoding, `uuid4` and `uuid64.issue`, the date parser, `json.loads` and SHA-1 are parameters. Row ids are numbers drawn from a counter. A base62 text that does not decode is an exception.
- Timestamps (`datetime.now()`) are passed in.
- The database's own failures at commit time are a boolean argument. Concurrency between requests and its races are not modelled.
- TranslateHandler.Translate, TranslateHandler.TranslateAdmitted: the widths of the access log's `user_agent` (255) and `remote_address` (64) columns (app/models.py:192-193) are not enforced. In the source, a User-Agent longer than 255 characters (beyond trailing blanks) or a first `X-Forwarded-For` value longer than 64 characters (app/utils.py:17) makes Postgres refuse the staged log row. That happens when the first query autoflushes it (app/core.py:386), outside the `try` at app/core.py:429-433. The route then answers 500, the provider is not asked and nothing is stored. The model answers such a request like any other and stores its log on a good commit.
- TranslateHandler.ModeColumn: Postgres coerces the mode text to an integer. The model reads only plain decimal numerals. Texts that Postgres also reads, such as a sign or surrounding blanks inside the value, are treated as failures. Integer overflow is not modelled.
- Models.First: `first()` without `ORDER BY` is modelled as the first row in insertion order. The database may return any matching row.
- Models.ViewRow: the view's left join with `translation_request` can give several rows for one response when several requests share the key. The model takes the first request. The ORM class of the view does not map the `count` column; the model exposes it as the SQL defines it.
- TranslateHandler.Translate, ResponseHandlers.Rate, ResponseHandlers.TranslationResponsePage: the form fields the routes read are always present in the model. A missing field makes `request.form[k]` raise werkzeug's `BadRequestKeyError`. In `translate` (app/core.py:361) it reaches the exception handlers at app/core.py:353-358, which answer with an error status; for `text` (app/core.py:491) and `r` (app/core.py:582) Flask answers 400. These answers are not modelled.
- ResponseHandlers.Rate: the form value `r` is taken as an integer. A non-numeric `r` makes `int()` raise, which is not modelled. The rating row's `serialize()` JSON is the row itself.
- ResponseHandlers.TranslationResponsePage: templates, locale and flash messages are not modelled. The rendered page is the status, the view row and the user's response. The `login_required` check and the current user come from the framework.
- GaeImport.ParseLine: `uuid64.issue(timestamp)` draws random bits for the low part of the id. The model passes the line's position to the id function in their place, so two lines with the same timestamp may get different ids, as with real random bits; how likely an id collision is, is not modelled.
- GaeImport.LegacyStore.ImportData: an exception from the date or JSON parser ends the import. It is modelled as `completed = false`. Commit errors other than the `IntegrityError` of a duplicate are not modelled. The progress messages on stdout and stderr are left out.
- Other routes are not part of this model:
  - login and OAuth callbacks (apart from `User.insert`);
  - language lists, templates and static pages;
  - `translation_request`, `translation_responses`, `tresponse_post` (Facebook);
  - the statistics and maintenance pages;
  - the `GeoIP` table.
- Update in place is modelled for the session (`class Database`) and for the import table (`class LegacyStore`). ORM identity and aliasing of row objects are not modelled: a row is a value, and an edit replaces it.

## Findings

| source | as written | input that shows it | evidently intended | confidence | as-written member | corrected member |
|---|---|---|---|---|---|---|
| app/core.py:351-358 | `jsonify(translate())` is applied to every result. `translate()` returns a `(message, 400)` pair for an unsupported language or mode. `jsonify` builds `dict(pair)`, which raises `ValueError`, and the handler answers `str(e), 500` | `POST /v1.0/translate` with `sl=xx` (unsupported), `tl=en`: 500 with "dictionary update sequence element #0 has length 24; 2 is required" | the refusal is answered as `('Invalid source language\n', 400)` | medium (follows Flask 0.x `jsonify`, which calls `dict(*args)`); not executed | TranslateRoute.UnsupportedSourceAnswered500 | TranslateRoute.IntendedRouteAnswers |
