# whoop-sync: a Dafny model of the heart-rate sync cycle

whoop-sync is a small service. It logs in to WHOOP with a headless browser and keeps the
resulting credential in a module-level slot. Every cycle it fetches the heart-rate samples
recorded since the newest stored sample, then writes them to a PostgreSQL `heart_rate` table
keyed by `(user_id, time)`, skipping duplicates. This project models the four pieces of it
that carry decision logic and proves what they promise.

- **Auth** (src/auth.ts):
  - The credential slot is the class `Auth.Session`.
  - Lazy expiry with a five-minute margin is `Auth.GetToken`.
  - Token extraction from the browser's cookies is `Auth.ExtractToken`.
  - `login()` after the browser flow is `Auth.LoginOutcome` and `Auth.Session.Login`: extract,
    cache the token, then log its expiry through `toISOString`, which throws for an expiry
    outside the `Date` range (NaN included) after the token is already cached.
  - JWT payload parsing is `Auth.ParseJwtPayload`. It splits the token on `.`, requires the
    three segments of the JWS compact serialization (section 7.1 of RFC 7515) and
    base64url-decodes the middle one (section 5 of RFC 4648).
  - Supporting modules: `JsNumbers` models JavaScript's `String(n)`, `parseInt` and NaN.
    `Text` models `split` and `join`. `Base64Url` holds the codec and its round trip.
- **Api** (src/api.ts):
  - The request for a window: the endpoint with the user id, the six query parameters in
    order, and the bearer header.
  - Classification of the response into `AuthExpired` (401/403), a generic status error, an
    unreadable body, or the points in body order.
- **Db** (src/db.ts):
  - The statement builder loop of `insertHeartRatePoints` is the method `Db.BuildInsert`, over
    `seq`s that it extends.
  - The table is the class `Db.HeartRateTable`. Its rows are a sequence whose `(user_id, time)`
    keys stay unique.
  - `Db.ParamNumbers` reads the parameter numbers back out of a statement's text (each `$`
    followed by digits), so the placeholder numbering is proved on the text itself.
  - `ON CONFLICT (user_id, time) DO NOTHING` is the function `Db.ConflictSkip`.
  - `getHighWaterMark` is `MAX(time)` over every row (`Db.MaxTime`).
- **Sync** (src/index.ts):
  - One cycle of `sync()` is the method `Sync.Sync`, over the session and the table. It is
    proved equal to the pure cycle `Sync.SyncSpec`, and the cycle's properties are proved about
    `SyncSpec`.
  - The browser, the HTTP server and the JSON decoder are an `Oracle`: the browser's outcome for
    the k-th login of a cycle, the server's response to the k-th fetch, and the payload decoder.
  - `SyncSpec` reads the collaborators through a `Script`: the outcome of the k-th `login()` and
    the k-th response. The methods are proved against `ScriptOf(o)`, whose k-th login is
    `Auth.LoginOutcome` of the browser's k-th outcome.
  - The cycle records its collaborator calls in order (`Call`), so that "no login before the
    fetch", "the same window on retry" and "at most one insert" can be stated.
  - `runSync()` is `Sync.RunSync`, which never fails.

Times are integer epoch milliseconds. JavaScript numbers that can be NaN (the user id and the
expiry) are `JsNumbers.JsNum = Num(int) | NaN`.

Three consequences of the code are easy to miss:

- A token is still handed out at exactly five minutes before its expiry. The test is
  `now > expiresAt - 300000`, which is strict (src/auth.ts:15-16).
- A payload without a numeric `exp` claim does not fail extraction. When the claim is missing,
  or is an object or a non-numeric string, `payload.exp * 1000` is NaN (src/auth.ts:93). An
  `exp` of `null` or `false` counts as 0 and `true` as 1, so such a token is expired as soon
  as it is stored. Likewise, a missing `custom:user_id` claim gives a NaN user id rather than
  an error (src/auth.ts:92).
- The login that extracts a token with a NaN expiry still fails, but only after caching it:
  line 68 stores the token and line 70's `new Date(NaN).toISOString()` throws (src/auth.ts:67-70).
  That cycle fails before reading the mark. A NaN expiry never compares as past, so every
  later cycle reuses the cached token without logging in.

## Model

| member | source | states |
|---|---|---|
| JsNumbers.ParseInt | src/auth.ts:92 | no contract of its own; `ParseFormat` and `ParseFormattedInt` state that it reads back a rendered integer, and `ParseIntOfWord` that a text starting with a letter is NaN |
| JsNumbers.ParseIntOfWord | src/auth.ts:92 | `parseInt` of a text starting with anything but white space, a sign or a digit is NaN |
| JsNumbers.ParseFormat | src/api.ts:28 | `parseInt(String(x), 10)` gives back `x`, NaN included, so the user id rendered into the request path reads back as the token's user id |
| JsNumbers.ParseFormattedInt | src/api.ts:40 | `parseInt` of an integer's decimal rendering followed by any text not starting with a digit returns that integer |
| Text.Join | src/db.ts:47 | no contract of its own; `JoinSplit` states that it undoes `split`, and `Db.InsertSqlParams` what the joined tuples name |
| Text.Split | src/auth.ts:104 | `split` always yields at least one piece |
| Text.SplitLength | src/auth.ts:104-105 | `split` yields exactly one more piece than there are separators, so the three-segment check means exactly two dots |
| Text.SplitPiecesFree | src/auth.ts:104 | no piece returned by `split` contains the separator |
| Text.JoinSplit | src/auth.ts:104 | joining the pieces with the separator gives back the original string |
| Text.SplitWithoutSeparator | src/auth.ts:104 | a string without the separator splits into itself alone |
| Text.SplitAfterPiece | src/auth.ts:104 | a separator-free prefix followed by a separator becomes the first piece, and the rest splits independently |
| Text.SplitThree | src/auth.ts:104-106 | `a.b.c` with dot-free parts splits into exactly `[a, b, c]` |
| Base64Url.SextetRoundTrip | src/auth.ts:106 | the decoder maps every alphabet character back to the 6-bit value it encodes |
| Base64Url.SextetsOfChars | src/auth.ts:106 | decoding the characters of an encoding recovers its 6-bit values in order |
| Base64Url.CharsInAlphabet | src/auth.ts:106 | every character of an encoding is in the base64url alphabet |
| Base64Url.GroupRoundTrip | src/auth.ts:106 | three bytes spread over four 6-bit values are reassembled exactly |
| Base64Url.DecodeEncodeSextets | src/auth.ts:106 | byte-level round trip, including the final one- or two-byte group |
| Base64Url.Decode | src/auth.ts:106 | no contract of its own; `DecodeEncode` states that it inverts the encoder on every byte sequence |
| Base64Url.DecodeEncode | src/auth.ts:106 | `Buffer.from(encode(bs), "base64url")` is `bs` for every byte sequence |
| Base64Url.EncodeHasNoDot | src/auth.ts:104-106 | an encoded payload never contains `.`, so it cannot disturb the segment split |
| Auth.GetToken | src/auth.ts:13-18 | empty slot gives none; a returned token is the slot's own, unchanged; with a numeric expiry, none exactly when `now > expiresAt - 300000`; a NaN expiry never expires |
| Auth.GetTokenStaysExpired | src/auth.ts:13-18 | expiry is monotone in time: once no token is handed out, none is at any later instant while the slot is unwritten |
| Auth.GetTokenBoundary | src/auth.ts:15-16 | the token is still returned at exactly `expiresAt - 300000` and not one millisecond later |
| Auth.FindCookie | src/auth.ts:84-85 | `find` returns none exactly when no cookie has the name, else the index of the first cookie with it |
| Auth.ParseJwtPayload | src/auth.ts:103-108 | parsing fails only with the format error or a malformed payload |
| Auth.JwtFormatCheck | src/auth.ts:104-105 | the format error is raised exactly when the token does not contain exactly two dots (three segments) |
| Auth.JwtPayloadIsMiddleSegment | src/auth.ts:104-107 | for a three-segment token, the result depends only on the decoded middle segment |
| Auth.JwtRoundTrip | src/auth.ts:103-107 | a token whose middle segment encodes bytes the JSON decoder reads as some claims yields exactly those claims |
| Auth.ParseUserId | src/auth.ts:92 | a missing claim, `null`, a boolean or any other claim that is neither a number nor a string gives NaN (`parseInt` of `"undefined"`, `"null"`, `"true"`, `"false"`) |
| Auth.ParseUserIdOfInt | src/auth.ts:92 | an integer `custom:user_id` claim survives `parseInt` unchanged |
| Auth.ExpiresAt | src/auth.ts:93 | the expiry is a number exactly when `exp` is an integer, `null` or a boolean: `exp * 1000` for an integer, 0 for `null` and `false`, 1000 for `true`; a missing claim or any other value gives NaN |
| Auth.NullExpiryNeverReused | src/auth.ts:93 | a token whose `exp` is `null` is not handed out at any non-negative instant |
| Auth.ExtractToken | src/auth.ts:81-101 | no contract of its own; `ExtractTokenCookies`, `ExtractTokenClaims` and `ExtractTokenPropagatesJwtError` state its cookie rules, its claims and its error propagation |
| Auth.ExtractTokenCookies | src/auth.ts:81-101 | fails with cookie-not-found exactly when no `whoop-auth-token` cookie exists; the access token is the first such cookie's value; the refresh token is `""` exactly when the first refresh cookie is absent or empty, else its value |
| Auth.ExtractTokenClaims | src/auth.ts:91-99 | with integer claims, the token's user id is the claim and its expiry is `exp * 1000` |
| Auth.ExtractTokenPropagatesJwtError | src/auth.ts:87-91 | an access-token cookie that is not three segments fails extraction with the format error, with no partial token |
| Auth.LoginOutcome | src/auth.ts:41-75 | a failed browser login fails `login` with that reason; a successful login's token has an expiry inside the `Date` range; the "Invalid time value" failure carries the token whose expiry lies outside it |
| Auth.LoginOutcomeOfExtraction | src/auth.ts:67-71 | after the browser flow, an extraction failure is the login's failure; an extracted token is returned when its expiry renders as a date, and otherwise the login throws "Invalid time value" carrying that token |
| Auth.MissingExpLoginThrows | src/auth.ts:67-70 | a payload without `exp` makes the login throw after extracting a token with a NaN expiry from the first access cookie |
| Auth.Session.constructor | src/auth.ts:11 | the slot starts empty |
| Auth.Session.ClearToken | src/auth.ts:77-79 | after `clearToken` the slot is empty, so `GetToken` gives none at every instant |
| Auth.Session.Login | src/auth.ts:67-71 | the result is `LoginOutcome`; the slot afterwards is `SlotAfterLogin`: the extracted token, replacing any previous one, whenever extraction succeeded, even when logging its expiry then throws; unchanged when the login fails earlier |
| Api.MetricsQuery | src/api.ts:19-26 | the query is `apiVersion=7, name=heart_rate, start, end, step=60, order=t`, in that order |
| Api.FetchRequest | src/api.ts:28-32 | the endpoint is the fixed metrics prefix followed by text that `parseInt` reads as the token's user id; the query is the window's; the Authorization header is `"Bearer "` followed by the access token |
| Api.ToPoints | src/api.ts:44 | one point per value, point `i` having `bpm = values[i].data` and `time = values[i].time` |
| Api.Classify | src/api.ts:34-44 | `AuthExpired` exactly for 401/403; the generic status error, carrying status and body, exactly for every other non-2xx status; success exactly for a 2xx status with a readable body, with one point per value |
| Api.ClassifyPreservesOrder | src/api.ts:43-44 | on success, point `i` is built from `values[i]` |
| Api.StatusMessageCarriesStatusAndBody | src/api.ts:38-41 | the generic error's message contains the status, readable back with `parseInt`, and ends with the whole body text |
| Db.RowsFor | src/db.ts:42 | a batch becomes one row per point |
| Db.InsertSql | src/db.ts:45-48 | no contract of its own; `InsertSqlParams` states that the text names `$1..$3n` in order |
| Db.PlaceholderParams | src/db.ts:40-41 | read back from the text, tuple `i` names the parameters `3i+1`, `3i+2` and `3i+3` in that order, whatever text follows it |
| Db.InsertSqlParams | src/db.ts:39-48 | the `$`-numbers read back from the statement text for `n` points are exactly `1, 2, …, 3n` in order: each of the `3n` bound values is named once, in increasing order |
| Db.BuildInsert | src/db.ts:36-43 | `placeholders` has one tuple per point and `values` three parameters per point; tuple `i` is `($3i+1, $3i+2, $3i+3)`, and parameters `3i..3i+2` bind point `i`'s time and bpm and the user id |
| Db.ConflictSkip | src/db.ts:46-48 | the existing rows are kept as a prefix, and at most one row per point is added |
| Db.ConflictSkipKeys | src/db.ts:46-48 | the keys after the insert are exactly the old keys plus the batch's keys |
| Db.ConflictSkipKeepsKeysUnique | src/db.ts:13 | with `ON CONFLICT DO NOTHING`, the primary key `(user_id, time)` stays unique, duplicates within one batch included |
| Db.ConflictSkipAllPresent | src/db.ts:48 | a batch whose keys are all present adds nothing |
| Db.ConflictSkipIdempotent | src/db.ts:48-52 | re-inserting the same batch adds no row, so it returns 0 |
| Db.OneDuplicateScenario | src/db.ts:48-52 | three samples of which one is already stored insert exactly two rows |
| Db.MaxTime | src/db.ts:22-27 | none exactly for an empty table; otherwise the time of some row that is at least every row's time, whatever the user |
| Db.HeartRateTable.constructor | src/db.ts:8-14 | the table as `CREATE TABLE` first creates it: empty, with unique keys |
| Db.HeartRateTable.GetHighWaterMark | src/db.ts:22-27 | returns `MAX(time)` over every row, or none for an empty table, and changes nothing |
| Db.HeartRateTable.InsertHeartRatePoints | src/db.ts:29-53 | an empty batch returns 0, issues no statement and changes nothing; otherwise one statement with `3n` parameters, joined tuples and the conflict clause; the table becomes the conflict-skipping insert of the batch; the count is the number of new rows, at most `n`; keys stay unique |
| Sync.CountKindAppend | src/index.ts:6-47 | counting calls of a kind is additive over concatenated call sequences |
| Sync.WindowStart | src/index.ts:14-15 | no contract of its own; `WindowStartIsMarkOrDayBefore` states its value |
| Sync.WindowStartIsMarkOrDayBefore | src/index.ts:14-15 | the window starts at the newest stored time, or 24 hours before `now` on an empty table |
| Sync.FetchAndStoreFetchesFirst | src/index.ts:22-25 | steps 3-4 begin with the fetch of the window with the token in hand |
| Sync.SyncReusesCachedToken | src/index.ts:8-11 | with a usable cached token, no login happens: the cycle reads the mark, then fetches with that token |
| Sync.SyncLogsInWithoutToken | src/index.ts:8-11 | without a usable token, one login comes first; a failed login ends the cycle with the table untouched, and with the slot untouched unless the login had cached its token before throwing, in which case the slot holds that token |
| Sync.UnloggableTokenIsReused | src/index.ts:8-11 | a login that caches a token whose expiry is NaN or beyond the `Date` range and then throws fails the cycle, leaving that token in the slot; the next cycle, at any clock reading inside the range, reads the mark and fetches with that token without logging in |
| Sync.RetryAfterAuthExpired | src/index.ts:26-31 | after `AuthExpired`, the cycle clears, logs in, then fetches the identical window with the new token; a failed re-login ends it with an empty slot, or with the re-login's token when it threw after caching it |
| Sync.NoRetryOnOtherErrors | src/index.ts:32-34 | any other first-fetch error ends the cycle: no retry, no insert, slot and table unchanged |
| Sync.Store | src/index.ts:37-46 | no contract of its own; `StoreCounts`, `StoreOutcome` and `StoreWindow` state its calls, its report and its effect on the table |
| Sync.FetchAndStore | src/index.ts:22-46 | no contract of its own; `FetchAndStoreFetchesFirst`, `RetryAfterAuthExpired`, `NoRetryOnOtherErrors`, `FetchAndStoreCounts`, `FetchAndStoreOutcome` and `FetchAndStoreWindow` state its behaviour |
| Sync.SyncSpec | src/index.ts:6-47 | no contract of its own; the `Sync…` lemmas below state what one cycle does |
| Sync.StoreCounts | src/index.ts:37-43 | step 4 adds at most one insert call and no other call |
| Sync.FetchAndStoreCounts | src/index.ts:22-43 | steps 3-4 add at most one login, two fetches, one clear and one insert |
| Sync.SyncCallBounds | src/index.ts:6-47 | a cycle makes at most two logins, two fetches, one clear and one insert |
| Sync.StoreOutcome | src/index.ts:37-46 | an empty fetch adds no call and no row; otherwise one insert for the token's user, and the report counts the points fetched and the rows added, at most the points |
| Sync.FetchAndStoreOutcome | src/index.ts:22-46 | steps 3-4 satisfy `InsertsAsFetched`: the inserted points are the first fetch's when it succeeded, otherwise the retry's |
| Sync.SyncInsertsAsFetched | src/index.ts:37-46 | a failed or empty cycle writes nothing; otherwise its one insert is the last call and carries the points of the first fetch when it succeeded, otherwise those of the retry, for the user of the token in use after any re-login; the table grows by exactly the rows not yet present |
| Sync.FetchAndStoreWindow | src/index.ts:25-31 | every fetch in steps 3-4 uses the same window |
| Sync.StoreWindow | src/index.ts:37-43 | step 4 makes no fetch, so the window of every fetch is unchanged |
| Sync.SyncFetchWindow | src/index.ts:14-31 | every fetch of a cycle, the retry included, asks for `[mark or now - 24h, now]` |
| Sync.RecoveryAfterOneExpiry | src/index.ts:26-31 | with a usable cached token: one refusal, then a successful re-login and fetch: the cycle succeeds with exactly one login, and the slot holds the renewed token |
| Sync.RetryCallsLogInOnce | src/index.ts:25-31 | the retry path's calls contain exactly one login |
| Sync.RecoveryWithoutCache | src/index.ts:8-31 | without a usable cached token: a login, one refusal, then a successful re-login and fetch: the cycle succeeds with exactly two logins, and the slot holds the second login's token |
| Sync.ExpiredTwiceFailsWithoutCache | src/index.ts:8-35 | without a usable cached token, after a successful login: two refusals in a row fail the cycle and write nothing; when the re-login succeeds, the error is `AuthExpired` |
| Sync.ExpiredTwiceFails | src/index.ts:30-35 | with a usable cached token: two refusals in a row fail the cycle and write nothing; when the re-login succeeds, the error is `AuthExpired` |
| Sync.FirstSyncScenario | src/index.ts:6-47 | on an empty table, three samples at 100, 200 and 300 ms are fetched and inserted (3, 3), and the new mark is 300 |
| Sync.NothingNewScenario | src/index.ts:13-41 | with mark 300 and an empty response, the cycle fetches `[300, now]`, reports (0, 0), makes no insert and leaves the table unchanged |
| Sync.Sync | src/index.ts:6-47 | the calls, outcome, slot and table a cycle leaves are those of `SyncSpec` on the old slot and table; keys stay unique |
| Sync.FetchAndInsert | src/index.ts:22-46 | steps 3-4 over the session and the table agree with `FetchAndStore`, a re-login that throws after caching its token included |
| Sync.InsertPoints | src/index.ts:37-46 | step 4 over the table agrees with `Store` |
| Sync.RunSync | src/index.ts:62-68 | never fails: a cycle's failure is returned as the logged error, success logs nothing, and the cycle's effects on slot and table stay |

## Left out

- The browser automation of `login` (src/auth.ts:21-66) is a foreign call. Its outcome is the
  oracle's `BrowserResult`: the cookie list, or a failure reason. Closing the browser is not
  modelled.
- UTF-8 decoding and `JSON.parse` of the payload (src/auth.ts:106-107) are the decoder oracle.
  It maps the decoded bytes to claims, or fails. It also fails for a `null` payload, whose
  property read throws (src/auth.ts:92); any other non-object payload yields no claims.
- Auth.ParseUserId: a non-integer numeric claim (`12.5`) is modelled as NaN. JavaScript's
  `parseInt(String(12.5))` would give 12. An array claim is also NaN, though `String([7])` is
  `"7"`. Integer, string, `null` and boolean claims are modelled exactly.
- Auth.ExpiresAt: an `exp` claim that is a numeric string, a fraction or an array is modelled as
  NaN. JavaScript's `*` coerces a numeric string to its number and a one-element array to its
  element (`[5] * 1000` is 5000). Floating-point `exp` values are not modelled.
- JsNumbers.ParseInt: the leading white space skipped is the ASCII set plus U+00A0 and U+FEFF.
  The other Unicode space separators are not modelled. JavaScript numbers are unbounded
  integers here, with no precision loss beyond 2^53.
- Base64Url.Decode: characters outside both base64 alphabets are skipped, and `=` is skipped
  like any other. Node's decoder also stops at the first `=`. Only the round trip on encoder
  output is proved.
- `toISOString` and `URLSearchParams` percent-encoding are abstracted. A time in the query is
  `IsoTime(ms)`, so only parameter names, values and order are modelled.
- The `fetch` transport (src/api.ts:30-32) is left out. The response is an input:
  `HttpResponse`, with `values` set to None when the body is not JSON with a `values` array.
- The `pg` pool and actual SQL execution (src/db.ts:4, 45-50) are left out. The statement's
  text and parameters are modelled, and its effect is modelled as `ConflictSkip` on the rows.
  A failing query (connection loss, a NaN user id rejected by the database) is not modelled,
  so inserts and `getHighWaterMark` always succeed.
- `initDb` (schema DDL) and `close` are left out, since they are I/O only. The table's
  constructor is the table as first created. `CREATE TABLE IF NOT EXISTS` on an existing table
  keeps its rows, which the model does not cover. The index is not modelled. The schema's
  primary key appears as the table's unique-key invariant.
- src/config.ts (environment reading) is not part of this model.
- The `setInterval` scheduling in `main`, the signal handlers, and overlapping asynchronous
  cycles (src/index.ts:49-60, 71-81) are left out as runtime and concurrency concerns.
- Console logging is left out, and `RunSync` returns what it would log. The one exception is
  the expiry log line in `login()` (src/auth.ts:70): it is modelled because it can throw.
- Sync.Sync: the clock is read once per cycle. The code reads `Date.now()` separately in
  `getToken`, in the 24-hour fallback and for `end`, and the model uses one instant for all
  three.
- Heart-rate values and times are integers. The source's floating-point numbers are not
  modelled.
