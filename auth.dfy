/** The session credential of src/auth.ts: the single cached token, its lazy expiry check,
    and the extraction of a token from the cookies a completed browser login leaves behind. */
module Auth {
  import opened Wrappers
  import opened JsNumbers
  import opened Text
  import Base64Url

  const AuthCookieName: string := "whoop-auth-token"
  const RefreshCookieName: string := "whoop-auth-refresh-token"
  const UserIdClaim: string := "custom:user_id"
  const ExpClaim: string := "exp"

  /** Tokens are treated as expired this many milliseconds before their expiry instant. */
  const SafetyMarginMs: int := 5 * 60 * 1000

  datatype Cookie = Cookie(name: string, value: string)

  /** `userId` and `expiresAt` are JavaScript numbers: NaN when the claim is missing or unreadable. */
  datatype AuthToken = AuthToken(accessToken: string, refreshToken: string, userId: JsNum, expiresAt: JsNum)

  /** A claim value of the decoded JWT payload: an integer, a string, `null`, a boolean, or any
      other JSON value (a fraction, an array, an object). */
  datatype Claim = IntClaim(n: int) | TextClaim(s: string) | NullClaim | BoolClaim(b: bool) | OtherClaim

  type Claims = map<string, Claim>

  /** UTF-8 decoding followed by `JSON.parse`, then reading the two claims: None when parsing
      throws or the payload is `null` (reading a property of `null` throws, src/auth.ts:92);
      any other non-object payload (a number, a string) yields no claims. */
  type PayloadDecoder = seq<Base64Url.Byte> -> Option<Claims>

  /** What the browser automation yields: the cookies of the logged-in site, or a failure. */
  datatype BrowserResult = Authenticated(cookies: seq<Cookie>) | BrowserFailed(reason: string)

  datatype AuthError =
    | LoginFailed(reason: string)   // the browser flow threw
    | CookieNotFound                // "whoop-auth-token cookie not found after login"
    | InvalidJwtFormat              // "Invalid JWT format"
    | MalformedPayload              // JSON.parse threw
    | InvalidTimeValue(token: AuthToken)  // logging the expiry threw, after `token` was cached

  /** The largest distance from the epoch, in milliseconds, that a JavaScript `Date` can hold;
      `new Date(x)` of anything further (or of NaN) is an invalid date (the `TimeClip`
      operation of ECMAScript). */
  const MaxDateMs: int := 8_640_000_000_000_000

  /** `new Date(x).toISOString()` succeeds: `x` is a number within the `Date` range.
      Otherwise it throws a RangeError ("Invalid time value"). */
  predicate ValidDate(x: JsNum) {
    x.Num? && -MaxDateMs <= x.value <= MaxDateMs
  }

  /** The cached token is due for renewal: its expiry, less the margin, lies strictly before `now`.
      A NaN expiry compares false, so such a token never expires. */
  predicate Expired(t: AuthToken, now: int) {
    t.expiresAt.Num? && now > t.expiresAt.value - SafetyMarginMs
  }

  /** `getToken()` over the slot's content: lazy expiry, no change to the slot. */
  function GetToken(slot: Option<AuthToken>, now: int): (r: Option<AuthToken>)
    ensures slot.None? ==> r.None?
    ensures r.Some? ==> r == slot
    ensures slot.Some? && slot.value.expiresAt.Num? ==>
              (r.None? <==> now > slot.value.expiresAt.value - SafetyMarginMs)
    ensures slot.Some? && slot.value.expiresAt.NaN? ==> r == slot
  {
    if slot.None? then None
    else if Expired(slot.value, now) then None
    else slot
  }

  /** Once `getToken` has stopped returning a token, it returns none at every later instant
      as long as the slot is not written. */
  lemma GetTokenStaysExpired(slot: Option<AuthToken>, now: int, later: int)
    requires now <= later
    requires GetToken(slot, now).None?
    ensures GetToken(slot, later).None?
  {
  }

  /** The boundary of the margin: the token is still handed out exactly `SafetyMarginMs`
      before its expiry, and no longer one millisecond after that. */
  lemma GetTokenBoundary(t: AuthToken, e: int)
    requires t.expiresAt == Num(e)
    ensures GetToken(Some(t), e - SafetyMarginMs) == Some(t)
    ensures GetToken(Some(t), e - SafetyMarginMs + 1) == None
  {
  }

  /** The cookie `name` is the first of that name at index `i` (what `Array.prototype.find` picks). */
  predicate IsFirstNamed(cookies: seq<Cookie>, name: string, i: int) {
    0 <= i < |cookies| && cookies[i].name == name
    && forall j :: 0 <= j < i ==> cookies[j].name != name
  }

  /** `cookies.find(c => c.name === name)`, as the index of the cookie found. */
  function FindCookie(cookies: seq<Cookie>, name: string): (r: Option<nat>)
    ensures r.None? <==> forall i :: 0 <= i < |cookies| ==> cookies[i].name != name
    ensures r.Some? ==> IsFirstNamed(cookies, name, r.value)
  {
    if cookies == [] then None
    else if cookies[0].name == name then Some(0)
    else
      match FindCookie(cookies[1..], name)
      case None => None
      case Some(k) => Some(k + 1)
  }

  /** `parseJwtPayload`: split on `.`, demand exactly three segments (the JWS compact
      serialization of section 7.1 of RFC 7515), base64url-decode the middle one and parse it. */
  function ParseJwtPayload(jwt: string, decode: PayloadDecoder): (r: Result<Claims, AuthError>)
    ensures r.Failure? ==> r.error == InvalidJwtFormat || r.error == MalformedPayload
  {
    var parts := Split(jwt, '.');
    if |parts| != 3 then Failure(InvalidJwtFormat)
    else
      match decode(Base64Url.Decode(parts[1]))
      case None => Failure(MalformedPayload)
      case Some(claims) => Success(claims)
  }

  /** The structural check fails exactly when the token does not contain exactly two dots. */
  lemma JwtFormatCheck(jwt: string, decode: PayloadDecoder)
    ensures ParseJwtPayload(jwt, decode) == Failure(InvalidJwtFormat) <==> Count(jwt, '.') != 2
  {
    SplitLength(jwt, '.');
  }

  /** Only the middle segment matters: a header and signature of any (dot-free) content
      give the claims the decoder finds in the middle segment's bytes. */
  lemma JwtPayloadIsMiddleSegment(header: string, payload: string, signature: string, decode: PayloadDecoder)
    requires '.' !in header && '.' !in payload && '.' !in signature
    ensures ParseJwtPayload(header + "." + payload + "." + signature, decode)
         == match decode(Base64Url.Decode(payload))
            case None => Failure(MalformedPayload)
            case Some(claims) => Success(claims)
  {
    SplitThree(header, payload, signature, '.');
  }

  /** Round trip: a token whose middle segment is the base64url encoding of some bytes
      yields whatever the JSON decoder makes of exactly those bytes. */
  lemma JwtRoundTrip(header: string, body: seq<Base64Url.Byte>, signature: string, decode: PayloadDecoder, claims: Claims)
    requires '.' !in header && '.' !in signature
    requires decode(body) == Some(claims)
    ensures ParseJwtPayload(header + "." + Base64Url.Encode(body) + "." + signature, decode) == Success(claims)
  {
    Base64Url.EncodeHasNoDot(body);
    Base64Url.DecodeEncode(body);
    JwtPayloadIsMiddleSegment(header, Base64Url.Encode(body), signature, decode);
  }

  /** `parseInt(payload["custom:user_id"], 10)`: the claim is first turned into a string
      (`String(n)` for a number, "null", "true" or "false" for those literals, "undefined" for a
      missing claim). */
  function ParseUserId(claim: Option<Claim>): (r: JsNum)
    ensures claim.None? || (claim.Some? && !claim.value.IntClaim? && !claim.value.TextClaim?) ==> r.NaN?
  {
    match claim
    case Some(IntClaim(n)) => ParseInt(FormatInt(n))
    case Some(TextClaim(s)) => ParseInt(s)
    case Some(NullClaim) =>
      ParseIntOfWord("null");
      ParseInt("null")
    case Some(BoolClaim(b)) =>
      var text := if b then "true" else "false";
      ParseIntOfWord(text);
      ParseInt(text)
    case Some(OtherClaim) => NaN
    case None =>
      ParseIntOfWord("undefined");
      ParseInt("undefined")
  }

  /** A numeric user-id claim survives the detour through `String` and `parseInt`. */
  lemma ParseUserIdOfInt(n: int)
    ensures ParseUserId(Some(IntClaim(n))) == Num(n)
  {
    ParseFormat(Num(n));
  }

  /** `payload.exp * 1000`: the NumericDate of section 4.1.4 of RFC 7519 is in seconds. The
      multiplication coerces its operand: `null` and `false` count as 0, `true` as 1, a missing
      claim as NaN. */
  function ExpiresAt(claim: Option<Claim>): (r: JsNum)
    ensures r.Num? <==> claim.Some? && (claim.value.IntClaim? || claim.value.NullClaim? || claim.value.BoolClaim?)
    ensures claim.Some? && claim.value.IntClaim? ==> r == Num(claim.value.n * 1000)
    ensures claim == Some(NullClaim) || claim == Some(BoolClaim(false)) ==> r == Num(0)
    ensures claim == Some(BoolClaim(true)) ==> r == Num(1000)
  {
    match claim
    case Some(IntClaim(n)) => Num(n * 1000)
    case Some(NullClaim) => Num(0)
    case Some(BoolClaim(b)) => Num(if b then 1000 else 0)
    case _ => NaN
  }

  /** A token whose `exp` claim is `null` expires at the epoch, so it is never handed out again
      once the clock is past the safety margin. */
  lemma NullExpiryNeverReused(t: AuthToken, now: int)
    requires t.expiresAt == ExpiresAt(Some(NullClaim)) && now >= 0
    ensures GetToken(Some(t), now).None?
  {
  }

  function Lookup(claims: Claims, name: string): Option<Claim> {
    if name in claims then Some(claims[name]) else None
  }

  /** `extractToken`: the first `whoop-auth-token` cookie is required and becomes the access
      token; the first refresh cookie is optional (`value || ""`); identity and expiry come
      from the access token's payload. */
  function ExtractToken(cookies: seq<Cookie>, decode: PayloadDecoder): Result<AuthToken, AuthError> {
    var auth := FindCookie(cookies, AuthCookieName);
    var refresh := FindCookie(cookies, RefreshCookieName);
    if auth.None? then Failure(CookieNotFound)
    else
      var jwt := cookies[auth.value].value;
      match ParseJwtPayload(jwt, decode)
      case Failure(e) => Failure(e)
      case Success(claims) =>
        Success(AuthToken(
          jwt,
          if refresh.Some? then cookies[refresh.value].value else "",
          ParseUserId(Lookup(claims, UserIdClaim)),
          ExpiresAt(Lookup(claims, ExpClaim))))
  }

  /** The cookies `extractToken` uses: it fails with `CookieNotFound` exactly when no cookie
      is named `whoop-auth-token`; the access token is the first such cookie's value; the
      refresh token is `""` exactly when the first refresh cookie is absent or empty, and is
      otherwise that cookie's value. */
  lemma ExtractTokenCookies(cookies: seq<Cookie>, decode: PayloadDecoder)
    ensures var r := ExtractToken(cookies, decode);
      (r == Failure(CookieNotFound) <==> forall i :: 0 <= i < |cookies| ==> cookies[i].name != AuthCookieName)
      && (r.Success? ==> exists i :: IsFirstNamed(cookies, AuthCookieName, i) && r.value.accessToken == cookies[i].value)
      && (r.Success? ==>
            (r.value.refreshToken == "" <==>
               forall i :: IsFirstNamed(cookies, RefreshCookieName, i) ==> cookies[i].value == ""))
      && (r.Success? && r.value.refreshToken != "" ==>
            exists i :: IsFirstNamed(cookies, RefreshCookieName, i) && r.value.refreshToken == cookies[i].value)
  {
    var auth := FindCookie(cookies, AuthCookieName);
    var refresh := FindCookie(cookies, RefreshCookieName);
    var r := ExtractToken(cookies, decode);
    if auth.Some? {
      assert cookies[auth.value].name == AuthCookieName;
      if r.Success? {
        assert IsFirstNamed(cookies, AuthCookieName, auth.value);
        if refresh.Some? {
          assert IsFirstNamed(cookies, RefreshCookieName, refresh.value);
          forall i | IsFirstNamed(cookies, RefreshCookieName, i) ensures i == refresh.value {
            FirstNamedUnique(cookies, RefreshCookieName, i, refresh.value);
          }
        }
      }
    }
  }

  lemma FirstNamedUnique(cookies: seq<Cookie>, name: string, i: int, j: int)
    requires IsFirstNamed(cookies, name, i) && IsFirstNamed(cookies, name, j)
    ensures i == j
  {
  }

  /** On success the token's identity and expiry are the payload's claims: `exp` seconds
      become `exp * 1000` milliseconds and a numeric user id is kept as it is. */
  lemma ExtractTokenClaims(cookies: seq<Cookie>, decode: PayloadDecoder, i: int, claims: Claims, uid: int, exp: int)
    requires IsFirstNamed(cookies, AuthCookieName, i)
    requires ParseJwtPayload(cookies[i].value, decode) == Success(claims)
    requires Lookup(claims, UserIdClaim) == Some(IntClaim(uid)) && Lookup(claims, ExpClaim) == Some(IntClaim(exp))
    ensures ExtractToken(cookies, decode).Success?
    ensures ExtractToken(cookies, decode).value.userId == Num(uid)
    ensures ExtractToken(cookies, decode).value.expiresAt == Num(exp * 1000)
    ensures ExtractToken(cookies, decode).value.accessToken == cookies[i].value
  {
    var auth := FindCookie(cookies, AuthCookieName);
    assert auth == Some(i as nat);
    ParseUserIdOfInt(uid);
  }

  /** A malformed access token fails the extraction with the parser's error: no partial token. */
  lemma ExtractTokenPropagatesJwtError(cookies: seq<Cookie>, decode: PayloadDecoder, i: int)
    requires IsFirstNamed(cookies, AuthCookieName, i)
    requires Count(cookies[i].value, '.') != 2
    ensures ExtractToken(cookies, decode) == Failure(InvalidJwtFormat)
  {
    var auth := FindCookie(cookies, AuthCookieName);
    assert auth == Some(i as nat);
    JwtFormatCheck(cookies[i].value, decode);
  }

  /** `login()` minus the browser automation: the browser outcome, then token extraction,
      then the log line that renders the expiry with `toISOString`, which throws for an
      expiry outside the `Date` range (NaN included). */
  function LoginOutcome(browser: BrowserResult, decode: PayloadDecoder): (r: Result<AuthToken, AuthError>)
    ensures browser.BrowserFailed? ==> r == Failure(LoginFailed(browser.reason))
    ensures r.Success? ==> ValidDate(r.value.expiresAt)
    ensures r.Failure? && r.error.InvalidTimeValue? ==> !ValidDate(r.error.token.expiresAt)
  {
    match browser
    case BrowserFailed(reason) => Failure(LoginFailed(reason))
    case Authenticated(cookies) =>
      match ExtractToken(cookies, decode)
      case Failure(e) => Failure(e)
      case Success(token) => if ValidDate(token.expiresAt) then Success(token) else Failure(InvalidTimeValue(token))
  }

  /** A login that got as far as extracting a token caches it, whether or not the log line
      after that throws; the token logged or cached is the extracted one. */
  lemma LoginOutcomeOfExtraction(cookies: seq<Cookie>, decode: PayloadDecoder)
    ensures var r := LoginOutcome(Authenticated(cookies), decode);
      var e := ExtractToken(cookies, decode);
      (e.Failure? ==> r == Failure(e.error))
      && (e.Success? && ValidDate(e.value.expiresAt) ==> r == Success(e.value))
      && (e.Success? && !ValidDate(e.value.expiresAt) ==> r == Failure(InvalidTimeValue(e.value)))
  {
  }

  /** A payload without an `exp` claim yields a token whose expiry is NaN, so the login
      that extracts it throws after caching it. */
  lemma MissingExpLoginThrows(cookies: seq<Cookie>, decode: PayloadDecoder, i: int, claims: Claims)
    requires IsFirstNamed(cookies, AuthCookieName, i)
    requires ParseJwtPayload(cookies[i].value, decode) == Success(claims)
    requires ExpClaim !in claims
    ensures var r := LoginOutcome(Authenticated(cookies), decode);
      r.Failure? && r.error.InvalidTimeValue? && r.error.token.expiresAt.NaN?
      && r.error.token.accessToken == cookies[i].value
  {
    var auth := FindCookie(cookies, AuthCookieName);
    assert auth == Some(i as nat);
    assert Lookup(claims, ExpClaim).None?;
  }

  /** The slot after `login()`: the extracted token when the login succeeded or threw only
      while logging it, else the slot as it was. */
  function SlotAfterLogin(slot: Option<AuthToken>, r: Result<AuthToken, AuthError>): (after: Option<AuthToken>)
    ensures r.Success? ==> after == Some(r.value)
    ensures r.Failure? && r.error.InvalidTimeValue? ==> after == Some(r.error.token)
    ensures r.Failure? && !r.error.InvalidTimeValue? ==> after == slot
  {
    match r
    case Success(token) => Some(token)
    case Failure(InvalidTimeValue(token)) => Some(token)
    case Failure(_) => slot
  }

  /** The module-level `cachedToken` slot. */
  class Session {
    var cachedToken: Option<AuthToken>

    constructor ()
      ensures cachedToken.None?
    {
      cachedToken := None;
    }

    /** `clearToken()`: afterwards `GetToken(cachedToken, now)` is None for every `now`. */
    method ClearToken()
      modifies this
      ensures cachedToken.None?
    {
      cachedToken := None;
    }

    /** `login()`: once a token is extracted it is cached, replacing any previous one, and
        only then is its expiry logged, which may still throw; a login that fails before the
        extraction completes leaves the slot as it was. */
    method Login(browser: BrowserResult, decode: PayloadDecoder) returns (r: Result<AuthToken, AuthError>)
      modifies this
      ensures r == LoginOutcome(browser, decode)
      ensures cachedToken == SlotAfterLogin(old(cachedToken), r)
    {
      if browser.BrowserFailed? {
        return Failure(LoginFailed(browser.reason));
      }
      var extracted := ExtractToken(browser.cookies, decode);
      if extracted.Failure? {
        return Failure(extracted.error);
      }
      var token := extracted.value;
      cachedToken := Some(token);
      if !ValidDate(token.expiresAt) {
        return Failure(InvalidTimeValue(token));
      }
      r := Success(token);
    }
  }
}
