# cppgo: verified model of the decision core

`cppgo` is a small Go web service. It stands in front of a phone-number
directory and a call-log table, and it answers a CAMARA-style
call-notification webhook. Users sign in through Keycloak (OpenID Connect). At
startup the service fetches the realm's signing key. A session gate then checks
the `jwt` cookie on every protected page.

This Dafny project models the parts of the service that make decisions or
encode data:

- **Signing-key selection** (`Auth`): the first `RS256` key of the key set is
  chosen, N and E are decoded from unpadded base64url, and they are read as
  big-endian integers. This module also builds the OAuth2 client settings and
  the OpenID Connect URLs.
- **Session gate** (`Middleware`): the gate decides one of three things: a
  redirect to `/login`, a redirect to `/logout`, or `c.Next()`. The JWT
  library's control flow is kept. Decoding and RSA verification are
  uninterpreted functions. gin's handler chain is modelled too, so the model
  can say whether the protected page's handler runs after the gate.
- **Handlers** (`Handlers`):
  - the webhook's ordered structural checks, its caller lookup and its
    call-log append, on a `CallDirectory` object that holds the two tables;
  - the page-size clamp of the call-log listing and its formatting loop;
  - the cookies and redirects of the login callback and of logout;
  - the display-name merge of an update.
- **Allow-lists and error records** (`Util`).
- **Configuration** (`Config`): the ten required variables, the empty-value
  check and the PostgreSQL DSN.

The modules below model the standard-library behaviour those parts depend on.
Each follows Go's own rules:

- `Base64Url`: `encoding/base64`'s `RawURLEncoding`, as in section 5 of RFC 4648.
- `Bytes`: `math/big`'s `SetBytes` and `Int64`.
- `Strconv`: `Atoi`, including the order in which it reports its errors.
- `UrlQuery`: `net/url`'s `QueryEscape`.
- `Utf8`: UTF-8 encoding, as in section 3 of RFC 3629.

Some modelled functions are not called by the service. The model's own lemmas
use them to read values back:

- `Strings.Split` and `Strings.Cut` read the DSN and the logout query back.
- `Strconv.Itoa` writes the page sizes that `Handlers.DefaultSizeParses`,
  `Handlers.PageSizeOfDecimal` and `Handlers.PageSizeOutOfRange` read.
- `UrlQuery.QueryUnescape` and `UrlQuery.QueryPairs` (the reading of a query)
  read back the logout query in `Handlers.LogoutQueryReadsBack`.

`Session` follows one browser across the handlers, storing cookies as section
5.3 of RFC 6265 says. It proves that the gate answers a logged-out browser with
a redirect to `/login` when it held an `id_token` cookie; without one, logout leaves the
`jwt` cookie and the gate's decision as they were. It also proves that, after login, the gate checks
exactly the access token from the code exchange. Both lemmas also say whether
the page's handler runs once the gate aborts on its redirects.

Behaviour of the code worth knowing when reading the contracts:

- **Claims are validated.** The JWT library (jwt-go v3) validates `exp`, `iat`
  and `nbf` on every parse. An expired token therefore goes to `/logout`
  (`Middleware.InvalidClaimsLogOut`). The claims' verdict at request time is an
  input field of the decoded token.
- **The gate's redirects do not stop the page.** The gate returns after
  `c.Redirect` without calling `c.Abort()`. gin then runs the protected page's
  handler anyway, after the 302 is written (`Middleware.UnauthenticatedRequestReachesHandler`).
  The contracts about the gate speak of its decision. Whether the handler runs
  is stated for a gate that aborts on its redirects (`Middleware.PageHandlerRunsIffAuthentic`);
  see "## Findings".
- **Ten variables are required.** Configuration needs the Keycloak, client and
  host settings, the four `POSTGRES_*` variables and `GRAFANA_URL`.
- **A bad `eventDescription` panics.** The webhook panics when
  `eventDescription` is not an object, because the type assertion is unchecked.
  This is the `Crashed`/`Panic` outcome. The recovery middleware answers it
  with 500.
- **`checkEnvVars` can return the empty key.** It returns "" when nothing is
  empty. It may also return "" when the empty key itself has an empty value,
  because when other keys are empty too, Go's map order decides which one it
  reports. This cannot happen
  from `LoadConfig`, whose keys are the ten names. The contract states it
  exactly.
- **The exponent narrows to 64 bits.** It is narrowed with `Int64()`, which
  keeps the low 64 bits as a two's-complement value. x509 then refuses the key
  when that value, or the modulus, is not positive (`Auth.GetPublicKey`).

Source paths below are relative to the repository root.

## Model

| member | source | states |
|---|---|---|
| Auth.FirstRS256KeyIsFirst | cppgo-keycloak-v2/cppgo/auth/auth.go:73-83 | the selected key is RS256 and every earlier key is not; no key is selected exactly when none is RS256 |
| Auth.SelectKey | cppgo-keycloak-v2/cppgo/auth/auth.go:73-79 | the scan loop with its early break returns exactly the first RS256 key |
| Auth.FetchKeycloakPublicKey | cppgo-keycloak-v2/cppgo/auth/auth.go:69-99 | NoPublicKeys iff the set is empty; NoRS256Key iff it is non-empty with no RS256 key; MalformedModulus iff the first RS256 key's N fails to decode (before E is looked at); MalformedExponent iff N decodes and E does not; success iff the first RS256 key's N and E both decode (a later RS256 key is never tried), and then the modulus is the big-endian value of N's bytes and the exponent the 64-bit narrowing of E's |
| Auth.PkixRoundTrip | cppgo-keycloak-v2/cppgo/auth/auth.go:101-130 | x509 accepts the key iff modulus and exponent are both positive and then gives it back unchanged; a zero modulus is refused first, then a non-positive exponent |
| Auth.GetPublicKey | cppgo-keycloak-v2/cppgo/auth/auth.go:47-53 | the service gets a key iff the first RS256 key's N and E decode (a later RS256 key is never tried), N reads as a positive number and E's 64-bit narrowing is positive; the key is then (N, E) as decoded; an empty `n` with a decodable `e` is refused as a non-positive modulus; a fetch failure (no keys, no RS256 key, an `n` or `e` that does not decode) is passed on as that error |
| Auth.UsualExponent | cppgo-keycloak-v2/cppgo/auth/auth.go:90-98 | the usual published exponent "AQAB" becomes 65537 |
| Auth.PublishedNumberDecodes | cppgo-keycloak-v2/cppgo/auth/auth.go:85-97 | any number published as shortest big-endian bytes in unpadded base64url decodes back to itself |
| Auth.PublishedExponentDecodes | cppgo-keycloak-v2/cppgo/auth/auth.go:90-98 | an exponent below 2^63 survives decoding and the narrowing to 64 bits |
| Auth.CertsURL | cppgo-keycloak-v2/cppgo/auth/auth.go:56 | the key set URL is the realm's OpenID Connect `certs` endpoint under the Keycloak base URL |
| Auth.SetupOAuth2Config | cppgo-keycloak-v2/cppgo/auth/auth.go:34-45 | client id and secret copied; redirect URL is host + "/callback"; scopes exactly openid, profile, email; auth and token URLs are the realm's `auth` and `token` endpoints |
| Auth.OpenIdConnectURLInjective | cppgo-keycloak-v2/cppgo/auth/auth.go:41-42 | endpoints of one realm differ exactly when their names differ, so the auth, token and certs URLs are distinct |
| Bytes.BigEndianOfMinimalBytes | cppgo-keycloak-v2/cppgo/auth/auth.go:94-97 | reading the shortest big-endian bytes of n gives n |
| Bytes.MinimalBytesOfBigEndian | cppgo-keycloak-v2/cppgo/auth/auth.go:94-97 | bytes without a leading zero are the shortest encoding of their value |
| Bytes.BigEndianLeadingZero | cppgo-keycloak-v2/cppgo/auth/auth.go:94-97 | a leading zero byte does not change the value |
| Bytes.BigEndianBound | cppgo-keycloak-v2/cppgo/auth/auth.go:94-97 | k bytes hold a value below 256^k |
| Bytes.Int64 | cppgo-keycloak-v2/cppgo/auth/auth.go:98 | the result is a signed 64-bit value, equal to the input below 2^63 and congruent to it modulo 2^64 |
| Base64Url.AlphabetAt | cppgo-keycloak-v2/cppgo/auth/auth.go:85 | the alphabet has 64 characters: 'A'-'Z' for 0-25, 'a'-'z' for 26-51, '0'-'9' for 52-61, '-' for 62 and '_' for 63, the URL- and filename-safe table of RFC 4648, section 5 |
| Base64Url.SextetOf | cppgo-keycloak-v2/cppgo/auth/auth.go:85 | a character maps to the index at which it stands in the alphabet, and characters outside the alphabet map to nothing |
| Base64Url.EncodeToString | cppgo-keycloak-v2/cppgo/auth/auth.go:85 | unpadded encoding: ceil(8n/6) characters, all from the alphabet |
| Base64Url.StripLineBreaks | cppgo-keycloak-v2/cppgo/auth/auth.go:85 | the decoder's input without CR and LF: no line break remains, every other character does, and text without line breaks is unchanged |
| Base64Url.StripLineBreaksAppend | cppgo-keycloak-v2/cppgo/auth/auth.go:85 | stripping works piece by piece, so the kept characters keep their order and their number |
| Base64Url.StripLineBreaksChar | cppgo-keycloak-v2/cppgo/auth/auth.go:85 | a single character is dropped exactly when it is CR or LF |
| Base64Url.Sextets | cppgo-keycloak-v2/cppgo/auth/auth.go:85 | defined exactly when every character is in the alphabet, mapping each to its index |
| Base64Url.DecodeSextets | cppgo-keycloak-v2/cppgo/auth/auth.go:85 | fails exactly on a final group of one character; yields 3n/4 bytes |
| Base64Url.DecodeString | cppgo-keycloak-v2/cppgo/auth/auth.go:85-93 | succeeds iff every character other than CR/LF is in the alphabet and the remaining length is not 1 mod 4; yields 3/4 of that length in bytes |
| Base64Url.DecodeEncode | cppgo-keycloak-v2/cppgo/auth/auth.go:85-93 | decoding the unpadded encoding of any bytes gives those bytes |
| Base64Url.DecodeIgnoresTrailingBits | cppgo-keycloak-v2/cppgo/auth/auth.go:85 | unused low bits of the last character are ignored ("AB" and "AA" both decode to one zero byte) |
| Base64Url.DecodeRefusesShortQuantumAndPadding | cppgo-keycloak-v2/cppgo/auth/auth.go:85 | a lone final character and '=' padding are corrupt input |
| Base64Url.DecodeUsualExponent | cppgo-keycloak-v2/cppgo/auth/auth.go:90 | "AQAB" decodes to the bytes 1, 0, 1 |
| Middleware.RsaKeyFunc | cppgo-keycloak-v2/cppgo/auth/middleware.go:20-25 | the key callback hands out the captured key to RSA-signed tokens and refuses every other method |
| Middleware.Parse | cppgo-keycloak-v2/cppgo/auth/middleware.go:20-27 | valid exactly when there is no error; the signature is checked exactly when the token decodes and the callback yields a key |
| Middleware.JwtMiddleware | cppgo-keycloak-v2/cppgo/auth/middleware.go:12-34 | no cookie gives a 302 to /login; with a cookie never /login; the decision is `Next` (`c.Next()`) iff the token decodes, is RSA-signed, its claims hold and the signature verifies with the captured key; every redirect is a 302 to /login or /logout |
| Middleware.RunChain | cppgo-keycloak-v2/cppgo/main.go:41-49 | the handlers run for a route are a prefix of its chain: all of them unless one aborts, which is then the last to run, and none before it aborted |
| Middleware.UnauthenticatedRequestReachesHandler | cppgo-keycloak-v2/cppgo/auth/middleware.go:14-30 | as written, the page's handler runs for every request; without a `jwt` cookie the gate's 302 to /login comes first and the handler still runs |
| Middleware.PageHandlerRunsIffAuthentic | cppgo-keycloak-v2/cppgo/auth/middleware.go:12-34 | with a gate that aborts on its redirects, the page's handler runs iff the cookie holds a token that decodes, is RSA-signed, has valid claims and verifies with the captured key |
| Middleware.NonRsaTokenLogsOut | cppgo-keycloak-v2/cppgo/auth/middleware.go:20-30 | a token signed with any non-RSA method is unverifiable and goes to /logout, whatever the verifier would say |
| Middleware.InvalidClaimsLogOut | cppgo-keycloak-v2/cppgo/auth/middleware.go:27-30 | a token whose claims fail goes to /logout |
| Middleware.VerifierSeesCapturedKey | cppgo-keycloak-v2/cppgo/auth/middleware.go:12-25 | the signature is verified only with the key captured when the gate was built, exactly for decodable RSA tokens |
| Middleware.DecisionDependsOnCapturedKeyOnly | cppgo-keycloak-v2/cppgo/auth/middleware.go:12-32 | two verifiers that agree on the captured key make the gate decide alike |
| Util.StringInSlice | cppgo-keycloak-v2/cppgo/util/utils.go:22-29 | true iff some element equals the string exactly (so false on the empty list) |
| Util.IsValidNetworkAndService | cppgo-keycloak-v2/cppgo/util/utils.go:18-20 | true iff the network is one of the six listed and the service one of the five listed |
| Util.AllowListIsCaseSensitive | cppgo-keycloak-v2/cppgo/util/utils.go:3-4 | "antiSpam" is allowed and "AntiSpam" is not |
| Util.CustomErrorResponse | cppgo-keycloak-v2/cppgo/util/utils.go:6-12 | the record holds exactly the keys status, title and detail, which read back as the given values, and the returned code is the status |
| Util.Custom502Error | cppgo-keycloak-v2/cppgo/util/utils.go:14-16 | status 502, title "Generic Error", detail "Unexpected status code 502" |
| Config.Getenv | cppgo-keycloak-v2/cppgo/config/config.go:20-31 | an unset variable reads as "" |
| Config.EnvVars | cppgo-keycloak-v2/cppgo/config/config.go:20-31 | the table has exactly the ten required names, each with its environment value |
| Config.CheckEnvVars | cppgo-keycloak-v2/cppgo/config/config.go:51-58 | "" when no value is empty; otherwise some key whose value is empty, whichever the map order reaches first |
| Config.LoadConfig | cppgo-keycloak-v2/cppgo/config/config.go:19-49 | fails iff one of the ten variables is empty, naming such a variable; otherwise each field is its variable's value and the DSN is built from the four POSTGRES_* values |
| Config.ParseDatabaseDSN | cppgo-keycloak-v2/cppgo/config/config.go:43-44 | for space-free values the DSN reads back as host, user, password, dbname and sslmode=disable, in that order |
| Config.SpaceInPasswordSplitsDSN | cppgo-keycloak-v2/cppgo/config/config.go:43-44 | values are not quoted: a password with a space reads back as six fields, the password cut at the space |
| Strconv.Atoi | cppgo-keycloak-v2/cppgo/handler/handlers.go:215 | succeeds iff the text is an optionally signed run of digits whose value lies in the signed 64-bit range, with that value; a syntax error only for text that is not such a run, and for every such text whose leading digits stay within 2^64 - 1; a range error whenever the digits after the sign start with a run past 2^64 - 1 |
| Strconv.AtoiItoa | cppgo-keycloak-v2/cppgo/handler/handlers.go:215 | reading back the decimal text of any 64-bit integer gives that integer |
| Strconv.RangeErrorBeforeSyntaxError | cppgo-keycloak-v2/cppgo/handler/handlers.go:215 | after no sign, '+' or '-', digits whose value passes 2^64 - 1 give a range error whatever follows them, as the scan stops at the overflowing digit |
| UrlQuery.QueryEscape | cppgo-keycloak-v2/cppgo/handler/handlers.go:79-82 | output holds only unreserved characters, '+', '%' and hex digits, and never '&', '=', '?', '#' or a space |
| UrlQuery.QueryUnescapeEscape | cppgo-keycloak-v2/cppgo/handler/handlers.go:79-82 | unescaping an escaped text gives exactly its UTF-8 bytes |
| UrlQuery.UnescapeEscape | cppgo-keycloak-v2/cppgo/handler/handlers.go:79-82 | unescaping escaped bytes gives those bytes |
| Handlers.BindObject | cppgo-keycloak-v2/cppgo/handler/handlers.go:282-286 | a body binds iff it is a JSON object or null |
| Handlers.CheckNotification | cppgo-keycloak-v2/cppgo/handler/handlers.go:284-310 | checks in order: a body that does not bind, then a network or service not allowed, then a callEventNotification that is not an object, then a callEvent that is not a non-empty string, then a missing callingParticipant, then a missing calledParticipant, each rejected with its own detail once all earlier checks pass; it crashes iff callEventNotification is an object whose eventDescription is not; acceptance means all checks passed, with the notification's own participants |
| Handlers.CallDirectory.MockCPPResponse | cppgo-keycloak-v2/cppgo/handler/handlers.go:281-328 | each rejection is a 400 with its own detail, a crash panics, an unknown caller is a 404, a failed insert a 502, and none of these changes the call log; otherwise exactly one record (caller's id, called number) is appended and the reply is "Continue" with the caller's display name and 200; every call log keeps referring to a registered number |
| Handlers.PageSize | cppgo-keycloak-v2/cppgo/handler/handlers.go:215-218 | always in [1, 1000]; the parsed value when it parses and lies in range; 100 otherwise |
| Handlers.ResultLimit | cppgo-keycloak-v2/cppgo/handler/handlers.go:180-220 | in [1, 1000]; 100 without a filter or without a size; with a filter and a size, the clamped page size of that size |
| Handlers.DefaultSizeParses | cppgo-keycloak-v2/cppgo/handler/handlers.go:180 | the default text "100" gives the default page size |
| Handlers.PageSizeOfDecimal | cppgo-keycloak-v2/cppgo/handler/handlers.go:215-218 | every size from 1 to 1000 written in decimal is taken as is |
| Handlers.PageSizeOutOfRange | cppgo-keycloak-v2/cppgo/handler/handlers.go:215-218 | any 64-bit size outside [1, 1000] falls back to 100 |
| Handlers.FormatCallLogs | cppgo-keycloak-v2/cppgo/handler/handlers.go:262-270 | a new slice with one formatted entry per row, in row order, with the text fields copied and the timestamp formatted |
| Handlers.CallbackHandler | cppgo-keycloak-v2/cppgo/handler/handlers.go:38-62 | a failed exchange is a 500 with no cookie; otherwise `jwt` holds the access token, `id_token` is set iff the extra is a string, and the redirect goes to /list |
| Handlers.LogoutHandler | cppgo-keycloak-v2/cppgo/handler/handlers.go:64-84 | no `id_token` cookie gives a 302 to /login that clears nothing; otherwise `jwt` is cleared (empty, MaxAge -1, HttpOnly) and the redirect goes to the end-session URL |
| Handlers.LogoutURLParts | cppgo-keycloak-v2/cppgo/handler/handlers.go:79-82 | the end-session URL is the realm's `logout` endpoint followed by '?' and the logout query |
| Handlers.LogoutQueryReadsBack | cppgo-keycloak-v2/cppgo/handler/handlers.go:79-82 | the query reads back as exactly id_token_hint = the token and post_logout_redirect_uri = host + "/login", byte for byte |
| Handlers.MergeDisplayName | cppgo-keycloak-v2/cppgo/handler/handlers.go:139-141 | in the merged record, the display name is replaced only by a non-empty submission and id and number are kept (what `Updates` then stores is not modelled) |
| Handlers.MergeDisplayNameIdempotent | cppgo-keycloak-v2/cppgo/handler/handlers.go:139-141 | merging the same submission twice equals merging it once |
| Session.LoggedOutSessionIsSentToLogin | cppgo-keycloak-v2/cppgo/handler/handlers.go:71-78 | after a logout from a browser holding an `id_token` cookie, the browser holds no `jwt`, the gate decides a 302 to /login, and a gate that aborts on its redirects keeps the page's handler from running |
| Session.LogoutWithoutIdTokenKeepsSession | cppgo-keycloak-v2/cppgo/handler/handlers.go:65-69 | a logout from a browser with no `id_token` cookie changes no cookie, so the `jwt` cookie and the gate's decision on it are as before |
| Session.SignedInSessionUsesAccessToken | cppgo-keycloak-v2/cppgo/handler/handlers.go:46-61 | after a successful callback the browser's `jwt` is the access token; the gate decides `Next`, and with a gate that aborts on its redirects the page's handler runs, iff that token is authentic |

## Left out

- The HTTP fetch of the key set, with its timeout, and the JSON decoding of the response (`auth.go` 57-67). These are network I/O and a foreign parser; the model starts from the decoded list of keys.
- The DER and PEM encoding and decoding of the key (`auth.go` 101-130) are not modelled byte by byte. `Auth.PkixRoundTrip` keeps their effect: x509's parser refuses a modulus that is not positive and then an exponent that is not positive, and otherwise hands back the key unchanged. No other failure of the PEM wrapping or of the type assertion is modelled.
- Token decoding and RSA signature verification in jwt-go. They are cryptography in a library; `JwtLibrary` keeps them uninterpreted. The claims check against the clock is an input flag.
- `Middleware.JwtMiddleware`: its input is the cookie value gin returns. gin's query-unescaping of cookie values is not modelled.
- The OAuth2 code exchange, `AuthCodeURL` and `LoginHandler`. These are a network call and a library URL builder; the exchange's outcome is an input of `CallbackHandler`.
- Cookie expiry times are relative. `ExpiresIn(24)` stands for now + 24h and `ExpiredAtEpoch` for the Unix epoch. The clock is not modelled.
- gorm/SQL behaviour is not modelled:
  - the listing's query (join, phone filter, date range, ordering, limit);
  - `ListHandler`, `AddHandler`, `EditHandler` and `DeleteHandler`;
  - `LastHourCallsHandler` and AutoMigrate;
  - `Updates` after the display-name merge.
  Only the merge, the page-size clamp and the formatting loop are modelled.
- Date parsing with layouts and timestamp formatting. The row timestamp is an integer and the formatter is a parameter of `FormatCallLogs`.
- `Handlers.CallDirectory.MockCPPResponse` covers only two database outcomes:
  - a caller lookup fails only because the number is not registered, although a database error would also give 404;
  - the insert's failure is the `createFails` input.
  Ids and timestamps assigned by the database are not modelled.
- JSON numbers are integers. Go decodes them as float64, but the webhook only ever asks whether a member is a string or an object.
- What the protected pages' handlers do when they run after the gate's redirect (their database effects and the output written after the 302). The model records only that they run (`Middleware.RunChain`).
- HTML rendering, gin routing beyond the handler chain of a protected route, static files, logging and process startup (`main.go`). The environment is a map parameter of `LoadConfig` and `log.Fatalf` is its `Failure` result.
- `Base64Url.DecodeString`: Go's error carries the offset of the bad byte; the model has a single `CorruptInput` error.
- `Strconv.Atoi`: Go's error records the function and the input; the model keeps only the kind, syntax or range.
- `UrlQuery.QueryPairs` reads only well-formed queries. `url.ParseQuery`'s rejection of ';' and its skipping of empty parts are not modelled; the logout query has neither.
- `Config.ParseDatabaseDSN` and `Config.SpaceInPasswordSplitsDSN` read the DSN the simple way, splitting at spaces and cutting at '='. The PostgreSQL driver's own parser (which accepts quoted values) is not modelled.
- `Session` keeps cookies by name only. Domains, paths and expiry times beyond "already expired" are not modelled. Cookie values are stored and read back as they are. `http.SetCookie` drops bytes that are not allowed in a cookie value, and gin query-unescapes the value it reads. `Session.SignedInSessionUsesAccessToken` therefore holds for tokens these steps leave unchanged, such as compact JWTs, which use only base64url characters and '.'.

## Findings

| source | as written | input that shows it | evidently intended | confidence | as-written member | corrected member |
|---|---|---|---|---|---|---|
| cppgo-keycloak-v2/cppgo/auth/middleware.go:16-17 | the gate redirects to /login and returns without `c.Abort()`, so gin runs the page's handler registered after it (main.go:41-49); the same holds for the redirect to /logout at lines 28-29 | `GET /delete/7` with no `jwt` cookie: the 302 to /login is written and `DeleteHandler` still runs | redirect and then `c.Abort()`, so the page's handler runs only for an authentic token | high; not executed | Middleware.UnauthenticatedRequestReachesHandler | Middleware.PageHandlerRunsIffAuthentic |
