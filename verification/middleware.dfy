// The session gate in front of the protected pages (auth/middleware.go).
//
// Token parsing and signature checking belong to the JWT library; the model
// keeps the library's control flow (parse, ask the key callback, validate the
// claims, verify the signature) and leaves decoding and cryptography to two
// uninterpreted functions supplied as a JwtLibrary value.

module Middleware {
  import opened Wrappers
  import Auth

  /** The signing-method families the JWT library knows, by the type of its method object. */
  datatype SigningMethod =
    | RSA(hashBits: nat)      // RS256, RS384, RS512
    | RSAPSS(hashBits: nat)   // PS256, PS384, PS512: a type of its own, not an RSA method
    | ECDSA(hashBits: nat)
    | HMAC(hashBits: nat)
    | Unsigned                // alg "none"

  /**
   * A token the library could split and decode: its method, the two signed parts
   * joined by '.', the signature, and whether its registered claims (exp, iat,
   * nbf) hold at the time of the request.
   */
  datatype UnverifiedToken = UnverifiedToken(
    alg: SigningMethod,
    signingInput: string,
    signature: string,
    claimsValid: bool)

  /** The library functions the gate relies on, left uninterpreted. */
  datatype JwtLibrary = JwtLibrary(
    parseUnverified: string -> Option<UnverifiedToken>,
    verify: (SigningMethod, string, string, Auth.RsaPublicKey) -> bool)

  datatype ParseError = Malformed | Unverifiable(reason: string) | Invalid(claims: bool, signature: bool)

  /** What parsing yields: validity, the error if any, and the key the signature was checked with. */
  datatype ParsedToken = ParsedToken(valid: bool, err: Option<ParseError>, verifiedWith: Option<Auth.RsaPublicKey>)

  type KeyFunc = UnverifiedToken -> Result<Auth.RsaPublicKey, string>

  /** The key callback built by the gate: only RSA-signed tokens get the captured key. */
  function RsaKeyFunc(publicKey: Auth.RsaPublicKey): (f: KeyFunc)
    ensures forall t :: f(t) == if t.alg.RSA? then Success(publicKey) else Failure("unexpected signing method")
  {
    (t: UnverifiedToken) => if t.alg.RSA? then Success(publicKey) else Failure("unexpected signing method")
  }

  /**
   * Parsing with a key callback, in the library's order: a token that does not
   * decode is malformed; a callback error makes it unverifiable; otherwise the
   * claims are validated and the signature verified with the returned key, and the
   * token is valid when both succeed.
   */
  function Parse(lib: JwtLibrary, tokenString: string, keyFunc: KeyFunc): (p: ParsedToken)
    ensures p.valid <==> p.err.None?
    ensures p.verifiedWith.Some? <==>
      lib.parseUnverified(tokenString).Some? && keyFunc(lib.parseUnverified(tokenString).value).Success?
  {
    match lib.parseUnverified(tokenString)
    case None => ParsedToken(false, Some(Malformed), None)
    case Some(token) =>
      match keyFunc(token)
      case Failure(reason) => ParsedToken(false, Some(Unverifiable(reason)), None)
      case Success(key) =>
        var signatureOk := lib.verify(token.alg, token.signingInput, token.signature, key);
        if token.claimsValid && signatureOk then ParsedToken(true, None, Some(key))
        else ParsedToken(false, Some(Invalid(!token.claimsValid, !signatureOk)), Some(key))
  }

  datatype Decision = Redirect(status: int, location: string) | Next

  const StatusFound := 302

  /**
   * A token is authentic for a key when it decodes, is signed with an RSA method,
   * its claims hold, and its signature verifies with that key.
   */
  predicate TokenAuthentic(lib: JwtLibrary, publicKey: Auth.RsaPublicKey, tokenString: string)
  {
    && lib.parseUnverified(tokenString).Some?
    && var token := lib.parseUnverified(tokenString).value;
    && token.alg.RSA?
    && token.claimsValid
    && lib.verify(token.alg, token.signingInput, token.signature, publicKey)
  }

  /**
   * The gate's decision for one request, given the value of its `jwt` cookie (None
   * when the request has none): no cookie answers with a redirect to /login, a token
   * that is not accepted with a redirect to /logout, and an accepted token calls
   * `c.Next()`. Whether the page's handler then runs is up to the chain; see
   * `RunChain` below.
   */
  function JwtMiddleware(publicKey: Auth.RsaPublicKey, lib: JwtLibrary, jwtCookie: Option<string>): (d: Decision)
    ensures jwtCookie.None? ==> d == Redirect(StatusFound, "/login")
    ensures jwtCookie.Some? ==> d != Redirect(StatusFound, "/login")
    ensures d == Next <==> jwtCookie.Some? && TokenAuthentic(lib, publicKey, jwtCookie.value)
    ensures d.Redirect? ==> d.status == StatusFound && (d.location == "/login" || d.location == "/logout")
  {
    match jwtCookie
    case None => Redirect(StatusFound, "/login")
    case Some(cookie) =>
      var token := Parse(lib, cookie, RsaKeyFunc(publicKey));
      if token.err.Some? || !token.valid then Redirect(StatusFound, "/logout")
      else Next
  }

  /** A token not signed with an RSA method is sent to /logout whatever the verifier would say. */
  lemma NonRsaTokenLogsOut(publicKey: Auth.RsaPublicKey, lib: JwtLibrary, cookie: string)
    requires lib.parseUnverified(cookie).Some? && !lib.parseUnverified(cookie).value.alg.RSA?
    ensures JwtMiddleware(publicKey, lib, Some(cookie)) == Redirect(StatusFound, "/logout")
    ensures Parse(lib, cookie, RsaKeyFunc(publicKey)).err == Some(Unverifiable("unexpected signing method"))
  {
  }

  /** A decodable token whose claims do not hold (expired, say) is sent to /logout even with a good signature. */
  lemma InvalidClaimsLogOut(publicKey: Auth.RsaPublicKey, lib: JwtLibrary, cookie: string)
    requires lib.parseUnverified(cookie).Some? && !lib.parseUnverified(cookie).value.claimsValid
    ensures JwtMiddleware(publicKey, lib, Some(cookie)) == Redirect(StatusFound, "/logout")
  {
  }

  /**
   * The signature is only ever checked with the key captured when the gate was
   * built, and it is checked exactly for decodable RSA-signed tokens.
   */
  lemma VerifierSeesCapturedKey(publicKey: Auth.RsaPublicKey, lib: JwtLibrary, cookie: string)
    ensures var p := Parse(lib, cookie, RsaKeyFunc(publicKey));
      && (p.verifiedWith.Some? ==> p.verifiedWith == Some(publicKey))
      && (p.verifiedWith.Some? <==> lib.parseUnverified(cookie).Some? && lib.parseUnverified(cookie).value.alg.RSA?)
  {
  }

  /** Two libraries that agree on decoding and on verification with the captured key decide alike. */
  lemma DecisionDependsOnCapturedKeyOnly(publicKey: Auth.RsaPublicKey, lib1: JwtLibrary, lib2: JwtLibrary, cookie: string)
    requires lib1.parseUnverified(cookie) == lib2.parseUnverified(cookie)
    requires forall m, input, sig :: lib1.verify(m, input, sig, publicKey) == lib2.verify(m, input, sig, publicKey)
    ensures JwtMiddleware(publicKey, lib1, Some(cookie)) == JwtMiddleware(publicKey, lib2, Some(cookie))
  {
    assert TokenAuthentic(lib1, publicKey, cookie) == TokenAuthentic(lib2, publicKey, cookie);
  }

  // ---------------------------------------------------------------- the handler chain of a protected route

  /** One handler of a gin route's chain, as far as the chain cares: its name and whether it calls `c.Abort()`. */
  datatype Link = Link(name: string, aborts: bool)

  /**
   * The handlers gin's `Context.Next` runs for a chain, in order: each one in turn,
   * and none after one that aborted. A handler that returns without aborting lets
   * the next one run, whatever it wrote to the response.
   */
  function RunChain(chain: seq<Link>): (ran: seq<Link>)
    ensures ran <= chain
    ensures ran == chain || (|ran| > 0 && ran[|ran| - 1].aborts)
    ensures forall i :: 0 <= i < |ran| - 1 ==> !ran[i].aborts
  {
    if |chain| == 0 then []
    else if chain[0].aborts then [chain[0]]
    else [chain[0]] + RunChain(chain[1..])
  }

  /** The page's handler that follows the gate on every protected route; no page handler aborts. */
  const PageHandler := Link("handler", false)

  /**
   * A protected route as registered, for one request: the gate as written returns
   * after its redirect without aborting, so its link does not abort whatever it decides.
   */
  function ProtectedRouteAsWritten(publicKey: Auth.RsaPublicKey, lib: JwtLibrary, jwtCookie: Option<string>): seq<Link>
  {
    [Link("JwtMiddleware", false), PageHandler]
  }

  /** A protected route whose gate aborts the chain whenever it redirects. */
  function ProtectedRoute(publicKey: Auth.RsaPublicKey, lib: JwtLibrary, jwtCookie: Option<string>): seq<Link>
  {
    [Link("JwtMiddleware", JwtMiddleware(publicKey, lib, jwtCookie).Redirect?), PageHandler]
  }

  /**
   * As written, the page's handler runs for every request, after the gate's
   * redirect too: a request with no `jwt` cookie is answered with a redirect to
   * /login and still reaches the handler.
   */
  lemma {:induction false} UnauthenticatedRequestReachesHandler(publicKey: Auth.RsaPublicKey, lib: JwtLibrary, jwtCookie: Option<string>)
    ensures PageHandler in RunChain(ProtectedRouteAsWritten(publicKey, lib, jwtCookie))
    ensures jwtCookie.None? ==> JwtMiddleware(publicKey, lib, jwtCookie) == Redirect(StatusFound, "/login")
  {
    var chain := ProtectedRouteAsWritten(publicKey, lib, jwtCookie);
    assert RunChain(chain[1..][1..]) == [];
    assert RunChain(chain) == chain;
  }

  /** With the gate aborting on its redirects, the page's handler runs exactly for an authentic token. */
  lemma {:induction false} PageHandlerRunsIffAuthentic(publicKey: Auth.RsaPublicKey, lib: JwtLibrary, jwtCookie: Option<string>)
    ensures PageHandler in RunChain(ProtectedRoute(publicKey, lib, jwtCookie))
      <==> jwtCookie.Some? && TokenAuthentic(lib, publicKey, jwtCookie.value)
  {
    var chain := ProtectedRoute(publicKey, lib, jwtCookie);
    if chain[0].aborts {
      assert RunChain(chain) == [chain[0]];
    } else {
      assert RunChain(chain[1..][1..]) == [];
      assert RunChain(chain) == chain;
    }
  }
}
