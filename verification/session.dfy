// A browser session across the handlers: the cookies the login callback and
// logout set, kept by the browser (RFC 6265, section 5.3), what the session
// gate then decides, and whether the page's handler runs when the gate aborts
// the chain on its redirects.

module Session {
  import opened Wrappers
  import Handlers
  import Middleware
  import Auth
  import Config

  /** The browser's cookies for the service, by name (every cookie here has path "/"). */
  type CookieJar = map<string, string>

  /** A cookie with a negative max-age or an expiry in the past removes the stored one; any other replaces it. */
  function Store(jar: CookieJar, c: Handlers.SetCookie): (stored: CookieJar)
    ensures c.maxAge < 0 || c.expires == Handlers.ExpiredAtEpoch ==> stored == jar - {c.name}
    ensures c.maxAge >= 0 && c.expires != Handlers.ExpiredAtEpoch ==> stored == jar[c.name := c.value]
  {
    if c.maxAge < 0 || c.expires.ExpiredAtEpoch? then jar - {c.name} else jar[c.name := c.value]
  }

  /** The cookies of one response, stored in order. */
  function StoreAll(jar: CookieJar, cookies: seq<Handlers.SetCookie>): CookieJar
    decreases |cookies|
  {
    if |cookies| == 0 then jar else StoreAll(Store(jar, cookies[0]), cookies[1..])
  }

  function CookieValue(jar: CookieJar, name: string): Option<string>
  {
    if name in jar then Some(jar[name]) else None
  }

  /**
   * After logout the next protected request has no `jwt` cookie: the gate answers
   * with a redirect to /login, and with a gate that aborts on its redirects the
   * page's handler does not run.
   */
  lemma LoggedOutSessionIsSentToLogin(cfg: Config.Config, publicKey: Auth.RsaPublicKey, lib: Middleware.JwtLibrary, jar: CookieJar)
    requires "id_token" in jar
    ensures var response := Handlers.LogoutHandler(cfg, Some(jar["id_token"]));
      && CookieValue(StoreAll(jar, response.cookies), "jwt").None?
      && Middleware.JwtMiddleware(publicKey, lib, CookieValue(StoreAll(jar, response.cookies), "jwt"))
         == Middleware.Redirect(Middleware.StatusFound, "/login")
      && Middleware.PageHandler !in Middleware.RunChain(
           Middleware.ProtectedRoute(publicKey, lib, CookieValue(StoreAll(jar, response.cookies), "jwt")))
  {
    var response := Handlers.LogoutHandler(cfg, Some(jar["id_token"]));
    assert response.cookies[1..] == [];
    Middleware.PageHandlerRunsIffAuthentic(publicKey, lib, CookieValue(StoreAll(jar, response.cookies), "jwt"));
  }

  /**
   * A logout from a browser with no `id_token` cookie sets no cookie: the `jwt`
   * cookie survives, and the gate decides on the next protected request exactly as
   * it did before.
   */
  lemma LogoutWithoutIdTokenKeepsSession(cfg: Config.Config, publicKey: Auth.RsaPublicKey, lib: Middleware.JwtLibrary, jar: CookieJar)
    requires "id_token" !in jar
    ensures var response := Handlers.LogoutHandler(cfg, CookieValue(jar, "id_token"));
      && response.location == Some("/login")
      && StoreAll(jar, response.cookies) == jar
      && CookieValue(StoreAll(jar, response.cookies), "jwt") == CookieValue(jar, "jwt")
      && Middleware.JwtMiddleware(publicKey, lib, CookieValue(StoreAll(jar, response.cookies), "jwt"))
         == Middleware.JwtMiddleware(publicKey, lib, CookieValue(jar, "jwt"))
  {
  }

  /**
   * After a successful login callback the gate decides `Next` exactly when the
   * access token from the exchange is authentic, whatever cookies came before; with
   * a gate that aborts on its redirects, that is also exactly when the page's
   * handler runs.
   */
  lemma SignedInSessionUsesAccessToken(publicKey: Auth.RsaPublicKey, lib: Middleware.JwtLibrary, jar: CookieJar, token: Handlers.OAuthToken)
    ensures var response := Handlers.CallbackHandler(Success(token));
      && CookieValue(StoreAll(jar, response.cookies), "jwt") == Some(token.accessToken)
      && (Middleware.JwtMiddleware(publicKey, lib, CookieValue(StoreAll(jar, response.cookies), "jwt")) == Middleware.Next
          <==> Middleware.TokenAuthentic(lib, publicKey, token.accessToken))
      && (Middleware.PageHandler in Middleware.RunChain(
            Middleware.ProtectedRoute(publicKey, lib, CookieValue(StoreAll(jar, response.cookies), "jwt")))
          <==> Middleware.TokenAuthentic(lib, publicKey, token.accessToken))
  {
    var response := Handlers.CallbackHandler(Success(token));
    var afterJwt := Store(jar, response.cookies[0]);
    assert afterJwt["jwt"] == token.accessToken;
    if |response.cookies| == 2 {
      var afterId := Store(afterJwt, response.cookies[1]);
      assert response.cookies[1..][1..] == [];
      assert StoreAll(afterJwt, response.cookies[1..]) == StoreAll(afterId, []);
      assert response.cookies[1].name == "id_token";
      assert afterId["jwt"] == token.accessToken;
    } else {
      assert response.cookies[1..] == [];
    }
    Middleware.PageHandlerRunsIffAuthentic(publicKey, lib, Some(token.accessToken));
  }
}
