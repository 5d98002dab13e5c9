/**
 * The first step of linking a Discord account
 * (discord/controller/api/LinkDiscordController.java, begin): the app's JWT
 * arrives as an RFC 6750 section 2.1 bearer credential, is checked, and is
 * parked for five minutes in an HttpOnly cookie before the browser is sent
 * to the OAuth2 authorization endpoint.
 */
module LinkDiscord {
  import opened Wrappers
  import JavaText

  const BearerPrefix: string := "Bearer "
  const LinkCookieName: string := "APP_LINK_JWT"
  const LinkCookieMaxAge: int := 5 * 60
  const DiscordAuthorizationUrl: string := "/oauth2/authorization/discord"

  /** A jakarta.servlet Cookie as begin configures it. */
  datatype ServletCookie = ServletCookie(name: string, value: string, httpOnly: bool, secure: bool, path: string, maxAge: int)

  datatype BeginResponse =
    | BadRequest(body: string)        // 400, "Missing Authorization Bearer token"
    | Redirect(redirectUrl: string)   // 200 with {"redirectUrl": ...}
    | TokenRejected                   // the JWT check threw; the exception leaves the controller

  /** The servlet response the controller adds cookies to. */
  class HttpServletResponse {
    var cookies: seq<ServletCookie>

    constructor()
      ensures cookies == []
    {
      cookies := [];
    }
  }

  predicate StartsWith(s: string, prefix: string)
  {
    |prefix| <= |s| && s[..|prefix|] == prefix
  }

  /**
   * The credential of an Authorization header: present only when the header
   * has text and starts with "Bearer " (case and the single space matter),
   * and then it is everything after those 7 characters.
   */
  function BearerToken(authHeader: string): (token: Option<string>)
    ensures token.Some? <==> JavaText.HasText(authHeader) && StartsWith(authHeader, BearerPrefix)
    ensures token.Some? ==> authHeader == BearerPrefix + token.value
  {
    if JavaText.HasText(authHeader) && StartsWith(authHeader, BearerPrefix) then Some(authHeader[|BearerPrefix|..])
    else None
  }

  /** Any token sent as "Bearer <token>" is read back unchanged. */
  lemma BearerTokenRoundTrip(token: string)
    ensures BearerToken(BearerPrefix + token) == Some(token)
  {
    var header := BearerPrefix + token;
    assert header[..|BearerPrefix|] == BearerPrefix;
    assert !JavaText.IsJavaWhitespace(header[0]);
  }

  /** The cookie begin parks the token in: HttpOnly, site-wide, 300 seconds. */
  function LinkCookie(token: string, cookieSecure: bool): ServletCookie
  {
    ServletCookie(LinkCookieName, token, true, cookieSecure, "/", LinkCookieMaxAge)
  }

  /**
   * begin: a header without a bearer credential gets 400 and no cookie; a
   * credential the JWT check rejects leaves without a cookie; otherwise the
   * cookie holding the token is added and the body carries the Discord
   * authorization URL.
   */
  method Begin(authHeader: string, response: HttpServletResponse, cookieSecure: bool, tokenAccepted: string -> bool)
    returns (result: BeginResponse)
    modifies response
    ensures BearerToken(authHeader).None? ==>
      result == BadRequest("Missing Authorization Bearer token") && response.cookies == old(response.cookies)
    ensures BearerToken(authHeader).Some? && !tokenAccepted(BearerToken(authHeader).value) ==>
      result == TokenRejected && response.cookies == old(response.cookies)
    ensures BearerToken(authHeader).Some? && tokenAccepted(BearerToken(authHeader).value) ==>
      result == Redirect(DiscordAuthorizationUrl)
      && response.cookies == old(response.cookies) + [LinkCookie(BearerToken(authHeader).value, cookieSecure)]
  {
    if !JavaText.HasText(authHeader) || !StartsWith(authHeader, BearerPrefix) {
      return BadRequest("Missing Authorization Bearer token");
    }
    var appJwt := authHeader[|BearerPrefix|..];
    if !tokenAccepted(appJwt) {
      return TokenRejected;
    }
    var cookie := ServletCookie(LinkCookieName, appJwt, false, false, "", -1);
    cookie := cookie.(httpOnly := true);
    cookie := cookie.(secure := cookieSecure);
    cookie := cookie.(path := "/");
    cookie := cookie.(maxAge := LinkCookieMaxAge);
    response.cookies := response.cookies + [cookie];
    return Redirect(DiscordAuthorizationUrl);
  }
}
