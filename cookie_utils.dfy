/**
 * The two Set-Cookie header values the backend writes by hand when a user
 * logs in or out (util/CookieUtils.java). Each format string is a
 * cookie-pair followed by "; "-separated attributes, so each header is the
 * rendering of a structured cookie whose attribute list follows the format
 * string's order.
 */
module CookieUtils {
  import opened Wrappers
  import Numerals
  import CookieHeader

  const CookieMaxAge: int := 36000
  const CookiePath: string := "/"
  const CookieDomain: string := ".us-central1.run.app"

  /** The %d of Max-Age: the full lifetime on log-in, 0 (delete now) on log-out. */
  function MaxAge(loggingIn: bool): string
  {
    Numerals.IntToDecimal(if loggingIn then CookieMaxAge else 0)
  }

  /** Domain, Path, Max-Age, then HttpOnly for the auth cookie only, then Secure and SameSite=None. */
  function Attributes(loggingIn: bool, httpOnly: bool): seq<string>
  {
    ["Domain=" + CookieDomain, "Path=" + CookiePath, "Max-Age=" + MaxAge(loggingIn)]
    + (if httpOnly then ["HttpOnly"] else [])
    + ["Secure", "SameSite=None"]
  }

  /** The cookie header carrying the JWT: its value and lifetime on log-in, cleared on log-out. */
  function CreateAuthCookieHeader(token: string, loggingIn: bool): string
  {
    CookieHeader.Render(CookieHeader.SetCookie("authToken", if loggingIn then token else "", Attributes(loggingIn, true)))
  }

  /** The script-visible companion cookie telling the frontend whether someone is logged in. */
  function CreateLoggedInCookieHeader(loggingIn: bool): string
  {
    CookieHeader.Render(CookieHeader.SetCookie("loggedIn", if loggingIn then "true" else "", Attributes(loggingIn, false)))
  }

  lemma MaxAgeDecimal(loggingIn: bool)
    ensures MaxAge(loggingIn) == if loggingIn then "36000" else "0"
  {
    assert Numerals.NatToDecimal(3) == "3";
    assert Numerals.NatToDecimal(36) == "36";
    assert Numerals.NatToDecimal(360) == "360";
    assert Numerals.NatToDecimal(3600) == "3600";
    assert Numerals.NatToDecimal(36000) == "36000";
    assert Numerals.NatToDecimal(0) == "0";
  }

  /** Max-Age is 36000 on log-in and 0 on log-out; Path=/, Secure and SameSite=None always; HttpOnly only when asked. */
  lemma AttributesText(loggingIn: bool, httpOnly: bool)
    ensures Attributes(loggingIn, httpOnly)
            == ["Domain=.us-central1.run.app", "Path=/", "Max-Age=" + (if loggingIn then "36000" else "0")]
               + (if httpOnly then ["HttpOnly"] else []) + ["Secure", "SameSite=None"]
  {
    MaxAgeDecimal(loggingIn);
    assert "Domain=" + CookieDomain == "Domain=.us-central1.run.app";
    assert "Path=" + CookiePath == "Path=/";
  }

  lemma AttributesWellFormed(loggingIn: bool, httpOnly: bool)
    ensures forall k :: 0 <= k < |Attributes(loggingIn, httpOnly)| ==> ';' !in Attributes(loggingIn, httpOnly)[k]
  {
    MaxAgeDecimal(loggingIn);
    var a := Attributes(loggingIn, httpOnly);
    forall k | 0 <= k < |a| ensures ';' !in a[k] {
      assert forall j :: 0 <= j < |a[k]| ==> a[k][j] != ';';
    }
  }

  /**
   * Read back as a Set-Cookie header, the auth header is the cookie authToken
   * holding the token on log-in and nothing on log-out, with the attributes
   * AttributesText lists (HttpOnly among them).
   */
  lemma AuthCookieHeaderParses(token: string, loggingIn: bool)
    requires ';' !in token
    ensures CookieHeader.Parse(CreateAuthCookieHeader(token, loggingIn))
            == Some(CookieHeader.SetCookie("authToken", if loggingIn then token else "", Attributes(loggingIn, true)))
  {
    var c := CookieHeader.SetCookie("authToken", if loggingIn then token else "", Attributes(loggingIn, true));
    AttributesWellFormed(loggingIn, true);
    assert '=' !in c.name && ';' !in c.name && ';' !in c.value;
    CookieHeader.ParseRender(c);
  }

  /**
   * Read back as a Set-Cookie header, the loggedIn header is the cookie
   * loggedIn holding "true" on log-in and nothing on log-out, with the
   * attributes AttributesText lists (HttpOnly not among them).
   */
  lemma LoggedInCookieHeaderParses(loggingIn: bool)
    ensures CookieHeader.Parse(CreateLoggedInCookieHeader(loggingIn))
            == Some(CookieHeader.SetCookie("loggedIn", if loggingIn then "true" else "", Attributes(loggingIn, false)))
  {
    var c := CookieHeader.SetCookie("loggedIn", if loggingIn then "true" else "", Attributes(loggingIn, false));
    AttributesWellFormed(loggingIn, false);
    assert '=' !in c.name && ';' !in c.name && ';' !in c.value;
    CookieHeader.ParseRender(c);
  }
}
