/**
 * Password-reset and account-activation tokens: the client-IP header rule
 * shared by both password-reset services, the token records kept in a
 * repository keyed by the token string, and the three services that create
 * and validate them. Time is a count of seconds supplied by the caller.
 */
module Tokens {
  import opened Wrappers
  import opened JavaText

  /** The parts of an HTTP request the services read: header values by name and the peer address. */
  datatype Request = Request(headers: map<string, string>, remoteAddr: string)

  /** ip.split(",")[0] on a header made only of commas indexes an empty array. */
  datatype IpError = ArrayIndexOutOfBounds

  /** The proxy headers consulted, highest priority first. */
  const ClientIpHeaders: seq<string> :=
    ["X-Forwarded-For", "Proxy-Client-IP", "WL-Proxy-Client-IP", "HTTP_CLIENT_IP", "HTTP_X_FORWARDED_FOR"]

  /** LocalDateTime.plusMinutes(15), in seconds. */
  const TokenLifetime: int := 15 * 60

  /** A header is taken when it is present, non-empty and not "unknown" in any letter case. */
  predicate Accepted(req: Request, name: string)
  {
    name in req.headers && |req.headers[name]| > 0 && !EqualsIgnoreCase("unknown", req.headers[name])
  }

  /**
   * A header reading "unknown" is skipped in every spelling Java's
   * equalsIgnoreCase matches, including the Kelvin sign U+212A for 'k';
   * a header that differs from it in one letter is taken.
   */
  lemma UnknownInAnyCaseIsSkipped(req: Request, name: string)
    requires name in req.headers
    ensures req.headers[name] == "UNKNOWN" ==> !Accepted(req, name)
    ensures req.headers[name] == "un\U{212A}nown" ==> !Accepted(req, name)
    ensures req.headers[name] == "unknowm" ==> Accepted(req, name)
  {
    var h := req.headers[name];
    if h == "unknowm" {
      assert CaseFold("unknown"[6]) != CaseFold(h[6]);
    }
  }

  /** ip.split(",")[0].trim(): the text before the first comma, trimmed. */
  function FirstAddress(ip: string): (r: Result<string, IpError>)
    ensures r.Err? <==> |ip| > 0 && forall j :: 0 <= j < |ip| ==> ip[j] == ','
    ensures r.Ok? ==> r.value == Trim(ip[..IndexOf(ip, ',')])
  {
    SplitShape(ip, ',');
    var pieces := Split(ip, ',');
    if |pieces| == 0 then Err(ArrayIndexOutOfBounds) else Ok(Trim(pieces[0]))
  }

  /** The address chosen from the headers in names, in order, falling back to the peer address. */
  function ClientIpFrom(req: Request, names: seq<string>): Result<string, IpError>
  {
    if |names| == 0 then Ok(req.remoteAddr)
    else if Accepted(req, names[0]) then FirstAddress(req.headers[names[0]])
    else ClientIpFrom(req, names[1..])
  }

  function ClientIp(req: Request): Result<string, IpError>
  {
    ClientIpFrom(req, ClientIpHeaders)
  }

  lemma {:induction false} ClientIpFromChoice(req: Request, names: seq<string>)
    ensures (forall k :: 0 <= k < |names| ==> !Accepted(req, names[k])) ==> ClientIpFrom(req, names) == Ok(req.remoteAddr)
    ensures forall k :: (0 <= k < |names| && Accepted(req, names[k]) && (forall j :: 0 <= j < k ==> !Accepted(req, names[j])))
                          ==> ClientIpFrom(req, names) == FirstAddress(req.headers[names[k]])
  {
    if |names| > 0 {
      ClientIpFromChoice(req, names[1..]);
      assert forall k :: 1 <= k < |names| ==> names[1..][k - 1] == names[k];
      forall k | 0 <= k < |names| && Accepted(req, names[k]) && (forall j :: 0 <= j < k ==> !Accepted(req, names[j]))
        ensures ClientIpFrom(req, names) == FirstAddress(req.headers[names[k]])
      {
        if k > 0 {
          assert !Accepted(req, names[0]);
          assert forall j :: 0 <= j < k - 1 ==> names[1..][j] == names[j + 1];
        }
      }
    }
  }

  /**
   * getClientIp: the first accepted header among X-Forwarded-For,
   * Proxy-Client-IP, WL-Proxy-Client-IP, HTTP_CLIENT_IP and
   * HTTP_X_FORWARDED_FOR decides, and the peer address is used only when
   * none is accepted.
   */
  lemma ClientIpChoice(req: Request)
    ensures (forall k :: 0 <= k < |ClientIpHeaders| ==> !Accepted(req, ClientIpHeaders[k])) ==> ClientIp(req) == Ok(req.remoteAddr)
    ensures forall k :: (0 <= k < |ClientIpHeaders| && Accepted(req, ClientIpHeaders[k])
                          && (forall j :: 0 <= j < k ==> !Accepted(req, ClientIpHeaders[j])))
                          ==> ClientIp(req) == FirstAddress(req.headers[ClientIpHeaders[k]])
  {
    ClientIpFromChoice(req, ClientIpHeaders);
  }

  /** getClientIp, the loop over the header names shared by both password-reset services. */
  method GetClientIp(req: Request) returns (r: Result<string, IpError>)
    ensures r == ClientIp(req)
  {
    var i := 0;
    while i < |ClientIpHeaders|
      invariant 0 <= i <= |ClientIpHeaders|
      invariant ClientIpFrom(req, ClientIpHeaders[i..]) == ClientIp(req)
    {
      var name := ClientIpHeaders[i];
      if name in req.headers {
        var ip := req.headers[name];
        if |ip| > 0 && !EqualsIgnoreCase("unknown", ip) {
          r := FirstAddress(ip);
          return;
        }
      }
      assert ClientIpHeaders[i..][1..] == ClientIpHeaders[i + 1..];
      i := i + 1;
    }
    r := Ok(req.remoteAddr);
  }

  /** A token can be redeemed while it is unused and its expiry is not before now. */
  predicate Usable(used: bool, expiresAt: int, now: int)
  {
    !used && !(expiresAt < now)
  }

  /** PasswordResetToken; both password-reset services store records of this shape. */
  datatype ResetToken = ResetToken(
    token: string,
    userEmail: string,
    createdAt: int,
    expiresAt: int,
    used: bool,
    requestedIp: Option<string>,
    usedIp: Option<string>)

  /** The record createResetToken saves. */
  function NewResetToken(token: string, userEmail: string, now: int, ip: string): ResetToken
  {
    ResetToken(token, userEmail, now, now + TokenLifetime, false, Some(ip), None)
  }

  /** What a successful redemption records: used, with the redeeming address. */
  function Redeemed(t: ResetToken, ip: string): ResetToken
  {
    t.(used := true, usedIp := Some(ip))
  }

  predicate ResetTokenValid(store: map<string, ResetToken>, token: string, now: int)
  {
    token in store && Usable(store[token].used, store[token].expiresAt, now)
  }

  /** A freshly created reset token is valid exactly until its fifteen minutes are over. */
  lemma NewResetTokenLifetime(store: map<string, ResetToken>, token: string, userEmail: string, now: int, ip: string, later: int)
    ensures ResetTokenValid(store[token := NewResetToken(token, userEmail, now, ip)], token, later)
            <==> later <= now + 15 * 60
  {
  }

  /** A redeemed reset token never validates again, at any time. */
  lemma ResetTokenSingleUse(store: map<string, ResetToken>, token: string, ip: string, later: int)
    requires token in store
    ensures !ResetTokenValid(store[token := Redeemed(store[token], ip)], token, later)
  {
  }

  /** Redeeming one token leaves the validity of every other token as it was. */
  lemma RedeemKeepsOthers(store: map<string, ResetToken>, token: string, ip: string, other: string, now: int)
    requires token in store && other != token
    ensures ResetTokenValid(store[token := Redeemed(store[token], ip)], other, now) == ResetTokenValid(store, other, now)
  {
  }

  /** DefaultPasswordResetServiceToken: validation reads, tokenUsed redeems. */
  class PasswordResetServiceToken {
    var tokens: map<string, ResetToken>

    constructor(tokens: map<string, ResetToken>)
      ensures this.tokens == tokens
    {
      this.tokens := tokens;
    }

    /** createResetToken with newToken standing for the random UUID; a throwing getClientIp saves nothing. */
    method CreateResetToken(userEmail: string, req: Request, newToken: string, now: int) returns (r: Result<string, IpError>)
      modifies this
      ensures ClientIp(req).Ok? ==> (r == Ok(newToken)
                                  && tokens == old(tokens)[newToken := NewResetToken(newToken, userEmail, now, ClientIp(req).value)])
      ensures ClientIp(req).Err? ==> r == Err(ClientIp(req).error) && tokens == old(tokens)
    {
      var ip := GetClientIp(req);
      if ip.Err? {
        return Err(ip.error);
      }
      tokens := tokens[newToken := NewResetToken(newToken, userEmail, now, ip.value)];
      r := Ok(newToken);
    }

    /** isValidToken: unknown, used and expired tokens are refused, and nothing is written. */
    method IsValidToken(token: string, now: int) returns (valid: bool)
      ensures valid <==> token in tokens && !tokens[token].used && tokens[token].expiresAt >= now
    {
      if token !in tokens {
        return false;
      }
      var t := tokens[token];
      if t.used {
        return false;
      }
      if t.expiresAt < now {
        return false;
      }
      valid := true;
    }

    /** tokenUsed: marks a known token used with the caller's address; an unknown token is ignored. */
    method TokenUsed(token: string, req: Request) returns (r: Result<(), IpError>)
      modifies this
      ensures token !in old(tokens) ==> r.Ok? && tokens == old(tokens)
      ensures token in old(tokens) && ClientIp(req).Ok? ==>
                r.Ok? && tokens == old(tokens)[token := Redeemed(old(tokens)[token], ClientIp(req).value)]
      ensures token in old(tokens) && ClientIp(req).Err? ==> r.Err? && tokens == old(tokens)
    {
      if token !in tokens {
        return Ok(());
      }
      var t := tokens[token];
      var ip := GetClientIp(req);
      if ip.Err? {
        return Err(ip.error);
      }
      tokens := tokens[token := Redeemed(t, ip.value)];
      r := Ok(());
    }
  }

  /** DefaultPasswordResetService: the older service whose validation also redeems the token. */
  class PasswordResetService {
    var tokens: map<string, ResetToken>

    constructor(tokens: map<string, ResetToken>)
      ensures this.tokens == tokens
    {
      this.tokens := tokens;
    }

    method CreateResetToken(userEmail: string, req: Request, newToken: string, now: int) returns (r: Result<string, IpError>)
      modifies this
      ensures ClientIp(req).Ok? ==> (r == Ok(newToken)
                                  && tokens == old(tokens)[newToken := NewResetToken(newToken, userEmail, now, ClientIp(req).value)])
      ensures ClientIp(req).Err? ==> r == Err(ClientIp(req).error) && tokens == old(tokens)
    {
      var ip := GetClientIp(req);
      if ip.Err? {
        return Err(ip.error);
      }
      tokens := tokens[newToken := NewResetToken(newToken, userEmail, now, ip.value)];
      r := Ok(newToken);
    }

    /**
     * isValidToken: a valid token is redeemed with the caller's address and
     * saved, so it validates once; a refused token is left as it was.
     */
    method IsValidToken(token: string, req: Request, now: int) returns (r: Result<bool, IpError>)
      modifies this
      ensures !ResetTokenValid(old(tokens), token, now) ==> r == Ok(false) && tokens == old(tokens)
      ensures ResetTokenValid(old(tokens), token, now) && ClientIp(req).Ok? ==>
                r == Ok(true) && tokens == old(tokens)[token := Redeemed(old(tokens)[token], ClientIp(req).value)]
      ensures ResetTokenValid(old(tokens), token, now) && ClientIp(req).Err? ==> r.Err? && tokens == old(tokens)
    {
      if token !in tokens {
        return Ok(false);
      }
      var t := tokens[token];
      if t.used {
        return Ok(false);
      }
      if t.expiresAt < now {
        return Ok(false);
      }
      var ip := GetClientIp(req);
      if ip.Err? {
        return Err(ip.error);
      }
      tokens := tokens[token := Redeemed(t, ip.value)];
      r := Ok(true);
    }
  }

  /** AccountActivationToken. */
  datatype ActivationToken = ActivationToken(
    token: string,
    userEmail: string,
    createdAt: int,
    expiresAt: int,
    used: bool)

  predicate ActivationTokenValid(store: map<string, ActivationToken>, token: string, now: int)
  {
    token in store && Usable(store[token].used, store[token].expiresAt, now)
  }

  /** A redeemed activation token never validates again. */
  lemma ActivationTokenSingleUse(store: map<string, ActivationToken>, token: string, later: int)
    requires token in store
    ensures !ActivationTokenValid(store[token := store[token].(used := true)], token, later)
  {
  }

  /** DefaultAccountActivationTokenService; the JWT generator is a parameter. */
  class AccountActivationTokenService {
    var tokens: map<string, ActivationToken>

    constructor(tokens: map<string, ActivationToken>)
      ensures this.tokens == tokens
    {
      this.tokens := tokens;
    }

    /** createAccountActivationToken: saves an unused token for fifteen minutes and returns the string it saved. */
    method CreateAccountActivationToken(username: string, userEmail: string, generateToken: string -> string, now: int)
      returns (token: string)
      modifies this
      ensures token == generateToken(username)
      ensures tokens == old(tokens)[token := ActivationToken(token, userEmail, now, now + TokenLifetime, false)]
      ensures ActivationTokenValid(tokens, token, now + TokenLifetime) && !ActivationTokenValid(tokens, token, now + TokenLifetime + 1)
    {
      token := generateToken(username);
      tokens := tokens[token := ActivationToken(token, userEmail, now, now + TokenLifetime, false)];
    }

    /** isValidToken: a valid token is marked used and saved; a refused one is left as it was. */
    method IsValidToken(token: string, now: int) returns (valid: bool)
      modifies this
      ensures valid <==> old(ActivationTokenValid(tokens, token, now))
      ensures valid ==> tokens == old(tokens)[token := old(tokens)[token].(used := true)]
      ensures !valid ==> tokens == old(tokens)
    {
      if token !in tokens {
        return false;
      }
      var t := tokens[token];
      if t.used {
        return false;
      }
      if t.expiresAt < now {
        return false;
      }
      tokens := tokens[token := t.(used := true)];
      valid := true;
    }
  }
}
