/**
 * The registration form validators (codenames-frontend/src/utils/validation.tsx).
 * Each is one JavaScript regular expression test; here each is a small
 * matcher written out from its pattern, and lemmas tie the matcher to the
 * language of the pattern or to the rules the doc comments state.
 */
module Validation {
  import JavaText

  predicate IsAsciiLetter(c: char)
  {
    'a' <= c <= 'z' || 'A' <= c <= 'Z'
  }

  predicate IsAsciiDigit(c: char)
  {
    '0' <= c <= '9'
  }

  predicate IsAsciiAlnum(c: char)
  {
    IsAsciiLetter(c) || IsAsciiDigit(c)
  }

  // ---------------------------------------------------------------------------
  // validateUsername: /^[a-zA-Z0-9]+$/.test(username) && username.length > 0

  /** [a-zA-Z0-9]+ anchored at both ends, matched one character at a time. */
  predicate MatchesAlnumRun(s: string)
  {
    |s| >= 1 && IsAsciiAlnum(s[0]) && (|s| == 1 || MatchesAlnumRun(s[1..]))
  }

  predicate ValidateUsername(username: string)
  {
    MatchesAlnumRun(username) && |username| > 0
  }

  /** A username is accepted exactly when it is non-empty and every character is an ASCII letter or digit. */
  lemma {:induction false} ValidateUsernameMeaning(username: string)
    ensures ValidateUsername(username)
            <==> |username| > 0 && forall k :: 0 <= k < |username| ==> IsAsciiAlnum(username[k])
  {
    if |username| > 1 {
      ValidateUsernameMeaning(username[1..]);
      assert forall k :: 1 <= k < |username| ==> username[k] == username[1..][k - 1];
    }
  }

  // ---------------------------------------------------------------------------
  // validatePassword: /^(?=.*[a-z])(?=.*[A-Z])(?=.*\d)(?=.*[\W_]).{8,}$/

  /** The characters JavaScript's '.' does not match (no s flag). */
  predicate IsLineTerminator(c: char)
  {
    c == '\n' || c == '\r' || c == '\U{2028}' || c == '\U{2029}'
  }

  /** String.length: characters outside the Basic Multilingual Plane take two UTF-16 units. */
  function Utf16Length(s: string): (n: nat)
    ensures n >= |s|
  {
    if |s| == 0 then 0 else (if s[0] as int > 0xFFFF then 2 else 1) + Utf16Length(s[1..])
  }

  /** [\W_]: anything but an ASCII letter or digit. */
  predicate IsSpecial(c: char)
  {
    !IsAsciiAlnum(c)
  }

  /** (?=.*X) at the start: some character satisfying X with no line terminator before it. */
  predicate LookaheadFinds(s: string, p: char -> bool)
  {
    exists k :: 0 <= k < |s| && p(s[k]) && forall j :: 0 <= j < k ==> !IsLineTerminator(s[j])
  }

  /** .{8,}$ from the start: at least 8 units, none a line terminator. */
  predicate DotRunToEnd(s: string)
  {
    Utf16Length(s) >= 8 && forall j :: 0 <= j < |s| ==> !IsLineTerminator(s[j])
  }

  predicate ValidatePassword(password: string)
  {
    LookaheadFinds(password, c => 'a' <= c <= 'z')
    && LookaheadFinds(password, c => 'A' <= c <= 'Z')
    && LookaheadFinds(password, IsAsciiDigit)
    && LookaheadFinds(password, IsSpecial)
    && DotRunToEnd(password)
  }

  predicate Has(s: string, p: char -> bool)
  {
    exists k :: 0 <= k < |s| && p(s[k])
  }

  /**
   * A password is accepted exactly when it is at least 8 UTF-16 units long,
   * has a lower-case letter, an upper-case letter, a digit and a character
   * that is not an ASCII letter or digit, and contains no line terminator.
   */
  lemma ValidatePasswordMeaning(password: string)
    ensures ValidatePassword(password) <==>
      Utf16Length(password) >= 8
      && Has(password, c => 'a' <= c <= 'z') && Has(password, c => 'A' <= c <= 'Z')
      && Has(password, IsAsciiDigit) && Has(password, IsSpecial)
      && forall j :: 0 <= j < |password| ==> !IsLineTerminator(password[j])
  {
  }

  /** The lookaheads do matter on their own: a line terminator hides what follows it. */
  lemma LineTerminatorHidesLetters()
    ensures !ValidatePassword("\nAa1!aaaa")
  {
    var s := "\nAa1!aaaa";
    assert IsLineTerminator(s[0]);
  }

  // ---------------------------------------------------------------------------
  // validateEmail: /^[a-zA-Z0-9._%+-]+@[a-zA-Z0-9.-]+\.[a-zA-Z]{2,}$/i

  predicate IsLocalChar(c: char)
  {
    IsAsciiAlnum(c) || c == '.' || c == '_' || c == '%' || c == '+' || c == '-'
  }

  predicate IsDomainChar(c: char)
  {
    IsAsciiAlnum(c) || c == '.' || c == '-'
  }

  predicate All(s: string, p: char -> bool)
  {
    forall k :: 0 <= k < |s| ==> p(s[k])
  }

  /** The three parts of a string the pattern describes: local + "@" + host + "." + top-level domain. */
  predicate EmailParts(local: string, host: string, tld: string)
  {
    |local| >= 1 && All(local, IsLocalChar)
    && |host| >= 1 && All(host, IsDomainChar)
    && |tld| >= 2 && All(tld, IsAsciiLetter)
  }

  /** Index of the last '.' in s, or -1. */
  function LastDot(s: string): (p: int)
    ensures -1 <= p < |s|
    ensures p >= 0 ==> s[p] == '.'
    ensures forall k :: p < k < |s| ==> s[k] != '.'
  {
    if |s| == 0 then -1
    else if s[|s| - 1] == '.' then |s| - 1
    else LastDot(s[..|s| - 1])
  }

  lemma {:induction false} LastDotIs(s: string, p: nat)
    requires p < |s| && s[p] == '.'
    requires forall k :: p < k < |s| ==> s[k] != '.'
    ensures LastDot(s) == p
    decreases |s|
  {
    if s[|s| - 1] != '.' {
      LastDotIs(s[..|s| - 1], p);
    }
  }

  /** The domain half of the pattern: the top-level domain is what follows the last '.'. */
  predicate MatchesDomain(d: string)
  {
    var p := LastDot(d);
    All(d, IsDomainChar) && p >= 1 && |d| - p - 1 >= 2 && All(d[p + 1..], IsAsciiLetter)
  }

  /** The local part can hold no '@', so the '@' of the pattern is the first one. */
  predicate ValidateEmail(email: string)
  {
    var at := JavaText.IndexOf(email, '@');
    at < |email| && |email[..at]| >= 1 && All(email[..at], IsLocalChar) && MatchesDomain(email[at + 1..])
  }

  /** Every text the pattern describes is accepted. */
  lemma ValidateEmailAccepts(local: string, host: string, tld: string)
    requires EmailParts(local, host, tld)
    ensures ValidateEmail(local + "@" + host + "." + tld)
  {
    var d := host + "." + tld;
    assert local + "@" + host + "." + tld == local + "@" + d;
    DomainAccepts(host, tld);
    SplitAtFirstAt(local, d);
  }

  /** A local part has no '@', so the first '@' is the one after it. */
  lemma SplitAtFirstAt(local: string, d: string)
    requires All(local, IsLocalChar)
    ensures var e := local + "@" + d;
      JavaText.IndexOf(e, '@') == |local| && e[..|local|] == local && e[|local| + 1..] == d
  {
    var e := local + "@" + d;
    assert forall k :: 0 <= k < |local| ==> e[k] == local[k];
    assert e[|local|] == '@';
    assert e[..|local|] == local;
    assert e[|local| + 1..] == d;
  }

  /** host + "." + tld matches the domain half, its last '.' being the one before tld. */
  lemma DomainAccepts(host: string, tld: string)
    requires |host| >= 1 && All(host, IsDomainChar) && |tld| >= 2 && All(tld, IsAsciiLetter)
    ensures MatchesDomain(host + "." + tld)
  {
    var d := host + "." + tld;
    assert forall k :: |host| < k < |d| ==> d[k] == tld[k - |host| - 1];
    LastDotIs(d, |host|);
    assert d[|host| + 1..] == tld;
  }

  /** Every accepted text is one the pattern describes. */
  lemma ValidateEmailOnlyAccepts(email: string)
    requires ValidateEmail(email)
    ensures exists local, host, tld :: EmailParts(local, host, tld) && email == local + "@" + host + "." + tld
  {
    var local, host, tld := EmailPartsOf(email);
  }

  /** The local part, host and top-level domain an accepted text is made of. */
  lemma EmailPartsOf(email: string) returns (local: string, host: string, tld: string)
    requires ValidateEmail(email)
    ensures EmailParts(local, host, tld) && email == local + "@" + host + "." + tld
  {
    var at := JavaText.IndexOf(email, '@');
    var d := email[at + 1..];
    local := email[..at];
    SplitAroundAt(email, at);
    host, tld := DomainPartsOf(d);
    Regroup(local, host, tld);
  }

  /** The text is what comes before position at, the '@' there, and what comes after it. */
  lemma SplitAroundAt(email: string, at: nat)
    requires at < |email| && email[at] == '@'
    ensures email == email[..at] + "@" + email[at + 1..]
  {
  }

  lemma Regroup(local: string, host: string, tld: string)
    ensures local + "@" + (host + "." + tld) == local + "@" + host + "." + tld
  {
  }

  /** A matching domain is a host part of domain characters, the last '.', and the top-level domain. */
  lemma DomainPartsOf(d: string) returns (host: string, tld: string)
    requires MatchesDomain(d)
    ensures |host| >= 1 && All(host, IsDomainChar) && |tld| >= 2 && All(tld, IsAsciiLetter)
    ensures d == host + "." + tld
  {
    var p := LastDot(d);
    host, tld := d[..p], d[p + 1..];
    assert forall k :: 0 <= k < p ==> host[k] == d[k];
  }

  function CountOf(s: string, c: char): nat
  {
    if |s| == 0 then 0 else (if s[0] == c then 1 else 0) + CountOf(s[1..], c)
  }

  lemma {:induction false} CountOfAppend(a: string, b: string, c: char)
    ensures CountOf(a + b, c) == CountOf(a, c) + CountOf(b, c)
  {
    if |a| > 0 {
      assert (a + b)[1..] == a[1..] + b;
      CountOfAppend(a[1..], b, c);
    } else {
      assert a + b == b;
    }
  }

  lemma {:induction false} CountOfAbsent(s: string, c: char)
    requires c !in s
    ensures CountOf(s, c) == 0
  {
    if |s| > 0 {
      assert s[0] != c;
      CountOfAbsent(s[1..], c);
    }
  }

  lemma NoAtInDomain(d: string)
    requires All(d, IsDomainChar)
    ensures '@' !in d
  {
    forall k | 0 <= k < |d| ensures d[k] != '@' {
      assert IsDomainChar(d[k]);
    }
  }

  /** An accepted e-mail address holds exactly one '@'. */
  lemma ValidateEmailHasOneAt(email: string)
    requires ValidateEmail(email)
    ensures CountOf(email, '@') == 1
  {
    var at := JavaText.IndexOf(email, '@');
    var local, d := email[..at], email[at + 1..];
    SplitAroundAt(email, at);
    assert '@' !in local by {
      assert forall k :: 0 <= k < at ==> local[k] == email[k];
    }
    NoAtInDomain(d);
    CountOfOne(local, d, '@');
  }

  /** c between two texts without c occurs exactly once. */
  lemma CountOfOne(a: string, b: string, c: char)
    requires c !in a && c !in b
    ensures CountOf(a + [c] + b, c) == 1
  {
    CountOfAbsent(a, c);
    CountOfAbsent(b, c);
    CountOfAppend(a + [c], b, c);
    CountOfAppend(a, [c], c);
    assert CountOf([c], c) == 1 by {
      assert [c][1..] == [];
    }
  }
}
