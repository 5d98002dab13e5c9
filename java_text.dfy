/**
 * The few java.lang.String and Spring StringUtils operations the backend's
 * logic relies on, with the edge cases Java gives them: String.split drops
 * trailing empty pieces, String.trim strips every character up to U+0020,
 * and StringUtils.hasText looks for a character that is not
 * Character.isWhitespace.
 */
module JavaText {

  /** Index of the first occurrence of c in s, or |s| when there is none. */
  function IndexOf(s: string, c: char): (i: nat)
    ensures i <= |s|
    ensures i < |s| ==> s[i] == c
    ensures forall k :: 0 <= k < i ==> s[k] != c
    ensures i == |s| <==> c !in s
  {
    if |s| == 0 then 0
    else if s[0] == c then 0
    else 1 + IndexOf(s[1..], c)
  }

  /** IndexOf is characterised by its result: the first position holding c. */
  lemma {:induction false} IndexOfIs(s: string, c: char, i: nat)
    requires i < |s| && s[i] == c
    requires forall k :: 0 <= k < i ==> s[k] != c
    ensures IndexOf(s, c) == i
  {
    if i > 0 {
      IndexOfIs(s[1..], c, i - 1);
    }
  }

  /** The pieces between successive occurrences of sep, before trailing empties are dropped. */
  function RawSplit(s: string, sep: char): (pieces: seq<string>)
    ensures |pieces| >= 1
    decreases |s|
  {
    var i := IndexOf(s, sep);
    if i == |s| then [s] else [s[..i]] + RawSplit(s[i + 1..], sep)
  }

  /** Drops every empty piece at the end of the list. */
  function DropTrailingEmpty(pieces: seq<string>): (r: seq<string>)
    ensures r <= pieces
    ensures |r| > 0 ==> r[|r| - 1] != ""
    ensures forall k :: |r| <= k < |pieces| ==> pieces[k] == ""
  {
    if |pieces| > 0 && pieces[|pieces| - 1] == "" then DropTrailingEmpty(pieces[..|pieces| - 1])
    else pieces
  }

  /**
   * Java's s.split(String.valueOf(sep)) for a separator that is not a regex
   * metacharacter: with no separator in s the result is [s] (so "" gives [""]);
   * otherwise the pieces with trailing empty pieces removed, which can leave
   * no piece at all (",".split(",") is empty).
   */
  function Split(s: string, sep: char): seq<string>
  {
    if sep !in s then [s] else DropTrailingEmpty(RawSplit(s, sep))
  }

  /** Splitting text that starts with a separator-free piece and a separator peels that piece off. */
  lemma RawSplitPrefix(a: string, sep: char, b: string)
    requires sep !in a
    ensures RawSplit(a + [sep] + b, sep) == [a] + RawSplit(b, sep)
  {
    var s := a + [sep] + b;
    assert forall k :: 0 <= k < |a| ==> s[k] == a[k];
    IndexOfIs(s, sep, |a|);
    assert s[..|a|] == a && s[|a| + 1..] == b;
  }

  lemma {:induction false} RawSplitNoSeparator(s: string, sep: char)
    ensures forall k :: 0 <= k < |RawSplit(s, sep)| ==> sep !in RawSplit(s, sep)[k]
    decreases |s|
  {
    var i := IndexOf(s, sep);
    var pieces := RawSplit(s, sep);
    if i < |s| {
      var rest := s[i + 1..];
      RawSplitNoSeparator(rest, sep);
      assert pieces == [s[..i]] + RawSplit(rest, sep);
      forall k | 0 <= k < |pieces| ensures sep !in pieces[k] {
        if k > 0 {
          assert pieces[k] == RawSplit(rest, sep)[k - 1];
        } else {
          assert forall j :: 0 <= j < i ==> s[..i][j] == s[j];
        }
      }
    }
  }

  predicate AllEmpty(pieces: seq<string>)
  {
    forall k :: 0 <= k < |pieces| ==> |pieces[k]| == 0
  }

  predicate OnlySeparators(s: string, sep: char)
  {
    forall j :: 0 <= j < |s| ==> s[j] == sep
  }

  lemma {:induction false} RawSplitAllEmpty(s: string, sep: char)
    ensures AllEmpty(RawSplit(s, sep)) <==> OnlySeparators(s, sep)
    decreases |s|
  {
    var i := IndexOf(s, sep);
    if i < |s| {
      RawSplitAllEmpty(s[i + 1..], sep);
      AllEmptyStep(s, sep);
      OnlySeparatorsStep(s, sep);
    } else {
      AllEmptyNoSeparator(s, sep);
    }
  }

  /** The pieces are all empty when the first one is and so are the pieces of the rest. */
  lemma AllEmptyStep(s: string, sep: char)
    requires IndexOf(s, sep) < |s|
    ensures var i := IndexOf(s, sep);
      AllEmpty(RawSplit(s, sep)) <==> i == 0 && AllEmpty(RawSplit(s[i + 1..], sep))
  {
    var i := IndexOf(s, sep);
    AllEmptyCons(s[..i], RawSplit(s[i + 1..], sep));
  }

  /** Without a separator the only piece is s itself, and s is made of separators only when empty. */
  lemma AllEmptyNoSeparator(s: string, sep: char)
    requires IndexOf(s, sep) == |s|
    ensures AllEmpty(RawSplit(s, sep)) <==> |s| == 0
    ensures OnlySeparators(s, sep) <==> |s| == 0
  {
    assert RawSplit(s, sep)[0] == s;
    assert |s| > 0 ==> s[0] != sep;
  }

  lemma AllEmptyCons(p: string, ps: seq<string>)
    ensures AllEmpty([p] + ps) <==> |p| == 0 && AllEmpty(ps)
  {
    assert ([p] + ps)[0] == p;
    if AllEmpty([p] + ps) {
      forall k | 0 <= k < |ps| ensures |ps[k]| == 0 {
        assert ([p] + ps)[k + 1] == ps[k];
      }
    }
  }

  /** Text made only of separators starts with one, and so does the rest after it. */
  lemma OnlySeparatorsStep(s: string, sep: char)
    requires IndexOf(s, sep) < |s|
    ensures var i := IndexOf(s, sep);
      OnlySeparators(s, sep) <==> i == 0 && OnlySeparators(s[i + 1..], sep)
  {
    if IndexOf(s, sep) == 0 && OnlySeparators(s[1..], sep) {
      forall j | 0 <= j < |s| ensures s[j] == sep {
        if j > 0 {
          assert s[1..][j - 1] == s[j];
        }
      }
    }
  }

  /**
   * What getClientIp-style callers rely on: Split yields no piece exactly when
   * s is non-empty and made only of separators; otherwise its first piece is
   * the text before the first separator. No piece contains the separator.
   */
  lemma SplitShape(s: string, sep: char)
    ensures |Split(s, sep)| == 0 <==> |s| > 0 && forall j :: 0 <= j < |s| ==> s[j] == sep
    ensures |Split(s, sep)| > 0 ==> Split(s, sep)[0] == s[..IndexOf(s, sep)]
    ensures forall k :: 0 <= k < |Split(s, sep)| ==> sep !in Split(s, sep)[k]
  {
    if sep in s {
      RawSplitNoSeparator(s, sep);
      RawSplitAllEmpty(s, sep);
      var pieces := RawSplit(s, sep);
      var r := DropTrailingEmpty(pieces);
      if |r| == 0 {
        assert AllEmpty(pieces);
      } else {
        assert r[0] == pieces[0];
        forall k | 0 <= k < |r| ensures sep !in r[k] { assert r[k] == pieces[k]; }
        assert r[|r| - 1] == pieces[|r| - 1];
      }
    } else {
      assert IndexOf(s, sep) == |s|;
      if |s| > 0 { assert s[0] != sep; }
    }
  }

  /** The characters String.trim removes: every code point up to and including U+0020. */
  predicate IsTrimmable(c: char)
  {
    c <= ' '
  }

  function TrimStart(s: string): (r: string)
    ensures |r| <= |s|
    ensures r == s[|s| - |r|..]
    ensures |r| > 0 ==> !IsTrimmable(r[0])
  {
    if |s| > 0 && IsTrimmable(s[0]) then TrimStart(s[1..]) else s
  }

  function TrimEnd(s: string): (r: string)
    ensures |r| <= |s|
    ensures r == s[..|r|]
    ensures |r| > 0 ==> !IsTrimmable(r[|r| - 1])
  {
    if |s| > 0 && IsTrimmable(s[|s| - 1]) then TrimEnd(s[..|s| - 1]) else s
  }

  /** Java's String.trim(). */
  function Trim(s: string): (r: string)
    ensures |r| <= |s|
    ensures |r| > 0 ==> !IsTrimmable(r[0]) && !IsTrimmable(r[|r| - 1])
  {
    TrimEnd(TrimStart(s))
  }

  /** Java's Character.isWhitespace for one UTF-16 unit (the space separators other than the no-break ones, and the controls U+0009-U+000D, U+001C-U+001F). */
  predicate IsJavaWhitespace(c: char)
  {
    ('\U{0009}' <= c <= '\U{000D}') || ('\U{001C}' <= c <= ' ') || c == '\U{1680}'
    || ('\U{2000}' <= c <= '\U{2006}') || ('\U{2008}' <= c <= '\U{200A}')
    || c == '\U{2028}' || c == '\U{2029}' || c == '\U{205F}' || c == '\U{3000}'
  }

  /** Spring's StringUtils.hasText: present, and some character is not whitespace. */
  predicate HasText(s: string)
  {
    exists k :: 0 <= k < |s| && !IsJavaWhitespace(s[k])
  }

  /**
   * The letter a character stands for under String.equalsIgnoreCase, which
   * matches c and d when toUpperCase agrees or toLowerCase(toUpperCase(.))
   * agrees. ASCII capitals fold to their small letters, and so do the four
   * characters outside ASCII whose case mappings reach ASCII: U+0130 and
   * U+0131 (to 'i'), U+017F (to 's') and U+212A KELVIN SIGN (to 'k').
   * Every other character stands for itself, which is exact whenever the
   * other side of the comparison is ASCII.
   */
  function CaseFold(c: char): char
  {
    if 'A' <= c <= 'Z' then (c as int + 32) as char
    else if c == '\U{0130}' || c == '\U{0131}' then 'i'
    else if c == '\U{017F}' then 's'
    else if c == '\U{212A}' then 'k'
    else c
  }

  /** String.equalsIgnoreCase, for comparisons where one side is an ASCII literal. */
  predicate EqualsIgnoreCase(a: string, b: string)
  {
    |a| == |b| && forall k :: 0 <= k < |a| ==> CaseFold(a[k]) == CaseFold(b[k])
  }

  /** String.replace(" ", ""): the string with every space removed, order kept. */
  function RemoveSpaces(s: string): (r: string)
    ensures ' ' !in r
    ensures |r| <= |s|
  {
    if |s| == 0 then ""
    else if s[0] == ' ' then RemoveSpaces(s[1..])
    else [s[0]] + RemoveSpaces(s[1..])
  }
}
