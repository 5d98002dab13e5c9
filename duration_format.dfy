/**
 * The frontend's time display helpers (codenames-frontend/src/shared/utils.tsx):
 * formatTime renders a number of seconds as "mm:ss", and convertDurationToMMSS
 * accepts a number, an "m:ss"/"mm:ss" string, or the "PT[nM][nS]" subset of
 * ISO 8601:2004 durations (section 4.4.3.2, durations with designators) and
 * renders it the same way. Numbers are integers here.
 */
module DurationFormat {
  import opened Wrappers
  import opened Numerals

  /** JavaScript's % on integers: the remainder takes the sign of the dividend. */
  function JsRem(a: int, b: nat): (r: int)
    requires b > 0
    ensures a >= 0 ==> r == a % b
    ensures a < 0 ==> -(b as int) < r <= 0
  {
    if a >= 0 then a % b else -((-a) % b)
  }

  /** String(x).padStart(2, "0"). */
  function TwoWide(x: int): string
  {
    PadStart(IntToDecimal(x), 2, '0')
  }

  /** formatTime(seconds): Math.floor(seconds / 60) and seconds % 60, each padded to two characters. */
  function FormatTime(seconds: int): string
  {
    TwoWide(seconds / 60) + ":" + TwoWide(JsRem(seconds, 60))
  }

  /** The argument of convertDurationToMMSS: a number or a string. */
  datatype Duration = Number(n: int) | Text(s: string)

  /** /^\d{1,2}:\d{2}$/ followed by split(":").map(Number): minutes * 60 + seconds. */
  function ParseColonForm(s: string): Option<nat>
  {
    if (|s| == 4 || |s| == 5) && s[|s| - 3] == ':'
       && AllDigits(s[..|s| - 3]) && AllDigits(s[|s| - 2..])
    then Some(DecimalValue(s[..|s| - 3]) * 60 + DecimalValue(s[|s| - 2..]))
    else None
  }

  /** How many ASCII digits s starts with. */
  function LeadingDigits(s: string): (i: nat)
    ensures i <= |s|
    ensures AllDigits(s[..i])
    ensures i < |s| ==> !IsDigit(s[i])
  {
    if |s| > 0 && IsDigit(s[0]) then
      var i := 1 + LeadingDigits(s[1..]);
      assert forall k :: 1 <= k < i ==> s[..i][k] == s[1..][..i - 1][k - 1];
      i
    else 0
  }

  /** The tail (?:(\d+)S)?$ of the PT pattern: optional seconds, then the end of the text. */
  function ParseSecondsPart(r: string): Option<nat>
  {
    var j := LeadingDigits(r);
    if r == "" then Some(0)
    else if 0 < j && j + 1 == |r| && r[j] == 'S' then Some(DecimalValue(r[..j]))
    else None
  }

  /** (?:(\d+)M)?(?:(\d+)S)?$: digits followed by "M" can only be the minutes group. */
  function ParseDesignators(r: string): Option<nat>
  {
    var i := LeadingDigits(r);
    if 0 < i < |r| && r[i] == 'M' then
      match ParseSecondsPart(r[i + 1..])
      case Some(seconds) => Some(DecimalValue(r[..i]) * 60 + seconds)
      case None => None
    else ParseSecondsPart(r)
  }

  /**
   * /^PT(?:(\d+)M)?(?:(\d+)S)?$/ with each captured group read by parseInt
   * (an absent group reads as "0"): the total number of seconds, or None when
   * the string does not match.
   */
  function ParsePT(s: string): Option<nat>
  {
    if |s| >= 2 && s[0] == 'P' && s[1] == 'T' then ParseDesignators(s[2..]) else None
  }

  /** convertDurationToMMSS. */
  function ConvertDurationToMMSS(d: Duration): string
  {
    match d
    case Number(n) => FormatTime(n)
    case Text(s) =>
      match ParseColonForm(s)
      case Some(total) => FormatTime(total)
      case None =>
        match ParsePT(s)
        case Some(total) => FormatTime(total)
        case None => "00:00"
  }

  // ---------------------------------------------------------------------------
  // The strings the PT pattern describes, built from their parts.

  /** A present optional group of the pattern: at least one digit. */
  predicate ValidGroup(g: Option<string>)
  {
    g.Some? ==> |g.value| >= 1 && AllDigits(g.value)
  }

  function GroupText(g: Option<string>, designator: char): string
  {
    match g
    case None => ""
    case Some(digits) => digits + [designator]
  }

  function GroupValue(g: Option<string>): nat
    requires ValidGroup(g)
  {
    match g
    case None => 0
    case Some(digits) => DecimalValue(digits)
  }

  /** "PT", then optionally minutes and "M", then optionally seconds and "S". */
  function PTText(minutes: Option<string>, seconds: Option<string>): string
  {
    "PT" + GroupText(minutes, 'M') + GroupText(seconds, 'S')
  }

  lemma LeadingDigitsOfGroup(digits: string, rest: string)
    requires AllDigits(digits) && (|rest| > 0 ==> !IsDigit(rest[0]))
    ensures LeadingDigits(digits + rest) == |digits|
    ensures (digits + rest)[..|digits|] == digits && (digits + rest)[|digits|..] == rest
  {
    var s := digits + rest;
    assert forall k :: 0 <= k < |digits| ==> s[k] == digits[k];
    assert |rest| > 0 ==> s[|digits|] == rest[0];
  }

  lemma SecondsPartAccepts(seconds: Option<string>)
    requires ValidGroup(seconds)
    ensures ParseSecondsPart(GroupText(seconds, 'S')) == Some(GroupValue(seconds))
  {
    if seconds.Some? {
      LeadingDigitsOfGroup(seconds.value, "S");
    }
  }

  /** Digits followed by "M" are read as the minutes group, whatever follows them. */
  lemma MinutesGroupRead(md: string, tail: string)
    requires |md| >= 1 && AllDigits(md)
    ensures ParseDesignators(md + ("M" + tail)).Some? <==> ParseSecondsPart(tail).Some?
    ensures ParseDesignators(md + ("M" + tail)).Some?
            ==> ParseDesignators(md + ("M" + tail)).value == DecimalValue(md) * 60 + ParseSecondsPart(tail).value
  {
    var r := md + ("M" + tail);
    LeadingDigitsOfGroup(md, "M" + tail);
    var i := LeadingDigits(r);
    assert i == |md| && 0 < i < |r|;
    assert r[i] == 'M' && r[..i] == md && r[i + 1..] == tail by {
      assert r[i..] == "M" + tail;
    }
    DesignatorsWithMinutes(r, i);
  }

  /** ParseDesignators when its text starts with a minutes group of i digits. */
  lemma DesignatorsWithMinutes(r: string, i: nat)
    requires i == LeadingDigits(r) && 0 < i < |r| && r[i] == 'M'
    ensures ParseDesignators(r).Some? <==> ParseSecondsPart(r[i + 1..]).Some?
    ensures ParseDesignators(r).Some?
            ==> ParseDesignators(r).value == DecimalValue(r[..i]) * 60 + ParseSecondsPart(r[i + 1..]).value
  {
  }

  /** Without a minutes group the whole text is left to the seconds part. */
  lemma SecondsGroupOnly(seconds: Option<string>)
    requires ValidGroup(seconds)
    ensures ParseDesignators(GroupText(seconds, 'S')) == ParseSecondsPart(GroupText(seconds, 'S'))
  {
    if seconds.Some? {
      LeadingDigitsOfGroup(seconds.value, "S");
    }
  }

  lemma DesignatorsAccept(minutes: Option<string>, seconds: Option<string>)
    requires ValidGroup(minutes) && ValidGroup(seconds)
    ensures ParseDesignators(GroupText(minutes, 'M') + GroupText(seconds, 'S')).Some?
    ensures ParseDesignators(GroupText(minutes, 'M') + GroupText(seconds, 'S')).value
            == GroupValue(minutes) * 60 + GroupValue(seconds)
  {
    var tail := GroupText(seconds, 'S');
    SecondsPartAccepts(seconds);
    var r := GroupText(minutes, 'M') + tail;
    if minutes.None? {
      assert r == tail;
      SecondsGroupOnly(seconds);
    } else {
      var md := minutes.value;
      assert r == md + ("M" + tail);
      MinutesGroupRead(md, tail);
    }
  }

  /** Every string the pattern describes is parsed to minutes * 60 + seconds. */
  lemma ParsePTAccepts(minutes: Option<string>, seconds: Option<string>)
    requires ValidGroup(minutes) && ValidGroup(seconds)
    ensures ParsePT(PTText(minutes, seconds)).Some?
    ensures ParsePT(PTText(minutes, seconds)).value == GroupValue(minutes) * 60 + GroupValue(seconds)
  {
    var r := GroupText(minutes, 'M') + GroupText(seconds, 'S');
    assert PTText(minutes, seconds) == "PT" + r;
    PrefixPT(r);
    DesignatorsAccept(minutes, seconds);
  }

  /** After the "PT" prefix the rest of the text is left to the designators. */
  lemma PrefixPT(r: string)
    ensures ParsePT("PT" + r) == ParseDesignators(r)
  {
    var s := "PT" + r;
    assert s[0] == 'P' && s[1] == 'T' && s[2..] == r;
  }

  /** Every string ParsePT accepts is one the pattern describes, and the value is read from its groups. */
  lemma ParsePTOnlyAccepts(s: string)
    requires ParsePT(s).Some?
    ensures exists minutes: Option<string>, seconds: Option<string> ::
      ValidGroup(minutes) && ValidGroup(seconds) && s == PTText(minutes, seconds)
      && ParsePT(s).value == GroupValue(minutes) * 60 + GroupValue(seconds)
  {
    var r := s[2..];
    assert s == "PT" + r;
    PrefixPT(r);
    var m, sec := DesignatorsOnlyAccept(r);
    assert s == PTText(m, sec);
  }

  /** The groups that a text accepted by ParseDesignators was built from. */
  lemma DesignatorsOnlyAccept(r: string) returns (minutes: Option<string>, seconds: Option<string>)
    requires ParseDesignators(r).Some?
    ensures ValidGroup(minutes) && ValidGroup(seconds)
    ensures r == GroupText(minutes, 'M') + GroupText(seconds, 'S')
    ensures ParseDesignators(r).value == GroupValue(minutes) * 60 + GroupValue(seconds)
  {
    var i := LeadingDigits(r);
    if 0 < i < |r| && r[i] == 'M' {
      var rest := r[i + 1..];
      minutes := Some(r[..i]);
      assert r == r[..i] + "M" + rest;
      DesignatorsWithMinutes(r, i);
      seconds := SecondsGroupOf(rest);
    } else {
      minutes := None;
      assert ParseDesignators(r) == ParseSecondsPart(r);
      seconds := SecondsGroupOf(r);
    }
  }

  /** The seconds group that a text accepted by ParseSecondsPart was built from. */
  lemma SecondsGroupOf(r: string) returns (seconds: Option<string>)
    requires ParseSecondsPart(r).Some?
    ensures ValidGroup(seconds) && r == GroupText(seconds, 'S')
    ensures ParseSecondsPart(r).value == GroupValue(seconds)
  {
    if r == "" {
      seconds := None;
    } else {
      var j := LeadingDigits(r);
      seconds := Some(r[..j]);
      assert r == r[..j] + "S";
    }
  }

  // ---------------------------------------------------------------------------
  // What formatTime produces for a non-negative number of seconds.

  lemma {:induction false} ZerosValue(z: string)
    requires forall k :: 0 <= k < |z| ==> z[k] == '0'
    ensures AllDigits(z) && DecimalValue(z) == 0
  {
    if |z| > 0 {
      ZerosValue(z[..|z| - 1]);
    }
  }

  /** Leading zeros do not change the value of a run of digits. */
  lemma {:induction false} LeadingZerosValue(z: string, d: string)
    requires forall k :: 0 <= k < |z| ==> z[k] == '0'
    requires AllDigits(d)
    ensures AllDigits(z + d) && DecimalValue(z + d) == DecimalValue(d)
    decreases |d|
  {
    ZerosValue(z);
    if |d| > 0 {
      var zd := z + d;
      assert zd[..|zd| - 1] == z + d[..|d| - 1];
      LeadingZerosValue(z, d[..|d| - 1]);
    } else {
      assert z + d == z;
    }
  }

  lemma TwoWideDigits(x: nat)
    ensures AllDigits(TwoWide(x)) && |TwoWide(x)| >= 2
    ensures DecimalValue(TwoWide(x)) == x
    ensures x < 100 ==> |TwoWide(x)| == 2
  {
    var d := NatToDecimal(x);
    DecimalRoundTrip(x);
    if |d| < 2 {
      var pad := PadStart(d, 2, '0');
      assert pad == pad[..2 - |d|] + d;
      LeadingZerosValue(pad[..2 - |d|], d);
    }
    if 10 <= x < 100 {
      DecimalLengthTwo(x);
    }
  }

  /**
   * t is a minutes field, ':' and a two-character seconds field, each made
   * of digits and worth the given values.
   */
  predicate IsTimeText(t: string, minutes: nat, secs: nat)
  {
    |t| >= 5 && t[|t| - 3] == ':'
    && AllDigits(t[|t| - 2..]) && DecimalValue(t[|t| - 2..]) == secs
    && AllDigits(t[..|t| - 3]) && DecimalValue(t[..|t| - 3]) == minutes
  }

  /**
   * For s >= 0, formatTime(s) is a minutes field, ':' and a seconds field:
   * the seconds field is exactly two digits worth s mod 60, and the minutes
   * field is at least two digits worth floor(s / 60), never cut short.
   */
  lemma FormatTimeFields(s: nat)
    ensures IsTimeText(FormatTime(s), s / 60, s % 60)
  {
    var t := FormatTime(s);
    var mm, ss := TwoWide(s / 60), TwoWide(s % 60);
    TwoWideDigits(s / 60);
    TwoWideDigits(s % 60);
    assert t == mm + ":" + ss;
    assert t[|t| - 2..] == ss;
    assert t[..|t| - 3] == mm;
  }

  /** A "mm:ss" text that formatTime produced for fewer than 100 minutes reads back as the same time. */
  lemma ConvertIsIdempotentOnFormatted(s: nat)
    requires s < 6000
    ensures ConvertDurationToMMSS(Text(FormatTime(s))) == FormatTime(s)
  {
    var t := FormatTime(s);
    FormatTimeFields(s);
    TwoWideDigits(s / 60);
    TwoWideDigits(s % 60);
    assert |t| == 5;
    ColonFormOfTimeText(t, s / 60, s % 60, s);
  }

  /** A five-character time text is read back by the "m:ss" branch. */
  lemma ColonFormOfTimeText(t: string, minutes: nat, secs: nat, total: nat)
    requires IsTimeText(t, minutes, secs) && |t| == 5 && total == minutes * 60 + secs
    ensures ConvertDurationToMMSS(Text(t)) == FormatTime(total)
  {
    assert ParseColonForm(t).Some? && ParseColonForm(t).value == total;
  }

  /** A PT duration of minutes and seconds is rendered as formatTime of its total seconds. */
  lemma ConvertPT(minutes: Option<string>, seconds: Option<string>, total: nat)
    requires ValidGroup(minutes) && ValidGroup(seconds)
    requires total == GroupValue(minutes) * 60 + GroupValue(seconds)
    ensures ConvertDurationToMMSS(Text(PTText(minutes, seconds))) == FormatTime(total)
  {
    var t := PTText(minutes, seconds);
    ParsePTAccepts(minutes, seconds);
    PTTextIsNotColonForm(minutes, seconds);
    ConvertByPT(t, total);
  }

  lemma PTTextIsNotColonForm(minutes: Option<string>, seconds: Option<string>)
    ensures ParseColonForm(PTText(minutes, seconds)).None?
  {
    var t := PTText(minutes, seconds);
    assert t[0] == 'P';
    ColonFormStartsWithDigit(t);
  }

  /** A text that is not "m:ss" but matches the PT pattern is converted through its PT value. */
  lemma ConvertByPT(t: string, total: nat)
    requires ParseColonForm(t).None? && ParsePT(t).Some? && ParsePT(t).value == total
    ensures ConvertDurationToMMSS(Text(t)) == FormatTime(total)
  {
  }

  lemma ColonFormStartsWithDigit(t: string)
    ensures ParseColonForm(t).Some? ==> |t| > 0 && IsDigit(t[0])
  {
    if ParseColonForm(t).Some? {
      assert t[..|t| - 3][0] == t[0];
    }
  }

  /** A bare "PT" is a zero duration. */
  lemma ConvertBarePT()
    ensures ConvertDurationToMMSS(Text("PT")) == "00:00"
  {
    var t := "PT";
    assert t[0] == 'P' && t[1] == 'T' && |t[2..]| == 0;
    assert ParseDesignators(t[2..]) == Some(0);
    assert ParseColonForm(t).None?;
    ConvertByPT(t, 0);
    FormatTimeZero();
  }

  lemma FormatTimeZero()
    ensures FormatTime(0) == "00:00"
  {
    assert IntToDecimal(0) == "0";
    assert TwoWide(0) == "00";
  }

  /** Hours are outside the accepted subset: "PT1H" falls through to "00:00". */
  lemma ConvertRejectsHours()
    ensures ConvertDurationToMMSS(Text("PT1H")) == "00:00"
  {
    var h := "PT1H";
    assert h[0] == 'P' && h[1] == 'T' && h[2..] == "1H";
    assert LeadingDigits("1H") == 1 by { assert LeadingDigits("H") == 0; }
    assert ParseSecondsPart("1H") == None;
  }
}
