/** `parseTime` of the chat widget (script.js): a time typed by the visitor is
    lowercased, trimmed and matched against two anchored regular expressions,
    the first of which is
        ^(\d{1,2}):?(\d{2})?\s*(am|pm)?$
    and the matched hours are turned into 24-hour "HH:MM" text. */
module TimeParse {
  import opened Base
  import opened Text

  /** The pieces of a string the first pattern matches: the hour digits, an
      optional colon, optional minute digits, white space and a period. */
  datatype TimeMatch = TimeMatch(
    hours: string,
    colon: bool,
    minutes: Option<string>,
    gap: string,
    period: string)

  /** "", "am" or "pm". */
  predicate IsPeriod(p: string) {
    |p| == 0 || (|p| == 2 && (p[0] == 'a' || p[0] == 'p') && p[1] == 'm')
  }

  predicate HoursText(h: string) {
    1 <= |h| <= 2 && AllDigits(h)
  }

  predicate MinutesText(minutes: Option<string>) {
    minutes.Some? ==> |minutes.value| == 2 && AllDigits(minutes.value)
  }

  /** Each piece is what its part of the pattern accepts. */
  predicate WellFormed(m: TimeMatch) {
    && HoursText(m.hours)
    && MinutesText(m.minutes)
    && AllSpaces(m.gap)
    && IsPeriod(m.period)
  }

  /** The digits and colon a match starts with. */
  function HeadText(hours: string, colon: bool, minutes: Option<string>): string {
    hours + (if colon then ":" else "") + minutes.GetOr("")
  }

  /** The text a match covers. */
  function Spelling(m: TimeMatch): string {
    HeadText(m.hours, m.colon, m.minutes) + (m.gap + m.period)
  }

  /** White space and then an optional period up to the end of the input. */
  function MatchTail(hours: string, colon: bool, minutes: Option<string>, rest: string): Option<TimeMatch> {
    var w := LeadingSpaces(rest);
    if IsPeriod(rest[w..]) then Some(TimeMatch(hours, colon, minutes, rest[..w], rest[w..])) else None
  }

  /** The first pattern, decided without backtracking: the length of the
      leading digit run and whether a colon follows fix every group. */
  function MatchFirst(s: string): Option<TimeMatch> {
    var k := LeadingDigits(s);
    if k == 0 then None
    else if k < |s| && s[k] == ':' then
      if k > 2 then None else MatchAfterColon(s[..k], s[k + 1..])
    else if k <= 2 then MatchTail(s[..k], false, None, s[k..])
    else if k <= 4 then MatchTail(s[..k - 2], false, Some(s[k - 2..k]), s[k..])
    else None
  }

  /** After "H:" the minutes are two digits or absent. */
  function MatchAfterColon(hours: string, after: string): Option<TimeMatch> {
    var j := LeadingDigits(after);
    if j == 2 then MatchTail(hours, true, Some(after[..2]), after[2..])
    else if j == 0 then MatchTail(hours, true, None, after)
    else None
  }

  /** Whatever `MatchTail` returns spells its head followed by `rest`. */
  lemma {:induction false} MatchTailSound(hours: string, colon: bool, minutes: Option<string>, rest: string)
    requires HoursText(hours) && MinutesText(minutes)
    ensures var r := MatchTail(hours, colon, minutes, rest);
      r.Some? ==> (WellFormed(r.value) && Spelling(r.value) == HeadText(hours, colon, minutes) + rest)
  {
    SplitAt(rest, LeadingSpaces(rest));
  }

  lemma {:induction false} MatchAfterColonSound(hours: string, after: string)
    requires HoursText(hours)
    ensures var r := MatchAfterColon(hours, after);
      r.Some? ==> (WellFormed(r.value) && Spelling(r.value) == hours + ":" + after)
  {
    var j := LeadingDigits(after);
    if j == 2 {
      MatchTailSound(hours, true, Some(after[..2]), after[2..]);
      SplitAt(after, 2);
    } else if j == 0 {
      MatchTailSound(hours, true, None, after);
    }
  }

  /** A match found by `MatchFirst` is well formed and spells the input. */
  lemma {:induction false} MatchFirstSound(s: string)
    ensures MatchFirst(s).Some? ==> WellFormed(MatchFirst(s).value) && Spelling(MatchFirst(s).value) == s
  {
    var k := LeadingDigits(s);
    if k == 0 {
    } else if k < |s| && s[k] == ':' {
      if k <= 2 {
        ColonSound(s, k);
      }
    } else if k <= 2 {
      HoursOnlySound(s, k);
    } else if k <= 4 {
      JoinedSound(s, k);
    }
  }

  lemma {:induction false} ColonSound(s: string, k: nat)
    requires k == LeadingDigits(s) && 0 < k <= 2
    requires k < |s| && s[k] == ':'
    ensures MatchFirst(s).Some? ==> WellFormed(MatchFirst(s).value) && Spelling(MatchFirst(s).value) == s
  {
    assert MatchFirst(s) == MatchAfterColon(s[..k], s[k + 1..]);
    MatchAfterColonSound(s[..k], s[k + 1..]);
    SplitAround(s, k);
  }

  lemma {:induction false} HoursOnlySound(s: string, k: nat)
    requires k == LeadingDigits(s) && 0 < k <= 2
    requires !(k < |s| && s[k] == ':')
    ensures MatchFirst(s).Some? ==> WellFormed(MatchFirst(s).value) && Spelling(MatchFirst(s).value) == s
  {
    MatchFirstHoursOnly(s);
    HoursPiecesSound(s, k);
    MatchTailSound(s[..k], false, None, s[k..]);
  }

  /** One or two digits are the hours, and with the rest spell the input. */
  lemma {:induction false} HoursPiecesSound(s: string, k: nat)
    requires k == LeadingDigits(s) && 0 < k <= 2
    ensures HoursText(s[..k])
    ensures HeadText(s[..k], false, None) + s[k..] == s
  {
    assert HeadText(s[..k], false, None) == s[..k];
    SplitAt(s, k);
  }

  lemma {:induction false} JoinedSound(s: string, k: nat)
    requires k == LeadingDigits(s) && 2 < k <= 4
    requires !(k < |s| && s[k] == ':')
    ensures MatchFirst(s).Some? ==> WellFormed(MatchFirst(s).value) && Spelling(MatchFirst(s).value) == s
  {
    var h, mm, rest := s[..k - 2], s[k - 2..k], s[k..];
    MatchFirstJoined(s);
    JoinedPiecesSound(s, k);
    MatchTailSound(h, false, Some(mm), rest);
  }

  /** A run of three or four digits splits into hours and two minute digits
      that, with the rest, spell the input again. */
  lemma {:induction false} JoinedPiecesSound(s: string, k: nat)
    requires k == LeadingDigits(s) && 2 < k <= 4
    ensures HoursText(s[..k - 2]) && MinutesText(Some(s[k - 2..k]))
    ensures HeadText(s[..k - 2], false, Some(s[k - 2..k])) + s[k..] == s
  {
    var d := s[..k];
    assert s[..k - 2] == d[..k - 2];
    assert s[k - 2..k] == d[k - 2..];
    assert HeadText(s[..k - 2], false, Some(s[k - 2..k])) == s[..k - 2] + s[k - 2..k];
    assert s[..k - 2] + s[k - 2..k] == d;
    SplitAt(s, k);
  }

  /** Every string the first pattern accepts is recognised, and split into
      exactly the pieces it was built from: the pattern is unambiguous. */
  lemma {:induction false} MatchFirstComplete(m: TimeMatch)
    requires WellFormed(m)
    ensures MatchFirst(Spelling(m)) == Some(m)
  {
    TailMatches(m);
    if m.colon {
      CompleteWithColon(m);
    } else if m.minutes.Some? {
      CompleteJoined(m);
    } else {
      CompleteHoursOnly(m);
    }
  }

  /** The white space and period after the digits start with neither a digit
      nor a colon, and are split back into the same two pieces. */
  lemma {:induction false} TailMatches(m: TimeMatch)
    requires WellFormed(m)
    ensures LeadingDigits(m.gap + m.period) == 0
    ensures |m.gap + m.period| == 0 || (m.gap + m.period)[0] != ':'
    ensures MatchTail(m.hours, m.colon, m.minutes, m.gap + m.period) == Some(m)
  {
    var tail := m.gap + m.period;
    LeadingSpacesAppend(m.gap, m.period);
    assert LeadingSpaces(m.period) == 0;
    ConcatSlices(m.gap, m.period);
    if |m.gap| > 0 {
      assert tail[0] == m.gap[0];
      SpaceIsNotSyntax(m.gap[0]);
    } else if |m.period| > 0 {
      assert tail[0] == m.period[0];
    }
  }

  lemma {:induction false} CompleteWithColon(m: TimeMatch)
    requires WellFormed(m) && m.colon
    requires LeadingDigits(m.gap + m.period) == 0
    requires MatchTail(m.hours, m.colon, m.minutes, m.gap + m.period) == Some(m)
    ensures MatchFirst(Spelling(m)) == Some(m)
  {
    var after := m.minutes.GetOr("") + (m.gap + m.period);
    ColonSplit(m);
    assert MatchFirst(Spelling(m)) == MatchAfterColon(m.hours, after);
    AfterColonComplete(m);
  }

  /** In the spelling of a match with a colon, the digit run is the hours and
      the colon follows it. */
  lemma {:induction false} ColonSplit(m: TimeMatch)
    requires WellFormed(m) && m.colon
    ensures var s := Spelling(m); var k := |m.hours|;
      && LeadingDigits(s) == k && k < |s| && s[k] == ':' && s[..k] == m.hours
      && s[k + 1..] == m.minutes.GetOr("") + (m.gap + m.period)
  {
    var s := Spelling(m);
    var after := m.minutes.GetOr("") + (m.gap + m.period);
    var rest := [':'] + after;
    assert s == m.hours + rest;
    assert LeadingDigits(rest) == 0;
    LeadingDigitsAppend(m.hours, rest);
    ConcatSlices(m.hours, rest);
    assert rest[1..] == after;
  }

  lemma {:induction false} AfterColonComplete(m: TimeMatch)
    requires WellFormed(m) && m.colon
    requires LeadingDigits(m.gap + m.period) == 0
    requires MatchTail(m.hours, m.colon, m.minutes, m.gap + m.period) == Some(m)
    ensures MatchAfterColon(m.hours, m.minutes.GetOr("") + (m.gap + m.period)) == Some(m)
  {
    var mm := m.minutes.GetOr("");
    var tail := m.gap + m.period;
    LeadingDigitsAppend(mm, tail);
    ConcatSlices(mm, tail);
  }

  lemma {:induction false} CompleteJoined(m: TimeMatch)
    requires WellFormed(m) && !m.colon && m.minutes.Some?
    requires LeadingDigits(m.gap + m.period) == 0
    requires |m.gap + m.period| == 0 || (m.gap + m.period)[0] != ':'
    requires MatchTail(m.hours, m.colon, m.minutes, m.gap + m.period) == Some(m)
    ensures MatchFirst(Spelling(m)) == Some(m)
  {
    var tail := m.gap + m.period;
    var hm := m.hours + m.minutes.value;
    var s := hm + tail;
    JoinedSpelling(m);
    DigitsThenTail(hm, tail);
    JoinedPieces(m.hours, m.minutes.value, tail);
    MatchFirstJoined(s);
    assert MatchFirst(s) == MatchTail(m.hours, false, m.minutes, tail);
  }

  /** Hours and minutes without a colon spell one run of digits. */
  lemma JoinedSpelling(m: TimeMatch)
    requires WellFormed(m) && !m.colon && m.minutes.Some?
    ensures var hm := m.hours + m.minutes.value;
      Spelling(m) == hm + (m.gap + m.period) && AllDigits(hm) && 2 < |hm| <= 4
  {
    var hm := m.hours + m.minutes.value;
    assert HeadText(m.hours, m.colon, m.minutes) == hm;
    assert forall i | 0 <= i < |hm| :: hm[i] == if i < |m.hours| then m.hours[i] else m.minutes.value[i - |m.hours|];
  }

  lemma {:induction false} CompleteHoursOnly(m: TimeMatch)
    requires WellFormed(m) && !m.colon && m.minutes.None?
    requires LeadingDigits(m.gap + m.period) == 0
    requires |m.gap + m.period| == 0 || (m.gap + m.period)[0] != ':'
    requires MatchTail(m.hours, m.colon, m.minutes, m.gap + m.period) == Some(m)
    ensures MatchFirst(Spelling(m)) == Some(m)
  {
    var tail := m.gap + m.period;
    assert Spelling(m) == m.hours + tail;
    DigitsThenTail(m.hours, tail);
    MatchFirstHoursOnly(m.hours + tail);
  }

  lemma JoinedPieces(hours: string, minutes: string, tail: string)
    requires |minutes| == 2
    ensures var s := hours + minutes + tail; var k := |hours| + 2;
      s[..k - 2] == hours && s[k - 2..k] == minutes
  {
    var s := hours + minutes + tail;
    assert s[..|hours|] == hours;
    assert forall i | 0 <= i < 2 :: s[|hours| + i] == minutes[i];
  }

  /** Digits followed by a tail that starts with neither a digit nor a
      colon: the digit run is exactly the given digits. */
  lemma DigitsThenTail(digits: string, tail: string)
    requires AllDigits(digits) && LeadingDigits(tail) == 0
    requires |tail| == 0 || tail[0] != ':'
    ensures var s := digits + tail;
      && LeadingDigits(s) == |digits| && s[..|digits|] == digits && s[|digits|..] == tail
      && !(|digits| < |s| && s[|digits|] == ':')
  {
    LeadingDigitsAppend(digits, tail);
    ConcatSlices(digits, tail);
    NoColonAfterDigits(digits + tail, digits, tail);
  }

  /** Digits followed by a tail that does not start with a colon. */
  lemma NoColonAfterDigits(s: string, digits: string, tail: string)
    requires s == digits + tail
    requires |tail| == 0 || tail[0] != ':'
    ensures !(|digits| < |s| && s[|digits|] == ':')
  {
    if |digits| < |s| {
      assert s[|digits|] == tail[0];
    }
  }

  /** `MatchFirst` on one or two digits not followed by a colon. */
  lemma MatchFirstHoursOnly(s: string)
    requires var k := LeadingDigits(s); 0 < k <= 2 && !(k < |s| && s[k] == ':')
    ensures var k := LeadingDigits(s); MatchFirst(s) == MatchTail(s[..k], false, None, s[k..])
  {
  }

  /** `MatchFirst` on three or four digits not followed by a colon. */
  lemma MatchFirstJoined(s: string)
    requires var k := LeadingDigits(s); 2 < k <= 4 && !(k < |s| && s[k] == ':')
    ensures var k := LeadingDigits(s); MatchFirst(s) == MatchTail(s[..k - 2], false, Some(s[k - 2..k]), s[k..])
  {
  }



  /** The second pattern `^(\d{1,2})\s*(am|pm)$`: hour digits, white space and
      a period that must be present. */
  datatype ShortMatch = ShortMatch(hours: string, gap: string, period: string)

  function MatchSecond(s: string): Option<ShortMatch> {
    var k := LeadingDigits(s);
    if 1 <= k <= 2 then
      var rest := s[k..];
      var w := LeadingSpaces(rest);
      if |rest[w..]| == 2 && IsPeriod(rest[w..]) then Some(ShortMatch(s[..k], rest[..w], rest[w..])) else None
    else None
  }

  /** Whatever the second pattern accepts, the first already accepts, as the
      same hours, white space and period with no colon and no minutes. */
  lemma {:induction false} SecondPatternSubsumed(s: string)
    ensures MatchSecond(s).Some? ==>
      var x := MatchSecond(s).value;
      MatchFirst(s) == Some(TimeMatch(x.hours, false, None, x.gap, x.period))
  {
    if MatchSecond(s).Some? {
      var x := MatchSecond(s).value;
      var m := TimeMatch(x.hours, false, None, x.gap, x.period);
      SecondSpelling(s);
      MatchFirstComplete(m);
    }
  }

  lemma {:induction false} SecondSpelling(s: string)
    requires MatchSecond(s).Some?
    ensures var x := MatchSecond(s).value; var m := TimeMatch(x.hours, false, None, x.gap, x.period);
      WellFormed(m) && Spelling(m) == s
  {
    var k := LeadingDigits(s);
    var rest := s[k..];
    var w := LeadingSpaces(rest);
    SplitAt(rest, w);
    SplitAt(s, k);
    assert HeadText(s[..k], false, None) == s[..k];
  }

  /** Hours after the 12-hour adjustment, as two consecutive `if`s: "pm"
      below twelve adds twelve, then "am" at twelve becomes zero. */
  function To24(h: nat, period: string): nat {
    var h1 := if period == "pm" && h < 12 then h + 12 else h;
    if period == "am" && h1 == 12 then 0 else h1
  }

  /** The destructuring `[_, hours, minutes = '00', period = ''] = match`
      followed by the conversion and `HH:MM` formatting. */
  function Render(hours: string, minutes: Option<string>, period: Option<string>): string
    requires HoursText(hours)
  {
    ShortDecimalBound(hours);
    var h := To24(ParseDecimal(hours), period.GetOr(""));
    TwoDigits(h) + ":" + minutes.GetOr("00")
  }

  /** The groups the first pattern reports: an empty period is an unmatched,
      `undefined` group. */
  function RenderFirst(m: TimeMatch): string
    requires WellFormed(m)
  {
    Render(m.hours, m.minutes, if |m.period| == 0 then None else Some(m.period))
  }

  /** `parseTime(input)`: the formats are tried in order and the first match
      decides. For the second pattern the destructuring shifts: its second
      group (the period) lands in `minutes` and `period` stays empty. */
  function ParseTime(input: string): Option<string> {
    var s := Trim(Lower(input));
    MatchFirstSound(s);
    match MatchFirst(s)
    case Some(m) => Some(RenderFirst(m))
    case None =>
      match MatchSecond(s)
      case Some(x) => Some(Render(x.hours, Some(x.period), None))
      case None => None
  }

  /** Only the first pattern ever decides the result. */
  lemma {:induction false} FirstPatternDecides(input: string)
    ensures var s := Trim(Lower(input));
      && (MatchFirst(s).None? ==> ParseTime(input).None?)
      && (MatchFirst(s).Some? ==>
            WellFormed(MatchFirst(s).value) && ParseTime(input) == Some(RenderFirst(MatchFirst(s).value)))
  {
    var s := Trim(Lower(input));
    MatchFirstSound(s);
    SecondPatternSubsumed(s);
  }

  /** `out` is two digits spelling `h`, a colon, and then `minutes`. */
  predicate IsClock(out: string, h: nat, minutes: string) {
    && |out| == 5 && out[2] == ':'
    && AllDigits(out[..2]) && ParseDecimal(out[..2]) == h
    && out[3..] == minutes
  }

  /** The rendered text: two hour digits spelling the 24-hour value, a colon,
      and the matched minute digits or "00". */
  lemma {:induction false} RenderFirstShape(m: TimeMatch)
    requires WellFormed(m)
    ensures IsClock(RenderFirst(m), To24(ParseDecimal(m.hours), m.period), m.minutes.GetOr("00"))
    ensures AllDigits(RenderFirst(m)[3..])
  {
    ShortDecimalBound(m.hours);
    var p := if |m.period| == 0 then None else Some(m.period);
    assert p.GetOr("") == m.period;
    var h := To24(ParseDecimal(m.hours), m.period);
    var out := TwoDigits(h) + ":" + m.minutes.GetOr("00");
    assert RenderFirst(m) == out;
    var tail := ":" + m.minutes.GetOr("00");
    assert |m.minutes.GetOr("00")| == 2;
    ConcatSlices(TwoDigits(h), tail);
    assert out[..2] == TwoDigits(h);
    assert out[2] == tail[0] == ':';
    assert out[3..] == tail[1..] == m.minutes.GetOr("00");
  }

  /** What `parseTime` promises: it succeeds exactly when the whole lowercased,
      trimmed input matches the first pattern, and then yields two hour
      digits spelling the 24-hour value, a colon, and the matched minute
      digits or "00". Hours and minutes are not range-checked. */
  lemma {:induction false} ParseTimeMeaning(input: string)
    ensures var s := Trim(Lower(input));
      match MatchFirst(s)
      case None => ParseTime(input).None?
      case Some(m) =>
        && WellFormed(m) && Spelling(m) == s
        && ParseTime(input).Some?
        && IsClock(ParseTime(input).value, To24(ParseDecimal(m.hours), m.period), m.minutes.GetOr("00"))
  {
    var s := Trim(Lower(input));
    FirstPatternDecides(input);
    MatchFirstSound(s);
    if MatchFirst(s).Some? {
      RenderFirstShape(MatchFirst(s).value);
    }
  }

  /** The 24-hour conversion: "pm" adds twelve to every hour below twelve
      (so "0pm" is 12) and leaves twelve and above alone, midnight is
      "12am", and without a period nothing changes. */
  lemma To24Cases(h: nat)
    ensures h < 12 ==> To24(h, "pm") == h + 12
    ensures To24(12, "pm") == 12 && To24(12, "am") == 0
    ensures h != 12 ==> To24(h, "am") == h
    ensures To24(h, "") == h
    ensures h >= 12 ==> To24(h, "pm") == h
  {
  }

  /** "HH:MM": two digits, a colon and two digits, as the slot templates
      write every time. */
  predicate IsClockText(s: string) {
    |s| == 5 && s[2] == ':' && AllDigits(s[..2]) && AllDigits(s[3..])
  }

  /** A time written the way the slot lists show it is read back unchanged:
      typing an offered slot verbatim always parses to that slot. */
  lemma {:induction false} ClockRoundTrip(s: string)
    requires IsClockText(s)
    ensures ParseTime(s) == Some(s)
  {
    assert forall i | 0 <= i < 2 :: s[i] == s[..2][i];
    assert forall i | 3 <= i < 5 :: s[i] == s[3..][i - 3];
    LowerKeeps(s);
    assert IsDigit(s[0]) && IsDigit(s[4]);
    DigitIsNotSpace(s[0]);
    DigitIsNotSpace(s[4]);
    TrimKeeps(s);
    var m := TimeMatch(s[..2], true, Some(s[3..]), "", "");
    assert Spelling(m) == s;
    MatchFirstComplete(m);
    ParseTimeMeaning(s);
    var out := ParseTime(s).value;
    DigitPairInjective(out[..2], s[..2]);
    SplitAround(out, 2);
    SplitAround(s, 2);
  }
}
