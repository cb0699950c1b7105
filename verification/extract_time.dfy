/** `extractTime` from the chat server: the unanchored, case-insensitive
    pattern `(\d{1,2}):?(\d{2})?\s*(am|pm)?` searched anywhere in a message,
    followed by the am/pm conversion and `padStart(2, '0')` formatting.

    Every part after the leading `\d{1,2}` is optional, so the leftmost
    match starts at the first digit of the message and the greedy choice at
    each part already succeeds: no backtracking is ever needed. The matcher
    below therefore walks the message once, by position. */
module ExtractTime {
  import opened Base
  import opened Text
  import TimeParse

  /** Position of the first digit at or after `i`, or `|s|` if there is none. */
  function FirstDigitFrom(s: string, i: nat): (k: nat)
    requires i <= |s|
    ensures i <= k <= |s|
    ensures k < |s| ==> IsDigit(s[k])
    decreases |s| - i
  {
    if i == |s| || IsDigit(s[i]) then i else FirstDigitFrom(s, i + 1)
  }

  /** A digit with none before it is the one found. */
  lemma {:induction false} FirstDigitIs(s: string, i: nat, n: nat)
    requires i <= n < |s| && IsDigit(s[n])
    requires forall j | i <= j < n :: !IsDigit(s[j])
    ensures FirstDigitFrom(s, i) == n
    decreases n - i
  {
    if i < n {
      FirstDigitIs(s, i + 1, n);
    }
  }

  /** No digit comes before the one found. */
  lemma {:induction false} FirstDigitIsFirst(s: string, i: nat)
    requires i <= |s|
    ensures forall j | i <= j < FirstDigitFrom(s, i) :: !IsDigit(s[j])
    decreases |s| - i
  {
    if i < |s| && !IsDigit(s[i]) {
      FirstDigitIsFirst(s, i + 1);
    }
  }

  /** Length of the run of white space starting at `i` (`\s*`, greedy). */
  function SpacesFrom(s: string, i: nat): (n: nat)
    requires i <= |s|
    ensures i + n <= |s|
    decreases |s| - i
  {
    if i < |s| && IsSpace(s[i]) then 1 + SpacesFrom(s, i + 1) else 0
  }

  /** The run is white space and stops before a character that is not. */
  lemma {:induction false} SpacesRun(s: string, i: nat)
    requires i <= |s|
    ensures forall j | i <= j < i + SpacesFrom(s, i) :: IsSpace(s[j])
    ensures i + SpacesFrom(s, i) < |s| ==> !IsSpace(s[i + SpacesFrom(s, i)])
    decreases |s| - i
  {
    if i < |s| && IsSpace(s[i]) {
      SpacesRun(s, i + 1);
    }
  }

  /** Where the pattern matched: the hour digits are `s[start..hoursEnd]`;
      `colon` says a colon follows them; the minutes would start at
      `minutesAt`, and `minutes` says two digits `s[minutesAt..minutesEnd]`
      were taken there; after the white space, `period` is the lowercased
      first letter of an "am" or "pm" found at `periodAt`. */
  datatype Loose = Loose(start: nat, hoursEnd: nat, colon: bool, minutesAt: nat,
                         minutes: bool, minutesEnd: nat, periodAt: nat,
                         period: Option<char>)

  /** The letter `lower` (or its capital `upper`) and then "m" or "M" at `i`.
      Without the `u` flag, the `i` flag folds case by `toUpperCase` and never
      maps a non-ASCII character to an ASCII one, so these are the only
      spellings that match. */
  predicate PeriodAt(s: string, i: nat, lower: char, upper: char) {
    i + 1 < |s| && (s[i] == lower || s[i] == upper) && (s[i + 1] == 'm' || s[i + 1] == 'M')
  }

  /** `\d{1,2}` at a digit: a second digit is taken whenever there is one. */
  function HoursEnd(s: string, p: nat): (e: nat)
    requires p < |s| && IsDigit(s[p])
    ensures p < e <= |s| && e <= p + 2
  {
    if p + 1 < |s| && IsDigit(s[p + 1]) then p + 2 else p + 1
  }

  /** `:?` at `i`. */
  predicate ColonAt(s: string, i: nat) {
    i < |s| && s[i] == ':'
  }

  /** `(\d{2})?` at `i` takes its two digits. */
  predicate TwoDigitsAt(s: string, i: nat) {
    i + 1 < |s| && IsDigit(s[i]) && IsDigit(s[i + 1])
  }

  /** `(am|pm)?` at `i`, case-insensitively: the lowercased first letter. */
  function PeriodFrom(s: string, i: nat): Option<char> {
    if PeriodAt(s, i, 'a', 'A') then Some('a')
    else if PeriodAt(s, i, 'p', 'P') then Some('p')
    else None
  }

  /** The positions of `m` are in order inside `s`, with digits where the
      hours and the minutes were taken. */
  predicate Placed(s: string, m: Loose) {
    && m.start < m.hoursEnd <= m.start + 2
    && m.hoursEnd <= m.minutesAt <= m.minutesEnd <= m.periodAt <= |s|
    && IsDigit(s[m.start]) && (m.hoursEnd == m.start + 2 ==> IsDigit(s[m.start + 1]))
    && (m.minutes ==> m.minutesEnd == m.minutesAt + 2 && IsDigit(s[m.minutesAt]) && IsDigit(s[m.minutesAt + 1]))
    && (!m.minutes ==> m.minutesEnd == m.minutesAt)
  }

  /** The match that starts at the digit `p`, each part taken greedily:
      the hours, then the stages below. */
  function MatchAt(s: string, p: nat): (m: Loose)
    requires p < |s| && IsDigit(s[p])
  {
    AfterHours(s, p, HoursEnd(s, p))
  }

  /** `:?` after the hour digits ending at `e`. */
  function AfterHours(s: string, p: nat, e: nat): Loose {
    AfterColon(s, p, e, ColonAt(s, e), if ColonAt(s, e) then e + 1 else e)
  }

  /** `(\d{2})?` at `k`. */
  function AfterColon(s: string, p: nat, e: nat, colon: bool, k: nat): Loose {
    AfterMinutes(s, p, e, colon, k, TwoDigitsAt(s, k), if TwoDigitsAt(s, k) then k + 2 else k)
  }

  /** `\s*(am|pm)?` from `f`. */
  function AfterMinutes(s: string, p: nat, e: nat, colon: bool, k: nat, minutes: bool, f: nat): Loose {
    var g := if f <= |s| then f + SpacesFrom(s, f) else f;
    Loose(p, e, colon, k, minutes, f, g, PeriodFrom(s, g))
  }

  /** The fields of the match, stage by stage. */
  lemma {:induction false} MatchAtUnfold(s: string, p: nat)
    requires p < |s| && IsDigit(s[p])
    ensures var m := MatchAt(s, p);
      && m.start == p && m.hoursEnd == HoursEnd(s, p)
      && m.colon == ColonAt(s, m.hoursEnd)
      && m.minutesAt == (if m.colon then m.hoursEnd + 1 else m.hoursEnd)
      && m.minutes == TwoDigitsAt(s, m.minutesAt)
      && m.minutesEnd == (if m.minutes then m.minutesAt + 2 else m.minutesAt)
      && m.minutesEnd <= |s|
      && m.periodAt == m.minutesEnd + SpacesFrom(s, m.minutesEnd)
      && m.period == PeriodFrom(s, m.periodAt)
  {
    var e := HoursEnd(s, p);
    var k := if ColonAt(s, e) then e + 1 else e;
    var f := if TwoDigitsAt(s, k) then k + 2 else k;
    assert MatchAt(s, p) == AfterMinutes(s, p, e, ColonAt(s, e), k, TwoDigitsAt(s, k), f);
  }

  lemma {:induction false} MatchAtPlaced(s: string, p: nat)
    requires p < |s| && IsDigit(s[p])
    ensures MatchAt(s, p).start == p && Placed(s, MatchAt(s, p))
  {
    MatchAtUnfold(s, p);
  }

  /** `message.match(timeRegex)`: the leftmost match starts at the first digit. */
  function MatchLoose(s: string): (r: Option<Loose>)
    ensures r.Some? ==> Placed(s, r.value) && r.value == MatchAt(s, r.value.start)
  {
    var p := FirstDigitFrom(s, 0);
    if p == |s| then None else MatchAtPlaced(s, p); Some(MatchAt(s, p))
  }

  /** `hours.toString().padStart(2, '0')`, a colon, and the same for the
      minutes. */
  function Clock(hours: nat, minutes: nat): string
    requires hours < 100 && minutes < 100
  {
    TwoDigits(hours) + ":" + TwoDigits(minutes)
  }

  lemma {:induction false} ClockShape(hours: nat, minutes: nat)
    requires hours < 100 && minutes < 100
    ensures TimeParse.IsClock(Clock(hours, minutes), hours, TwoDigits(minutes))
  {
    var hh := TwoDigits(hours);
    var tail := ":" + TwoDigits(minutes);
    var out := hh + tail;
    assert out == Clock(hours, minutes);
    ConcatSlices(hh, tail);
    assert out[..2] == hh;
    assert AllDigits(hh) && ParseDecimal(hh) == hours;
    assert out[2] == tail[0] == ':';
    assert out[3..] == tail[1..] == TwoDigits(minutes);
  }

  /** `match[3].toLowerCase()`, or no period. */
  function PeriodText(period: Option<char>): string {
    match period
    case Some('a') => "am"
    case Some('p') => "pm"
    case _ => ""
  }

  function HoursText(s: string, m: Loose): (r: string)
    requires Placed(s, m)
    ensures 1 <= |r| <= 2 && AllDigits(r)
  {
    s[m.start..m.hoursEnd]
  }

  /** The minute digits, empty when none were taken. */
  function MinutesText(s: string, m: Loose): (r: string)
    requires Placed(s, m)
    ensures |r| <= 2 && AllDigits(r) && (m.minutes <==> |r| == 2)
  {
    s[m.minutesAt..m.minutesEnd]
  }

  /** The conversion and formatting applied to the matched hour digits,
      minute digits (possibly none, which parse as 0) and period. */
  function Reading(hours: string, minutes: string, period: Option<char>): string
    requires |hours| <= 2 && AllDigits(hours) && |minutes| <= 2 && AllDigits(minutes)
  {
    ShortDecimalBound(hours);
    ShortDecimalBound(minutes);
    Clock(TimeParse.To24(ParseDecimal(hours), PeriodText(period)), ParseDecimal(minutes))
  }

  /** `extractTime(message)`: `None` stands for `null`. */
  function ExtractTime(s: string): Option<string> {
    match MatchLoose(s)
    case None => None
    case Some(m) => Some(Reading(HoursText(s, m), MinutesText(s, m), m.period))
  }

  predicate NoDigits(s: string) {
    forall i | 0 <= i < |s| :: !IsDigit(s[i])
  }

  /** Since everything after the hour digits is optional, the pattern
      matches exactly when the message holds a digit somewhere. */
  lemma NullIffNoDigit(s: string)
    ensures ExtractTime(s).None? <==> NoDigits(s)
  {
    FirstDigitIsFirst(s, 0);
    if !NoDigits(s) {
      var i :| 0 <= i < |s| && IsDigit(s[i]);
      assert FirstDigitFrom(s, 0) <= i;
    }
  }

  /** The leftmost match starts at the first digit of the message. */
  lemma {:induction false} MatchStartsAtFirstDigit(s: string)
    ensures MatchLoose(s).None? <==> NoDigits(s)
    ensures MatchLoose(s).Some? ==>
      && MatchLoose(s).value == MatchAt(s, MatchLoose(s).value.start)
      && (forall j | 0 <= j < MatchLoose(s).value.start :: !IsDigit(s[j]))
  {
    FirstDigitIsFirst(s, 0);
    if !NoDigits(s) {
      var i :| 0 <= i < |s| && IsDigit(s[i]);
      assert FirstDigitFrom(s, 0) <= i;
    }
  }

  /** At a digit, the hours take a second digit whenever one follows, a
      colon is taken when one follows, and the minutes are taken exactly
      when two digits come next. */
  lemma {:induction false} MatchAtDigits(s: string, p: nat)
    requires p < |s| && IsDigit(s[p])
    ensures var m := MatchAt(s, p);
      && (m.hoursEnd == p + 2 <==> p + 1 < |s| && IsDigit(s[p + 1]))
      && (m.colon <==> m.hoursEnd < |s| && s[m.hoursEnd] == ':')
      && m.minutesAt == (if m.colon then m.hoursEnd + 1 else m.hoursEnd)
      && (m.minutes <==> m.minutesAt + 1 < |s| && IsDigit(s[m.minutesAt]) && IsDigit(s[m.minutesAt + 1]))
  {
    MatchAtUnfold(s, p);
  }

  /** The period is "am" or "pm" in any letter case, read after the whole
      run of white space that follows the digits. */
  lemma {:induction false} MatchAtPeriod(s: string, p: nat)
    requires p < |s| && IsDigit(s[p])
    ensures var m := MatchAt(s, p);
      && (forall j | m.minutesEnd <= j < m.periodAt :: IsSpace(s[j]))
      && (m.periodAt < |s| ==> !IsSpace(s[m.periodAt]))
      && (m.period == Some('a') <==> PeriodAt(s, m.periodAt, 'a', 'A'))
      && (m.period == Some('p') <==> PeriodAt(s, m.periodAt, 'p', 'P'))
  {
    MatchAtUnfold(s, p);
    SpacesRun(s, MatchAt(s, p).minutesEnd);
  }

  /** The result: two digits spelling the converted hours, a colon, and two
      digits spelling the minutes (the matched ones, or "00"). Nothing is
      range-checked, so "99:99" is a possible answer. */
  lemma {:induction false} ExtractTimeMeaning(s: string)
    ensures match MatchLoose(s)
      case None => ExtractTime(s).None?
      case Some(m) =>
        && ExtractTime(s).Some?
        && TimeParse.IsClock(ExtractTime(s).value,
             TimeParse.To24(ParseDecimal(HoursText(s, m)), PeriodText(m.period)),
             if m.minutes then MinutesText(s, m) else "00")
  {
    match MatchLoose(s)
    case None =>
    case Some(m) =>
      var digits := MinutesText(s, m);
      ShortDecimalBound(HoursText(s, m));
      ShortDecimalBound(digits);
      var hours := TimeParse.To24(ParseDecimal(HoursText(s, m)), PeriodText(m.period));
      var minutes := if m.minutes then ParseDecimal(digits) else 0;
      assert ExtractTime(s) == Some(Clock(hours, minutes));
      ClockShape(hours, minutes);
      if m.minutes {
        DigitPairInjective(TwoDigits(minutes), digits);
      } else {
        DigitPairInjective(TwoDigits(0), "00");
      }
  }

  /** `s` and `t` are the same text up to letter case. */
  predicate SameFold(s: string, t: string) {
    |s| == |t| && forall i | 0 <= i < |s| :: FoldAt(s, t, i)
  }

  predicate FoldAt(s: string, t: string, i: nat)
    requires i < |s| && i < |t|
  {
    LowerChar(s[i]) == LowerChar(t[i])
  }

  /** Characters equal up to case are the same digit, colon, space or
      period letter. */
  lemma FoldKeepsClasses(s: string, t: string, i: nat)
    requires SameFold(s, t) && i < |s|
    ensures IsDigit(s[i]) <==> IsDigit(t[i])
    ensures s[i] == ':' <==> t[i] == ':'
    ensures IsSpace(s[i]) <==> IsSpace(t[i])
    ensures (s[i] == 'a' || s[i] == 'A') <==> (t[i] == 'a' || t[i] == 'A')
    ensures (s[i] == 'p' || s[i] == 'P') <==> (t[i] == 'p' || t[i] == 'P')
    ensures (s[i] == 'm' || s[i] == 'M') <==> (t[i] == 'm' || t[i] == 'M')
  {
    assert FoldAt(s, t, i);
    LowerCharKeepsClasses(s[i]);
    LowerCharKeepsClasses(t[i]);
  }

  lemma {:induction false} LowerSameFold(s: string)
    ensures SameFold(s, Lower(s))
  {
    forall i | 0 <= i < |s| ensures FoldAt(s, Lower(s), i) {
      LowerAt(s, i);
    }
  }

  lemma {:induction false} FirstDigitFold(s: string, t: string, i: nat)
    requires SameFold(s, t) && i <= |s|
    ensures FirstDigitFrom(t, i) == FirstDigitFrom(s, i)
    decreases |s| - i
  {
    if i < |s| {
      FoldKeepsClasses(s, t, i);
      if !IsDigit(s[i]) {
        FirstDigitFold(s, t, i + 1);
      }
    }
  }

  lemma {:induction false} SpacesFold(s: string, t: string, i: nat)
    requires SameFold(s, t) && i <= |s|
    ensures SpacesFrom(t, i) == SpacesFrom(s, i)
    decreases |s| - i
  {
    if i < |s| {
      FoldKeepsClasses(s, t, i);
      if IsSpace(s[i]) {
        SpacesFold(s, t, i + 1);
      }
    }
  }

  lemma {:induction false} HoursEndFold(s: string, t: string, p: nat)
    requires SameFold(s, t) && p < |s| && IsDigit(s[p])
    ensures IsDigit(t[p]) && HoursEnd(t, p) == HoursEnd(s, p)
  {
    FoldKeepsClasses(s, t, p);
    if p + 1 < |s| {
      FoldKeepsClasses(s, t, p + 1);
    }
  }

  lemma {:induction false} ColonFold(s: string, t: string, i: nat)
    requires SameFold(s, t)
    ensures ColonAt(t, i) == ColonAt(s, i)
  {
    if i < |s| {
      FoldKeepsClasses(s, t, i);
    }
  }

  lemma {:induction false} TwoDigitsFold(s: string, t: string, i: nat)
    requires SameFold(s, t)
    ensures TwoDigitsAt(t, i) == TwoDigitsAt(s, i)
  {
    if i + 1 < |s| {
      FoldKeepsClasses(s, t, i);
      FoldKeepsClasses(s, t, i + 1);
    }
  }

  lemma {:induction false} AfterMinutesFold(s: string, t: string, p: nat, e: nat, colon: bool, k: nat, minutes: bool, f: nat)
    requires SameFold(s, t)
    ensures AfterMinutes(t, p, e, colon, k, minutes, f) == AfterMinutes(s, p, e, colon, k, minutes, f)
  {
    if f <= |s| {
      SpacesFold(s, t, f);
      PeriodFold(s, t, f + SpacesFrom(s, f));
    } else {
      PeriodFold(s, t, f);
    }
  }

  lemma {:induction false} PeriodFold(s: string, t: string, g: nat)
    requires SameFold(s, t)
    ensures PeriodFrom(t, g) == PeriodFrom(s, g)
  {
    if g + 1 < |s| {
      FoldKeepsClasses(s, t, g);
      FoldKeepsClasses(s, t, g + 1);
    }
  }

  lemma {:induction false} AfterColonFold(s: string, t: string, p: nat, e: nat, colon: bool, k: nat)
    requires SameFold(s, t)
    ensures AfterColon(t, p, e, colon, k) == AfterColon(s, p, e, colon, k)
  {
    TwoDigitsFold(s, t, k);
    AfterMinutesFold(s, t, p, e, colon, k, TwoDigitsAt(s, k), if TwoDigitsAt(s, k) then k + 2 else k);
  }

  lemma {:induction false} AfterHoursFold(s: string, t: string, p: nat, e: nat)
    requires SameFold(s, t)
    ensures AfterHours(t, p, e) == AfterHours(s, p, e)
  {
    ColonFold(s, t, e);
    AfterColonFold(s, t, p, e, ColonAt(s, e), if ColonAt(s, e) then e + 1 else e);
  }

  /** Each part of the match reads only digits, colons, white space and
      letters compared case-insensitively, so text equal up to case matches
      at the same places. */
  lemma {:induction false} MatchAtFold(s: string, t: string, p: nat)
    requires SameFold(s, t) && p < |s| && IsDigit(s[p])
    ensures IsDigit(t[p]) && MatchAt(t, p) == MatchAt(s, p)
  {
    HoursEndFold(s, t, p);
    AfterHoursFold(s, t, p, HoursEnd(s, p));
  }

  /** The pattern carries the `i` flag: text equal up to letter case
      matches in the same places. */
  lemma {:induction false} MatchIgnoresCase(s: string, t: string)
    requires SameFold(s, t)
    ensures MatchLoose(t) == MatchLoose(s)
  {
    FirstDigitFold(s, t, 0);
    var p := FirstDigitFrom(s, 0);
    if p < |s| {
      MatchAtFold(s, t, p);
    }
  }

  /** Digits have no letter case: where `s` holds digits, `t` holds the same. */
  lemma DigitSliceFold(s: string, t: string, i: nat, j: nat)
    requires SameFold(s, t) && i <= j <= |s| && AllDigits(s[i..j])
    ensures t[i..j] == s[i..j]
  {
    forall k | i <= k < j ensures t[k] == s[k] {
      assert IsDigit(s[i..j][k - i]);
      assert FoldAt(s, t, k);
      LowerCharKeepsClasses(s[k]);
      LowerCharKeepsClasses(t[k]);
    }
  }

  /** The answer depends only on where the match is and on its digits. */
  lemma {:induction false} SameDigitsSameTime(s: string, t: string)
    requires MatchLoose(t) == MatchLoose(s)
    requires MatchLoose(s).Some? ==>
      var m := MatchLoose(s).value;
      t[m.start..m.hoursEnd] == s[m.start..m.hoursEnd] && t[m.minutesAt..m.minutesEnd] == s[m.minutesAt..m.minutesEnd]
    ensures ExtractTime(t) == ExtractTime(s)
  {
    if MatchLoose(s).Some? {
      var m := MatchLoose(s).value;
      assert HoursText(t, m) == HoursText(s, m);
      assert MinutesText(t, m) == MinutesText(s, m);
    }
  }

  /** "10PM", "10pm" and "10Pm" all give "22:00": the answer does not depend
      on the letter case of the message. */
  lemma {:induction false} ExtractIgnoresCase(s: string, t: string)
    requires SameFold(s, t)
    ensures ExtractTime(t) == ExtractTime(s)
  {
    MatchIgnoresCase(s, t);
    if MatchLoose(s).Some? {
      var m := MatchLoose(s).value;
      assert HoursText(s, m) == s[m.start..m.hoursEnd];
      assert MinutesText(s, m) == s[m.minutesAt..m.minutesEnd];
      DigitSliceFold(s, t, m.start, m.hoursEnd);
      DigitSliceFold(s, t, m.minutesAt, m.minutesEnd);
      SameDigitsSameTime(s, t);
    }
  }

  /** In particular lowercasing the message first changes nothing. */
  lemma ExtractOfLower(s: string)
    ensures ExtractTime(Lower(s)) == ExtractTime(s)
  {
    LowerSameFold(s);
    ExtractIgnoresCase(s, Lower(s));
  }

  /** A time written "HH:MM" after text without digits is found as it is
      written, the way `parseTime` reads such a time back. */
  lemma {:induction false} ClockTextMatch(pre: string, t: string)
    requires NoDigits(pre) && TimeParse.IsClockText(t)
    ensures var s := pre + t; var r := MatchLoose(s);
      && r.Some? && r.value.period.None?
      && HoursText(s, r.value) == t[..2] && MinutesText(s, r.value) == t[3..]
  {
    var s := pre + t;
    var n := |pre|;
    assert forall i | 0 <= i < n :: s[i] == pre[i];
    assert s[n..] == t;
    assert IsDigit(t[..2][0]) && IsDigit(t[..2][1]) && IsDigit(t[3..][0]) && IsDigit(t[3..][1]);
    FirstDigitIs(s, 0, n);
    MatchStartsAtFirstDigit(s);
    ClockTextAt(s, n);
    assert s[n..n + 2] == t[..2];
    assert s[n + 3..n + 5] == t[3..];
  }

  /** Two digits, a colon and two digits at the very end of the message,
      read from the first of them: hours, colon, minutes and no period. */
  lemma {:induction false} ClockTextAt(s: string, n: nat)
    requires n + 5 == |s| && s[n + 2] == ':'
    requires IsDigit(s[n]) && IsDigit(s[n + 1]) && IsDigit(s[n + 3]) && IsDigit(s[n + 4])
    ensures var m := MatchAt(s, n);
      && Placed(s, m) && m.period.None?
      && m.start == n && m.hoursEnd == n + 2 && m.minutesAt == n + 3 && m.minutesEnd == n + 5
  {
    MatchAtPlaced(s, n);
    MatchAtDigits(s, n);
    MatchAtUnfold(s, n);
  }

  lemma {:induction false} FindsClockText(pre: string, t: string)
    requires NoDigits(pre) && TimeParse.IsClockText(t)
    ensures ExtractTime(pre + t) == Some(t)
  {
    var s := pre + t;
    ClockTextMatch(pre, t);
    ExtractTimeMeaning(s);
    var out := ExtractTime(s).value;
    DigitPairInjective(out[..2], t[..2]);
    SplitAround(out, 2);
    SplitAround(t, 2);
  }

  lemma {:induction false} ThreeDigitsMatch(s: string)
    requires |s| == 3 && AllDigits(s)
    ensures MatchLoose(s) == Some(Loose(0, 2, false, 2, false, 2, 2, None))
  {
    assert IsDigit(s[0]) && IsDigit(s[1]) && IsDigit(s[2]);
    FirstDigitIs(s, 0, 0);
    MatchStartsAtFirstDigit(s);
    MatchAtUnfold(s, 0);
    DigitIsNotSpace(s[2]);
  }

  /** Three digits in a row: the greedy hours take the first two, one digit
      is too few for the minutes, so the last digit is ignored and the
      minutes are 00 ("930" gives "93:00"). */
  lemma {:induction false} ThreeDigitsReadAsHours(s: string)
    requires |s| == 3 && AllDigits(s)
    ensures ExtractTime(s) == Some(s[..2] + ":00")
  {
    ThreeDigitsMatch(s);
    var m := Loose(0, 2, false, 2, false, 2, 2, None);
    assert HoursText(s, m) == s[..2];
    ExtractTimeMeaning(s);
    var out := ExtractTime(s).value;
    DigitPairInjective(out[..2], s[..2]);
    SplitAround(out, 2);
    assert out[3..] == "00";
    assert s[..2] + ":00" == s[..2] + [':'] + "00";
  }

  lemma {:induction false} ParseTimeOfThreeDigits(s: string)
    requires |s| == 3 && AllDigits(s)
    ensures TimeParse.ParseTime(s).Some?
    ensures TimeParse.IsClock(TimeParse.ParseTime(s).value, ParseDecimal(s[..1]), s[1..])
  {
    assert IsDigit(s[0]) && IsDigit(s[1]) && IsDigit(s[2]);
    LowerKeeps(s);
    DigitIsNotSpace(s[0]);
    DigitIsNotSpace(s[2]);
    TrimKeeps(s);
    var m := TimeParse.TimeMatch(s[..1], false, Some(s[1..]), "", "");
    assert TimeParse.Spelling(m) == s;
    TimeParse.MatchFirstComplete(m);
    TimeParse.ParseTimeMeaning(s);
  }

  /** A clock reading of a one-digit hour has a leading zero. */
  lemma {:induction false} OneDigitClock(out: string, c: char, rest: string)
    requires IsDigit(c) && TimeParse.IsClock(out, DigitValue(c), rest)
    ensures out == ['0', c, ':'] + rest
  {
    var head := ['0', c];
    assert head[..1] == ['0'] && head[..1][..0] == [];
    assert ParseDecimal(head[..1]) == 0;
    assert ParseDecimal(head) == DigitValue(c);
    DigitPairInjective(out[..2], head);
    SplitAround(out, 2);
  }

  /** The anchored pattern of `parseTime` must reach the end of the input,
      so on three digits it backtracks to a one-digit hour followed by two
      minute digits ("930" gives "09:30"). */
  lemma {:induction false} ParseTimeSplitsThreeDigits(s: string)
    requires |s| == 3 && AllDigits(s)
    ensures TimeParse.ParseTime(s) == Some(['0', s[0], ':'] + s[1..])
  {
    ParseTimeOfThreeDigits(s);
    assert IsDigit(s[0]) && [s[0]] == s[..1];
    assert ParseDecimal(s[..1]) == DigitValue(s[0]);
    OneDigitClock(TimeParse.ParseTime(s).value, s[0], s[1..]);
  }

  /** The chat widget and the chat server read the same three digits as
      different times. */
  lemma ParsersDisagreeOnThreeDigits(s: string)
    requires |s| == 3 && AllDigits(s)
    ensures ExtractTime(s) == Some(s[..2] + ":00")
    ensures TimeParse.ParseTime(s) == Some(['0', s[0], ':'] + s[1..])
    ensures s[0] != '0' ==> ExtractTime(s) != TimeParse.ParseTime(s)
  {
    ThreeDigitsReadAsHours(s);
    ParseTimeSplitsThreeDigits(s);
    if s[0] != '0' {
      assert ExtractTime(s).value[0] == s[0] != '0' == TimeParse.ParseTime(s).value[0];
    }
  }
}
