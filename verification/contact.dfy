/** The contact validators of the chat widget (script.js): `isValidEmail`
    tests `^[^\s@]+@[^\s@]+\.[^\s@]+$` and `isValidPhone` tests
    `^\(?([0-9]{3})\)?[-. ]?([0-9]{3})[-. ]?([0-9]{4})$`. Each pattern is
    modelled as the language it denotes (a record of pieces and the text they
    spell) and a matcher proved to accept exactly that language. */
module Contact {
  import opened Base
  import opened Text

  // ---------------------------------------------------------------- e-mail

  /** `[^\s@]`: neither white space nor '@'. */
  predicate EmailChar(c: char) {
    !IsSpace(c) && c != '@'
  }

  /** `[^\s@]+`. */
  predicate EmailPart(s: string) {
    |s| > 0 && forall i | 0 <= i < |s| :: EmailChar(s[i])
  }

  /** The text of an address whose pieces are `local`, `host` and `top`. */
  function EmailSpelling(local: string, host: string, top: string): string {
    local + "@" + host + "." + top
  }

  /** Index of the first occurrence of `c` in `s` at or after `from`, or `|s|`. */
  function IndexOf(s: string, c: char, from: nat): (k: nat)
    requires from <= |s|
    ensures from <= k <= |s|
    ensures k < |s| ==> s[k] == c
    ensures forall i | from <= i < k :: s[i] != c
    decreases |s| - from
  {
    if from == |s| || s[from] == c then from else IndexOf(s, c, from + 1)
  }

  /** A split of `s` into `local "@" host "." top`, or `None` when the pattern
      rejects `s`. Since no piece may contain '@', the '@' is the first one;
      the dot is the first one after a non-empty host. */
  function EmailSplit(s: string): Option<(string, string, string)> {
    var at := IndexOf(s, '@', 0);
    if at == |s| then None
    else
      var local := s[..at];
      var domain := s[at + 1..];
      if !EmailPart(local) || !EmailPart(domain) || |domain| < 3 then None
      else
        var dot := IndexOf(domain, '.', 1);
        if dot + 1 < |domain| then Some((local, domain[..dot], domain[dot + 1..])) else None
  }

  /** `isValidEmail(email)`. */
  predicate IsValidEmail(s: string) {
    EmailSplit(s).Some?
  }

  /** An accepted address is spelled by three pattern-conforming pieces. */
  lemma {:induction false} EmailSound(s: string)
    requires IsValidEmail(s)
    ensures var (local, host, top) := EmailSplit(s).value;
      EmailPart(local) && EmailPart(host) && EmailPart(top) && s == EmailSpelling(local, host, top)
  {
    var at := IndexOf(s, '@', 0);
    var domain := s[at + 1..];
    var dot := IndexOf(domain, '.', 1);
    SplitAround(s, at);
    SplitAround(domain, dot);
  }

  /** Every text the pattern describes is accepted. */
  lemma {:induction false} EmailComplete(local: string, host: string, top: string)
    requires EmailPart(local) && EmailPart(host) && EmailPart(top)
    ensures IsValidEmail(EmailSpelling(local, host, top))
  {
    var s := EmailSpelling(local, host, top);
    var domain := host + "." + top;
    AtAfterLocal(local, domain);
    assert s == local + (['@'] + domain);
    DomainPart(host, top);
    var dot := IndexOf(domain, '.', 1);
    assert dot <= |host| by {
      assert domain[|host|] == '.';
      IndexOfBound(domain, '.', 1, |host|);
    }
  }

  /** The '@' after an '@'-free local part is the first one, and the domain
      follows it. */
  lemma {:induction false} AtAfterLocal(local: string, domain: string)
    requires EmailPart(local)
    ensures var s := local + (['@'] + domain);
      IndexOf(s, '@', 0) == |local| && s[..|local|] == local && s[|local| + 1..] == domain
  {
    var s := local + (['@'] + domain);
    assert s[|local|] == '@';
    assert forall i | 0 <= i < |local| :: s[i] == local[i];
    IndexOfFirst(s, '@', 0, |local|);
    ConcatSlices(local, ['@'] + domain);
  }

  /** `host "." top` is itself a run of pattern characters. */
  lemma {:induction false} DomainPart(host: string, top: string)
    requires EmailPart(host) && EmailPart(top)
    ensures EmailPart(host + "." + top)
  {
    var domain := host + "." + top;
    forall i | 0 <= i < |domain| ensures EmailChar(domain[i]) {
      if i < |host| {
        assert domain[i] == host[i];
      } else if i > |host| {
        assert domain[i] == top[i - |host| - 1];
      } else {
        assert domain[i] == '.';
        assert !IsSpace('.');
      }
    }
  }

  /** The first occurrence is found when nothing before `k` matches. */
  lemma {:induction false} IndexOfFirst(s: string, c: char, from: nat, k: nat)
    requires from <= k < |s| && s[k] == c
    requires forall i | from <= i < k :: s[i] != c
    ensures IndexOf(s, c, from) == k
    decreases k - from
  {
    if from < k {
      IndexOfFirst(s, c, from + 1, k);
    }
  }

  /** The search stops at or before any occurrence. */
  lemma {:induction false} IndexOfBound(s: string, c: char, from: nat, k: nat)
    requires from <= k < |s| && s[k] == c
    ensures IndexOf(s, c, from) <= k
    decreases k - from
  {
    if from < k && s[from] != c {
      IndexOfBound(s, c, from + 1, k);
    }
  }

  /** An accepted address contains exactly one '@' and no white space. */
  lemma {:induction false} EmailHasOneAt(s: string)
    requires IsValidEmail(s)
    ensures forall i | 0 <= i < |s| :: !IsSpace(s[i])
    ensures exists k | 0 <= k < |s| :: s[k] == '@' && forall i | 0 <= i < |s| && i != k :: s[i] != '@'
  {
    var at := IndexOf(s, '@', 0);
    var domain := s[at + 1..];
    assert forall i | at < i < |s| :: s[i] == domain[i - at - 1];
    assert s[..at] == s[..at];
    assert forall i | 0 <= i < at :: s[i] == s[..at][i];
    assert s[at] == '@';
  }

  // ----------------------------------------------------------------- phone

  /** The pieces of a matched phone number: optional parentheses around the
      area code, optional separators, and the three digit groups. */
  datatype PhoneMatch = PhoneMatch(
    open: bool,
    area: string,
    close: bool,
    sep1: string,
    exchange: string,
    sep2: string,
    line: string)

  /** `[-. ]?` */
  predicate IsSeparator(s: string) {
    |s| == 0 || (|s| == 1 && (s[0] == '-' || s[0] == '.' || s[0] == ' '))
  }

  predicate DigitGroup(s: string, n: nat) {
    |s| == n && AllDigits(s)
  }

  predicate PhoneWellFormed(m: PhoneMatch) {
    && DigitGroup(m.area, 3) && DigitGroup(m.exchange, 3) && DigitGroup(m.line, 4)
    && IsSeparator(m.sep1) && IsSeparator(m.sep2)
  }

  function PhoneSpelling(m: PhoneMatch): string {
    (if m.open then "(" else "") + (m.area + ((if m.close then ")" else "") + (m.sep1
      + (m.exchange + (m.sep2 + m.line)))))
  }

  /** `[-. ]?` at the start of `s`. */
  function SeparatorAt(s: string): (r: string)
    ensures IsSeparator(r) && |r| <= |s| && r == s[..|r|]
  {
    if |s| > 0 && (s[0] == '-' || s[0] == '.' || s[0] == ' ') then s[..1] else ""
  }

  /** The phone pattern, decided left to right: every optional character is
      taken when present, which is the only way the pattern can match since a
      digit group must follow each of them. */
  function MatchPhone(s: string): Option<PhoneMatch> {
    var open := |s| > 0 && s[0] == '(';
    var r0 := if open then s[1..] else s;
    if |r0| < 3 || !AllDigits(r0[..3]) then None else MatchAfterArea(open, r0[..3], r0[3..])
  }

  /** `\)?` then the rest, after the area code. */
  function MatchAfterArea(open: bool, area: string, r1: string): Option<PhoneMatch> {
    var close := |r1| > 0 && r1[0] == ')';
    MatchAfterClose(open, area, close, if close then r1[1..] else r1)
  }

  /** `[-. ]?(\d{3})` then the rest. */
  function MatchAfterClose(open: bool, area: string, close: bool, r2: string): Option<PhoneMatch> {
    var sep1 := SeparatorAt(r2);
    var r3 := r2[|sep1|..];
    if |r3| < 3 || !AllDigits(r3[..3]) then None
    else MatchLine(open, area, close, sep1, r3[..3], r3[3..])
  }

  /** `[-. ]?(\d{4})$`, after the exchange. */
  function MatchLine(open: bool, area: string, close: bool, sep1: string, exchange: string, r4: string)
    : Option<PhoneMatch>
  {
    var sep2 := SeparatorAt(r4);
    var r5 := r4[|sep2|..];
    if DigitGroup(r5, 4) then Some(PhoneMatch(open, area, close, sep1, exchange, sep2, r5)) else None
  }

  /** `isValidPhone(phone)`. */
  predicate IsValidPhone(s: string) {
    MatchPhone(s).Some?
  }

  lemma {:induction false} MatchLineSound(open: bool, area: string, close: bool, sep1: string, exchange: string, r4: string)
    requires MatchLine(open, area, close, sep1, exchange, r4).Some?
    ensures var m := MatchLine(open, area, close, sep1, exchange, r4).value;
      && m == PhoneMatch(open, area, close, sep1, exchange, m.sep2, m.line)
      && IsSeparator(m.sep2) && DigitGroup(m.line, 4) && m.sep2 + m.line == r4
  {
    SplitAt(r4, |SeparatorAt(r4)|);
  }

  lemma {:induction false} MatchAfterCloseSound(open: bool, area: string, close: bool, r2: string)
    requires MatchAfterClose(open, area, close, r2).Some?
    ensures var m := MatchAfterClose(open, area, close, r2).value;
      && m.open == open && m.area == area && m.close == close
      && IsSeparator(m.sep1) && DigitGroup(m.exchange, 3) && IsSeparator(m.sep2) && DigitGroup(m.line, 4)
      && m.sep1 + (m.exchange + (m.sep2 + m.line)) == r2
  {
    var sep1 := SeparatorAt(r2);
    var r3 := r2[|sep1|..];
    MatchLineSound(open, area, close, sep1, r3[..3], r3[3..]);
    SplitAt(r3, 3);
    SplitAt(r2, |sep1|);
  }

  lemma {:induction false} MatchAfterAreaSound(open: bool, area: string, r1: string)
    requires MatchAfterArea(open, area, r1).Some?
    ensures var m := MatchAfterArea(open, area, r1).value;
      && m.open == open && m.area == area
      && IsSeparator(m.sep1) && DigitGroup(m.exchange, 3) && IsSeparator(m.sep2) && DigitGroup(m.line, 4)
      && (if m.close then ")" else "") + (m.sep1 + (m.exchange + (m.sep2 + m.line))) == r1
  {
    var close := |r1| > 0 && r1[0] == ')';
    var r2 := if close then r1[1..] else r1;
    MatchAfterCloseSound(open, area, close, r2);
    assert MatchAfterArea(open, area, r1) == MatchAfterClose(open, area, close, r2);
    OptionalPrefix(')', close, r1, r2);
  }

  /** An optional character taken off the front of `s` is put back. */
  lemma OptionalPrefix(c: char, present: bool, s: string, rest: string)
    requires present ==> |s| > 0 && s[0] == c
    requires rest == if present then s[1..] else s
    ensures (if present then [c] else []) + rest == s
  {
    if present {
      assert s == [s[0]] + s[1..];
    }
  }

  /** A matched phone number is spelled by pattern-conforming pieces. */
  lemma {:induction false} PhoneSound(s: string)
    requires IsValidPhone(s)
    ensures PhoneWellFormed(MatchPhone(s).value) && PhoneSpelling(MatchPhone(s).value) == s
  {
    var open := |s| > 0 && s[0] == '(';
    var r0 := if open then s[1..] else s;
    assert MatchPhone(s) == MatchAfterArea(open, r0[..3], r0[3..]);
    MatchAfterAreaSound(open, r0[..3], r0[3..]);
    SplitAt(r0, 3);
    OptionalPrefix('(', open, s, r0);
  }

  /** `sep` followed by a digit is read back as exactly `sep`. */
  lemma {:induction false} SeparatorBeforeDigit(sep: string, t: string)
    requires IsSeparator(sep) && |t| > 0 && IsDigit(t[0])
    ensures SeparatorAt(sep + t) == sep
    ensures (sep + t)[|sep|..] == t
  {
    ConcatSlices(sep, t);
    if |sep| == 0 {
      assert sep + t == t;
    } else {
      assert (sep + t)[0] == sep[0];
      assert (sep + t)[..1] == sep;
    }
  }

  lemma {:induction false} MatchLineComplete(m: PhoneMatch)
    requires PhoneWellFormed(m)
    ensures MatchLine(m.open, m.area, m.close, m.sep1, m.exchange, m.sep2 + m.line) == Some(m)
  {
    SeparatorBeforeDigit(m.sep2, m.line);
  }

  lemma {:induction false} MatchAfterCloseComplete(m: PhoneMatch)
    requires PhoneWellFormed(m)
    ensures MatchAfterClose(m.open, m.area, m.close, m.sep1 + (m.exchange + (m.sep2 + m.line))) == Some(m)
  {
    var t4 := m.sep2 + m.line;
    var t3 := m.exchange + t4;
    MatchLineComplete(m);
    ConcatSlices(m.exchange, t4);
    assert t3[0] == m.exchange[0];
    SeparatorBeforeDigit(m.sep1, t3);
  }

  lemma {:induction false} MatchAfterAreaComplete(m: PhoneMatch)
    requires PhoneWellFormed(m)
    ensures MatchAfterArea(m.open, m.area,
      (if m.close then ")" else "") + (m.sep1 + (m.exchange + (m.sep2 + m.line))))
      == Some(m)
  {
    var c := if m.close then ")" else "";
    var t3 := m.exchange + (m.sep2 + m.line);
    var t2 := m.sep1 + t3;
    var r1 := c + t2;
    MatchAfterCloseComplete(m);
    ConcatSlices(c, t2);
    assert t2[0] != ')' by {
      if |m.sep1| > 0 {
        assert t2[0] == m.sep1[0];
      } else {
        assert t2 == t3;
        assert t3[0] == m.exchange[0];
      }
    }
    var r2 := if |r1| > 0 && r1[0] == ')' then r1[1..] else r1;
    assert r2 == t2;
  }

  lemma {:induction false} MatchPhoneUnfold(open: bool, t0: string)
    requires |t0| >= 3 && AllDigits(t0[..3])
    ensures MatchPhone((if open then "(" else "") + t0) == MatchAfterArea(open, t0[..3], t0[3..])
  {
    var s := (if open then "(" else "") + t0;
    if open {
      ConcatSlices("(", t0);
      assert s[0] == '(';
    } else {
      assert s == t0;
      assert IsDigit(t0[0]);
    }
  }

  /** Every text the phone pattern describes is matched, into the very pieces
      it was built from. */
  lemma {:induction false} PhoneComplete(m: PhoneMatch)
    requires PhoneWellFormed(m)
    ensures MatchPhone(PhoneSpelling(m)) == Some(m)
  {
    var t1 := (if m.close then ")" else "") + (m.sep1 + (m.exchange + (m.sep2 + m.line)));
    MatchAfterAreaComplete(m);
    ConcatSlices(m.area, t1);
    MatchPhoneUnfold(m.open, m.area + t1);
  }

  /** The digits of a string, in order. */
  function DigitsOf(s: string): (r: string)
    ensures |r| <= |s|
  {
    if |s| == 0 then "" else (if IsDigit(s[0]) then [s[0]] else "") + DigitsOf(s[1..])
  }

  lemma {:induction false} DigitsOfAppend(a: string, b: string)
    ensures DigitsOf(a + b) == DigitsOf(a) + DigitsOf(b)
  {
    if |a| > 0 {
      assert (a + b)[1..] == a[1..] + b;
      DigitsOfAppend(a[1..], b);
    } else {
      assert a + b == b;
    }
  }

  lemma {:induction false} DigitsOfDigits(s: string)
    requires AllDigits(s)
    ensures DigitsOf(s) == s
  {
    if |s| > 0 {
      DigitsOfDigits(s[1..]);
    }
  }

  lemma DigitsOfSeparator(s: string)
    requires IsSeparator(s) || s == "(" || s == ")" || s == ""
    ensures DigitsOf(s) == ""
  {
    if |s| == 1 {
      assert s[1..] == "";
    }
  }

  lemma DigitsOfGroup(g: string, rest: string)
    requires AllDigits(g)
    ensures DigitsOf(g + rest) == g + DigitsOf(rest)
  {
    DigitsOfDigits(g);
    DigitsOfAppend(g, rest);
  }

  lemma DigitsOfNoise(n: string, rest: string)
    requires IsSeparator(n) || n == "(" || n == ")" || n == ""
    ensures DigitsOf(n + rest) == DigitsOf(rest)
  {
    DigitsOfSeparator(n);
    DigitsOfAppend(n, rest);
  }

  lemma {:induction false} DigitsOfSpelling(m: PhoneMatch)
    requires PhoneWellFormed(m)
    ensures DigitsOf(PhoneSpelling(m)) == m.area + m.exchange + m.line
  {
    var t2 := m.sep1 + (m.exchange + (m.sep2 + m.line));
    var t1 := (if m.close then ")" else "") + t2;
    var t0 := m.area + t1;
    DigitsAfterArea(m);
    DigitsOfNoise(if m.close then ")" else "", t2);
    assert DigitsOf(t1) == m.exchange + m.line;
    DigitsOfGroup(m.area, t1);
    assert DigitsOf(t0) == m.area + (m.exchange + m.line);
    DigitsOfNoise(if m.open then "(" else "", t0);
    assert PhoneSpelling(m) == (if m.open then "(" else "") + t0;
  }

  lemma {:induction false} DigitsAfterArea(m: PhoneMatch)
    requires PhoneWellFormed(m)
    ensures DigitsOf(m.sep1 + (m.exchange + (m.sep2 + m.line))) == m.exchange + m.line
  {
    var t4 := m.sep2 + m.line;
    var t3 := m.exchange + t4;
    DigitsOfDigits(m.line);
    DigitsOfNoise(m.sep2, m.line);
    DigitsOfGroup(m.exchange, t4);
    assert DigitsOf(t3) == m.exchange + m.line;
    DigitsOfNoise(m.sep1, t3);
  }

  /** Every accepted phone number holds exactly ten digits, grouped 3-3-4, and
      is between ten and fourteen characters long. */
  lemma {:induction false} PhoneHasTenDigits(s: string)
    requires IsValidPhone(s)
    ensures var m := MatchPhone(s).value;
      DigitsOf(s) == m.area + m.exchange + m.line && |DigitsOf(s)| == 10
    ensures 10 <= |s| <= 14
  {
    PhoneSound(s);
    DigitsOfSpelling(MatchPhone(s).value);
  }
}
