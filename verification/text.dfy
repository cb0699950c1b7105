/** Character classes and string primitives with the JavaScript meaning the
    booking code relies on: `\d`, `\s`, `trim`, `toLowerCase`, `includes`,
    `parseInt` and `toString().padStart(2, '0')`. */
module Text {

  /** `\d` in a JavaScript regular expression: ASCII digits only. */
  predicate IsDigit(c: char) {
    '0' <= c <= '9'
  }

  /** `\s` in a JavaScript regular expression, which is also the set of code
      points `String.prototype.trim` removes (WhiteSpace and LineTerminator). */
  predicate IsSpace(c: char) {
    c in SpaceChars
  }

  const SpaceChars: set<char> := {
    ' ', '\t', '\n', '\r', '\U{000B}', '\U{000C}', '\U{00A0}', '\U{1680}',
    '\U{2000}', '\U{2001}', '\U{2002}', '\U{2003}', '\U{2004}', '\U{2005}',
    '\U{2006}', '\U{2007}', '\U{2008}', '\U{2009}', '\U{200A}',
    '\U{2028}', '\U{2029}', '\U{202F}', '\U{205F}', '\U{3000}', '\U{FEFF}'
  }

  /** White space is neither a digit nor any of the punctuation and letters
      the patterns look for. */
  lemma SpaceIsNotSyntax(c: char)
    requires IsSpace(c)
    ensures !IsDigit(c) && c != ':' && c != '@' && c != '.' && c != '(' && c != ')' && c != '-'
    ensures LowerChar(c) != 'a' && LowerChar(c) != 'p' && LowerChar(c) != 'm'
  {
  }

  lemma DigitIsNotSpace(c: char)
    requires IsDigit(c)
    ensures !IsSpace(c)
  {
  }

  predicate AllDigits(s: string) {
    forall i | 0 <= i < |s| :: IsDigit(s[i])
  }

  predicate AllSpaces(s: string) {
    forall i | 0 <= i < |s| :: IsSpace(s[i])
  }

  /** `toLowerCase` on one character, restricted to ASCII letters. */
  function LowerChar(c: char): char {
    if 'A' <= c <= 'Z' then (c as int + 32) as char else c
  }

  function Lower(s: string): (r: string)
    ensures |r| == |s|
  {
    if |s| == 0 then [] else [LowerChar(s[0])] + Lower(s[1..])
  }

  lemma {:induction false} LowerAt(s: string, i: nat)
    requires i < |s|
    ensures Lower(s)[i] == LowerChar(s[i])
  {
    if i > 0 {
      LowerAt(s[1..], i - 1);
    }
  }

  /** A string without ASCII capitals is its own lowercase. */
  lemma {:induction false} LowerKeeps(s: string)
    requires forall i | 0 <= i < |s| :: !('A' <= s[i] <= 'Z')
    ensures Lower(s) == s
  {
    if |s| > 0 {
      assert forall i | 0 <= i < |s| - 1 :: s[1..][i] == s[i + 1];
      LowerKeeps(s[1..]);
      assert s == [s[0]] + s[1..];
    }
  }

  /** Lowercasing leaves digits, white space and punctuation where they are. */
  lemma LowerCharKeepsClasses(c: char)
    ensures IsDigit(LowerChar(c)) <==> IsDigit(c)
    ensures IsSpace(LowerChar(c)) <==> IsSpace(c)
    ensures IsDigit(c) || IsSpace(c) || c == ':' ==> LowerChar(c) == c
    ensures LowerChar(c) == ':' <==> c == ':'
  {
  }

  /** Number of leading characters of `s` that are digits. */
  function LeadingDigits(s: string): (k: nat)
    ensures k <= |s|
    ensures AllDigits(s[..k])
    ensures k < |s| ==> !IsDigit(s[k])
  {
    if |s| > 0 && IsDigit(s[0]) then 1 + LeadingDigits(s[1..]) else 0
  }

  /** Number of leading characters of `s` that are white space. */
  function LeadingSpaces(s: string): (k: nat)
    ensures k <= |s|
    ensures AllSpaces(s[..k])
    ensures k < |s| ==> !IsSpace(s[k])
  {
    if |s| > 0 && IsSpace(s[0]) then 1 + LeadingSpaces(s[1..]) else 0
  }

  /** Cutting a sequence at `i` and gluing the halves back gives it again. */
  lemma SplitAt(s: string, i: nat)
    requires i <= |s|
    ensures s[..i] + s[i..] == s
  {
  }

  /** `s` is what comes before index `k`, the character at `k`, and the rest. */
  lemma SplitAround(s: string, k: nat)
    requires k < |s|
    ensures s == s[..k] + [s[k]] + s[k + 1..]
  {
  }

  /** The halves of a concatenation are its operands. */
  lemma ConcatSlices(a: string, b: string)
    ensures (a + b)[..|a|] == a && (a + b)[|a|..] == b
  {
  }

  lemma {:induction false} LeadingDigitsAppend(a: string, b: string)
    requires AllDigits(a)
    ensures LeadingDigits(a + b) == |a| + LeadingDigits(b)
  {
    if |a| > 0 {
      assert (a + b)[1..] == a[1..] + b;
      LeadingDigitsAppend(a[1..], b);
    } else {
      assert a + b == b;
    }
  }

  lemma {:induction false} LeadingSpacesAppend(a: string, b: string)
    requires AllSpaces(a)
    ensures LeadingSpaces(a + b) == |a| + LeadingSpaces(b)
  {
    if |a| > 0 {
      assert (a + b)[1..] == a[1..] + b;
      LeadingSpacesAppend(a[1..], b);
    } else {
      assert a + b == b;
    }
  }

  /** Number of trailing characters of `s` that are white space. */
  function TrailingSpaces(s: string): (k: nat)
    ensures k <= |s|
    ensures AllSpaces(s[|s| - k..])
    ensures k < |s| ==> !IsSpace(s[|s| - k - 1])
  {
    if |s| > 0 && IsSpace(s[|s| - 1]) then 1 + TrailingSpaces(s[..|s| - 1]) else 0
  }

  /** `s` without its leading white space. */
  function TrimStart(s: string): (r: string)
    ensures r == s[LeadingSpaces(s)..]
    ensures |r| > 0 ==> !IsSpace(r[0])
  {
    s[LeadingSpaces(s)..]
  }

  /** `t` without its trailing white space. */
  function TrimEnd(t: string): (r: string)
    ensures |r| <= |t| && r == t[..|r|] && AllSpaces(t[|r|..])
    ensures |r| > 0 ==> !IsSpace(r[|r| - 1])
  {
    t[..|t| - TrailingSpaces(t)]
  }

  /** `String.prototype.trim`: `s` with its leading and trailing white space
      removed. The result starts right after the leading white space of `s`,
      everything after it is white space, and neither of its ends is. */
  function Trim(s: string): (r: string)
    ensures |r| == 0 || (!IsSpace(r[0]) && !IsSpace(r[|r| - 1]))
    ensures var i := LeadingSpaces(s);
      i + |r| <= |s| && r == s[i..i + |r|] && AllSpaces(s[i + |r|..])
  {
    var t := TrimStart(s);
    TrimSlice(s, t, TrimEnd(t));
    TrimEnd(t)
  }

  /** Trimming the end of the trimmed start: the result sits right after
      the white-space prefix and before a white-space suffix of `s`. */
  lemma {:induction false} TrimSlice(s: string, t: string, r: string)
    requires t == s[LeadingSpaces(s)..]
    requires |t| > 0 ==> !IsSpace(t[0])
    requires |r| <= |t| && r == t[..|r|] && AllSpaces(t[|r|..])
    requires |r| > 0 ==> !IsSpace(r[|r| - 1])
    ensures |r| == 0 || (!IsSpace(r[0]) && !IsSpace(r[|r| - 1]))
    ensures var i := LeadingSpaces(s);
      i + |r| <= |s| && r == s[i..i + |r|] && AllSpaces(s[i + |r|..])
  {
    var i := LeadingSpaces(s);
    assert r == s[i..i + |r|];
    assert s[i + |r|..] == t[|r|..];
    if |r| > 0 {
      assert r[0] == t[0];
    }
  }

  /** A string with no white space at either end is its own trim. */
  lemma TrimKeeps(t: string)
    requires |t| == 0 || (!IsSpace(t[0]) && !IsSpace(t[|t| - 1]))
    ensures Trim(t) == t
  {
    if |t| > 0 {
      assert LeadingSpaces(t) == 0;
      assert t[0..] == t;
      assert TrimStart(t) == t;
      assert TrailingSpaces(t) == 0;
    }
  }

  /** Trimming an already trimmed string changes nothing. */
  lemma TrimIdempotent(s: string)
    ensures Trim(Trim(s)) == Trim(s)
  {
    TrimKeeps(Trim(s));
  }

  /** `s.includes(part)`. */
  predicate Contains(s: string, part: string) {
    exists i | 0 <= i <= |s| - |part| :: OccursAt(s, part, i)
  }

  /** `part` occurs in `s` starting at index `i`. */
  predicate OccursAt(s: string, part: string, i: nat)
    requires i + |part| <= |s|
  {
    s[i..i + |part|] == part
  }

  function DigitValue(c: char): nat
    requires IsDigit(c)
  {
    c as int - '0' as int
  }

  function DigitChar(d: nat): (c: char)
    requires d < 10
    ensures IsDigit(c) && DigitValue(c) == d
  {
    ('0' as int + d) as char
  }

  /** `parseInt` on a string made only of ASCII digits. */
  function ParseDecimal(s: string): nat
    requires AllDigits(s)
  {
    if |s| == 0 then 0 else ParseDecimal(s[..|s| - 1]) * 10 + DigitValue(s[|s| - 1])
  }

  /** `Number.prototype.toString()` for a non-negative integer. */
  function ToDecimal(n: nat): (r: string)
    ensures 1 <= |r| && AllDigits(r)
    ensures n < 10 <==> |r| == 1
  {
    if n < 10 then [DigitChar(n)] else ToDecimal(n / 10) + [DigitChar(n % 10)]
  }

  /** `padStart(2, '0')`. */
  function PadStart2(s: string): string {
    if |s| >= 2 then s else seq(2 - |s|, _ => '0') + s
  }

  /** Printing a number and parsing it back gives the number. */
  lemma {:induction false} DecimalRoundTrip(n: nat)
    ensures ParseDecimal(ToDecimal(n)) == n
  {
    if n >= 10 {
      var r := ToDecimal(n);
      assert r[..|r| - 1] == ToDecimal(n / 10);
      DecimalRoundTrip(n / 10);
    }
  }

  /** One or two digits never spell more than 99. */
  lemma ShortDecimalBound(s: string)
    requires AllDigits(s) && |s| <= 2
    ensures ParseDecimal(s) < 100
  {
    if |s| == 2 {
      assert s[..1][..0] == [];
    } else if |s| == 1 {
      assert s[..0] == [];
    }
  }

  /** `n.toString().padStart(2, '0')` for `n < 100`: exactly two digits that
      spell `n`. */
  function TwoDigits(n: nat): (r: string)
    requires n < 100
    ensures |r| == 2 && AllDigits(r)
    ensures ParseDecimal(r) == n
  {
    PaddedDecimal(n);
    PadStart2(ToDecimal(n))
  }

  lemma PaddedDecimal(n: nat)
    requires n < 100
    ensures |PadStart2(ToDecimal(n))| == 2 && AllDigits(PadStart2(ToDecimal(n)))
    ensures ParseDecimal(PadStart2(ToDecimal(n))) == n
  {
    var d := ToDecimal(n);
    DecimalRoundTrip(n);
    var r := PadStart2(d);
    if |d| == 1 {
      assert r == ['0', d[0]];
      assert r[..1] == ['0'];
      assert r[..1][..0] == [];
      assert d[..0] == [];
    }
  }

  /** Two two-digit strings spelling the same number are the same string. */
  lemma DigitPairInjective(a: string, b: string)
    requires |a| == 2 && |b| == 2 && AllDigits(a) && AllDigits(b)
    requires ParseDecimal(a) == ParseDecimal(b)
    ensures a == b
  {
    assert a[..1][..0] == [] && b[..1][..0] == [];
    assert a[..1][0] == a[0] && b[..1][0] == b[0];
    assert ParseDecimal(a[..1]) == DigitValue(a[0]);
    assert ParseDecimal(b[..1]) == DigitValue(b[0]);
    assert ParseDecimal(a) == DigitValue(a[0]) * 10 + DigitValue(a[1]);
    assert ParseDecimal(b) == DigitValue(b[0]) * 10 + DigitValue(b[1]);
  }
}
