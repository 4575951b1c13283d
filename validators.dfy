/** The two input patterns of the contact form (server.js:141-142).

    Each regular expression is written as a predicate that follows the
    pattern piece by piece: a concatenation of pieces is an existential
    choice of split points, and the anchors `^…$` mean the pieces cover the
    whole string.  Beside each pattern stands a direct description of the
    strings it accepts, and a lemma proves the two equal.
 */
module Validators {

  /** JavaScript's `\s`: the WhiteSpace and LineTerminator code points. */
  predicate IsWs(c: char) {
    || c == '\t' || c == '\n' || c == '\U{B}' || c == '\U{C}' || c == '\r' || c == ' '
    || c == '\U{A0}' || c == '\U{1680}' || ('\U{2000}' <= c <= '\U{200A}')
    || c == '\U{2028}' || c == '\U{2029}' || c == '\U{202F}' || c == '\U{205F}'
    || c == '\U{3000}' || c == '\U{FEFF}'
  }

  /** JavaScript's `\d` (without the `u` flag): ASCII 0-9. */
  predicate IsDigit(c: char) {
    '0' <= c <= '9'
  }

  predicate AllDigits(t: string) {
    forall k | 0 <= k < |t| :: IsDigit(t[k])
  }

  predicate NoWhitespace(s: string) {
    forall k | 0 <= k < |s| :: !IsWs(s[k])
  }

  // ---------------------------------------------------------------------
  // emailRegex = /^[^\s@]+@[^\s@]+\.[^\s@]+$/

  /** `[^\s@]+` */
  predicate EmailRun(t: string) {
    |t| > 0 && forall k | 0 <= k < |t| :: !IsWs(t[k]) && t[k] != '@'
  }

  /** `emailRegex.test(s)`: a run, '@' at i, a run, '.' at j, a run. */
  predicate EmailRegex(s: string) {
    exists i, j | 0 <= i < j < |s| ::
      && s[i] == '@' && s[j] == '.'
      && EmailRun(s[..i]) && EmailRun(s[i + 1..j]) && EmailRun(s[j + 1..])
  }

  /** The domain part has a '.' that is neither its first nor its last character. */
  predicate InnerDot(d: string) {
    exists j | 0 < j < |d| - 1 :: d[j] == '.'
  }

  /** No whitespace, exactly one '@', something before it, and an inner '.' after it. */
  predicate EmailShape(s: string) {
    && NoWhitespace(s)
    && multiset(s)['@'] == 1
    && exists i | 0 < i < |s| :: s[i] == '@' && InnerDot(s[i + 1..])
  }

  lemma NoAtCount(t: string)
    requires forall k | 0 <= k < |t| :: t[k] != '@'
    ensures multiset(t)['@'] == 0
  {
    assert '@' !in t;
  }

  lemma TwoAts(s: string, a: int, b: int)
    requires 0 <= a < b < |s| && s[a] == '@' && s[b] == '@'
    ensures multiset(s)['@'] >= 2
  {
    assert s == s[..b] + s[b..];
    assert s[..b][a] == '@';
    assert s[b..][0] == '@';
    assert multiset(s) == multiset(s[..b]) + multiset(s[b..]);
  }

  lemma EmailRegexToShape(s: string)
    requires EmailRegex(s)
    ensures EmailShape(s)
  {
    var i, j :| 0 <= i < j < |s| && s[i] == '@' && s[j] == '.'
      && EmailRun(s[..i]) && EmailRun(s[i + 1..j]) && EmailRun(s[j + 1..]);
    forall k | 0 <= k < |s| ensures !IsWs(s[k]) && (k != i ==> s[k] != '@') {
      if k < i {
        assert s[k] == s[..i][k];
      } else if i < k < j {
        assert s[k] == s[i + 1..j][k - i - 1];
      } else if j < k {
        assert s[k] == s[j + 1..][k - j - 1];
      }
    }
    NoAtCount(s[..i]);
    NoAtCount(s[i + 1..]);
    assert s == s[..i] + [s[i]] + s[i + 1..];
    assert multiset(s) == multiset(s[..i]) + multiset([s[i]]) + multiset(s[i + 1..]);
    assert s[i + 1..][j - i - 1] == '.';
  }

  lemma EmailShapeToRegex(s: string)
    requires EmailShape(s)
    ensures EmailRegex(s)
  {
    var i :| 0 < i < |s| && s[i] == '@' && InnerDot(s[i + 1..]);
    var d := s[i + 1..];
    var jd :| 0 < jd < |d| - 1 && d[jd] == '.';
    var j := i + 1 + jd;
    forall k | 0 <= k < |s| && k != i ensures s[k] != '@' {
      if s[k] == '@' {
        if k < i { TwoAts(s, k, i); } else { TwoAts(s, i, k); }
      }
    }
    assert EmailRun(s[..i]);
    assert EmailRun(s[i + 1..j]);
    assert EmailRun(s[j + 1..]);
  }

  /** The email pattern accepts exactly the strings of EmailShape. */
  lemma EmailRegexIff(s: string)
    ensures EmailRegex(s) <==> EmailShape(s)
  {
    if EmailRegex(s) { EmailRegexToShape(s); }
    if EmailShape(s) { EmailShapeToRegex(s); }
  }

  // ---------------------------------------------------------------------
  // phoneRegex = /^(\+?\d{1,3}[-\s]?)?\d{10}$/

  /** `[-\s]` */
  predicate IsSepChar(c: char) {
    c == '-' || IsWs(c)
  }

  /** `\+?` */
  predicate OptPlus(t: string) {
    t == [] || t == ['+']
  }

  /** `\d{1,3}` */
  predicate DigitRun13(t: string) {
    1 <= |t| <= 3 && AllDigits(t)
  }

  /** `[-\s]?` */
  predicate OptSep(t: string) {
    t == [] || (|t| == 1 && IsSepChar(t[0]))
  }

  /** `\+?\d{1,3}[-\s]?` */
  predicate CountryCode(p: string) {
    exists i, j | 0 <= i <= j <= |p| :: OptPlus(p[..i]) && DigitRun13(p[i..j]) && OptSep(p[j..])
  }

  /** `phoneRegex.test(s)`: an optional country-code group, then ten digits. */
  predicate PhoneRegex(s: string) {
    exists k | 0 <= k <= |s| :: (s[..k] == [] || CountryCode(s[..k])) && |s[k..]| == 10 && AllDigits(s[k..])
  }

  /** A non-empty prefix is a country code when, after dropping a leading '+'
      and a trailing separator, one to three digits remain. */
  predicate CodeShape(p: string) {
    p == [] ||
    var a := if p[0] == '+' then 1 else 0;
    var b := if |p| > a && IsSepChar(p[|p| - 1]) then |p| - 1 else |p|;
    a < b && b - a <= 3 && AllDigits(p[a..b])
  }

  /** The last ten characters are digits and what precedes them is a country code or nothing. */
  predicate PhoneShape(s: string) {
    |s| >= 10 && AllDigits(s[|s| - 10..]) && CodeShape(s[..|s| - 10])
  }

  lemma CountryCodeToShape(p: string)
    requires CountryCode(p)
    ensures p != [] && CodeShape(p)
  {
    var i, j :| 0 <= i <= j <= |p| && OptPlus(p[..i]) && DigitRun13(p[i..j]) && OptSep(p[j..]);
    assert p[i..j][0] == p[i];
    if i == 0 {
      assert p[0] != '+';
    } else {
      assert p[..i][0] == p[0];
    }
    if j == |p| {
      assert p[i..j][j - 1 - i] == p[|p| - 1];
    } else {
      assert p[j..][0] == p[|p| - 1];
    }
  }

  lemma ShapeToCountryCode(p: string)
    requires p != [] && CodeShape(p)
    ensures CountryCode(p)
  {
    var a := if p[0] == '+' then 1 else 0;
    var b := if |p| > a && IsSepChar(p[|p| - 1]) then |p| - 1 else |p|;
    assert OptPlus(p[..a]) by {
      if a == 1 { assert p[..a] == ['+']; }
    }
    assert OptSep(p[b..]) by {
      if b < |p| { assert p[b..] == [p[|p| - 1]]; }
    }
    assert DigitRun13(p[a..b]);
  }

  /** The phone pattern accepts exactly the strings of PhoneShape. */
  lemma PhoneRegexIff(s: string)
    ensures PhoneRegex(s) <==> PhoneShape(s)
  {
    if PhoneRegex(s) {
      var k :| 0 <= k <= |s| && (s[..k] == [] || CountryCode(s[..k])) && |s[k..]| == 10 && AllDigits(s[k..]);
      assert k == |s| - 10;
      if s[..k] != [] { CountryCodeToShape(s[..k]); }
    }
    if PhoneShape(s) {
      var k := |s| - 10;
      if s[..k] != [] { ShapeToCountryCode(s[..k]); }
      assert (s[..k] == [] || CountryCode(s[..k])) && |s[k..]| == 10 && AllDigits(s[k..]);
    }
  }

  /** Every string of exactly ten ASCII digits is a valid phone number. */
  lemma TenDigitsAccepted(s: string)
    requires |s| == 10 && AllDigits(s)
    ensures PhoneRegex(s)
  {
    assert s[..0] == [] && s[0..] == s;
  }

  /** Every accepted phone number has 10 to 15 characters. */
  lemma PhoneLength(s: string)
    requires PhoneRegex(s)
    ensures 10 <= |s| <= 15
  {
    var k :| 0 <= k <= |s| && (s[..k] == [] || CountryCode(s[..k])) && |s[k..]| == 10 && AllDigits(s[k..]);
    if s[..k] != [] {
      var p := s[..k];
      var i, j :| 0 <= i <= j <= |p| && OptPlus(p[..i]) && DigitRun13(p[i..j]) && OptSep(p[j..]);
      assert |p| == |p[..i]| + |p[i..j]| + |p[j..]|;
    }
  }
}
