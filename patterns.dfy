/**
 * The regular expressions of the request constraints, written out as predicates.
 * Character classes follow java.util.regex without UNICODE_CHARACTER_CLASS:
 * `\s` is [ \t\n\x0B\f\r] and `\d` is [0-9]; a pattern must match the whole value.
 */
module Patterns {

  /** `\s`: space, or one of tab, line feed, vertical tab, form feed, carriage return. */
  predicate IsRegexSpace(c: char) {
    c == ' ' || '\t' <= c <= '\r'
  }

  predicate IsAsciiLetter(c: char) {
    'A' <= c <= 'Z' || 'a' <= c <= 'z'
  }

  predicate IsAsciiDigit(c: char) {
    '0' <= c <= '9'
  }

  predicate AllSpaces(s: string) {
    forall i :: 0 <= i < |s| ==> IsRegexSpace(s[i])
  }

  /** `^[A-Za-z\s]+$` */
  predicate IsLettersAndSpaces(s: string) {
    |s| >= 1 && forall i :: 0 <= i < |s| ==> IsAsciiLetter(s[i]) || IsRegexSpace(s[i])
  }

  /** `^[a-zA-Z0-9]{12}$` */
  predicate IsCenterCode(s: string) {
    |s| == 12 && forall i :: 0 <= i < |s| ==> IsAsciiLetter(s[i]) || IsAsciiDigit(s[i])
  }

  // ---------------------------------------------------------------------------
  // The phone pattern `^(?:(?:\+|0{0,2})91(\s*[\-]\s*)?|[0]?)?[789]\d{9}$`,
  // matched by hand. Its last part has a fixed length of ten characters, so a
  // value matches exactly when its last ten characters are a mobile number and
  // what comes before them is one of the allowed prefixes.
  // ---------------------------------------------------------------------------

  /** `[789]\d{9}`: ten digits, the first of them 7, 8 or 9. */
  predicate IsMobileNumber(t: string) {
    |t| == 10 && '7' <= t[0] <= '9' && forall i :: 1 <= i < 10 ==> IsAsciiDigit(t[i])
  }

  /** The number of `\s` characters at the start of `s`. */
  function LeadingSpaces(s: string): (n: nat)
    ensures n <= |s| && AllSpaces(s[..n])
    ensures n < |s| ==> !IsRegexSpace(s[n])
  {
    if s != [] && IsRegexSpace(s[0]) then
      var m := LeadingSpaces(s[1..]);
      assert s[..m + 1] == [s[0]] + s[1..][..m];
      m + 1
    else
      0
  }

  /** The separator group `(\s*[\-]\s*)?` after the country code: empty, or one hyphen among spaces. */
  predicate IsSeparator(s: string) {
    s == [] || (var n := LeadingSpaces(s); n < |s| && s[n] == '-' && AllSpaces(s[n + 1..]))
  }

  /** `p` starts with the country-code spelling `code`, and the rest of `p` is a separator. */
  predicate IsCodeThenSeparator(p: string, code: string) {
    |code| <= |p| && p[..|code|] == code && IsSeparator(p[|code|..])
  }

  /** The optional prefix group: nothing, a trunk `0`, or `+91`, `91`, `091`, `0091` with a separator. */
  predicate IsPhonePrefix(p: string) {
    || p == []
    || p == "0"
    || IsCodeThenSeparator(p, "+91")
    || IsCodeThenSeparator(p, "91")
    || IsCodeThenSeparator(p, "091")
    || IsCodeThenSeparator(p, "0091")
  }

  /** The hand-written matcher for the contact phone pattern. */
  predicate MatchesPhone(s: string) {
    |s| >= 10 && IsMobileNumber(s[|s| - 10..]) && IsPhonePrefix(s[..|s| - 10])
  }

  // ---------------------------------------------------------------------------
  // The language of the same regular expression, stated group by group with
  // the choices a backtracking matcher may make as existential witnesses.
  // ---------------------------------------------------------------------------

  function Zeros(n: nat): (z: string)
    ensures |z| == n && forall i :: 0 <= i < n ==> z[i] == '0'
  {
    if n == 0 then [] else Zeros(n - 1) + ['0']
  }

  /** `(?:\+|0{0,2})91` */
  ghost predicate InCountryGroup(x: string) {
    x == "+91" || exists z :: 0 <= z <= 2 && x == Zeros(z) + "91"
  }

  /** `\s*[\-]\s*` */
  ghost predicate InHyphenGroup(y: string) {
    exists i :: 0 <= i < |y| && AllSpaces(y[..i]) && y[i] == '-' && AllSpaces(y[i + 1..])
  }

  /** `(?:(?:\+|0{0,2})91(\s*[\-]\s*)?|[0]?)?` */
  ghost predicate InPrefixGroup(p: string) {
    || p == []
    || p == "0"
    || exists j :: 0 <= j <= |p| && InCountryGroup(p[..j]) && (p[j..] == [] || InHyphenGroup(p[j..]))
  }

  /** Whole-value match of the phone pattern: some split of `s` into prefix group and mobile number. */
  ghost predicate PhoneLanguage(s: string) {
    exists k :: 0 <= k <= |s| && InPrefixGroup(s[..k]) && IsMobileNumber(s[k..])
  }

  /** Within a separator, the hyphen is found exactly after the leading spaces. */
  lemma HyphenAfterLeadingSpaces(y: string, i: nat)
    requires i < |y| && AllSpaces(y[..i]) && y[i] == '-'
    ensures LeadingSpaces(y) == i
  {
  }

  lemma SeparatorIff(y: string)
    ensures IsSeparator(y) <==> y == [] || InHyphenGroup(y)
  {
    if y != [] {
      if IsSeparator(y) {
        var n := LeadingSpaces(y);
        assert 0 <= n < |y| && AllSpaces(y[..n]) && y[n] == '-' && AllSpaces(y[n + 1..]);
      }
      if InHyphenGroup(y) {
        var i :| 0 <= i < |y| && AllSpaces(y[..i]) && y[i] == '-' && AllSpaces(y[i + 1..]);
        HyphenAfterLeadingSpaces(y, i);
      }
    }
  }

  lemma CountryGroupIff(x: string)
    ensures InCountryGroup(x) <==> x == "+91" || x == "91" || x == "091" || x == "0091"
  {
    assert Zeros(0) + "91" == "91";
    assert Zeros(1) + "91" == "091";
    assert Zeros(2) + "91" == "0091";
  }

  lemma PrefixIff(p: string)
    ensures IsPhonePrefix(p) <==> InPrefixGroup(p)
  {
    if IsPhonePrefix(p) && p != [] && p != "0" {
      var code :=
        if IsCodeThenSeparator(p, "+91") then "+91"
        else if IsCodeThenSeparator(p, "91") then "91"
        else if IsCodeThenSeparator(p, "091") then "091"
        else "0091";
      assert IsCodeThenSeparator(p, code);
      var j := |code|;
      CountryGroupIff(p[..j]);
      SeparatorIff(p[j..]);
      assert InCountryGroup(p[..j]) && (p[j..] == [] || InHyphenGroup(p[j..]));
    }
    if InPrefixGroup(p) && p != [] && p != "0" {
      var j :| 0 <= j <= |p| && InCountryGroup(p[..j]) && (p[j..] == [] || InHyphenGroup(p[j..]));
      CountryGroupIff(p[..j]);
      SeparatorIff(p[j..]);
      assert IsCodeThenSeparator(p, p[..j]);
    }
  }

  /** The hand-written matcher accepts exactly the language of the phone pattern. */
  lemma {:induction false} MatchesPhoneCorrect(s: string)
    ensures MatchesPhone(s) <==> PhoneLanguage(s)
  {
    if MatchesPhone(s) {
      var k := |s| - 10;
      PrefixIff(s[..k]);
    }
    if PhoneLanguage(s) {
      var k :| 0 <= k <= |s| && InPrefixGroup(s[..k]) && IsMobileNumber(s[k..]);
      assert k == |s| - 10;
      PrefixIff(s[..k]);
    }
  }

  /** A prefix followed by a mobile number matches. */
  lemma PhoneFromParts(prefix: string, number: string)
    requires IsPhonePrefix(prefix) && IsMobileNumber(number)
    ensures MatchesPhone(prefix + number)
  {
    var s := prefix + number;
    assert s[..|s| - 10] == prefix && s[|s| - 10..] == number;
  }

  /** The example values documented with the contact phone field all match. */
  lemma DocumentedPhoneExamplesMatch()
    ensures MatchesPhone("9883443344")
    ensures MatchesPhone("09883443344")
    ensures MatchesPhone("919883443344")
    ensures MatchesPhone("0919883443344")
    ensures MatchesPhone("+919883443344")
    ensures MatchesPhone("+91-9883443344")
    ensures MatchesPhone("0091 - 9883443344")
  {
    PhoneExamplePlain();
    PhoneExampleTrunkZero();
    PhoneExampleCountryCode();
    PhoneExampleZeroCountryCode();
    PhoneExamplePlusCountryCode();
    PhoneExamplePlusCountryCodeHyphen();
    PhoneExampleDoubleZeroSpacedHyphen();
  }

  lemma PhoneExamplePlain()
    ensures MatchesPhone("9883443344")
  {
    var number := "9883443344";
    assert number[..0] == [] && number[|number| - 10..] == number;
  }

  lemma PhoneExampleTrunkZero()
    ensures MatchesPhone("09883443344")
  {
    var number := "9883443344";
    PhoneFromParts("0", number);
    assert "0" + number == "09883443344";
  }

  lemma PhoneExampleCountryCode()
    ensures MatchesPhone("919883443344")
  {
    var number := "9883443344";
    assert IsCodeThenSeparator("91", "91");
    PhoneFromParts("91", number);
    assert "91" + number == "919883443344";
  }

  lemma PhoneExampleZeroCountryCode()
    ensures MatchesPhone("0919883443344")
  {
    var number := "9883443344";
    assert IsCodeThenSeparator("091", "091");
    PhoneFromParts("091", number);
    assert "091" + number == "0919883443344";
  }

  lemma PhoneExamplePlusCountryCode()
    ensures MatchesPhone("+919883443344")
  {
    var number := "9883443344";
    assert IsCodeThenSeparator("+91", "+91");
    PhoneFromParts("+91", number);
    assert "+91" + number == "+919883443344";
  }

  lemma PhoneExamplePlusCountryCodeHyphen()
    ensures MatchesPhone("+91-9883443344")
  {
    var number := "9883443344";
    assert LeadingSpaces("-") == 0;
    assert IsCodeThenSeparator("+91-", "+91");
    PhoneFromParts("+91-", number);
    assert "+91-" + number == "+91-9883443344";
  }

  lemma PhoneExampleDoubleZeroSpacedHyphen()
    ensures MatchesPhone("0091 - 9883443344")
  {
    var number := "9883443344";
    DoubleZeroSpacedHyphenPrefix();
    PhoneFromParts("0091 - ", number);
    assert "0091 - " + number == "0091 - 9883443344";
  }

  lemma DoubleZeroSpacedHyphenPrefix()
    ensures IsPhonePrefix("0091 - ")
  {
    var p := "0091 - ";
    assert p[..4] == "0091" && p[4..] == " - ";
    HyphenAfterLeadingSpaces(" - ", 1);
    assert IsSeparator(" - ");
    assert IsCodeThenSeparator(p, "0091");
  }

  /** A mobile number must start with 7, 8 or 9, and a separator after 91 must contain a hyphen. */
  lemma RejectedPhoneExamples()
    ensures !MatchesPhone("6883443344")
    ensures !MatchesPhone("+91 9883443344")
  {
    RejectedLeadingSix();
    RejectedSpaceSeparator();
  }

  lemma RejectedLeadingSix()
    ensures !MatchesPhone("6883443344")
  {
    var s := "6883443344";
    assert s[|s| - 10..] == s;
    assert s[0] == '6';
  }

  lemma RejectedSpaceSeparator()
    ensures !MatchesPhone("+91 9883443344")
  {
    var s := "+91 9883443344";
    var p := "+91 ";
    assert s[..|s| - 10] == p;
    assert LeadingSpaces(" ") == 1;
    assert p[3..] == " ";
    assert !IsSeparator(p[3..]);
    assert p[..2] != "91" && p[..3] != "091" && p[..4] != "0091";
    assert !IsPhonePrefix(p);
  }
}
