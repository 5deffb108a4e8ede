/** The three contact-form validators (script.js, `validateName`,
    `validateEmail`, `validateMessage`) as functions from the raw input value
    to a verdict.  Each trims the value first; the first failing check picks
    the message. */
module Validation {
  import opened Text
  import EmailPattern

  datatype Verdict = Pass | Fail(message: string)

  const NameTooShort := "Name must be at least 2 characters long"
  const NameBadChars := "Name can only contain letters and spaces"
  const EmailRequired := "Email is required"
  const EmailMalformed := "Please enter a valid email address"
  const MessageTooShort := "Message must be at least 10 characters long"
  const MessageTooLong := "Message must be less than 1000 characters"

  /** A code point outside the Basic Multilingual Plane, which a JavaScript
      string stores as a surrogate pair. */
  predicate IsAstral(c: char) {
    c as int >= 0x1_0000
  }

  /** JavaScript's `length`: the number of UTF-16 code units. */
  function JsLength(s: string): (n: nat)
    ensures |s| <= n <= 2 * |s|
    ensures n == |s| <==> forall i :: 0 <= i < |s| ==> !IsAstral(s[i])
  {
    if s == [] then 0
    else
      var n := JsLength(s[..|s| - 1]) + (if IsAstral(s[|s| - 1]) then 2 else 1);
      assert forall i :: 0 <= i < |s| - 1 ==> s[..|s| - 1][i] == s[i];
      n
  }

  predicate IsAsciiLetter(c: char) {
    'a' <= c <= 'z' || 'A' <= c <= 'Z'
  }

  /** A character of the class `[a-zA-Z\s]`. */
  predicate IsNameChar(c: char) {
    IsAsciiLetter(c) || IsWs(c)
  }

  /** `/^[a-zA-Z\s]+$/.test(s)`. */
  predicate NamePattern(s: string) {
    s != [] && forall i :: 0 <= i < |s| ==> IsNameChar(s[i])
  }

  /** `validateName`: at least two code units after trimming, checked first,
      then only ASCII letters and whitespace. */
  function NameVerdict(value: string): (v: Verdict)
    ensures var name := Trim(value);
      v == Pass <==> JsLength(name) >= 2 && forall i :: 0 <= i < |name| ==> IsNameChar(name[i])
    ensures JsLength(Trim(value)) < 2 ==> v == Fail(NameTooShort)
    ensures JsLength(Trim(value)) >= 2 && v != Pass ==> v == Fail(NameBadChars)
  {
    var name := Trim(value);
    if JsLength(name) < 2 then Fail(NameTooShort)
    else if !NamePattern(name) then Fail(NameBadChars)
    else Pass
  }

  /** `validateEmail`: required, then the address pattern. */
  function EmailVerdict(value: string): (v: Verdict)
    ensures Trim(value) == [] <==> v == Fail(EmailRequired)
    ensures v == Pass <==> EmailPattern.EmailShape(Trim(value))
    ensures v != Pass && Trim(value) != [] ==> v == Fail(EmailMalformed)
  {
    var email := Trim(value);
    EmailPattern.MatchesShape(email);
    if email == [] then Fail(EmailRequired)
    else if !EmailPattern.Matches(email) then Fail(EmailMalformed)
    else Pass
  }

  /** `validateMessage`: between 10 and 1000 code units after trimming, both
      bounds included (the wording "less than 1000" notwithstanding). */
  function MessageVerdict(value: string): (v: Verdict)
    ensures v == Pass <==> 10 <= JsLength(Trim(value)) <= 1000
    ensures JsLength(Trim(value)) < 10 ==> v == Fail(MessageTooShort)
    ensures JsLength(Trim(value)) > 1000 ==> v == Fail(MessageTooLong)
  {
    var message := Trim(value);
    if JsLength(message) < 10 then Fail(MessageTooShort)
    else if JsLength(message) > 1000 then Fail(MessageTooLong)
    else Pass
  }

  /** Every validator looks only at the trimmed value: whitespace typed
      around the input never changes the verdict. */
  lemma VerdictsIgnoreSurroundingWs(p: string, s: string, q: string)
    requires AllWs(p) && AllWs(q)
    ensures NameVerdict(p + s + q) == NameVerdict(s)
    ensures EmailVerdict(p + s + q) == EmailVerdict(s)
    ensures MessageVerdict(p + s + q) == MessageVerdict(s)
  {
    TrimAbsorbs(p, s, q);
    SameTrimSameVerdicts(p + s + q, s);
  }

  lemma SameTrimSameVerdicts(x: string, y: string)
    requires Trim(x) == Trim(y)
    ensures NameVerdict(x) == NameVerdict(y)
    ensures EmailVerdict(x) == EmailVerdict(y)
    ensures MessageVerdict(x) == MessageVerdict(y)
  {
  }

  /** An accepted name has at least two characters and begins and ends
      with an ASCII letter. */
  lemma PassingNameIsLettered(value: string)
    requires NameVerdict(value) == Pass
    ensures var name := Trim(value);
      |name| >= 2 && IsAsciiLetter(name[0]) && IsAsciiLetter(name[|name| - 1])
  {
    var name := Trim(value);
    TrimSpec(value);
    assert forall i :: 0 <= i < |name| ==> !IsAstral(name[i]) by {
      forall i | 0 <= i < |name| ensures !IsAstral(name[i]) { assert IsNameChar(name[i]); }
    }
  }

  /** A message of exactly 1000 code units is accepted. */
  lemma MessageUpperBoundInclusive(value: string)
    requires JsLength(Trim(value)) == 1000
    ensures MessageVerdict(value) == Pass
  {
  }

  /** An accepted address has no whitespace and a single `@`. */
  lemma PassingEmailHasOneAt(value: string)
    requires EmailVerdict(value) == Pass
    ensures var email := Trim(value);
      (forall i :: 0 <= i < |email| ==> !IsWs(email[i])) &&
      exists k :: 0 < k < |email| - 1 && email[k] == '@' && forall j :: 0 <= j < |email| && email[j] == '@' ==> j == k
  {
    EmailPattern.MatchesShape(Trim(value));
    EmailPattern.MatchesOneAt(Trim(value));
  }
}
