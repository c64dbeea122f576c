/**
 * Input validators of js/utils/validation.js. Every validator of the source is a
 * single regular-expression test or comparison; here each regular expression is
 * written out as a predicate over the characters of the string, and the shape of
 * the accepted strings is proved as a lemma beside it.
 */
module Validation {
  import opened Wrappers

  // ---------------------------------------------------------------------------
  // Character classes
  // ---------------------------------------------------------------------------

  /** JavaScript's `\s` class, which is also the set of characters `String.prototype.trim`
      removes: the WhiteSpace and LineTerminator code points of ECMA-262. */
  predicate IsWhitespace(c: char) {
    c == '\t' || c == '\n' || c == '\U{000B}' || c == '\U{000C}' || c == '\r' || c == ' '
    || c == '\U{00A0}' || c == '\U{1680}' || ('\U{2000}' <= c <= '\U{200A}')
    || c == '\U{2028}' || c == '\U{2029}' || c == '\U{202F}' || c == '\U{205F}'
    || c == '\U{3000}' || c == '\U{FEFF}'
  }

  /** JavaScript's `\d` class (ASCII digits only). */
  predicate IsDigit(c: char) {
    '0' <= c <= '9'
  }

  /** The class `[A-Z0-9]`. */
  predicate IsUpperOrDigit(c: char) {
    'A' <= c <= 'Z' || IsDigit(c)
  }

  /** The class `[^\s@]`. */
  predicate IsEmailChar(c: char) {
    !IsWhitespace(c) && c != '@'
  }

  // ---------------------------------------------------------------------------
  // String length as JavaScript measures it
  // ---------------------------------------------------------------------------

  /** `value.length`: the number of UTF-16 code units, so a character outside the
      Basic Multilingual Plane counts twice. */
  function Utf16Length(s: string): (n: nat)
    ensures |s| <= n <= 2 * |s|
  {
    if s == [] then 0 else (if s[0] as int > 0xFFFF then 2 else 1) + Utf16Length(s[1..])
  }

  predicate InBasicPlane(s: string) {
    forall i :: 0 <= i < |s| ==> s[i] as int <= 0xFFFF
  }

  /** For text in the Basic Multilingual Plane (all Cyrillic and Latin text), the
      JavaScript length is the number of characters. */
  lemma {:induction false} Utf16LengthInBasicPlane(s: string)
    requires InBasicPlane(s)
    ensures Utf16Length(s) == |s|
  {
    if s != [] {
      assert InBasicPlane(s[1..]) by {
        forall i | 0 <= i < |s[1..]| ensures s[1..][i] as int <= 0xFFFF {
          assert s[1..][i] == s[i + 1];
        }
      }
      Utf16LengthInBasicPlane(s[1..]);
    }
  }

  // ---------------------------------------------------------------------------
  // isValidPromoCode: /^[A-Z0-9]{4,20}$/
  // ---------------------------------------------------------------------------

  /** `[A-Z0-9]*` matched against the whole string. */
  predicate AllUpperOrDigit(s: string) {
    s == [] || (IsUpperOrDigit(s[0]) && AllUpperOrDigit(s[1..]))
  }

  predicate IsValidPromoCode(code: string) {
    4 <= |code| <= 20 && AllUpperOrDigit(code)
  }

  lemma {:induction false} AllUpperOrDigitIff(s: string)
    ensures AllUpperOrDigit(s) <==> forall i :: 0 <= i < |s| ==> IsUpperOrDigit(s[i])
  {
    if s != [] {
      AllUpperOrDigitIff(s[1..]);
      assert forall i :: 1 <= i < |s| ==> s[i] == s[1..][i - 1];
    }
  }

  /** The promo-code format accepts exactly the strings of 4 to 20 characters drawn
      from A-Z and 0-9; such a code is as long in JavaScript as it is here. */
  lemma PromoCodeFormat(code: string)
    ensures IsValidPromoCode(code) <==>
      4 <= |code| <= 20 && forall i :: 0 <= i < |code| ==> ('A' <= code[i] <= 'Z' || '0' <= code[i] <= '9')
    ensures IsValidPromoCode(code) ==> Utf16Length(code) == |code|
  {
    AllUpperOrDigitIff(code);
    if IsValidPromoCode(code) {
      Utf16LengthInBasicPlane(code);
    }
  }

  // ---------------------------------------------------------------------------
  // isValidEmail: /^[^\s@]+@[^\s@]+\.[^\s@]+$/
  // ---------------------------------------------------------------------------

  predicate AllEmailChars(s: string) {
    forall k :: 0 <= k < |s| ==> IsEmailChar(s[k])
  }

  /** The regular expression read as a split of the string into
      `local` `@` `domain` `.` `suffix`, each part a non-empty run of `[^\s@]`. The
      domain may itself hold dots, so the split may use any dot after the '@'. */
  predicate IsValidEmail(email: string) {
    exists at, dot | 0 < at && at + 1 < dot < |email| - 1 ::
      email[at] == '@' && email[dot] == '.'
      && AllEmailChars(email[..at]) && AllEmailChars(email[at + 1..dot]) && AllEmailChars(email[dot + 1..])
  }

  /** The shape of an accepted address, stated without the split: no whitespace,
      exactly one '@' with something before it, and a '.' after the '@' that is
      neither the first nor the last character after it. */
  predicate EmailShape(email: string) {
    (forall k :: 0 <= k < |email| ==> !IsWhitespace(email[k]))
    && exists at | 0 < at < |email| ::
      email[at] == '@'
      && (forall k :: 0 <= k < |email| && email[k] == '@' ==> k == at)
      && exists dot | at + 1 < dot < |email| - 1 :: email[dot] == '.'
  }

  lemma EmailShapeIff(email: string)
    ensures IsValidEmail(email) <==> EmailShape(email)
  {
    if IsValidEmail(email) {
      ValidEmailHasShape(email);
    }
    if EmailShape(email) {
      ShapedEmailIsValid(email);
    }
  }

  lemma ValidEmailHasShape(email: string)
    requires IsValidEmail(email)
    ensures EmailShape(email)
  {
    var at, dot :| 0 < at && at + 1 < dot < |email| - 1 && email[at] == '@' && email[dot] == '.'
      && AllEmailChars(email[..at]) && AllEmailChars(email[at + 1..dot]) && AllEmailChars(email[dot + 1..]);
    EmailCharsOutsideSplit(email, at, dot);
    assert forall k :: 0 <= k < |email| ==> !IsWhitespace(email[k]);
    assert forall k :: 0 <= k < |email| && email[k] == '@' ==> k == at;
    assert at + 1 < dot < |email| - 1 && email[dot] == '.';
  }

  /** Every character but the '@' and the '.' of a split comes from one of its parts. */
  lemma EmailCharsOutsideSplit(email: string, at: int, dot: int)
    requires 0 < at && at + 1 < dot < |email| - 1
    requires AllEmailChars(email[..at]) && AllEmailChars(email[at + 1..dot]) && AllEmailChars(email[dot + 1..])
    ensures forall k :: 0 <= k < |email| && k != at && k != dot ==> IsEmailChar(email[k])
  {
    var local, domain, suffix := email[..at], email[at + 1..dot], email[dot + 1..];
    forall k | 0 <= k < |email| && k != at && k != dot
      ensures IsEmailChar(email[k])
    {
      if k < at {
        assert local[k] == email[k];
      } else if k < dot {
        assert domain[k - at - 1] == email[k];
      } else {
        assert suffix[k - dot - 1] == email[k];
      }
    }
  }

  lemma ShapedEmailIsValid(email: string)
    requires EmailShape(email)
    ensures IsValidEmail(email)
  {
    var at :| 0 < at < |email| && email[at] == '@'
      && (forall k :: 0 <= k < |email| && email[k] == '@' ==> k == at)
      && exists dot | at + 1 < dot < |email| - 1 :: email[dot] == '.';
    var dot :| at + 1 < dot < |email| - 1 && email[dot] == '.';
    var local, domain, suffix := email[..at], email[at + 1..dot], email[dot + 1..];
    assert AllEmailChars(local) by {
      forall k | 0 <= k < |local| ensures IsEmailChar(local[k]) { assert local[k] == email[k]; }
    }
    assert AllEmailChars(domain) by {
      forall k | 0 <= k < |domain| ensures IsEmailChar(domain[k]) { assert domain[k] == email[k + at + 1]; }
    }
    assert AllEmailChars(suffix) by {
      forall k | 0 <= k < |suffix| ensures IsEmailChar(suffix[k]) { assert suffix[k] == email[k + dot + 1]; }
    }
  }

  // ---------------------------------------------------------------------------
  // isValidPhone: /^\+?[78][-\(]?(\d{3})\)?-?(\d{3})-?(\d{2})-?(\d{2})$/
  // ---------------------------------------------------------------------------

  /** An optional literal `c?`. None of the optional characters of the phone pattern is
      a digit or one of '7' and '8', so the greedy choice is the only one that can
      succeed and no backtracking is needed. */
  function SkipOptional(s: string, c: char): (r: string)
    ensures r == s || (|s| > 0 && s[0] == c && r == s[1..])
  {
    if |s| > 0 && s[0] == c then s[1..] else s
  }

  /** The optional class `[-\(]?`. */
  function SkipOptionalOneOf(s: string, c1: char, c2: char): (r: string)
    ensures r == s || (|s| > 0 && (s[0] == c1 || s[0] == c2) && r == s[1..])
  {
    if |s| > 0 && (s[0] == c1 || s[0] == c2) then s[1..] else s
  }

  /** `\d{n}` at the start of `s`. */
  predicate StartsWithDigits(s: string, n: nat) {
    n <= |s| && forall i :: 0 <= i < n ==> IsDigit(s[i])
  }

  /** The pattern, one stage per group, each stage given what is left of the string. */
  predicate IsValidPhone(phone: string) {
    PhoneFromTrunk(SkipOptional(phone, '+'))
  }

  /** `[78][-\(]?` and the rest. */
  predicate PhoneFromTrunk(s: string) {
    |s| > 0 && (s[0] == '7' || s[0] == '8') && PhoneFromGroup1(SkipOptionalOneOf(s[1..], '-', '('))
  }

  /** `(\d{3})\)?-?` and the rest. */
  predicate PhoneFromGroup1(s: string) {
    StartsWithDigits(s, 3) && PhoneFromGroup2(SkipOptional(SkipOptional(s[3..], ')'), '-'))
  }

  /** `(\d{3})-?` and the rest. */
  predicate PhoneFromGroup2(s: string) {
    StartsWithDigits(s, 3) && PhoneFromGroup3(SkipOptional(s[3..], '-'))
  }

  /** `(\d{2})-?` and the rest. */
  predicate PhoneFromGroup3(s: string) {
    StartsWithDigits(s, 2) && PhoneFromGroup4(SkipOptional(s[2..], '-'))
  }

  /** `(\d{2})$`. */
  predicate PhoneFromGroup4(s: string) {
    StartsWithDigits(s, 2) && |s| == 2
  }

  function CountDigits(s: string): nat {
    if s == [] then 0 else (if IsDigit(s[0]) then 1 else 0) + CountDigits(s[1..])
  }

  /** The characters a phone number may consist of. */
  predicate IsPhoneChar(c: char) {
    IsDigit(c) || c == '+' || c == '-' || c == '(' || c == ')'
  }

  /** `s` holds `n` digits, only phone characters, and no '+'. */
  predicate PhoneTail(s: string, n: nat) {
    CountDigits(s) == n && forall i :: 0 <= i < |s| ==> IsPhoneChar(s[i]) && s[i] != '+'
  }

  /** Putting back one character that is not a digit: '-', '(' or ')'. */
  lemma {:induction false} SeparatorTail(s: string, r: string, n: nat)
    requires r == s || (|s| > 0 && (s[0] == '-' || s[0] == '(' || s[0] == ')') && r == s[1..])
    requires PhoneTail(r, n)
    ensures PhoneTail(s, n)
  {
    if r != s {
      assert forall i :: 1 <= i < |s| ==> s[i] == r[i - 1];
    }
  }

  /** Putting back `n` digits. */
  lemma {:induction false} DigitsTail(s: string, n: nat, m: nat)
    requires StartsWithDigits(s, n)
    requires PhoneTail(s[n..], m)
    ensures PhoneTail(s, n + m)
    decreases n
  {
    if n > 0 {
      assert StartsWithDigits(s[1..], n - 1) by {
        forall i | 0 <= i < n - 1 ensures IsDigit(s[1..][i]) { assert s[1..][i] == s[i + 1]; }
      }
      assert s[1..][n - 1..] == s[n..];
      DigitsTail(s[1..], n - 1, m);
      assert forall i :: 1 <= i < |s| ==> s[i] == s[1..][i - 1];
    }
  }

  lemma Group4Tail(s: string)
    requires PhoneFromGroup4(s)
    ensures PhoneTail(s, 2)
  {
    assert s[2..] == [];
    DigitsTail(s, 2, 0);
  }

  lemma Group3Tail(s: string)
    requires PhoneFromGroup3(s)
    ensures PhoneTail(s, 4)
  {
    var r := SkipOptional(s[2..], '-');
    Group4Tail(r);
    SeparatorTail(s[2..], r, 2);
    DigitsTail(s, 2, 2);
  }

  lemma Group2Tail(s: string)
    requires PhoneFromGroup2(s)
    ensures PhoneTail(s, 7)
  {
    var r := SkipOptional(s[3..], '-');
    Group3Tail(r);
    SeparatorTail(s[3..], r, 4);
    DigitsTail(s, 3, 4);
  }

  lemma Group1Tail(s: string)
    requires PhoneFromGroup1(s)
    ensures PhoneTail(s, 10)
  {
    var r1 := SkipOptional(s[3..], ')');
    var r := SkipOptional(r1, '-');
    Group2Tail(r);
    SeparatorTail(r1, r, 7);
    SeparatorTail(s[3..], r1, 7);
    DigitsTail(s, 3, 7);
  }

  lemma TrunkTail(s: string)
    requires PhoneFromTrunk(s)
    ensures PhoneTail(s, 11)
  {
    var r := SkipOptionalOneOf(s[1..], '-', '(');
    Group1Tail(r);
    SeparatorTail(s[1..], r, 10);
    DigitsTail(s, 1, 10);
  }

  /** Every accepted phone number holds exactly 11 digits, starts with '7' or '8'
      (after an optional leading '+'), has '+' at most in front, and consists only of
      digits, '+', '-', '(' and ')'. */
  lemma PhoneShape(phone: string)
    requires IsValidPhone(phone)
    ensures CountDigits(phone) == 11
    ensures forall i :: 0 <= i < |phone| ==> IsPhoneChar(phone[i])
    ensures phone[0] == '7' || phone[0] == '8' || (phone[0] == '+' && |phone| > 1 && (phone[1] == '7' || phone[1] == '8'))
    ensures forall i :: 0 < i < |phone| ==> phone[i] != '+'
  {
    var a := SkipOptional(phone, '+');
    TrunkTail(a);
    if a != phone {
      assert forall i :: 1 <= i < |phone| ==> phone[i] == a[i - 1];
    }
  }

  // ---------------------------------------------------------------------------
  // isRequired: value !== null && value !== undefined && value.trim() !== ''
  // ---------------------------------------------------------------------------

  /** Removes leading whitespace. */
  function TrimStart(s: string): (r: string)
    ensures |r| <= |s| && r == s[|s| - |r|..]
    ensures forall i :: 0 <= i < |s| - |r| ==> IsWhitespace(s[i])
    ensures r == [] || !IsWhitespace(r[0])
  {
    if s != [] && IsWhitespace(s[0]) then TrimStart(s[1..]) else s
  }

  /** Removes trailing whitespace. */
  function TrimEnd(s: string): (r: string)
    ensures |r| <= |s| && r == s[..|r|]
    ensures forall i :: |r| <= i < |s| ==> IsWhitespace(s[i])
    ensures r == [] || !IsWhitespace(r[|r| - 1])
  {
    if s != [] && IsWhitespace(s[|s| - 1]) then TrimEnd(s[..|s| - 1]) else s
  }

  /** `String.prototype.trim`. */
  function Trim(s: string): string {
    TrimStart(TrimEnd(s))
  }

  /** `value` is `None` for `null` and `undefined`. */
  predicate IsRequired(value: Option<string>) {
    value.Some? && Trim(value.value) != ""
  }

  /** A value is required-present exactly when it exists and holds a character
      that is not whitespace. */
  lemma RequiredIff(value: Option<string>)
    ensures IsRequired(value) <==>
      value.Some? && exists i :: 0 <= i < |value.value| && !IsWhitespace(value.value[i])
  {
    if value.Some? {
      var s := value.value;
      var e := TrimEnd(s);
      if e != [] {
        assert !IsWhitespace(e[|e| - 1]);
        assert TrimStart(e) != [];
        assert s[|e| - 1] == e[|e| - 1];
      } else {
        assert forall i :: 0 <= i < |s| ==> IsWhitespace(s[i]);
      }
    }
  }

  // ---------------------------------------------------------------------------
  // hasMinLength, hasMaxLength, isInRange
  // ---------------------------------------------------------------------------

  predicate HasMinLength(value: string, minLength: int) {
    Utf16Length(value) >= minLength
  }

  predicate HasMaxLength(value: string, maxLength: int) {
    Utf16Length(value) <= maxLength
  }

  /** Both length checks hold exactly when the length lies between the bounds; for
      text in the Basic Multilingual Plane the length is the number of characters. */
  lemma LengthBounds(value: string, minLength: int, maxLength: int)
    ensures HasMinLength(value, minLength) && HasMaxLength(value, maxLength)
      <==> minLength <= Utf16Length(value) <= maxLength
    ensures minLength > maxLength ==> !(HasMinLength(value, minLength) && HasMaxLength(value, maxLength))
    ensures InBasicPlane(value) ==>
      (HasMinLength(value, minLength) <==> |value| >= minLength)
      && (HasMaxLength(value, maxLength) <==> |value| <= maxLength)
  {
    if InBasicPlane(value) {
      Utf16LengthInBasicPlane(value);
    }
  }

  /** `value` is the result of `Number(...)`; `None` stands for `NaN`. */
  predicate IsInRange(value: Option<int>, min: int, max: int) {
    value.Some? && min <= value.value && value.value <= max
  }

  lemma InRangeIff(value: Option<int>, min: int, max: int)
    ensures IsInRange(value, min, max) <==> value.Some? && min <= value.value <= max
    ensures min > max ==> !IsInRange(value, min, max)
    ensures value.None? ==> !IsInRange(value, min, max)
  {
  }
}
