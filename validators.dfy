/** users/validators.py: the password policy, five checks in a fixed order of which
    only the first failing one is reported. */
module Validators {
  import opened Wrappers
  import opened Validation

  /** Python's Unicode character classes used by the policy, which the model takes as a
      parameter: `isAlnum` is `str.isalnum` on one character, `isDecimal` is the regex
      class `\d` (a Unicode decimal digit). */
  datatype CharClasses = CharClasses(isAlnum: char -> bool, isDecimal: char -> bool)

  predicate IsAsciiLetter(c: char) { 'a' <= c <= 'z' || 'A' <= c <= 'Z' }
  predicate IsAsciiDigit(c: char) { '0' <= c <= '9' }
  /** The Russian alphabet: А-Я, а-я, Ё and ё. */
  predicate IsRussianLetter(c: char) { '\U{0410}' <= c <= '\U{044F}' || c == '\U{0401}' || c == '\U{0451}' }

  /** What is known of the character classes and used below: ASCII letters and Russian
      letters are alphanumeric but not digits, ASCII digits are both, `-` is neither. */
  ghost predicate Standard(cc: CharClasses) {
    && (forall c :: IsAsciiLetter(c) ==> cc.isAlnum(c) && !cc.isDecimal(c))
    && (forall c :: IsRussianLetter(c) ==> cc.isAlnum(c) && !cc.isDecimal(c))
    && (forall c :: IsAsciiDigit(c) ==> cc.isAlnum(c) && cc.isDecimal(c))
    && !cc.isAlnum('-') && !cc.isDecimal('-')
  }

  /** One character matches `[а-я]` under IGNORECASE: the range itself, its upper-case
      counterpart А-Я, and the historic forms U+1C80-U+1C86 whose lower-case forms lie
      in the range. Ё (U+0401) and ё (U+0451) lie outside it. */
  predicate MatchesCyrillicRange(c: char) {
    '\U{0410}' <= c <= '\U{044F}' || '\U{1C80}' <= c <= '\U{1C86}'
  }

  const MinPasswordLength: nat := 8

  /** Every character satisfies `f`. */
  function All(p: string, f: char -> bool): bool {
    |p| == 0 || (f(p[0]) && All(p[1..], f))
  }

  /** `re.search` with a one-character class: some character satisfies `f`. */
  function Search(p: string, f: char -> bool): bool {
    |p| > 0 && (f(p[0]) || Search(p[1..], f))
  }

  lemma {:induction false} AllIsForall(p: string, f: char -> bool)
    ensures All(p, f) <==> forall i :: 0 <= i < |p| ==> f(p[i])
  {
    if |p| > 0 {
      AllIsForall(p[1..], f);
      assert forall i :: 1 <= i < |p| ==> p[i] == p[1..][i - 1];
    }
  }

  lemma {:induction false} SearchIsExists(p: string, f: char -> bool)
    ensures Search(p, f) <==> exists i :: 0 <= i < |p| && f(p[i])
  {
    if |p| > 0 {
      SearchIsExists(p[1..], f);
      assert forall i :: 1 <= i < |p| ==> p[i] == p[1..][i - 1];
    }
  }

  /** validate_password: None when the password passes, otherwise the first failing check. */
  function ValidatePassword(cc: CharClasses, p: string): Option<PasswordViolation> {
    if |p| < MinPasswordLength then Some(TooShort)
    else if !(|p| > 0 && All(p, cc.isAlnum)) then Some(NotAlphanumeric)
    else if !Search(p, c => !cc.isDecimal(c)) then Some(NoLetter)
    else if !Search(p, cc.isDecimal) then Some(NoDigit)
    else if Search(p, MatchesCyrillicRange) then Some(HasCyrillic)
    else None
  }

  /** A password passes exactly when it has at least 8 characters, all alphanumeric, at
      least one of them not a digit, at least one a digit, and none in the Cyrillic range. */
  lemma PasswordAccepted(cc: CharClasses, p: string)
    ensures ValidatePassword(cc, p) == None <==>
      && |p| >= MinPasswordLength
      && (forall i :: 0 <= i < |p| ==> cc.isAlnum(p[i]))
      && (exists i :: 0 <= i < |p| && !cc.isDecimal(p[i]))
      && (exists i :: 0 <= i < |p| && cc.isDecimal(p[i]))
      && (forall i :: 0 <= i < |p| ==> !MatchesCyrillicRange(p[i]))
  {
    AllIsForall(p, cc.isAlnum);
    SearchIsExists(p, c => !cc.isDecimal(c));
    SearchIsExists(p, cc.isDecimal);
    SearchIsExists(p, MatchesCyrillicRange);
  }

  /** The checks run in order and each message is reported only when every earlier check passed. */
  lemma ViolationOrder(cc: CharClasses, p: string)
    ensures ValidatePassword(cc, p) == Some(TooShort) <==> |p| < MinPasswordLength
    ensures ValidatePassword(cc, p) == Some(NotAlphanumeric) <==>
      |p| >= MinPasswordLength && exists i :: 0 <= i < |p| && !cc.isAlnum(p[i])
    ensures ValidatePassword(cc, p) == Some(NoLetter) <==>
      |p| >= MinPasswordLength && (forall i :: 0 <= i < |p| ==> cc.isAlnum(p[i]))
      && (forall i :: 0 <= i < |p| ==> cc.isDecimal(p[i]))
    ensures ValidatePassword(cc, p) == Some(NoDigit) <==>
      |p| >= MinPasswordLength && (forall i :: 0 <= i < |p| ==> cc.isAlnum(p[i]))
      && (forall i :: 0 <= i < |p| ==> !cc.isDecimal(p[i]))
    ensures ValidatePassword(cc, p) == Some(HasCyrillic) <==>
      |p| >= MinPasswordLength && (forall i :: 0 <= i < |p| ==> cc.isAlnum(p[i]))
      && (exists i :: 0 <= i < |p| && !cc.isDecimal(p[i]))
      && (exists i :: 0 <= i < |p| && cc.isDecimal(p[i]))
      && (exists i :: 0 <= i < |p| && MatchesCyrillicRange(p[i]))
  {
    AllIsForall(p, cc.isAlnum);
    SearchIsExists(p, c => !cc.isDecimal(c));
    SearchIsExists(p, cc.isDecimal);
    SearchIsExists(p, MatchesCyrillicRange);
  }

  lemma ShortPasswordRejected(cc: CharClasses)
    ensures ValidatePassword(cc, "q1") == Some(TooShort)
  {
  }

  lemma HyphenatedPasswordRejected(cc: CharClasses)
    requires Standard(cc)
    ensures ValidatePassword(cc, "q-q-q-qq-q-q-qq1") == Some(NotAlphanumeric)
  {
  }

  lemma DigitsOnlyPasswordRejected(cc: CharClasses)
    requires Standard(cc)
    ensures ValidatePassword(cc, "88888888") == Some(NoLetter)
  {
  }

  lemma LettersOnlyPasswordRejected(cc: CharClasses)
    requires Standard(cc)
    ensures ValidatePassword(cc, "qqqqqqqq") == Some(NoDigit)
  {
  }

  lemma CyrillicPasswordRejected(cc: CharClasses)
    requires Standard(cc)
    ensures ValidatePassword(cc, "qwукен12") == Some(HasCyrillic)
  {
  }

  /** A password of at least 8 characters drawn from the ASCII letters, the ASCII digits
      and Ё/ё passes as soon as it holds a character that is not a digit and one that is. */
  lemma AcceptedByComposition(cc: CharClasses, p: string, letter: nat, digit: nat)
    requires Standard(cc)
    requires |p| >= MinPasswordLength
    requires forall i :: 0 <= i < |p| ==>
      IsAsciiLetter(p[i]) || IsAsciiDigit(p[i]) || p[i] == '\U{0401}' || p[i] == '\U{0451}'
    requires letter < |p| && !IsAsciiDigit(p[letter])
    requires digit < |p| && IsAsciiDigit(p[digit])
    ensures ValidatePassword(cc, p) == None
  {
    PasswordAccepted(cc, p);
  }

  lemma QwertyPasswordAccepted(cc: CharClasses)
    requires Standard(cc)
    ensures ValidatePassword(cc, "qwerty123") == None
  {
    AcceptedByComposition(cc, "qwerty123", 0, 6);
  }

  lemma PoiuyPasswordAccepted(cc: CharClasses)
    requires Standard(cc)
    ensures ValidatePassword(cc, "poiuy123") == None
  {
    AcceptedByComposition(cc, "poiuy123", 0, 5);
  }

  /** ё is a Russian letter yet lies outside the range, so a password of ё and digits passes. */
  lemma YoPasswordAccepted(cc: CharClasses)
    requires Standard(cc)
    ensures ValidatePassword(cc, "ёёёёёёё1") == None
  {
    AcceptedByComposition(cc, "ёёёёёёё1", 0, 7);
  }
}
