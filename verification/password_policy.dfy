/** The password rule shared by the sign-up and reset-password forms:
    `z.string().min(12, …).regex(/^(?=.*[a-z])(?=.*[A-Z])(?=.*\d)(?=.*[@$!%*?&])[A-Za-z\d@$!%*?&]{12,}$/, …)`.
    The pattern is modelled as the regular-expression engine reads it; the
    lemma `PolicyCharacterized` proves it equal to the plain reading. */
module PasswordPolicy {
  import opened Text
  import opened Validation

  const TooShortMessage: string := "Password must be at least 12 characters"
  const PatternMessage: string := "Password must include uppercase, lowercase, number and special character"
  const MismatchMessage: string := "Passwords don't match"

  const SpecialChars: string := "@$!%*?&"

  predicate IsSpecial(c: char) {
    c == '@' || c == '$' || c == '!' || c == '%' || c == '*' || c == '?' || c == '&'
  }

  /** `[A-Za-z\d@$!%*?&]`; `\d` is ASCII digits only. */
  predicate IsAllowed(c: char) {
    IsAsciiLower(c) || IsAsciiUpper(c) || IsDigit(c) || IsSpecial(c)
  }

  /** `IsSpecial` is membership in the class's seven characters as written. */
  lemma SpecialCharsAsWritten(c: char)
    ensures IsSpecial(c) <==> c in SpecialChars
  {
  }

  /** The characters `.` does not match without the `s` flag. */
  predicate IsLineTerminator(c: char) {
    c == '\n' || c == '\r' || c == '\U{2028}' || c == '\U{2029}'
  }

  datatype CharClass = LowerClass | UpperClass | DigitClass | SpecialClass

  predicate InClass(c: char, k: CharClass) {
    match k
    case LowerClass => IsAsciiLower(c)
    case UpperClass => IsAsciiUpper(c)
    case DigitClass => IsDigit(c)
    case SpecialClass => IsSpecial(c)
  }

  /** `(?=.*[k])` at the start of the input: some character of class `k`
      is preceded only by characters `.` can consume. */
  predicate Lookahead(s: string, k: CharClass) {
    exists i :: 0 <= i < |s| && InClass(s[i], k) && forall j :: 0 <= j < i ==> !IsLineTerminator(s[j])
  }

  /** The anchored pattern, read as the engine reads it. */
  predicate MatchesPattern(s: string) {
    && Lookahead(s, LowerClass) && Lookahead(s, UpperClass)
    && Lookahead(s, DigitClass) && Lookahead(s, SpecialClass)
    && |s| >= 12
    && forall i :: 0 <= i < |s| ==> IsAllowed(s[i])
  }

  /** The issues of the password field: both checks run, each adding its
      own message. */
  function PasswordIssues(path: string, p: string): (issues: seq<Issue>)
    ensures forall i :: 0 <= i < |issues| ==> issues[i].path == path
    ensures Issue(path, TooShortMessage) in issues <==> Utf16Length(p) < 12
    ensures Issue(path, PatternMessage) in issues <==> !MatchesPattern(p)
  {
    MinLength(path, p, 12, TooShortMessage) + (if MatchesPattern(p) then [] else [Issue(path, PatternMessage)])
  }

  predicate HasClass(p: string, k: CharClass) {
    exists i :: 0 <= i < |p| && InClass(p[i], k)
  }

  /** The rule in plain words: at least 12 characters, at least one of each
      class, nothing outside the four classes. */
  predicate StrongPassword(p: string) {
    && |p| >= 12
    && HasClass(p, LowerClass) && HasClass(p, UpperClass)
    && HasClass(p, DigitClass) && HasClass(p, SpecialClass)
    && forall i :: 0 <= i < |p| ==> IsAllowed(p[i])
  }

  lemma {:induction false} BmpLength(s: string)
    requires forall i :: 0 <= i < |s| ==> s[i] as int <= 0xFFFF
    ensures Utf16Length(s) == |s|
  {
    if |s| > 0 {
      assert forall i :: 0 <= i < |s| - 1 ==> s[1..][i] == s[i + 1];
      BmpLength(s[1..]);
    }
  }

  /** An allowed character is a single UTF-16 unit that `.` consumes. */
  lemma AllowedIsPlain(c: char)
    requires IsAllowed(c)
    ensures !IsLineTerminator(c) && c as int <= 0xFFFF
  {
  }

  lemma LookaheadFromClass(p: string, k: CharClass)
    requires HasClass(p, k)
    requires forall i :: 0 <= i < |p| ==> IsAllowed(p[i])
    ensures Lookahead(p, k)
  {
    var i :| 0 <= i < |p| && InClass(p[i], k);
    forall j | 0 <= j < i ensures !IsLineTerminator(p[j]) {
      AllowedIsPlain(p[j]);
    }
  }

  lemma StrongPasswordMatches(path: string, p: string)
    requires StrongPassword(p)
    ensures PasswordIssues(path, p) == []
  {
    forall i | 0 <= i < |p| ensures p[i] as int <= 0xFFFF {
      AllowedIsPlain(p[i]);
    }
    BmpLength(p);
    LookaheadFromClass(p, LowerClass);
    LookaheadFromClass(p, UpperClass);
    LookaheadFromClass(p, DigitClass);
    LookaheadFromClass(p, SpecialClass);
  }

  lemma MatchingPasswordIsStrong(path: string, p: string)
    requires PasswordIssues(path, p) == []
    ensures StrongPassword(p)
  {
    forall k: CharClass ensures HasClass(p, k) {
      assert Lookahead(p, k);
    }
  }

  /** A password passes both checks exactly when it is strong. */
  lemma PolicyCharacterized(path: string, p: string)
    ensures PasswordIssues(path, p) == [] <==> StrongPassword(p)
  {
    if StrongPassword(p) {
      StrongPasswordMatches(path, p);
    }
    if PasswordIssues(path, p) == [] {
      MatchingPasswordIsStrong(path, p);
    }
  }
}
