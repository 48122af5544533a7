/**
 * The password strength rule the registration and user-creation forms share:
 * the regular expression
 *   ^(?=.*[a-z])(?=.*[A-Z])(?=.*\d)(?=.*[@$!%*?&])[A-Za-z\d@$!%*?&]{8,}$
 * given first as what the expression matches, then as the rule it amounts to.
 */
module PasswordPolicy {

  predicate IsLower(c: char) { 'a' <= c <= 'z' }
  predicate IsUpper(c: char) { 'A' <= c <= 'Z' }
  predicate IsDigit(c: char) { '0' <= c <= '9' }
  predicate IsSpecial(c: char) { c in "@$!%*?&" }

  /** `[A-Za-z\d@$!%*?&]`. */
  predicate IsAllowed(c: char) {
    IsLower(c) || IsUpper(c) || IsDigit(c) || IsSpecial(c)
  }

  /** The characters `.` does not match: the line terminators. */
  predicate IsLineTerminator(c: char) {
    c == '\n' || c == '\r' || c as int == 0x2028 || c as int == 0x2029
  }

  /** `(?=.*[class])` at the start: a character of the class, reached without crossing a line terminator. */
  predicate Lookahead(p: string, inClass: char -> bool) {
    exists i :: 0 <= i < |p| && inClass(p[i]) && (forall j :: 0 <= j < i ==> !IsLineTerminator(p[j]))
  }

  /** What the expression matches, part by part. */
  predicate MatchesPasswordRegex(p: string) {
    && Lookahead(p, IsLower)
    && Lookahead(p, IsUpper)
    && Lookahead(p, IsDigit)
    && Lookahead(p, IsSpecial)
    && |p| >= 8 && (forall i :: 0 <= i < |p| ==> IsAllowed(p[i]))
  }

  /** Contains a character of the class. */
  predicate Has(p: string, inClass: char -> bool) {
    exists i :: 0 <= i < |p| && inClass(p[i])
  }

  /**
   * The rule in words: at least 8 characters, all letters, digits or one of
   * @$!%*?&, with at least one lowercase letter, one uppercase letter, one
   * digit and one special character.
   */
  predicate StrongPassword(p: string) {
    && |p| >= 8
    && (forall i :: 0 <= i < |p| ==> IsAllowed(p[i]))
    && Has(p, IsLower) && Has(p, IsUpper) && Has(p, IsDigit) && Has(p, IsSpecial)
  }

  /** On text made of allowed characters a lookahead is the same as containing the class. */
  lemma LookaheadOnAllowedText(p: string, inClass: char -> bool)
    requires forall i :: 0 <= i < |p| ==> IsAllowed(p[i])
    ensures Lookahead(p, inClass) <==> Has(p, inClass)
  {
    if Has(p, inClass) {
      var i :| 0 <= i < |p| && inClass(p[i]);
      assert forall j :: 0 <= j < i ==> !IsLineTerminator(p[j]) by {
        forall j | 0 <= j < i ensures !IsLineTerminator(p[j]) {
          assert IsAllowed(p[j]);
        }
      }
    }
  }

  /** The expression accepts exactly the passwords the rule describes. */
  lemma RegexIsStrongPassword(p: string)
    ensures MatchesPasswordRegex(p) <==> StrongPassword(p)
  {
    if forall i :: 0 <= i < |p| ==> IsAllowed(p[i]) {
      LookaheadOnAllowedText(p, IsLower);
      LookaheadOnAllowedText(p, IsUpper);
      LookaheadOnAllowedText(p, IsDigit);
      LookaheadOnAllowedText(p, IsSpecial);
    }
  }
}
