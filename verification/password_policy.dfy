/**
 * The server's password strength rule, the regular expression
 * `^(?=.*[a-z])(?=.*[A-Z])(?=.*\d)(?=.*[@$!%*?&])[A-Za-z\d@$!%*?&]{8,}$`
 * modelled construct by construct.
 */
module PasswordPolicy {

  import opened CharClasses

  /** `[A-Za-z\d@$!%*?&]` */
  predicate IsAllowed(c: char) {
    IsLower(c) || IsUpper(c) || IsDigit(c) || IsSpecial(c)
  }

  /**
   * `(?=.*X)` at the start of the input: some character of class X is preceded only
   * by characters that `.` matches.
   */
  predicate LookaheadFinds(s: string, cls: char -> bool) {
    exists j :: 0 <= j < |s| && cls(s[j]) && forall k :: 0 <= k < j ==> !IsLineTerminator(s[k])
  }

  /** `[A-Za-z\d@$!%*?&]{8,}$` matched from the start of the input */
  predicate BodyMatches(s: string) {
    |s| >= 8 && forall i :: 0 <= i < |s| ==> IsAllowed(s[i])
  }

  /**
   * `isStrongPassword`: the four lookaheads and the anchored body. Because no allowed
   * character is a line terminator, this is exactly: at least eight characters, every
   * one of them allowed, and at least one lowercase letter, uppercase letter, digit and
   * symbol.
   */
  function IsStrongPassword(password: string): (strong: bool)
    ensures strong <==>
      && |password| >= 8
      && (forall i :: 0 <= i < |password| ==> IsAllowed(password[i]))
      && ContainsClass(password, IsLower)
      && ContainsClass(password, IsUpper)
      && ContainsClass(password, IsDigit)
      && ContainsClass(password, IsSpecial)
  {
    && LookaheadFinds(password, IsLower)
    && LookaheadFinds(password, IsUpper)
    && LookaheadFinds(password, IsDigit)
    && LookaheadFinds(password, IsSpecial)
    && BodyMatches(password)
  }

  /** Examples of the rule: one accepted password and four rejected ones. */
  lemma StrongPasswordExamples()
    ensures IsStrongPassword("Abc123!@")
    ensures !IsStrongPassword("Abcdefg1")
    ensures !IsStrongPassword("abcdefgh")
    ensures !IsStrongPassword("ABCDEFGH")
    ensures !IsStrongPassword("12345678")
  {
    var good := "Abc123!@";
    assert IsUpper(good[0]) && IsLower(good[1]) && IsDigit(good[3]) && IsSpecial(good[6]);
    assert forall i :: 0 <= i < |good| ==> IsAllowed(good[i]);
    var noSymbol := "Abcdefg1";
    assert forall i :: 0 <= i < |noSymbol| ==> !IsSpecial(noSymbol[i]);
    var noUpper := "abcdefgh";
    assert forall i :: 0 <= i < |noUpper| ==> !IsUpper(noUpper[i]);
    var noLower := "ABCDEFGH";
    assert forall i :: 0 <= i < |noLower| ==> !IsLower(noLower[i]);
    var digits := "12345678";
    assert forall i :: 0 <= i < |digits| ==> !IsLower(digits[i]);
  }
}
