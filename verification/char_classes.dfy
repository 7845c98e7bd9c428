/** The regular-expression character classes the password rules are written in. */
module CharClasses {

  /** `[a-z]` */
  predicate IsLower(c: char) { 'a' <= c <= 'z' }

  /** `[A-Z]` */
  predicate IsUpper(c: char) { 'A' <= c <= 'Z' }

  /** `\d`, which in a JavaScript regular expression is the ASCII digits only */
  predicate IsDigit(c: char) { '0' <= c <= '9' }

  /** `[@$!%*?&]` */
  predicate IsSpecial(c: char) { c in "@$!%*?&" }

  /** The characters `.` does not match in a JavaScript regular expression without the `s` flag */
  predicate IsLineTerminator(c: char) {
    c == '\n' || c == '\r' || c == '\U{2028}' || c == '\U{2029}'
  }

  /** `/[X]/.test(s)`: some character of `s` is in class `X` */
  predicate ContainsClass(s: string, cls: char -> bool) {
    exists i :: 0 <= i < |s| && cls(s[i])
  }

  /** A class found in `s` is still found once more text is appended. */
  lemma ContainsClassAppend(s: string, t: string, cls: char -> bool)
    requires ContainsClass(s, cls)
    ensures ContainsClass(s + t, cls)
  {
    var i :| 0 <= i < |s| && cls(s[i]);
    assert (s + t)[i] == s[i];
  }
}
