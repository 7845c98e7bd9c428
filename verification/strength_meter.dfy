/**
 * The client's password strength meter: five checks counted into a score from 0 to 5,
 * and the score shown as a bar width, a bar colour and a label.
 */
module StrengthMeter {

  import opened CharClasses
  import opened PasswordPolicy

  /** The five checks, in the order they are declared (and counted). */
  datatype Checks = Checks(length: bool, lowercase: bool, uppercase: bool, number: bool, special: bool) {
    /** `Object.values(checks)` */
    function Values(): seq<bool> {
      [length, lowercase, uppercase, number, special]
    }
  }

  /** The checks on `password`: at least eight characters, and one of each class. */
  function ChecksOf(password: string): (checks: Checks)
    ensures IsStrongPassword(password) ==> checks == Checks(true, true, true, true, true)
  {
    Checks(
      |password| >= 8,
      ContainsClass(password, IsLower),
      ContainsClass(password, IsUpper),
      ContainsClass(password, IsDigit),
      ContainsClass(password, IsSpecial))
  }

  /** How many of `bs` are true. */
  function CountTrue(bs: seq<bool>): (n: nat)
    ensures n <= |bs|
    ensures n == |bs| <==> forall i :: 0 <= i < |bs| ==> bs[i]
    ensures n == 0 <==> forall i :: 0 <= i < |bs| ==> !bs[i]
  {
    if bs == [] then 0
    else CountTrue(bs[..|bs| - 1]) + (if bs[|bs| - 1] then 1 else 0)
  }

  /** The number of checks `password` passes: five exactly when it passes them all, none exactly when it passes none. */
  function Score(password: string): (score: nat)
    ensures score <= 5
    ensures var c := ChecksOf(password);
      score == 5 <==> c.length && c.lowercase && c.uppercase && c.number && c.special
    ensures var c := ChecksOf(password);
      score == 0 <==> !c.length && !c.lowercase && !c.uppercase && !c.number && !c.special
  {
    var c := ChecksOf(password);
    var values := c.Values();
    assert values[0] == c.length && values[1] == c.lowercase && values[2] == c.uppercase;
    assert values[3] == c.number && values[4] == c.special;
    assert (forall i :: 0 <= i < |values| ==> values[i]) <==> c.length && c.lowercase && c.uppercase && c.number && c.special by {
      if c.length && c.lowercase && c.uppercase && c.number && c.special {
        forall i | 0 <= i < |values| ensures values[i] {
          assert i == 0 || i == 1 || i == 2 || i == 3 || i == 4;
        }
      }
    }
    assert (forall i :: 0 <= i < |values| ==> !values[i]) <==> !c.length && !c.lowercase && !c.uppercase && !c.number && !c.special by {
      if !c.length && !c.lowercase && !c.uppercase && !c.number && !c.special {
        forall i | 0 <= i < |values| ensures !values[i] {
          assert i == 0 || i == 1 || i == 2 || i == 3 || i == 4;
        }
      }
    }
    CountTrue(values)
  }

  /** `calculateStrength`: runs the checks, then adds one to the score for each that passed. */
  method CalculateStrength(password: string) returns (score: nat, checks: Checks)
    ensures checks == ChecksOf(password)
    ensures score == Score(password)
  {
    score := 0;
    checks := Checks(
      |password| >= 8,
      ContainsClass(password, IsLower),
      ContainsClass(password, IsUpper),
      ContainsClass(password, IsDigit),
      ContainsClass(password, IsSpecial));
    var values := checks.Values();
    var i := 0;
    while i < |values|
      invariant 0 <= i <= |values|
      invariant score == CountTrue(values[..i])
    {
      if values[i] {
        score := score + 1;
      }
      assert values[..i + 1][..i] == values[..i];
      i := i + 1;
    }
    assert values[..i] == values;
  }

  /** `(score / 5) * 100`, the bar width in percent. */
  function Percentage(score: nat): (percent: nat)
    ensures percent * 5 == score * 100
    ensures score <= 5 ==> percent <= 100
    ensures percent == 100 <==> score == 5
  {
    score * 100 / 5
  }

  /** The label under the bar and its text colour. */
  datatype StrengthLabel = StrengthLabel(text: string, color: string)

  /**
   * `getStrengthText`: no label at score 0; otherwise a label whose text colour has the
   * hue of the bar it sits under.
   */
  function GetStrengthText(score: nat): (caption: StrengthLabel)
    ensures caption.text == "" <==> score == 0
    ensures caption.color == "" <==> score == 0
    ensures score >= 1 ==> caption.color == "text-" + GetBarColor(score)[3..]
  {
    if score == 0 then StrengthLabel("", "")
    else if score <= 2 then
      assert GetBarColor(score)[3..] == "red-500";
      StrengthLabel("Weak", "text-red-500")
    else if score <= 3 then
      assert GetBarColor(score)[3..] == "yellow-500";
      StrengthLabel("Fair", "text-yellow-500")
    else if score <= 4 then
      assert GetBarColor(score)[3..] == "blue-500";
      StrengthLabel("Good", "text-blue-500")
    else
      assert GetBarColor(score)[3..] == "green-500";
      StrengthLabel("Strong", "text-green-500")
  }

  /**
   * `getBarColor`: a background class; green exactly for a full score, red exactly for a
   * score of two or less.
   */
  function GetBarColor(score: nat): (color: string)
    ensures |color| > 3 && color[..3] == "bg-"
    ensures color == "bg-green-500" <==> score >= 5
    ensures color == "bg-red-500" <==> score <= 2
  {
    if score <= 2 then "bg-red-500"
    else if score <= 3 then "bg-yellow-500"
    else if score <= 4 then "bg-blue-500"
    else "bg-green-500"
  }

  /** `hasPassword`: the meter is shown only for a non-empty password. */
  function HasPassword(password: string): (shown: bool)
    ensures shown <==> |password| > 0
  {
    password != ""
  }

  /** Position of a label in the order "" < Weak < Fair < Good < Strong. */
  function LabelRank(text: string): nat {
    if text == "Weak" then 1
    else if text == "Fair" then 2
    else if text == "Good" then 3
    else if text == "Strong" then 4
    else 0
  }

  /** Labels never go down as the score goes up. */
  lemma LabelRisesWithScore(score: nat, higher: nat)
    requires score <= higher <= 5
    ensures LabelRank(GetStrengthText(score).text) <= LabelRank(GetStrengthText(higher).text)
  {
  }

  /** The label reads "Strong", and the bar is green, exactly when every check passes. */
  lemma StrongLabelIffAllChecks(password: string)
    ensures var c := ChecksOf(password);
      var all := c.length && c.lowercase && c.uppercase && c.number && c.special;
      && (GetStrengthText(Score(password)).text == "Strong" <==> all)
      && (GetBarColor(Score(password)) == "bg-green-500" <==> all)
  {
  }

  lemma {:induction false} CountTrueMonotone(a: seq<bool>, b: seq<bool>)
    requires |a| == |b|
    requires forall i :: 0 <= i < |a| ==> a[i] ==> b[i]
    ensures CountTrue(a) <= CountTrue(b)
  {
    if a != [] {
      var n := |a| - 1;
      CountTrueMonotone(a[..n], b[..n]);
    }
  }

  /** Typing more never lowers the score: every check is "at least" or "contains". */
  lemma ScoreMonotone(password: string, more: string)
    ensures Score(password) <= Score(password + more)
  {
    var before, after := ChecksOf(password), ChecksOf(password + more);
    if before.lowercase { ContainsClassAppend(password, more, IsLower); }
    if before.uppercase { ContainsClassAppend(password, more, IsUpper); }
    if before.number { ContainsClassAppend(password, more, IsDigit); }
    if before.special { ContainsClassAppend(password, more, IsSpecial); }
    CountTrueMonotone(before.Values(), after.Values());
  }

  /** The empty password scores 0 and hides the meter; a hidden meter always means score 0. */
  lemma EmptyPasswordScoresZero(password: string)
    requires !HasPassword(password)
    ensures Score(password) == 0 && Percentage(Score(password)) == 0
  {
  }

  /** A shown meter can still score 0: `"#"` passes no check. */
  lemma ShownMeterMayScoreZero()
    ensures HasPassword("#") && Score("#") == 0
  {
    assert !IsLower('#') && !IsUpper('#') && !IsDigit('#') && !IsSpecial('#');
  }

  /** Every password the server accepts scores 5 on the meter. */
  lemma StrongPasswordScoresFive(password: string)
    requires IsStrongPassword(password)
    ensures Score(password) == 5
  {
  }

  /**
   * The converse fails: the meter does not restrict the character set, so `"Abcdef1!#"`
   * scores 5 although the server refuses it.
   */
  lemma MeterAcceptsWhatServerRefuses()
    ensures Score("Abcdef1!#") == 5
    ensures !IsStrongPassword("Abcdef1!#")
  {
    var p := "Abcdef1!#";
    assert IsUpper(p[0]) && IsLower(p[1]) && IsDigit(p[6]) && IsSpecial(p[7]);
    assert !IsAllowed(p[8]);
  }
}
