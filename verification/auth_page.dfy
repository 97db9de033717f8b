/**
 * The password-strength meter of the registration form: a score from the password's length and
 * the character classes it uses, its label and colour, and when the Register button is disabled.
 */
module AuthPage {

  predicate IsLower(c: char) { 'a' <= c <= 'z' }
  predicate IsUpper(c: char) { 'A' <= c <= 'Z' }
  predicate IsDigit(c: char) { '0' <= c <= '9' }

  /** The characters of the special-character class. */
  const Specials: string := "@$!%*?&#^(){}[]<>,.;:+=-_|\\/\"'`~"

  predicate IsSpecial(c: char) { c in Specials }

  /** `/[class]/.test(p)`: some character of `p` is in the class. */
  predicate HasLower(p: string) { exists i :: 0 <= i < |p| && IsLower(p[i]) }
  predicate HasUpper(p: string) { exists i :: 0 <= i < |p| && IsUpper(p[i]) }
  predicate HasDigit(p: string) { exists i :: 0 <= i < |p| && IsDigit(p[i]) }
  predicate HasSpecial(p: string) { exists i :: 0 <= i < |p| && IsSpecial(p[i]) }

  /** The sum of the contributions, before the cap at 100. */
  function RawScore(p: string): nat {
    (if |p| >= 6 then 20 else 0) + (if |p| >= 10 then 10 else 0)
    + (if HasLower(p) then 15 else 0) + (if HasUpper(p) then 15 else 0)
    + (if HasDigit(p) then 15 else 0) + (if HasSpecial(p) then 25 else 0)
  }

  /** The score `evaluatePasswordStrength` computes: 0 for the empty password, else the capped sum. */
  function Score(p: string): (r: nat)
    ensures r <= 100
    ensures p == "" ==> r == 0
    ensures p != "" && Criteria(p) == 0 ==> r == 0
  {
    if p == "" then 0 else if RawScore(p) < 100 then RawScore(p) else 100
  }

  /** `evaluatePasswordStrength`: add each contribution in turn, then cap at 100. */
  method EvaluatePasswordStrength(password: string) returns (strength: nat)
    ensures strength == Score(password)
  {
    if password == "" {
      return 0;
    }
    strength := 0;
    if |password| >= 6 { strength := strength + 20; }
    if |password| >= 10 { strength := strength + 10; }
    if HasLower(password) { strength := strength + 15; }
    if HasUpper(password) { strength := strength + 15; }
    if HasDigit(password) { strength := strength + 15; }
    if HasSpecial(password) { strength := strength + 25; }
    strength := if strength < 100 then strength else 100;
  }

  /** The score lies in [0, 100], and the contributions add up to at most 100, so the cap never
      changes a score. */
  lemma ScoreBounds(p: string)
    ensures 0 <= Score(p) <= 100
    ensures p != "" ==> Score(p) == RawScore(p)
  {
  }

  /** Appending a character extends each class test by that character's own class. */
  lemma {:induction false} ClassesAfterAppend(p: string, c: char)
    ensures HasLower(p + [c]) <==> HasLower(p) || IsLower(c)
    ensures HasUpper(p + [c]) <==> HasUpper(p) || IsUpper(c)
    ensures HasDigit(p + [c]) <==> HasDigit(p) || IsDigit(c)
    ensures HasSpecial(p + [c]) <==> HasSpecial(p) || IsSpecial(c)
  {
    var q := p + [c];
    assert forall i :: 0 <= i < |p| ==> q[i] == p[i];
    assert q[|p|] == c;
  }

  /** A character class counts once however often it occurs: appending a character whose classes
      are all present already, without crossing a length threshold, keeps the score. */
  lemma {:induction false} ClassCountsOnce(p: string, c: char)
    requires p != "" && |p| != 5 && |p| != 9
    requires (IsLower(c) ==> HasLower(p)) && (IsUpper(c) ==> HasUpper(p))
    requires (IsDigit(c) ==> HasDigit(p)) && (IsSpecial(c) ==> HasSpecial(p))
    ensures Score(p + [c]) == Score(p)
  {
    ClassesAfterAppend(p, c);
  }

  /** How many of the five criteria (length 6, lower, upper, digit, special) a password meets. */
  function Criteria(p: string): nat {
    (if |p| >= 6 then 1 else 0) + (if HasLower(p) then 1 else 0) + (if HasUpper(p) then 1 else 0)
    + (if HasDigit(p) then 1 else 0) + (if HasSpecial(p) then 1 else 0)
  }

  /** The label thresholds. */
  function StrengthText(s: int): (t: string)
    ensures t in {"Weak", "Fair", "Good", "Strong"}
  {
    if s < 30 then "Weak" else if s < 60 then "Fair" else if s < 80 then "Good" else "Strong"
  }

  /** The colour thresholds. */
  function StrengthColor(s: int): (c: string)
    ensures c in {"#ff4d4f", "#faad14", "#1890ff", "#52c41a"}
    ensures c == LabelColor(StrengthText(s))
  {
    if s < 30 then "#ff4d4f" else if s < 60 then "#faad14" else if s < 80 then "#1890ff" else "#52c41a"
  }

  /** The colour of each label. */
  function LabelColor(t: string): string {
    match t
    case "Weak" => "#ff4d4f"
    case "Fair" => "#faad14"
    case "Good" => "#1890ff"
    case _ => "#52c41a"
  }

  /** Label and colour use the same thresholds: the colour is determined by the label, and the
      label only gets stronger as the score grows. */
  lemma ColorFollowsLabel(s: int, s': int)
    ensures StrengthColor(s) == LabelColor(StrengthText(s))
    ensures s <= s' && StrengthText(s) == "Strong" ==> StrengthText(s') == "Strong"
    ensures s <= s' && StrengthText(s') == "Weak" ==> StrengthText(s) == "Weak"
  {
  }

  /** The Register button is disabled for a weak, non-zero score. */
  predicate RegisterDisabled(strength: int): (b: bool)
    ensures b <==> strength > 0 && StrengthText(strength) == "Weak"
  {
    strength < 30 && strength > 0
  }

  /** Register is blocked exactly for a non-empty password shorter than 10 that meets exactly one
      criterion. A non-empty password that meets none (say, five spaces) scores 0 and is not
      blocked. */
  lemma {:induction false} WhenRegisterIsDisabled(p: string)
    ensures RegisterDisabled(Score(p)) <==> p != "" && |p| < 10 && Criteria(p) == 1
    ensures p != "" && Criteria(p) == 0 ==> Score(p) == 0 && !RegisterDisabled(Score(p))
  {
    if p != "" && |p| >= 10 {
      assert RawScore(p) >= 30;
    }
  }
}
