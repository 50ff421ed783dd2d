/** The password-strength rule applied at registration (validate_password). */
module Password {

  const MinLength := 8

  /** The reference rule: long enough, and at least one ASCII upper-case
      letter, one ASCII lower-case letter and one decimal digit. */
  ghost predicate Strong(p: string) {
    && |p| >= MinLength
    && (exists i :: 0 <= i < |p| && 'A' <= p[i] <= 'Z')
    && (exists i :: 0 <= i < |p| && 'a' <= p[i] <= 'z')
    && (exists i :: 0 <= i < |p| && '0' <= p[i] <= '9')
  }

  /** A left-to-right scan for a character in the class [lo-hi], as a regular
      expression search for that one class performs it. */
  function ContainsInRange(s: string, lo: char, hi: char): (found: bool)
    ensures found <==> exists i :: 0 <= i < |s| && lo <= s[i] <= hi
  {
    if s == [] then false
    else if lo <= s[0] <= hi then true
    else
      var rest := ContainsInRange(s[1..], lo, hi);
      assert forall i :: 1 <= i < |s| ==> s[i] == s[1..][i - 1];
      rest
  }

  /** validate_password: the length test first, then the three class searches. */
  function ValidatePassword(p: string): (ok: bool)
    ensures ok <==> Strong(p)
    ensures |p| < MinLength ==> !ok
  {
    if |p| < MinLength then false
    else if !ContainsInRange(p, 'A', 'Z') then false
    else if !ContainsInRange(p, 'a', 'z') then false
    else if !ContainsInRange(p, '0', '9') then false
    else true
  }

  /** Two examples: a seven-character password is weak whatever it
      contains, and "ValidPass123" is strong. */
  lemma Examples()
    ensures !ValidatePassword("Short1A")
    ensures ValidatePassword("ValidPass123")
  {
    var p := "ValidPass123";
    assert 'A' <= p[0] <= 'Z' && 'a' <= p[1] <= 'z' && '0' <= p[9] <= '9';
  }
}
