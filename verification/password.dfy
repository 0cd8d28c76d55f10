/**
 * The client-side checks of the registration page
 * (frontend/src/pages/Register.js): the 0..5 password strength meter, its
 * colour and label, the checks run before the register call and the
 * condition that disables the submit button.
 */
module Password {

  predicate IsUpper(c: char) { 'A' <= c <= 'Z' }
  predicate IsDigit(c: char) { '0' <= c <= '9' }
  predicate IsLetterOrDigit(c: char) { 'a' <= c <= 'z' || IsUpper(c) || IsDigit(c) }

  /** `/[A-Z]/.test(password)`. */
  predicate HasUpper(p: string) { exists i :: 0 <= i < |p| && IsUpper(p[i]) }

  /** `/[0-9]/.test(password)`. */
  predicate HasDigit(p: string) { exists i :: 0 <= i < |p| && IsDigit(p[i]) }

  /** `/[^A-Za-z0-9]/.test(password)`. */
  predicate HasSymbol(p: string) { exists i :: 0 <= i < |p| && !IsLetterOrDigit(p[i]) }

  /** The five criteria of the meter, in the order they are tested. */
  function Criteria(p: string): seq<bool>
  {
    [|p| >= 6, |p| >= 10, HasUpper(p), HasDigit(p), HasSymbol(p)]
  }

  function Points(b: bool): nat { if b then 1 else 0 }

  /** `calculatePasswordStrength(password)`. */
  function Strength(p: string): (s: nat)
    ensures s <= 5
    ensures |p| < 6 ==> s <= 3
  {
    Points(|p| >= 6) + Points(|p| >= 10) + Points(HasUpper(p)) + Points(HasDigit(p)) + Points(HasSymbol(p))
  }

  function CountTrue(bs: seq<bool>): nat
  {
    if |bs| == 0 then 0 else Points(bs[0]) + CountTrue(bs[1..])
  }

  /** The strength is the number of criteria the password meets. */
  lemma StrengthCountsCriteria(p: string)
    ensures Strength(p) == CountTrue(Criteria(p))
  {
    var c := Criteria(p);
    var c1, c2, c3, c4 := [c[1], c[2], c[3], c[4]], [c[2], c[3], c[4]], [c[3], c[4]], [c[4]];
    assert c[1..] == c1 && c1[1..] == c2 && c2[1..] == c3 && c3[1..] == c4 && c4[1..] == [];
    assert CountTrue(c4) == Points(c[4]);
    assert CountTrue(c3) == Points(c[3]) + Points(c[4]);
    assert CountTrue(c2) == Points(c[2]) + Points(c[3]) + Points(c[4]);
  }

  /** Typing one more character never weakens the password. */
  lemma StrengthMonotone(p: string, c: char)
    ensures Strength(p) <= Strength(p + [c])
  {
    var q := p + [c];
    if HasUpper(p) {
      var i :| 0 <= i < |p| && IsUpper(p[i]);
      assert q[i] == p[i];
    }
    if HasDigit(p) {
      var i :| 0 <= i < |p| && IsDigit(p[i]);
      assert q[i] == p[i];
    }
    if HasSymbol(p) {
      var i :| 0 <= i < |p| && !IsLetterOrDigit(p[i]);
      assert q[i] == p[i];
    }
  }

  /** `"Abcdef1!xy"` meets all five criteria. */
  lemma StrongExample()
    ensures Strength("Abcdef1!xy") == 5
  {
    var p := "Abcdef1!xy";
    assert IsUpper(p[0]) && IsDigit(p[6]) && !IsLetterOrDigit(p[7]);
  }

  // ----- colour and label -----

  datatype Color = Error | Warning | Success

  /** `getPasswordStrengthColor()`. */
  function ColorOf(strength: nat): Color
  {
    if strength <= 2 then Error else if strength <= 3 then Warning else Success
  }

  /** `getPasswordStrengthText()`. */
  function TextOf(strength: nat): string
  {
    if strength <= 2 then "Weak" else if strength <= 3 then "Medium" else "Strong"
  }

  /** The colour and the label always agree, and both follow the 2 / 3 thresholds. */
  lemma ColorMatchesText(strength: nat)
    ensures ColorOf(strength) == Error <==> TextOf(strength) == "Weak"
    ensures ColorOf(strength) == Warning <==> TextOf(strength) == "Medium"
    ensures ColorOf(strength) == Success <==> TextOf(strength) == "Strong"
    ensures TextOf(strength) == "Weak" <==> strength <= 2
    ensures TextOf(strength) == "Medium" <==> strength == 3
    ensures TextOf(strength) == "Strong" <==> strength >= 4
  {
  }

  /** Passwords under six characters never show as strong. */
  lemma ShortIsNeverStrong(p: string)
    requires |p| < 6
    ensures TextOf(Strength(p)) != "Strong"
  {
  }

  // ----- submit -----

  datatype Form = Form(name: string, email: string, password: string, confirmPassword: string)

  datatype Submission =
    | Rejected(message: string)
    | Register(name: string, email: string, password: string)

  /** `handleSubmit`: the mismatch check first, then the length check, then the register call. */
  function Submit(f: Form): (s: Submission)
    ensures s.Register? <==> f.password == f.confirmPassword && |f.password| >= 6
    ensures s.Register? ==> s == Register(f.name, f.email, f.password)
    ensures f.password != f.confirmPassword ==> s == Rejected("Passwords do not match")
    ensures f.password == f.confirmPassword && |f.password| < 6 ==>
      s == Rejected("Password must be at least 6 characters")
  {
    if f.password != f.confirmPassword then Rejected("Passwords do not match")
    else if |f.password| < 6 then Rejected("Password must be at least 6 characters")
    else Register(f.name, f.email, f.password)
  }

  /** `disabled={loading || formData.password !== formData.confirmPassword}`. */
  predicate ButtonDisabled(loading: bool, f: Form)
  {
    loading || f.password != f.confirmPassword
  }

  /** A submit from an enabled button can only fail the length check. */
  lemma EnabledSubmitMatches(loading: bool, f: Form)
    requires !ButtonDisabled(loading, f)
    ensures Submit(f) != Rejected("Passwords do not match")
    ensures Submit(f).Rejected? <==> |f.password| < 6
  {
  }

  /** Every password the form sends scores at least 1, yet a weak one is still sent. */
  lemma SubmittedStrength(f: Form)
    requires Submit(f).Register?
    ensures Strength(f.password) >= 1
  {
  }

  /** `"abcdef"` passes the checks while the meter shows it as weak. */
  lemma WeakPasswordAccepted()
    ensures Submit(Form("", "", "abcdef", "abcdef")).Register?
    ensures TextOf(Strength("abcdef")) == "Weak"
  {
    var p := "abcdef";
    assert !HasUpper(p) && !HasDigit(p) && !HasSymbol(p);
  }
}
