/** The sign-up form: the five password requirements and the order of the submit checks. */
module Register {
  import opened Common

  /** `re.test(s)` for a one-character class: some character of `s` is in the class. */
  function TestsAny(s: string, inClass: char -> bool): (b: bool)
    ensures b <==> exists i :: 0 <= i < |s| && inClass(s[i])
  {
    if s == [] then false
    else if inClass(s[0]) then true
    else
      var b := TestsAny(s[1..], inClass);
      assert forall i :: 1 <= i < |s| ==> s[i] == s[1..][i - 1];
      assert b ==> exists i :: 0 <= i < |s| && inClass(s[i]) by {
        if b {
          var i :| 0 <= i < |s[1..]| && inClass(s[1..][i]);
          assert inClass(s[i + 1]);
        }
      }
      b
  }

  /** The characters of the special-character class. */
  const SpecialChars: string := "!@#$%^&*(),.?\":{}|<>"

  predicate IsUpper(c: char) { 'A' <= c <= 'Z' }
  predicate IsLower(c: char) { 'a' <= c <= 'z' }
  predicate IsDigit(c: char) { '0' <= c <= '9' }
  predicate IsSpecial(c: char) { c in SpecialChars }

  datatype Requirements = Requirements(
    minLength: bool,
    hasUpperCase: bool,
    hasLowerCase: bool,
    hasNumber: bool,
    hasSpecialChar: bool)

  /** `passwordRequirements`. */
  function PasswordRequirements(password: string): (r: Requirements)
    ensures r.minLength <==> |password| >= 8
    ensures r.hasUpperCase <==> exists i :: 0 <= i < |password| && 'A' <= password[i] <= 'Z'
    ensures r.hasLowerCase <==> exists i :: 0 <= i < |password| && 'a' <= password[i] <= 'z'
    ensures r.hasNumber <==> exists i :: 0 <= i < |password| && '0' <= password[i] <= '9'
    ensures r.hasSpecialChar <==> exists i :: 0 <= i < |password| && password[i] in SpecialChars
  {
    Requirements(|password| >= 8, TestsAny(password, IsUpper), TestsAny(password, IsLower),
      TestsAny(password, IsDigit), TestsAny(password, IsSpecial))
  }

  /** `Object.values(r).every(Boolean)`. */
  function Every(flags: seq<bool>): (b: bool)
    ensures b <==> forall i :: 0 <= i < |flags| ==> flags[i]
  {
    if flags == [] then true
    else
      var rest := Every(flags[1..]);
      assert forall i :: 1 <= i < |flags| ==> flags[i] == flags[1..][i - 1];
      flags[0] && rest
  }

  function AllRequirementsMet(r: Requirements): (b: bool)
    ensures b <==> r.minLength && r.hasUpperCase && r.hasLowerCase && r.hasNumber && r.hasSpecialChar
  {
    var flags := [r.minLength, r.hasUpperCase, r.hasLowerCase, r.hasNumber, r.hasSpecialChar];
    assert flags[0] == r.minLength && flags[1] == r.hasUpperCase && flags[2] == r.hasLowerCase;
    assert flags[3] == r.hasNumber && flags[4] == r.hasSpecialChar;
    assert r.minLength && r.hasUpperCase && r.hasLowerCase && r.hasNumber && r.hasSpecialChar ==>
      forall i :: 0 <= i < |flags| ==> flags[i] by {
      forall i | 0 <= i < |flags|
        ensures r.minLength && r.hasUpperCase && r.hasLowerCase && r.hasNumber && r.hasSpecialChar ==> flags[i]
      {
        if i == 0 {} else if i == 1 {} else if i == 2 {} else if i == 3 {} else {}
      }
    }
    Every(flags)
  }

  datatype SubmitOutcome = ShowError(message: string) | SignUp(email: string, password: string, fullName: string)

  /** `handleSubmit`: the requirements are checked before the confirmation. */
  function HandleSubmit(fullName: string, email: string, password: string, confirmPassword: string): (r: SubmitOutcome)
    ensures !AllRequirementsMet(PasswordRequirements(password)) ==> r == ShowError("Please meet all password requirements")
    ensures AllRequirementsMet(PasswordRequirements(password)) && password != confirmPassword ==>
      r == ShowError("Passwords do not match")
    ensures r.SignUp? ==> r == SignUp(email, password, fullName)
  {
    if !AllRequirementsMet(PasswordRequirements(password)) then ShowError("Please meet all password requirements")
    else if password != confirmPassword then ShowError("Passwords do not match")
    else SignUp(email, password, fullName)
  }

  /**
   * Sign-up is attempted exactly for a password of at least eight characters with an upper-case
   * letter, a lower-case letter, a digit and a special character that matches its confirmation.
   */
  lemma SignUpIff(fullName: string, email: string, password: string, confirmPassword: string)
    ensures HandleSubmit(fullName, email, password, confirmPassword).SignUp? <==>
      && |password| >= 8
      && (exists i :: 0 <= i < |password| && IsUpper(password[i]))
      && (exists i :: 0 <= i < |password| && IsLower(password[i]))
      && (exists i :: 0 <= i < |password| && IsDigit(password[i]))
      && (exists i :: 0 <= i < |password| && IsSpecial(password[i]))
      && password == confirmPassword
  {
  }

  /** A short password is refused for its requirements even when the confirmation differs too. */
  lemma RequirementsBeforeMismatch(password: string, confirmPassword: string)
    requires |password| < 8 && password != confirmPassword
    ensures HandleSubmit("", "", password, confirmPassword) == ShowError("Please meet all password requirements")
  {
  }

  /** The error shown when the sign-up call fails: its message, or a fixed text when that is empty. */
  function SignUpFailureMessage(errMessage: Option<string>): (m: string)
    ensures errMessage.Some? && errMessage.value != [] ==> m == errMessage.value
    ensures errMessage.None? || errMessage.value == [] ==> m == "Failed to create account. Please try again."
    ensures m != []
  {
    match errMessage
    case Some(text) => if text != [] then text else "Failed to create account. Please try again."
    case None => "Failed to create account. Please try again."
  }
}
