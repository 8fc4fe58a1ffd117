/** The auth forms: each field's validation rules in the order the form
    library applies them (required, then length, then pattern, then custom
    validation; the first failing rule gives the field's message), and what
    a valid submission hands to the auth provider. */
module AuthForms {
  import opened Wrappers
  import opened Text
  import opened Validators
  import Session

  datatype FieldError = FieldError(field: string, message: string)

  /** A submit either stops at the field errors or calls the handler. */
  datatype Submission<T> = Blocked(errors: seq<FieldError>) | Submitted(payload: T)

  /** The messages of the failing fields, in field order. */
  function Errors(checks: seq<(string, Option<string>)>): (errs: seq<FieldError>)
    ensures |errs| <= |checks|
    ensures errs == [] <==> forall k :: 0 <= k < |checks| ==> checks[k].1.None?
    ensures forall e :: e in errs ==> exists k :: 0 <= k < |checks| && checks[k] == (e.field, Some(e.message))
    decreases |checks|
  {
    if |checks| == 0 then []
    else
      var rest := Errors(checks[1..]);
      assert forall e :: e in rest ==> exists k :: 1 <= k < |checks| && checks[k] == (e.field, Some(e.message)) by {
        forall e | e in rest ensures exists k :: 1 <= k < |checks| && checks[k] == (e.field, Some(e.message)) {
          var j :| 0 <= j < |checks[1..]| && checks[1..][j] == (e.field, Some(e.message));
          assert checks[j + 1] == (e.field, Some(e.message));
        }
      }
      match checks[0].1
      case Some(m) => [FieldError(checks[0].0, m)] + rest
      case None => rest
  }

  // ------------------------------------------------------------ sign-up

  datatype SignUpForm = SignUpForm(name: string, email: string, password: string, confirmPassword: string)

  function SignUpEmailError(email: string): (e: Option<string>)
    ensures e.None? <==> email != "" && SignUpEmail(email)
  {
    if email == "" then Some("Email is required")
    else if !SignUpEmail(email) then Some("Invalid email address")
    else None
  }

  function SignUpPasswordError(password: string): (e: Option<string>)
    ensures e.None? <==> |password| >= 8
  {
    if password == "" then Some("Password is required")
    else if |password| < 8 then Some("Password must be at least 8 characters")
    else None
  }

  function ConfirmError(confirm: string, password: string, requiredMessage: string): (e: Option<string>)
    ensures e.None? <==> confirm != "" && confirm == password
  {
    if confirm == "" then Some(requiredMessage)
    else if confirm != password then Some("Passwords do not match")
    else None
  }

  /** Sign-up: a name, an email the strict pattern accepts, a password of at
      least eight characters and a matching confirmation; the handler drops
      the confirmation. */
  function SubmitSignUp(f: SignUpForm): (r: Submission<Session.SignUpData>)
    ensures r.Submitted? <==>
      f.name != "" && SignUpEmail(f.email) && |f.password| >= 8 && f.confirmPassword == f.password
    ensures r.Submitted? ==> r.payload == Session.SignUpData(f.name, f.email, f.password)
  {
    var checks := [
      ("name", if f.name == "" then Some("Name is required") else None),
      ("email", SignUpEmailError(f.email)),
      ("password", SignUpPasswordError(f.password)),
      ("confirmPassword", ConfirmError(f.confirmPassword, f.password, "Please confirm your password"))];
    assert checks[0].1.None? && checks[1].1.None? && checks[2].1.None? && checks[3].1.None?
      <==> forall k :: 0 <= k < |checks| ==> checks[k].1.None?;
    var errs := Errors(checks);
    if errs == [] then Submitted(Session.SignUpData(f.name, f.email, f.password)) else Blocked(errs)
  }

  // ------------------------------------------------------------ sign-in and forgotten password

  function PlainEmailError(email: string): (e: Option<string>)
    ensures e.None? <==> email != "" && SignInEmail(email)
  {
    if email == "" then Some("Email is required")
    else if !SignInEmail(email) then Some("Invalid email address")
    else None
  }

  datatype Credentials = Credentials(email: string, password: string)

  /** Sign-in: an email the loose pattern accepts and any non-empty
      password, forwarded unchanged. */
  function SubmitSignIn(email: string, password: string): (r: Submission<Credentials>)
    ensures r.Submitted? <==> SignInEmail(email) && password != ""
    ensures r.Submitted? ==> r.payload == Credentials(email, password)
  {
    var checks := [
      ("email", PlainEmailError(email)),
      ("password", if password == "" then Some("Password is required") else None)];
    assert checks[0].1.None? && checks[1].1.None? <==> forall k :: 0 <= k < |checks| ==> checks[k].1.None?;
    var errs := Errors(checks);
    if errs == [] then Submitted(Credentials(email, password)) else Blocked(errs)
  }

  /** Forgotten password: the same email rule as sign-in; only the email is
      sent. */
  function SubmitForgetPassword(email: string): (r: Submission<string>)
    ensures r.Submitted? <==> SignInEmail(email)
    ensures r.Submitted? ==> r.payload == email
  {
    var errs := Errors([("email", PlainEmailError(email))]);
    if errs == [] then Submitted(email) else Blocked(errs)
  }

  /** An address good enough to sign up with is good enough everywhere. */
  lemma SignUpAddressWorksEverywhere(f: SignUpForm, password: string)
    requires SubmitSignUp(f).Submitted? && password != ""
    ensures SubmitSignIn(f.email, password).Submitted?
    ensures SubmitForgetPassword(f.email).Submitted?
  {
    SignUpEmailIsSignInEmail(f.email);
  }

  // ------------------------------------------------------------ new password

  function NewPasswordError(password: string): (e: Option<string>)
    ensures e.None? <==> |password| >= 8 && PasswordPattern(password)
  {
    if password == "" then Some("New password is required")
    else if |password| < 8 then Some("Password must be at least 8 characters")
    else if !PasswordPattern(password) then
      Some("Password must contain at least one lowercase letter, one uppercase letter, one number and one special character")
    else None
  }

  /** The handler's own outcome: a mismatch toast, or the request payload. */
  datatype NewPasswordAction = MismatchToast | Reset(newPassword: string)

  /** New password: the policy on the password, a matching confirmation,
      and then the handler, which checks the match once more. */
  function SubmitNewPassword(password: string, confirm: string): (r: Submission<NewPasswordAction>)
    ensures r.Submitted? <==> |password| >= 8 && PasswordPattern(password) && confirm == password
    ensures r.Submitted? ==> r.payload == Reset(password)
  {
    var checks := [
      ("newPassword", NewPasswordError(password)),
      ("confirmPassword", ConfirmError(confirm, password, "Confirm password is required"))];
    assert checks[0].1.None? && checks[1].1.None? <==> forall k :: 0 <= k < |checks| ==> checks[k].1.None?;
    var errs := Errors(checks);
    if errs != [] then Blocked(errs)
    else Submitted(if password != confirm then MismatchToast else Reset(password))
  }

  /** The policy in plain terms: at least eight characters, all from the
      allowed set, with each of the four kinds present. The pattern's own
      minimum of six never decides. */
  lemma NewPasswordPolicy(password: string)
    ensures NewPasswordError(password).None? <==>
      && |password| >= 8
      && (forall k :: 0 <= k < |password| ==> IsPasswordChar(password[k]))
      && (exists k :: 0 <= k < |password| && IsLower(password[k]))
      && (exists k :: 0 <= k < |password| && IsUpper(password[k]))
      && (exists k :: 0 <= k < |password| && IsDigit(password[k]))
      && (exists k :: 0 <= k < |password| && IsSpecial(password[k]))
  {
  }

  /** A password with all four kinds of character is accepted. */
  lemma StrongPasswordExample()
    ensures NewPasswordError("Passw0rd!").None?
  {
    var p := "Passw0rd!";
    assert |p| == 9;
    assert IsLower(p[1]) && IsUpper(p[0]) && IsDigit(p[5]) && IsSpecial(p[8]);
    assert forall k :: 0 <= k < |p| ==> IsPasswordChar(p[k]) by {
      forall k | 0 <= k < |p| ensures IsPasswordChar(p[k]) {
        assert k == 8 || IsLetter(p[k]) || IsDigit(p[k]);
      }
    }
    assert PasswordPattern(p);
  }

  /** A character outside the allowed set rejects an otherwise strong
      password. */
  lemma DashRejectsPassword()
    ensures NewPasswordError("Passw0rd!-") ==
      Some("Password must contain at least one lowercase letter, one uppercase letter, one number and one special character")
  {
    var p := "Passw0rd!-";
    assert !IsPasswordChar(p[9]);
  }

  /** Seven characters are too few even when the pattern matches. */
  lemma SevenCharactersTooFew()
    ensures PasswordPattern("Pa0rd!x")
    ensures NewPasswordError("Pa0rd!x") == Some("Password must be at least 8 characters")
  {
    var p := "Pa0rd!x";
    assert IsLower(p[1]) && IsUpper(p[0]) && IsDigit(p[2]) && IsSpecial(p[5]);
    assert forall k :: 0 <= k < |p| ==> IsPasswordChar(p[k]);
  }

  /** Once both fields pass, the handler's own mismatch check can never
      fire: every submission reaches the reset request. */
  lemma MismatchToastUnreachable(password: string, confirm: string)
    requires SubmitNewPassword(password, confirm).Submitted?
    ensures SubmitNewPassword(password, confirm).payload != MismatchToast
  {
  }

  // ------------------------------------------------------------ verification code

  datatype CodeAction =
    | CodeError(message: string)
    | VerifyForgotPassword(otp: string, email: string)
    | VerifySignIn(otp: string, email: string)
    | NoAction

  /** Verification code: the code is required; the handler then wants six
      characters and dispatches on `codeType` (missing parameters read as
      `""`). */
  function SubmitCode(otp: string, email: Option<string>, codeType: Option<string>): (r: Submission<CodeAction>)
    ensures otp == "" <==> r.Blocked?
    ensures r.Submitted? && |otp| < 6 ==> r.payload == CodeError("Code should be 6 characters long")
    ensures r.Submitted? && |otp| >= 6 ==>
      && (r.payload.VerifyForgotPassword? <==> codeType == Some("resetPassword"))
      && (r.payload.VerifySignIn? <==> codeType == Some("verifySignIn"))
      && (r.payload.NoAction? <==> codeType != Some("resetPassword") && codeType != Some("verifySignIn"))
    ensures r.Submitted? && (r.payload.VerifyForgotPassword? || r.payload.VerifySignIn?) ==>
      r.payload.otp == otp && r.payload.email == email.GetOr("")
  {
    if otp == "" then Blocked([FieldError("otp", "Code is required")])
    else
      var mail := email.GetOr("");
      var kind := codeType.GetOr("");
      Submitted(
        if |otp| < 6 then CodeError("Code should be 6 characters long")
        else if kind == "resetPassword" then VerifyForgotPassword(otp, mail)
        else if kind == "verifySignIn" then VerifySignIn(otp, mail)
        else NoAction)
  }

  /** With the input capped at six characters, a dispatched code has
      exactly six. */
  lemma DispatchedCodeHasSix(otp: string, email: Option<string>, codeType: Option<string>)
    requires |otp| <= 6
    requires SubmitCode(otp, email, codeType).Submitted?
    requires SubmitCode(otp, email, codeType).payload.VerifyForgotPassword?
          || SubmitCode(otp, email, codeType).payload.VerifySignIn?
    ensures |otp| == 6
  {
  }
}
