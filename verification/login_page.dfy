/** The login page: the registration form's checks and where a successful
    login or registration leads. */
module LoginPage {
  import opened Wrappers
  import opened Text
  import ForgotPassword

  /** The query string, as parameter names and values. */
  type Params = map<string, string>

  /** `searchParams.get("redirect") || "/"`. */
  function RedirectTarget(params: Params): (path: string)
    ensures path != ""
    ensures "redirect" !in params ==> path == "/"
    ensures "redirect" in params && params["redirect"] != "" ==> path == params["redirect"]
    ensures "redirect" in params && params["redirect"] == "" ==> path == "/"
  {
    if "redirect" in params then OrElse(params["redirect"], "/") else "/"
  }

  datatype RegisterError = PasswordsDiffer | PasswordTooShort

  function ErrorMessage(e: RegisterError): string {
    match e
    case PasswordsDiffer => "Passwords do not match"
    case PasswordTooShort => "Password must be at least 6 characters"
  }

  /** `handleRegister`'s own checks, before `register` is called: the
      confirmation must match (checked first), and the password must have at
      least six characters. */
  function CheckRegistration(password: string, confirm: string): (r: Result<(), RegisterError>)
    ensures r == Err(PasswordsDiffer) <==> password != confirm
    ensures r == Err(PasswordTooShort) <==> password == confirm && |password| < 6
    ensures r.Ok? <==> password == confirm && |password| >= 6
  {
    if password != confirm then Err(PasswordsDiffer)
    else if |password| < 6 then Err(PasswordTooShort)
    else Ok(())
  }

  /** Registration and the password-reset wizard apply one rule, in the same
      order: a mismatch is reported first, then a password under six
      characters, and a password passes both pages' checks or neither. */
  lemma SameRuleAsReset(password: string, confirm: string, w: ForgotPassword.Wizard,
                        t: ForgotPassword.Tables, updateOk: bool)
    ensures var e := ForgotPassword.ResetPassword(w, t, password, confirm, updateOk).error;
      (CheckRegistration(password, confirm) == Err(PasswordsDiffer) <==> e == Some(ForgotPassword.Mismatch)) &&
      (CheckRegistration(password, confirm) == Err(PasswordTooShort) <==> e == Some(ForgotPassword.TooShort)) &&
      (CheckRegistration(password, confirm).Ok? <==> e.None? || e == Some(ForgotPassword.UpdateFailed))
    ensures ErrorMessage(PasswordsDiffer) == ForgotPassword.ErrorMessage(ForgotPassword.Mismatch)
    ensures ErrorMessage(PasswordTooShort) == ForgotPassword.ErrorMessage(ForgotPassword.TooShort)
  {
  }

  /** Where the page goes after `login` or `register` answers: the redirect
      target on success, nowhere on failure. */
  function AfterAuth(params: Params, success: bool): (dest: Option<string>)
    ensures success <==> dest.Some?
    ensures dest.Some? ==> dest.value == RedirectTarget(params)
  {
    if success then Some(RedirectTarget(params)) else None
  }

  /** The checkout and orders pages send visitors here with a redirect back to
      themselves: whatever else the query holds, a successful login goes to the
      page that was put in the parameter, or home when it was left empty, and a
      failed one goes nowhere. */
  lemma LoginReturnsToCaller(params: Params, page: string)
    ensures AfterAuth(params["redirect" := page], true) == Some(if page == "" then "/" else page)
    ensures AfterAuth(params["redirect" := page], false) == None
  {
  }
}
