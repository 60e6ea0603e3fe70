/**
 * The sign-up page of `src/pages/Register.tsx`: the password checks made
 * before the account request is sent.
 */
module Register {

  datatype FormData = FormData(username: string, email: string, password: string, confirmPassword: string)

  /** What a submit does: show a validation message, or call `register` with these arguments. */
  datatype Outcome = Invalid(message: string) | CallRegister(username: string, email: string, password: string)

  /** The page's state across submits: the validation message shown ("" for none). */
  datatype Page = Page(validationError: string)

  /**
   * `handleSubmit`: the message is cleared; differing passwords are refused
   * first, then a password shorter than six characters; otherwise the
   * username, email and password (not the confirmation) are sent.
   */
  function Submit(f: FormData): (r: Outcome)
    ensures f.password != f.confirmPassword ==> r == Invalid("Passwords do not match")
    ensures f.password == f.confirmPassword && |f.password| < 6 ==> r == Invalid("Password must be at least 6 characters")
    ensures r.CallRegister? <==> f.password == f.confirmPassword && |f.password| >= 6
    ensures r.CallRegister? ==> r == CallRegister(f.username, f.email, f.password)
  {
    if f.password != f.confirmPassword then Invalid("Passwords do not match")
    else if |f.password| < 6 then Invalid("Password must be at least 6 characters")
    else CallRegister(f.username, f.email, f.password)
  }

  /** The message after a submit: the new one, or "" when the request goes out. */
  function AfterSubmit(p: Page, f: FormData): (r: Page)
    ensures Submit(f).CallRegister? ==> r.validationError == ""
    ensures Submit(f).Invalid? ==> r.validationError == Submit(f).message
  {
    var cleared := p.(validationError := "");
    match Submit(f)
    case Invalid(m) => cleared.(validationError := m)
    case CallRegister(_, _, _) => cleared
  }

  /** A short password that also differs from its confirmation is reported as a mismatch. */
  lemma MismatchReportedFirst(f: FormData)
    requires f.password != f.confirmPassword && |f.password| < 6
    ensures Submit(f) == Invalid("Passwords do not match")
  {
  }

  /** The request never depends on the confirmation field beyond the two passwords agreeing. */
  lemma ConfirmationNotSent(f: FormData, g: FormData)
    requires f.username == g.username && f.email == g.email && f.password == g.password
    requires f.password == f.confirmPassword && g.password == g.confirmPassword
    ensures Submit(f) == Submit(g)
  {
  }
}
