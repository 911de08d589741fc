/** The reset form's checks (frontend/src/pages/ResetPassword.jsx): the
    token taken from the query string and the order in which `submit`
    rejects a form. The strength meter is `Passwords.Strength`, which this
    page copies verbatim. */
module ResetPasswordPage {
  import opened Js
  import opened Passwords

  /** `params.get("token") || ""`, with `None` for an absent parameter. */
  function TokenFromQuery(param: Option<string>): (token: string)
    ensures param.None? ==> token == ""
    ensures param.Some? ==> token == param.value
  {
    if param.Some? && param.value != "" then param.value else ""
  }

  datatype ResetPageError = MissingToken | WeakPassword | Mismatch

  /** The body posted to `/auth/reset-password`. */
  datatype ResetRequest = ResetRequest(token: string, password: string)

  /** `submit()`: a missing token, then a weak password, then a differing
      confirmation is refused; otherwise token and password are posted as
      they are. */
  function Submit(token: string, password: string, confirm: string): (r: Result<ResetRequest, ResetPageError>)
    ensures r == Err(MissingToken) <==> token == ""
    ensures r == Err(WeakPassword) <==> token != "" && !IsStrongPassword(password)
    ensures r == Err(Mismatch) <==> token != "" && IsStrongPassword(password) && password != confirm
    ensures r.Ok? <==> token != "" && IsStrongPassword(password) && password == confirm
    ensures r.Ok? ==> r.value == ResetRequest(token, password)
  {
    if token == "" then Err(MissingToken)
    else if !IsStrongPassword(password) then Err(WeakPassword)
    else if password != confirm then Err(Mismatch)
    else Ok(ResetRequest(token, password))
  }
}
