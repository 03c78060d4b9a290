/** `POST /api/forgot-password` (src/api/forgot-password.js) and
    `POST /api/reset-password` (src/api/reset-password.js). Neither reads nor
    writes any user data: the forgot handler only checks that an email was given,
    the reset handler only checks that a token and a long-enough password were
    given. */
module PasswordReset {
  import opened Base
  import opened Text
  import opened Users

  /** The JSON bodies' fields, `None` when missing. A body is `None` only when it
      is not valid JSON or is `null`; any other JSON value has no fields. */
  datatype ForgotRequest = ForgotRequest(email: Option<string>)
  datatype ResetRequest = ResetRequest(token: Option<string>, password: Option<string>)

  const EmailRequired := Message(400, "Email is required")
  const ResetEmailSent := Message(200, "Password reset email sent")
  const TokenAndPasswordRequired := Message(400, "Token and password are required")
  const ShortPassword := Message(400, "Password must be at least 8 characters long")
  const ResetDone := Message(200, "Password reset successful")

  /** The forgot-password handler. There is no existence check: any non-empty
      email succeeds, registered or not. The one-second delay is not modelled. */
  function Forgot(body: Option<ForgotRequest>): (r: Response)
    ensures body.None? ==> r == ServerError
    ensures r.status == 200 <==> body.Some? && Truthy(body.value.email)
    ensures body.Some? && !Truthy(body.value.email) ==> r == EmailRequired
    ensures r.status == 200 ==> r == ResetEmailSent
  {
    match body
    case None => ServerError
    case Some(req) => if !Truthy(req.email) then EmailRequired else ResetEmailSent
  }

  /** The reply depends only on whether an email is present, not on which. */
  lemma ForgotDependsOnlyOnPresence(a: ForgotRequest, b: ForgotRequest)
    requires Truthy(a.email) == Truthy(b.email)
    ensures Forgot(Some(a)) == Forgot(Some(b))
  {
  }

  /** The reset-password handler: presence first, then the length rule shared
      with registration; the token itself is never checked. */
  function Reset(body: Option<ResetRequest>): (r: Response)
    ensures body.None? ==> r == ServerError
    ensures (body.Some? && !(Truthy(body.value.token) && Truthy(body.value.password)))
              ==> r == TokenAndPasswordRequired
    ensures (body.Some? && Truthy(body.value.token) && Truthy(body.value.password)
             && !LongEnough(body.value.password.value))
              ==> r == ShortPassword
    ensures r.status == 200 <==>
              body.Some? && Truthy(body.value.token) && Truthy(body.value.password)
              && LongEnough(body.value.password.value)
    ensures r.status == 200 ==> r == ResetDone
  {
    match body
    case None => ServerError
    case Some(req) =>
      if !(Truthy(req.token) && Truthy(req.password)) then TokenAndPasswordRequired
      else if !LongEnough(req.password.value) then ShortPassword
      else ResetDone
  }

  /** Any present token is as good as any other. */
  lemma ResetIgnoresTokenValue(a: ResetRequest, b: ResetRequest)
    requires Truthy(a.token) && Truthy(b.token) && a.password == b.password
    ensures Reset(Some(a)) == Reset(Some(b))
  {
  }
}
