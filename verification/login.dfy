/** `POST /api/login` (src/api/login.js): checks that email and password are
    present, looks for the first stored user with exactly that email and password,
    and answers with the password-free user and a session cookie. The handler's own
    `mockUsers` array is the `users` parameter; the handler only reads it, which is
    why `Post` returns no list. */
module Login {
  import opened Base
  import opened Text
  import opened Users

  /** The JSON body's fields, `None` when missing. The body itself is `None` only
      when it is not valid JSON or is `null`; any other JSON value has no fields. */
  datatype Request = Request(email: Option<string>, password: Option<string>)

  const MissingFields := Message(400, "Email and password are required")
  const InvalidCredentials := Message(401, "Invalid email or password")

  /** `u.email === email && u.password === password`. */
  predicate Matches(u: User, email: string, password: string)
  {
    u.email == email && u.password == password
  }

  /** `k` is the position `find` stops at. */
  ghost predicate FirstMatch(users: seq<User>, email: string, password: string, k: int)
  {
    && 0 <= k < |users|
    && Matches(users[k], email, password)
    && forall j :: 0 <= j < k ==> !Matches(users[j], email, password)
  }

  ghost predicate AnyMatch(users: seq<User>, email: string, password: string)
  {
    exists i :: 0 <= i < |users| && Matches(users[i], email, password)
  }

  /** The success reply for user `u`. */
  function LoggedIn(u: User, millis: nat): Response
  {
    Response(200, Some("Login successful"), Some(WithoutPassword(u)), Some(SessionToken(u.id, millis)))
  }

  /** The handler; `millis` is `Date.now()`. An unknown email and a wrong password
      get the same 401 reply. */
  function Post(users: seq<User>, body: Option<Request>, millis: nat): (r: Response)
    ensures body.None? ==> r == ServerError
    ensures body.Some? && !(Truthy(body.value.email) && Truthy(body.value.password)) ==> r == MissingFields
    ensures (body.Some? && Truthy(body.value.email) && Truthy(body.value.password)
             && !AnyMatch(users, body.value.email.value, body.value.password.value))
              ==> r == InvalidCredentials
    ensures r.status == 200 <==>
              && body.Some? && Truthy(body.value.email) && Truthy(body.value.password)
              && AnyMatch(users, body.value.email.value, body.value.password.value)
    ensures r.status == 200 ==>
              exists k :: FirstMatch(users, body.value.email.value, body.value.password.value, k)
                          && r == LoggedIn(users[k], millis)
  {
    match body
    case None => ServerError
    case Some(req) =>
      if !(Truthy(req.email) && Truthy(req.password)) then MissingFields
      else
        var email, password := req.email.value, req.password.value;
        match FindFirst(users, (u: User) => Matches(u, email, password))
        case None => InvalidCredentials
        case Some(k) =>
          assert FirstMatch(users, email, password, k);
          LoggedIn(users[k], millis)
  }
}
