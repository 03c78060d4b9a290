/** `POST /api/register` (src/api/register.js): validates name, email and password
    in a fixed order, rejects an email already on file, appends the new user with
    the next sequential id and answers with the password-free user and a session
    cookie. The handler's own `mockUsers` array is the `users` parameter. */
module Register {
  import opened Base
  import opened Text
  import opened Users

  /** The JSON body's fields; `None` is a missing (`undefined`/`null`) field. A
      request body is `None` when it is not valid JSON or is `null` (the handler's
      `catch`). Any other JSON value, including a number, a string or an array,
      destructures to `Request(None, None, None)`. */
  datatype Request = Request(name: Option<string>, email: Option<string>, password: Option<string>)

  /** The reply together with the user list as it stands afterwards. */
  datatype Outcome = Outcome(response: Response, users: seq<User>)

  const MissingFields := Message(400, "Name, email, and password are required")
  const ShortPassword := Message(400, "Password must be at least 8 characters long")
  const EmailTaken := Message(409, "User with this email already exists")

  /** `name && email && password` is truthy. */
  predicate AllPresent(req: Request)
  {
    Truthy(req.name) && Truthy(req.email) && Truthy(req.password)
  }

  /** Some stored user has exactly this email (no case folding). */
  ghost predicate EmailOnFile(users: seq<User>, email: string)
  {
    exists i :: 0 <= i < |users| && users[i].email == email
  }

  /** The request passes all three checks against `users`. */
  ghost predicate Accepted(users: seq<User>, body: Option<Request>)
  {
    && body.Some?
    && AllPresent(body.value)
    && LongEnough(body.value.password.value)
    && !EmailOnFile(users, body.value.email.value)
  }

  /** The user record a successful registration appends: the next id, the
      request's fields as given, and the creation time. */
  function NewUser(users: seq<User>, req: Request, now: string): User
    requires AllPresent(req)
  {
    User(NatToDecimal(|users| + 1), req.name.value, req.email.value, req.password.value, now)
  }

  /** The success reply: the stored user without its password, and a session
      cookie naming its id. */
  function Registered(u: User, millis: nat): Response
  {
    Response(200, Some("Registration successful"), Some(WithoutPassword(u)), Some(SessionToken(u.id, millis)))
  }

  /** The handler. `now` is `new Date().toISOString()` and `millis` is `Date.now()`.
      The checks run in order (presence, length, duplicate) and each failure leaves
      the list as it was; only an accepted request changes it, by appending one user. */
  function Post(users: seq<User>, body: Option<Request>, now: string, millis: nat): (out: Outcome)
    ensures body.None? ==> out == Outcome(ServerError, users)
    ensures body.Some? && !AllPresent(body.value) ==> out == Outcome(MissingFields, users)
    ensures (body.Some? && AllPresent(body.value) && !LongEnough(body.value.password.value))
              ==> out == Outcome(ShortPassword, users)
    ensures (body.Some? && AllPresent(body.value) && LongEnough(body.value.password.value)
             && EmailOnFile(users, body.value.email.value))
              ==> out == Outcome(EmailTaken, users)
    ensures out.response.status == 200 <==> Accepted(users, body)
    ensures out.response.status != 200 ==> out.users == users
    ensures out.response.status == 200 ==> out.users == users + [NewUser(users, body.value, now)]
    ensures out.response.status == 200 ==> out.response == Registered(NewUser(users, body.value, now), millis)
  {
    match body
    case None => Outcome(ServerError, users)
    case Some(req) =>
      if !AllPresent(req) then Outcome(MissingFields, users)
      else if !LongEnough(req.password.value) then Outcome(ShortPassword, users)
      else if FindFirst(users, (u: User) => u.email == req.email.value).Some? then Outcome(EmailTaken, users)
      else
        var u := NewUser(users, req, now);
        Outcome(Registered(u, millis), users + [u])
  }

  /** Registration keeps ids equal to position + 1, so ids stay distinct. */
  lemma PostKeepsSequentialIds(users: seq<User>, body: Option<Request>, now: string, millis: nat)
    requires SequentialIds(users)
    ensures SequentialIds(Post(users, body, now, millis).users)
    ensures DistinctIds(Post(users, body, now, millis).users)
  {
    var after := Post(users, body, now, millis).users;
    forall i | 0 <= i < |after|
      ensures after[i].id == NatToDecimal(i + 1)
    {
      if i < |users| {
        assert after[i] == users[i];
      }
    }
    SequentialIdsAreDistinct(after);
  }

  /** The duplicate check keeps stored emails pairwise distinct. */
  lemma PostKeepsUniqueEmails(users: seq<User>, body: Option<Request>, now: string, millis: nat)
    requires UniqueEmails(users)
    ensures UniqueEmails(Post(users, body, now, millis).users)
  {
    var after := Post(users, body, now, millis).users;
    if |after| != |users| {
      forall i, j | 0 <= i < j < |after|
        ensures after[i].email != after[j].email
      {
        assert after[i] == users[i];
        if j < |users| {
          assert after[j] == users[j];
        } else {
          assert !(after[i].email == body.value.email.value);
        }
      }
    }
  }

  /** The cookie set on success reads back as the new user's id. */
  lemma {:induction false} PostCookieNamesNewUser(users: seq<User>, body: Option<Request>, now: string, millis: nat)
    requires Post(users, body, now, millis).response.status == 200
    ensures Post(users, body, now, millis).response.sessionCookie.Some?
    ensures SessionUserId(Post(users, body, now, millis).response.sessionCookie.value)
              == Some(NatToDecimal(|users| + 1))
  {
    NumericTokenRoundTrip(|users| + 1, millis);
  }

  /** A body that is JSON but not an object (a number, a string, an array) has no
      fields, so it is refused as incomplete (400), not as a server error. */
  lemma NonObjectBodyIsIncomplete(users: seq<User>, now: string, millis: nat)
    ensures Post(users, Some(Request(None, None, None)), now, millis) == Outcome(MissingFields, users)
  {
  }
}
