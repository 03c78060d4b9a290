/** `GET /api/me` (src/api/me.js): reads the user id out of the `session` cookie
    (the second `_`-separated field), looks it up in the handler's own `mockUsers`
    array (the `users` parameter) and answers with the password-free user. The
    token's timestamp field is never looked at, so tokens do not expire. */
module Me {
  import opened Base
  import opened Text
  import opened Users

  const NoSession := Message(401, "No session found")
  const InvalidSession := Message(401, "Invalid session")

  /** `k` is the position `mockUsers.find((u) => u.id === userId)` stops at. */
  ghost predicate FirstWithId(users: seq<User>, id: string, k: int)
  {
    && 0 <= k < |users|
    && users[k].id == id
    && forall j :: 0 <= j < k ==> users[j].id != id
  }

  ghost predicate KnownId(users: seq<User>, id: string)
  {
    exists i :: 0 <= i < |users| && users[i].id == id
  }

  /** The success reply: the body has a `user` and no `message`. */
  function Found(u: User): Response
  {
    Response(200, None, Some(WithoutPassword(u)), None)
  }

  /** The handler; `cookie` is the `session` cookie's value, `None` when there is
      no such cookie. A token with no `_` names no id, so it is rejected like a
      token naming an unknown id. */
  function Get(users: seq<User>, cookie: Option<string>): (r: Response)
    ensures cookie.None? ==> r == NoSession
    ensures r.status == 200 <==>
              cookie.Some? && SessionUserId(cookie.value).Some?
              && KnownId(users, SessionUserId(cookie.value).value)
    ensures (cookie.Some? && !(SessionUserId(cookie.value).Some?
                               && KnownId(users, SessionUserId(cookie.value).value)))
              ==> r == InvalidSession
    ensures r.status == 200 ==>
              exists k :: FirstWithId(users, SessionUserId(cookie.value).value, k) && r == Found(users[k])
  {
    match cookie
    case None => NoSession
    case Some(token) =>
      match SessionUserId(token)
      case None => InvalidSession
      case Some(id) =>
        match FindFirst(users, (u: User) => u.id == id)
        case None => InvalidSession
        case Some(k) =>
          assert FirstWithId(users, id, k);
          Found(users[k])
  }

  /** The timestamp part of a token never changes the answer. */
  lemma GetIgnoresTimestamp(users: seq<User>, id: string, t1: nat, t2: nat)
    ensures Get(users, Some(SessionToken(id, t1))) == Get(users, Some(SessionToken(id, t2)))
  {
    SessionTokenRoundTrip(id, t1);
    SessionTokenRoundTrip(id, t2);
  }

  /** A token issued for a user whose id has no `_` and who is the first with
      that id resolves back to that user. */
  lemma GetResolvesIssuedToken(users: seq<User>, k: nat, millis: nat)
    requires k < |users| && '_' !in users[k].id
    requires forall j :: 0 <= j < k ==> users[j].id != users[k].id
    ensures Get(users, Some(SessionToken(users[k].id, millis))) == Found(users[k])
  {
    SessionTokenRoundTrip(users[k].id, millis);
    var r := Get(users, Some(SessionToken(users[k].id, millis)));
    assert KnownId(users, users[k].id);
    var k' :| FirstWithId(users, users[k].id, k') && r == Found(users[k']);
    assert k' == k;
  }
}
