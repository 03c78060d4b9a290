/** The mock user records shared in shape (not in storage) by the register,
    login and me handlers, the HTTP response they build, and the session-token
    format. */
module Users {
  import opened Base
  import opened Text

  /** A stored user, password included (src/api/register.js:40-46). */
  datatype User = User(id: string, name: string, email: string, password: string, createdAt: string)

  /** The user as the handlers return it: every stored field except `password`. */
  datatype PublicUser = PublicUser(id: string, name: string, email: string, createdAt: string)

  /** Rebuilds a stored user from its public part and a password. */
  function WithPassword(p: PublicUser, password: string): User
  {
    User(p.id, p.name, p.email, password, p.createdAt)
  }

  /** `const { password: _, ...userWithoutPassword } = user`: the only thing lost
      is the password, so putting it back restores the stored user. */
  function WithoutPassword(u: User): (p: PublicUser)
    ensures WithPassword(p, u.password) == u
  {
    PublicUser(u.id, u.name, u.email, u.createdAt)
  }

  /** Two users look the same to a client exactly when they differ at most in
      their password. */
  lemma WithoutPasswordForgetsOnlyPassword(u: User, v: User)
    ensures WithoutPassword(u) == WithoutPassword(v) <==> u.(password := v.password) == v
  {
  }

  /** A handler's reply: HTTP status, the JSON body's `message` and `user` fields
      (each possibly absent), and the `session` cookie it sets, if any. */
  datatype Response = Response(status: nat, message: Option<string>, user: Option<PublicUser>, sessionCookie: Option<string>)

  /** Every handler's `catch` branch. A body that is not valid JSON, or is JSON
      `null`, lands here: `request.json()` rejects, or destructuring `null` throws.
      Any other JSON value (a number, a string, an array) destructures without
      error, with every field `undefined`. */
  const ServerError := Response(500, Some("Internal server error"), None, None)

  /** A reply carrying only a message. */
  function Message(status: nat, text: string): Response
  {
    Response(status, Some(text), None, None)
  }

  /** The common password rule of registration and reset: at least 8 UTF-16 code
      units (`password.length < 8` is rejected). */
  predicate LongEnough(password: string)
  {
    Utf16Length(password) >= 8
  }

  const TokenPrefix := "session_"

  /** `session_${id}_${Date.now()}`, with the clock reading as a parameter. */
  function SessionToken(id: string, millis: nat): (t: string)
    ensures |t| > |TokenPrefix| + |id| + 1
    ensures t[..|TokenPrefix|] == TokenPrefix
    ensures t[|TokenPrefix|..|TokenPrefix| + |id|] == id
    ensures t[|TokenPrefix| + |id|] == '_'
    ensures AllDigits(t[|TokenPrefix| + |id| + 1..])
    ensures t[|TokenPrefix| + |id| + 1..] == NatToDecimal(millis)
  {
    var t := TokenPrefix + id + "_" + NatToDecimal(millis);
    assert t[|TokenPrefix| + |id| + 1..] == NatToDecimal(millis);
    t
  }

  /** `sessionToken.value.split("_")[1]`: the second `_`-separated field, or
      `undefined` (here `None`) when the token has no `_`. The result never
      contains `_`. */
  function SessionUserId(token: string): (r: Option<string>)
    ensures r.Some? <==> '_' in token
    ensures r.Some? ==> '_' !in r.value
  {
    var fields := Split(token, '_');
    if |fields| >= 2 then Some(fields[1]) else None
  }

  /** Reading a token back yields the id's text up to its first `_`, whatever the
      clock said; for an id without `_` that is the id itself. */
  lemma {:induction false} SessionTokenRoundTrip(id: string, millis: nat)
    ensures SessionUserId(SessionToken(id, millis)) == Some(Split(id, '_')[0])
    ensures '_' !in id ==> SessionUserId(SessionToken(id, millis)) == Some(id)
  {
    var ts := NatToDecimal(millis);
    var rest := id + ['_'] + ts;
    assert SessionToken(id, millis) == "session" + ['_'] + rest;
    SplitWithoutSeparator("session", '_');
    SplitAppend("session", rest, '_');
    SplitAppend(id, ts, '_');
    var fields := Split(SessionToken(id, millis), '_');
    assert fields == ["session"] + (Split(id, '_') + Split(ts, '_'));
    assert fields[1] == Split(id, '_')[0];
    if '_' !in id {
      SplitWithoutSeparator(id, '_');
    }
  }

  /** A numeric id never contains the token's separator. */
  lemma DecimalHasNoUnderscore(n: nat)
    ensures '_' !in NatToDecimal(n)
  {
  }

  /** A token built from a numeric id reads back as that id. */
  lemma NumericTokenRoundTrip(n: nat, millis: nat)
    ensures SessionUserId(SessionToken(NatToDecimal(n), millis)) == Some(NatToDecimal(n))
  {
    DecimalHasNoUnderscore(n);
    SessionTokenRoundTrip(NatToDecimal(n), millis);
  }

  /** Ids are `(users.length + 1).toString()` at insertion, i.e. "1", "2", ... */
  ghost predicate SequentialIds(users: seq<User>)
  {
    forall i :: 0 <= i < |users| ==> users[i].id == NatToDecimal(i + 1)
  }

  ghost predicate DistinctIds(users: seq<User>)
  {
    forall i, j :: 0 <= i < j < |users| ==> users[i].id != users[j].id
  }

  ghost predicate UniqueEmails(users: seq<User>)
  {
    forall i, j :: 0 <= i < j < |users| ==> users[i].email != users[j].email
  }

  /** Sequential ids are pairwise distinct. */
  lemma SequentialIdsAreDistinct(users: seq<User>)
    requires SequentialIds(users)
    ensures DistinctIds(users)
  {
    forall i, j | 0 <= i < j < |users|
      ensures users[i].id != users[j].id
    {
      DecimalInjective(i + 1, j + 1);
    }
  }

  /** The two accounts each handler's `mockUsers` array starts with
      (src/api/register.js:4-19, src/api/login.js:4-19, src/api/me.js:5-20 declare
      three separate arrays with this content). */
  const SeedUsers: seq<User> := [
    User("1", "John Doe", "john@example.com", "password123", "2024-01-01T00:00:00Z"),
    User("2", "Jane Smith", "jane@example.com", "password123", "2024-01-01T00:00:00Z")
  ]

  /** The seed data has sequential ids and distinct emails. */
  lemma SeedUsersWellFormed()
    ensures SequentialIds(SeedUsers) && UniqueEmails(SeedUsers)
  {
    assert NatToDecimal(1) == "1";
    assert NatToDecimal(2) == "2";
  }
}
