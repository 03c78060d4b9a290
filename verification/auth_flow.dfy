/** How the register, login and me handlers fit together. Each handler file
    declares its own `mockUsers` array, all three starting as `SeedUsers`; a
    registration appends only to the register handler's copy. */
module AuthFlow {
  import opened Base
  import opened Text
  import opened Users
  import Register
  import Login
  import Me

  /** A cookie issued by login (on its seed list) is accepted by me (on its own
      seed list) and names the same user. */
  lemma SeedLoginAcceptedBySeedMe(body: Option<Login.Request>, millis: nat)
    requires Login.Post(SeedUsers, body, millis).status == 200
    ensures Login.Post(SeedUsers, body, millis).sessionCookie.Some?
    ensures Me.Get(SeedUsers, Login.Post(SeedUsers, body, millis).sessionCookie)
              == Response(200, None, Login.Post(SeedUsers, body, millis).user, None)
  {
    var r := Login.Post(SeedUsers, body, millis);
    var k :| Login.FirstMatch(SeedUsers, body.value.email.value, body.value.password.value, k)
             && r == Login.LoggedIn(SeedUsers[k], millis);
    SeedUsersWellFormed();
    SequentialIdsAreDistinct(SeedUsers);
    assert '_' !in SeedUsers[k].id;
    Me.GetResolvesIssuedToken(SeedUsers, k, millis);
  }

  /** A cookie issued by a registration on the seed list names id "3", which the
      me handler's own (unchanged) seed list does not contain. */
  lemma RegisteredCookieRejectedBySeedMe(body: Option<Register.Request>, now: string, millis: nat)
    requires Register.Post(SeedUsers, body, now, millis).response.status == 200
    ensures Me.Get(SeedUsers, Register.Post(SeedUsers, body, now, millis).response.sessionCookie)
              == Me.InvalidSession
  {
    assert NatToDecimal(3) == "3";
    NumericTokenRoundTrip(3, millis);
    assert !Me.KnownId(SeedUsers, "3");
  }
}
