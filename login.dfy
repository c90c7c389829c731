/**
 * web_backend/src/handlers/login.rs: check the password and hand out the
 * user's session token, creating one only when the user has none.
 *
 * Password checking (`password::verify_with_salt`, PBKDF2 over hex-encoded
 * salt and hash) is the parameter `verify`; the new token
 * (`create_session_token`, a random UUID) is the parameter `freshToken`.
 */
module LoginHandler {
  import opened Wrappers
  import opened UserDb
  import opened Store
  import opened Responses

  datatype LoginPayload = LoginPayload(username: string, password: string)

  /**
   * `verify_with_salt(salt, hashed_password, password)`: `Some(valid)`, or
   * `None` when the stored salt or hash does not decode as hex.
   */
  type Verifier = (string, string, string) -> Option<bool>

  method Login(db: Db, payload: LoginPayload, verify: Verifier, freshToken: string) returns (resp: Response)
    requires db.Valid()
    modifies db
    ensures db.Valid()
    ensures db.entries == old(db.entries) && db.contents == old(db.contents)
    ensures UserByUsername(old(db.users), payload.username).None? ==>
              resp == Response(InternalServerError, SomethingWentWrong(UserNotFound(payload.username)))
              && unchanged(db)
    ensures UserByUsername(old(db.users), payload.username).Some? ==>
              var user := UserByUsername(old(db.users), payload.username).value;
              match verify(user.salt, user.password, payload.password)
              case None =>
                resp == Response(InternalServerError, SomethingWentWrong(MalformedCredential)) && unchanged(db)
              case Some(false) =>
                resp == Response(Unauthorized, Message("Login failed")) && unchanged(db)
              case Some(true) =>
                match user.sessionToken
                case Some(token) =>
                  resp == Response(Ok, LoggedIn(token)) && unchanged(db)
                case None =>
                  && resp == Response(Ok, LoggedIn(freshToken))
                  && db.users == WithSessionToken(old(db.users), user.id, Some(freshToken))
    // Whatever path succeeded, the token handed out is the one the user now holds.
    ensures resp.status == Ok ==>
              && resp.body.LoggedIn?
              && var user := UserByUsername(old(db.users), payload.username).value;
                 forall i :: 0 <= i < |db.users| && db.users[i].id == user.id ==>
                   db.users[i].sessionToken == Some(resp.body.sessionToken)
  {
    var found := UserByUsername(db.users, payload.username);
    if found.None? {
      return Response(InternalServerError, SomethingWentWrong(UserNotFound(payload.username)));
    }
    var user := found.value;
    var isValid := verify(user.salt, user.password, payload.password);
    if isValid.None? {
      return Response(InternalServerError, SomethingWentWrong(MalformedCredential));
    }
    if !isValid.value {
      return Response(Unauthorized, Message("Login failed"));
    }
    var token;
    match user.sessionToken {
      case Some(t) =>
        token := t;
        forall i | 0 <= i < |db.users| && db.users[i].id == user.id
          ensures db.users[i].sessionToken == Some(token)
        {
          var j :| 0 <= j < |db.users| && db.users[j] == user;
          assert db.users[i] == db.users[j] by {
            if i < j { } else if j < i { }
          }
        }
      case None =>
        token := freshToken;
        db.UpdateSessionToken(user.id, token);
    }
    resp := Response(Ok, LoggedIn(token));
  }
}
