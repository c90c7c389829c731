/**
 * web_backend/src/handlers/logout.rs: end the session the token in the
 * request body belongs to. The token is read from the JSON body, not from
 * the session query, so an empty token is looked up like any other.
 */
module LogoutHandler {
  import opened Wrappers
  import opened UserDb
  import opened Store
  import opened Responses

  datatype LogoutPayload = LogoutPayload(sessionToken: string)

  method Logout(db: Db, payload: LogoutPayload) returns (resp: Response)
    requires db.Valid()
    modifies db
    ensures db.Valid()
    ensures db.entries == old(db.entries) && db.contents == old(db.contents)
    ensures UserBySessionToken(old(db.users), payload.sessionToken).None? ==>
              resp == Response(Unauthorized, Message("Invalid session token")) && unchanged(db)
    ensures UserBySessionToken(old(db.users), payload.sessionToken).Some? ==>
              && resp == Response(Ok, Message("Logout successful"))
              && db.users == WithSessionToken(old(db.users),
                                              UserBySessionToken(old(db.users), payload.sessionToken).value.id,
                                              None)
  {
    var user := UserBySessionToken(db.users, payload.sessionToken);
    if user.None? {
      return Response(Unauthorized, Message("Invalid session token"));
    }
    db.RemoveSessionToken(user.value.id);
    resp := Response(Ok, Message("Logout successful"));
  }
}
