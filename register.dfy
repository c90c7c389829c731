/**
 * web_backend/src/handlers/register.rs: an admin registers a new user.
 *
 * `password::derive` draws a random salt and hashes the password with it; its
 * outcome is the parameter `derived` (`None` when the random source fails).
 * The clock that stamps `created_at` is the parameter `now`.
 */
module RegisterHandler {
  import opened Wrappers
  import opened Timezone
  import opened UserDb
  import opened Store
  import opened Responses
  import opened GongzuoHandlers

  datatype UserPayload = UserPayload(username: string, password: string)

  /** The `(salt, hashed_password)` pair `password::derive` returns, both hex. */
  datatype Credential = Credential(salt: string, hashedPassword: string)

  method Register(db: Db, q: ParsedQuery, payload: UserPayload, derived: Option<Credential>, now: NaiveDateTime)
    returns (resp: Response)
    requires db.Valid()
    modifies db
    ensures db.Valid()
    ensures db.entries == old(db.entries) && db.contents == old(db.contents)
    ensures SessionUser(old(db.users), q).None? ==> resp == SessionTokenInvalidError() && unchanged(db)
    // The admin check comes first: a non-admin is refused whether or not the name is taken.
    ensures SessionUser(old(db.users), q).Some? && !SessionUser(old(db.users), q).value.isAdmin ==>
              resp == Response(Unauthorized, Message("Only admin can register new users")) && unchanged(db)
    ensures SessionUser(old(db.users), q).Some? && SessionUser(old(db.users), q).value.isAdmin ==>
              if UserByUsername(old(db.users), payload.username).Some? then
                resp == Response(BadRequest, Message("User already exists")) && unchanged(db)
              else match derived
                case None =>
                  resp == Response(InternalServerError, SomethingWentWrong(RandomSourceFailed)) && unchanged(db)
                case Some(cred) =>
                  && resp.status == Created && resp.body.UserRegistered?
                  && var u := resp.body.user;
                     && db.users == old(db.users) + [u]
                     && u.username == payload.username
                     && u.salt == cred.salt && u.password == cred.hashedPassword
                     && u.createdAt == now && u.sessionToken == None && !u.isAdmin
                     && (forall v :: v in old(db.users) ==> v.id != u.id)
                     // the table now holds exactly one user of that name: the new one
                     && (forall i :: 0 <= i < |db.users| && db.users[i].username == payload.username ==>
                           i == |db.users| - 1)
  {
    var caller := SessionUser(db.users, q);
    if caller.None? {
      return SessionTokenInvalidError();
    }
    if !caller.value.isAdmin {
      return Response(Unauthorized, Message("Only admin can register new users"));
    }
    var existing := UserByUsername(db.users, payload.username);
    if existing.Some? {
      return Response(BadRequest, Message("User already exists"));
    }
    if derived.None? {
      return Response(InternalServerError, SomethingWentWrong(RandomSourceFailed));
    }
    var cred := derived.value;
    ghost var before := db.users;
    var user := db.RegisterUser(payload.username, cred.hashedPassword, cred.salt, now);
    forall i | 0 <= i < |db.users| - 1 ensures db.users[i].username != payload.username {
      assert db.users[i] == before[i];
      assert before[i] in before;
    }
    resp := Response(Created, UserRegistered(user));
  }
}
