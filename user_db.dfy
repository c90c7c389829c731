/**
 * web_backend/src/db/user.rs: the user record, and the lookups and token
 * writes the handlers ask of the user table.
 */
module UserDb {
  import opened Wrappers
  import opened Timezone

  /** A row of the `users` table. `password` holds the hex PBKDF2 hash, `salt` its hex salt. */
  datatype User = User(
    id: int,
    username: string,
    password: string,
    salt: string,
    createdAt: NaiveDateTime,
    sessionToken: Option<string>,
    isAdmin: bool)

  /** User ids are a key of the user table. */
  predicate UniqueUserIds(us: seq<User>)
  {
    forall i, j :: 0 <= i < j < |us| ==> us[i].id != us[j].id
  }

  /** `get_user_by_username`: a user with that name, if there is one. */
  function UserByUsername(us: seq<User>, username: string): (o: Option<User>)
    ensures o.Some? ==> o.value in us && o.value.username == username
    ensures o.None? <==> forall u :: u in us ==> u.username != username
  {
    if us == [] then None
    else if us[0].username == username then Some(us[0])
    else UserByUsername(us[1..], username)
  }

  /** `ensure_session_token`: a user currently holding `token`, if there is one. */
  function UserBySessionToken(us: seq<User>, token: string): (o: Option<User>)
    ensures o.Some? ==> o.value in us && o.value.sessionToken == Some(token)
    ensures o.None? <==> forall u :: u in us ==> u.sessionToken != Some(token)
  {
    if us == [] then None
    else if us[0].sessionToken == Some(token) then Some(us[0])
    else UserBySessionToken(us[1..], token)
  }

  /**
   * The table after `UPDATE users SET session_token = ... WHERE id = userId`:
   * `update_session_token` writes `Some(t)`, `remove_session_token` writes `None`.
   */
  function WithSessionToken(us: seq<User>, userId: int, token: Option<string>): (r: seq<User>)
    ensures |r| == |us|
    ensures forall i :: 0 <= i < |us| && us[i].id != userId ==> r[i] == us[i]
    ensures forall i :: 0 <= i < |us| && us[i].id == userId ==> r[i] == us[i].(sessionToken := token)
  {
    seq(|us|, i requires 0 <= i < |us| =>
      if us[i].id == userId then us[i].(sessionToken := token) else us[i])
  }

  /** A token write keeps the ids a key. */
  lemma WithSessionTokenKeepsUnique(us: seq<User>, userId: int, token: Option<string>)
    requires UniqueUserIds(us)
    ensures UniqueUserIds(WithSessionToken(us, userId, token))
  {
  }

  /** After a token is written for a user present in the table, the session lookup finds some holder of it. */
  lemma {:induction false} StoredTokenResolves(us: seq<User>, userId: int, token: string)
    requires exists i :: 0 <= i < |us| && us[i].id == userId
    ensures UserBySessionToken(WithSessionToken(us, userId, Some(token)), token).Some?
  {
    var i :| 0 <= i < |us| && us[i].id == userId;
    var us' := WithSessionToken(us, userId, Some(token));
    assert us'[i].sessionToken == Some(token);
    assert us'[i] in us';
  }

  /**
   * After the token of `userId` is removed that user no longer holds any
   * session: a lookup by the token it had cannot return it.
   */
  lemma {:induction false} RemovedTokenNoLongerResolvesToUser(us: seq<User>, userId: int, token: string)
    ensures var o := UserBySessionToken(WithSessionToken(us, userId, None), token);
            o.Some? ==> o.value.id != userId
  {
    var us' := WithSessionToken(us, userId, None);
    var o := UserBySessionToken(us', token);
    if o.Some? {
      var i :| 0 <= i < |us'| && us'[i] == o.value;
      assert us[i].id != userId;
    }
  }
}
