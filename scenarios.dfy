/**
 * Callers' view of the handlers: what a client can conclude from their
 * contracts alone when it runs them one after another.
 */
module Scenarios {
  import opened Wrappers
  import opened Timezone
  import opened GongzuoDb
  import opened UserDb
  import opened Store
  import opened StoreViews
  import opened Responses
  import opened GongzuoHandlers
  import opened LoginHandler
  import opened LogoutHandler

  /**
   * A user with a live session starts an entry at `t0` and ends it at `t1`,
   * with the store's rules letting the update through; looking the id up
   * afterwards finds an entry that spans `[t0, t1]` with the kind and text given.
   */
  method StartThenEnd(db: Db, token: string, kind: int, content: string, t0: NaiveDateTime, t1: NaiveDateTime)
    returns (id: int, found: Option<GongzuoRaw>)
    requires db.Valid()
    requires token != "" && UserBySessionToken(db.users, token).Some?
    modifies db
    ensures found == GongzuoByGongzuoId(db.entries, db.contents, id)
    ensures found.Some? && found.value.id == id
    ensures found.value.startedAt == t0 && found.value.endedAt == Some(t1)
    ensures found.value.contentKind == kind && found.value.content == content
  {
    var q := ParseSessionQuery(Some(token));
    ghost var es0, cs0 := db.entries, db.contents;
    var started := StartGongzuo(db, q, StartPayload(kind, content), t0);
    id := started.body.gongzuoId;
    CreatedEntryIsFound(es0, cs0, db.entries, db.contents, id, UserBySessionToken(db.users, token).value.id,
                        GongzuoPayload(t0, None, kind, content));
    var openRow := GongzuoByGongzuoId(db.entries, db.contents, id);
    assert openRow.value in Join(db.entries, db.contents);
    var e, c :| e in db.entries && c in db.contents && c.id == e.contentId && openRow.value == Joined(e, c);

    ghost var es1, cs1 := db.entries, db.contents;
    var ended := EndGongzuo(db, q, id, t1, (es: seq<EntryRow>, i: int, u: int, p: GongzuoPayload) => Pass);
    UpdatedEntryIsFound(es1, cs1, db.entries, db.contents, id, EndPayload(openRow.value, t1));
    found := GongzuoByGongzuoId(db.entries, db.contents, id);
  }

  /**
   * A successful login hands out a token the session gate then accepts. The
   * gate resolves it to the first holder of that token, which is the user who
   * logged in only when no other user holds the same token.
   */
  method LoginThenUseToken(db: Db, payload: LoginPayload, verify: Verifier, freshToken: string)
    returns (resp: Response, caller: Option<User>)
    requires db.Valid()
    modifies db
    ensures resp.status == Ok ==> resp.body.LoggedIn?
    ensures resp.status == Ok && resp.body.sessionToken != "" ==>
              && caller == SessionUser(db.users, ParseSessionQuery(Some(resp.body.sessionToken)))
              && caller.Some?
  {
    ghost var before := db.users;
    resp := Login(db, payload, verify, freshToken);
    caller := None;
    if resp.status == Ok && resp.body.sessionToken != "" {
      ghost var user := UserByUsername(before, payload.username).value;
      ghost var k :| 0 <= k < |before| && before[k] == user;
      assert db.users[k].id == user.id;
      assert db.users[k] in db.users;
      caller := SessionUser(db.users, ParseSessionQuery(Some(resp.body.sessionToken)));
    }
  }

  /** After logging out with a token, that token no longer opens a session for the same user. */
  method LogoutThenUseToken(db: Db, token: string) returns (resp: Response, caller: Option<User>)
    requires db.Valid()
    requires UserBySessionToken(db.users, token).Some?
    modifies db
    ensures resp == Response(Ok, Message("Logout successful"))
    ensures caller == UserBySessionToken(db.users, token)
    ensures caller.Some? ==> caller.value.id != old(UserBySessionToken(db.users, token)).value.id
  {
    ghost var before := db.users;
    var leaving := UserBySessionToken(db.users, token).value;
    resp := Logout(db, LogoutPayload(token));
    RemovedTokenNoLongerResolvesToUser(before, leaving.id, token);
    caller := UserBySessionToken(db.users, token);
  }
}
