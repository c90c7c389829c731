/**
 * web_backend/src/handlers/gongzuo.rs: the session query, the session gate
 * every handler runs first (`get_user_by_session_token!`), and the entry
 * handlers built on it.
 *
 * The current time (`Utc::now()`) is the parameter `now`; the rules the store
 * applies inside `update_gongzuo` and `delete_gongzuo` are the parameter
 * `check` (see module Store).
 */
module GongzuoHandlers {
  import opened Wrappers
  import opened Timezone
  import opened GongzuoDb
  import opened UserDb
  import opened Store
  import opened Responses

  /** `SessionQuery` after deserialisation: with `NoneAsEmptyString`, an empty token reads as none. */
  datatype SessionQuery = SessionQuery(sessionToken: Option<string>)

  /** The queries deserialisation can produce: `NoneAsEmptyString` never yields an empty token. */
  type ParsedQuery = q: SessionQuery | q.sessionToken != Some("") witness SessionQuery(None)

  /** Deserialising `?session_token=...`: `raw` is `None` when the parameter is absent (the `Default`). */
  function ParseSessionQuery(raw: Option<string>): (q: ParsedQuery)
    ensures q.sessionToken.None? <==> raw.None? || raw == Some("")
    ensures q.sessionToken.Some? ==> q.sessionToken == raw
  {
    match raw
    case None => SessionQuery(None)
    case Some(s) => if s == "" then SessionQuery(None) else SessionQuery(Some(s))
  }

  /** `session_token_invalid_error()`. */
  function SessionTokenInvalidError(): (r: Response)
    ensures r.status == Unauthorized && r.body == Message("Invalid session token")
  {
    Response(Unauthorized, Message("Invalid session token"))
  }

  /**
   * `get_user_by_session_token!`: the user the query's token resolves to; the
   * handler answers `SessionTokenInvalidError()` when this is `None`.
   */
  function SessionUser(users: seq<User>, q: ParsedQuery): (r: Option<User>)
    ensures q.sessionToken.None? ==> r.None?
    ensures r.Some? ==> r.value in users && q.sessionToken.Some? && r.value.sessionToken == q.sessionToken
    ensures q.sessionToken.Some? && r.None? ==> forall u :: u in users ==> u.sessionToken != q.sessionToken
  {
    match q.sessionToken
    case None => None
    case Some(token) => UserBySessionToken(users, token)
  }

  /** An absent or empty `session_token` parameter never passes the gate. */
  lemma AbsentOrEmptyTokenRejected(users: seq<User>, raw: Option<string>)
    requires raw.None? || raw == Some("")
    ensures SessionUser(users, ParseSessionQuery(raw)).None?
  {
  }

  /** Every converted row of a table, in order. */
  function ConvertAll(rs: seq<GongzuoRaw>): (gs: seq<Gongzuo>)
    ensures |gs| == |rs| && forall i :: 0 <= i < |rs| ==> gs[i] == FromRaw(rs[i])
    ensures forall g :: g in gs <==> exists r :: r in rs && g == FromRaw(r)
  {
    seq(|rs|, i requires 0 <= i < |rs| => FromRaw(rs[i]))
  }

  /**
   * `all_ongzuos`: every joined entry, of every user, once the session is
   * valid. The query has no `ORDER BY`, so only membership is promised.
   */
  method AllGongzuos(db: Db, q: ParsedQuery) returns (resp: Response)
    ensures SessionUser(db.users, q).None? ==> resp == SessionTokenInvalidError()
    ensures SessionUser(db.users, q).Some? ==>
              && resp.status == Ok && resp.body.GongzuoList?
              && forall g :: g in resp.body.gongzuos <==>
                   exists r :: r in Join(db.entries, db.contents) && g == FromRaw(r)
  {
    var user := SessionUser(db.users, q);
    if user.None? {
      return SessionTokenInvalidError();
    }
    var rows := Join(db.entries, db.contents);
    resp := Response(Ok, GongzuoList(ConvertAll(rows)));
  }

  /** The listing is not filtered by owner: any user's joined entry is in it. */
  lemma AllGongzuosListsEveryOwner(es: seq<EntryRow>, cs: seq<ContentRow>, e: EntryRow, c: ContentRow)
    requires e in es && c in cs && c.id == e.contentId
    ensures FromRaw(Joined(e, c)) in ConvertAll(Join(es, cs))
  {
    var rows := Join(es, cs);
    var i :| 0 <= i < |rows| && rows[i] == Joined(e, c);
    assert ConvertAll(rows)[i] == FromRaw(Joined(e, c));
  }

  /** `GongzuoStartPayload`. */
  datatype StartPayload = StartPayload(contentKind: int, content: string)

  /** `start_gongzuo`: open an entry for the caller, started now, and answer 201 with its id. */
  method StartGongzuo(db: Db, q: ParsedQuery, payload: StartPayload, now: NaiveDateTime)
    returns (resp: Response)
    requires db.Valid()
    modifies db
    ensures db.Valid()
    ensures SessionUser(old(db.users), q).None? ==> resp == SessionTokenInvalidError() && unchanged(db)
    ensures SessionUser(old(db.users), q).Some? ==>
              && resp.status == Created && resp.body.GongzuoStarted?
              && db.users == old(db.users)
              && EntryCreated(old(db.entries), old(db.contents), db.entries, db.contents,
                         resp.body.gongzuoId, SessionUser(old(db.users), q).value.id,
                         GongzuoPayload(now, None, payload.contentKind, payload.content))
  {
    var user := SessionUser(db.users, q);
    if user.None? {
      return SessionTokenInvalidError();
    }
    var p := GongzuoPayload(now, None, payload.contentKind, payload.content);
    var gongzuoId := db.CreateGongzuo(user.value.id, p);
    resp := Response(Created, GongzuoStarted(gongzuoId));
  }

  /**
   * The payload `end_gongzuo` sends for a found, open entry: the start read
   * back in UTC, the end set to `now`, kind and text as they were.
   */
  function EndPayload(raw: GongzuoRaw, now: NaiveDateTime): (p: GongzuoPayload)
    ensures p.startedAt == raw.startedAt && p.endedAt == Some(now)
    ensures p.contentKind == raw.contentKind && p.content == raw.content
  {
    var g := FromRaw(raw);
    IntoJstRoundTrip(raw.startedAt);
    GongzuoPayload(ToUtc(g.startedAt), Some(now), g.contentKind, g.content)
  }

  /** `end_gongzuo`: end the caller's open entry `gongzuoId` at `now`. */
  method EndGongzuo(db: Db, q: ParsedQuery, gongzuoId: int, now: NaiveDateTime, check: UpdateCheck)
    returns (resp: Response)
    requires db.Valid()
    modifies db
    ensures db.Valid()
    ensures SessionUser(old(db.users), q).None? ==> resp == SessionTokenInvalidError() && unchanged(db)
    ensures SessionUser(old(db.users), q).Some? ==>
              var caller := SessionUser(old(db.users), q).value;
              match GongzuoByGongzuoId(old(db.entries), old(db.contents), gongzuoId)
              case None =>
                resp == Response(BadRequest, GongzuoNotFound(gongzuoId)) && unchanged(db)
              case Some(raw) =>
                if raw.endedAt.Some? then
                  resp == Response(BadRequest, GongzuoAlreadyEnded(gongzuoId)) && unchanged(db)
                else
                  var verdict := check(old(db.entries), gongzuoId, caller.id, EndPayload(raw, now));
                  match verdict
                  case Fail(message) =>
                    && resp == Response(BadRequest, Message(message))
                    && db.users == old(db.users) && db.entries == old(db.entries)
                    && ContentsResolved(old(db.contents), db.contents, EndPayload(raw, now))
                  case Pass =>
                    && resp == Response(Ok, GongzuoEnded(now))
                    && db.users == old(db.users)
                    && EntryUpdated(old(db.entries), old(db.contents), db.entries, db.contents,
                               gongzuoId, EndPayload(raw, now))
  {
    var user := SessionUser(db.users, q);
    if user.None? {
      return SessionTokenInvalidError();
    }
    var found := GongzuoByGongzuoId(db.entries, db.contents, gongzuoId);
    if found.None? {
      return Response(BadRequest, GongzuoNotFound(gongzuoId));
    }
    var raw := found.value;
    if raw.endedAt.Some? {
      return Response(BadRequest, GongzuoAlreadyEnded(gongzuoId));
    }
    var g := FromRaw(raw);
    var p := EndPayload(raw, now);
    var verdict := db.UpdateGongzuo(g.id, user.value.id, p, check);
    if verdict.Fail? {
      return Response(BadRequest, Message(verdict.message));
    }
    resp := Response(Ok, GongzuoEnded(now));
  }

  /** `GongzuoEditPayload`. */
  datatype EditPayload = EditPayload(
    gongzuoId: int,
    startedAt: NaiveDateTime,
    endedAt: Option<NaiveDateTime>,
    contentKind: int,
    content: string)

  /** The store payload of an edit: every field but the id, passed on as it came. */
  function EditToPayload(e: EditPayload): (p: GongzuoPayload)
    ensures EditPayload(e.gongzuoId, p.startedAt, p.endedAt, p.contentKind, p.content) == e
  {
    GongzuoPayload(e.startedAt, e.endedAt, e.contentKind, e.content)
  }

  /** `edit_gongzuo`: hand the payload and the caller's id to `update_gongzuo`. */
  method EditGongzuo(db: Db, q: ParsedQuery, payload: EditPayload, check: UpdateCheck)
    returns (resp: Response)
    requires db.Valid()
    modifies db
    ensures db.Valid()
    ensures SessionUser(old(db.users), q).None? ==> resp == SessionTokenInvalidError() && unchanged(db)
    ensures SessionUser(old(db.users), q).Some? ==>
              var caller := SessionUser(old(db.users), q).value;
              match check(old(db.entries), payload.gongzuoId, caller.id, EditToPayload(payload))
              case Fail(message) =>
                && resp == Response(BadRequest, Message(message))
                && db.users == old(db.users) && db.entries == old(db.entries)
                && ContentsResolved(old(db.contents), db.contents, EditToPayload(payload))
              case Pass =>
                && resp == Response(Ok, Message("Gongzuo updated"))
                && db.users == old(db.users)
                && EntryUpdated(old(db.entries), old(db.contents), db.entries, db.contents,
                           payload.gongzuoId, EditToPayload(payload))
  {
    var user := SessionUser(db.users, q);
    if user.None? {
      return SessionTokenInvalidError();
    }
    var p := EditToPayload(payload);
    var verdict := db.UpdateGongzuo(payload.gongzuoId, user.value.id, p, check);
    if verdict.Fail? {
      return Response(BadRequest, Message(verdict.message));
    }
    resp := Response(Ok, Message("Gongzuo updated"));
  }

  /** `delete_gongzuo`: hand the id and the caller's id to the store's `delete_gongzuo`. */
  method DeleteGongzuo(db: Db, q: ParsedQuery, gongzuoId: int, check: DeleteCheck)
    returns (resp: Response)
    requires db.Valid()
    modifies db
    ensures db.Valid()
    ensures SessionUser(old(db.users), q).None? ==> resp == SessionTokenInvalidError() && unchanged(db)
    ensures SessionUser(old(db.users), q).Some? ==>
              var caller := SessionUser(old(db.users), q).value;
              match check(old(db.entries), gongzuoId, caller.id)
              case Fail(message) =>
                resp == Response(BadRequest, Message(message)) && unchanged(db)
              case Pass =>
                && resp == Response(Ok, Message("Gongzuo deleted"))
                && db.users == old(db.users) && db.contents == old(db.contents)
                && db.entries == RemoveEntry(old(db.entries), gongzuoId)
  {
    var user := SessionUser(db.users, q);
    if user.None? {
      return SessionTokenInvalidError();
    }
    var verdict := db.DeleteGongzuo(gongzuoId, user.value.id, check);
    if verdict.Fail? {
      return Response(BadRequest, Message(verdict.message));
    }
    resp := Response(Ok, Message("Gongzuo deleted"));
  }

  /** `gongzuo_by_id`: any user's entry by id, once the session is valid. */
  method GongzuoById(db: Db, q: ParsedQuery, gongzuoId: int) returns (resp: Response)
    ensures SessionUser(db.users, q).None? ==> resp == SessionTokenInvalidError()
    ensures SessionUser(db.users, q).Some? ==>
              match GongzuoByGongzuoId(db.entries, db.contents, gongzuoId)
              case None => resp == Response(BadRequest, GongzuoNotFound(gongzuoId))
              case Some(raw) => resp == Response(Ok, GongzuoItem(FromRaw(raw)))
  {
    var user := SessionUser(db.users, q);
    if user.None? {
      return SessionTokenInvalidError();
    }
    var found := GongzuoByGongzuoId(db.entries, db.contents, gongzuoId);
    if found.None? {
      return Response(BadRequest, GongzuoNotFound(gongzuoId));
    }
    resp := Response(Ok, GongzuoItem(FromRaw(found.value)));
  }
}
