/**
 * The relational store behind `DB`, modelled in memory: the `users`,
 * `gongzuo` and `contents` tables, with serial ids, and the store operations
 * the handlers call (`user_handler()` and `gongzuo_handler()`).
 *
 * The business rules `update_gongzuo` and `delete_gongzuo` apply before they
 * write (the overlap guard, the ownership check and the transaction around
 * them) stand as a parameter `check`, an arbitrary function of the entry
 * table and the request: on `Fail(message)` the entry table is left as it
 * was, on `Pass` the write happens.
 */
module Store {
  import opened Wrappers
  import opened Timezone
  import opened GongzuoDb
  import opened UserDb

  /** The unseen rules of `update_gongzuo(gongzuo_id, user_id, payload)`. */
  type UpdateCheck = (seq<EntryRow>, int, int, GongzuoPayload) -> Outcome

  /** The unseen rules of `delete_gongzuo(gongzuo_id, user_id)`. */
  type DeleteCheck = (seq<EntryRow>, int, int) -> Outcome

  /** The entry table after the row `id` is rewritten to name `contentId` and the payload's times. */
  function ReplaceEntry(es: seq<EntryRow>, id: int, contentId: int, p: GongzuoPayload): (r: seq<EntryRow>)
    ensures |r| == |es|
    ensures forall i :: 0 <= i < |es| ==> r[i].id == es[i].id && r[i].userId == es[i].userId
    ensures forall i :: 0 <= i < |es| && es[i].id != id ==> r[i] == es[i]
    ensures forall i :: 0 <= i < |es| && es[i].id == id ==>
              r[i] == EntryRow(id, es[i].userId, contentId, p.startedAt, p.endedAt)
  {
    seq(|es|, i requires 0 <= i < |es| =>
      if es[i].id == id then EntryRow(id, es[i].userId, contentId, p.startedAt, p.endedAt) else es[i])
  }

  /** The entry table after `DELETE FROM gongzuo WHERE id = id`. */
  function RemoveEntry(es: seq<EntryRow>, id: int): (r: seq<EntryRow>)
    ensures forall e :: e in r <==> e in es && e.id != id
    ensures |r| <= |es|
  {
    if es == [] then []
    else (if es[0].id == id then [] else [es[0]]) + RemoveEntry(es[1..], id)
  }

  /** Deleting rows keeps the ids a key. */
  lemma {:induction false} RemoveEntryKeepsUnique(es: seq<EntryRow>, id: int)
    requires UniqueEntryIds(es)
    ensures UniqueEntryIds(RemoveEntry(es, id))
  {
    if es != [] {
      var tail := es[1..];
      assert UniqueEntryIds(tail) by {
        forall i, j | 0 <= i < j < |tail| ensures tail[i].id != tail[j].id {
          assert tail[i] == es[i + 1] && tail[j] == es[j + 1];
        }
      }
      RemoveEntryKeepsUnique(tail, id);
      var rest := RemoveEntry(tail, id);
      if es[0].id != id {
        var r := [es[0]] + rest;
        forall k | 0 < k < |r| ensures r[k].id != es[0].id {
          assert r[k] in rest;
          assert r[k] in tail;
          var j :| 0 <= j < |tail| && tail[j] == r[k];
          assert es[j + 1] == r[k];
        }
        assert r == RemoveEntry(es, id);
      } else {
        assert rest == RemoveEntry(es, id);
      }
    }
  }

  /**
   * The contents table after the content of `p` was resolved: as it was, or
   * with one row carrying the payload's kind and text added at the end.
   */
  ghost predicate ContentsResolved(cs: seq<ContentRow>, cs': seq<ContentRow>, p: GongzuoPayload)
  {
    cs' == cs || exists cid :: cs' == cs + [ContentRow(cid, p.contentKind, p.content)]
  }

  /**
   * `create_gongzuo` wrote exactly one new entry, at the end of the table, with
   * a fresh id, for `userId`, naming a contents row that carries the payload's
   * kind and text; the contents table gains at most one row, carrying them.
   */
  ghost predicate EntryCreated(es: seq<EntryRow>, cs: seq<ContentRow>, es': seq<EntryRow>, cs': seq<ContentRow>,
                          id: int, userId: int, p: GongzuoPayload)
  {
    && ContentsResolved(cs, cs', p)
    && (forall e :: e in es ==> e.id != id)
    && exists cid :: ContentRow(cid, p.contentKind, p.content) in cs'
                     && es' == es + [EntryRow(id, userId, cid, p.startedAt, p.endedAt)]
  }

  /**
   * `update_gongzuo` rewrote the row `id` (keeping its owner) to the payload's
   * times and a contents row carrying the payload's kind and text; the
   * contents table gains at most one row, carrying them.
   */
  ghost predicate EntryUpdated(es: seq<EntryRow>, cs: seq<ContentRow>, es': seq<EntryRow>, cs': seq<ContentRow>,
                          id: int, p: GongzuoPayload)
  {
    && ContentsResolved(cs, cs', p)
    && exists cid :: ContentRow(cid, p.contentKind, p.content) in cs'
                     && es' == ReplaceEntry(es, id, cid, p)
  }

  class Db {
    var users: seq<User>
    var entries: seq<EntryRow>
    var contents: seq<ContentRow>
    var nextUserId: int
    var nextEntryId: int
    var nextContentId: int

    /** Ids are keys of their tables, and every id in use lies below its serial counter. */
    ghost predicate Valid()
      reads this
    {
      && UniqueUserIds(users) && (forall i :: 0 <= i < |users| ==> users[i].id < nextUserId)
      && UniqueEntryIds(entries) && (forall i :: 0 <= i < |entries| ==> entries[i].id < nextEntryId)
      && UniqueContentIds(contents) && (forall i :: 0 <= i < |contents| ==> contents[i].id < nextContentId)
    }

    /** A store holding the users already in the table and no entries. */
    constructor (seed: seq<User>, firstFreeUserId: int)
      requires UniqueUserIds(seed)
      requires forall u :: u in seed ==> u.id < firstFreeUserId
      ensures Valid()
      ensures users == seed && entries == [] && contents == []
    {
      users := seed;
      entries := [];
      contents := [];
      nextUserId := firstFreeUserId;
      nextEntryId := 1;
      nextContentId := 1;
    }

    /** The content registry: the id of a contents row carrying `(kind, content)`, here always a new row. */
    method ResolveContent(kind: int, content: string) returns (cid: int)
      requires Valid()
      modifies this
      ensures Valid()
      ensures ContentRow(cid, kind, content) in contents
      ensures contents == old(contents) || contents == old(contents) + [ContentRow(cid, kind, content)]
      ensures users == old(users) && entries == old(entries)
      ensures nextUserId == old(nextUserId) && nextEntryId == old(nextEntryId)
    {
      cid := nextContentId;
      contents := contents + [ContentRow(cid, kind, content)];
      nextContentId := nextContentId + 1;
    }

    /** `create_gongzuo(user_id, payload)`: insert an entry and return its id. */
    method CreateGongzuo(userId: int, p: GongzuoPayload) returns (id: int)
      requires Valid()
      modifies this
      ensures Valid()
      ensures EntryCreated(old(entries), old(contents), entries, contents, id, userId, p)
      ensures users == old(users)
    {
      var cid := ResolveContent(p.contentKind, p.content);
      id := nextEntryId;
      entries := entries + [EntryRow(id, userId, cid, p.startedAt, p.endedAt)];
      nextEntryId := nextEntryId + 1;
    }

    /**
     * `update_gongzuo(gongzuo_id, user_id, payload)`: the payload's content is
     * resolved first, outside the rules, so a refused update may still leave a
     * new contents row behind; `Fail(message)` when `check` refuses.
     */
    method UpdateGongzuo(id: int, userId: int, p: GongzuoPayload, check: UpdateCheck) returns (r: Outcome)
      requires Valid()
      modifies this
      ensures Valid()
      ensures r == check(old(entries), id, userId, p)
      ensures users == old(users) && old(contents) <= contents
      ensures r.Fail? ==> entries == old(entries) && ContentsResolved(old(contents), contents, p)
      ensures r.Pass? ==> EntryUpdated(old(entries), old(contents), entries, contents, id, p)
    {
      var cid := ResolveContent(p.contentKind, p.content);
      r := check(entries, id, userId, p);
      if r.Pass? {
        entries := ReplaceEntry(entries, id, cid, p);
      }
    }

    /** `delete_gongzuo(gongzuo_id, user_id)`: `Fail(message)` when `check` refuses. */
    method DeleteGongzuo(id: int, userId: int, check: DeleteCheck) returns (r: Outcome)
      requires Valid()
      modifies this
      ensures Valid()
      ensures r == check(old(entries), id, userId)
      ensures r.Fail? ==> unchanged(this)
      ensures r.Pass? ==> users == old(users) && contents == old(contents)
                          && entries == RemoveEntry(old(entries), id)
    {
      r := check(entries, id, userId);
      if r.Pass? {
        RemoveEntryKeepsUnique(entries, id);
        entries := RemoveEntry(entries, id);
      }
    }

    /** `update_session_token(user_id, token)`. */
    method UpdateSessionToken(userId: int, token: string)
      requires Valid()
      modifies this
      ensures Valid()
      ensures users == WithSessionToken(old(users), userId, Some(token))
      ensures entries == old(entries) && contents == old(contents)
    {
      WithSessionTokenKeepsUnique(users, userId, Some(token));
      users := WithSessionToken(users, userId, Some(token));
    }

    /** `remove_session_token(user_id)`. */
    method RemoveSessionToken(userId: int)
      requires Valid()
      modifies this
      ensures Valid()
      ensures users == WithSessionToken(old(users), userId, None)
      ensures entries == old(entries) && contents == old(contents)
    {
      WithSessionTokenKeepsUnique(users, userId, None);
      users := WithSessionToken(users, userId, None);
    }

    /**
     * `register_user(username, hashed_password, salt)`: append a user with a
     * fresh id, no session and no admin flag, created at `now`.
     */
    method RegisterUser(username: string, hashedPassword: string, salt: string, now: NaiveDateTime)
      returns (u: User)
      requires Valid()
      modifies this
      ensures Valid()
      ensures users == old(users) + [u]
      ensures u.username == username && u.password == hashedPassword && u.salt == salt
      ensures u.createdAt == now && u.sessionToken == None && !u.isAdmin
      ensures forall v :: v in old(users) ==> v.id != u.id
      ensures entries == old(entries) && contents == old(contents)
    {
      u := User(nextUserId, username, hashedPassword, salt, now, None, false);
      users := users + [u];
      nextUserId := nextUserId + 1;
    }
  }
}

/** What the store's reads see after its writes. */
module StoreViews {
  import opened Wrappers
  import opened GongzuoDb
  import opened Store

  /** After `create_gongzuo`, looking the new id up yields the created times, kind and text. */
  lemma CreatedEntryIsFound(es: seq<EntryRow>, cs: seq<ContentRow>, es': seq<EntryRow>, cs': seq<ContentRow>,
                            id: int, userId: int, p: GongzuoPayload)
    requires EntryCreated(es, cs, es', cs', id, userId, p)
    requires UniqueContentIds(cs')
    ensures var o := GongzuoByGongzuoId(es', cs', id);
            && o.Some?
            && o.value.startedAt == p.startedAt && o.value.endedAt == p.endedAt
            && o.value.contentKind == p.contentKind && o.value.content == p.content
  {
    var cid :| ContentRow(cid, p.contentKind, p.content) in cs'
               && es' == es + [EntryRow(id, userId, cid, p.startedAt, p.endedAt)];
    var e := EntryRow(id, userId, cid, p.startedAt, p.endedAt);
    var target := ContentRow(cid, p.contentKind, p.content);
    assert e in es';
    assert Joined(e, target) in Join(es', cs');
    var o := GongzuoByGongzuoId(es', cs', id);
    var e', c :| e' in es' && c in cs' && c.id == e'.contentId && o.value == Joined(e', c);
    assert e' !in es;
    assert c == target by {
      var i :| 0 <= i < |cs'| && cs'[i] == c;
      var j :| 0 <= j < |cs'| && cs'[j] == target;
      if i < j { } else if j < i { }
    }
  }

  /** After a passing `update_gongzuo` of an existing id, looking it up yields the payload's values. */
  lemma UpdatedEntryIsFound(es: seq<EntryRow>, cs: seq<ContentRow>, es': seq<EntryRow>, cs': seq<ContentRow>,
                            id: int, p: GongzuoPayload)
    requires EntryUpdated(es, cs, es', cs', id, p)
    requires UniqueContentIds(cs')
    requires exists e :: e in es && e.id == id
    ensures var o := GongzuoByGongzuoId(es', cs', id);
            && o.Some?
            && o.value.startedAt == p.startedAt && o.value.endedAt == p.endedAt
            && o.value.contentKind == p.contentKind && o.value.content == p.content
  {
    var cid :| ContentRow(cid, p.contentKind, p.content) in cs' && es' == ReplaceEntry(es, id, cid, p);
    var target := ContentRow(cid, p.contentKind, p.content);
    var e0 :| e0 in es && e0.id == id;
    var k :| 0 <= k < |es| && es[k] == e0;
    assert es'[k] in es';
    assert Joined(es'[k], target) in Join(es', cs');
    var o := GongzuoByGongzuoId(es', cs', id);
    var e', c :| e' in es' && c in cs' && c.id == e'.contentId && o.value == Joined(e', c);
    var m :| 0 <= m < |es'| && es'[m] == e';
    assert e'.contentId == cid && e'.startedAt == p.startedAt && e'.endedAt == p.endedAt;
    assert c == target by {
      var i :| 0 <= i < |cs'| && cs'[i] == c;
      var j :| 0 <= j < |cs'| && cs'[j] == target;
      if i < j { } else if j < i { }
    }
  }

  /** After `delete_gongzuo` removes an id, looking it up finds nothing. */
  lemma DeletedEntryIsGone(es: seq<EntryRow>, cs: seq<ContentRow>, id: int)
    ensures GongzuoByGongzuoId(RemoveEntry(es, id), cs, id).None?
  {
    var es' := RemoveEntry(es, id);
    forall r | r in Join(es', cs) ensures r.id != id {
      var e, c :| e in es' && c in cs && c.id == e.contentId && r == Joined(e, c);
    }
  }
}
