/**
 * web_backend/src/db/gongzuo.rs: the rows of the `gongzuo` and `contents`
 * tables, the joined row the queries return (`GongzuoRaw`), its conversion to
 * the JST view (`Gongzuo`), and the queries over the tables as functions.
 */
module GongzuoDb {
  import opened Wrappers
  import opened Timezone

  /** A joined row as the queries return it: times are naive UTC readings. */
  datatype GongzuoRaw = GongzuoRaw(
    id: int,
    contentId: int,
    startedAt: NaiveDateTime,
    endedAt: Option<NaiveDateTime>,
    contentKind: int,
    content: string)

  /** The row as handed to clients: times shown in JST. */
  datatype Gongzuo = Gongzuo(
    id: int,
    contentId: int,
    startedAt: DateTime,
    endedAt: Option<DateTime>,
    contentKind: int,
    content: string)

  /** What the store is asked to write for an entry: times are UTC. */
  datatype GongzuoPayload = GongzuoPayload(
    startedAt: NaiveDateTime,
    endedAt: Option<NaiveDateTime>,
    contentKind: int,
    content: string)

  /** A row of the `gongzuo` table. */
  datatype EntryRow = EntryRow(
    id: int,
    userId: int,
    contentId: int,
    startedAt: NaiveDateTime,
    endedAt: Option<NaiveDateTime>)

  /** A row of the `contents` table. */
  datatype ContentRow = ContentRow(id: int, contentKind: int, content: string)

  /** `From<GongzuoRaw> for Gongzuo`: both times go through `into_jst`, the rest is kept. */
  function FromRaw(raw: GongzuoRaw): (g: Gongzuo)
    ensures g.id == raw.id && g.contentId == raw.contentId
    ensures g.contentKind == raw.contentKind && g.content == raw.content
    ensures g.startedAt.offset == FixedOffset(JstEastSeconds)
    ensures SameInstant(g.startedAt, FromNaiveUtc(raw.startedAt))
    ensures g.endedAt.None? <==> raw.endedAt.None?
    ensures raw.endedAt.Some? ==>
              g.endedAt.value.offset == FixedOffset(JstEastSeconds)
              && SameInstant(g.endedAt.value, FromNaiveUtc(raw.endedAt.value))
  {
    var endedAt := match raw.endedAt
      case None => None
      case Some(t) => Some(IntoJst(t));
    Gongzuo(raw.id, raw.contentId, IntoJst(raw.startedAt), endedAt, raw.contentKind, raw.content)
  }

  /** The UTC reading of a converted row, as `end_gongzuo` takes it back with `with_timezone(&Utc)`. */
  function ToRaw(g: Gongzuo): (r: GongzuoRaw)
    ensures g.startedAt.offset == FixedOffset(JstEastSeconds)
            && (g.endedAt.Some? ==> g.endedAt.value.offset == FixedOffset(JstEastSeconds))
            ==> FromRaw(r) == g
  {
    var endedAt := match g.endedAt
      case None => None
      case Some(t) => Some(ToUtc(t));
    GongzuoRaw(g.id, g.contentId, ToUtc(g.startedAt), endedAt, g.contentKind, g.content)
  }

  /** The conversion loses nothing: reading the JST view back in UTC gives the raw row. */
  lemma FromRawRoundTrip(raw: GongzuoRaw)
    ensures ToRaw(FromRaw(raw)) == raw
  {
    IntoJstRoundTrip(raw.startedAt);
    if raw.endedAt.Some? {
      IntoJstRoundTrip(raw.endedAt.value);
    }
  }

  /** Consequently two raw rows with the same view are the same row. */
  lemma FromRawInjective(a: GongzuoRaw, b: GongzuoRaw)
    requires FromRaw(a) == FromRaw(b)
    ensures a == b
  {
    FromRawRoundTrip(a);
    FromRawRoundTrip(b);
  }

  /** The joined row made of an entry and its contents row (`contents.id AS content_id`). */
  function Joined(e: EntryRow, c: ContentRow): (r: GongzuoRaw)
    ensures ContentRow(r.contentId, r.contentKind, r.content) == c
    ensures c.id == e.contentId ==> EntryRow(r.id, e.userId, r.contentId, r.startedAt, r.endedAt) == e
  {
    GongzuoRaw(e.id, c.id, e.startedAt, e.endedAt, c.contentKind, c.content)
  }

  /** `gongzuo JOIN contents ON gongzuo.content_id = contents.id`, for one entry. */
  function JoinEntry(e: EntryRow, cs: seq<ContentRow>): (rs: seq<GongzuoRaw>)
    ensures forall r :: r in rs ==> exists c :: c in cs && c.id == e.contentId && r == Joined(e, c)
    ensures forall c :: c in cs && c.id == e.contentId ==> Joined(e, c) in rs
  {
    if cs == [] then []
    else (if cs[0].id == e.contentId then [Joined(e, cs[0])] else []) + JoinEntry(e, cs[1..])
  }

  /** The inner join of the entry table with the contents table. */
  function Join(es: seq<EntryRow>, cs: seq<ContentRow>): (rs: seq<GongzuoRaw>)
    ensures forall r :: r in rs ==>
              exists e, c :: e in es && c in cs && c.id == e.contentId && r == Joined(e, c)
    ensures forall e, c :: e in es && c in cs && c.id == e.contentId ==> Joined(e, c) in rs
  {
    if es == [] then [] else JoinEntry(es[0], cs) + Join(es[1..], cs)
  }

  /** `WHERE gongzuo.user_id = $1`. */
  function OwnedBy(es: seq<EntryRow>, userId: int): (r: seq<EntryRow>)
    ensures forall e :: e in r <==> e in es && e.userId == userId
    ensures |r| <= |es|
  {
    if es == [] then []
    else (if es[0].userId == userId then [es[0]] else []) + OwnedBy(es[1..], userId)
  }

  /** `gongzuos_by_user_id`: the joined rows of the entries owned by `userId`. */
  function GongzuosByUserId(es: seq<EntryRow>, cs: seq<ContentRow>, userId: int): (rs: seq<GongzuoRaw>)
    ensures forall r :: r in rs ==>
              exists e, c :: e in es && e.userId == userId && c in cs && c.id == e.contentId
                             && r == Joined(e, c)
    ensures forall e, c :: e in es && e.userId == userId && c in cs && c.id == e.contentId ==>
              Joined(e, c) in rs
  {
    Join(OwnedBy(es, userId), cs)
  }

  /** Row ids are a key of the entry table. */
  predicate UniqueEntryIds(es: seq<EntryRow>)
  {
    forall i, j :: 0 <= i < j < |es| ==> es[i].id != es[j].id
  }

  /** Row ids are a key of the contents table. */
  predicate UniqueContentIds(cs: seq<ContentRow>)
  {
    forall i, j :: 0 <= i < j < |cs| ==> cs[i].id != cs[j].id
  }

  /** Every row `gongzuos_by_user_id` returns carries the kind and text of the contents row it names. */
  lemma ByUserIdContentFromContents(es: seq<EntryRow>, cs: seq<ContentRow>, userId: int, r: GongzuoRaw)
    requires r in GongzuosByUserId(es, cs, userId)
    ensures ContentRow(r.contentId, r.contentKind, r.content) in cs
  {
    var e, c :| e in es && e.userId == userId && c in cs && c.id == e.contentId && r == Joined(e, c);
    assert ContentRow(r.contentId, r.contentKind, r.content) == c;
  }

  /** Every row `gongzuos_by_user_id` returns comes from an entry of that user with the same id and times. */
  lemma ByUserIdRowFromEntry(es: seq<EntryRow>, cs: seq<ContentRow>, userId: int, r: GongzuoRaw)
    requires r in GongzuosByUserId(es, cs, userId)
    ensures EntryRow(r.id, userId, r.contentId, r.startedAt, r.endedAt) in es
  {
    var e, c :| e in es && e.userId == userId && c in cs && c.id == e.contentId && r == Joined(e, c);
    assert EntryRow(r.id, userId, r.contentId, r.startedAt, r.endedAt) == e;
  }

  /**
   * The join is an inner join: an entry whose contents row is missing yields no
   * row at all, since no other entry carries its id.
   */
  lemma ByUserIdDropsDangling(es: seq<EntryRow>, cs: seq<ContentRow>, userId: int, k: nat)
    requires UniqueEntryIds(es)
    requires k < |es|
    requires forall c :: c in cs ==> c.id != es[k].contentId
    ensures forall r :: r in GongzuosByUserId(es, cs, userId) ==> r.id != es[k].id
  {
    forall r | r in GongzuosByUserId(es, cs, userId)
      ensures r.id != es[k].id
    {
      var e, c :| e in es && e.userId == userId && c in cs && c.id == e.contentId && r == Joined(e, c);
      var i :| 0 <= i < |es| && es[i] == e;
      if i != k {
        assert es[i].id != es[k].id by {
          if i < k { } else { }
        }
      }
    }
  }

  /** The first row with a given id, the way a `fetch_optional` reads one row. */
  function FirstWithId(rs: seq<GongzuoRaw>, id: int): (o: Option<GongzuoRaw>)
    ensures o.Some? ==> o.value in rs && o.value.id == id
    ensures o.None? <==> forall r :: r in rs ==> r.id != id
  {
    if rs == [] then None
    else if rs[0].id == id then Some(rs[0])
    else FirstWithId(rs[1..], id)
  }

  /** `gongzuo_by_gongzuo_id`: the joined row of the entry with that id, if any. */
  function GongzuoByGongzuoId(es: seq<EntryRow>, cs: seq<ContentRow>, id: int): (o: Option<GongzuoRaw>)
    ensures o.Some? ==> o.value.id == id && o.value in Join(es, cs)
    ensures o.None? <==> forall r :: r in Join(es, cs) ==> r.id != id
  {
    FirstWithId(Join(es, cs), id)
  }
}
