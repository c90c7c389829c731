/**
 * web_backend/src/util/timezone.rs: turning a UTC wall-clock reading into a
 * date-time shown at the fixed Japan Standard Time offset.
 *
 * A chrono `NaiveDateTime` is modelled as whole seconds on a clock with no
 * zone; a `DateTime<Tz>` keeps the instant (as its UTC reading) together with
 * the offset it is displayed at, which is how chrono stores it.
 */
module Timezone {
  import opened Wrappers

  /** Seconds since 1970-01-01T00:00:00 on a wall clock that carries no zone. */
  type NaiveDateTime = int

  /** A chrono `FixedOffset`: the number of seconds east of UTC. */
  datatype FixedOffset = FixedOffset(eastSeconds: int)

  /** A chrono `DateTime`: the instant, as its UTC reading, and the offset it is shown at. */
  datatype DateTime = DateTime(utc: NaiveDateTime, offset: FixedOffset)

  const SecondsPerDay: int := 86400

  /** The offset of Japan Standard Time, nine hours east of UTC. */
  const JstEastSeconds: int := 9 * 3600

  const Utc: FixedOffset := FixedOffset(0)

  /** `FixedOffset::east_opt`: an offset exists only strictly within one day either side of UTC. */
  function EastOpt(secs: int): (r: Option<FixedOffset>)
    ensures r.Some? <==> -SecondsPerDay < secs < SecondsPerDay
    ensures r.Some? ==> r.value.eastSeconds == secs
  {
    if -SecondsPerDay < secs && secs < SecondsPerDay then Some(FixedOffset(secs)) else None
  }

  /** `DateTime::from_naive_utc_and_offset(utc, Utc)`: read a naive value as a UTC instant. */
  function FromNaiveUtc(utc: NaiveDateTime): (r: DateTime)
    ensures r.offset == Utc && NaiveLocal(r) == utc
  {
    DateTime(utc, Utc)
  }

  /** Two date-times denote the same instant, whatever offsets they are shown at. */
  predicate SameInstant(a: DateTime, b: DateTime)
  {
    a.utc == b.utc
  }

  /** `with_timezone`: the same instant, shown at another offset. */
  function WithTimezone(d: DateTime, tz: FixedOffset): (r: DateTime)
    ensures SameInstant(r, d) && r.offset == tz
  {
    DateTime(d.utc, tz)
  }

  /** `naive_local`: the wall-clock reading at the date-time's own offset. */
  function NaiveLocal(d: DateTime): NaiveDateTime
  {
    d.utc + d.offset.eastSeconds
  }

  /** The inverse of `NaiveLocal`: the date-time whose reading at `offset` is `local`. */
  function FromLocal(local: NaiveDateTime, offset: FixedOffset): DateTime
  {
    DateTime(local - offset.eastSeconds, offset)
  }

  /** `into_jst`: the UTC reading `utc`, shown at nine hours east of UTC. */
  function IntoJst(utc: NaiveDateTime): (r: DateTime)
    ensures r.offset == FixedOffset(32400)
    ensures SameInstant(r, FromNaiveUtc(utc))
    ensures NaiveLocal(r) == utc + 32400
  {
    var jst := EastOpt(JstEastSeconds);
    WithTimezone(FromNaiveUtc(utc), jst.value)
  }

  /** `with_timezone(&Utc)` read back as a naive UTC value. */
  function ToUtc(d: DateTime): (r: NaiveDateTime)
    ensures r == NaiveLocal(d) - d.offset.eastSeconds
    ensures SameInstant(FromNaiveUtc(r), d)
  {
    WithTimezone(d, Utc).utc
  }

  /** The JST offset is one `east_opt` accepts, so the `unwrap` in `into_jst` never panics. */
  lemma JstOffsetExists()
    ensures EastOpt(JstEastSeconds) == Some(FixedOffset(32400))
  {
  }

  /** Converting to JST and back to UTC gives the input back. */
  lemma IntoJstRoundTrip(utc: NaiveDateTime)
    ensures ToUtc(IntoJst(utc)) == utc
  {
  }

  /** Subtracting the offset from the JST wall-clock reading gives the UTC reading. */
  lemma JstLocalRoundTrip(utc: NaiveDateTime)
    ensures FromLocal(NaiveLocal(IntoJst(utc)), FixedOffset(JstEastSeconds)) == IntoJst(utc)
    ensures NaiveLocal(IntoJst(utc)) - JstEastSeconds == utc
  {
  }

  /** Distinct UTC readings stay distinct in JST. */
  lemma IntoJstInjective(a: NaiveDateTime, b: NaiveDateTime)
    ensures IntoJst(a) == IntoJst(b) <==> a == b
  {
  }
}
