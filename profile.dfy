/**
 * commands/profile.js: a user's profile card. The target is ensured (the
 * result is not looked at) and read back; a failed read ends in the error
 * reply. The card shows the balance, the message count (0 when unset), whether
 * a key is set, and the time since joining in the largest fitting unit.
 */
module Profile {
  import opened Wrappers
  import opened Store
  import Js
  import Supabase

  const MINUTE_MS: nat := 1000 * 60
  const HOUR_MS: nat := 1000 * 60 * 60
  const DAY_MS: nat := 1000 * 60 * 60 * 24

  /** A count and its unit word, before the plural `s`. */
  datatype Span = Span(count: nat, unit: string)

  /** The profile fields that carry logic. */
  datatype Card = Card(coins: int, messages: int, hasKey: bool, memberFor: string)

  /** `Math.abs(now - date)`. */
  function Distance(now: int, joined: int): nat {
    if now >= joined then now - joined else joined - now
  }

  /** The bucketing of getTimeSince for a distance of `diff` milliseconds. */
  function Bucket(diff: nat): Span {
    var days := diff / DAY_MS;
    if days > 365 then Span(days / 365, "year")
    else if days > 30 then Span(days / 30, "month")
    else if days > 0 then Span(days, "day")
    else
      var hours := diff / HOUR_MS;
      if hours > 0 then Span(hours, "hour")
      else Span(diff / MINUTE_MS, "minute")
  }

  /** `${n} unit` with an `s` unless n is 1. */
  function SpanText(s: Span): string {
    Js.DecimalString(s.count) + " " + s.unit + (if s.count != 1 then "s" else "")
  }

  /** getTimeSince. */
  function TimeSince(now: int, joined: int): string {
    SpanText(Bucket(Distance(now, joined)))
  }

  /** The card of a stored row: `messages_count || 0` and a truthy key. */
  function CardOf(u: User, now: int): Card {
    Card(u.coins, Js.OrElse(u.messagesCount, 0), u.key.Some? && u.key.value != "", TimeSince(now, u.joinedAt))
  }

  /** execute: ensure, then read; the card, or the read's error. */
  method Execute(db: Supabase.Db, target: UserId, username: Option<string>, now: nat, ensureUp: bool, readUp: bool)
    returns (r: Result<Card, StoreError>)
    modifies db
    ensures db.users == (if ensureUp then Ensured(old(db.users), target, NewUser(username, now)) else old(db.users))
    ensures r.Success? <==> readUp && target in db.users
    ensures r.Success? ==> r.value == CardOf(db.users[target], now)
    ensures db.trusted == old(db.trusted) && db.settings == old(db.settings)
    ensures db.boostRow == old(db.boostRow) && db.logs == old(db.logs)
  {
    var _ := db.EnsureUser(target, username, now, ensureUp);
    var got := db.GetUser(target, readUp);
    if got.Failure? {
      return Failure(got.error);
    }
    return Success(CardOf(got.value, now));
  }

  // ---- lemmas ----

  /**
   * Each bucket covers its range of whole days: more than 365 gives years,
   * 31..365 months of 30 days, 1..30 days, and under a day hours, then minutes.
   */
  lemma BucketSpec(diff: nat)
    ensures var days := diff / DAY_MS; var b := Bucket(diff);
      (days > 365 ==> b == Span(days / 365, "year") && b.count >= 1) &&
      (30 < days <= 365 ==> b == Span(days / 30, "month") && 1 <= b.count <= 12) &&
      (0 < days <= 30 ==> b == Span(days, "day")) &&
      (days == 0 && diff >= HOUR_MS ==> b == Span(diff / HOUR_MS, "hour") && 1 <= b.count < 24) &&
      (diff < HOUR_MS ==> b == Span(diff / MINUTE_MS, "minute") && b.count < 60)
  {
  }

  /** Exactly 365 days reads as 12 months, one day more as 1 year. */
  lemma YearBoundary()
    ensures Bucket(365 * DAY_MS) == Span(12, "month")
    ensures Bucket(366 * DAY_MS) == Span(1, "year")
  {
  }

  /** The time since does not depend on which of the two instants is later. */
  lemma Symmetric(now: int, joined: int)
    ensures TimeSince(now, joined) == TimeSince(joined, now)
  {
  }

  /** The unit takes an `s` exactly when the count is not 1. */
  lemma PluralIff(s: Span)
    ensures SpanText(s) == Js.DecimalString(s.count) + " " + s.unit + "s" <==> s.count != 1
  {
    if s.count == 1 {
      var a := Js.DecimalString(s.count) + " " + s.unit;
      assert |SpanText(s)| == |a|;
    }
  }

  /** An unset or zero message count shows 0; the key status is set exactly for a non-empty key. */
  lemma CardDefaults(u: User, now: int)
    ensures CardOf(u, now).messages == (if u.messagesCount.Some? then u.messagesCount.value else 0)
    ensures CardOf(u, now).hasKey <==> u.key.Some? && |u.key.value| > 0
    ensures CardOf(u, now).coins == u.coins
  {
  }
}
