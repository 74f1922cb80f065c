/**
 * The coin boost: the `{active, multiplier, endTime}` value kept both in the
 * client's cache and in the `boost_system` settings row, the tests different
 * parts of the bot apply to it, and the duration text shown for it.
 * Multipliers are whole numbers here; times are milliseconds since the epoch.
 */
module Boost {
  import opened Wrappers
  import Js

  datatype BoostState = BoostState(active: bool, multiplier: int, endTime: Option<nat>)

  const MINUTE_MS: nat := 60000

  /** `{active: false, multiplier: 1, endTime: null}`, used at start-up, on expiry and on reset. */
  const Default := BoostState(false, 1, None)

  /** The reward test of the message handler: `active && endTime > now`. */
  predicate Live(b: BoostState, now: nat) {
    b.active && b.endTime.Some? && b.endTime.value > now
  }

  /** The cache test of booststatus: `!active || !endTime || endTime <= now` (0 is falsy). */
  predicate LooksInactive(b: BoostState, now: nat) {
    !b.active || b.endTime.None? || b.endTime.value == 0 || b.endTime.value <= now
  }

  /** The start-up reset test: `active && endTime && endTime < now`. */
  predicate ExpiredAtStartup(b: BoostState, now: nat) {
    b.active && b.endTime.Some? && b.endTime.value != 0 && b.endTime.value < now
  }

  /** The boost booststart installs. */
  function Started(multiplier: int, minutes: nat, now: nat): BoostState {
    BoostState(true, multiplier, Some(now + minutes * MINUTE_MS))
  }

  /** What the expiry callback leaves: it resets whenever any boost is active. */
  function AfterTimer(b: BoostState): BoostState {
    if b.active then Default else b
  }

  /** `${n} unit` with an `s` unless n is 1. */
  function Count(n: nat, unit: string): string {
    Js.DecimalString(n) + " " + unit + (if n != 1 then "s" else "")
  }

  /**
   * The duration text of booststart and booststatus: the hours part only when
   * there are hours, the minutes appended only when there are some.
   */
  function DurationText(hours: nat, minutes: nat): string {
    if hours > 0 then
      Count(hours, "hour") + (if minutes > 0 then " and " + Count(minutes, "minute") else "")
    else
      Count(minutes, "minute")
  }

  /**
   * The time left before `endTime`, in whole minutes split into hours and
   * minutes: `minutes = floor(remaining / 60000)`, `hours = floor(minutes / 60)`,
   * `mins = minutes % 60`.
   */
  function Remaining(endTime: nat, now: nat): (r: (nat, nat))
    requires endTime > now
    ensures r.1 < 60
    ensures (r.0 * 60 + r.1) * MINUTE_MS <= endTime - now < (r.0 * 60 + r.1 + 1) * MINUTE_MS
  {
    var minutes := (endTime - now) / MINUTE_MS;
    (minutes / 60, minutes % 60)
  }

  // ---- lemmas ----

  /** The booststatus cache test is exactly the negation of the reward test. */
  lemma LooksInactiveIffNotLive(b: BoostState, now: nat)
    ensures LooksInactive(b, now) <==> !Live(b, now)
  {
  }

  /** A started boost rewards until, and not at, the end of its duration. */
  lemma StartedLifetime(multiplier: int, minutes: nat, now: nat, t: nat)
    requires minutes > 0
    ensures Live(Started(multiplier, minutes, now), t) <==> t < now + minutes * MINUTE_MS
  {
  }

  /** A boost the start-up check resets is one that no longer rewards. */
  lemma ExpiredIsNotLive(b: BoostState, now: nat)
    ensures ExpiredAtStartup(b, now) ==> !Live(b, now)
  {
  }

  /**
   * The start-up check keeps a boost whose end is exactly now: it does not
   * reward, but it stays active in the cache.
   */
  lemma EndingNowSurvivesStartup(multiplier: int, now: nat)
    requires now > 0
    ensures var b := BoostState(true, multiplier, Some(now));
      !ExpiredAtStartup(b, now) && !Live(b, now) && b.active
  {
  }

  /**
   * The expiry callback does not check which boost it belongs to: the timer of
   * an earlier boost ends a later one that still has time left.
   */
  lemma StaleTimerEndsNewerBoost(m1: int, d1: nat, t1: nat, m2: int, d2: nat, t2: nat)
    requires t1 <= t2 <= t1 + d1 * MINUTE_MS
    requires t2 + d2 * MINUTE_MS > t1 + d1 * MINUTE_MS
    ensures var fire := t1 + d1 * MINUTE_MS;
      Live(Started(m2, d2, t2), fire) && !Live(AfterTimer(Started(m2, d2, t2)), fire)
  {
  }

  /** Once no boost is active the expiry callback changes nothing. */
  lemma AfterTimerIdempotent(b: BoostState)
    ensures !AfterTimer(b).active
    ensures AfterTimer(AfterTimer(b)) == AfterTimer(b)
    ensures !b.active ==> AfterTimer(b) == b
  {
  }

  /** The displayed count reads back as its number. */
  lemma CountReadsBack(n: nat, unit: string, rest: string)
    requires |unit| > 0
    ensures Js.ParseInt(Count(n, unit) + rest) == Some(n)
  {
    var tail := " " + unit + (if n != 1 then "s" else "") + rest;
    assert Count(n, unit) + rest == Js.DecimalString(n) + tail;
    Js.ParseIntDecimal(n, tail);
  }

  /** The duration text begins with the hours when there are any and with the minutes otherwise. */
  lemma DurationTextLeads(hours: nat, minutes: nat)
    ensures Js.ParseInt(DurationText(hours, minutes)) == Some(if hours > 0 then hours else minutes)
  {
    if hours > 0 {
      var rest := if minutes > 0 then " and " + Count(minutes, "minute") else "";
      CountReadsBack(hours, "hour", rest);
    } else {
      CountReadsBack(minutes, "minute", "");
      assert Count(minutes, "minute") + "" == Count(minutes, "minute");
    }
  }

  /** The booststart split of a duration in minutes recomposes it. */
  lemma DurationSplit(duration: nat)
    ensures (duration / 60) * 60 + duration % 60 == duration && duration % 60 < 60
  {
  }
}
