/**
 * commands/booststatus.js: report the running boost. A cache that does not
 * look live is checked against the stored row, which is adopted when it is
 * live; the remaining time is shown in whole hours and minutes.
 */
module BoostStatus {
  import opened Wrappers
  import opened Boost
  import Client

  /** What the reply shows: no boost, or the multiplier and the time-left text. */
  datatype Status = NoBoost | Active(multiplier: int, timeLeft: string)

  /** The time-left text for a boost ending at `endTime`, seen at `now`. */
  function RemainingText(endTime: nat, now: nat): string
    requires endTime > now
  {
    var (hours, mins) := Remaining(endTime, now);
    DurationText(hours, mins)
  }

  /** The status of boost `b` as the reply renders it. */
  function Report(b: BoostState, now: nat): Status
    requires Live(b, now)
  {
    Active(b.multiplier, RemainingText(b.endTime.value, now))
  }

  /**
   * execute: a live cache is reported as it is; otherwise the row is read
   * (`up` false: the read fails and gives no data) and adopted when live;
   * otherwise there is no boost. Only the cache can change.
   */
  method Execute(bot: Client.Bot, now: nat, up: bool) returns (s: Status)
    modifies bot
    ensures var cached := old(bot.boost);
      var row := bot.db.boostRow;
      if !LooksInactive(cached, now) then
        bot.boost == cached && s == Report(cached, now)
      else if up && row.Some? && Live(row.value, now) then
        bot.boost == row.value && s == Report(row.value, now)
      else
        bot.boost == cached && s == NoBoost
    ensures s.Active? <==> Live(bot.boost, now)
    ensures bot.timers == old(bot.timers) && bot.config == old(bot.config)
    ensures bot.commands == old(bot.commands) && bot.adminCommands == old(bot.adminCommands)
  {
    LooksInactiveIffNotLive(bot.boost, now);
    if LooksInactive(bot.boost, now) {
      var row := bot.db.boostRow;
      if up && row.Some? && Live(row.value, now) {
        bot.boost := row.value;
      } else {
        return NoBoost;
      }
    }
    s := Report(bot.boost, now);
  }

  // ---- lemmas ----

  /**
   * Queried at the instant a boost of `d` minutes starts, the status shows
   * the same duration text as booststart's reply.
   */
  lemma {:induction false} StatusAtStart(m: int, d: nat, now: nat)
    requires d > 0
    ensures Live(Started(m, d, now), now)
    ensures Report(Started(m, d, now), now) == Active(m, DurationText(d / 60, d % 60))
  {
    var endTime := now + d * MINUTE_MS;
    assert (endTime - now) / MINUTE_MS == d;
  }
}
