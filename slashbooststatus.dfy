/**
 * slashCommands/booststatus.js: the slash twin of booststatus. It makes the
 * same cache test, the same row read and adoption, and builds the same
 * time-left text with one nested conditional expression.
 */
module SlashBoostStatus {
  import opened Boost
  import Client
  import BoostStatus

  method Execute(bot: Client.Bot, now: nat, up: bool) returns (s: BoostStatus.Status)
    modifies bot
    ensures var cached := old(bot.boost);
      var row := bot.db.boostRow;
      if !LooksInactive(cached, now) then
        bot.boost == cached && s == BoostStatus.Report(cached, now)
      else if up && row.Some? && Live(row.value, now) then
        bot.boost == row.value && s == BoostStatus.Report(row.value, now)
      else
        bot.boost == cached && s == BoostStatus.NoBoost
    ensures s.Active? <==> Live(bot.boost, now)
    ensures bot.timers == old(bot.timers) && bot.config == old(bot.config)
    ensures bot.commands == old(bot.commands) && bot.adminCommands == old(bot.adminCommands)
  {
    LooksInactiveIffNotLive(bot.boost, now);
    if LooksInactive(bot.boost, now) {
      var row := bot.db.boostRow;
      if !(up && row.Some? && Live(row.value, now)) {
        return BoostStatus.NoBoost;
      }
      bot.boost := row.value;
    }
    var (hours, mins) := Remaining(bot.boost.endTime.value, now);
    var text := if hours > 0 then
        Count(hours, "hour") + (if mins > 0 then " and " + Count(mins, "minute") else "")
      else Count(mins, "minute");
    s := BoostStatus.Active(bot.boost.multiplier, text);
  }
}
