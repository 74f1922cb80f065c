/**
 * commands/admin/booststart.js: validate `<multiplier> <minutes>`, install the
 * boost in the cache and the store, log it, and arm the expiry callback.
 * The multiplier argument arrives already read by parseFloat (None for NaN).
 */
module BoostStart {
  import opened Wrappers
  import opened Boost
  import Js
  import Client
  import Supabase
  import Store

  datatype BoostError = Usage | BadMultiplier | BadDuration

  /** The largest delay Node's setTimeout honours, 2^31 - 1 ms. */
  const MAX_DELAY: nat := 0x7FFF_FFFF

  /** setTimeout's actual delay: a delay above MAX_DELAY (or below 1) is replaced by 1 ms. */
  function TimerDelay(ms: nat): (r: nat)
    ensures 1 <= r <= MAX_DELAY
    ensures r == ms <==> 1 <= ms <= MAX_DELAY
  {
    if 1 <= ms <= MAX_DELAY then ms else 1
  }

  /** The argument checks, in order: two arguments, a multiplier above 1, a duration above 0. */
  function Validate(args: seq<string>, multiplier: Option<int>): Result<(int, nat), BoostError> {
    if |args| < 2 then Failure(Usage)
    else if multiplier.None? || multiplier.value <= 1 then Failure(BadMultiplier)
    else
      var d := Js.ParseInt(args[1]);
      if d.None? || d.value <= 0 then Failure(BadDuration)
      else Success((multiplier.value, d.value as nat))
  }

  /**
   * execute: on valid arguments the cache holds the new boost, the store row
   * is upserted to it (`upsertUp`), 'boost_start' is logged (`logUp`), and an
   * expiry callback is armed with a delay of `duration` minutes, which Node
   * clamps (TimerDelay); the answer is the duration text. Invalid arguments
   * change nothing.
   */
  method Execute(bot: Client.Bot, args: seq<string>, multiplier: Option<int>, author: Store.UserId, now: nat,
                 upsertUp: bool, logUp: bool)
    returns (r: Result<string, BoostError>)
    modifies bot, bot.db
    ensures var v := Validate(args, multiplier);
      if v.Failure? then
        r == Failure(v.error) &&
        bot.boost == old(bot.boost) && bot.timers == old(bot.timers) &&
        bot.db.boostRow == old(bot.db.boostRow) && bot.db.logs == old(bot.db.logs)
      else
        var (m, d) := v.value;
        bot.boost == Started(m, d, now) &&
        bot.db.boostRow == (if upsertUp then Some(Started(m, d, now)) else old(bot.db.boostRow)) &&
        bot.timers == old(bot.timers) + [Client.Timer(now + TimerDelay(d * MINUTE_MS), m)] &&
        r == Success(DurationText(d / 60, d % 60)) &&
        bot.db.logs == old(bot.db.logs) + (if logUp then [StartEntry(author, m, d, now)] else [])
    ensures bot.db.users == old(bot.db.users) && bot.db.trusted == old(bot.db.trusted)
    ensures bot.db.settings == old(bot.db.settings)
    ensures bot.config == old(bot.config) && bot.commands == old(bot.commands) && bot.adminCommands == old(bot.adminCommands)
  {
    var v := Validate(args, multiplier);
    if v.Failure? {
      return Failure(v.error);
    }
    var text := Start(bot, v.value.0, v.value.1, author, now, upsertUp, logUp);
    return Success(text);
  }

  /** The effects of a validated booststart. */
  method Start(bot: Client.Bot, m: int, d: nat, author: Store.UserId, now: nat, upsertUp: bool, logUp: bool)
    returns (text: string)
    modifies bot, bot.db
    ensures bot.boost == Started(m, d, now)
    ensures bot.db.boostRow == (if upsertUp then Some(Started(m, d, now)) else old(bot.db.boostRow))
    ensures bot.timers == old(bot.timers) + [Client.Timer(now + TimerDelay(d * MINUTE_MS), m)]
    ensures text == DurationText(d / 60, d % 60)
    ensures bot.db.logs == old(bot.db.logs) + (if logUp then [StartEntry(author, m, d, now)] else [])
    ensures bot.db.users == old(bot.db.users) && bot.db.trusted == old(bot.db.trusted)
    ensures bot.db.settings == old(bot.db.settings)
    ensures bot.config == old(bot.config) && bot.commands == old(bot.commands) && bot.adminCommands == old(bot.adminCommands)
  {
    var b := Started(m, d, now);
    bot.boost := b;
    if upsertUp {
      bot.db.boostRow := Some(b);
    }
    text := DurationText(d / 60, d % 60);
    var _ := bot.db.LogAction("boost_start", author, StartDetails(m, d, now), now, logUp);
    bot.timers := bot.timers + [Client.Timer(now + TimerDelay(d * MINUTE_MS), m)];
  }

  function StartDetails(m: int, d: nat, now: nat): seq<(string, Supabase.Detail)> {
    [("multiplier", Supabase.Number(m)), ("duration", Supabase.Number(d)), ("end_time", Supabase.Number(now + d * MINUTE_MS))]
  }

  function StartEntry(author: Store.UserId, m: int, d: nat, now: nat): Store.LogEntry {
    Store.LogEntry("boost_start", author, Supabase.DetailsText(StartDetails(m, d, now)), now)
  }

  /** The 'boost_end' row, stamped when the callback runs (logAction's `new Date()`). */
  function EndEntry(t: Client.Timer, now: nat): Store.LogEntry {
    Store.LogEntry("boost_end", "system", Supabase.DetailsText([("multiplier", Supabase.Number(t.multiplier))]), now)
  }

  /**
   * The expiry callback of timer `i`, run at `now` (its due time or later):
   * if any boost is active, reset cache and store row to the default and log
   * 'boost_end', without checking that the active boost is the one this
   * timer belongs to.
   */
  method Fire(bot: Client.Bot, i: nat, now: nat, upsertUp: bool, logUp: bool)
    requires i < |bot.timers|
    modifies bot, bot.db
    ensures bot.timers == old(bot.timers[..i] + bot.timers[i + 1..])
    ensures bot.boost == AfterTimer(old(bot.boost))
    ensures old(bot.boost.active) ==>
      bot.db.boostRow == (if upsertUp then Some(Default) else old(bot.db.boostRow)) &&
      bot.db.logs == old(bot.db.logs) + (if logUp then [EndEntry(old(bot.timers[i]), now)] else [])
    ensures !old(bot.boost.active) ==> bot.db.boostRow == old(bot.db.boostRow) && bot.db.logs == old(bot.db.logs)
    ensures bot.db.users == old(bot.db.users) && bot.db.trusted == old(bot.db.trusted)
    ensures bot.db.settings == old(bot.db.settings)
    ensures bot.config == old(bot.config) && bot.commands == old(bot.commands) && bot.adminCommands == old(bot.adminCommands)
  {
    var t := bot.timers[i];
    bot.timers := bot.timers[..i] + bot.timers[i + 1..];
    if bot.boost.active {
      bot.boost := Default;
      if upsertUp {
        bot.db.boostRow := Some(Default);
      }
      var _ := bot.db.LogAction("boost_end", "system", [("multiplier", Supabase.Number(t.multiplier))], now, logUp);
    }
  }

  // ---- lemmas ----

  /**
   * A boost of 35792 minutes or more asks setTimeout for more than 2^31 - 1
   * ms, so its expiry callback is due 1 ms after the start, long before the
   * end time; every shorter boost gets its callback exactly at its end time.
   */
  lemma LongBoostEndsAtOnce(m: int, d: nat, now: nat)
    requires d > 0
    ensures d >= 35792 ==> TimerDelay(d * MINUTE_MS) == 1 && Live(Started(m, d, now), now + 1)
    ensures d < 35792 ==> now + TimerDelay(d * MINUTE_MS) == Started(m, d, now).endTime.value
  {
    if d >= 35792 {
      assert d * MINUTE_MS >= 35792 * MINUTE_MS > MAX_DELAY;
    } else {
      assert d * MINUTE_MS <= 35791 * MINUTE_MS <= MAX_DELAY;
    }
  }

  /**
   * Each refusal happens exactly when its check is the first to fail, and an
   * accepted pair is a multiplier above 1 and the parseInt of the duration, above 0.
   */
  lemma ValidateSpec(args: seq<string>, multiplier: Option<int>)
    ensures var r := Validate(args, multiplier);
      (r == Failure(Usage) <==> |args| < 2) &&
      (r == Failure(BadMultiplier) <==> |args| >= 2 && (multiplier.None? || multiplier.value <= 1)) &&
      (r == Failure(BadDuration) <==>
        |args| >= 2 && multiplier.Some? && multiplier.value > 1 &&
        (Js.ParseInt(args[1]).None? || Js.ParseInt(args[1]).value <= 0)) &&
      (r.Success? ==>
        |args| >= 2 && multiplier == Some(r.value.0) && r.value.0 > 1 &&
        r.value.1 > 0 && Js.ParseInt(args[1]) == Some(r.value.1 as int))
  {
  }

  /** Well-formed arguments, a decimal duration included, are accepted as written. */
  lemma ValidateAccepts(first: string, d: nat, rest: seq<string>, m: int)
    requires m > 1 && d > 0
    ensures Validate([first, Js.DecimalString(d)] + rest, Some(m)) == Success((m, d))
  {
    var arg := Js.DecimalString(d);
    Js.ParseIntDecimal(d, "");
    assert arg + "" == arg;
    assert Js.ParseInt(arg) == Some(d);
    var args := [first, arg] + rest;
    assert args[1] == arg;
  }

  /** A duration with a fractional part is cut to its whole minutes, as parseInt does. */
  lemma ValidateTruncates(first: string, d: nat, frac: string, m: int)
    requires m > 1 && d > 0
    ensures Validate([first, Js.DecimalString(d) + "." + frac], Some(m)) == Success((m, d))
  {
    var arg := Js.DecimalString(d) + "." + frac;
    assert arg == Js.DecimalString(d) + ("." + frac);
    Js.ParseIntDecimal(d, "." + frac);
    assert Js.ParseInt(arg) == Some(d);
    var args := [first, arg];
    assert args[1] == arg;
  }
}
