/**
 * handlers/databaseInit.js: the start-up connection test, the boost load with
 * its reset of an expired boost, and the insert-if-absent seeding of the
 * default settings.
 */
module DatabaseInit {
  import opened Wrappers
  import opened Boost
  import opened Store
  import Js
  import Client
  import Supabase

  /** The default rows, in the order they are seeded. */
  function Defaults(config: Client.Config): seq<(string, Setting)> {
    [(COOLDOWN_KEY, SecondsSetting(Js.OrElse(config.messageRewardCooldown, 60))),
     (DAILY_KEY, CoinsSetting(Js.OrElse(config.dailyReward, 50))),
     (SHOP_KEY, ShopPrices(10, 5))]
  }

  /**
   * The settings after seeding `defaults` in order: a key in `failing` is
   * skipped, whether its lookup fails or the insert after it does (both leave
   * the row absent); a key already present is left alone; a missing one is
   * inserted.
   */
  function Seeded(settings: map<string, Setting>, defaults: seq<(string, Setting)>, failing: set<string>): map<string, Setting>
    decreases |defaults|
  {
    if defaults == [] then settings
    else
      var s := Seeded(settings, defaults[..|defaults| - 1], failing);
      var (k, v) := defaults[|defaults| - 1];
      if k in failing || k in s then s else s[k := v]
  }

  predicate DistinctKeys(defaults: seq<(string, Setting)>) {
    forall i, j :: 0 <= i < j < |defaults| ==> defaults[i].0 != defaults[j].0
  }

  /**
   * initializeBoostSystem. `threw` is an exception from the lookup, `fetchUp`
   * false an error other than not-found, `writeUp` covers the insert or reset.
   * A missing row is inserted as the default and the cache gets the default;
   * an active row already past its end is reset in both; any other row is
   * adopted as it is, with no expiry callback armed for it.
   */
  method InitializeBoostSystem(bot: Client.Bot, now: nat, threw: bool, fetchUp: bool, writeUp: bool)
    modifies bot, bot.db
    ensures threw ==> bot.boost == Default && bot.db.boostRow == old(bot.db.boostRow)
    ensures !threw && !fetchUp ==> bot.boost == old(bot.boost) && bot.db.boostRow == old(bot.db.boostRow)
    ensures !threw && fetchUp ==>
      var row := old(bot.db.boostRow);
      if row.None? then
        bot.boost == Default && bot.db.boostRow == (if writeUp then Some(Default) else None)
      else if ExpiredAtStartup(row.value, now) then
        bot.boost == Default && bot.db.boostRow == (if writeUp then Some(Default) else row)
      else
        bot.boost == row.value && bot.db.boostRow == row
    ensures bot.timers == old(bot.timers)
    ensures bot.db.users == old(bot.db.users) && bot.db.trusted == old(bot.db.trusted)
    ensures bot.db.settings == old(bot.db.settings) && bot.db.logs == old(bot.db.logs)
    ensures bot.config == old(bot.config) && bot.commands == old(bot.commands) && bot.adminCommands == old(bot.adminCommands)
  {
    if threw {
      bot.boost := Default;
      return;
    }
    if !fetchUp {
      return;
    }
    var row := bot.db.boostRow;
    if row.None? {
      if writeUp {
        bot.db.boostRow := Some(Default);
      }
      bot.boost := Default;
    } else if ExpiredAtStartup(row.value, now) {
      if writeUp {
        bot.db.boostRow := Some(Default);
      }
      bot.boost := Default;
    } else {
      bot.boost := row.value;
    }
  }

  /** initializeSystemSettings: seed each default missing from the table whose lookup and insert succeed. */
  method InitializeSystemSettings(bot: Client.Bot, failing: set<string>)
    modifies bot.db
    ensures bot.db.settings == Seeded(old(bot.db.settings), Defaults(bot.config), failing)
    ensures bot.db.users == old(bot.db.users) && bot.db.trusted == old(bot.db.trusted)
    ensures bot.db.boostRow == old(bot.db.boostRow) && bot.db.logs == old(bot.db.logs)
  {
    var defaults := Defaults(bot.config);
    var i := 0;
    while i < |defaults|
      invariant 0 <= i <= |defaults|
      invariant bot.db.settings == Seeded(old(bot.db.settings), defaults[..i], failing)
      invariant bot.db.users == old(bot.db.users) && bot.db.trusted == old(bot.db.trusted)
      invariant bot.db.boostRow == old(bot.db.boostRow) && bot.db.logs == old(bot.db.logs)
    {
      var (k, v) := defaults[i];
      assert defaults[..i + 1][..i] == defaults[..i];
      if k !in failing && k !in bot.db.settings {
        bot.db.settings := bot.db.settings[k := v];
      }
      i := i + 1;
    }
    assert defaults[..|defaults|] == defaults;
  }

  /**
   * The exported init: a failed connection test returns false and does
   * nothing else; otherwise load the boost (as InitializeBoostSystem), seed
   * the settings, return true.
   */
  method Init(bot: Client.Bot, now: nat, connUp: bool, threw: bool, fetchUp: bool, writeUp: bool, failing: set<string>)
    returns (ok: bool)
    modifies bot, bot.db
    ensures ok == connUp
    ensures !connUp ==>
      bot.boost == old(bot.boost) && bot.db.boostRow == old(bot.db.boostRow) && bot.db.settings == old(bot.db.settings)
    ensures connUp ==> bot.db.settings == Seeded(old(bot.db.settings), Defaults(bot.config), failing)
    ensures connUp && threw ==> bot.boost == Default && bot.db.boostRow == old(bot.db.boostRow)
    ensures connUp && !threw && !fetchUp ==> bot.boost == old(bot.boost) && bot.db.boostRow == old(bot.db.boostRow)
    ensures connUp && !threw && fetchUp ==>
      var row := old(bot.db.boostRow);
      if row.None? then
        bot.boost == Default && bot.db.boostRow == (if writeUp then Some(Default) else None)
      else if ExpiredAtStartup(row.value, now) then
        bot.boost == Default && bot.db.boostRow == (if writeUp then Some(Default) else row)
      else
        bot.boost == row.value && bot.db.boostRow == row
    ensures bot.timers == old(bot.timers)
    ensures bot.db.users == old(bot.db.users) && bot.db.trusted == old(bot.db.trusted) && bot.db.logs == old(bot.db.logs)
    ensures bot.config == old(bot.config) && bot.commands == old(bot.commands) && bot.adminCommands == old(bot.adminCommands)
  {
    if !connUp {
      return false;
    }
    InitializeBoostSystem(bot, now, threw, fetchUp, writeUp);
    InitializeSystemSettings(bot, failing);
    return true;
  }

  // ---- lemmas ----

  /** Seeding never overwrites a row that was there. */
  lemma {:induction false} SeededKeepsExisting(settings: map<string, Setting>, defaults: seq<(string, Setting)>, failing: set<string>, k: string)
    requires k in settings
    ensures k in Seeded(settings, defaults, failing) && Seeded(settings, defaults, failing)[k] == settings[k]
    decreases |defaults|
  {
    if defaults != [] {
      SeededKeepsExisting(settings, defaults[..|defaults| - 1], failing, k);
    }
  }

  /** Seeding adds only default keys whose lookup succeeded. */
  lemma {:induction false} SeededOnlyAdds(settings: map<string, Setting>, defaults: seq<(string, Setting)>, failing: set<string>, k: string)
    requires k in Seeded(settings, defaults, failing) && k !in settings
    ensures k !in failing && exists i :: 0 <= i < |defaults| && defaults[i].0 == k
    decreases |defaults|
  {
    var init := defaults[..|defaults| - 1];
    if k in Seeded(settings, init, failing) {
      SeededOnlyAdds(settings, init, failing, k);
      var i :| 0 <= i < |init| && init[i].0 == k;
      assert defaults[i].0 == k;
    }
  }

  /** A missing default whose lookup succeeds is inserted with its default value. */
  lemma {:induction false} SeededInserts(settings: map<string, Setting>, defaults: seq<(string, Setting)>, failing: set<string>, i: nat)
    requires DistinctKeys(defaults)
    requires i < |defaults| && defaults[i].0 !in settings && defaults[i].0 !in failing
    ensures defaults[i].0 in Seeded(settings, defaults, failing)
    ensures Seeded(settings, defaults, failing)[defaults[i].0] == defaults[i].1
    decreases |defaults|
  {
    var init := defaults[..|defaults| - 1];
    var k := defaults[i].0;
    if i == |defaults| - 1 {
      if k in Seeded(settings, init, failing) {
        SeededOnlyAdds(settings, init, failing, k);
        assert false;
      }
    } else {
      assert init[i] == defaults[i];
      SeededInserts(settings, init, failing, i);
    }
  }

  /** The three default keys are distinct, so each missing one gets its own default. */
  lemma DefaultsDistinct(config: Client.Config)
    ensures DistinctKeys(Defaults(config))
  {
  }
}
