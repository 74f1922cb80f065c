/**
 * handlers/commandHandler.js: register every loaded command module under its
 * name, then a second, unawaited pass over the settings table. The loaded
 * files are given as the sequence of modules in directory order.
 */
module CommandHandler {
  import opened Wrappers
  import opened Boost
  import opened Store
  import Client
  import Supabase

  /** The collection after `set(command.name, command)` for each module in order. */
  function Registered(m: map<string, Client.Command>, files: seq<Client.Command>): map<string, Client.Command>
    decreases |files|
  {
    if files == [] then m
    else
      var last := files[|files| - 1];
      Registered(m, files[..|files| - 1])[last.name := last]
  }

  /** Registers `files` into `commands` (the regular collection, lines 13-16). */
  method LoadCommands(bot: Client.Bot, files: seq<Client.Command>)
    modifies bot
    ensures bot.commands == Registered(old(bot.commands), files)
    ensures bot.adminCommands == old(bot.adminCommands) && bot.config == old(bot.config)
    ensures bot.boost == old(bot.boost) && bot.timers == old(bot.timers)
  {
    var i := 0;
    while i < |files|
      invariant 0 <= i <= |files|
      invariant bot.commands == Registered(old(bot.commands), files[..i])
      invariant bot.adminCommands == old(bot.adminCommands) && bot.config == old(bot.config)
      invariant bot.boost == old(bot.boost) && bot.timers == old(bot.timers)
    {
      assert files[..i + 1][..i] == files[..i];
      bot.commands := bot.commands[files[i].name := files[i]];
      i := i + 1;
    }
    assert files[..|files|] == files;
  }

  /** Registers `files` into `adminCommands` (lines 24-27). */
  method LoadAdminCommands(bot: Client.Bot, files: seq<Client.Command>)
    modifies bot
    ensures bot.adminCommands == Registered(old(bot.adminCommands), files)
    ensures bot.commands == old(bot.commands) && bot.config == old(bot.config)
    ensures bot.boost == old(bot.boost) && bot.timers == old(bot.timers)
  {
    var i := 0;
    while i < |files|
      invariant 0 <= i <= |files|
      invariant bot.adminCommands == Registered(old(bot.adminCommands), files[..i])
      invariant bot.commands == old(bot.commands) && bot.config == old(bot.config)
      invariant bot.boost == old(bot.boost) && bot.timers == old(bot.timers)
    {
      assert files[..i + 1][..i] == files[..i];
      bot.adminCommands := bot.adminCommands[files[i].name := files[i]];
      i := i + 1;
    }
    assert files[..|files|] == files;
  }

  /** The key of the boost row the settings pass looks up first. */
  const BOOST_KEY := "boost_system"

  /**
   * initializeSystemSettings. Each of its four lookups and writes may fail on
   * its own: a key in `readFailing` has its lookup error swallowed, so it
   * reads as a missing row; a key in `writeFailing` has its insert or update
   * fail. An insert over an existing key fails as a conflict. A missing boost
   * row is inserted as the default and the cache is left as it is; a present
   * one is adopted and, when active and already past its end, reset in cache
   * and row. shop_prices is seeded if missing. The two remaining defaults read
   * `config`, which this module never defines: when either row reads as
   * missing the ReferenceError ends the pass, so those two rows are never
   * created here. `completed` is false exactly when the pass ends in that error.
   */
  method InitializeSystemSettings(bot: Client.Bot, now: nat, readFailing: set<string>, writeFailing: set<string>)
    returns (completed: bool)
    modifies bot, bot.db
    ensures var row := old(bot.db.boostRow);
      var writeUp := BOOST_KEY !in writeFailing;
      if BOOST_KEY in readFailing || row.None? then
        bot.boost == old(bot.boost) &&
        bot.db.boostRow == (if writeUp && row.None? then Some(Default) else row)
      else if ExpiredAtStartup(row.value, now) then
        bot.boost == Default && bot.db.boostRow == (if writeUp then Some(Default) else row)
      else
        bot.boost == row.value && bot.db.boostRow == row
    ensures bot.db.settings ==
      (if SHOP_KEY !in writeFailing && SHOP_KEY !in old(bot.db.settings)
       then old(bot.db.settings)[SHOP_KEY := ShopPrices(10, 5)]
       else old(bot.db.settings))
    ensures completed <==>
      COOLDOWN_KEY !in readFailing && COOLDOWN_KEY in old(bot.db.settings) &&
      DAILY_KEY !in readFailing && DAILY_KEY in old(bot.db.settings)
    ensures bot.timers == old(bot.timers) && bot.config == old(bot.config)
    ensures bot.commands == old(bot.commands) && bot.adminCommands == old(bot.adminCommands)
    ensures bot.db.users == old(bot.db.users) && bot.db.trusted == old(bot.db.trusted) && bot.db.logs == old(bot.db.logs)
  {
    var row := bot.db.boostRow;
    if BOOST_KEY in readFailing || row.None? {
      if BOOST_KEY !in writeFailing && row.None? {
        bot.db.boostRow := Some(Default);
      }
    } else {
      bot.boost := row.value;
      if ExpiredAtStartup(bot.boost, now) {
        bot.boost := Default;
        if BOOST_KEY !in writeFailing {
          bot.db.boostRow := Some(Default);
        }
      }
    }
    // An insert tried after a failed lookup meets an existing row as a conflict.
    if SHOP_KEY !in writeFailing && SHOP_KEY !in bot.db.settings {
      bot.db.settings := bot.db.settings[SHOP_KEY := ShopPrices(10, 5)];
    }
    if COOLDOWN_KEY in readFailing || COOLDOWN_KEY !in bot.db.settings {
      return false;
    }
    if DAILY_KEY in readFailing || DAILY_KEY !in bot.db.settings {
      return false;
    }
    return true;
  }

  /**
   * init: register both directories (the admin one only when it exists), then
   * run the settings pass, whose effect on the boost cache, the boost row and
   * the settings is that of InitializeSystemSettings. `completed` is false
   * when the pass stops at the ReferenceError, which its own catch swallows,
   * so init itself never fails.
   */
  method Init(bot: Client.Bot, files: seq<Client.Command>, adminDir: Option<seq<Client.Command>>,
              now: nat, readFailing: set<string>, writeFailing: set<string>)
    returns (completed: bool)
    modifies bot, bot.db
    ensures bot.commands == Registered(old(bot.commands), files)
    ensures bot.adminCommands ==
      (if adminDir.Some? then Registered(old(bot.adminCommands), adminDir.value) else old(bot.adminCommands))
    ensures var row := old(bot.db.boostRow);
      var writeUp := BOOST_KEY !in writeFailing;
      if BOOST_KEY in readFailing || row.None? then
        bot.boost == old(bot.boost) &&
        bot.db.boostRow == (if writeUp && row.None? then Some(Default) else row)
      else if ExpiredAtStartup(row.value, now) then
        bot.boost == Default && bot.db.boostRow == (if writeUp then Some(Default) else row)
      else
        bot.boost == row.value && bot.db.boostRow == row
    ensures bot.db.settings ==
      (if SHOP_KEY !in writeFailing && SHOP_KEY !in old(bot.db.settings)
       then old(bot.db.settings)[SHOP_KEY := ShopPrices(10, 5)]
       else old(bot.db.settings))
    ensures completed <==>
      COOLDOWN_KEY !in readFailing && COOLDOWN_KEY in old(bot.db.settings) &&
      DAILY_KEY !in readFailing && DAILY_KEY in old(bot.db.settings)
    ensures bot.timers == old(bot.timers) && bot.config == old(bot.config)
    ensures bot.db.users == old(bot.db.users) && bot.db.trusted == old(bot.db.trusted) && bot.db.logs == old(bot.db.logs)
  {
    LoadCommands(bot, files);
    if adminDir.Some? {
      LoadAdminCommands(bot, adminDir.value);
    }
    completed := InitializeSystemSettings(bot, now, readFailing, writeFailing);
  }

  // ---- lemmas ----

  /** The registered names are the old ones plus every loaded module's name. */
  lemma {:induction false} RegisteredKeys(m: map<string, Client.Command>, files: seq<Client.Command>)
    ensures Registered(m, files).Keys == m.Keys + (set i | 0 <= i < |files| :: files[i].name)
    decreases |files|
  {
    if files != [] {
      var init := files[..|files| - 1];
      RegisteredKeys(m, init);
      var all := set i | 0 <= i < |files| :: files[i].name;
      var front := set i | 0 <= i < |init| :: init[i].name;
      assert all == front + {files[|files| - 1].name} by {
        forall n | n in all ensures n in front + {files[|files| - 1].name} {
          var i :| 0 <= i < |files| && files[i].name == n;
          if i < |init| {
            assert init[i].name == n;
          }
        }
        forall n | n in front ensures n in all {
          var i :| 0 <= i < |init| && init[i].name == n;
          assert files[i].name == n;
        }
      }
    }
  }

  /** Two modules with the same name: the one loaded last is the one registered. */
  lemma {:induction false} RegisteredLastWins(m: map<string, Client.Command>, files: seq<Client.Command>, j: nat)
    requires j < |files|
    requires forall k :: j < k < |files| ==> files[k].name != files[j].name
    ensures files[j].name in Registered(m, files) && Registered(m, files)[files[j].name] == files[j]
    decreases |files|
  {
    if j < |files| - 1 {
      var init := files[..|files| - 1];
      assert init[j] == files[j];
      forall k | j < k < |init| ensures init[k].name != init[j].name {
        assert init[k] == files[k];
      }
      RegisteredLastWins(m, init, j);
    }
  }

  /** A name no loaded module carries keeps its old entry, or its absence. */
  lemma {:induction false} RegisteredElsewhere(m: map<string, Client.Command>, files: seq<Client.Command>, n: string)
    requires forall k :: 0 <= k < |files| ==> files[k].name != n
    ensures (n in Registered(m, files) <==> n in m)
    ensures n in m ==> Registered(m, files)[n] == m[n]
    decreases |files|
  {
    if files != [] {
      var init := files[..|files| - 1];
      forall k | 0 <= k < |init| ensures init[k].name != n {
        assert init[k] == files[k];
      }
      RegisteredElsewhere(m, init, n);
    }
  }
}
