/**
 * The Discord client object as the bot extends it in index.js: the store it
 * talks to, the shared config.json object, the boost cache, the two command
 * collections, and the boost-expiry callbacks still waiting to fire.
 */
module Client {
  import opened Wrappers
  import Boost
  import Store
  import Supabase

  /** The fields of config.json the core reads or writes; None is an unset field. */
  datatype Config = Config(
    prefix: string,
    ownerId: string,
    messageReward: Option<int>,
    messageRewardCooldown: Option<int>,
    dailyReward: Option<int>,
    messageCooldown: Option<int>,
    coinsPerMessages: Option<int>)

  /** A loaded command module: its `name`, its `cooldown` in seconds (0 when unset) and `ownerOnly`. */
  datatype Command = Command(name: string, cooldown: nat, ownerOnly: bool)

  /** A pending boost-expiry callback: when it fires and the multiplier it reports. */
  datatype Timer = Timer(dueAt: nat, multiplier: int)

  /**
   * Everything a command's `execute` can read or write: the store's tables,
   * the config object, the boost cache and the pending boost callbacks.
   */
  datatype State = State(
    users: map<Store.UserId, Store.User>,
    trusted: map<Store.UserId, Store.TrustRow>,
    settings: map<string, Store.Setting>,
    boostRow: Option<Boost.BoostState>,
    logs: seq<Store.LogEntry>,
    config: Config,
    boost: Boost.BoostState,
    timers: seq<Timer>)

  class Bot {
    const db: Supabase.Db
    var config: Config
    var boost: Boost.BoostState
    var commands: map<string, Command>
    var adminCommands: map<string, Command>
    var timers: seq<Timer>

    /** index.js: empty collections and the default boost cache. */
    constructor(db: Supabase.Db, config: Config)
      ensures this.db == db && this.config == config
      ensures boost == Boost.Default && commands == map[] && adminCommands == map[] && timers == []
    {
      this.db := db;
      this.config := config;
      boost := Boost.Default;
      commands := map[];
      adminCommands := map[];
      timers := [];
    }

    /** The client and its store as one value. */
    function Snapshot(): State
      reads this, db
    {
      State(db.users, db.trusted, db.settings, db.boostRow, db.logs, config, boost, timers)
    }
  }
}
