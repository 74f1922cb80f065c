/**
 * commands/key.js: show the caller's key, or sell a new one for 100 coins.
 * The checks come in a fixed order (lookup, ban, existing key, balance) and
 * all of them precede any write; a new key is generated first and paid for
 * after, and a failed DM refunds nothing: the key is shown in the channel.
 */
module KeyCommand {
  import opened Wrappers
  import opened Store
  import Supabase

  const KEY_COST: int := 100

  /** What the command answers. `key` is None where the source shows `undefined`. */
  datatype KeyReply =
    | Banned
    | KeySent
    | DmFailed
    | TooPoor(coins: int)
    | Issued(key: Option<string>, inChannel: bool)
    | Failed

  /** Which calls succeed: the ensure, the lookup, the key write, the debit, the log row and the DM. */
  datatype KeyFaults = KeyFaults(ensureUp: bool, readUp: bool, genUp: bool, debitUp: bool, logUp: bool, dmUp: bool)

  /** `if (user.key)`: an empty key is falsy. */
  predicate HasKey(u: User) {
    u.key.Some? && u.key.value != ""
  }

  /** The `key_generated` log row. */
  function KeyEntry(id: UserId, now: nat): LogEntry {
    LogEntry("key_generated", id, Supabase.DetailsText([("cost", Supabase.Number(KEY_COST))]), now)
  }

  /** The table after the caller's row is ensured. */
  function EnsuredCaller(users: map<UserId, User>, id: UserId, username: string, now: nat, ensureUp: bool): map<UserId, User> {
    if ensureUp then Ensured(users, id, NewUser(Some(username), now)) else users
  }

  /**
   * The command as a function of the table: the reply, the table afterwards,
   * and whether the `key_generated` row is written (when `logUp`).
   */
  function Run(users: map<UserId, User>, id: UserId, username: string, now: nat, f: KeyFaults,
               r1: string, r2: string, r3: string): (KeyReply, map<UserId, User>, bool)
  {
    var u0 := EnsuredCaller(users, id, username, now, f.ensureUp);
    if !(f.readUp && id in u0) then (Failed, u0, false)
    else
      var user := u0[id];
      if user.isBanned then (Banned, u0, false)
      else if HasKey(user) then (if f.dmUp then KeySent else DmFailed, u0, false)
      else if user.coins < KEY_COST then (TooPoor(user.coins), u0, false)
      else if !f.genUp then (Failed, u0, false)
      else
        var key := Supabase.KeyFrom(r1, r2, r3);
        var u1 := u0[id := user.(key := Some(key))];
        (Issued(Some(key), !f.dmUp), if f.debitUp then Credited(u1, id, -KEY_COST) else u1, true)
  }

  /** execute, against the store. */
  method Execute(db: Supabase.Db, id: UserId, username: string, now: nat, f: KeyFaults,
                 r1: string, r2: string, r3: string)
    returns (reply: KeyReply)
    modifies db
    ensures var (want, after, logged) := Run(old(db.users), id, username, now, f, r1, r2, r3);
      reply == want && db.users == after &&
      db.logs == old(db.logs) + (if logged && f.logUp then [KeyEntry(id, now)] else [])
    ensures db.trusted == old(db.trusted) && db.settings == old(db.settings) && db.boostRow == old(db.boostRow)
  {
    var _ := db.EnsureUser(id, Some(username), now, f.ensureUp);
    var got := db.GetUser(id, f.readUp);
    if got.Failure? {
      return Failed;
    }
    var user := got.value;
    if user.isBanned {
      return Banned;
    }
    if HasKey(user) {
      return if f.dmUp then KeySent else DmFailed;
    }
    if user.coins < KEY_COST {
      return TooPoor(user.coins);
    }
    var generated := db.GenerateKey(id, r1, r2, r3, now, f.genUp);
    if generated.Failure? {
      return Failed;
    }
    var _ := db.UpdateCoins(id, -KEY_COST, now, f.debitUp);
    var _ := db.LogAction("key_generated", id, [("cost", Supabase.Number(KEY_COST))], now, f.logUp);
    return Issued(Some(generated.value), !f.dmUp);
  }

  // ---- lemmas ----

  /**
   * The caller's balance changes only when a new key is stored, and then by
   * exactly 100 from a balance of at least 100, so it never goes negative.
   * A failed DM still leaves the key stored and the coins spent.
   */
  lemma ChargesOnlyForNewKey(users: map<UserId, User>, id: UserId, username: string, now: nat, f: KeyFaults,
                             r1: string, r2: string, r3: string)
    ensures var (reply, after, _) := Run(users, id, username, now, f, r1, r2, r3);
      var u0 := EnsuredCaller(users, id, username, now, f.ensureUp);
      id in u0 ==>
        id in after &&
        (after[id].coins != u0[id].coins ==>
          reply.Issued? && after[id].coins == u0[id].coins - KEY_COST && after[id].coins >= 0 &&
          after[id].key == Some(Supabase.KeyFrom(r1, r2, r3)))
  {
  }

  /** Banned callers and callers who have a key leave every row as the ensure left it. */
  lemma RefusalsChangeNothing(users: map<UserId, User>, id: UserId, username: string, now: nat, f: KeyFaults,
                              r1: string, r2: string, r3: string)
    ensures var (reply, after, logged) := Run(users, id, username, now, f, r1, r2, r3);
      !reply.Issued? ==> after == EnsuredCaller(users, id, username, now, f.ensureUp) && !logged
  {
  }

  /** Nobody but the caller is touched. */
  lemma OnlyCallerChanges(users: map<UserId, User>, id: UserId, username: string, now: nat, f: KeyFaults,
                          r1: string, r2: string, r3: string, other: UserId)
    requires other != id
    ensures var (_, after, _) := Run(users, id, username, now, f, r1, r2, r3);
      (other in after <==> other in users) && (other in users ==> after[other] == users[other])
  {
  }
}
