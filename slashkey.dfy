/**
 * slashCommands/key.js: the slash form of the key command. Its checks are
 * those of the prefix form, but the result of generateKey is not looked at:
 * the 100 coins are debited and the key text is sent even when the write of
 * the key failed, and a failed DM ends in the generic error reply.
 */
module SlashKey {
  import opened Wrappers
  import opened Store
  import Supabase
  import opened KeyCommand

  /**
   * The slash command as a function of the table, like `KeyCommand.Run`. The
   * key text generateKey hands back is the one it tried to store, written
   * or not.
   */
  function Run(users: map<UserId, User>, id: UserId, username: string, now: nat, f: KeyFaults,
               r1: string, r2: string, r3: string): (KeyReply, map<UserId, User>, bool)
  {
    var u0 := EnsuredCaller(users, id, username, now, f.ensureUp);
    if !(f.readUp && id in u0) then (Failed, u0, false)
    else
      var user := u0[id];
      if user.isBanned then (Banned, u0, false)
      else if HasKey(user) then (if f.dmUp then KeySent else Failed, u0, false)
      else if user.coins < KEY_COST then (TooPoor(user.coins), u0, false)
      else
        var key := Supabase.KeyFrom(r1, r2, r3);
        var u1 := if f.genUp then u0[id := user.(key := Some(key))] else u0;
        (if f.dmUp then Issued(Some(key), false) else Failed,
         if f.debitUp then Credited(u1, id, -KEY_COST) else u1,
         true)
  }

  /** execute, against the store. */
  method Execute(db: Supabase.Db, id: UserId, username: string, now: nat, f: KeyFaults,
                 r1: string, r2: string, r3: string)
    returns (reply: KeyReply)
    modifies db
    ensures var (want, after, logged) := Run(old(db.users), id, username, now, f, r1, r2, r3);
      reply == want && db.users == after &&
      db.logs == old(db.logs) + (if logged && f.logUp then [KeyEntry(id, now)] else [])
    ensures db.trusted == old(db.trusted) && db.settings == old(db.settings) && db.boostRow == old(db.boostRow)
  {
    var _ := db.EnsureUser(id, Some(username), now, f.ensureUp);
    var got := db.GetUser(id, f.readUp);
    if got.Failure? {
      // `user` is null and reading `is_banned` throws.
      return Failed;
    }
    var user := got.value;
    if user.isBanned {
      return Banned;
    }
    if HasKey(user) {
      return if f.dmUp then KeySent else Failed;
    }
    if user.coins < KEY_COST {
      return TooPoor(user.coins);
    }
    var _ := db.GenerateKey(id, r1, r2, r3, now, f.genUp);
    var key := Supabase.KeyFrom(r1, r2, r3);
    var _ := db.UpdateCoins(id, -KEY_COST, now, f.debitUp);
    var _ := db.LogAction("key_generated", id, [("cost", Supabase.Number(KEY_COST))], now, f.logUp);
    return if f.dmUp then Issued(Some(key), false) else Failed;
  }

  // ---- lemmas ----

  /** With every call succeeding, the slash and prefix forms agree. */
  lemma AgreesWithPrefix(users: map<UserId, User>, id: UserId, username: string, now: nat,
                         r1: string, r2: string, r3: string)
    ensures var f := KeyFaults(true, true, true, true, true, true);
      Run(users, id, username, now, f, r1, r2, r3) == KeyCommand.Run(users, id, username, now, f, r1, r2, r3)
  {
  }

  /**
   * A failed key write still costs 100 coins: the caller is debited and
   * keeps no key, where the prefix form would have stopped before the debit.
   */
  lemma ChargedWithoutKey(users: map<UserId, User>, id: UserId, username: string, now: nat,
                          r1: string, r2: string, r3: string)
    requires id in users && !users[id].isBanned && users[id].key.None? && users[id].coins >= KEY_COST
    ensures var f := KeyFaults(true, true, false, true, true, true);
      var (reply, after, _) := Run(users, id, username, now, f, r1, r2, r3);
      reply == Issued(Some(Supabase.KeyFrom(r1, r2, r3)), false) &&
      after[id].coins == users[id].coins - KEY_COST && after[id].key.None? &&
      KeyCommand.Run(users, id, username, now, f, r1, r2, r3) == (Failed, users, false)
  {
  }

  /** As in the prefix form, the balance moves only by one debit of 100 from at least 100. */
  lemma ChargesAtMostOnce(users: map<UserId, User>, id: UserId, username: string, now: nat, f: KeyFaults,
                          r1: string, r2: string, r3: string)
    ensures var (_, after, _) := Run(users, id, username, now, f, r1, r2, r3);
      var u0 := EnsuredCaller(users, id, username, now, f.ensureUp);
      id in u0 ==>
        id in after &&
        (after[id].coins == u0[id].coins ||
         (after[id].coins == u0[id].coins - KEY_COST && after[id].coins >= 0))
  {
  }
}
