/**
 * slashCommands/buykey.js: the slash form of buykey. A failed lookup leaves
 * `user` null and the read of its coins throws; the result of generateKey is
 * not looked at, so the debit, the log row and the DM follow a failed key
 * write as well.
 */
module SlashBuyKey {
  import opened Wrappers
  import opened Store
  import Supabase
  import opened BuyKey

  /** The slash command as a function of the table, like `BuyKey.Run`. */
  function Run(users: map<UserId, User>, id: UserId, username: string, now: nat, f: BuyFaults,
               r1: string, r2: string, r3: string): (BuyReply, map<UserId, User>, bool)
  {
    var u0 := EnsuredBuyer(users, id, username, now, f.ensureUp);
    if !(f.readUp && id in u0) then (Failed, u0, false)
    else if u0[id].coins < KEY_PRICE then (TooPoor, u0, false)
    else
      var key := Supabase.KeyFrom(r1, r2, r3);
      var u1 := if f.genUp then u0[id := u0[id].(key := Some(key))] else u0;
      var (reply, after) := Settle(u1, id, key, f);
      (reply, after, true)
  }

  /** execute, against the store. */
  method Execute(db: Supabase.Db, id: UserId, username: string, now: nat, f: BuyFaults,
                 r1: string, r2: string, r3: string)
    returns (reply: BuyReply)
    modifies db
    ensures var (want, after, logged) := Run(old(db.users), id, username, now, f, r1, r2, r3);
      reply == want && db.users == after &&
      db.logs == old(db.logs) + (if logged && f.logUp then [PurchaseEntry(id, now)] else [])
    ensures db.trusted == old(db.trusted) && db.settings == old(db.settings) && db.boostRow == old(db.boostRow)
  {
    var _ := db.EnsureUser(id, Some(username), now, f.ensureUp);
    var got := db.GetUser(id, f.readUp);
    if got.Failure? {
      return Failed;
    }
    if got.value.coins < KEY_PRICE {
      return TooPoor;
    }
    var _ := db.GenerateKey(id, r1, r2, r3, now, f.genUp);
    reply := Deliver(db, id, Supabase.KeyFrom(r1, r2, r3), now, f);
  }

  // ---- lemmas ----

  /** With the key write succeeding, the slash and prefix forms agree. */
  lemma AgreesWhenKeyStored(users: map<UserId, User>, id: UserId, username: string, now: nat, f: BuyFaults,
                            r1: string, r2: string, r3: string)
    requires f.genUp
    ensures Run(users, id, username, now, f, r1, r2, r3) == BuyKey.Run(users, id, username, now, f, r1, r2, r3)
  {
  }

  /** A failed key write is still sold: the buyer pays 10 coins and is told of a key nobody stored. */
  lemma SoldWithoutKey(users: map<UserId, User>, id: UserId, username: string, now: nat,
                       r1: string, r2: string, r3: string)
    requires id in users && users[id].coins >= KEY_PRICE
    ensures var f := BuyFaults(true, true, false, true, true, true, true);
      var (reply, after, _) := Run(users, id, username, now, f, r1, r2, r3);
      reply == Bought(Supabase.KeyFrom(r1, r2, r3)) &&
      after[id].key == users[id].key && after[id].coins == users[id].coins - KEY_PRICE
  {
  }
}
