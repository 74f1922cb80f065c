/**
 * commands/buykey.js: sell a key for 10 coins. Unlike the key command there
 * is no ban check and no check for a key already held: the stored key is
 * overwritten. The coins are debited after the key is written and refunded
 * when the DM fails, but the new key stays stored.
 */
module BuyKey {
  import opened Wrappers
  import opened Store
  import Supabase

  const KEY_PRICE: int := 10

  datatype BuyReply = TooPoor | Bought(key: string) | Refunded | Failed

  /**
   * Which calls succeed: the ensure, the lookup, the key write, the debit,
   * the log row, the DM (and the confirmation after it) and the refund.
   */
  datatype BuyFaults = BuyFaults(ensureUp: bool, readUp: bool, genUp: bool, debitUp: bool, logUp: bool,
                                 dmUp: bool, refundUp: bool)

  function PurchaseEntry(id: UserId, now: nat): LogEntry {
    LogEntry("key_purchased", id, Supabase.DetailsText([("cost", Supabase.Number(KEY_PRICE))]), now)
  }

  function EnsuredBuyer(users: map<UserId, User>, id: UserId, username: string, now: nat, ensureUp: bool): map<UserId, User> {
    if ensureUp then Ensured(users, id, NewUser(Some(username), now)) else users
  }

  /**
   * The debit, the DM and the refund after the key is written, from the table
   * `u1` that holds it: the reply and the table afterwards.
   */
  function Settle(u1: map<UserId, User>, id: UserId, key: string, f: BuyFaults): (BuyReply, map<UserId, User>)
    requires id in u1
  {
    var u2 := if f.debitUp then Credited(u1, id, -KEY_PRICE) else u1;
    if f.dmUp then (Bought(key), u2)
    else (Refunded, if f.refundUp then Credited(u2, id, KEY_PRICE) else u2)
  }

  /** The command as a function of the table: the reply, the table, and whether the log row is written (when `logUp`). */
  function Run(users: map<UserId, User>, id: UserId, username: string, now: nat, f: BuyFaults,
               r1: string, r2: string, r3: string): (BuyReply, map<UserId, User>, bool)
  {
    var u0 := EnsuredBuyer(users, id, username, now, f.ensureUp);
    if !(f.readUp && id in u0) then (Failed, u0, false)
    else if u0[id].coins < KEY_PRICE then (TooPoor, u0, false)
    else if !f.genUp then (Failed, u0, false)
    else
      var key := Supabase.KeyFrom(r1, r2, r3);
      var (reply, after) := Settle(u0[id := u0[id].(key := Some(key))], id, key, f);
      (reply, after, true)
  }

  /** execute, against the store. */
  method Execute(db: Supabase.Db, id: UserId, username: string, now: nat, f: BuyFaults,
                 r1: string, r2: string, r3: string)
    returns (reply: BuyReply)
    modifies db
    ensures var (want, after, logged) := Run(old(db.users), id, username, now, f, r1, r2, r3);
      reply == want && db.users == after &&
      db.logs == old(db.logs) + (if logged && f.logUp then [PurchaseEntry(id, now)] else [])
    ensures db.trusted == old(db.trusted) && db.settings == old(db.settings) && db.boostRow == old(db.boostRow)
  {
    var _ := db.EnsureUser(id, Some(username), now, f.ensureUp);
    var got := db.GetUser(id, f.readUp);
    if got.Failure? {
      return Failed;
    }
    if got.value.coins < KEY_PRICE {
      return TooPoor;
    }
    var generated := db.GenerateKey(id, r1, r2, r3, now, f.genUp);
    if generated.Failure? {
      return Failed;
    }
    reply := Deliver(db, id, generated.value, now, f);
  }

  /** The part after the key is written: debit, log, DM, and the refund of a failed DM. */
  method Deliver(db: Supabase.Db, id: UserId, key: string, now: nat, f: BuyFaults) returns (reply: BuyReply)
    requires id in db.users
    modifies db
    ensures (reply, db.users) == Settle(old(db.users), id, key, f)
    ensures db.logs == old(db.logs) + (if f.logUp then [PurchaseEntry(id, now)] else [])
    ensures db.trusted == old(db.trusted) && db.settings == old(db.settings) && db.boostRow == old(db.boostRow)
  {
    var _ := db.UpdateCoins(id, -KEY_PRICE, now, f.debitUp);
    var _ := db.LogAction("key_purchased", id, [("cost", Supabase.Number(KEY_PRICE))], now, f.logUp);
    if f.dmUp {
      return Bought(key);
    }
    var _ := db.UpdateCoins(id, KEY_PRICE, now, f.refundUp);
    return Refunded;
  }

  // ---- lemmas ----

  /**
   * Any caller with 10 coins gets a fresh key, banned or already holding one:
   * the stored key is replaced and, with every call succeeding, exactly 10
   * coins are taken.
   */
  lemma OverwritesAnyKey(users: map<UserId, User>, id: UserId, username: string, now: nat,
                         r1: string, r2: string, r3: string)
    requires id in users && users[id].coins >= KEY_PRICE
    ensures var f := BuyFaults(true, true, true, true, true, true, true);
      var key := Supabase.KeyFrom(r1, r2, r3);
      var (reply, after, logged) := Run(users, id, username, now, f, r1, r2, r3);
      reply == Bought(key) && logged &&
      after == users[id := users[id].(key := Some(key), coins := users[id].coins - KEY_PRICE)]
  {
  }

  /**
   * A refunded purchase keeps the new key; with debit and refund both
   * succeeding the balance is as before, so the key came for free.
   */
  lemma RefundKeepsKey(users: map<UserId, User>, id: UserId, username: string, now: nat, f: BuyFaults,
                       r1: string, r2: string, r3: string)
    requires !f.dmUp
    ensures var (reply, after, _) := Run(users, id, username, now, f, r1, r2, r3);
      var u0 := EnsuredBuyer(users, id, username, now, f.ensureUp);
      reply == Refunded ==>
        id in u0 && id in after &&
        after[id].key == Some(Supabase.KeyFrom(r1, r2, r3)) &&
        (f.debitUp && f.refundUp ==> after[id].coins == u0[id].coins)
  {
  }

  /** The refund does not depend on the debit: a failed debit and a refund leave the buyer 10 coins up. */
  lemma RefundWithoutDebit(users: map<UserId, User>, id: UserId, username: string, now: nat,
                           r1: string, r2: string, r3: string)
    requires id in users && users[id].coins >= KEY_PRICE
    ensures var f := BuyFaults(true, true, true, false, true, false, true);
      var (reply, after, _) := Run(users, id, username, now, f, r1, r2, r3);
      reply == Refunded && after[id].coins == users[id].coins + KEY_PRICE
  {
  }

  /** Only the buyer's row changes. */
  lemma OnlyBuyerChanges(users: map<UserId, User>, id: UserId, username: string, now: nat, f: BuyFaults,
                         r1: string, r2: string, r3: string, other: UserId)
    requires other != id
    ensures var (_, after, _) := Run(users, id, username, now, f, r1, r2, r3);
      (other in after <==> other in users) && (other in users ==> after[other] == users[other])
  {
  }
}
