/**
 * commands/admin/removecoins.js: debit a mentioned user by a positive amount,
 * with no floor: the balance may go below zero.
 */
module RemoveCoins {
  import opened Wrappers
  import opened Store
  import Js
  import Supabase
  import opened AddCoins

  /** The command: the reply, the table, and the log row written when `logUp`. */
  function Run(users: map<UserId, User>, args: seq<string>, mention: Option<Mention>, admin: UserId, now: nat,
               f: CoinFaults): (CoinReply, map<UserId, User>, Option<LogEntry>)
  {
    var v := Validate(args, mention, false);
    if v.Failure? then (Refused(v.error), users, None)
    else
      var (t, amount) := v.value;
      var (reply, after) := Change(users, t, -amount, now, f);
      (reply, after, if reply.Updated? then Some(AdminEntry("admin_remove_coins", t.id, admin, amount, now)) else None)
  }

  /** execute, against the store. */
  method Execute(db: Supabase.Db, args: seq<string>, mention: Option<Mention>, admin: UserId, now: nat, f: CoinFaults)
    returns (reply: CoinReply)
    modifies db
    ensures var (want, after, entry) := Run(old(db.users), args, mention, admin, now, f);
      reply == want && db.users == after &&
      db.logs == old(db.logs) + (if entry.Some? && f.logUp then [entry.value] else [])
    ensures db.trusted == old(db.trusted) && db.settings == old(db.settings) && db.boostRow == old(db.boostRow)
  {
    var v := Validate(args, mention, false);
    if v.Failure? {
      return Refused(v.error);
    }
    var (t, amount) := v.value;
    reply := ApplyChange(db, t, -amount, now, f);
    if reply.Updated? {
      var _ := db.LogAction("admin_remove_coins", t.id, AdminDetails(admin, amount), now, f.logUp);
    }
  }

  // ---- lemmas ----

  /** Removing more than the balance leaves it negative: nothing clamps at zero. */
  lemma GoesNegative(users: map<UserId, User>, t: Mention, n: nat, admin: UserId, now: nat)
    requires t.id in users && n > 0 && n > users[t.id].coins
    ensures var (reply, after, _) := Run(users, ["@" + t.username, Js.DecimalString(n)], Some(t), admin, now,
                                         CoinFaults(true, true, true));
      reply == Updated(users[t.id].coins - n) && after[t.id].coins < 0
  {
    AddCoins.ValidateAccepts("@" + t.username, n, t, false);
  }

  /** removecoins undoes addcoins: the same arguments, applied one after the other, restore the table. */
  lemma UndoesAdd(users: map<UserId, User>, args: seq<string>, t: Mention, admin: UserId, now: nat)
    requires t.id in users
    ensures var f := CoinFaults(true, true, true);
      var (r1, mid, _) := AddCoins.Run(users, args, Some(t), admin, now, f);
      var (r2, after, _) := Run(mid, args, Some(t), admin, now, f);
      r1.Updated? <==> r2.Updated?
    ensures var f := CoinFaults(true, true, true);
      var (r1, mid, _) := AddCoins.Run(users, args, Some(t), admin, now, f);
      var (_, after, _) := Run(mid, args, Some(t), admin, now, f);
      after == users
  {
    var f := CoinFaults(true, true, true);
    var v := Validate(args, Some(t), false);
    if v.Success? {
      var amount := v.value.1;
      assert Ensured(users, t.id, NewUser(Some(t.username), now)) == users;
      Store.CreditedAdditive(users, t.id, amount, -amount);
      assert users[t.id].(coins := users[t.id].coins) == users[t.id];
    }
  }
}
