/**
 * commands/admin/setcoins.js: overwrite a mentioned user's balance with an
 * amount of at least 0.
 */
module SetCoins {
  import opened Wrappers
  import opened Store
  import Js
  import Supabase
  import opened AddCoins

  /** The command: the reply, the table, and the log row written when `logUp`. */
  function Run(users: map<UserId, User>, args: seq<string>, mention: Option<Mention>, admin: UserId, now: nat,
               f: CoinFaults): (CoinReply, map<UserId, User>, Option<LogEntry>)
  {
    var v := Validate(args, mention, true);
    if v.Failure? then (Refused(v.error), users, None)
    else
      var (t, amount) := v.value;
      var u0 := EnsuredTarget(users, t, now, f.ensureUp);
      if !f.writeUp then (Failed, u0, None)
      else
        (Updated(amount), WithCoins(Ensured(u0, t.id, NewUser(None, now)), t.id, amount),
         Some(AdminEntry("admin_set_coins", t.id, admin, amount, now)))
  }

  /** execute, against the store. */
  method Execute(db: Supabase.Db, args: seq<string>, mention: Option<Mention>, admin: UserId, now: nat, f: CoinFaults)
    returns (reply: CoinReply)
    modifies db
    ensures var (want, after, entry) := Run(old(db.users), args, mention, admin, now, f);
      reply == want && db.users == after &&
      db.logs == old(db.logs) + (if entry.Some? && f.logUp then [entry.value] else [])
    ensures db.trusted == old(db.trusted) && db.settings == old(db.settings) && db.boostRow == old(db.boostRow)
  {
    var v := Validate(args, mention, true);
    if v.Failure? {
      return Refused(v.error);
    }
    var (t, amount) := v.value;
    var _ := db.EnsureUser(t.id, Some(t.username), now, f.ensureUp);
    var err := db.SetCoins(t.id, amount, now, f.writeUp);
    if err.Some? {
      return Failed;
    }
    var _ := db.LogAction("admin_set_coins", t.id, AdminDetails(admin, amount), now, f.logUp);
    return Updated(amount);
  }

  // ---- lemmas ----

  /**
   * A successful setcoins leaves the target with exactly the amount, which is
   * never negative, whatever the old balance, and touches no other row.
   */
  lemma SetsExactly(users: map<UserId, User>, args: seq<string>, mention: Option<Mention>, admin: UserId,
                    now: nat, f: CoinFaults)
    ensures var (reply, after, _) := Run(users, args, mention, admin, now, f);
      reply.Updated? ==>
        var t := mention.value;
        t.id in after && after[t.id].coins == reply.balance && reply.balance >= 0 &&
        forall other :: other in users && other != t.id ==> other in after && after[other] == users[other]
  {
  }

  /** Setting twice with the same arguments is setting once. */
  lemma Idempotent(users: map<UserId, User>, args: seq<string>, mention: Option<Mention>, admin: UserId,
                   now: nat, f: CoinFaults)
    ensures var (_, once, _) := Run(users, args, mention, admin, now, f);
      var (_, twice, _) := Run(once, args, mention, admin, now, f);
      twice == once
  {
    var v := Validate(args, mention, true);
    if v.Success? && f.writeUp {
      var (t, amount) := v.value;
      var (_, once, _) := Run(users, args, mention, admin, now, f);
      assert t.id in once;
      assert EnsuredTarget(once, t, now, f.ensureUp) == once;
      assert once[t.id].(coins := amount) == once[t.id];
    }
  }

  /** Zero is a valid setting, where addcoins and removecoins refuse it. */
  lemma ZeroAccepted(first: string, t: Mention)
    ensures Validate([first, "0"], Some(t), true) == Success((t, 0))
    ensures Validate([first, "0"], Some(t), false) == Failure(BadAmount)
  {
    AddCoins.ValidateAccepts(first, 0, t, true);
    assert Js.DecimalString(0) == "0";
  }
}
