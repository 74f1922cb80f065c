/**
 * commands/admin/addcoins.js: credit a mentioned user. The argument checks
 * (two arguments, a mention, a parseInt amount above 0) are shared in shape
 * with removecoins and setcoins, which import them from here.
 */
module AddCoins {
  import opened Wrappers
  import opened Store
  import Js
  import Supabase

  /** The first user mentioned in the message: id and username. */
  datatype Mention = Mention(id: UserId, username: string)

  datatype ArgError = Usage | NoMention | BadAmount

  datatype CoinReply = Refused(error: ArgError) | Updated(balance: int) | Failed

  /** Which calls succeed: the ensure of the target, the balance write, the log row. */
  datatype CoinFaults = CoinFaults(ensureUp: bool, writeUp: bool, logUp: bool)

  /**
   * The checks in order: at least two arguments, a mention, then
   * parseInt(args[1]) that is a number and above 0, or at least 0 when
   * `allowZero` (setcoins).
   */
  function Validate(args: seq<string>, mention: Option<Mention>, allowZero: bool): Result<(Mention, int), ArgError> {
    if |args| < 2 then Failure(Usage)
    else if mention.None? then Failure(NoMention)
    else
      var n := Js.ParseInt(args[1]);
      if n.None? || n.value < 0 || (n.value == 0 && !allowZero) then Failure(BadAmount)
      else Success((mention.value, n.value))
  }

  function EnsuredTarget(users: map<UserId, User>, t: Mention, now: nat, ensureUp: bool): map<UserId, User> {
    if ensureUp then Ensured(users, t.id, NewUser(Some(t.username), now)) else users
  }

  function AdminDetails(admin: UserId, amount: int): seq<(string, Supabase.Detail)> {
    [("admin", Supabase.Text(admin)), ("amount", Supabase.Number(amount))]
  }

  function AdminEntry(action: string, subject: UserId, admin: UserId, amount: int, now: nat): LogEntry {
    LogEntry(action, subject, Supabase.DetailsText(AdminDetails(admin, amount)), now)
  }

  /**
   * `updateCoins(target, delta)` after the ensure: the reply and the table.
   * updateCoins ensures the row again, nameless, when the first ensure failed.
   */
  function Change(users: map<UserId, User>, t: Mention, delta: int, now: nat, f: CoinFaults): (CoinReply, map<UserId, User>) {
    var u0 := EnsuredTarget(users, t, now, f.ensureUp);
    if !f.writeUp then (Failed, u0)
    else
      var e := Ensured(u0, t.id, NewUser(None, now));
      (Updated(e[t.id].coins + delta), Credited(e, t.id, delta))
  }

  /** The command: the reply, the table, and the log row written when `logUp`. */
  function Run(users: map<UserId, User>, args: seq<string>, mention: Option<Mention>, admin: UserId, now: nat,
               f: CoinFaults): (CoinReply, map<UserId, User>, Option<LogEntry>)
  {
    var v := Validate(args, mention, false);
    if v.Failure? then (Refused(v.error), users, None)
    else
      var (t, amount) := v.value;
      var (reply, after) := Change(users, t, amount, now, f);
      (reply, after, if reply.Updated? then Some(AdminEntry("admin_add_coins", t.id, admin, amount, now)) else None)
  }

  /** The ensure and the update shared by addcoins and removecoins. */
  method ApplyChange(db: Supabase.Db, t: Mention, delta: int, now: nat, f: CoinFaults) returns (reply: CoinReply)
    modifies db
    ensures (reply, db.users) == Change(old(db.users), t, delta, now, f)
    ensures db.logs == old(db.logs) && db.trusted == old(db.trusted)
    ensures db.settings == old(db.settings) && db.boostRow == old(db.boostRow)
  {
    var _ := db.EnsureUser(t.id, Some(t.username), now, f.ensureUp);
    var r := db.UpdateCoins(t.id, delta, now, f.writeUp);
    if r.Failure? {
      return Failed;
    }
    return Updated(r.value);
  }

  /** execute, against the store. */
  method Execute(db: Supabase.Db, args: seq<string>, mention: Option<Mention>, admin: UserId, now: nat, f: CoinFaults)
    returns (reply: CoinReply)
    modifies db
    ensures var (want, after, entry) := Run(old(db.users), args, mention, admin, now, f);
      reply == want && db.users == after &&
      db.logs == old(db.logs) + (if entry.Some? && f.logUp then [entry.value] else [])
    ensures db.trusted == old(db.trusted) && db.settings == old(db.settings) && db.boostRow == old(db.boostRow)
  {
    var v := Validate(args, mention, false);
    if v.Failure? {
      return Refused(v.error);
    }
    var (t, amount) := v.value;
    reply := ApplyChange(db, t, amount, now, f);
    if reply.Updated? {
      var _ := db.LogAction("admin_add_coins", t.id, AdminDetails(admin, amount), now, f.logUp);
    }
  }

  // ---- lemmas ----

  /** Each refusal happens exactly when its check is the first to fail; an accepted amount is the argument's parseInt. */
  lemma ValidateSpec(args: seq<string>, mention: Option<Mention>, allowZero: bool)
    ensures var r := Validate(args, mention, allowZero);
      (r == Failure(Usage) <==> |args| < 2) &&
      (r == Failure(NoMention) <==> |args| >= 2 && mention.None?) &&
      (r.Success? <==>
        |args| >= 2 && mention.Some? && Js.ParseInt(args[1]).Some? &&
        (if allowZero then Js.ParseInt(args[1]).value >= 0 else Js.ParseInt(args[1]).value > 0)) &&
      (r.Success? ==> r.value == (mention.value, Js.ParseInt(args[1]).value))
  {
  }

  /** A written amount is accepted as written. */
  lemma ValidateAccepts(first: string, n: nat, t: Mention, allowZero: bool)
    requires n > 0 || allowZero
    ensures Validate([first, Js.DecimalString(n)], Some(t), allowZero) == Success((t, n))
  {
    Js.ParseIntDecimal(n, "");
    assert Js.DecimalString(n) + "" == Js.DecimalString(n);
    var args := [first, Js.DecimalString(n)];
    assert args[1] == Js.DecimalString(n);
  }

  /**
   * A successful addcoins raises the target's balance by exactly the amount,
   * above 0, reports that new balance, and leaves every other row alone.
   */
  lemma AddRaisesBalance(users: map<UserId, User>, args: seq<string>, mention: Option<Mention>, admin: UserId,
                         now: nat, f: CoinFaults)
    ensures var (reply, after, _) := Run(users, args, mention, admin, now, f);
      reply.Updated? ==>
        var t := mention.value;
        var before := if t.id in users then users[t.id].coins else 0;
        t.id in after && reply.balance == after[t.id].coins && after[t.id].coins > before &&
        after[t.id].coins == before + Js.ParseInt(args[1]).value &&
        forall other :: other in users && other != t.id ==> other in after && after[other] == users[other]
  {
  }
}
