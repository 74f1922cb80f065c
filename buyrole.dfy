/**
 * commands/buyrole.js: sell the premium role for 5 coins. The guild, the role
 * and the member are checked before anything is written; the role is granted
 * before the debit, and the inner catch credits 5 coins whatever happened
 * before the failure, so a grant that fails leaves the buyer 5 coins up.
 */
module BuyRole {
  import opened Wrappers
  import opened Store
  import Supabase

  const ROLE_PRICE: int := 5

  /** What the guild cache holds at the time of the call. */
  datatype GuildView = GuildView(inGuild: bool, roleFound: bool, memberFound: bool)

  datatype RoleReply = NoGuild | RoleMissing | MemberMissing | Missing | TooPoor | Purchased | Refunded | Failed

  /**
   * Which calls succeed: the ensure, the lookup, the role grant, the debit,
   * the log row, the confirmation message, and the refund.
   */
  datatype RoleFaults = RoleFaults(ensureUp: bool, readUp: bool, grantUp: bool, debitUp: bool, logUp: bool,
                                   confirmUp: bool, refundUp: bool)

  /** The reply, whether the role ends up granted, the table, and whether the log row is written (when `logUp`). */
  datatype RoleOutcome = RoleOutcome(reply: RoleReply, granted: bool, users: map<UserId, User>, logged: bool)

  /** `config.premiumRoleId || 'ROLE_ID_HERE'`. */
  function RoleId(premiumRoleId: Option<string>): string {
    if premiumRoleId.Some? && premiumRoleId.value != "" then premiumRoleId.value else "ROLE_ID_HERE"
  }

  function PurchaseDetails(roleId: string, roleName: string): seq<(string, Supabase.Detail)> {
    [("role_id", Supabase.Text(roleId)), ("role_name", Supabase.Text(roleName)), ("cost", Supabase.Number(ROLE_PRICE))]
  }

  function EnsuredBuyer(users: map<UserId, User>, id: UserId, username: string, now: nat, ensureUp: bool): map<UserId, User> {
    if ensureUp then Ensured(users, id, NewUser(Some(username), now)) else users
  }

  /** The compensating `updateCoins(id, 5)`: it ensures the row itself. */
  function Refund(users: map<UserId, User>, id: UserId, now: nat, refundUp: bool): map<UserId, User> {
    if refundUp then Credited(Ensured(users, id, NewUser(None, now)), id, ROLE_PRICE) else users
  }

  /**
   * The grant, the debit, the log row and the confirmation, from a table in
   * which the buyer's row exists; any failure in them ends in the refund.
   */
  function Purchase(u0: map<UserId, User>, id: UserId, now: nat, f: RoleFaults): RoleOutcome
    requires id in u0
  {
    if !f.grantUp then RoleOutcome(Refunded, false, Refund(u0, id, now, f.refundUp), false)
    else
      var u1 := if f.debitUp then Credited(u0, id, -ROLE_PRICE) else u0;
      if f.confirmUp then RoleOutcome(Purchased, true, u1, true)
      else RoleOutcome(Refunded, true, Refund(u1, id, now, f.refundUp), true)
  }

  /** The command as a function of the guild and the table. */
  function Run(guild: GuildView, users: map<UserId, User>, id: UserId, username: string, now: nat, f: RoleFaults): RoleOutcome {
    if !guild.inGuild then RoleOutcome(NoGuild, false, users, false)
    else if !guild.roleFound then RoleOutcome(RoleMissing, false, users, false)
    else if !guild.memberFound then RoleOutcome(MemberMissing, false, users, false)
    else
      var u0 := EnsuredBuyer(users, id, username, now, f.ensureUp);
      if !(f.readUp && id in u0) then RoleOutcome(Failed, false, u0, false)
      else if u0[id].coins < ROLE_PRICE then RoleOutcome(TooPoor, false, u0, false)
      else Purchase(u0, id, now, f)
  }

  function PurchaseEntry(id: UserId, roleId: string, roleName: string, now: nat): LogEntry {
    LogEntry("role_purchased", id, Supabase.DetailsText(PurchaseDetails(roleId, roleName)), now)
  }

  /** execute, against the store; `granted` reports whether `roles.add` went through. */
  method Execute(db: Supabase.Db, guild: GuildView, id: UserId, username: string, premiumRoleId: Option<string>,
                 roleName: string, now: nat, f: RoleFaults)
    returns (reply: RoleReply, granted: bool)
    modifies db
    ensures var o := Run(guild, old(db.users), id, username, now, f);
      reply == o.reply && granted == o.granted && db.users == o.users &&
      db.logs == old(db.logs) + (if o.logged && f.logUp then [PurchaseEntry(id, RoleId(premiumRoleId), roleName, now)] else [])
    ensures db.trusted == old(db.trusted) && db.settings == old(db.settings) && db.boostRow == old(db.boostRow)
  {
    var roleId := RoleId(premiumRoleId);
    if !guild.inGuild {
      return NoGuild, false;
    }
    if !guild.roleFound {
      return RoleMissing, false;
    }
    if !guild.memberFound {
      return MemberMissing, false;
    }
    var _ := db.EnsureUser(id, Some(username), now, f.ensureUp);
    var got := db.GetUser(id, f.readUp);
    if got.Failure? {
      return Failed, false;
    }
    if got.value.coins < ROLE_PRICE {
      return TooPoor, false;
    }
    reply, granted := Grant(db, id, roleId, roleName, now, f);
  }

  /** The inner try block and its catch. */
  method Grant(db: Supabase.Db, id: UserId, roleId: string, roleName: string, now: nat, f: RoleFaults)
    returns (reply: RoleReply, granted: bool)
    requires id in db.users
    modifies db
    ensures var o := Purchase(old(db.users), id, now, f);
      reply == o.reply && granted == o.granted && db.users == o.users &&
      db.logs == old(db.logs) + (if o.logged && f.logUp then [PurchaseEntry(id, roleId, roleName, now)] else [])
    ensures db.trusted == old(db.trusted) && db.settings == old(db.settings) && db.boostRow == old(db.boostRow)
  {
    if f.grantUp {
      granted := true;
      var _ := db.UpdateCoins(id, -ROLE_PRICE, now, f.debitUp);
      var _ := db.LogAction("role_purchased", id, PurchaseDetails(roleId, roleName), now, f.logUp);
      if f.confirmUp {
        return Purchased, true;
      }
    } else {
      granted := false;
    }
    var _ := db.UpdateCoins(id, ROLE_PRICE, now, f.refundUp);
    reply := Refunded;
  }

  // ---- lemmas ----

  /** No guild, no role or no member: nothing is written and nothing is granted. */
  lemma MissingContextChangesNothing(guild: GuildView, users: map<UserId, User>, id: UserId, username: string,
                                     now: nat, f: RoleFaults)
    requires !(guild.inGuild && guild.roleFound && guild.memberFound)
    ensures var o := Run(guild, users, id, username, now, f);
      o.users == users && !o.granted && !o.logged && o.reply in {NoGuild, RoleMissing, MemberMissing}
  {
  }

  /** A balance under 5, or a failed lookup, refuses with no credit or debit and no grant. */
  lemma RefusalsChangeNothing(guild: GuildView, users: map<UserId, User>, id: UserId, username: string,
                              now: nat, f: RoleFaults)
    ensures var o := Run(guild, users, id, username, now, f);
      o.reply == TooPoor || o.reply == Failed ==>
        o.users == EnsuredBuyer(users, id, username, now, f.ensureUp) && !o.granted
  {
  }

  /** A completed purchase granted the role and, when the debit went through, cost exactly 5 coins from at least 5. */
  lemma PurchaseCosts(guild: GuildView, users: map<UserId, User>, id: UserId, username: string, now: nat, f: RoleFaults)
    ensures var o := Run(guild, users, id, username, now, f);
      var u0 := EnsuredBuyer(users, id, username, now, f.ensureUp);
      o.reply == Purchased ==>
        o.granted && id in u0 && u0[id].coins >= ROLE_PRICE && id in o.users &&
        o.users[id].coins == (if f.debitUp then u0[id].coins - ROLE_PRICE else u0[id].coins)
  {
  }

  /** The refund is not matched to a debit: a failed grant leaves the buyer 5 coins richer. */
  lemma FailedGrantPaysOut(guild: GuildView, users: map<UserId, User>, id: UserId, username: string, now: nat)
    requires guild.inGuild && guild.roleFound && guild.memberFound
    requires id in users && users[id].coins >= ROLE_PRICE
    ensures var f := RoleFaults(true, true, false, true, true, true, true);
      var o := Run(guild, users, id, username, now, f);
      o.reply == Refunded && !o.granted && o.users[id].coins == users[id].coins + ROLE_PRICE
  {
  }

  /** A failed confirmation after a granted, debited role refunds the 5 coins: the role is kept for free. */
  lemma FailedConfirmationFreeRole(guild: GuildView, users: map<UserId, User>, id: UserId, username: string, now: nat)
    requires guild.inGuild && guild.roleFound && guild.memberFound
    requires id in users && users[id].coins >= ROLE_PRICE
    ensures var f := RoleFaults(true, true, true, true, true, false, true);
      var o := Run(guild, users, id, username, now, f);
      o.reply == Refunded && o.granted && o.users == users
  {
    var u1 := Credited(users, id, -ROLE_PRICE);
    Store.DebitThenRefund(users, id, ROLE_PRICE);
    assert Ensured(u1, id, NewUser(None, now)) == u1;
  }
}
