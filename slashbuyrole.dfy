/**
 * slashCommands/buyrole.js: the slash form of buyrole. Its single catch holds
 * the refund, so every failure inside the try block credits 5 coins, a
 * failed lookup (whose null `user` throws on `user.coins`) included.
 */
module SlashBuyRole {
  import opened Wrappers
  import opened Store
  import Supabase
  import opened BuyRole

  function SlashDetails(roleId: string): seq<(string, Supabase.Detail)> {
    [("role_id", Supabase.Text(roleId)), ("cost", Supabase.Number(ROLE_PRICE))]
  }

  function SlashEntry(id: UserId, roleId: string, now: nat): LogEntry {
    LogEntry("role_purchased", id, Supabase.DetailsText(SlashDetails(roleId)), now)
  }

  /** The slash command as a function of the guild and the table. */
  function Run(guild: GuildView, users: map<UserId, User>, id: UserId, username: string, now: nat, f: RoleFaults): RoleOutcome {
    if !guild.inGuild then RoleOutcome(NoGuild, false, users, false)
    else if !guild.roleFound || !guild.memberFound then RoleOutcome(Missing, false, users, false)
    else
      var u0 := EnsuredBuyer(users, id, username, now, f.ensureUp);
      if !(f.readUp && id in u0) then RoleOutcome(Refunded, false, Refund(u0, id, now, f.refundUp), false)
      else if u0[id].coins < ROLE_PRICE then RoleOutcome(TooPoor, false, u0, false)
      else Purchase(u0, id, now, f)
  }

  /** execute, against the store. */
  method Execute(db: Supabase.Db, guild: GuildView, id: UserId, username: string, premiumRoleId: Option<string>,
                 now: nat, f: RoleFaults)
    returns (reply: RoleReply, granted: bool)
    modifies db
    ensures var o := Run(guild, old(db.users), id, username, now, f);
      reply == o.reply && granted == o.granted && db.users == o.users &&
      db.logs == old(db.logs) + (if o.logged && f.logUp then [SlashEntry(id, RoleId(premiumRoleId), now)] else [])
    ensures db.trusted == old(db.trusted) && db.settings == old(db.settings) && db.boostRow == old(db.boostRow)
  {
    var roleId := RoleId(premiumRoleId);
    if !guild.inGuild {
      return NoGuild, false;
    }
    if !guild.roleFound || !guild.memberFound {
      return Missing, false;
    }
    var _ := db.EnsureUser(id, Some(username), now, f.ensureUp);
    var got := db.GetUser(id, f.readUp);
    if got.Failure? {
      var _ := db.UpdateCoins(id, ROLE_PRICE, now, f.refundUp);
      return Refunded, false;
    }
    if got.value.coins < ROLE_PRICE {
      return TooPoor, false;
    }
    granted := false;
    if f.grantUp {
      granted := true;
      var _ := db.UpdateCoins(id, -ROLE_PRICE, now, f.debitUp);
      var _ := db.LogAction("role_purchased", id, SlashDetails(roleId), now, f.logUp);
      if f.confirmUp {
        return Purchased, true;
      }
    }
    var _ := db.UpdateCoins(id, ROLE_PRICE, now, f.refundUp);
    reply := Refunded;
  }

  // ---- lemmas ----

  /** Outside a guild, or with the role or the member missing, nothing changes. */
  lemma MissingContextChangesNothing(guild: GuildView, users: map<UserId, User>, id: UserId, username: string,
                                     now: nat, f: RoleFaults)
    requires !(guild.inGuild && guild.roleFound && guild.memberFound)
    ensures var o := Run(guild, users, id, username, now, f);
      o.users == users && !o.granted && !o.logged && (o.reply == NoGuild || o.reply == Missing)
  {
  }

  /**
   * A failed lookup is paid for: the refund runs although nothing was
   * debited, and it creates the row when the ensure had failed too.
   */
  lemma FailedLookupPaysOut(guild: GuildView, users: map<UserId, User>, id: UserId, username: string, now: nat)
    requires guild.inGuild && guild.roleFound && guild.memberFound
    ensures var f := RoleFaults(false, false, true, true, true, true, true);
      var o := Run(guild, users, id, username, now, f);
      var before := if id in users then users[id].coins else 0;
      o.reply == Refunded && !o.granted && id in o.users && o.users[id].coins == before + ROLE_PRICE
  {
  }

  /** Past the lookup the slash and prefix forms agree. */
  lemma AgreesPastLookup(guild: GuildView, users: map<UserId, User>, id: UserId, username: string, now: nat, f: RoleFaults)
    requires guild.inGuild && guild.roleFound && guild.memberFound
    requires f.readUp && id in EnsuredBuyer(users, id, username, now, f.ensureUp)
    ensures Run(guild, users, id, username, now, f) == BuyRole.Run(guild, users, id, username, now, f)
  {
  }
}
