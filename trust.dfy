/**
 * commands/admin/trust.js: `trust add|remove @user` and `trust list`, for the
 * owner only. Subcommands are matched case-sensitively and every form,
 * `list` included, needs a mention. A failed membership lookup reads as "no
 * row": `add` then tries the insert (which conflicts if the row is there)
 * and `remove` answers that the user is not trusted.
 */
module Trust {
  import opened Wrappers
  import opened Store
  import Supabase
  import AddCoins

  datatype TrustReply =
    | Denied
    | Usage
    | AlreadyTrusted
    | NotTrusted
    | DbError
    | Added
    | Removed
    | NoneTrusted
    | Listed(ids: set<UserId>)
    | BadSubcommand

  /** Which calls succeed: the membership lookup, the insert or delete (or list select), the log row. */
  datatype TrustFaults = TrustFaults(checkUp: bool, writeUp: bool, logUp: bool)

  function TrustEntry(action: string, subject: UserId, admin: UserId, now: nat): LogEntry {
    LogEntry(action, subject, Supabase.DetailsText([("admin", Supabase.Text(admin))]), now)
  }

  /** The command on the trusted table: the reply, the table afterwards, and the log row written when `logUp`. */
  function Run(trusted: map<UserId, TrustRow>, author: UserId, ownerId: string, args: seq<string>,
               mention: Option<AddCoins.Mention>, now: nat, f: TrustFaults): (TrustReply, map<UserId, TrustRow>, Option<LogEntry>)
  {
    if author != ownerId then (Denied, trusted, None)
    else if |args| == 0 || args[0] == "" || mention.None? then (Usage, trusted, None)
    else
      var t := mention.value;
      var present := t.id in trusted;
      if args[0] == "add" then
        if f.checkUp && present then (AlreadyTrusted, trusted, None)
        else if !f.writeUp || present then (DbError, trusted, None)
        else (Added, trusted[t.id := TrustRow(Some(t.username), Some(author), now)],
              Some(TrustEntry("trust_added", t.id, author, now)))
      else if args[0] == "remove" then
        if !(f.checkUp && present) then (NotTrusted, trusted, None)
        else if !f.writeUp then (DbError, trusted, None)
        else (Removed, trusted - {t.id}, Some(TrustEntry("trust_removed", t.id, author, now)))
      else if args[0] == "list" then
        if !f.writeUp then (DbError, trusted, None)
        else if trusted == map[] then (NoneTrusted, trusted, None)
        else (Listed(trusted.Keys), trusted, None)
      else (BadSubcommand, trusted, None)
  }

  /** execute, against the store. */
  method Execute(db: Supabase.Db, author: UserId, ownerId: string, args: seq<string>,
                 mention: Option<AddCoins.Mention>, now: nat, f: TrustFaults)
    returns (reply: TrustReply)
    modifies db
    ensures var (want, after, entry) := Run(old(db.trusted), author, ownerId, args, mention, now, f);
      reply == want && db.trusted == after &&
      db.logs == old(db.logs) + (if entry.Some? && f.logUp then [entry.value] else [])
    ensures db.users == old(db.users) && db.settings == old(db.settings) && db.boostRow == old(db.boostRow)
  {
    if author != ownerId {
      return Denied;
    }
    if |args| == 0 || args[0] == "" || mention.None? {
      return Usage;
    }
    var t := mention.value;
    var sub := args[0];
    if sub == "add" {
      var existing := f.checkUp && t.id in db.trusted;
      if existing {
        return AlreadyTrusted;
      }
      if !f.writeUp || t.id in db.trusted {
        return DbError;
      }
      db.trusted := db.trusted[t.id := TrustRow(Some(t.username), Some(author), now)];
      var _ := db.LogAction("trust_added", t.id, [("admin", Supabase.Text(author))], now, f.logUp);
      return Added;
    } else if sub == "remove" {
      var existing := f.checkUp && t.id in db.trusted;
      if !existing {
        return NotTrusted;
      }
      if !f.writeUp {
        return DbError;
      }
      db.trusted := db.trusted - {t.id};
      var _ := db.LogAction("trust_removed", t.id, [("admin", Supabase.Text(author))], now, f.logUp);
      return Removed;
    } else if sub == "list" {
      if !f.writeUp {
        return DbError;
      }
      if db.trusted == map[] {
        return NoneTrusted;
      }
      return Listed(db.trusted.Keys);
    }
    return BadSubcommand;
  }

  // ---- lemmas ----

  /** Nobody but the owner changes the table, and the owner changes it only by one add or one remove. */
  lemma OnlyOwnerChanges(trusted: map<UserId, TrustRow>, author: UserId, ownerId: string, args: seq<string>,
                         mention: Option<AddCoins.Mention>, now: nat, f: TrustFaults)
    ensures var (reply, after, entry) := Run(trusted, author, ownerId, args, mention, now, f);
      (author != ownerId ==> reply == Denied && after == trusted && entry.None?) &&
      (after != trusted ==> author == ownerId && (reply == Added || reply == Removed) && entry.Some?)
  {
  }

  /** `add` inserts exactly the mentioned user, recorded as added by the owner; an id already trusted is refused. */
  lemma AddSpec(trusted: map<UserId, TrustRow>, owner: UserId, first: string, t: AddCoins.Mention, now: nat, f: TrustFaults)
    requires f.checkUp && f.writeUp
    ensures var (reply, after, _) := Run(trusted, owner, owner, ["add", first], Some(t), now, f);
      (t.id in trusted ==> reply == AlreadyTrusted && after == trusted) &&
      (t.id !in trusted ==>
        reply == Added && after.Keys == trusted.Keys + {t.id} &&
        after[t.id] == TrustRow(Some(t.username), Some(owner), now) &&
        forall other :: other in trusted ==> after[other] == trusted[other])
  {
  }

  /** `remove` deletes exactly the mentioned user; an id not trusted is refused. */
  lemma RemoveSpec(trusted: map<UserId, TrustRow>, owner: UserId, first: string, t: AddCoins.Mention, now: nat, f: TrustFaults)
    requires f.checkUp && f.writeUp
    ensures var (reply, after, _) := Run(trusted, owner, owner, ["remove", first], Some(t), now, f);
      (t.id !in trusted ==> reply == NotTrusted && after == trusted) &&
      (t.id in trusted ==>
        reply == Removed && after.Keys == trusted.Keys - {t.id} &&
        forall other :: other in trusted && other != t.id ==> after[other] == trusted[other])
  {
  }

  /** Adding a user and then removing them restores the table. */
  lemma RemoveUndoesAdd(trusted: map<UserId, TrustRow>, owner: UserId, first: string, t: AddCoins.Mention, now: nat, f: TrustFaults)
    requires f.checkUp && f.writeUp && t.id !in trusted
    ensures var (_, mid, _) := Run(trusted, owner, owner, ["add", first], Some(t), now, f);
      var (reply, after, _) := Run(mid, owner, owner, ["remove", first], Some(t), now, f);
      reply == Removed && after == trusted
  {
    var (_, mid, _) := Run(trusted, owner, owner, ["add", first], Some(t), now, f);
    assert mid - {t.id} == trusted;
  }

  /** `list` needs a mention like the others, and subcommands are case-sensitive. */
  lemma ListNeedsMention(trusted: map<UserId, TrustRow>, owner: UserId, t: AddCoins.Mention, now: nat, f: TrustFaults)
    ensures Run(trusted, owner, owner, ["list"], None, now, f).0 == Usage
    ensures Run(trusted, owner, owner, ["Add"], Some(t), now, f).0 == BadSubcommand
    ensures f.writeUp && trusted != map[] ==> Run(trusted, owner, owner, ["list"], Some(t), now, f).0 == Listed(trusted.Keys)
  {
  }
}
