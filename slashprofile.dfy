/**
 * slashCommands/profile.js: the same card with the same bucketing. The read's
 * error is not looked at; a missing row is the error path.
 */
module SlashProfile {
  import opened Wrappers
  import opened Store
  import Supabase
  import Profile

  /** execute: ensure, then read; the card, or None for the error reply. */
  method Execute(db: Supabase.Db, target: UserId, username: Option<string>, now: nat, ensureUp: bool, readUp: bool)
    returns (r: Option<Profile.Card>)
    modifies db
    ensures db.users == (if ensureUp then Ensured(old(db.users), target, NewUser(username, now)) else old(db.users))
    ensures r == (if readUp && target in db.users then Some(Profile.CardOf(db.users[target], now)) else None)
    ensures db.trusted == old(db.trusted) && db.settings == old(db.settings)
    ensures db.boostRow == old(db.boostRow) && db.logs == old(db.logs)
  {
    var _ := db.EnsureUser(target, username, now, ensureUp);
    var got := db.GetUser(target, readUp);
    if got.Failure? {
      return None;
    }
    return Some(Profile.CardOf(got.value, now));
  }

  /** With the store up, the target ensured and read back gets a card, a new one with coins 0 and 0 messages. */
  lemma NewUserCard(users: map<UserId, User>, target: UserId, username: Option<string>, now: nat)
    requires target !in users
    ensures var u := Ensured(users, target, NewUser(username, now))[target];
      Profile.CardOf(u, now) == Profile.Card(0, 0, false, "0 minutes")
  {
    assert Profile.Distance(now, now) == 0;
    assert Profile.Bucket(0) == Profile.Span(0, "minute");
  }
}
