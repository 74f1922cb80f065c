/**
 * handlers/databaseHandler.js: a second, thinner client of the same `users`
 * and `trusted_users` tables. Its lookups turn errors into null, and callers
 * that dereference that null throw, which `Threw` stands for.
 */
module DatabaseHandler {
  import opened Wrappers
  import opened Store
  import Supabase

  const DAY_MS: nat := 86400000

  /** A boolean answer, or the TypeError of reading a field of a null user. */
  datatype Outcome = Done(ok: bool) | Threw

  /** The row this module's createUser inserts: it also sets messages_count to 0. */
  function HandlerNewUser(username: Option<string>, now: nat): User {
    User(username, 0, now, None, None, false, None, Some(0))
  }

  /** canClaimDaily: no user or no last claim, or at least 24 hours since it. */
  predicate Claimable(user: Option<User>, now: nat) {
    user.None? || user.value.lastDaily.None? || now - user.value.lastDaily.value >= DAY_MS
  }

  /** The page `range(offset, offset + limit - 1)` of an ordered result. */
  function Window<T>(rows: seq<T>, offset: nat, limit: nat): (r: seq<T>)
    ensures |r| <= limit
    ensures offset + |r| <= |rows| || r == []
    ensures forall i :: 0 <= i < |r| ==> offset + i < |rows| && r[i] == rows[offset + i]
    ensures offset + limit <= |rows| ==> |r| == limit
    ensures offset < |rows| && |rows| < offset + limit ==> |r| == |rows| - offset
  {
    if offset >= |rows| then []
    else if offset + limit <= |rows| then rows[offset..offset + limit]
    else rows[offset..]
  }

  /** getUser: the row, or null for a missing row and for any other error alike. */
  method GetUser(db: Supabase.Db, id: UserId, up: bool) returns (u: Option<User>)
    ensures u.Some? <==> up && id in db.users
    ensures u.Some? ==> u.value == db.users[id]
  {
    var got := db.GetUser(id, up);
    if got.Failure? {
      return None;
    }
    return Some(got.value);
  }

  /** createUser: insert the new row, or null on any error such as an existing id. */
  method CreateUser(db: Supabase.Db, id: UserId, username: Option<string>, now: nat, up: bool) returns (u: Option<User>)
    modifies db
    ensures u.Some? <==> up && id !in old(db.users)
    ensures u.Some? ==> u.value == HandlerNewUser(username, now) && db.users == old(db.users)[id := u.value]
    ensures u.None? ==> db.users == old(db.users)
    ensures db.trusted == old(db.trusted) && db.settings == old(db.settings) && db.boostRow == old(db.boostRow)
    ensures db.logs == old(db.logs)
  {
    if !up || id in db.users {
      return None;
    }
    var created := HandlerNewUser(username, now);
    db.users := db.users[id := created];
    return Some(created);
  }

  /** getOrCreateUser: the existing row, or else the created one, or null when both fail. */
  method GetOrCreateUser(db: Supabase.Db, id: UserId, username: Option<string>, now: nat, up: bool) returns (u: Option<User>)
    modifies db
    ensures up ==> db.users == Ensured(old(db.users), id, HandlerNewUser(username, now)) && u == Some(db.users[id])
    ensures !up ==> u.None? && db.users == old(db.users)
    ensures db.trusted == old(db.trusted) && db.settings == old(db.settings) && db.boostRow == old(db.boostRow)
    ensures db.logs == old(db.logs)
  {
    u := GetUser(db, id, up);
    if u.None? {
      u := CreateUser(db, id, username, now, up);
    }
  }

  /**
   * addCoins: get or create the user, then write `user.coins + amount`
   * (`writeUp` covers that write). A null user makes it throw.
   */
  method AddCoins(db: Supabase.Db, id: UserId, username: Option<string>, amount: int, now: nat, up: bool, writeUp: bool)
    returns (r: Outcome)
    modifies db
    ensures !up ==> r == Threw && db.users == old(db.users)
    ensures up ==>
      var e := Ensured(old(db.users), id, HandlerNewUser(username, now));
      id in e && r == Done(writeUp) && db.users == (if writeUp then Credited(e, id, amount) else e)
    ensures db.trusted == old(db.trusted) && db.settings == old(db.settings) && db.boostRow == old(db.boostRow)
    ensures db.logs == old(db.logs)
  {
    var user := GetOrCreateUser(db, id, username, now, up);
    if user.None? {
      return Threw;
    }
    if !writeUp {
      return Done(false);
    }
    db.users := WithCoins(db.users, id, user.value.coins + amount);
    return Done(true);
  }

  /** setCoins: get or create the user (its failure is ignored), then overwrite the balance. */
  method SetCoins(db: Supabase.Db, id: UserId, username: Option<string>, amount: int, now: nat, up: bool, writeUp: bool)
    returns (ok: bool)
    modifies db
    ensures ok == writeUp
    ensures var e := if up then Ensured(old(db.users), id, HandlerNewUser(username, now)) else old(db.users);
      db.users == (if writeUp && id in e then WithCoins(e, id, amount) else e)
    ensures db.trusted == old(db.trusted) && db.settings == old(db.settings) && db.boostRow == old(db.boostRow)
    ensures db.logs == old(db.logs)
  {
    var _ := GetOrCreateUser(db, id, username, now, up);
    if !writeUp {
      return false;
    }
    if id in db.users {
      db.users := WithCoins(db.users, id, amount);
    }
    return true;
  }

  /** addTrustedUser: insert a trust row; an id already there is an error. */
  method AddTrustedUser(db: Supabase.Db, id: UserId, username: Option<string>, now: nat, up: bool) returns (ok: bool)
    modifies db
    ensures ok <==> up && id !in old(db.trusted)
    ensures db.trusted == (if ok then old(db.trusted)[id := TrustRow(username, None, now)] else old(db.trusted))
    ensures db.users == old(db.users) && db.settings == old(db.settings) && db.boostRow == old(db.boostRow)
    ensures db.logs == old(db.logs)
  {
    if !up || id in db.trusted {
      return false;
    }
    db.trusted := db.trusted[id := TrustRow(username, None, now)];
    return true;
  }

  /** removeTrustedUser: delete the trust row; deleting an absent id is no error. */
  method RemoveTrustedUser(db: Supabase.Db, id: UserId, up: bool) returns (ok: bool)
    modifies db
    ensures ok == up
    ensures db.trusted == (if up then old(db.trusted) - {id} else old(db.trusted))
    ensures db.users == old(db.users) && db.settings == old(db.settings) && db.boostRow == old(db.boostRow)
    ensures db.logs == old(db.logs)
  {
    if !up {
      return false;
    }
    db.trusted := db.trusted - {id};
    return true;
  }

  /**
   * claimDaily: no cooldown check of its own; one update writes both
   * `coins + amount` and last_daily. A null user makes it throw.
   */
  method ClaimDaily(db: Supabase.Db, id: UserId, username: Option<string>, amount: int, now: nat, up: bool, writeUp: bool)
    returns (r: Outcome)
    modifies db
    ensures !up ==> r == Threw && db.users == old(db.users)
    ensures up ==>
      var e := Ensured(old(db.users), id, HandlerNewUser(username, now));
      id in e && r == Done(writeUp) &&
      db.users == (if writeUp then e[id := e[id].(coins := e[id].coins + amount, lastDaily := Some(now))] else e)
    ensures db.trusted == old(db.trusted) && db.settings == old(db.settings) && db.boostRow == old(db.boostRow)
    ensures db.logs == old(db.logs)
  {
    var user := GetOrCreateUser(db, id, username, now, up);
    if user.None? {
      return Threw;
    }
    if !writeUp {
      return Done(false);
    }
    db.users := db.users[id := db.users[id].(coins := user.value.coins + amount, lastDaily := Some(now))];
    return Done(true);
  }

  /** canClaimDaily: a failed lookup reads as "no user", so it allows the claim. */
  method CanClaimDaily(db: Supabase.Db, id: UserId, now: nat, up: bool) returns (b: bool)
    ensures b <==> !up || id !in db.users || db.users[id].lastDaily.None? || now - db.users[id].lastDaily.value >= DAY_MS
  {
    var user := GetUser(db, id, up);
    b := Claimable(user, now);
  }

  /** getLeaderboard: the ranks offset+1 .. offset+limit by balance, or [] on error. */
  method GetLeaderboard(db: Supabase.Db, limit: nat, offset: nat, up: bool) returns (page: seq<UserId>)
    ensures !up ==> page == []
    ensures up ==> exists rows :: Supabase.IsRanking(db.users, rows) && page == Window(rows, offset, limit)
  {
    if !up {
      return [];
    }
    var rows := db.Ranked();
    page := Window(rows, offset, limit);
  }

  // ---- lemmas ----

  /**
   * The two daily tests agree: canClaimDaily of a user's row holds exactly
   * when supabase.js's claimDaily would not refuse it.
   */
  lemma ClaimableAgrees(u: User, now: nat)
    ensures Claimable(Some(u), now) <==> Supabase.DailyCooldown(u.lastDaily, now).None?
  {
  }

  /** The 24-hour boundary itself is claimable; one millisecond before it is not. */
  lemma ClaimableBoundary(u: User, now: nat)
    requires u.lastDaily.Some? && now == u.lastDaily.value + DAY_MS
    ensures Claimable(Some(u), now) && !Claimable(Some(u), now - 1)
  {
  }
}
