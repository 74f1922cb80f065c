/**
 * commands/admin/massremovecoins.js: debit every user whose balance is above
 * 0 by the amount, capped at that balance, so nobody goes below zero.
 * The rows of the `coins > 0` select are given as a sequence; the caps use
 * the balances that select read.
 */
module MassRemoveCoins {
  import opened Wrappers
  import opened Store
  import Supabase
  import MassAddCoins

  /** The select lists every row with a positive balance, once, and no other. */
  predicate IsPositiveListing(users: map<UserId, User>, listed: seq<UserId>) {
    (forall j :: 0 <= j < |listed| ==> listed[j] in users && users[listed[j]].coins > 0) &&
    (forall id :: id in users && users[id].coins > 0 ==> id in listed) &&
    (forall i, j :: 0 <= i < j < |listed| ==> listed[i] != listed[j])
  }

  function Min(a: int, b: int): int { if a < b then a else b }

  function Max(a: int, b: int): int { if a < b then b else a }

  /**
   * The table after the loop over `listed`: each update whose id is not
   * failing subtracts `Math.min(amount, coins)`, with coins as `snap` read them.
   */
  function AfterRemoval(snap: map<UserId, User>, u: map<UserId, User>, listed: seq<UserId>, amount: int, now: nat,
                        failing: set<UserId>): map<UserId, User>
    decreases |listed|
  {
    if listed == [] then u
    else
      var prev := AfterRemoval(snap, u, listed[..|listed| - 1], amount, now, failing);
      var id := listed[|listed| - 1];
      if id in failing || id !in snap then prev
      else MassAddCoins.Credit(prev, id, -Min(amount, snap[id].coins), now)
  }

  /** The successful updates. */
  function Successes(listed: seq<UserId>, failing: set<UserId>): nat
    decreases |listed|
  {
    if listed == [] then 0
    else Successes(listed[..|listed| - 1], failing) + (if listed[|listed| - 1] in failing then 0 else 1)
  }

  function MassEntry(admin: UserId, amount: int, count: nat, now: nat): LogEntry {
    LogEntry("mass_remove_coins", admin,
             Supabase.DetailsText([("amount", Supabase.Number(amount)), ("users_affected", Supabase.Number(count))]), now)
  }

  /** execute, against the store; `failing` are the ids whose update fails. */
  method Execute(db: Supabase.Db, args: seq<string>, listed: seq<UserId>, admin: UserId, now: nat,
                 fetchUp: bool, failing: set<UserId>, logUp: bool)
    returns (reply: MassAddCoins.MassReply)
    requires IsPositiveListing(db.users, listed)
    modifies db
    ensures MassAddCoins.Amount(args).Failure? ==>
      reply == MassAddCoins.Amount(args).error && db.users == old(db.users) && db.logs == old(db.logs)
    ensures MassAddCoins.Amount(args).Success? && !fetchUp ==>
      reply == MassAddCoins.Failed && db.users == old(db.users) && db.logs == old(db.logs)
    ensures MassAddCoins.Amount(args).Success? && fetchUp ==>
      var amount := MassAddCoins.Amount(args).value;
      var count := Successes(listed, failing);
      reply == MassAddCoins.Done(count) &&
      db.users == AfterRemoval(old(db.users), old(db.users), listed, amount, now, failing) &&
      db.logs == old(db.logs) + (if logUp then [MassEntry(admin, amount, count, now)] else [])
    ensures db.trusted == old(db.trusted) && db.settings == old(db.settings) && db.boostRow == old(db.boostRow)
  {
    var a := MassAddCoins.Amount(args);
    if a.Failure? {
      return a.error;
    }
    if !fetchUp {
      return MassAddCoins.Failed;
    }
    var amount := a.value;
    var count := RemoveListed(db, listed, amount, now, failing);
    var _ := db.LogAction("mass_remove_coins", admin,
                          [("amount", Supabase.Number(amount)), ("users_affected", Supabase.Number(count))], now, logUp);
    return MassAddCoins.Done(count);
  }

  /** Lines 44-54: the loop over the selected rows, each debited by at most its balance as read. */
  method RemoveListed(db: Supabase.Db, listed: seq<UserId>, amount: int, now: nat, failing: set<UserId>)
    returns (count: nat)
    requires forall j :: 0 <= j < |listed| ==> listed[j] in db.users
    modifies db
    ensures db.users == AfterRemoval(old(db.users), old(db.users), listed, amount, now, failing)
    ensures count == Successes(listed, failing)
    ensures db.logs == old(db.logs) && db.trusted == old(db.trusted)
    ensures db.settings == old(db.settings) && db.boostRow == old(db.boostRow)
  {
    var snap := db.users;
    count := 0;
    var i := 0;
    while i < |listed|
      invariant 0 <= i <= |listed|
      invariant db.users == AfterRemoval(snap, snap, listed[..i], amount, now, failing)
      invariant count == Successes(listed[..i], failing)
      invariant db.logs == old(db.logs) && db.trusted == old(db.trusted)
      invariant db.settings == old(db.settings) && db.boostRow == old(db.boostRow)
    {
      var id := listed[i];
      assert listed[..i + 1][..i] == listed[..i];
      var r := db.UpdateCoins(id, -Min(amount, snap[id].coins), now, id !in failing);
      if r.Success? {
        count := count + 1;
      }
      i := i + 1;
    }
    assert listed[..|listed|] == listed;
  }

  // ---- lemmas ----

  /**
   * Each listed row whose update succeeds ends at max(0, coins - amount);
   * every other row, those at 0 or below included, is as it was.
   */
  lemma {:induction false} RemovalRow(users: map<UserId, User>, listed: seq<UserId>, amount: int, now: nat,
                                      failing: set<UserId>, id: UserId)
    requires forall j :: 0 <= j < |listed| ==> listed[j] in users
    requires forall i, j :: 0 <= i < j < |listed| ==> listed[i] != listed[j]
    requires id in users
    ensures AfterRemoval(users, users, listed, amount, now, failing).Keys == users.Keys
    ensures AfterRemoval(users, users, listed, amount, now, failing)[id] ==
      users[id].(coins := if id in listed && id !in failing then
                            users[id].coins - Min(amount, users[id].coins)
                          else users[id].coins)
    decreases |listed|
  {
    if listed == [] {
      assert users[id].(coins := users[id].coins) == users[id];
    } else {
      var init := listed[..|listed| - 1];
      var last := listed[|listed| - 1];
      forall j | 0 <= j < |init| ensures init[j] in users && init[j] != last {
        assert init[j] == listed[j];
      }
      RemovalRow(users, init, amount, now, failing, id);
      RemovalRow(users, init, amount, now, failing, last);
      assert id in listed <==> id in init || id == last;
    }
  }

  /** With a positive amount, a debited user ends at max(0, coins - amount): never below zero. */
  lemma NeverNegative(users: map<UserId, User>, listed: seq<UserId>, amount: int, now: nat, failing: set<UserId>,
                      id: UserId)
    requires IsPositiveListing(users, listed) && amount > 0
    requires id in users
    ensures var after := AfterRemoval(users, users, listed, amount, now, failing);
      id in after &&
      after[id].coins == (if users[id].coins > 0 && id !in failing then Max(0, users[id].coins - amount) else users[id].coins) &&
      (users[id].coins >= 0 ==> after[id].coins >= 0)
  {
    RemovalRow(users, listed, amount, now, failing, id);
    if users[id].coins <= 0 {
      assert id !in listed by {
        forall j | 0 <= j < |listed| ensures listed[j] != id {
        }
      }
    }
  }

  /** updatedCount counts each listed row at most once. */
  lemma {:induction false} SuccessesBound(listed: seq<UserId>, failing: set<UserId>)
    ensures Successes(listed, failing) <= |listed|
    ensures failing == {} ==> Successes(listed, failing) == |listed|
    decreases |listed|
  {
    if listed != [] {
      SuccessesBound(listed[..|listed| - 1], failing);
    }
  }
}
