/**
 * commands/admin/clearcoins.js: ask for confirmation, then set every balance
 * to 0. A message collector takes at most one message, from the invoker,
 * whose lower-cased content is exactly 'yes' or 'no', within 30 seconds;
 * 'yes' clears, 'no' cancels, and an empty collection at the end is a timeout.
 */
module ClearCoins {
  import opened Wrappers
  import opened Store
  import Js
  import Supabase
  import MassAddCoins

  const CONFIRM_MS: nat := 30000

  /** A message posted in the channel while the collector runs. */
  datatype Reply = Reply(authorId: UserId, content: string)

  datatype ClearOutcome = Cleared(updatedCount: nat) | Cancelled | TimedOut | Failed

  /** The collector's filter. */
  predicate Accepts(invoker: UserId, m: Reply) {
    m.authorId == invoker && (Js.Lower(m.content) == "yes" || Js.Lower(m.content) == "no")
  }

  /** The message collector: `{ filter, time: 30000, max: 1 }`. */
  class Collector {
    const invoker: UserId
    const startedAt: nat
    var collected: seq<Reply>
    var ended: bool

    /** At most one message, an accepted one, and collecting ends with it. */
    predicate Valid()
      reads this
    {
      |collected| <= 1 &&
      (|collected| == 1 ==> ended && Accepts(invoker, collected[0]))
    }

    constructor(invoker: UserId, startedAt: nat)
      ensures this.invoker == invoker && this.startedAt == startedAt
      ensures collected == [] && !ended
      ensures Valid()
    {
      this.invoker := invoker;
      this.startedAt := startedAt;
      collected := [];
      ended := false;
    }

    /**
     * A channel message at time `at`: taken, and collecting ended, when the
     * collector is still open, the 30 seconds have not run out and the filter
     * accepts it; ignored otherwise. Returns whether it was taken, which is
     * when the 'collect' handler runs.
     */
    method Offer(m: Reply, at: nat) returns (taken: bool)
      requires Valid()
      modifies this
      ensures Valid()
      ensures taken <==> !old(ended) && at < startedAt + CONFIRM_MS && Accepts(invoker, m)
      ensures taken ==> collected == [m] && ended
      ensures !taken ==> collected == old(collected) && ended == old(ended)
    {
      taken := !ended && at < startedAt + CONFIRM_MS && Accepts(invoker, m);
      if taken {
        collected := [m];
        ended := true;
      }
    }

    /**
     * The time limit at `at`: an open collector past 30 seconds ends. Returns
     * whether the 'end' handler reports a timeout, that is, ends with nothing.
     */
    method Tick(at: nat) returns (timedOut: bool)
      requires Valid()
      modifies this
      ensures Valid()
      ensures timedOut <==> !old(ended) && at >= startedAt + CONFIRM_MS
      ensures timedOut ==> collected == [] && ended
      ensures !timedOut ==> ended == old(ended)
      ensures collected == old(collected)
    {
      timedOut := !ended && at >= startedAt + CONFIRM_MS;
      if timedOut {
        ended := true;
      }
    }
  }

  /** The table after `setCoins(id, 0)` for each listed id whose call succeeds. */
  function ClearedTable(users: map<UserId, User>, listed: seq<UserId>, now: nat, failing: set<UserId>): map<UserId, User>
    decreases |listed|
  {
    if listed == [] then users
    else
      var u := ClearedTable(users, listed[..|listed| - 1], now, failing);
      var id := listed[|listed| - 1];
      if id in failing then u else WithCoins(Ensured(u, id, NewUser(None, now)), id, 0)
  }

  /** The successful setCoins calls. */
  function Successes(listed: seq<UserId>, failing: set<UserId>): nat
    decreases |listed|
  {
    if listed == [] then 0
    else Successes(listed[..|listed| - 1], failing) + (if listed[|listed| - 1] in failing then 0 else 1)
  }

  function ClearEntry(admin: UserId, count: nat, now: nat): LogEntry {
    LogEntry("clear_all_coins", admin, Supabase.DetailsText([("users_affected", Supabase.Number(count))]), now)
  }

  /**
   * The 'collect' handler for the taken message. 'yes' clears every listed
   * row; a failed select throws inside the handler, out of reach of the
   * command's catch, and nothing is written. Anything else cancels.
   */
  method OnCollect(db: Supabase.Db, m: Reply, listed: seq<UserId>, admin: UserId, now: nat,
                   fetchUp: bool, failing: set<UserId>, logUp: bool)
    returns (outcome: ClearOutcome)
    modifies db
    ensures Js.Lower(m.content) != "yes" ==> outcome == Cancelled && db.users == old(db.users) && db.logs == old(db.logs)
    ensures Js.Lower(m.content) == "yes" && !fetchUp ==> outcome == Failed && db.users == old(db.users) && db.logs == old(db.logs)
    ensures Js.Lower(m.content) == "yes" && fetchUp ==>
      var count := Successes(listed, failing);
      outcome == Cleared(count) && db.users == ClearedTable(old(db.users), listed, now, failing) &&
      db.logs == old(db.logs) + (if logUp then [ClearEntry(admin, count, now)] else [])
    ensures db.trusted == old(db.trusted) && db.settings == old(db.settings) && db.boostRow == old(db.boostRow)
  {
    if Js.Lower(m.content) != "yes" {
      return Cancelled;
    }
    if !fetchUp {
      return Failed;
    }
    var count: nat := 0;
    var i := 0;
    while i < |listed|
      invariant 0 <= i <= |listed|
      invariant db.users == ClearedTable(old(db.users), listed[..i], now, failing)
      invariant count == Successes(listed[..i], failing)
      invariant db.logs == old(db.logs) && db.trusted == old(db.trusted)
      invariant db.settings == old(db.settings) && db.boostRow == old(db.boostRow)
    {
      var id := listed[i];
      assert listed[..i + 1][..i] == listed[..i];
      var err := db.SetCoins(id, 0, now, id !in failing);
      if err.None? {
        count := count + 1;
      }
      i := i + 1;
    }
    assert listed[..|listed|] == listed;
    var _ := db.LogAction("clear_all_coins", admin, [("users_affected", Supabase.Number(count))], now, logUp);
    return Cleared(count);
  }

  /**
   * A channel message reaching the collector at time `at` (lines 21-26): the
   * 'collect' handler runs, with the invoker as the logged admin, exactly
   * when the collector takes the message; an ignored message changes no
   * table. So only the invoker's 'yes', within 30 seconds and before any
   * other reply was taken, clears the balances.
   */
  method Respond(c: Collector, db: Supabase.Db, m: Reply, at: nat, listed: seq<UserId>, now: nat,
                 fetchUp: bool, failing: set<UserId>, logUp: bool)
    returns (outcome: Option<ClearOutcome>)
    requires c.Valid()
    modifies c, db
    ensures c.Valid()
    ensures outcome.Some? <==> !old(c.ended) && at < c.startedAt + CONFIRM_MS && Accepts(c.invoker, m)
    ensures outcome.None? ==>
      c.collected == old(c.collected) && c.ended == old(c.ended) && db.users == old(db.users) && db.logs == old(db.logs)
    ensures outcome.Some? ==> c.collected == [m] && c.ended
    ensures outcome.Some? && Js.Lower(m.content) == "no" ==>
      outcome.value == Cancelled && db.users == old(db.users) && db.logs == old(db.logs)
    ensures outcome.Some? && Js.Lower(m.content) == "yes" && !fetchUp ==>
      outcome.value == Failed && db.users == old(db.users) && db.logs == old(db.logs)
    ensures outcome.Some? && Js.Lower(m.content) == "yes" && fetchUp ==>
      var count := Successes(listed, failing);
      outcome.value == Cleared(count) && db.users == ClearedTable(old(db.users), listed, now, failing) &&
      db.logs == old(db.logs) + (if logUp then [ClearEntry(c.invoker, count, now)] else [])
    ensures db.trusted == old(db.trusted) && db.settings == old(db.settings) && db.boostRow == old(db.boostRow)
  {
    var taken := c.Offer(m, at);
    if !taken {
      return None;
    }
    var o := OnCollect(db, m, listed, c.invoker, now, fetchUp, failing, logUp);
    return Some(o);
  }

  // ---- lemmas ----

  /** The filter ignores case but nothing else: no trimming, no other words, no other author. */
  lemma FilterFacts(invoker: UserId, other: UserId)
    requires other != invoker
    ensures Accepts(invoker, Reply(invoker, "YES")) && Accepts(invoker, Reply(invoker, "No"))
    ensures !Accepts(invoker, Reply(invoker, "yes ")) && !Accepts(invoker, Reply(invoker, "y"))
    ensures !Accepts(invoker, Reply(other, "yes"))
  {
    assert Js.Lower("YES") == "yes";
    assert Js.Lower("No") == "no";
    assert |Js.Lower("yes ")| == 4;
    assert |Js.Lower("y")| == 1;
  }

  /**
   * After a full clear every listed row whose call succeeded holds 0 coins,
   * every other row is as it was, and no row is added.
   */
  lemma {:induction false} ClearedRow(users: map<UserId, User>, listed: seq<UserId>, now: nat, failing: set<UserId>,
                                      id: UserId)
    requires forall j :: 0 <= j < |listed| ==> listed[j] in users
    requires id in users
    ensures id in ClearedTable(users, listed, now, failing)
    ensures ClearedTable(users, listed, now, failing)[id] ==
      (if id in listed && id !in failing then users[id].(coins := 0) else users[id])
    decreases |listed|
  {
    if listed != [] {
      var init := listed[..|listed| - 1];
      forall j | 0 <= j < |init| ensures init[j] in users {
        assert init[j] == listed[j];
      }
      ClearedRow(users, init, now, failing, id);
      ClearedRow(users, init, now, failing, listed[|listed| - 1]);
      assert id in listed <==> id in init || id == listed[|listed| - 1];
    }
  }

  /** The clear adds no row and removes none. */
  lemma {:induction false} ClearedKeys(users: map<UserId, User>, listed: seq<UserId>, now: nat, failing: set<UserId>)
    requires forall j :: 0 <= j < |listed| ==> listed[j] in users
    ensures ClearedTable(users, listed, now, failing).Keys == users.Keys
    decreases |listed|
  {
    if listed != [] {
      var init := listed[..|listed| - 1];
      forall j | 0 <= j < |init| ensures init[j] in users {
        assert init[j] == listed[j];
      }
      ClearedKeys(users, init, now, failing);
    }
  }

  /** With no failing call, every balance is 0 and the count is the number of rows. */
  lemma ClearsEverything(users: map<UserId, User>, listed: seq<UserId>, now: nat)
    requires MassAddCoins.IsListing(users, listed)
    ensures var after := ClearedTable(users, listed, now, {});
      after.Keys == users.Keys && (forall id :: id in after ==> after[id].coins == 0)
    ensures Successes(listed, {}) == |listed| == |users|
  {
    ClearedKeys(users, listed, now, {});
    forall id | id in users ensures ClearedTable(users, listed, now, {})[id].coins == 0 {
      ClearedRow(users, listed, now, {}, id);
    }
    SuccessesAll(listed);
    Supabase.DistinctCard(listed);
    var s := set i | 0 <= i < |listed| :: listed[i];
    assert s == users.Keys;
  }

  lemma {:induction false} SuccessesAll(listed: seq<UserId>)
    ensures Successes(listed, {}) == |listed|
    decreases |listed|
  {
    if listed != [] {
      SuccessesAll(listed[..|listed| - 1]);
    }
  }
}
