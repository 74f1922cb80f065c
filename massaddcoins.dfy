/**
 * commands/admin/massaddcoins.js: credit every row of the users table, then
 * every non-bot guild member the first pass did not credit. `updatedCount`
 * counts the successful updates of both passes. The rows the select returns
 * and the guild's member cache are given as sequences.
 */
module MassAddCoins {
  import opened Wrappers
  import opened Store
  import Js
  import Supabase

  /** A cached guild member: id, username, and whether it is a bot account. */
  datatype Member = Member(id: UserId, username: string, bot: bool)

  datatype MassReply = Usage | BadAmount | Done(updatedCount: nat) | Failed

  /**
   * Which calls fail: the user-list select, the member fetch, the updateCoins
   * calls of the first pass and of the second pass (by id), the ensures of the
   * second pass (by id), and the log row.
   */
  datatype MassFaults = MassFaults(fetchUp: bool, membersUp: bool, firstFailing: set<UserId>,
                                   ensureFailing: set<UserId>, secondFailing: set<UserId>, logUp: bool)

  /** The select lists every row once. */
  predicate IsListing(users: map<UserId, User>, listed: seq<UserId>) {
    (forall j :: 0 <= j < |listed| ==> listed[j] in users) &&
    (forall id :: id in users ==> id in listed) &&
    (forall i, j :: 0 <= i < j < |listed| ==> listed[i] != listed[j])
  }

  /** The member cache is keyed by id. */
  predicate DistinctMembers(members: seq<Member>) {
    forall i, j :: 0 <= i < j < |members| ==> members[i].id != members[j].id
  }

  /** args[0] checks: present, then parseInt above 0. */
  function Amount(args: seq<string>): Result<int, MassReply> {
    if |args| < 1 then Failure(Usage)
    else
      var n := Js.ParseInt(args[0]);
      if n.None? || n.value <= 0 then Failure(BadAmount) else Success(n.value)
  }

  /** A successful `updateCoins(id, amount)`: ensure a nameless row, then add. */
  function Credit(users: map<UserId, User>, id: UserId, amount: int, now: nat): map<UserId, User> {
    var e := Ensured(users, id, NewUser(None, now));
    Credited(e, id, amount)
  }

  /** The table after the first pass over `listed`. */
  function AfterListed(users: map<UserId, User>, listed: seq<UserId>, amount: int, now: nat, failing: set<UserId>): map<UserId, User>
    decreases |listed|
  {
    if listed == [] then users
    else
      var u := AfterListed(users, listed[..|listed| - 1], amount, now, failing);
      var id := listed[|listed| - 1];
      if id in failing then u else Credit(u, id, amount, now)
  }

  /** `processedUsers`: the listed ids whose update succeeded, in order. */
  function Processed(listed: seq<UserId>, failing: set<UserId>): seq<UserId>
    decreases |listed|
  {
    if listed == [] then []
    else
      var p := Processed(listed[..|listed| - 1], failing);
      var id := listed[|listed| - 1];
      if id in failing then p else p + [id]
  }

  /** A member the second pass handles. */
  predicate Eligible(m: Member, processed: seq<UserId>) {
    !m.bot && m.id !in processed
  }

  /** The second pass's step for one member. */
  function MemberStep(u: map<UserId, User>, m: Member, processed: seq<UserId>, amount: int, now: nat, f: MassFaults): map<UserId, User> {
    if !Eligible(m, processed) then u
    else
      var e := if m.id in f.ensureFailing then u else Ensured(u, m.id, NewUser(Some(m.username), now));
      if m.id in f.secondFailing then e else Credit(e, m.id, amount, now)
  }

  /** The table after the second pass over `members`. */
  function AfterMembers(u: map<UserId, User>, members: seq<Member>, processed: seq<UserId>, amount: int, now: nat,
                        f: MassFaults): map<UserId, User>
    decreases |members|
  {
    if members == [] then u
    else
      MemberStep(AfterMembers(u, members[..|members| - 1], processed, amount, now, f),
                 members[|members| - 1], processed, amount, now, f)
  }

  /** The successful updates of the second pass. */
  function MemberCount(members: seq<Member>, processed: seq<UserId>, failing: set<UserId>): nat
    decreases |members|
  {
    if members == [] then 0
    else
      var m := members[|members| - 1];
      MemberCount(members[..|members| - 1], processed, failing) +
      (if Eligible(m, processed) && m.id !in failing then 1 else 0)
  }

  function MassEntry(admin: UserId, amount: int, count: nat, now: nat): LogEntry {
    LogEntry("mass_add_coins", admin,
             Supabase.DetailsText([("amount", Supabase.Number(amount)), ("users_affected", Supabase.Number(count))]), now)
  }

  /** execute, against the store. */
  method Execute(db: Supabase.Db, args: seq<string>, listed: seq<UserId>, members: seq<Member>, admin: UserId,
                 now: nat, f: MassFaults)
    returns (reply: MassReply)
    requires IsListing(db.users, listed)
    modifies db
    ensures Amount(args).Failure? ==> reply == Amount(args).error && db.users == old(db.users) && db.logs == old(db.logs)
    ensures Amount(args).Success? && !f.fetchUp ==> reply == Failed && db.users == old(db.users) && db.logs == old(db.logs)
    ensures Amount(args).Success? && f.fetchUp ==>
      var amount := Amount(args).value;
      var first := AfterListed(old(db.users), listed, amount, now, f.firstFailing);
      var processed := Processed(listed, f.firstFailing);
      var count := |processed| + MemberCount(members, processed, f.secondFailing);
      if !f.membersUp then
        reply == Failed && db.users == first && db.logs == old(db.logs)
      else
        reply == Done(count) &&
        db.users == AfterMembers(first, members, processed, amount, now, f) &&
        db.logs == old(db.logs) + (if f.logUp then [MassEntry(admin, amount, count, now)] else [])
    ensures db.trusted == old(db.trusted) && db.settings == old(db.settings) && db.boostRow == old(db.boostRow)
  {
    var a := Amount(args);
    if a.Failure? {
      return a.error;
    }
    if !f.fetchUp {
      return Failed;
    }
    reply := CreditAll(db, listed, members, a.value, admin, now, f);
  }

  /** Lines 44-79, once the rows were fetched: both loops, then the log row. */
  method CreditAll(db: Supabase.Db, listed: seq<UserId>, members: seq<Member>, amount: int, admin: UserId,
                   now: nat, f: MassFaults)
    returns (reply: MassReply)
    modifies db
    ensures var first := AfterListed(old(db.users), listed, amount, now, f.firstFailing);
      var processed := Processed(listed, f.firstFailing);
      var count := |processed| + MemberCount(members, processed, f.secondFailing);
      if !f.membersUp then
        reply == Failed && db.users == first && db.logs == old(db.logs)
      else
        reply == Done(count) &&
        db.users == AfterMembers(first, members, processed, amount, now, f) &&
        db.logs == old(db.logs) + (if f.logUp then [MassEntry(admin, amount, count, now)] else [])
    ensures db.trusted == old(db.trusted) && db.settings == old(db.settings) && db.boostRow == old(db.boostRow)
  {
    var processed := CreditListed(db, listed, amount, now, f.firstFailing);
    if !f.membersUp {
      return Failed;
    }
    var more := CreditMembers(db, members, processed, amount, now, f);
    var count := |processed| + more;
    var _ := db.LogAction("mass_add_coins", admin,
                          [("amount", Supabase.Number(amount)), ("users_affected", Supabase.Number(count))], now, f.logUp);
    return Done(count);
  }

  /** The first loop: update every listed row, recording the ids whose update succeeded. */
  method CreditListed(db: Supabase.Db, listed: seq<UserId>, amount: int, now: nat, failing: set<UserId>)
    returns (processed: seq<UserId>)
    modifies db
    ensures db.users == AfterListed(old(db.users), listed, amount, now, failing)
    ensures processed == Processed(listed, failing)
    ensures db.logs == old(db.logs) && db.trusted == old(db.trusted)
    ensures db.settings == old(db.settings) && db.boostRow == old(db.boostRow)
  {
    processed := [];
    var i := 0;
    while i < |listed|
      invariant 0 <= i <= |listed|
      invariant db.users == AfterListed(old(db.users), listed[..i], amount, now, failing)
      invariant processed == Processed(listed[..i], failing)
      invariant db.logs == old(db.logs) && db.trusted == old(db.trusted)
      invariant db.settings == old(db.settings) && db.boostRow == old(db.boostRow)
    {
      var id := listed[i];
      assert listed[..i + 1][..i] == listed[..i];
      var r := db.UpdateCoins(id, amount, now, id !in failing);
      if r.Success? {
        processed := processed + [id];
      }
      i := i + 1;
    }
    assert listed[..|listed|] == listed;
  }

  /** The second loop: ensure and update every non-bot member not yet processed; `count` is its successes. */
  method CreditMembers(db: Supabase.Db, members: seq<Member>, processed: seq<UserId>, amount: int, now: nat, f: MassFaults)
    returns (count: nat)
    modifies db
    ensures db.users == AfterMembers(old(db.users), members, processed, amount, now, f)
    ensures count == MemberCount(members, processed, f.secondFailing)
    ensures db.logs == old(db.logs) && db.trusted == old(db.trusted)
    ensures db.settings == old(db.settings) && db.boostRow == old(db.boostRow)
  {
    count := 0;
    var k := 0;
    while k < |members|
      invariant 0 <= k <= |members|
      invariant db.users == AfterMembers(old(db.users), members[..k], processed, amount, now, f)
      invariant count == MemberCount(members[..k], processed, f.secondFailing)
      invariant db.logs == old(db.logs) && db.trusted == old(db.trusted)
      invariant db.settings == old(db.settings) && db.boostRow == old(db.boostRow)
    {
      var m := members[k];
      assert members[..k + 1][..k] == members[..k];
      if !m.bot && m.id !in processed {
        var _ := db.EnsureUser(m.id, Some(m.username), now, m.id !in f.ensureFailing);
        var r := db.UpdateCoins(m.id, amount, now, m.id !in f.secondFailing);
        if r.Success? {
          count := count + 1;
        }
      }
      k := k + 1;
    }
    assert members[..|members|] == members;
  }

  // ---- lemmas ----

  /** The first pass adds `amount` exactly once to each listed row whose update succeeds, and nothing else. */
  lemma {:induction false} AfterListedRow(users: map<UserId, User>, listed: seq<UserId>, amount: int, now: nat,
                                          failing: set<UserId>, id: UserId)
    requires forall j :: 0 <= j < |listed| ==> listed[j] in users
    requires forall i, j :: 0 <= i < j < |listed| ==> listed[i] != listed[j]
    requires id in users
    ensures AfterListed(users, listed, amount, now, failing).Keys == users.Keys
    ensures AfterListed(users, listed, amount, now, failing)[id] ==
      users[id].(coins := users[id].coins + (if id in listed && id !in failing then amount else 0))
    decreases |listed|
  {
    if listed == [] {
      assert users[id].(coins := users[id].coins) == users[id];
    } else {
      var init := listed[..|listed| - 1];
      var last := listed[|listed| - 1];
      forall j | 0 <= j < |init| ensures init[j] in users { assert init[j] == listed[j]; }
      AfterListedRow(users, init, amount, now, failing, id);
      AfterListedRow(users, init, amount, now, failing, last);
      assert id in listed <==> id in init || id == last;
      forall j | 0 <= j < |init| ensures init[j] != last {
        assert init[j] == listed[j];
      }
    }
  }

  /** `processedUsers` holds exactly the listed ids whose update succeeded. */
  lemma {:induction false} ProcessedMembers(listed: seq<UserId>, failing: set<UserId>, id: UserId)
    ensures id in Processed(listed, failing) <==> id in listed && id !in failing
    decreases |listed|
  {
    if listed != [] {
      var init := listed[..|listed| - 1];
      ProcessedMembers(init, failing, id);
      assert id in listed <==> id in init || id == listed[|listed| - 1];
    }
  }

  /** The second pass leaves alone every id with no eligible member. */
  lemma {:induction false} AfterMembersElsewhere(u: map<UserId, User>, members: seq<Member>, processed: seq<UserId>,
                                                 amount: int, now: nat, f: MassFaults, id: UserId)
    requires forall j :: 0 <= j < |members| && members[j].id == id ==> !Eligible(members[j], processed)
    ensures (id in AfterMembers(u, members, processed, amount, now, f) <==> id in u)
    ensures id in u ==> AfterMembers(u, members, processed, amount, now, f)[id] == u[id]
    decreases |members|
  {
    if members != [] {
      var init := members[..|members| - 1];
      forall j | 0 <= j < |init| && init[j].id == id ensures !Eligible(init[j], processed) {
        assert init[j] == members[j];
      }
      AfterMembersElsewhere(u, init, processed, amount, now, f, id);
    }
  }

  /** An existing row of an eligible member is credited once by the second pass, when its update succeeds. */
  lemma {:induction false} AfterMembersRow(u: map<UserId, User>, members: seq<Member>, processed: seq<UserId>,
                                           amount: int, now: nat, f: MassFaults, j: nat)
    requires DistinctMembers(members)
    requires j < |members| && Eligible(members[j], processed) && members[j].id in u
    ensures var id := members[j].id;
      var after := AfterMembers(u, members, processed, amount, now, f);
      id in after && after[id] == u[id].(coins := u[id].coins + (if id in f.secondFailing then 0 else amount))
    decreases |members|
  {
    var id := members[j].id;
    var init := members[..|members| - 1];
    if j == |members| - 1 {
      forall k | 0 <= k < |init| ensures init[k].id != id {
        assert init[k] == members[k];
      }
      AfterMembersElsewhere(u, init, processed, amount, now, f, id);
      if id in f.secondFailing {
        assert u[id].(coins := u[id].coins) == u[id];
      }
    } else {
      assert init[j] == members[j];
      forall a, b | 0 <= a < b < |init| ensures init[a].id != init[b].id {
        assert init[a] == members[a] && init[b] == members[b];
      }
      AfterMembersRow(u, init, processed, amount, now, f, j);
      assert members[|members| - 1].id != id;
    }
  }

  /**
   * No row is credited twice: a listed user whose first update succeeded is
   * skipped by the second pass, so it gains the amount exactly once.
   */
  lemma CreditedOnce(users: map<UserId, User>, listed: seq<UserId>, members: seq<Member>, amount: int, now: nat,
                     f: MassFaults, id: UserId)
    requires IsListing(users, listed)
    requires id in users && id !in f.firstFailing
    ensures var first := AfterListed(users, listed, amount, now, f.firstFailing);
      var after := AfterMembers(first, members, Processed(listed, f.firstFailing), amount, now, f);
      id in after && after[id] == users[id].(coins := users[id].coins + amount)
  {
    var first := AfterListed(users, listed, amount, now, f.firstFailing);
    var processed := Processed(listed, f.firstFailing);
    AfterListedRow(users, listed, amount, now, f.firstFailing, id);
    ProcessedMembers(listed, f.firstFailing, id);
    AfterMembersElsewhere(first, members, processed, amount, now, f, id);
  }

  /** A listed row whose first update failed is tried once more when its owner is a non-bot member. */
  lemma RetriedAsMember(users: map<UserId, User>, listed: seq<UserId>, members: seq<Member>, amount: int, now: nat,
                        f: MassFaults, j: nat)
    requires IsListing(users, listed) && DistinctMembers(members)
    requires j < |members| && !members[j].bot && members[j].id in users && members[j].id in f.firstFailing
    ensures var id := members[j].id;
      var first := AfterListed(users, listed, amount, now, f.firstFailing);
      var after := AfterMembers(first, members, Processed(listed, f.firstFailing), amount, now, f);
      id in after && after[id] == users[id].(coins := users[id].coins + (if id in f.secondFailing then 0 else amount))
  {
    var id := members[j].id;
    var first := AfterListed(users, listed, amount, now, f.firstFailing);
    AfterListedRow(users, listed, amount, now, f.firstFailing, id);
    ProcessedMembers(listed, f.firstFailing, id);
    AfterMembersRow(first, members, Processed(listed, f.firstFailing), amount, now, f, j);
  }

  /** updatedCount is at most one per listed row plus one per member. */
  lemma {:induction false} CountBound(listed: seq<UserId>, members: seq<Member>, failing: set<UserId>, second: set<UserId>)
    ensures |Processed(listed, failing)| <= |listed|
    ensures MemberCount(members, Processed(listed, failing), second) <= |members|
    decreases |listed| + |members|
  {
    if listed != [] {
      CountBound(listed[..|listed| - 1], members, failing, second);
    }
    if members != [] {
      CountBound(listed, members[..|members| - 1], failing, second);
    }
  }
}
