/**
 * The `db` object of supabase.js: the ledger, trust, key, daily-reward, ban,
 * log and statistics operations on the hosted tables. The tables are the
 * fields of `Db`; every store call takes a flag `up` that is false when the
 * call fails, in which case it reports an error and changes nothing.
 */
module Supabase {
  import opened Wrappers
  import opened Store
  import Js
  import Boost

  const DAY_MS: nat := 86400000
  const HOUR_MS: nat := 3600000
  const MINUTE_MS: nat := 60000

  /** The coins claimDaily awards. */
  const DAILY_COINS: int := 50

  /** A value in the `details` column of a log row. */
  datatype Detail = Text(text: string) | Number(n: int) | Null

  /** What validateKey answers. */
  datatype KeyCheck = Invalid | Banned | Valid(user: User)

  /** What claimDaily answers. */
  datatype DailyResult = OnCooldown(hours: int, minutes: int) | Claimed(coins: int, newBalance: int) | DailyFailed(error: StoreError)

  // ---- keys ----

  /** A character of `Math.random().toString(36)` after its leading "0.". */
  predicate IsBase36Lower(c: char) { Js.IsDigit(c) || 'a' <= c <= 'z' }

  /** A character that can appear in an upper-cased segment. */
  predicate IsKeyChar(c: char) { Js.IsDigit(c) || 'A' <= c <= 'Z' }

  /** The text of `Math.random().toString(36)`: base-36 digits after position 2. */
  predicate RandomText(raw: string) {
    forall i :: 2 <= i < |raw| ==> IsBase36Lower(raw[i])
  }

  /** `s.substring(start, end)` for 0 <= start <= end. */
  function Substring(s: string, start: nat, end: nat): string
    requires start <= end
  {
    var a := if start <= |s| then start else |s|;
    var b := if end <= |s| then end else |s|;
    s[a..b]
  }

  /** One segment of a key: `raw.substring(2, 8).toUpperCase()`. */
  function Segment(raw: string): string {
    Js.Upper(Substring(raw, 2, 8))
  }

  /** The key generateKey builds from three random texts. */
  function KeyFrom(r1: string, r2: string, r3: string): string {
    "KRYPTON-" + Segment(r1) + "-" + Segment(r2) + "-" + Segment(r3)
  }

  // ---- daily reward ----

  /**
   * claimDaily's cooldown test and its remaining-time text: None when a claim
   * is allowed, otherwise the hours and minutes of `24h - (now - last)`.
   */
  function DailyCooldown(last: Option<nat>, now: nat): Option<(int, int)> {
    if last.Some? && now - last.value < DAY_MS then
      var remaining := DAY_MS - (now - last.value);
      Some((remaining / HOUR_MS, (remaining % HOUR_MS) / MINUTE_MS))
    else
      None
  }

  // ---- statistics ----

  function Positive(c: int): nat { if c > 0 then c else 0 }

  /** The sum of the positive balances of the ids in `ids`. */
  ghost function SumPositive(users: map<UserId, User>, ids: set<UserId>): int
    requires ids <= users.Keys
    decreases ids
  {
    if ids == {} then 0
    else
      var x :| x in ids;
      Positive(users[x].coins) + SumPositive(users, ids - {x})
  }

  /** `rows` lists every user exactly once, by balance from highest to lowest. */
  predicate IsRanking(users: map<UserId, User>, rows: seq<UserId>) {
    (forall i :: 0 <= i < |rows| ==> rows[i] in users) &&
    (forall i, j :: 0 <= i < j < |rows| ==> rows[i] != rows[j]) &&
    (forall id :: id in users ==> id in rows) &&
    (forall i, j :: 0 <= i < j < |rows| ==> users[rows[i]].coins >= users[rows[j]].coins)
  }

  class Db {
    var users: map<UserId, User>
    var trusted: map<UserId, TrustRow>
    var settings: map<string, Setting>
    /** The `system_settings` row whose key is 'boost_system'. */
    var boostRow: Option<Boost.BoostState>
    var logs: seq<LogEntry>

    constructor(users0: map<UserId, User>, trusted0: map<UserId, TrustRow>, settings0: map<string, Setting>,
                boostRow0: Option<Boost.BoostState>)
      ensures users == users0 && trusted == trusted0 && settings == settings0 && boostRow == boostRow0
      ensures logs == []
    {
      users := users0;
      trusted := trusted0;
      settings := settings0;
      boostRow := boostRow0;
      logs := [];
    }

    /** getUser: the row of `id`, NotFound when there is none. */
    method GetUser(id: UserId, up: bool) returns (r: Result<User, StoreError>)
      ensures r.Success? <==> up && id in users
      ensures r.Success? ==> r.value == users[id]
      ensures r.Failure? ==> r.error == (if up then NotFound else Unreachable)
    {
      if !up {
        return Failure(Unreachable);
      }
      if id in users {
        return Success(users[id]);
      }
      return Failure(NotFound);
    }

    /** createUser: insert the new-user row; an existing id is a key conflict. */
    method CreateUser(id: UserId, username: Option<string>, now: nat, up: bool) returns (r: Result<User, StoreError>)
      modifies this
      ensures r.Success? <==> up && id !in old(users)
      ensures !up ==> r == Failure(Unreachable)
      ensures r.Success? ==> r.value == NewUser(username, now) && users == old(users)[id := r.value]
      ensures r.Failure? ==> users == old(users)
      ensures up && id in old(users) ==> r == Failure(Conflict)
      ensures trusted == old(trusted) && settings == old(settings) && boostRow == old(boostRow) && logs == old(logs)
    {
      if !up {
        return Failure(Unreachable);
      }
      if id in users {
        return Failure(Conflict);
      }
      var u := NewUser(username, now);
      users := users[id := u];
      return Success(u);
    }

    /** ensureUser: the existing row unchanged, or else a created one. */
    method EnsureUser(id: UserId, username: Option<string>, now: nat, up: bool) returns (r: Result<User, StoreError>)
      modifies this
      ensures !up ==> r == Failure(Unreachable) && users == old(users)
      ensures up ==> users == Ensured(old(users), id, NewUser(username, now)) && r == Success(users[id])
      ensures trusted == old(trusted) && settings == old(settings) && boostRow == old(boostRow) && logs == old(logs)
    {
      var got := GetUser(id, up);
      if got.Success? {
        return Success(got.value);
      }
      r := CreateUser(id, username, now, up);
    }

    /** getCoins: the balance, or 0 with the error when the lookup fails. */
    method GetCoins(id: UserId, up: bool) returns (coins: int, err: Option<StoreError>)
      ensures err.None? <==> up && id in users
      ensures coins == (if err.None? then users[id].coins else 0)
    {
      var got := GetUser(id, up);
      if got.Failure? {
        return 0, Some(got.error);
      }
      return got.value.coins, None;
    }

    /**
     * updateCoins: ensure the row, then add `amount` (of either sign, with no
     * floor) to its balance; the answer is the new balance.
     */
    method UpdateCoins(id: UserId, amount: int, now: nat, up: bool) returns (r: Result<int, StoreError>)
      modifies this
      ensures !up ==> r.Failure? && users == old(users)
      ensures up ==>
        var e := Ensured(old(users), id, NewUser(None, now));
        id in e && users == Credited(e, id, amount) && r == Success(e[id].coins + amount)
      ensures trusted == old(trusted) && settings == old(settings) && boostRow == old(boostRow) && logs == old(logs)
    {
      var _ := EnsureUser(id, None, now, up);
      var got := GetUser(id, up);
      if got.Failure? {
        return Failure(NotFound);
      }
      var balance := got.value.coins + amount;
      users := WithCoins(users, id, balance);
      return Success(balance);
    }

    /** setCoins: ensure the row, then overwrite its balance with `amount`, whatever its sign. */
    method SetCoins(id: UserId, amount: int, now: nat, up: bool) returns (r: Option<StoreError>)
      modifies this
      ensures !up ==> r.Some? && users == old(users)
      ensures up ==>
        var e := Ensured(old(users), id, NewUser(None, now));
        id in e && users == WithCoins(e, id, amount) && r.None?
      ensures trusted == old(trusted) && settings == old(settings) && boostRow == old(boostRow) && logs == old(logs)
    {
      var _ := EnsureUser(id, None, now, up);
      if !up {
        return Some(Unreachable);
      }
      users := WithCoins(users, id, amount);
      return None;
    }

    /** isTrusted: true only for a row that is there; any error denies. */
    method IsTrusted(id: UserId, up: bool) returns (b: bool)
      ensures b <==> up && id in trusted
    {
      if !up {
        return false;
      }
      return id in trusted;
    }

    /**
     * generateKey: ensure the row, then overwrite its key, whatever it held,
     * with `KRYPTON-` and three segments made from the random texts.
     */
    method GenerateKey(id: UserId, r1: string, r2: string, r3: string, now: nat, up: bool) returns (r: Result<string, StoreError>)
      modifies this
      ensures !up ==> r.Failure? && users == old(users)
      ensures up ==>
        var e := Ensured(old(users), id, NewUser(None, now));
        id in e && r == Success(KeyFrom(r1, r2, r3)) &&
        users == e[id := e[id].(key := Some(KeyFrom(r1, r2, r3)))]
      ensures trusted == old(trusted) && settings == old(settings) && boostRow == old(boostRow) && logs == old(logs)
    {
      var _ := EnsureUser(id, None, now, up);
      if !up {
        return Failure(Unreachable);
      }
      var key := KeyFrom(r1, r2, r3);
      users := users[id := users[id].(key := Some(key))];
      return Success(key);
    }

    /**
     * validateKey: `.single()` on the key column, so a key held by no user or
     * by several is invalid; a banned holder is refused with reason 'banned'.
     */
    method ValidateKey(key: string, up: bool) returns (v: KeyCheck)
      ensures !up ==> v == Invalid
      ensures KeyHolders(users, key) == {} ==> v == Invalid
      ensures forall id :: up && KeyHolders(users, key) == {id} ==>
        v == (if users[id].isBanned then Banned else Valid(users[id]))
      ensures v.Valid? ==> up && exists id :: KeyHolders(users, key) == {id} && v.user == users[id] && !users[id].isBanned
      ensures v.Banned? ==> up && exists id :: KeyHolders(users, key) == {id} && users[id].isBanned
    {
      if !up {
        return Invalid;
      }
      var holders := KeyHolders(users, key);
      if holders == {} {
        return Invalid;
      }
      var id :| id in holders;
      if holders != {id} {
        return Invalid;
      }
      if users[id].isBanned {
        return Banned;
      }
      return Valid(users[id]);
    }

    /**
     * claimDaily: ensure and read the row; inside 24 hours of the last claim
     * answer the remaining time; otherwise credit 50 through updateCoins and,
     * only if that succeeded, stamp last_daily (whose own failure is ignored).
     * `up` covers the first ensure and read, `creditUp` the credit and
     * `stampUp` the stamp.
     */
    method ClaimDaily(id: UserId, now: nat, up: bool, creditUp: bool, stampUp: bool) returns (r: DailyResult)
      modifies this
      ensures !up ==> r == DailyFailed(NotFound) && users == old(users)
      ensures up ==> id in users
      ensures up && id in old(users) && DailyCooldown(old(users)[id].lastDaily, now).Some? ==>
        r == OnCooldown(DailyCooldown(old(users)[id].lastDaily, now).value.0, DailyCooldown(old(users)[id].lastDaily, now).value.1) &&
        users == old(users)
      ensures up && (id !in old(users) || DailyCooldown(old(users)[id].lastDaily, now).None?) ==>
        var e := Ensured(old(users), id, NewUser(None, now));
        var credited := Credited(e, id, DAILY_COINS);
        if !creditUp then r.DailyFailed? && users == e
        else
          r == Claimed(DAILY_COINS, e[id].coins + DAILY_COINS) &&
          users == (if stampUp then credited[id := credited[id].(lastDaily := Some(now))] else credited)
      ensures trusted == old(trusted) && settings == old(settings) && boostRow == old(boostRow) && logs == old(logs)
    {
      var _ := EnsureUser(id, None, now, up);
      var got := GetUser(id, up);
      if got.Failure? {
        return DailyFailed(NotFound);
      }
      var wait := DailyCooldown(got.value.lastDaily, now);
      if wait.Some? {
        return OnCooldown(wait.value.0, wait.value.1);
      }
      var credit := UpdateCoins(id, DAILY_COINS, now, creditUp);
      if credit.Failure? {
        return DailyFailed(credit.error);
      }
      if stampUp {
        users := users[id := users[id].(lastDaily := Some(now))];
      }
      return Claimed(DAILY_COINS, credit.value);
    }

    /** logAction: append one `system_logs` row. */
    method LogAction(action: string, subject: UserId, details: seq<(string, Detail)>, now: nat, up: bool)
      returns (r: Option<StoreError>)
      modifies this
      ensures up ==> r.None? && logs == old(logs) + [LogEntry(action, subject, DetailsText(details), now)]
      ensures !up ==> r == Some(Unreachable) && logs == old(logs)
      ensures users == old(users) && trusted == old(trusted) && settings == old(settings) && boostRow == old(boostRow)
    {
      if !up {
        return Some(Unreachable);
      }
      logs := logs + [LogEntry(action, subject, DetailsText(details), now)];
      return None;
    }

    /**
     * banUser: mark the row banned with the reason (an update of a missing row
     * changes nothing and is no error), then log 'ban' whatever happened.
     */
    method BanUser(id: UserId, reason: Option<string>, now: nat, up: bool, logUp: bool) returns (r: Option<StoreError>)
      modifies this
      ensures r.None? <==> up
      ensures users == (if up && id in old(users) then old(users)[id := old(users)[id].(isBanned := true, banReason := reason)] else old(users))
      ensures logs == old(logs) + (if logUp then [LogEntry("ban", id, DetailsText([("reason", ReasonDetail(reason))]), now)] else [])
      ensures trusted == old(trusted) && settings == old(settings) && boostRow == old(boostRow)
    {
      r := None;
      if !up {
        r := Some(Unreachable);
      } else if id in users {
        users := users[id := users[id].(isBanned := true, banReason := reason)];
      }
      var _ := LogAction("ban", id, [("reason", ReasonDetail(reason))], now, logUp);
    }

    /** unbanUser: clear the ban and its reason, then log 'unban' whatever happened. */
    method UnbanUser(id: UserId, now: nat, up: bool, logUp: bool) returns (r: Option<StoreError>)
      modifies this
      ensures r.None? <==> up
      ensures users == (if up && id in old(users) then old(users)[id := old(users)[id].(isBanned := false, banReason := None)] else old(users))
      ensures logs == old(logs) + (if logUp then [LogEntry("unban", id, [], now)] else [])
      ensures trusted == old(trusted) && settings == old(settings) && boostRow == old(boostRow)
    {
      r := None;
      if !up {
        r := Some(Unreachable);
      } else if id in users {
        users := users[id := users[id].(isBanned := false, banReason := None)];
      }
      assert DetailsText([]) == [];
      var _ := LogAction("unban", id, [], now, logUp);
    }

    /**
     * The total_coins of getStats: the sum over the rows with coins > 0, or 0
     * when that query fails.
     */
    method TotalCoins(up: bool) returns (total: int)
      ensures total == (if up then SumPositive(users, users.Keys) else 0)
    {
      if !up {
        return 0;
      }
      total := 0;
      var rest := users.Keys;
      while rest != {}
        invariant rest <= users.Keys
        invariant total + SumPositive(users, rest) == SumPositive(users, users.Keys)
        decreases rest
      {
        var id :| id in rest;
        SumPositiveRemove(users, rest, id);
        total := total + Positive(users[id].coins);
        rest := rest - {id};
      }
    }

    /** The id with the highest balance among `ids`. */
    method Richest(ids: set<UserId>) returns (best: UserId)
      requires ids != {} && ids <= users.Keys
      ensures best in ids
      ensures forall id :: id in ids ==> users[id].coins <= users[best].coins
    {
      best :| best in ids;
      var rest := ids - {best};
      while rest != {}
        invariant rest <= ids && best in ids
        invariant forall id :: id in ids - rest ==> users[id].coins <= users[best].coins
        decreases rest
      {
        var id :| id in rest;
        if users[id].coins > users[best].coins {
          best := id;
        }
        rest := rest - {id};
      }
    }

    /** `order('coins', {ascending: false})` over the whole table; ties come in any order. */
    method Ranked() returns (rows: seq<UserId>)
      ensures IsRanking(users, rows)
    {
      rows := [];
      var rest := users.Keys;
      while rest != {}
        invariant rest <= users.Keys
        invariant forall i :: 0 <= i < |rows| ==> rows[i] in users && rows[i] !in rest
        invariant forall i, j :: 0 <= i < j < |rows| ==> rows[i] != rows[j]
        invariant forall id :: id in users ==> id in rows || id in rest
        invariant forall i, j :: 0 <= i < j < |rows| ==> users[rows[i]].coins >= users[rows[j]].coins
        invariant forall i, id :: 0 <= i < |rows| && id in rest ==> users[rows[i]].coins >= users[id].coins
        decreases rest
      {
        var best := Richest(rest);
        rows := rows + [best];
        rest := rest - {best};
      }
    }

    /** getLeaderboard: the first `limit` rows of the ranking. */
    method Leaderboard(limit: nat, up: bool) returns (r: Result<seq<UserId>, StoreError>)
      ensures !up ==> r.Failure?
      ensures up ==> r.Success? && |r.value| == (if limit < |users| then limit else |users|)
      ensures r.Success? ==> exists rows :: IsRanking(users, rows) && |r.value| <= |rows| && r.value == rows[..|r.value|]
    {
      if !up {
        return Failure(Unreachable);
      }
      var rows := Ranked();
      RankingLength(users, rows);
      var n := if limit < |rows| then limit else |rows|;
      return Success(rows[..n]);
    }
  }

  /** The `details` object of a log row. */
  function DetailsText(details: seq<(string, Detail)>): seq<(string, string)> {
    seq(|details|, i requires 0 <= i < |details| => (details[i].0, DetailText(details[i].1)))
  }

  function DetailText(d: Detail): string {
    match d
    case Text(s) => s
    case Number(n) => if n < 0 then "-" + Js.DecimalString(-n) else Js.DecimalString(n)
    case Null => "null"
  }

  function ReasonDetail(reason: Option<string>): Detail {
    if reason.Some? then Text(reason.value) else Null
  }

  // ---- lemmas ----

  /** Taking any one id out of the sum leaves the sum of the rest. */
  lemma {:induction false} SumPositiveRemove(users: map<UserId, User>, ids: set<UserId>, x: UserId)
    requires ids <= users.Keys && x in ids
    ensures SumPositive(users, ids) == Positive(users[x].coins) + SumPositive(users, ids - {x})
    decreases ids
  {
    var y :| y in ids && SumPositive(users, ids) == Positive(users[y].coins) + SumPositive(users, ids - {y});
    if y != x {
      SumPositiveRemove(users, ids - {y}, x);
      SumPositiveRemove(users, ids - {x}, y);
      assert ids - {y} - {x} == ids - {x} - {y};
    }
  }

  /** The coin total is never negative and is at least any one positive balance. */
  lemma {:induction false} SumPositiveBounds(users: map<UserId, User>, ids: set<UserId>, x: UserId)
    requires ids <= users.Keys && x in ids
    ensures SumPositive(users, ids) >= Positive(users[x].coins) >= 0
  {
    SumPositiveRemove(users, ids, x);
    SumPositiveNonNegative(users, ids - {x});
  }

  lemma {:induction false} SumPositiveNonNegative(users: map<UserId, User>, ids: set<UserId>)
    requires ids <= users.Keys
    ensures SumPositive(users, ids) >= 0
    decreases ids
  {
    if ids != {} {
      var x :| x in ids;
      SumPositiveRemove(users, ids, x);
      SumPositiveNonNegative(users, ids - {x});
    }
  }

  /** A ranking lists as many rows as the table has. */
  lemma RankingLength(users: map<UserId, User>, rows: seq<UserId>)
    requires IsRanking(users, rows)
    ensures |rows| == |users|
  {
    var s := set i | 0 <= i < |rows| :: rows[i];
    assert s == users.Keys;
    DistinctCard(rows);
    assert |users.Keys| == |users|;
  }

  lemma {:induction false} DistinctCard(rows: seq<UserId>)
    requires forall i, j :: 0 <= i < j < |rows| ==> rows[i] != rows[j]
    ensures |set i | 0 <= i < |rows| :: rows[i]| == |rows|
  {
    if rows != [] {
      var init := rows[..|rows| - 1];
      DistinctCard(init);
      var s := set i | 0 <= i < |rows| :: rows[i];
      var t := set i | 0 <= i < |init| :: init[i];
      assert s == t + {rows[|rows| - 1]};
      assert rows[|rows| - 1] !in t;
    }
  }

  /**
   * A key splits on '-' into the prefix and its three segments, each at most
   * six upper-case letters or digits.
   */
  lemma KeyFormat(r1: string, r2: string, r3: string)
    requires RandomText(r1) && RandomText(r2) && RandomText(r3)
    ensures Js.SplitOn(KeyFrom(r1, r2, r3), '-') == ["KRYPTON", Segment(r1), Segment(r2), Segment(r3)]
    ensures IsSegmentText(Segment(r1)) && IsSegmentText(Segment(r2)) && IsSegmentText(Segment(r3))
  {
    SegmentShape(r1);
    SegmentShape(r2);
    SegmentShape(r3);
    SplitKeyText(Segment(r1), Segment(r2), Segment(r3));
  }

  /** Dash-free segments joined behind the prefix split back into the prefix and the segments. */
  lemma SplitKeyText(s1: string, s2: string, s3: string)
    requires '-' !in s1 && '-' !in s2 && '-' !in s3
    ensures Js.SplitOn("KRYPTON-" + s1 + "-" + s2 + "-" + s3, '-') == ["KRYPTON", s1, s2, s3]
  {
    var t3 := s2 + ['-'] + s3;
    var t2 := s1 + ['-'] + t3;
    KeyFromAssoc(s1, s2, s3);
    assert '-' !in "KRYPTON";
    NoDashSplit(s3);
    Js.SplitOnPeel(s2, '-', s3);
    Js.SplitOnPeel(s1, '-', t3);
    Js.SplitOnPeel("KRYPTON", '-', t2);
  }

  lemma KeyFromAssoc(s1: string, s2: string, s3: string)
    ensures "KRYPTON-" + s1 + "-" + s2 + "-" + s3 == "KRYPTON" + ['-'] + (s1 + ['-'] + (s2 + ['-'] + s3))
  {
  }

  /** At most six upper-case letters or digits. */
  predicate IsSegmentText(s: string) {
    |s| <= 6 && forall i :: 0 <= i < |s| ==> IsKeyChar(s[i])
  }

  lemma SegmentShape(raw: string)
    requires RandomText(raw)
    ensures IsSegmentText(Segment(raw)) && '-' !in Segment(raw)
  {
    var s := Segment(raw);
    var sub := Substring(raw, 2, 8);
    forall i | 0 <= i < |s| ensures IsKeyChar(s[i]) && s[i] != '-' {
      assert s[i] == Js.UpperChar(sub[i]);
      assert IsBase36Lower(sub[i]);
    }
  }

  lemma NoDashSplit(s: string)
    requires '-' !in s
    ensures Js.SplitOn(s, '-') == [s]
  {
    assert Js.IndexOf(s, '-') == |s|;
  }

  /** The remaining time of a refused claim: minutes below 60, and the hours reach 24 only at the very instant of the last claim. */
  lemma DailyCooldownBounds(last: nat, now: nat)
    requires DailyCooldown(Some(last), now).Some?
    ensures var (h, m) := DailyCooldown(Some(last), now).value;
      0 <= m < 60 && h >= 0 &&
      (h * 60 + m) * MINUTE_MS <= DAY_MS - (now - last) < (h * 60 + m + 1) * MINUTE_MS &&
      (last <= now ==> h <= 24 && (h == 24 <==> now == last))
  {
    var remaining := DAY_MS - (now - last);
    var h := remaining / HOUR_MS;
    var q := remaining % HOUR_MS;
    var m := q / MINUTE_MS;
    assert remaining == h * HOUR_MS + q;
    assert q == m * MINUTE_MS + q % MINUTE_MS;
    assert (h * 60 + m) * MINUTE_MS == h * HOUR_MS + m * MINUTE_MS;
  }

  /** Once a claim is allowed it stays allowed while last_daily is not stamped. */
  lemma DailyWindowStaysOpen(last: Option<nat>, now: nat, later: nat)
    requires DailyCooldown(last, now).None? && now <= later
    ensures DailyCooldown(last, later).None?
  {
  }

  /** A claim is allowed exactly when there was none, or the last one is at least 24 hours old. */
  lemma DailyCooldownIff(last: Option<nat>, now: nat)
    ensures DailyCooldown(last, now).None? <==> last.None? || now - last.value >= DAY_MS
  {
  }
}
