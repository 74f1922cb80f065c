/**
 * handlers/messageHandler.js: the coin reward for ordinary messages. A
 * module-level map remembers when each user was last rewarded; a reward is
 * `messageReward || 1`, times the boost multiplier while the boost is live.
 */
module MessageHandler {
  import opened Wrappers
  import opened Store
  import Js
  import Boost
  import Client
  import Supabase

  /** The parts of a Discord message the handler reads. */
  datatype Message = Message(authorId: UserId, authorName: string, authorIsBot: bool, content: string,
                             channelId: string, guildId: Option<string>)

  /** `messageCooldowns.get(id) || 0`. */
  function LastReward(last: map<UserId, nat>, id: UserId): nat {
    if id in last then last[id] else 0
  }

  /**
   * The gate of line 26: on cooldown while less than `cooldown * 1000` ms have
   * passed. An unset cooldown makes the bound NaN, and no comparison with NaN
   * holds, so nobody is ever on cooldown then.
   */
  predicate OnCooldown(last: map<UserId, nat>, id: UserId, now: nat, cooldown: Option<int>) {
    cooldown.Some? && now - LastReward(last, id) < cooldown.value * 1000
  }

  /** The award of lines 34-39. */
  function Award(config: Client.Config, boost: Boost.BoostState, now: nat): int {
    var base := Js.OrElse(config.messageReward, 1);
    if Boost.Live(boost, now) then base * boost.multiplier else base
  }

  /** The `message_reward` log row. */
  function RewardEntry(msg: Message, coins: int, now: nat): LogEntry {
    LogEntry("message_reward", msg.authorId, Supabase.DetailsText(RewardDetails(msg, coins)), now)
  }

  function RewardDetails(msg: Message, coins: int): seq<(string, Supabase.Detail)> {
    [("coins", Supabase.Number(coins)), ("channel", Supabase.Text(msg.channelId)),
     ("guild", if msg.guildId.Some? then Supabase.Text(msg.guildId.value) else Supabase.Null)]
  }

  /** The table after incrementMessageCount of a present row: `(messages_count || 0) + 1`. */
  function Counted(users: map<UserId, User>, id: UserId): map<UserId, User>
    requires id in users
  {
    users[id := users[id].(messagesCount := Some(Js.OrElse(users[id].messagesCount, 0) + 1))]
  }

  /**
   * Which store calls of one reward succeed: the ensure, the credit, the log
   * row, and the lookup and write of the message count.
   */
  datatype RewardFaults = RewardFaults(ensureUp: bool, creditUp: bool, logUp: bool, readUp: bool, countUp: bool)

  /** Bot and prefixed messages, and users on cooldown, earn nothing. */
  predicate Skips(last: map<UserId, nat>, config: Client.Config, msg: Message, now: nat) {
    msg.authorIsBot || Js.StartsWith(msg.content, config.prefix) ||
    OnCooldown(last, msg.authorId, now, config.messageRewardCooldown)
  }

  /**
   * The users table after an award of `coins`: the author is ensured, then
   * credited through updateCoins; only a successful credit is followed by
   * the message count.
   */
  function RewardedUsers(users: map<UserId, User>, msg: Message, coins: int, now: nat, f: RewardFaults): map<UserId, User> {
    var ensured := if f.ensureUp then Ensured(users, msg.authorId, NewUser(Some(msg.authorName), now)) else users;
    if !f.creditUp then ensured
    else
      var e := Ensured(ensured, msg.authorId, NewUser(None, now));
      var credited := Credited(e, msg.authorId, coins);
      if f.readUp && f.countUp then Counted(credited, msg.authorId) else credited
  }

  /** What processMessage does to the client as a whole: the award, the new last-reward map, the new state. */
  datatype Outcome = Outcome(awarded: Option<int>, lastReward: map<UserId, nat>, state: Client.State)

  /** processMessage over the client's state, as the rest of the bot sees it. */
  function Processed(s: Client.State, last: map<UserId, nat>, msg: Message, now: nat, f: RewardFaults): Outcome {
    if Skips(last, s.config, msg, now) then Outcome(None, last, s)
    else
      var coins := Award(s.config, s.boost, now);
      Outcome(if f.creditUp then Some(coins) else None, last[msg.authorId := now],
             s.(users := RewardedUsers(s.users, msg, coins, now, f),
                logs := s.logs + (if f.creditUp && f.logUp then [RewardEntry(msg, coins, now)] else [])))
  }

  /** The module-level `messageCooldowns` map. */
  class RewardGate {
    var lastReward: map<UserId, nat>

    constructor()
      ensures lastReward == map[]
    {
      lastReward := map[];
    }

    /**
     * processMessage. A skipped message changes nothing. Otherwise the
     * timestamp is taken first, so a failed credit still uses up the window;
     * the log row and the message count follow only a successful credit.
     * The answer is the number of coins awarded, if any.
     */
    method ProcessMessage(bot: Client.Bot, msg: Message, now: nat, f: RewardFaults)
      returns (awarded: Option<int>)
      modifies this, bot.db
      ensures var skip := Skips(old(lastReward), bot.config, msg, now);
        var coins := Award(bot.config, bot.boost, now);
        awarded == (if skip || !f.creditUp then None else Some(coins)) &&
        lastReward == (if skip then old(lastReward) else old(lastReward)[msg.authorId := now]) &&
        bot.db.users == (if skip then old(bot.db.users) else RewardedUsers(old(bot.db.users), msg, coins, now, f)) &&
        bot.db.logs == old(bot.db.logs) + (if !skip && f.creditUp && f.logUp then [RewardEntry(msg, coins, now)] else [])
      ensures bot.db.trusted == old(bot.db.trusted) && bot.db.settings == old(bot.db.settings)
      ensures bot.db.boostRow == old(bot.db.boostRow)
    {
      var config := bot.config;
      if msg.authorIsBot || Js.StartsWith(msg.content, config.prefix) {
        return None;
      }
      if OnCooldown(lastReward, msg.authorId, now, config.messageRewardCooldown) {
        return None;
      }
      lastReward := lastReward[msg.authorId := now];
      var coins := Award(config, bot.boost, now);
      var _ := bot.db.EnsureUser(msg.authorId, Some(msg.authorName), now, f.ensureUp);
      var credit := bot.db.UpdateCoins(msg.authorId, coins, now, f.creditUp);
      if credit.Failure? {
        return None;
      }
      var _ := bot.db.LogAction("message_reward", msg.authorId, RewardDetails(msg, coins), now, f.logUp);
      var _ := IncrementMessageCount(bot.db, msg.authorId, f.readUp, f.countUp);
      return Some(coins);
    }
  }

  /**
   * incrementMessageCount: 0 when the lookup fails or finds nobody; otherwise
   * the row gets `(messages_count || 0) + 1`, whose write error is ignored,
   * and that count is the answer.
   */
  method IncrementMessageCount(db: Supabase.Db, id: UserId, readUp: bool, writeUp: bool) returns (count: int)
    modifies db
    ensures !(readUp && id in old(db.users)) ==> count == 0 && db.users == old(db.users)
    ensures readUp && id in old(db.users) ==>
      count == Js.OrElse(old(db.users)[id].messagesCount, 0) + 1 &&
      db.users == (if writeUp then Counted(old(db.users), id) else old(db.users))
    ensures db.trusted == old(db.trusted) && db.settings == old(db.settings)
    ensures db.boostRow == old(db.boostRow) && db.logs == old(db.logs)
  {
    var got := db.GetUser(id, readUp);
    if got.Failure? {
      return 0;
    }
    count := Js.OrElse(got.value.messagesCount, 0) + 1;
    if writeUp {
      db.users := Counted(db.users, id);
    }
  }

  // ---- lemmas ----

  /** A message that starts with the prefix earns nothing and changes nothing, whatever the rest of the state. */
  lemma PrefixedEarnsNothing(s: Client.State, last: map<UserId, nat>, msg: Message, now: nat, f: RewardFaults)
    requires Js.StartsWith(msg.content, s.config.prefix)
    ensures Processed(s, last, msg, now, f) == Outcome(None, last, s)
  {
  }

  /**
   * A rewarded message moves only the author's row and the log: the author
   * gets exactly the award on top of the ensured row, and nothing outside the
   * users table and the log changes.
   */
  lemma ProcessedCreditsAuthor(s: Client.State, last: map<UserId, nat>, msg: Message, now: nat, f: RewardFaults)
    requires !Skips(last, s.config, msg, now) && f.creditUp
    ensures var r := Processed(s, last, msg, now, f);
      var coins := Award(s.config, s.boost, now);
      r.awarded == Some(coins) && r.lastReward[msg.authorId] == now &&
      msg.authorId in r.state.users &&
      r.state.users[msg.authorId].coins == (if msg.authorId in s.users then s.users[msg.authorId].coins else 0) + coins &&
      (forall other :: other != msg.authorId ==> (other in r.state.users <==> other in s.users)) &&
      (forall other :: other in s.users && other != msg.authorId ==> r.state.users[other] == s.users[other]) &&
      r.state.(users := s.users, logs := s.logs) == s
  {
    var coins := Award(s.config, s.boost, now);
    var ensured := if f.ensureUp then Ensured(s.users, msg.authorId, NewUser(Some(msg.authorName), now)) else s.users;
    var e := Ensured(ensured, msg.authorId, NewUser(None, now));
    assert e[msg.authorId].coins == (if msg.authorId in s.users then s.users[msg.authorId].coins else 0);
    CreditedFacts(e, msg.authorId, coins);
    if f.readUp && f.countUp {
      CountedStep(Credited(e, msg.authorId, coins), msg.authorId);
    }
  }

  /**
   * After a reward at `t`, the same user earns nothing from messages sent
   * less than `cooldown` seconds later, while every other user's gate is as
   * it was.
   */
  lemma RewardSpacing(last: map<UserId, nat>, id: UserId, other: UserId, t: nat, later: nat, cooldown: int)
    requires t <= later < t + cooldown * 1000
    requires other != id
    ensures OnCooldown(last[id := t], id, later, Some(cooldown))
    ensures OnCooldown(last[id := t], other, later, Some(cooldown)) <==> OnCooldown(last, other, later, Some(cooldown))
  {
  }

  /** Once the cooldown has passed the user is rewarded again. */
  lemma RewardAgain(last: map<UserId, nat>, id: UserId, t: nat, later: nat, cooldown: int)
    requires later >= t + cooldown * 1000
    ensures !OnCooldown(last[id := t], id, later, Some(cooldown))
  {
  }

  /**
   * A never-rewarded user counts as last rewarded at time 0, so at a time
   * below the cooldown even the first message earns nothing. With a clock in
   * milliseconds since 1970 that time is long past, so this only shows where
   * the `|| 0` default lands.
   */
  lemma FirstMessageAtEpoch(id: UserId, now: nat, cooldown: int)
    requires now < cooldown * 1000
    ensures OnCooldown(map[], id, now, Some(cooldown))
  {
  }

  /**
   * During a boost started with multiplier m for d minutes, a reward is the
   * base times m; from its end time on it is the base again.
   */
  lemma AwardDuringBoost(config: Client.Config, m: int, d: nat, start: nat, now: nat)
    requires d > 0 && start <= now
    ensures var b := Boost.Started(m, d, start);
      var base := Js.OrElse(config.messageReward, 1);
      Award(config, b, now) == (if now < start + d * Boost.MINUTE_MS then base * m else base)
  {
    Boost.StartedLifetime(m, d, start, now);
  }

  /** The count goes up by exactly one from the stored value, a missing one counting as 0. */
  lemma CountedStep(users: map<UserId, User>, id: UserId)
    requires id in users
    ensures var after := Counted(users, id);
      after.Keys == users.Keys &&
      after[id].messagesCount == Some((if users[id].messagesCount.Some? then users[id].messagesCount.value else 0) + 1) &&
      after[id].coins == users[id].coins && after[id].key == users[id].key &&
      forall other :: other in users && other != id ==> after[other] == users[other]
  {
  }
}
