# kryptonite-bot economy core in Dafny

This project models the economy rules of the kryptonite-bot Discord bot.
Users earn coins by chatting, claim a daily reward, buy an executor key and a
premium role, and admins edit balances, run coin boosts and manage a trusted
list. The model keeps the hosted database as in-memory tables inside one
class, `Supabase.Db`:

- `users`: a map from Discord id to a user row;
- `trusted`: the trusted_users rows;
- `settings`: the system_settings rows;
- `boostRow`: the stored boost_system row;
- `logs`: the system_logs entries.

The `Client.Bot` class holds the rest of the shared state:

- the config.json object;
- the `boostSystem` cache;
- the two command collections;
- the boost-expiry callbacks still pending.

The two in-memory gates are classes of their own, each wrapping a keyed map of timestamps:

- `MessageHandler.RewardGate`, the per-user message-reward cooldown;
- `CooldownHandler.CommandCooldowns`, the per-(user, command) cooldown.

Every store call takes an explicit flag saying whether it succeeds. A failed
call becomes an error result, a swallowed error or a thrown one, exactly as
the JavaScript handles it. Each command also takes a record of such flags, and
its contract covers each fault path those flags can select. A store call that
itself makes several queries (updateCoins, setCoins and generateKey ensure the
row, read it and write it) takes one flag for all of them, so a failure
between those queries is not a separate path. Wall-clock time
is a `now` parameter, and the `Math.random()` key segments are parameters too.
Each command has an `Execute` method that performs the store calls in the
source's order. clearcoins is the exception: it has its collector,
`Respond` and `OnCollect`. The contract takes one of two forms:

- For addcoins, removecoins, setcoins, key, buykey, buyrole, their slash variants, trust, setspamtime and
  setmessagesneeded, the contract equals a pure `Run` function that states the reply and the new table, and
  the lemmas are about `Run`.
- For the other commands, `Execute`'s ensures state the effect directly, in terms of named functions:
  - booststart: `Validate`, `Boost.Started`, `StartEntry`, `TimerDelay`;
  - booststatus and its slash variant: `Report`;
  - massaddcoins: the folds `AfterListed`, `Processed`, `AfterMembers` and `MemberCount`;
  - massremovecoins: `AfterRemoval` and `Successes`;
  - clearcoins: `Respond` and `OnCollect`, with `ClearedTable` and `Successes`;
  - top and its slash variant: `GeneratePage`, with `Range` and `PageText`;
  - profile and its slash variant: `CardOf`.
  The lemmas are about those functions.

## Behaviours of the code the model makes explicit

Each of these is proved as a lemma about the code as written.

- **Refunds without a debit.** With the debit failing and the DM failing, a buykey purchase still refunds 10 coins (`BuyKey.RefundWithoutDebit`).
- **buyrole pays out on a failed grant.** If `roles.add` throws, the inner catch still credits 5 coins even though nothing was debited (`BuyRole.FailedGrantPaysOut`).
- **buyrole's free role.** If the confirmation reply fails after the debit, the role is kept and the coins come back (`BuyRole.FailedConfirmationFreeRole`).
- **Slash buyrole refunds a failed lookup.** The slash variant credits 5 coins for any error, even one thrown by the user lookup (`SlashBuyRole.FailedLookupPaysOut`).
- **A stale boost timer ends a newer boost** (`Boost.StaleTimerEndsNewerBoost`).
- **A boost of 35792 minutes or more ends at once.** Its delay exceeds the 2^31 − 1 ms that setTimeout accepts, so Node fires the callback after 1 ms (`BoostStart.LongBoostEndsAtOnce`).
- **A stale cooldown timer cuts a newer cooldown short.** The deletion timer of an earlier call deletes the key whatever it holds, so it can remove the entry of a later call that is still live (`CooldownHandler.StaleExpiryUnblocks`).
- **An adopted boost gets no timer.** At startup a boost ending exactly now is adopted as active (`Boost.EndingNowSurvivesStartup`), and only booststart arms an expiry callback. `DatabaseInit.InitializeBoostSystem`, `DatabaseInit.Init`, `BoostStatus.Execute` and `SlashBoostStatus.Execute` each ensure `bot.timers == old(bot.timers)`, so adopting a boost arms no timer.
- **removecoins can drive a balance below zero** (`RemoveCoins.GoesNegative`).
- **The slash key command can charge without storing a key.** It reads no error from `generateKey`, so it debits 100 coins even when no key was stored (`SlashKey.ChargedWithoutKey`).
- **massaddcoins retries a failed user.** A user whose update in the first loop failed is not marked processed, so the member loop credits them; a user credited in the first loop is never credited again (`MassAddCoins.RetriedAsMember`, `MassAddCoins.CreditedOnce`).
- **Cooldown keys can collide.** The key is `id-name`, so two different pairs can share it once an id contains a dash (`CooldownHandler.DashedIdsCollide`). This cannot happen for numeric snowflake ids (`CooldownHandler.SnowflakeKeysDistinct`).
- **The prefix `top` command always reports one page.** Its count is read from `data` of a head-only query, so it is always one page (`Top.Execute`). The slash variant reads `count` (`SlashTop.Execute`).
- **setspamtime removes only the first unit suffix.** The suffix is removed with `replace`, so `"5sec5sec"` becomes `"55sec"` and is stored as 55 seconds (`SetSpamTime.FirstSuffixOnly`), and `"sec5sec"` parses as 5 (see `Js.ReplaceFirst`). The setting it writes, `messageCooldown`, is never read by the reward gate (`SetSpamTime.RewardGateUnaffected`).
- **setmessagesneeded stores NaN.** It accepts `".5"`, which parseInt reads as NaN, and stores NaN (`SetMessagesNeeded.LeadingPointStoresNaN`).
- **commandHandler cannot seed every row.** `initializeSystemSettings` reads a `config` it never defines. Seeding therefore stops at the first missing cooldown or daily row, and those rows are never created there (`CommandHandler.InitializeSystemSettings`).
- **Exactly 365 days shows as "12 months"** (`Profile.YearBoundary`).

## Model

| member | source | states |
|---|---|---|
| Supabase.Db.constructor | supabase.js:11-12 | The store starts with the given tables and an empty log. |
| Supabase.Db.GetUser | supabase.js:14-27 | It returns the row exactly when the store is up and the id exists. Otherwise it returns not-found, or unreachable when the store is down. |
| Supabase.Db.CreateUser | supabase.js:29-51 | It inserts a fresh row (coins 0, no key, not banned) only for an absent id. An existing id is a conflict and leaves the table unchanged. |
| Supabase.Db.EnsureUser | supabase.js:53-66 | An existing row is left unchanged. An absent id gets the fresh row. The row is returned. |
| Supabase.Db.GetCoins | supabase.js:69-81 | It returns the balance when readable, and 0 with an error otherwise. |
| Supabase.Db.UpdateCoins | supabase.js:83-105 | After ensuring the row, coins become old + amount with no floor, and the new balance is returned. No other row or field changes. |
| Supabase.Db.SetCoins | supabase.js:107-123 | After ensuring the row, coins become exactly `amount`, with no sign check. |
| Supabase.Db.IsTrusted | supabase.js:126-144 | It is true exactly when the lookup succeeds and a trusted row exists. It defaults to deny. |
| Supabase.Db.GenerateKey | supabase.js:147-166 | After ensuring the row, the key is overwritten unconditionally with `KRYPTON-` and the three upper-cased segments, and that key is returned. |
| Supabase.Db.ValidateKey | supabase.js:168-184 | An unknown key or a down store is invalid. A key held by one banned user is `Banned`. Otherwise the answer is `Valid` with that user. |
| Supabase.Db.ClaimDaily | supabase.js:187-231 | Within 24 h of the last claim it reports the remaining hours and minutes and changes nothing. Otherwise it credits exactly 50 coins. It stamps last_daily only if the credit succeeded. |
| Supabase.Db.LogAction | supabase.js:277-293 | When up, it appends exactly one entry with the action, subject and details. Otherwise it appends nothing. |
| Supabase.Db.BanUser | supabase.js:234-253 | It sets is_banned and the reason on an existing row and leaves every other row alone. The log entry is separate. |
| Supabase.Db.UnbanUser | supabase.js:255-274 | It clears is_banned and the reason on an existing row. |
| Supabase.Db.TotalCoins | supabase.js:304-309 | getStats' coin total is the sum of the positive balances, or 0 on error. |
| Supabase.Db.Richest | supabase.js:337-343 | The chosen id has the largest balance among the candidates. |
| Supabase.Db.Ranked | supabase.js:337-343 | It returns every user exactly once, in descending coin order. |
| Supabase.Db.Leaderboard | supabase.js:337-350 | It returns a prefix of a descending ranking, of length min(limit, users). The query fails when the store is down. |
| Supabase.RankingLength | supabase.js:337-343 | A ranking lists every user: its length is the number of users. |
| Supabase.KeyFormat | supabase.js:153-159 | A generated key splits on `-` into `KRYPTON` and three upper-case base-36 segments. |
| Supabase.SegmentShape | supabase.js:153-155 | Each segment is upper-case base-36 text with no dash. |
| Supabase.NoDashSplit | supabase.js:153-159 | Text without a dash splits into itself alone. |
| Supabase.DailyCooldownBounds | supabase.js:199-208 | Hours and minutes left are exact to the minute, the minutes are below 60, and the hours are at most 24 (24 only when no time has passed). |
| Supabase.DailyWindowStaysOpen | supabase.js:199-208 | Once the daily claim is open it stays open at every later time. |
| Supabase.DailyCooldownIff | supabase.js:199-208 | A claim is open exactly when there was no previous claim or at least 24 h have elapsed. |
| Supabase.SumPositiveNonNegative | supabase.js:304-309 | The summed coin total is never negative. |
| Store.EnsuredFacts | supabase.js:53-61 | Ensuring keeps an existing row and every other row. It adds exactly the one id. |
| Store.CreditedFacts | supabase.js:89-98 | A credit changes only the coins of that one row, by exactly the amount. |
| Store.CreditedAdditive | supabase.js:89-98 | Two credits equal one credit of the summed amount. |
| Store.DebitThenRefund | supabase.js:89-98 | A debit followed by a refund of the same amount restores the table. |
| Store.DebitBelowZero | supabase.js:92 | A debit larger than the balance leaves it negative, because nothing clamps it. |
| Store.WithCoinsFacts | supabase.js:107-118 | setCoins replaces only the coins of that row. |
| DatabaseHandler.Window | handlers/databaseHandler.js:185-197 | The window holds at most `limit` rows. Row i of the window is rank offset + i. The window is full when enough rows remain. |
| DatabaseHandler.GetUser | handlers/databaseHandler.js:13-26 | It returns the row exactly when up and present, and null otherwise. |
| DatabaseHandler.CreateUser | handlers/databaseHandler.js:28-49 | The inserted row has coins 0 and messages_count 0, and only an absent id gets one. |
| DatabaseHandler.GetOrCreateUser | handlers/databaseHandler.js:51-59 | It returns the existing row, or else the freshly created one it inserted. |
| DatabaseHandler.AddCoins | handlers/databaseHandler.js:67-82 | After get-or-create it writes coins + amount and reports whether the write succeeded. A failed lookup throws. |
| DatabaseHandler.SetCoins | handlers/databaseHandler.js:84-98 | It writes exactly `amount` and reports whether the write succeeded. |
| DatabaseHandler.AddTrustedUser | handlers/databaseHandler.js:116-133 | It inserts one trusted row and reports success. An existing id or an error is false with no change. |
| DatabaseHandler.RemoveTrustedUser | handlers/databaseHandler.js:135-147 | It deletes the id from the trusted rows, and returns false on an error with no change. |
| DatabaseHandler.ClaimDaily | handlers/databaseHandler.js:150-168 | It checks no cooldown. One update writes coins + amount together with last_daily := now. |
| DatabaseHandler.CanClaimDaily | handlers/databaseHandler.js:170-182 | It is true when the user or last_daily is absent or unreadable, and otherwise exactly when 24 h have elapsed. |
| DatabaseHandler.GetLeaderboard | handlers/databaseHandler.js:185-199 | It returns the window of a descending ranking starting at rank `offset`, and no rows on an error. |
| DatabaseHandler.ClaimableAgrees | handlers/databaseHandler.js:170-182 | canClaimDaily agrees with supabase.js' cooldown test on every stored row. |
| DatabaseHandler.ClaimableBoundary | handlers/databaseHandler.js:176-179 | Exactly 24 h after the last claim is claimable, and one millisecond earlier is not. |
| Index.Parse | index.js:120-122 | The name is the trimmed text after the prefix up to its first space, lower-cased. Every argument is non-empty and has no space, and there are none exactly when the trimmed text has no space. |
| Index.ParseCommandShape | index.js:120-122 | The same shape, stated for the parse function itself. |
| Index.ParseCommandReadsBack | index.js:120-122 | For well-formed words, parsing prefix + joined words gives back the lower-cased name and the exact args. |
| Index.AuthorizationFacts | index.js:128-148 | The owner is always authorized. A non-owner is denied an owner-only command. An untrusted non-owner is denied every admin command. |
| Index.ExecuteCommand | index.js:157 | The client and its store take exactly the state the command's `execute` leaves, and the thrown error is returned. |
| Index.RunGated | index.js:151-177 | A live cooldown entry stops the command with no change. Otherwise the entry is set, the command runs, and a throw appends the 'error' row. The whole new state and cooldown map are stated. |
| Index.AdminPath | index.js:125-195 | Authorization comes first, from the owner id and the trust lookup. An unauthorized attempt only logs 'unauthorized_command'. An authorized one goes through the gated run. The whole new state and cooldown map are stated. |
| Index.RegularPath | index.js:199-227 | The gated run of the regular command, with the whole new state and cooldown map. |
| Index.Route | index.js:124-228 | The admin collection is tried first, then the regular one, and an unknown name does nothing. The whole new state and cooldown map are stated. |
| Index.Command | index.js:120-228 | The name and args are the parse of the content, and the outcome is the routing of that name. |
| Index.HandleMessage | index.js:106-233 | A bot message changes nothing. Otherwise the author is ensured. A message without the prefix goes to processMessage. A prefixed one is routed, and only an unknown name or a regular command that ran reaches processMessage, on the state it left. All of the new state is stated, and a prefixed message earns nothing while the prefix is unchanged. |
| Index.Prefixed | index.js:119-232 | A prefixed message from a user: the admin path and a blocked command end the handler, and the other outcomes reach processMessage on the routed state. |
| Index.Reward | index.js:232 | processMessage runs on the state as it now is, and its whole outcome is stated. |
| Index.AdminNamesShadowRegular | index.js:124-199 | A name in the admin collection is handled there, and the regular collection does not affect the outcome. |
| Index.RoutedKinds | index.js:124-228 | Routing has five outcomes. A regular command runs only for a name outside the admin collection, and a name is unknown exactly when it is in neither collection. |
| Index.UnknownNameChangesNothing | index.js:199-228 | An unknown name leaves the state and the cooldown map unchanged. |
| Index.DeniedOnlyLogs | index.js:139-195 | A denied author is not the owner. Nothing changes but at most one 'unauthorized_command' row. The owner-only text is shown exactly to a trusted author denied an owner-only command. |
| Index.BlockedChangesNothing | index.js:151-154 | A call stopped by the cooldown changes nothing. |
| Index.RanIsTheCommand | index.js:151-177 | A command that ran leaves its own state, plus the 'error' row when it threw, and its cooldown entry is set to now + cooldown·1000. |
| Client.Bot.constructor | index.js:11-51 | The client starts with the given store and config, empty command collections, the inactive boost `{false, 1, null}` and no pending timers. |
| MessageHandler.RewardGate.constructor | handlers/messageHandler.js:5 | The reward cooldown map starts empty. |
| MessageHandler.RewardGate.ProcessMessage | handlers/messageHandler.js:13-81 | Bot, prefixed or cooling-down messages change nothing. Otherwise the timestamp is set before the award, and the award is credited, logged and counted in that order. |
| MessageHandler.IncrementMessageCount | handlers/messageHandler.js:83-102 | The count becomes old (0 if missing) + 1, and 0 is returned when the row is unreadable. |
| MessageHandler.RewardSpacing | handlers/messageHandler.js:22-31 | Within the cooldown after a reward the same user waits. Other users are unaffected. |
| MessageHandler.RewardAgain | handlers/messageHandler.js:26 | Once the cooldown has elapsed the user is rewarded again. |
| MessageHandler.FirstMessageAtEpoch | handlers/messageHandler.js:22-26 | A never-seen user counts as last rewarded at 0, by the `|| 0` default. This only blocks a first message when the clock reads less than the cooldown after 1970, so with a real clock it never does. |
| MessageHandler.AwardDuringBoost | handlers/messageHandler.js:34-39 | The award is `messageReward \|\| 1`, multiplied exactly while the boost is live. |
| MessageHandler.CountedStep | handlers/messageHandler.js:89-95 | Counting adds exactly 1 to messages_count and nothing else changes. |
| MessageHandler.PrefixedEarnsNothing | handlers/messageHandler.js:13-19 | processMessage changes nothing for a message carrying the prefix. |
| MessageHandler.ProcessedCreditsAuthor | handlers/messageHandler.js:22-81 | A rewarded message stamps the author and credits exactly the award to the ensured row. No other row, key or part of the state changes, apart from the logs. |
| CooldownHandler.CommandCooldowns.constructor | handlers/cooldownHandler.js:1 | The command cooldown map starts empty. |
| CooldownHandler.CommandCooldowns.Check | handlers/cooldownHandler.js:11-60 | A command with no cooldown is never blocked. A live entry blocks and leaves the map unchanged. Otherwise the entry is set to now + cooldown·1000. |
| CooldownHandler.CommandCooldowns.Expire | handlers/cooldownHandler.js:55-57 | The deletion timer deletes the key, whatever it now holds, and nothing else. |
| CooldownHandler.KeyInjective | handlers/cooldownHandler.js:17 | For dash-free ids the key determines the user and the command. |
| CooldownHandler.SnowflakeKeysDistinct | handlers/cooldownHandler.js:17 | Different (snowflake user, command) pairs get different keys. |
| CooldownHandler.DashedIdsCollide | handlers/cooldownHandler.js:17 | Two different pairs can share a key when the id contains a dash. |
| CooldownHandler.OtherKeysUnaffected | handlers/cooldownHandler.js:17-52 | A check on one key never changes whether another key is blocked. |
| CooldownHandler.BlockedForCooldown | handlers/cooldownHandler.js:28-52 | After an allowed call the key is blocked exactly until now + cooldown·1000. |
| CooldownHandler.ExpiryInvisible | handlers/cooldownHandler.js:23-28 | Deleting an expired entry changes no blocking decision. |
| CooldownHandler.StaleExpiryUnblocks | handlers/cooldownHandler.js:23-57 | A call allowed after the first cooldown has passed is blocked, but the first call's deletion timer removes its entry and unblocks the key early. |
| CooldownHandler.LiveExpiryUnblocks | handlers/cooldownHandler.js:55-57 | After the deletion the key is never blocked. |
| Boost.Remaining | commands/booststatus.js:34-37 | The split is hours·60 + mins = ⌊remaining/60000⌋ with mins < 60. |
| Boost.LooksInactiveIffNotLive | commands/booststatus.js:10 | The three-part inactivity test is exactly the negation of "active, with an end time in the future". |
| Boost.StartedLifetime | commands/admin/booststart.js:48-55 | A started boost is live exactly until now + duration·60000. |
| Boost.ExpiredIsNotLive | handlers/databaseInit.js:67 | A boost reset at startup was not live. |
| Boost.EndingNowSurvivesStartup | handlers/databaseInit.js:67 | A boost ending exactly at startup is not reset, although it is no longer live. |
| Boost.StaleTimerEndsNewerBoost | commands/admin/booststart.js:119-125 | An earlier boost's timer ends a later boost that is still live. |
| Boost.AfterTimerIdempotent | commands/admin/booststart.js:119-125 | The callback leaves the boost inactive, a second firing changes nothing, and an inactive boost is untouched. |
| Boost.CountReadsBack | commands/admin/booststart.js:77 | The displayed count reads back as the number shown. |
| Boost.DurationTextLeads | commands/admin/booststart.js:72-83 | The display leads with the hours when there are any, and with the minutes otherwise. |
| Boost.DurationSplit | commands/admin/booststart.js:72-73 | hours·60 + minutes = duration with minutes < 60. |
| BoostStart.ValidateSpec | commands/admin/booststart.js:10-45 | Each refusal happens exactly when its check is the first one to fail. An accepted pair is a multiplier above 1 and a parsed duration above 0. |
| BoostStart.ValidateAccepts | commands/admin/booststart.js:10-45 | A decimal duration above 0 with a multiplier above 1 is accepted as written. |
| BoostStart.ValidateTruncates | commands/admin/booststart.js:34 | A fractional duration is cut to whole minutes, as parseInt does. |
| BoostStart.Execute | commands/admin/booststart.js:10-161 | Invalid arguments change nothing. Valid ones install the boost in cache and store, log 'boost_start' and arm one callback after the duration as setTimeout clamps it. |
| BoostStart.Start | commands/admin/booststart.js:48-90 | The cache is `{true, multiplier, now + d·60000}`, the row is upserted to it, and the callback is armed after the clamped delay. |
| BoostStart.Fire | commands/admin/booststart.js:119-161 | Whenever any boost is active it resets cache and row to `{false, 1, null}` and logs 'boost_end' stamped with the firing time. Otherwise it changes nothing. |
| BoostStart.TimerDelay | commands/admin/booststart.js:119-125 | setTimeout's delay: the requested one when it lies in 1..2^31 − 1 ms, and 1 ms otherwise. |
| BoostStart.LongBoostEndsAtOnce | commands/admin/booststart.js:48-55 | A boost of 35792 minutes or more gets its callback 1 ms after the start, while it is still live. A shorter boost gets it at its end time. |
| BoostStatus.Execute | commands/booststatus.js:10-47 | A live cache is reported. Otherwise the stored row is adopted only when live, and the cache is left alone and no boost is reported when it is not. No timer is armed. |
| BoostStatus.StatusAtStart | commands/booststatus.js:34-47 | Right after booststart the status shows the same duration text booststart showed. |
| SlashBoostStatus.Execute | slashCommands/booststatus.js:9-29 | It follows the same reconciliation as the prefix command, and is active exactly when the boost is live. |
| DatabaseInit.Init | handlers/databaseInit.js:4-31 | A failed connection test returns false and changes nothing. Otherwise the boost cache and row are as InitializeBoostSystem states them: a missing row is inserted, an expired one is reset, a live one is adopted, a fetch error leaves both, and a throw sets the default cache. The defaults are then seeded, and it returns true. |
| DatabaseInit.InitializeBoostSystem | handlers/databaseInit.js:33-101 | A missing row is inserted as the default. An active expired row is reset in store and cache, and any other row is adopted. A fetch error leaves the cache alone, and an exception sets the default. |
| DatabaseInit.InitializeSystemSettings | handlers/databaseInit.js:125-143 | Each default is inserted only if absent, and a failed lookup skips that key. |
| DatabaseInit.SeededKeepsExisting | handlers/databaseInit.js:125-143 | Seeding never overwrites an existing row. |
| DatabaseInit.SeededOnlyAdds | handlers/databaseInit.js:125-143 | Only default keys whose lookup succeeded are added. |
| DatabaseInit.SeededInserts | handlers/databaseInit.js:125-143 | Each missing, readable default ends up with its default value. |
| DatabaseInit.DefaultsDistinct | handlers/databaseInit.js:106-122 | The three default keys are distinct. |
| CommandHandler.LoadCommands | handlers/commandHandler.js:13-16 | Every regular module is registered under its name, in order. |
| CommandHandler.LoadAdminCommands | handlers/commandHandler.js:24-27 | Every admin module is registered under its name, in order. |
| CommandHandler.InitializeSystemSettings | handlers/commandHandler.js:47-149 | Each lookup and each write has its own failure. A boost row that is missing, or whose lookup fails, leaves the cache, and a missing one is inserted unless its insert fails. A present row is adopted, and reset in cache and row when expired. shop_prices is inserted when absent and its insert succeeds, whatever its lookup did. The pass completes exactly when both config-reading rows exist and both lookups succeed. |
| CommandHandler.Init | handlers/commandHandler.js:6-34 | Both directories are registered, the admin one only when it exists, then the settings pass runs. Its effect on the boost cache and row and on the settings is stated, with whether the pass completed. |
| CommandHandler.RegisteredKeys | handlers/commandHandler.js:13-16 | The registered names are the old ones plus every loaded module's name. |
| CommandHandler.RegisteredLastWins | handlers/commandHandler.js:13-16 | Of two modules with the same name, the later one is registered. |
| CommandHandler.RegisteredElsewhere | handlers/commandHandler.js:13-16 | A name no module carries keeps its old entry or its absence. |
| KeyCommand.Execute | commands/key.js:9-122 | The reply and tables are those of the command's sequence: ban check, existing-key re-send, 100-coin threshold, generate then debit, no refund on DM failure. |
| KeyCommand.ChargesOnlyForNewKey | commands/key.js:26-86 | Coins change only when a key is issued. Then exactly 100 leave, the balance stays ≥ 0, and the new key is stored. |
| KeyCommand.RefusalsChangeNothing | commands/key.js:26-83 | A ban, an existing key, too few coins or an error change nothing beyond the ensure, and log nothing. |
| KeyCommand.OnlyCallerChanges | commands/key.js:12-86 | No other user's row changes. |
| SlashKey.Execute | slashCommands/key.js:7-53 | It is the same sequence, with no error check on generateKey and a DM failure going to the outer catch. |
| SlashKey.AgreesWithPrefix | slashCommands/key.js:9-49 | With no faults the slash command does what the prefix command does. |
| SlashKey.ChargedWithoutKey | slashCommands/key.js:37-38 | A failed generateKey still debits 100, where the prefix command aborts. |
| SlashKey.ChargesAtMostOnce | slashCommands/key.js:30-38 | The balance either stays or drops by exactly 100 and stays ≥ 0. |
| BuyKey.Execute | commands/buykey.js:8-89 | Coins below 10 refuse. Otherwise it generates, debits 10 and DMs, and refunds 10 if the DM fails. |
| BuyKey.Deliver | commands/buykey.js:46-89 | The debit, DM, refund and confirmation outcomes follow the fault flags. |
| BuyKey.OverwritesAnyKey | commands/buykey.js:27-49 | With no faults, any existing key is overwritten and exactly 10 coins leave, whatever the ban state. |
| BuyKey.RefundKeepsKey | commands/buykey.js:85-89 | A DM refund keeps the new key, and the net balance change is 0 when both writes succeed. |
| BuyKey.RefundWithoutDebit | commands/buykey.js:46-89 | A failed debit followed by a DM failure still refunds: +10 net. |
| BuyKey.OnlyBuyerChanges | commands/buykey.js:10-89 | No other user's row changes. |
| SlashBuyKey.Execute | slashCommands/buykey.js:7-39 | The same flow as the prefix command, without checking generateKey's error. |
| SlashBuyKey.AgreesWhenKeyStored | slashCommands/buykey.js:10-36 | When the key is stored it does what the prefix command does. |
| SlashBuyKey.SoldWithoutKey | slashCommands/buykey.js:19-20 | A failed generateKey still charges 10 and leaves the key unchanged. |
| BuyRole.Execute | commands/buyrole.js:9-137 | Guild, role and member checks come first, then the 5-coin check. The role is granted before the debit, and the inner catch refunds 5. |
| BuyRole.Grant | commands/buyrole.js:76-126 | The grant, debit, confirmation and refund outcomes follow the fault flags. |
| BuyRole.MissingContextChangesNothing | commands/buyrole.js:14-48 | No guild, role or member means no change and no log. |
| BuyRole.RefusalsChangeNothing | commands/buyrole.js:51-74 | Too few coins or a lookup error change nothing beyond the ensure. |
| BuyRole.PurchaseCosts | commands/buyrole.js:65-97 | A successful purchase had ≥ 5 coins and costs exactly 5 when the debit succeeds. |
| BuyRole.FailedGrantPaysOut | commands/buyrole.js:112-116 | If the grant throws, the user gains 5 coins. |
| BuyRole.FailedConfirmationFreeRole | commands/buyrole.js:76-116 | If the confirmation fails after the debit, the role is kept and the balance is restored. |
| SlashBuyRole.Execute | slashCommands/buyrole.js:8-37 | The same flow, with a refund of 5 on any error in the try block. |
| SlashBuyRole.MissingContextChangesNothing | slashCommands/buyrole.js:11-15 | No guild, role or member means no change. |
| SlashBuyRole.FailedLookupPaysOut | slashCommands/buyrole.js:16-36 | A failed user lookup still credits 5. |
| SlashBuyRole.AgreesPastLookup | slashCommands/buyrole.js:18-32 | Once the lookup succeeds it does what the prefix command does. |
| AddCoins.ValidateSpec | commands/admin/addcoins.js:10-45 | Usage when fewer than 2 args, no-mention when there is no mention. It accepts exactly a parsed integer > 0 (≥ 0 for setcoins). |
| AddCoins.ValidateAccepts | commands/admin/addcoins.js:35-45 | A decimal amount with a mention is accepted as written. |
| AddCoins.ApplyChange | commands/admin/addcoins.js:48-58 | Ensure then updateCoins(delta), with the reply following the outcome. |
| AddCoins.Execute | commands/admin/addcoins.js:8-64 | Validation, then the change, then the 'admin_add_coins' log with the admin and amount. |
| AddCoins.AddRaisesBalance | commands/admin/addcoins.js:48-58 | A success raises the target by exactly the amount, and no other row changes. |
| RemoveCoins.Execute | commands/admin/removecoins.js:8-65 | Validation, then updateCoins(-amount), then the 'admin_remove_coins' log. |
| RemoveCoins.GoesNegative | commands/admin/removecoins.js:55 | Removing more than the balance leaves it negative. |
| RemoveCoins.UndoesAdd | commands/admin/removecoins.js:48-59 | removecoins with the same arguments undoes addcoins exactly. |
| SetCoins.Execute | commands/admin/setcoins.js:8-65 | Validation with 0 allowed, then setCoins, then the 'admin_set_coins' log. |
| SetCoins.SetsExactly | commands/admin/setcoins.js:48-59 | A success leaves exactly the amount (≥ 0) on the target and changes no other row. |
| SetCoins.Idempotent | commands/admin/setcoins.js:48-59 | Running it twice is the same as running it once. |
| SetCoins.ZeroAccepted | commands/admin/setcoins.js:35-45 | 0 is accepted by setcoins and refused by addcoins. |
| MassAddCoins.Execute | commands/admin/massaddcoins.js:8-79 | It credits every listed user, then every unprocessed non-bot member. The count is the successes of both loops. A failed fetch aborts first. |
| MassAddCoins.CreditAll | commands/admin/massaddcoins.js:44-79 | Once the rows are fetched: the listed rows are credited, the eligible members are credited unless the member fetch fails, and the log row carries the count of both loops. |
| MassAddCoins.CreditListed | commands/admin/massaddcoins.js:44-54 | The first loop credits each listed user and records the successes in order. |
| MassAddCoins.CreditMembers | commands/admin/massaddcoins.js:57-73 | The second loop ensures and credits each eligible member and counts the successes. |
| MassAddCoins.AfterListedRow | commands/admin/massaddcoins.js:44-54 | Each row gains the amount exactly when it is listed and its update succeeds. |
| MassAddCoins.ProcessedMembers | commands/admin/massaddcoins.js:51 | An id is recorded exactly when it is listed and its update succeeded. |
| MassAddCoins.AfterMembersElsewhere | commands/admin/massaddcoins.js:59-73 | Ids matching no eligible member are untouched. |
| MassAddCoins.AfterMembersRow | commands/admin/massaddcoins.js:59-73 | An eligible member gains the amount once, when its update succeeds. |
| MassAddCoins.CreditedOnce | commands/admin/massaddcoins.js:44-73 | A user credited in the first loop gains the amount exactly once overall. |
| MassAddCoins.RetriedAsMember | commands/admin/massaddcoins.js:44-73 | A non-bot member whose first update failed is retried in the member loop and ends with the amount credited once exactly when that second update succeeds. |
| MassAddCoins.CountBound | commands/admin/massaddcoins.js:44-71 | The count never exceeds the rows plus the members. |
| MassRemoveCoins.Execute | commands/admin/massremovecoins.js:8-60 | It debits min(amount, coins) from each user with coins > 0, counts the successes and logs them. |
| MassRemoveCoins.RemoveListed | commands/admin/massremovecoins.js:44-54 | The loop debits each selected row by min(amount, balance as read), and the count is the number of successful updates. |
| MassRemoveCoins.RemovalRow | commands/admin/massremovecoins.js:44-54 | A listed row whose update succeeds loses min(amount, coins). Others are unchanged. |
| MassRemoveCoins.NeverNegative | commands/admin/massremovecoins.js:35-54 | A touched balance ends at max(0, coins − amount), so it is never negative. |
| MassRemoveCoins.SuccessesBound | commands/admin/massremovecoins.js:44-54 | The count is at most the rows, and equals them when nothing fails. |
| ClearCoins.Collector.constructor | commands/admin/clearcoins.js:24 | The collector starts open and empty. |
| ClearCoins.Collector.Offer | commands/admin/clearcoins.js:21-26 | It takes one message, and only a 'yes' or 'no' from the invoker within 30 s, then it ends. |
| ClearCoins.Collector.Tick | commands/admin/clearcoins.js:92-104 | After 30 s an open collector ends empty, which is the timeout. |
| ClearCoins.Respond | commands/admin/clearcoins.js:21-26 | A message reaches the 'collect' handler exactly when the collector takes it, that is the invoker's 'yes' or 'no' within 30 s, before any other. A message not taken changes no table. 'no' cancels with no change to the users or the log. 'yes' with a failed select gives Failed with no change. 'yes' otherwise clears every listed row whose update succeeds and logs the invoker. |
| ClearCoins.OnCollect | commands/admin/clearcoins.js:26-89 | 'yes' sets every fetched user's coins to 0, counts the successes and logs them. Anything else cancels with no change. |
| ClearCoins.FilterFacts | commands/admin/clearcoins.js:21 | The filter is case-insensitive and exact, and ignores other authors. |
| ClearCoins.ClearedRow | commands/admin/clearcoins.js:42-47 | A listed row whose update succeeds is zeroed. Others are unchanged. |
| ClearCoins.ClearedKeys | commands/admin/clearcoins.js:42-47 | Clearing adds and removes no rows. |
| ClearCoins.ClearsEverything | commands/admin/clearcoins.js:31-47 | With no failures every balance is 0 and the count is the number of users. |
| ClearCoins.SuccessesAll | commands/admin/clearcoins.js:42-47 | With no failures the count is the number of rows. |
| Trust.Execute | commands/admin/trust.js:9-224 | Owner only. add, remove and list act on the trusted rows as the checks say, and log trust_added or trust_removed. |
| Trust.OnlyOwnerChanges | commands/admin/trust.js:11-20 | A non-owner is denied with no change. Any change implies the owner's add or remove, and a log entry. |
| Trust.AddSpec | commands/admin/trust.js:38-84 | An already trusted id is rejected. Otherwise exactly one row is inserted with added_by = the author. |
| Trust.RemoveSpec | commands/admin/trust.js:111-151 | An id that is not trusted is rejected. Otherwise exactly that id is deleted. |
| Trust.RemoveUndoesAdd | commands/admin/trust.js:38-151 | remove undoes add. |
| Trust.ListNeedsMention | commands/admin/trust.js:22-34 | `list` without a mention is a usage error, and an unknown subcommand is an error. `list` shows every trusted id. |
| Top.Range | commands/top.js:27-35 | The page holds at most n rows, and row i is rank start + i. |
| Top.TotalPages | commands/top.js:20-24 | There is always at least one page. |
| Top.TotalPagesSpec | commands/top.js:20-24 | totalPages = ⌈count/10⌉, or 1 for no users. |
| Top.NavigateSpec | commands/top.js:132-145 | first → 1, previous → max(1, p−1), next → min(total, p+1), last → total. The page stays in 1..total. |
| Top.DisabledMeansStuck | commands/top.js:77-103 | A button is disabled exactly when pressing it would leave the page unchanged. |
| Top.StuckOnFirstPage | commands/top.js:20-24 | With the unread count, no button moves off page 1. |
| Top.EveryRowOnItsPage | commands/top.js:17-57 | Every ranked user appears on exactly one page, page ⌊i/10⌋+1, at rank i + 1. |
| Top.GeneratePage | commands/top.js:15-73 | The page shows ranks (p−1)·10 .. (p−1)·10+9 of a descending ranking, built in a loop. On an error it fails. |
| Top.Leaderboard.constructor | commands/top.js:106-107 | The board starts on page 1 of its total. |
| Top.Leaderboard.Click | commands/top.js:121-145 | A click by anyone but the invoker changes nothing. Otherwise the page moves as the switch says, staying in range. |
| Top.Execute | commands/top.js:10-155 | The prefix command always shows one page with all four buttons disabled. On success that page lists the first ten users of a descending ranking of the table, with their text. |
| SlashTop.Execute | slashCommands/top.js:12-65 | The slash command uses ⌈users/10⌉ pages (1 when the count fails) and the matching buttons. On success page 1 lists the first ten users of a descending ranking of the table, with their text. |
| SlashTop.NextClicksReach | slashCommands/top.js:54-65 | k presses of next from page 1 reach min(k+1, total). |
| SlashTop.EveryUserReachable | slashCommands/top.js:11-65 | Every ranked user is reachable from page 1 by pressing next. |
| SetSpamTime.Execute | commands/admin/setspamtime.js:10-52 | On success it writes `messageCooldown` and nothing else. |
| SetSpamTime.AcceptedBounds | commands/admin/setspamtime.js:20-42 | Accepted values lie in 1..600, with an authorized author and an argument. |
| SetSpamTime.CaseInsensitive | commands/admin/setspamtime.js:28 | The input is lower-cased before parsing. |
| SetSpamTime.Seconds | commands/admin/setspamtime.js:31-36 | 'Nsec' with N in 1..60 gives N. |
| SetSpamTime.FirstSuffixOnly | commands/admin/setspamtime.js:30-36 | Only the first 'sec' is cut out, so '5sec5sec' is accepted as 55 seconds. |
| SetSpamTime.Minutes | commands/admin/setspamtime.js:37-42 | 'Nmin' with N in 1..10 gives 60·N. |
| SetSpamTime.TooManySeconds | commands/admin/setspamtime.js:31-36 | 'Nsec' above 60 is refused. |
| SetSpamTime.RewardGateUnaffected | handlers/messageHandler.js:26 | The value it writes does not change the reward gate's decision. |
| SetMessagesNeeded.Execute | commands/admin/setmessagesneeded.js:8-36 | On success it writes `coinsPerMessages`. |
| SetMessagesNeeded.AcceptedBounds | commands/admin/setmessagesneeded.js:20-31 | An accepted value is authorized, numeric, and an integer in 1..100 (or NaN). |
| SetMessagesNeeded.Decimal | commands/admin/setmessagesneeded.js:24-31 | A decimal n is accepted exactly when 1 ≤ n ≤ 100. |
| SetMessagesNeeded.Fraction | commands/admin/setmessagesneeded.js:28-31 | n.f is accepted as n. |
| SetMessagesNeeded.LeadingPointStoresNaN | commands/admin/setmessagesneeded.js:24-34 | ".5" passes the numeric check and stores NaN. |
| Uptime.SplitSpec | commands/admin/uptime.js:6-10 | days·86400 + hours·3600 + minutes·60 + seconds = total, with hours < 24 and minutes, seconds < 60. |
| Uptime.SplitUnique | commands/admin/uptime.js:6-10 | That decomposition is the only one in range. |
| Profile.BucketSpec | commands/profile.js:69-91 | More than 365 days gives years, 31..365 days gives months (≤ 12), 1..30 days gives days, under a day gives hours, and under an hour gives minutes. |
| Profile.YearBoundary | commands/profile.js:74-79 | 365 days shows 12 months, and 366 days shows 1 year. |
| Profile.Symmetric | commands/profile.js:71 | The difference is absolute. |
| Profile.PluralIff | commands/profile.js:74-89 | The unit is plural exactly when the number is not 1. |
| Profile.CardDefaults | commands/profile.js:27-30 | A missing messages_count shows 0, and the key status is whether a non-empty key is set. |
| Profile.Execute | commands/profile.js:8-35 | The target is ensured, then read. An unreadable row is the error reply, and otherwise the card of the stored row is shown. |
| SlashProfile.Execute | slashCommands/profile.js:31-57 | It ensures, reads, and gives no card when the row is unreadable. |
| SlashProfile.NewUserCard | slashCommands/profile.js:32-47 | A new user sees 0 coins, 0 messages, no key and "0 minutes". |

## Left out

- Discord rendering: embeds, replies, DMs as text, log-channel sends and console output are not modelled. A failed DM or reply is a fault flag.
- Floating point: `parseFloat` multipliers and the fractional rewards they give are not modelled. The multiplier arrives as an integer (None for NaN).
- `Math.random()`: the three key segments are parameters, constrained to the shape of base-36 random text.
- Real timers: `setTimeout` in booststart and in the cooldown handler are not modelled. The pending callbacks are explicit (`BoostStart.Fire`, `CooldownHandler.CommandCooldowns.Expire`). The timer that deletes the cooldown reply is not modelled either.
- Concurrency: interleaved awaited read-modify-write calls (lost updates) are not modelled. The model is sequential.
- File I/O: reading trust.json is a parameter (`trustFile`). Writing config.json back to disk is not modelled; only the in-memory config object changes.
- Number forms: `parseInt` and `Number` read hexadecimal, octal and binary prefixes. The model's `Js.ParseInt` reads decimal only and treats those prefixes as NaN.
- Js.ParseInt: numbers are exact integers, while JavaScript rounds them to doubles. A parsed amount or a balance above 2^53 is exact in the model but rounded in the bot.
- Js.Lower: `toLowerCase` and `toUpperCase` are modelled for ASCII letters only. Other characters map to themselves, so for example the KELVIN SIGN (U+212A) is not lower-cased to 'k'.
- Js.Trim: only the ASCII white space, U+00A0 and U+FEFF are removed. JavaScript's `trim` also removes U+1680, U+2000 to U+200A, U+2028, U+2029, U+202F, U+205F and U+3000, and a prefixed message padded with those parses differently.
- Supabase.Db.UpdateCoins: one flag covers the ensure, the read and the write, so a failure after the ensure has inserted a row is not modelled. The same holds for Supabase.Db.SetCoins and Supabase.Db.GenerateKey.
- `avatar_url` and `displayAvatarURL()` are not stored in the user rows.
- getStats: `total_users` and `active_users` are left out. They are head-only count queries on the logs table, whose semantics are not modelled.
- getRecentLogs is not modelled; it is a read-only query of the logs.
- databaseHandler.js: `getCoins`, `isTrusted` and `logAction` are left out. They mirror supabase.js (`Supabase.Db.GetCoins`, `Supabase.Db.IsTrusted`) or write a `logs` table that nothing reads.
- BuyKey.Execute: a failed confirmation reply after a successful DM is counted as a DM failure and refunded, the same as the catch at commands/buykey.js:85-89 would.
- Top.Leaderboard.Click: regenerating and re-rendering the page after a click is not modelled, and neither is the collector's 'end' handler that disables the buttons.
- Top.Leaderboard: the button collector's 2-minute lifetime (commands/top.js:115-117) is not modelled, so a click is accepted at any time.
- index.js: the status rotation timer is not modelled, and neither are the process and shard error handlers.
- Index.HandleMessage: what a command does when it runs is the parameter `exec`, a function from the state the command finds to the state it leaves and the error it throws. Each command's own module states its effect, through its `Run` or its `Execute` contract, but the dispatcher is not tied to a particular command.
- The command directory listing is given as a sequence of loaded modules, not read from disk.
- These files are not part of this model, being display or thin wrappers with no logic beyond `||` defaults:
  - help, coins, shop, info, spamtime, daily and ahelp;
  - restart and ping;
  - saveCoins, loadCoins and migrate-data;
  - errorLogger, embedBuilder, interactionHandler and slashCommands/cmds.js.
