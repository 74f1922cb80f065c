/**
 * The hosted database as values: the rows of the `users`, `trusted_users`,
 * `system_settings` and `system_logs` tables, the errors a store call can
 * report, and the pure row updates the ledger operations are specified by.
 */
module Store {
  import opened Wrappers

  type UserId = string

  /** A `users` row. Absent columns (a SQL null or an unset column) are None. */
  datatype User = User(
    username: Option<string>,
    coins: int,
    joinedAt: nat,
    lastDaily: Option<nat>,
    key: Option<string>,
    isBanned: bool,
    banReason: Option<string>,
    messagesCount: Option<int>)

  /** A `trusted_users` row. */
  datatype TrustRow = TrustRow(username: Option<string>, addedBy: Option<UserId>, addedAt: nat)

  /**
   * The values kept in `system_settings` under the keys other than
   * 'boost_system', by the shape each key stores.
   */
  datatype Setting =
    | SecondsSetting(seconds: int)
    | CoinsSetting(coins: int)
    | ShopPrices(key: int, role: int)

  /** A `system_logs` row: an action name, the user it concerns, and its details. */
  datatype LogEntry = LogEntry(action: string, subject: UserId, details: seq<(string, string)>, at: nat)

  /**
   * Why a store call failed: no row (the PostgREST code PGRST116 of `.single()`),
   * a key already present, more than one row for `.single()`, or the store
   * could not be reached at all.
   */
  datatype StoreError = NotFound | Conflict | MultipleRows | Unreachable

  const COOLDOWN_KEY := "message_cooldown"
  const DAILY_KEY := "daily_reward"
  const SHOP_KEY := "shop_prices"

  /** The row supabase.js inserts for a new user. */
  function NewUser(username: Option<string>, now: nat): User {
    User(username, 0, now, None, None, false, None, None)
  }

  /** The table after a get-or-create of `id` that would insert `created`. */
  function Ensured(users: map<UserId, User>, id: UserId, created: User): map<UserId, User> {
    if id in users then users else users[id := created]
  }

  /** The table after the `coins` column of `id` is overwritten with `c`. */
  function WithCoins(users: map<UserId, User>, id: UserId, c: int): map<UserId, User>
    requires id in users
  {
    users[id := users[id].(coins := c)]
  }

  /** The table after `amount` (of either sign) is added to the balance of `id`. */
  function Credited(users: map<UserId, User>, id: UserId, amount: int): map<UserId, User>
    requires id in users
  {
    WithCoins(users, id, users[id].coins + amount)
  }

  /** The ids whose `key` column holds `key`. */
  function KeyHolders(users: map<UserId, User>, key: string): set<UserId> {
    set id | id in users && users[id].key == Some(key)
  }

  // ---- lemmas ----

  /** Get-or-create keeps an existing row as it is and otherwise adds exactly the created one. */
  lemma EnsuredFacts(users: map<UserId, User>, id: UserId, created: User)
    ensures id in Ensured(users, id, created)
    ensures Ensured(users, id, created).Keys == users.Keys + {id}
    ensures id in users ==> Ensured(users, id, created) == users
    ensures id !in users ==> Ensured(users, id, created)[id] == created
    ensures forall other :: other in users ==> Ensured(users, id, created)[other] == users[other]
  {
  }

  /** A credit changes the balance of `id` by exactly `amount` and touches nothing else. */
  lemma CreditedFacts(users: map<UserId, User>, id: UserId, amount: int)
    requires id in users
    ensures var u := Credited(users, id, amount);
      u.Keys == users.Keys &&
      u[id].coins == users[id].coins + amount &&
      u[id].username == users[id].username && u[id].key == users[id].key &&
      u[id].lastDaily == users[id].lastDaily && u[id].isBanned == users[id].isBanned &&
      u[id].banReason == users[id].banReason && u[id].messagesCount == users[id].messagesCount &&
      u[id].joinedAt == users[id].joinedAt &&
      forall other :: other in users && other != id ==> u[other] == users[other]
  {
  }

  /** Two credits to one user amount to a single credit of their sum. */
  lemma CreditedAdditive(users: map<UserId, User>, id: UserId, a: int, b: int)
    requires id in users
    ensures id in Credited(users, id, a)
    ensures Credited(Credited(users, id, a), id, b) == Credited(users, id, a + b)
  {
  }

  /** A refund of exactly what was debited restores the table. */
  lemma DebitThenRefund(users: map<UserId, User>, id: UserId, a: int)
    requires id in users
    ensures id in Credited(users, id, -a)
    ensures Credited(Credited(users, id, -a), id, a) == users
  {
    CreditedAdditive(users, id, -a, a);
    assert users[id].(coins := users[id].coins) == users[id];
  }

  /** There is no floor: debiting more than the balance leaves it negative. */
  lemma DebitBelowZero(users: map<UserId, User>, id: UserId, a: int)
    requires id in users && a > users[id].coins
    ensures Credited(users, id, -a)[id].coins < 0
  {
  }

  /** Overwriting the balance makes it exactly `c`, whatever its sign, and touches nothing else. */
  lemma WithCoinsFacts(users: map<UserId, User>, id: UserId, c: int)
    requires id in users
    ensures WithCoins(users, id, c).Keys == users.Keys
    ensures WithCoins(users, id, c)[id] == users[id].(coins := c)
    ensures forall other :: other in users && other != id ==> WithCoins(users, id, c)[other] == users[other]
  {
  }
}
