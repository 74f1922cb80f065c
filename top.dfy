/**
 * commands/top.js: the paged leaderboard. A page is the ranking's slice
 * starting at (page - 1) * 10, at most 10 rows, each shown with its overall
 * rank. The page count is read from the `data` field of a head-only count
 * query, which carries no rows, so it always comes out as 1 and the buttons
 * never leave page 1. Only the invoker's clicks move the page.
 */
module Top {
  import opened Wrappers
  import opened Store
  import Js
  import Supabase

  const USERS_PER_PAGE: nat := 10

  datatype Button = First | Previous | Next | Last | OtherButton

  /** The disabled flags of the four buttons, in order. */
  datatype Buttons = Buttons(first: bool, previous: bool, next: bool, last: bool)

  /** A generated page: its text, the ids shown, and the page count it reports. */
  datatype Page = Page(text: string, rows: seq<UserId>, totalPages: nat)

  function StartIndex(page: nat): nat
    requires page >= 1
  {
    (page - 1) * USERS_PER_PAGE
  }

  /** `.range(start, start + n - 1)`: the rows from `start`, at most `n` of them. */
  function Range(rows: seq<UserId>, start: nat, n: nat): (r: seq<UserId>)
    ensures |r| <= n
    ensures forall i :: 0 <= i < |r| ==> start + i < |rows| && r[i] == rows[start + i]
  {
    var a := if start <= |rows| then start else |rows|;
    var b := if start + n <= |rows| then start + n else |rows|;
    rows[a..b]
  }

  /** `Math.ceil((count || 0) / 10) || 1`; None is a null count. */
  function TotalPages(count: Option<nat>): (t: nat)
    ensures t >= 1
  {
    var c := if count.Some? then count.value else 0;
    var pages := (c + USERS_PER_PAGE - 1) / USERS_PER_PAGE;
    if pages == 0 then 1 else pages
  }

  /** The switch on the button id (no default case). */
  function Navigate(page: nat, total: nat, b: Button): nat {
    match b
    case First => 1
    case Previous => if page - 1 > 1 then page - 1 else 1
    case Next => if page + 1 < total then page + 1 else total
    case Last => total
    case OtherButton => page
  }

  function ButtonRow(page: nat, total: nat): Buttons {
    Buttons(page == 1, page == 1, page == total, page == total)
  }

  /** A number as a template literal prints it. */
  function IntText(n: int): string {
    if n < 0 then "-" + Js.DecimalString(-n) else Js.DecimalString(n)
  }

  /** `**position.** username: **coins** coins\n`; a null username prints as `null`. */
  function EntryText(position: nat, u: User): string {
    "**" + Js.DecimalString(position) + ".** " + (if u.username.Some? then u.username.value else "null") +
    ": **" + IntText(u.coins) + "** coins\n"
  }

  /** The leaderboard text of `rows` shown from overall index `start`. */
  function PageText(users: map<UserId, User>, rows: seq<UserId>, start: nat): string
    requires forall i :: 0 <= i < |rows| ==> rows[i] in users
    decreases |rows|
  {
    if rows == [] then ""
    else PageText(users, rows[..|rows| - 1], start) + EntryText(start + |rows|, users[rows[|rows| - 1]])
  }

  /**
   * generatePage: the slice of a ranking for `pageNum` and its text; an empty
   * slice reports 1 page. `count` is what the count query handed back.
   */
  method GeneratePage(db: Supabase.Db, pageNum: nat, count: Option<nat>, up: bool)
    returns (r: Result<Page, StoreError>, ranked: seq<UserId>)
    requires pageNum >= 1
    ensures !up ==> r.Failure?
    ensures up ==>
      r.Success? && Supabase.IsRanking(db.users, ranked) &&
      r.value.rows == Range(ranked, StartIndex(pageNum), USERS_PER_PAGE) &&
      r.value.text == (if r.value.rows == [] then "" else PageText(db.users, r.value.rows, StartIndex(pageNum))) &&
      r.value.totalPages == (if r.value.rows == [] then 1 else TotalPages(count))
  {
    ranked := [];
    if !up {
      return Failure(Unreachable), ranked;
    }
    ranked := db.Ranked();
    var start := StartIndex(pageNum);
    var rows := Range(ranked, start, USERS_PER_PAGE);
    if rows == [] {
      return Success(Page("", rows, 1)), ranked;
    }
    var text := "";
    var i := 0;
    while i < |rows|
      invariant 0 <= i <= |rows|
      invariant text == PageText(db.users, rows[..i], start)
    {
      assert rows[..i + 1][..i] == rows[..i];
      var position := start + i + 1;
      text := text + EntryText(position, db.users[rows[i]]);
      i := i + 1;
    }
    assert rows[..|rows|] == rows;
    return Success(Page(text, rows, TotalPages(count))), ranked;
  }

  /** The paging state of one posted leaderboard. */
  class Leaderboard {
    const invoker: UserId
    const totalPages: nat
    var currentPage: nat

    predicate Valid()
      reads this
    {
      1 <= currentPage <= totalPages
    }

    /** The first page, with the page count of the first generation. */
    constructor(invoker: UserId, totalPages: nat)
      requires totalPages >= 1
      ensures this.invoker == invoker && this.totalPages == totalPages && currentPage == 1
      ensures Valid()
    {
      this.invoker := invoker;
      this.totalPages := totalPages;
      currentPage := 1;
    }

    /** A click by `user`: only the invoker's clicks navigate, within the first page count. */
    method Click(user: UserId, b: Button)
      requires Valid()
      modifies this
      ensures Valid()
      ensures currentPage == (if user != invoker then old(currentPage) else Navigate(old(currentPage), totalPages, b))
    {
      if user != invoker {
        return;
      }
      currentPage := Navigate(currentPage, totalPages, b);
    }
  }

  /**
   * execute: generate page 1, the first ten users of a descending ranking with
   * their text; the count it reads is the `data` of the head-only query,
   * always null, so there is one page and every button is disabled.
   */
  method Execute(db: Supabase.Db, invoker: UserId, up: bool)
    returns (r: Result<(Page, Buttons), StoreError>, board: Leaderboard?, ranked: seq<UserId>)
    ensures !up ==> r.Failure? && board == null
    ensures up ==>
      r.Success? && board != null && fresh(board) && board.Valid() && board.invoker == invoker &&
      board.currentPage == 1 && board.totalPages == 1 && r.value.0.totalPages == 1 &&
      r.value.1 == Buttons(true, true, true, true)
    ensures up ==>
      r.Success? && Supabase.IsRanking(db.users, ranked) &&
      r.value.0.rows == Range(ranked, 0, USERS_PER_PAGE) &&
      r.value.0.text == (if r.value.0.rows == [] then "" else PageText(db.users, r.value.0.rows, 0))
  {
    var page;
    page, ranked := GeneratePage(db, 1, None, up);
    if page.Failure? {
      return Failure(page.error), null, ranked;
    }
    assert StartIndex(1) == 0;
    board := new Leaderboard(invoker, page.value.totalPages);
    r := Success((page.value, ButtonRow(1, page.value.totalPages)));
  }

  // ---- lemmas ----

  /** Navigation keeps the page within 1..total, and each button does what its label says. */
  lemma NavigateSpec(page: nat, total: nat, b: Button)
    requires 1 <= page <= total
    ensures 1 <= Navigate(page, total, b) <= total
    ensures b == First ==> Navigate(page, total, b) == 1
    ensures b == Last ==> Navigate(page, total, b) == total
    ensures b == Previous ==> Navigate(page, total, b) == (if page > 1 then page - 1 else 1)
    ensures b == Next ==> Navigate(page, total, b) == (if page < total then page + 1 else total)
  {
  }

  /** The backward buttons are off exactly on page 1, the forward ones exactly on the last page: there they would not move. */
  lemma DisabledMeansStuck(page: nat, total: nat)
    requires 1 <= page <= total
    ensures ButtonRow(page, total).previous <==> Navigate(page, total, Previous) == page
    ensures ButtonRow(page, total).next <==> Navigate(page, total, Next) == page
  {
  }

  /** With the page count at 1, no click leaves page 1. */
  lemma StuckOnFirstPage(b: Button)
    ensures Navigate(1, TotalPages(None), b) == 1
  {
  }

  /** The page count is the ceiling of count / 10, at least 1, and the last page holds the last row. */
  lemma TotalPagesSpec(n: nat)
    ensures n > 0 ==> (TotalPages(Some(n)) - 1) * USERS_PER_PAGE < n <= TotalPages(Some(n)) * USERS_PER_PAGE
    ensures n == 0 ==> TotalPages(Some(n)) == 1
  {
  }

  /**
   * Every row of the ranking is shown on exactly one page, the one numbered
   * index / 10 + 1, which lies within the page count, at position index mod 10,
   * and is displayed with rank index + 1; in a ranking without repeats it
   * appears on no other page.
   */
  lemma EveryRowOnItsPage(ranked: seq<UserId>, index: nat)
    requires index < |ranked|
    requires forall i, j :: 0 <= i < j < |ranked| ==> ranked[i] != ranked[j]
    ensures var page := index / USERS_PER_PAGE + 1;
      page <= TotalPages(Some(|ranked|)) &&
      var rows := Range(ranked, StartIndex(page), USERS_PER_PAGE);
      index % USERS_PER_PAGE < |rows| && rows[index % USERS_PER_PAGE] == ranked[index] &&
      StartIndex(page) + index % USERS_PER_PAGE + 1 == index + 1
    ensures forall page: nat :: page >= 1 && page != index / USERS_PER_PAGE + 1 ==>
      ranked[index] !in Range(ranked, StartIndex(page), USERS_PER_PAGE)
  {
    var page := index / USERS_PER_PAGE + 1;
    assert StartIndex(page) == index - index % USERS_PER_PAGE;
    forall p: nat | p >= 1 && p != page
      ensures ranked[index] !in Range(ranked, StartIndex(p), USERS_PER_PAGE)
    {
      var rows := Range(ranked, StartIndex(p), USERS_PER_PAGE);
      forall k | 0 <= k < |rows| ensures rows[k] != ranked[index] {
        assert rows[k] == ranked[StartIndex(p) + k];
        assert StartIndex(p) + k != index by {
          if p < page {
            assert StartIndex(p) + USERS_PER_PAGE <= StartIndex(page);
          } else {
            assert StartIndex(p) >= StartIndex(page) + USERS_PER_PAGE;
          }
        }
      }
    }
  }
}
