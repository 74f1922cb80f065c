/**
 * slashCommands/top.js: the same paged leaderboard, except that the page
 * count is read from the `count` field of the head-only query, so it is the
 * ceiling of the number of users over 10 and every page can be reached.
 */
module SlashTop {
  import opened Wrappers
  import opened Store
  import Supabase
  import Top

  /** The count the head-only query reports: the table's size, or null when it fails. */
  function Count(users: map<UserId, User>, countUp: bool): Option<nat> {
    if countUp then Some(|users|) else None
  }

  /**
   * execute: generate page 1 (the first ten users of a descending ranking,
   * with their text) with the reported count and start a board with the
   * page count of that first generation. A failed range query ends in
   * the error reply and no board.
   */
  method Execute(db: Supabase.Db, invoker: UserId, countUp: bool, up: bool)
    returns (r: Result<(Top.Page, Top.Buttons), StoreError>, board: Top.Leaderboard?, ranked: seq<UserId>)
    ensures !up ==> r.Failure? && board == null
    ensures up ==>
      r.Success? && board != null && fresh(board) && board.Valid() && board.invoker == invoker &&
      board.currentPage == 1 && board.totalPages == r.value.0.totalPages &&
      board.totalPages == (if countUp then Top.TotalPages(Some(|db.users|)) else 1) &&
      r.value.1 == Top.ButtonRow(1, board.totalPages)
    ensures up ==>
      r.Success? && Supabase.IsRanking(db.users, ranked) &&
      r.value.0.rows == Top.Range(ranked, 0, Top.USERS_PER_PAGE) &&
      r.value.0.text == (if r.value.0.rows == [] then "" else Top.PageText(db.users, r.value.0.rows, 0))
  {
    var page;
    page, ranked := Top.GeneratePage(db, 1, Count(db.users, countUp), up);
    if page.Failure? {
      return Failure(page.error), null, ranked;
    }
    assert Top.StartIndex(1) == 0;
    Supabase.RankingLength(db.users, ranked);
    assert page.value.rows == [] <==> |db.users| == 0 by {
      if |ranked| > 0 {
        assert page.value.rows[0] == ranked[0];
      }
    }
    board := new Top.Leaderboard(invoker, page.value.totalPages);
    r := Success((page.value, Top.ButtonRow(1, page.value.totalPages)));
  }

  /** The page after `k` clicks on Next from `page`. */
  function NextClicks(page: nat, total: nat, k: nat): nat
    decreases k
  {
    if k == 0 then page else Top.Navigate(NextClicks(page, total, k - 1), total, Top.Next)
  }

  /** From page 1, k clicks on Next reach page k + 1, up to the last page. */
  lemma {:induction false} NextClicksReach(total: nat, k: nat)
    requires total >= 1
    ensures NextClicks(1, total, k) == (if k + 1 < total then k + 1 else total)
    decreases k
  {
    if k > 0 {
      NextClicksReach(total, k - 1);
    }
  }

  /**
   * With the count read, the page that holds a user's row is within the page
   * count, so the invoker reaches it from page 1 by clicking Next.
   */
  lemma EveryUserReachable(users: map<UserId, User>, ranked: seq<UserId>, index: nat)
    requires Supabase.IsRanking(users, ranked) && index < |ranked|
    ensures var page := index / Top.USERS_PER_PAGE + 1;
      page <= Top.TotalPages(Count(users, true)) &&
      NextClicks(1, Top.TotalPages(Count(users, true)), page - 1) == page &&
      Top.Range(ranked, Top.StartIndex(page), Top.USERS_PER_PAGE)[index % Top.USERS_PER_PAGE] == ranked[index]
  {
    Supabase.RankingLength(users, ranked);
    Top.EveryRowOnItsPage(ranked, index);
    var page := index / Top.USERS_PER_PAGE + 1;
    NextClicksReach(Top.TotalPages(Count(users, true)), page - 1);
  }
}
