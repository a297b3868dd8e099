/**
 * The Previous/Next buttons: when each is disabled, and how that relates
 * to what the hook's `prevPage` and `nextPage` do.
 */
module Pagination {
  import Paging

  /** `disabled={page === 1}` on Previous. */
  predicate PreviousDisabled(page: int)
    ensures PreviousDisabled(page) ==> Paging.PrevPageOf(page) == page
  {
    page == 1
  }

  /** `disabled={page === totalPages}` on Next. */
  predicate NextDisabled(page: int, totalPages: int)
    ensures NextDisabled(page, totalPages) ==> Paging.NextPageOf(page, totalPages) == page
  {
    page == totalPages
  }

  /** From any page `>= 1`, Previous is enabled exactly when pressing it changes the page. */
  lemma PreviousEnabledIffMoves(page: int)
    requires page >= 1
    ensures !PreviousDisabled(page) <==> Paging.PrevPageOf(page) != page
  {
  }

  /** Within `1..totalPages`, Next is enabled exactly when pressing it changes the page. */
  lemma NextEnabledIffMoves(page: int, totalPages: int)
    requires 1 <= page <= totalPages
    ensures !NextDisabled(page, totalPages) <==> Paging.NextPageOf(page, totalPages) != page
  {
  }

  /**
   * With no rows `totalPages` is 0: the equality test leaves Next enabled
   * on page 1, and pressing it changes nothing because `1 < 0` fails.
   */
  lemma NoRowsNextEnabledButInert()
    ensures Paging.TotalPages(0) == 0
    ensures !NextDisabled(1, Paging.TotalPages(0))
    ensures Paging.NextPageOf(1, Paging.TotalPages(0)) == 1
  {
  }

  /** The page after `presses` presses of Next. */
  function AfterNextPresses(page: int, totalPages: int, presses: nat): int
    decreases presses
  {
    if presses == 0 then page
    else AfterNextPresses(Paging.NextPageOf(page, totalPages), totalPages, presses - 1)
  }

  /**
   * Starting from any page in `1..totalPages` (or from page 1 when there
   * are no pages), any number of Next presses ends on page
   * `min(page + presses, totalPages)`, and never past the last page.
   */
  lemma {:induction false} NextPressesStopAtLastPage(page: int, totalPages: int, presses: nat)
    requires 1 <= page
    requires page <= totalPages || page == 1
    ensures AfterNextPresses(page, totalPages, presses) ==
      if page + presses <= totalPages then page + presses
      else if page <= totalPages then totalPages
      else page
    decreases presses
  {
    if presses > 0 {
      NextPressesStopAtLastPage(Paging.NextPageOf(page, totalPages), totalPages, presses - 1);
    }
  }
}
