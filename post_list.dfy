/** The pager under the post list: the updates the Previous and Next buttons hand
    to `setPage`, and the conditions that disable the buttons. */
module PostList {

  /** `Math.max(prev - 1, 1)`. */
  function PreviousPage(page: int): (p: int)
    ensures p >= 1
    ensures page > 1 ==> p == page - 1
    ensures page <= 1 ==> p == 1
  {
    if page - 1 > 1 then page - 1 else 1
  }

  /** `Math.min(prev + 1, totalPages)`. */
  function NextPage(page: int, totalPages: int): (p: int)
    ensures p <= totalPages
    ensures page < totalPages ==> p == page + 1
    ensures page >= totalPages ==> p == totalPages
  {
    if page + 1 < totalPages then page + 1 else totalPages
  }

  predicate PreviousDisabled(page: int)
  {
    page == 1
  }

  predicate NextDisabled(page: int, totalPages: int)
  {
    page == totalPages
  }

  /** While there is at least one page, both buttons keep the page in range. */
  lemma StepsStayInRange(page: int, totalPages: int)
    requires 1 <= page <= totalPages
    ensures 1 <= PreviousPage(page) <= totalPages
    ensures 1 <= NextPage(page, totalPages) <= totalPages
  {
  }

  /** On a page in range, a button is disabled exactly when pressing it would
      leave the page where it is. */
  lemma DisabledExactlyWhenNoMove(page: int, totalPages: int)
    requires 1 <= page <= totalPages
    ensures PreviousDisabled(page) <==> PreviousPage(page) == page
    ensures NextDisabled(page, totalPages) <==> NextPage(page, totalPages) == page
  {
  }

  /** With no pages at all (an empty collection gives `Math.ceil(0 / limit)`,
      which is 0), Next is enabled on page 1 and moves to page 0. */
  lemma NoPagesLeavesRange()
    ensures !NextDisabled(1, 0) && NextPage(1, 0) == 0
    ensures !PreviousDisabled(0) && PreviousPage(0) == 1
  {
  }
}
