/** The trade table's pagination bar: the page moves it allows, the page count it
    shows and the page sizes it offers. Pages are numbered from 1. */
module Pagination {
  import opened Common

  /** The page sizes the "Rows per page" select offers. */
  const RowsPerPageOptions: seq<nat> := [5, 10, 25, 50]

  /** The previous-page button is disabled on the first page (or before it). */
  predicate PrevDisabled(currentPage: int, totalPages: int)
  {
    currentPage <= 1
  }

  /** The next-page button is disabled on the last page (or after it). */
  predicate NextDisabled(currentPage: int, totalPages: int)
  {
    currentPage >= totalPages
  }

  /** The page a click on the previous-page button requests, if it is enabled. */
  function PrevClick(currentPage: int, totalPages: int): (r: Option<int>)
    ensures r.None? <==> PrevDisabled(currentPage, totalPages)
    ensures r.Some? ==> r.value == currentPage - 1 && r.value >= 1
    ensures r.Some? && currentPage <= totalPages ==> r.value < totalPages
  {
    if PrevDisabled(currentPage, totalPages) then None else Some(currentPage - 1)
  }

  /** The page a click on the next-page button requests, if it is enabled. */
  function NextClick(currentPage: int, totalPages: int): (r: Option<int>)
    ensures r.None? <==> NextDisabled(currentPage, totalPages)
    ensures r.Some? ==> r.value == currentPage + 1 && r.value <= totalPages
    ensures r.Some? && currentPage >= 1 ==> r.value > 1
  {
    if NextDisabled(currentPage, totalPages) then None else Some(currentPage + 1)
  }

  /** "Page X of Y": Y is the page count, or 1 when there are no pages. */
  function DisplayedTotal(totalPages: int): (r: int)
    ensures totalPages != 0 ==> r == totalPages
    ensures totalPages == 0 ==> r == 1
  {
    if totalPages == 0 then 1 else totalPages
  }

  /** From a page within 1..totalPages, every enabled move lands within 1..totalPages;
      a move forward and a move back return to the page; a single page allows neither. */
  lemma MovesStayInRange(currentPage: int, totalPages: int)
    requires 1 <= currentPage <= totalPages
    ensures PrevClick(currentPage, totalPages).Some? ==> 1 <= PrevClick(currentPage, totalPages).value <= totalPages
    ensures NextClick(currentPage, totalPages).Some? ==> 1 <= NextClick(currentPage, totalPages).value <= totalPages
    ensures NextClick(currentPage, totalPages).Some? ==>
      PrevClick(NextClick(currentPage, totalPages).value, totalPages) == Some(currentPage)
    ensures PrevClick(currentPage, totalPages).Some? ==>
      NextClick(PrevClick(currentPage, totalPages).value, totalPages) == Some(currentPage)
    ensures totalPages == 1 ==> PrevClick(currentPage, totalPages).None? && NextClick(currentPage, totalPages).None?
  {
  }

  /** Starting at page 1, `k` clicks on next reach page `k + 1` while it exists, and
      the next button is disabled exactly on the last page. */
  lemma {:induction false} NextReachesEveryPage(totalPages: int, k: nat)
    requires k < totalPages
    ensures Walk(1, totalPages, k) == Some(k + 1)
    ensures NextDisabled(k + 1, totalPages) <==> k + 1 == totalPages
  {
    if k > 0 {
      NextReachesEveryPage(totalPages, k - 1);
    }
  }

  /** The page reached after `k` clicks on next, or `None` once the button is disabled. */
  function Walk(start: int, totalPages: int, k: nat): Option<int>
  {
    if k == 0 then Some(start)
    else
      var prev := Walk(start, totalPages, k - 1);
      if prev.None? then None else NextClick(prev.value, totalPages)
  }
}
