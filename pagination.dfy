/** The pager under the shipment list: whether it is shown, which of its two
    buttons are enabled, and which page a click asks for. Page numbers are
    1-based. */
module Pagination {
  import opened Wrappers

  /** What the pager shows when it is rendered. */
  datatype Controls = Controls(
    currentPage: int,
    totalPages: int,
    totalItems: int,
    prevDisabled: bool,
    nextDisabled: bool)

  /** `canGoPrev`: there is a page before the current one. */
  predicate CanGoPrev(currentPage: int)
  {
    currentPage > 1
  }

  /** `canGoNext`: there is a page after the current one. */
  predicate CanGoNext(currentPage: int, totalPages: int)
  {
    currentPage < totalPages
  }

  /** The pager: nothing at all for an empty list, otherwise the page line and
      two buttons, each disabled when it cannot move or while a page loads. */
  function Render(currentPage: int, totalPages: int, totalItems: int, isLoading: bool): (r: Option<Controls>)
    ensures r.None? <==> totalItems == 0
    ensures r.Some? ==>
      r.value.currentPage == currentPage && r.value.totalPages == totalPages && r.value.totalItems == totalItems
    ensures r.Some? ==> (r.value.prevDisabled <==> currentPage <= 1 || isLoading)
    ensures r.Some? ==> (r.value.nextDisabled <==> currentPage >= totalPages || isLoading)
  {
    if totalItems == 0 then None
    else
      Some(Controls(currentPage, totalPages, totalItems,
        !CanGoPrev(currentPage) || isLoading,
        !CanGoNext(currentPage, totalPages) || isLoading))
  }

  /** The previous button's handler: the page it asks for, or `None` when it
      asks for nothing. */
  function PrevClick(currentPage: int): (request: Option<int>)
    ensures request.Some? <==> currentPage > 1
    ensures request.Some? ==> request.value == currentPage - 1 && request.value >= 1
  {
    if CanGoPrev(currentPage) then Some(currentPage - 1) else None
  }

  /** The next button's handler: the page it asks for, or `None` when it asks
      for nothing. */
  function NextClick(currentPage: int, totalPages: int): (request: Option<int>)
    ensures request.Some? <==> currentPage < totalPages
    ensures request.Some? ==> request.value == currentPage + 1 && request.value <= totalPages
  {
    if CanGoNext(currentPage, totalPages) then Some(currentPage + 1) else None
  }

  /** An enabled button always asks for a page: a click that reaches the
      handler is never ignored. */
  lemma EnabledButtonsRequest(currentPage: int, totalPages: int, totalItems: int, isLoading: bool)
    requires Render(currentPage, totalPages, totalItems, isLoading).Some?
    ensures !Render(currentPage, totalPages, totalItems, isLoading).value.prevDisabled ==>
      PrevClick(currentPage).Some? && !isLoading
    ensures !Render(currentPage, totalPages, totalItems, isLoading).value.nextDisabled ==>
      NextClick(currentPage, totalPages).Some? && !isLoading
  {
  }

  /** A request from a page inside `1..totalPages` stays inside it. */
  lemma RequestsStayInRange(currentPage: int, totalPages: int)
    requires 1 <= currentPage <= totalPages
    ensures PrevClick(currentPage).Some? ==> 1 <= PrevClick(currentPage).value <= totalPages
    ensures NextClick(currentPage, totalPages).Some? ==> 1 <= NextClick(currentPage, totalPages).value <= totalPages
  {
  }

  /** From a real page, going forward and then back returns to the page one
      started on. */
  lemma NextThenPrevReturns(currentPage: int, totalPages: int)
    requires currentPage >= 1 && NextClick(currentPage, totalPages).Some?
    ensures PrevClick(NextClick(currentPage, totalPages).value) == Some(currentPage)
  {
  }

  /** While a page loads both buttons are disabled. */
  lemma LoadingDisablesBoth(currentPage: int, totalPages: int, totalItems: int)
    requires totalItems != 0
    ensures Render(currentPage, totalPages, totalItems, true).value.prevDisabled
    ensures Render(currentPage, totalPages, totalItems, true).value.nextDisabled
  {
  }

  /** Page 2 of 3, not loading: both buttons are enabled and ask for pages 1 and 3. */
  lemma MiddlePageBothEnabled(totalItems: int)
    requires totalItems != 0
    ensures !Render(2, 3, totalItems, false).value.prevDisabled
    ensures !Render(2, 3, totalItems, false).value.nextDisabled
    ensures PrevClick(2) == Some(1) && NextClick(2, 3) == Some(3)
  {
  }

  /** On the only page neither button is enabled. */
  lemma SinglePageBothDisabled(totalItems: int, isLoading: bool)
    requires totalItems != 0
    ensures Render(1, 1, totalItems, isLoading).value.prevDisabled
    ensures Render(1, 1, totalItems, isLoading).value.nextDisabled
  {
  }
}
