/** The page navigator (src/components/common/Pagination.tsx). The props
    `currentPage` and `totalPages` come from the parent, `pageInput` is the
    component's own text state, and the `onPageChange` callback is recorded as the
    list of pages it was called with; `window.scrollTo` is counted. */
module PaginationControl {
  import opened Base
  import opened JsText

  /** The page `handlePrev` requests, if any. */
  function PrevTarget(currentPage: int): Option<int> {
    if currentPage > 1 then Some(currentPage - 1) else None
  }

  /** The page `handleNext` requests, if any. */
  function NextTarget(currentPage: int, totalPages: int): Option<int> {
    if currentPage < totalPages then Some(currentPage + 1) else None
  }

  /** The page `handlePageInputSubmit` requests, if any: `parseInt(pageInput)`
      when it lies in `[1, totalPages]` (`NaN` compares false). */
  function SubmitTarget(pageInput: string, totalPages: int): Option<int> {
    var page := ParseInt(pageInput);
    if page.Some? && page.value >= 1 && page.value <= totalPages then page else None
  }

  /** Prev never goes below page 1, and stays within the last page exactly when
      the current page is at most one past it. */
  lemma PrevBounds(currentPage: int, totalPages: int)
    ensures PrevTarget(currentPage).Some? <==> currentPage > 1
    ensures PrevTarget(currentPage).Some? ==>
      PrevTarget(currentPage).value >= 1 && (PrevTarget(currentPage).value <= totalPages <==> currentPage <= totalPages + 1)
  {
  }

  /** Next never goes past the last page, and stays at or above page 1 exactly
      when the current page is not negative. */
  lemma NextBounds(currentPage: int, totalPages: int)
    ensures NextTarget(currentPage, totalPages).Some? <==> currentPage < totalPages
    ensures NextTarget(currentPage, totalPages).Some? ==>
      NextTarget(currentPage, totalPages).value <= totalPages &&
      (NextTarget(currentPage, totalPages).value >= 1 <==> currentPage >= 0)
  {
  }

  /** A submitted page is always in range; a page typed in decimal is accepted
      exactly when it is in range; text with no digit is never accepted. */
  lemma SubmitBounds(pageInput: string, totalPages: int, n: int)
    ensures SubmitTarget(pageInput, totalPages).Some? ==> 1 <= SubmitTarget(pageInput, totalPages).value <= totalPages
    ensures SubmitTarget(IntToString(n), totalPages) == (if 1 <= n <= totalPages then Some(n) else None)
    ensures (forall i :: 0 <= i < |pageInput| ==> !('0' <= pageInput[i] <= '9')) ==> SubmitTarget(pageInput, totalPages).None?
  {
    ParseIntToString(n);
    if forall i :: 0 <= i < |pageInput| ==> !('0' <= pageInput[i] <= '9') {
      ParseIntNoDigit(pageInput);
    }
  }

  /** With the current page within `[1, totalPages]`, every page the component
      ever requests is within `[1, totalPages]` too. */
  lemma AllTargetsInRange(currentPage: int, totalPages: int, pageInput: string)
    requires 1 <= currentPage <= totalPages
    ensures PrevTarget(currentPage).Some? ==> 1 <= PrevTarget(currentPage).value <= totalPages
    ensures NextTarget(currentPage, totalPages).Some? ==> 1 <= NextTarget(currentPage, totalPages).value <= totalPages
    ensures SubmitTarget(pageInput, totalPages).Some? ==> 1 <= SubmitTarget(pageInput, totalPages).value <= totalPages
  {
    SubmitBounds(pageInput, totalPages, 0);
  }

  /** The UI events that reach the component. */
  datatype Event = PrevClick | NextClick | InputChange(text: string) | Submit

  class Pagination {
    var currentPage: int
    var totalPages: int
    var pageInput: string
    /** The arguments `onPageChange` was called with, oldest first. */
    var pageChanges: seq<int>
    var scrolls: nat

    /** Mounting: the input starts as the current page. */
    constructor (currentPage: int, totalPages: int)
      ensures this.currentPage == currentPage && this.totalPages == totalPages
      ensures pageInput == IntToString(currentPage)
      ensures pageChanges == [] && scrolls == 0
    {
      this.currentPage := currentPage;
      this.totalPages := totalPages;
      pageInput := IntToString(currentPage);
      pageChanges := [];
      scrolls := 0;
    }

    /** `totalPages <= 1` renders nothing, so no control is on the page. */
    predicate Rendered()
      reads this
    {
      totalPages > 1
    }

    /** The parent renders with new props; the effect resyncs the input text when
        `currentPage` changed. */
    method Rerender(newCurrentPage: int, newTotalPages: int)
      modifies this
      ensures currentPage == newCurrentPage && totalPages == newTotalPages
      ensures pageInput == if newCurrentPage != old(currentPage) then IntToString(newCurrentPage) else old(pageInput)
      ensures pageChanges == old(pageChanges) && scrolls == old(scrolls)
    {
      var changed := newCurrentPage != currentPage;
      currentPage := newCurrentPage;
      totalPages := newTotalPages;
      if changed {
        pageInput := IntToString(currentPage);
      }
    }

    /** One UI event. Nothing reaches the handlers when nothing is rendered. */
    method Dispatch(e: Event)
      modifies this
      ensures currentPage == old(currentPage) && totalPages == old(totalPages)
      ensures !Rendered() ==> pageChanges == old(pageChanges) && pageInput == old(pageInput) && scrolls == old(scrolls)
      ensures Rendered() && e.PrevClick? ==>
        var t := PrevTarget(currentPage);
        pageChanges == old(pageChanges) + (if t.Some? then [t.value] else []) &&
        pageInput == (if t.Some? then IntToString(t.value) else old(pageInput)) && scrolls == old(scrolls)
      ensures Rendered() && e.NextClick? ==>
        var t := NextTarget(currentPage, totalPages);
        pageChanges == old(pageChanges) + (if t.Some? then [t.value] else []) &&
        pageInput == (if t.Some? then IntToString(t.value) else old(pageInput)) && scrolls == old(scrolls)
      ensures Rendered() && e.InputChange? ==>
        pageChanges == old(pageChanges) && pageInput == e.text && scrolls == old(scrolls)
      ensures Rendered() && e.Submit? ==>
        var t := SubmitTarget(old(pageInput), totalPages);
        pageChanges == old(pageChanges) + (if t.Some? then [t.value] else []) &&
        pageInput == (if t.Some? then old(pageInput) else IntToString(currentPage)) &&
        scrolls == old(scrolls) + (if t.Some? then 1 else 0)
    {
      if totalPages <= 1 {
        return;
      }
      match e
      case PrevClick =>
        if currentPage > 1 {
          pageChanges := pageChanges + [currentPage - 1];
          pageInput := IntToString(currentPage - 1);
        }
      case NextClick =>
        if currentPage < totalPages {
          pageChanges := pageChanges + [currentPage + 1];
          pageInput := IntToString(currentPage + 1);
        }
      case InputChange(text) =>
        pageInput := text;
      case Submit =>
        var page := ParseInt(pageInput);
        if page.Some? && page.value >= 1 && page.value <= totalPages {
          pageChanges := pageChanges + [page.value];
          scrolls := scrolls + 1;
        } else {
          pageInput := IntToString(currentPage);
        }
    }
  }

  /** Whatever the user does, while the current page is in range every page
      handed to `onPageChange` is in range. */
  method DispatchKeepsRange(p: Pagination, e: Event)
    requires 1 <= p.currentPage <= p.totalPages
    requires forall i :: 0 <= i < |p.pageChanges| ==> 1 <= p.pageChanges[i] <= p.totalPages
    modifies p
    ensures forall i :: 0 <= i < |p.pageChanges| ==> 1 <= p.pageChanges[i] <= p.totalPages
  {
    AllTargetsInRange(p.currentPage, p.totalPages, p.pageInput);
    p.Dispatch(e);
  }
}
