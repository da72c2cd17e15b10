/** The page strip of the pagination control: numbers, ellipses and the prev/next clamps. */
module Pagination {

  /** One entry of the strip: a page number or one of the two ellipses. */
  datatype PageItem = Page(n: int) | EllipsisStart | EllipsisEnd

  function Max(a: int, b: int): int { if a >= b then a else b }

  function Min(a: int, b: int): int { if a <= b then a else b }

  /** The pages `lo..hi`, both ends included; empty when `lo > hi`. */
  function Run(lo: int, hi: int): (r: seq<PageItem>)
    ensures |r| == (if lo > hi then 0 else hi - lo + 1)
    ensures forall k :: 0 <= k < |r| ==> r[k] == Page(lo + k)
    decreases hi - lo + 1
  {
    if lo > hi then [] else Run(lo, hi - 1) + [Page(hi)]
  }

  /** First page of the window around `current`. */
  function RangeStart(current: int): int
  {
    Max(2, current - 1)
  }

  /** Last page of the window around `current`. */
  function RangeEnd(current: int, total: int): int
  {
    Min(total - 1, current + 1)
  }

  /**
   * The strip `getPageNumbers` produces: 1, the start ellipsis when the window
   * starts after 2, the window, the end ellipsis when it stops before the
   * second-to-last page, and the last page when there is more than one.
   */
  function PageNumbers(current: int, total: int): seq<PageItem>
  {
    var rs := RangeStart(current);
    var re := RangeEnd(current, total);
    [Page(1)]
    + (if rs > 2 then [EllipsisStart] else [])
    + Run(rs, re)
    + (if re < total - 1 then [EllipsisEnd] else [])
    + (if total > 1 then [Page(total)] else [])
  }

  /** `getPageNumbers`, pushing entry by entry. */
  method GetPageNumbers(current: int, total: int) returns (pages: seq<PageItem>)
    ensures pages == PageNumbers(current, total)
  {
    pages := [Page(1)];
    var rangeStart := Max(2, current - 1);
    var rangeEnd := Min(total - 1, current + 1);
    if rangeStart > 2 {
      pages := pages + [EllipsisStart];
    }
    ghost var head := pages;
    var i := rangeStart;
    while i <= rangeEnd
      invariant rangeStart <= i <= Max(rangeStart, rangeEnd + 1)
      invariant pages == head + Run(rangeStart, i - 1)
      decreases rangeEnd - i
    {
      pages := pages + [Page(i)];
      i := i + 1;
    }
    if rangeEnd < total - 1 {
      pages := pages + [EllipsisEnd];
    }
    if total > 1 {
      pages := pages + [Page(total)];
    }
  }

  predicate IsPage(p: PageItem) { p.Page? }

  /** The strip starts at page 1, never has more than 7 entries, and has page numbers in [1, max(1, total)], strictly increasing. */
  lemma {:induction false} PageNumbersShape(current: int, total: int)
    ensures var r := PageNumbers(current, total);
      1 <= |r| <= 7 && r[0] == Page(1)
      && (forall k :: 0 <= k < |r| && r[k].Page? ==> 1 <= r[k].n <= Max(1, total))
      && (forall j, k :: 0 <= j < k < |r| && r[j].Page? && r[k].Page? ==> r[j].n < r[k].n)
  {
    var rs, re := RangeStart(current), RangeEnd(current, total);
    var es: seq<PageItem> := if rs > 2 then [EllipsisStart] else [];
    var ee: seq<PageItem> := if re < total - 1 then [EllipsisEnd] else [];
    var last: seq<PageItem> := if total > 1 then [Page(total)] else [];
    var run := Run(rs, re);
    var r := PageNumbers(current, total);
    assert r == [Page(1)] + es + run + ee + last;
    var a := 1 + |es|;
    var b := a + |run|;
    assert forall k :: a <= k < b ==> r[k] == Page(rs + k - a);
    assert forall k :: 0 < k < a ==> !r[k].Page?;
    assert forall k :: b <= k < |r| && r[k].Page? ==> total > 1 && k == |r| - 1 && r[k] == Page(total);
  }

  /** Each ellipsis is shown exactly when its side of the window leaves pages out. */
  lemma EllipsesShown(current: int, total: int)
    ensures EllipsisStart in PageNumbers(current, total) <==> RangeStart(current) > 2
    ensures EllipsisEnd in PageNumbers(current, total) <==> RangeEnd(current, total) < total - 1
  {
    var rs, re := RangeStart(current), RangeEnd(current, total);
    assert EllipsisStart !in Run(rs, re) && EllipsisEnd !in Run(rs, re);
  }

  /** With more than one page the strip ends on the last page; with at most one the only page listed is 1. */
  lemma LastPage(current: int, total: int)
    ensures total > 1 ==> PageNumbers(current, total)[|PageNumbers(current, total)| - 1] == Page(total)
    ensures total <= 1 ==> forall k :: 0 <= k < |PageNumbers(current, total)| && PageNumbers(current, total)[k].Page? ==>
      PageNumbers(current, total)[k] == Page(1)
    ensures total <= 1 && 1 <= current <= 3 ==> PageNumbers(current, total) == [Page(1)]
  {
    PageNumbersShape(current, total);
  }

  /** A current page inside [1, total] is always listed. */
  lemma {:induction false} CurrentListed(current: int, total: int)
    requires 1 <= current <= total
    ensures Page(current) in PageNumbers(current, total)
  {
    var rs, re := RangeStart(current), RangeEnd(current, total);
    var r := PageNumbers(current, total);
    if current == 1 {
      assert r[0] == Page(1);
    } else if current == total {
      assert r[|r| - 1] == Page(total);
    } else {
      var run := Run(rs, re);
      assert run[current - rs] == Page(current);
      assert r == [Page(1)] + (if rs > 2 then [EllipsisStart] else []) + run
        + (if re < total - 1 then [EllipsisEnd] else []) + (if total > 1 then [Page(total)] else []);
    }
  }

  /**
   * For a current page inside [1, total], neighbouring numbers are consecutive
   * pages, and an ellipsis always stands for at least one left-out page.
   */
  lemma {:induction false} EllipsisHidesPages(current: int, total: int, k: nat)
    requires 1 <= current <= total
    requires k + 1 < |PageNumbers(current, total)|
    ensures var r := PageNumbers(current, total);
      r[k].Page? && r[k + 1].Page? ==> r[k + 1].n == r[k].n + 1
    ensures var r := PageNumbers(current, total);
      k + 2 < |r| && r[k].Page? && !r[k + 1].Page? && r[k + 2].Page? ==> r[k + 2].n >= r[k].n + 2
  {
    var rs, re := RangeStart(current), RangeEnd(current, total);
    var es: seq<PageItem> := if rs > 2 then [EllipsisStart] else [];
    var ee: seq<PageItem> := if re < total - 1 then [EllipsisEnd] else [];
    var last: seq<PageItem> := if total > 1 then [Page(total)] else [];
    var run := Run(rs, re);
    var r := PageNumbers(current, total);
    assert r == [Page(1)] + es + run + ee + last;
    var a := 1 + |es|;
    var b := a + |run|;
    assert forall j :: a <= j < b ==> r[j] == Page(rs + j - a);
    assert rs <= re || total <= 2;
  }

  /** The previous-page button's target, `Math.max(1, currentPage - 1)`. */
  function PrevTarget(current: int): int
  {
    Max(1, current - 1)
  }

  /** The next-page button's target, `Math.min(totalPages, currentPage + 1)`. */
  function NextTarget(current: int, total: int): int
  {
    Min(total, current + 1)
  }

  /** Both buttons keep a page in [1, total] inside it, step by one away from the ends, and stay put at the ends. */
  lemma NavigationClamped(current: int, total: int)
    requires 1 <= current <= total
    ensures 1 <= PrevTarget(current) <= total && 1 <= NextTarget(current, total) <= total
    ensures PrevTarget(current) == if current == 1 then 1 else current - 1
    ensures NextTarget(current, total) == if current == total then total else current + 1
    ensures current < total ==> PrevTarget(NextTarget(current, total)) == current
    ensures current > 1 ==> NextTarget(PrevTarget(current), total) == current
  {
  }
}
