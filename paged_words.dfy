/** The paged word list on a shared list's page: 15 words per page. */
module PagedWords {

  const ItemsPerPage: int := 15

  /** `Math.ceil(words.length / ITEMS_PER_PAGE)`. */
  function TotalPages(n: nat): (t: nat)
    ensures (t - 1) * ItemsPerPage < n <= t * ItemsPerPage || (n == 0 && t == 0)
  {
    (n + ItemsPerPage - 1) / ItemsPerPage
  }

  /** `(currentPage - 1) * ITEMS_PER_PAGE`. */
  function StartIndex(page: int): int
  {
    (page - 1) * ItemsPerPage
  }

  /** How `Array.prototype.slice` reads an index: negative counts from the end, and both ends clip to [0, n]. */
  function SliceIndex(i: int, n: nat): (r: nat)
    ensures r <= n
    ensures 0 <= i <= n ==> r == i
  {
    if i < 0 then (if n + i < 0 then 0 else n + i) else if i > n then n else i
  }

  /** `s.slice(start, end)`. */
  function JsSlice<T>(s: seq<T>, start: int, end: int): (r: seq<T>)
    ensures |r| <= |s|
  {
    var a := SliceIndex(start, |s|);
    var b := SliceIndex(end, |s|);
    if a < b then s[a..b] else []
  }

  /** `words.slice(startIndex, startIndex + ITEMS_PER_PAGE)`. */
  function VisibleWords<W>(words: seq<W>, page: int): seq<W>
  {
    JsSlice(words, StartIndex(page), StartIndex(page) + ItemsPerPage)
  }

  /** A page holds at most 15 words, and from page 1 on it is the clipped window of 15 starting at its start index. */
  lemma VisibleWindow<W>(words: seq<W>, page: int)
    requires page >= 1
    ensures |VisibleWords(words, page)| <= ItemsPerPage
    ensures var lo := StartIndex(page);
      VisibleWords(words, page) == if lo >= |words| then []
        else words[lo..if lo + ItemsPerPage <= |words| then lo + ItemsPerPage else |words|]
  {
  }

  /** Every page from 1 to the last is non-empty. */
  lemma {:induction false} PagesInRangeNonEmpty<W>(words: seq<W>, page: int)
    requires 1 <= page <= TotalPages(|words|)
    ensures VisibleWords(words, page) != []
  {
    VisibleWindow(words, page);
    assert StartIndex(page) <= (TotalPages(|words|) - 1) * ItemsPerPage;
  }

  /** `globalIndex = startIndex + index`: the position of the shown word in `words`. */
  lemma GlobalIndex<W>(words: seq<W>, page: int, index: nat)
    requires page >= 1 && index < |VisibleWords(words, page)|
    ensures 0 <= StartIndex(page) + index < |words|
    ensures VisibleWords(words, page)[index] == words[StartIndex(page) + index]
  {
    VisibleWindow(words, page);
  }

  /** Pages 1..k, one after the other. */
  function FirstPages<W>(words: seq<W>, k: nat): seq<W>
  {
    if k == 0 then [] else FirstPages(words, k - 1) + VisibleWords(words, k)
  }

  /** The first k pages are the first 15k words, clipped. */
  lemma {:induction false} FirstPagesArePrefix<W>(words: seq<W>, k: nat)
    ensures FirstPages(words, k) == words[..if k * ItemsPerPage <= |words| then k * ItemsPerPage else |words|]
  {
    if k > 0 {
      FirstPagesArePrefix(words, k - 1);
      VisibleWindow(words, k);
      var lo := (k - 1) * ItemsPerPage;
      var cut := if lo <= |words| then lo else |words|;
      var hi := if k * ItemsPerPage <= |words| then k * ItemsPerPage else |words|;
      assert words[..cut] + words[cut..hi] == words[..hi];
    }
  }

  /** Reading every page in order shows each word exactly once, in order. */
  lemma AllPagesGiveBackWords<W>(words: seq<W>)
    ensures FirstPages(words, TotalPages(|words|)) == words
  {
    FirstPagesArePrefix(words, TotalPages(|words|));
  }

  /** The empty state replaces the list exactly when there are no words. */
  predicate ShowsEmptyState<W>(words: seq<W>)
  {
    |words| == 0
  }

  /** The pagination control is rendered when `totalPages > 1`, which is when there are more than 15 words. */
  predicate ShowsPagination<W>(words: seq<W>)
  {
    !ShowsEmptyState(words) && TotalPages(|words|) > 1
  }

  lemma PaginationIffMoreThanOnePage<W>(words: seq<W>)
    ensures ShowsPagination(words) <==> |words| > ItemsPerPage
    ensures ShowsEmptyState(words) ==> !ShowsPagination(words)
  {
  }

  /** The component's page state over a fixed word list. */
  class PaginatedWordsList<W> {
    const words: seq<W>
    var currentPage: int

    /** `useState(1)`: the list opens on page 1. */
    constructor (words: seq<W>)
      ensures this.words == words && currentPage == 1
    {
      this.words := words;
      currentPage := 1;
    }

    function Visible(): seq<W>
      reads this
    {
      VisibleWords(words, currentPage)
    }

    /** `handlePageChange`: show the chosen page. */
    method HandlePageChange(page: int)
      modifies this
      ensures currentPage == page
    {
      currentPage := page;
    }
  }

  /** On opening, the first min(15, n) words are shown. */
  lemma OpensOnFirstWords<W>(words: seq<W>)
    ensures VisibleWords(words, 1) == words[..if |words| <= ItemsPerPage then |words| else ItemsPerPage]
  {
    VisibleWindow(words, 1);
  }
}
