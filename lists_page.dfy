/** The shared-lists page: reading its URL parameters and the bookmarks-only filter. */
module ListsPage {
  import opened Wrappers
  import opened Seqs
  import opened Text
  import opened Store

  /** `tags ? tags.split(",") : []`: empty pieces are kept. */
  function SelectedTags(tags: Option<string>): (r: seq<string>)
    ensures !Truthy(tags) ==> r == []
    ensures Truthy(tags) ==> |r| >= 1 && Join(r, ',') == tags.value
  {
    if Truthy(tags) then (JoinSplit(tags.value, ','); Split(tags.value, ',')) else []
  }

  /** A doubled comma yields an empty tag, which the tag filter of the query then looks for. */
  lemma SelectedTagsKeepEmptyPieces()
    ensures SelectedTags(Some("a,,b")) == ["a", "", "b"]
  {
    assert "a,,b" == "a" + [','] + ",b";
    SplitAfterPiece("a", ",b", ',');
    assert ",b" == "" + [','] + "b";
    SplitAfterPiece("", "b", ',');
    SplitWithoutSeparator("b", ',');
  }

  predicate IsDigit(c: char)
  {
    '0' <= c <= '9'
  }

  /** The value of a string of decimal digits. */
  function DigitsValue(s: string): nat
    requires forall i :: 0 <= i < |s| ==> IsDigit(s[i])
  {
    if s == [] then 0 else DigitsValue(s[..|s| - 1]) * 10 + DigitOf(s[|s| - 1])
  }

  function DigitOf(c: char): (d: nat)
    requires IsDigit(c)
    ensures d < 10
  {
    c as int - '0' as int
  }

  /**
   * `Number(s)` on the strings the model covers: "" is 0, a run of decimal
   * digits is its value, anything else is NaN (None).
   */
  function ParseNumber(s: string): Option<nat>
  {
    if forall i :: 0 <= i < |s| ==> IsDigit(s[i]) then Some(DigitsValue(s)) else None
  }

  /** `Number(page) || 1`: NaN (including a missing parameter) and 0 fall back to page 1. */
  function CurrentPage(page: Option<string>): (p: nat)
    ensures p >= 1
    ensures page.None? ==> p == 1
  {
    match page
    case None => 1
    case Some(s) =>
      match ParseNumber(s)
      case Some(n) => if n == 0 then 1 else n
      case None => 1
  }

  /** The decimal digits of `n`, without leading zeros. */
  function Decimal(n: nat): (s: string)
    ensures |s| >= 1 && forall i :: 0 <= i < |s| ==> IsDigit(s[i])
  {
    if n < 10 then [('0' as int + n) as char] else Decimal(n / 10) + [('0' as int + n % 10) as char]
  }

  /** Reading back a written page number gives it back; 0 falls back to 1. */
  lemma {:induction false} PageNumberRoundTrip(n: nat)
    ensures ParseNumber(Decimal(n)) == Some(n)
    ensures CurrentPage(Some(Decimal(n))) == if n == 0 then 1 else n
  {
    var s := Decimal(n);
    if n < 10 {
      assert s[..0] == [];
      assert DigitsValue(s) == DigitOf(s[0]);
    } else {
      PageNumberRoundTrip(n / 10);
      assert s[..|s| - 1] == Decimal(n / 10);
      assert DigitOf(s[|s| - 1]) == n % 10;
      assert DigitsValue(s) == DigitsValue(Decimal(n / 10)) * 10 + n % 10;
    }
  }

  /** Non-numeric and empty parameters open page 1. */
  lemma CurrentPageFallbacks()
    ensures CurrentPage(Some("")) == 1
    ensures CurrentPage(Some("x")) == 1
  {
    assert !IsDigit("x"[0]);
  }

  /** A bookmark row of the user for list `id`. */
  predicate Bookmarked(bookmarks: seq<Pair>, id: string)
  {
    exists i :: 0 <= i < |bookmarks| && bookmarks[i].listId == id
  }

  /** `filteredLists`: with `bookmarksOnly === "true"`, the lists some bookmark points at; otherwise all. */
  function FilteredLists(lists: seq<SharedList>, bookmarks: seq<Pair>, bookmarksOnly: Option<string>): (r: seq<SharedList>)
    ensures bookmarksOnly != Some("true") ==> r == lists
    ensures bookmarksOnly == Some("true") ==>
      forall l :: l in r <==> l in lists && Bookmarked(bookmarks, l.id)
  {
    if bookmarksOnly == Some("true") then Filter(lists, (l: SharedList) => Bookmarked(bookmarks, l.id)) else lists
  }

  /** The filter only leaves lists out; those kept stay in their order. */
  lemma FilteredIsSubsequence(lists: seq<SharedList>, bookmarks: seq<Pair>, bookmarksOnly: Option<string>)
    ensures IsSubsequence(FilteredLists(lists, bookmarks, bookmarksOnly), lists)
  {
    if bookmarksOnly == Some("true") {
      FilterIsSubsequence(lists, (l: SharedList) => Bookmarked(bookmarks, l.id));
    } else {
      SubsequenceOfItself(lists);
    }
  }

  lemma {:induction false} SubsequenceOfItself(s: seq<SharedList>)
    ensures IsSubsequence(s, s)
  {
    if s != [] {
      SubsequenceOfItself(s[1..]);
    }
  }

  const NoListsMessage: string := "공유된 단어장이 없습니다."

  /** The text of the empty state: it quotes the search term when there is one. */
  function EmptyMessage(q: Option<string>): (m: string)
    ensures !Truthy(q) ==> m == NoListsMessage
    ensures Truthy(q) ==> |m| > |q.value| && m[1..1 + |q.value|] == q.value && m != NoListsMessage
  {
    if Truthy(q) then "'" + q.value + "' 검색 결과가 없습니다." else NoListsMessage
  }

  /** The grid is shown for a non-empty result, the empty state otherwise. */
  predicate ShowsGrid(filtered: seq<SharedList>)
  {
    |filtered| > 0
  }
}
