/** The grid of shared-list cards: which lists are shown and the bookmark and like props the grid passes to each card. */
module Grid {
  import opened Wrappers
  import opened Seqs
  import opened Store

  /** `!lists?.length`: a null or empty result shows the empty state. */
  predicate ShowsEmpty(lists: Option<seq<SharedList>>)
  {
    lists.None? || |lists.value| == 0
  }

  /** `lists.filter((list) => list.isActive)`: only active lists, in their order. */
  function Rendered(lists: seq<SharedList>): (r: seq<SharedList>)
    ensures forall l :: l in r <==> l in lists && l.isActive
  {
    Filter(lists, (l: SharedList) => l.isActive)
  }

  lemma RenderedInOrder(lists: seq<SharedList>)
    ensures IsSubsequence(Rendered(lists), lists)
  {
    FilterIsSubsequence(lists, (l: SharedList) => l.isActive);
  }

  /** `new Set(rows.map((row) => row.listId))`. */
  function ListIds(rows: seq<Pair>): (r: set<string>)
    ensures forall id :: id in r <==> exists i :: 0 <= i < |rows| && rows[i].listId == id
  {
    set i | 0 <= i < |rows| :: rows[i].listId
  }

  /** `likes.filter((like) => like.listId === list.id).length`. */
  function LikeCount(likes: seq<Pair>, listId: string): (n: nat)
    ensures n <= |likes|
  {
    Count(likes, (p: Pair) => p.listId == listId)
  }

  /** The props the grid passes to one card (the card itself reads only `list`). */
  datatype CardProps = CardProps(list: SharedList, isBookmarked: bool, isLiked: bool, likeCount: nat)

  function CardFor(list: SharedList, bookmarks: seq<Pair>, likes: seq<Pair>): CardProps
  {
    CardProps(list, list.id in ListIds(bookmarks), list.id in ListIds(likes), LikeCount(likes, list.id))
  }

  /** The cards of the grid, one per rendered list. */
  function Cards(lists: seq<SharedList>, bookmarks: seq<Pair>, likes: seq<Pair>): (r: seq<CardProps>)
    ensures |r| == |Rendered(lists)|
    ensures forall i :: 0 <= i < |r| ==> r[i] == CardFor(Rendered(lists)[i], bookmarks, likes)
  {
    var shown := Rendered(lists);
    seq(|shown|, i requires 0 <= i < |shown| => CardFor(shown[i], bookmarks, likes))
  }

  /**
   * The `isBookmarked` prop is set iff some bookmark names the list, `isLiked`
   * iff some like does, and that is exactly when the `likeCount` prop is positive.
   */
  lemma BadgesAgree(list: SharedList, bookmarks: seq<Pair>, likes: seq<Pair>)
    ensures CardFor(list, bookmarks, likes).isBookmarked <==>
      exists i :: 0 <= i < |bookmarks| && bookmarks[i].listId == list.id
    ensures CardFor(list, bookmarks, likes).isLiked <==> CardFor(list, bookmarks, likes).likeCount > 0
  {
  }

  /** Each like counts toward exactly one list: adding a like for `id` raises that list's count by one and no other. */
  lemma {:induction false} LikeCountAppend(likes: seq<Pair>, p: Pair, listId: string)
    ensures LikeCount(likes + [p], listId) == LikeCount(likes, listId) + (if p.listId == listId then 1 else 0)
  {
    if likes == [] {
      assert [p][1..] == [];
    } else {
      assert (likes + [p])[1..] == likes[1..] + [p];
      LikeCountAppend(likes[1..], p, listId);
    }
  }
}
