/** The bookmark toggle on shared word lists. */
module Bookmarks {
  import opened Wrappers
  import opened Cache
  import opened Store

  const BookmarkFailed: string := "즐겨찾기 추가를 실패했습니다."
  const BookmarkRemoved: string := "즐겨찾기에서 삭제했습니다."
  const BookmarkAdded: string := "즐겨찾기에 추가했습니다."

  /** Either branch invalidates exactly the global and the user's bookmarks tags. */
  lemma {:induction false} BookmarkInvalidatesExactly(userId: string)
    requires userId != ""
    ensures TagSet(RevalidatedTags(Bookmarks, Some(userId), None)) == {GlobalTag(Bookmarks), UserTag(userId, Bookmarks)}
    ensures forall i, k :: IdTag(i, k) !in RevalidatedTags(Bookmarks, Some(userId), None)
  {
    var r := RevalidatedTags(Bookmarks, Some(userId), None);
    assert r == [GlobalTag(Bookmarks), UserTag(userId, Bookmarks)];
    forall i, k ensures IdTag(i, k) !in r {
      ScopesDisjoint(userId, i, Bookmarks, Bookmarks, k, ProfileBookmarks);
      ScopesDisjoint(userId, i, k, Bookmarks, k, ProfileBookmarks);
    }
  }

  /**
   * `toggleBookmark`: `userId` is what the session's account maps to. With no
   * user the failure message comes back with `error` false and nothing is
   * touched; otherwise the (userId, listId) bookmark is deleted when it exists
   * and created when it does not.
   */
  method ToggleBookmark(db: Database, cache: AppCache, listId: string, userId: Option<string>)
    returns (r: Response)
    requires cache.Valid() && Consistent(cache)
    modifies db`bookmarks, cache
    ensures cache.Valid() && Consistent(cache)
    ensures userId.None? ==>
      r == Response(false, BookmarkFailed) && db.bookmarks == old(db.bookmarks)
      && cache.entries == old(cache.entries) && cache.log == old(cache.log)
    ensures userId.Some? ==>
      db.bookmarks == Flip(old(db.bookmarks), Pair(userId.value, listId))
      && r == (if Pair(userId.value, listId) in old(db.bookmarks) then Response(false, BookmarkRemoved)
               else Response(false, BookmarkAdded))
      && cache.log == old(cache.log) + RevalidatedTags(Bookmarks, userId, None)
      && cache.entries == Evict(old(cache.entries), TagSet(RevalidatedTags(Bookmarks, userId, None)))
  {
    if userId.None? {
      return Response(false, BookmarkFailed);
    }
    var bookmark := Pair(userId.value, listId);
    if bookmark in db.bookmarks {
      db.bookmarks := db.bookmarks - {bookmark};
      cache.RevalidateDbCache(Bookmarks, userId, None);
      r := Response(false, BookmarkRemoved);
    } else {
      db.bookmarks := db.bookmarks + {bookmark};
      cache.RevalidateDbCache(Bookmarks, userId, None);
      r := Response(false, BookmarkAdded);
    }
  }
}
