/** The profile page's like toggle: only the profile likes tag is invalidated. */
module ProfileLikes {
  import opened Wrappers
  import opened Cache
  import opened Store
  import SharedLikes

  const LikeFailed: string := "좋아요 처리 중 오류가 발생했습니다."

  /**
   * This toggle refreshes the profile likes read only: neither the global nor
   * the owner-scoped likes tag is invalidated, so a cached `getLikes` read
   * survives it, while the shared-list toggle would drop that read.
   */
  lemma {:induction false} ProfileToggleKeepsLikesReads(userId: string, entries: map<ReadKey, Entry<Snapshot>>, v: Snapshot)
    requires userId != ""
    ensures var e := entries[LikesKey := Entry(v, Registered(SharedLikes.LikesReadTags(userId)))];
      LikesKey in Evict(e, {ProfileTag(userId, ProfileLikes)})
      && LikesKey !in Evict(e, TagSet(SharedLikes.ToggleLikeInvalidations(userId)))
  {
    var tags := SharedLikes.LikesReadTags(userId);
    var p := ProfileTag(userId, ProfileLikes);
    ScopesDisjoint(userId, "", Likes, Likes, Likes, ProfileLikes);
    ProfileLikesTagDiffers(userId);
    ReadSurvives(entries, LikesKey, v, tags, {p});
    SharedLikes.ToggleLikeInvalidatesExactly(userId);
    ReadSurvives(entries, LikesKey, v, tags, TagSet(SharedLikes.ToggleLikeInvalidations(userId)));
    assert GlobalTag(Likes) in TagSet(SharedLikes.ToggleLikeInvalidations(userId));
  }

  /**
   * `toggleLike` of the profile pages: deletes the (userId, listId) like when it
   * exists and creates it otherwise, then invalidates the profile likes tag.
   * `dbError` stands for any query that throws: the table is left as it was
   * and the error response is returned.
   */
  method ToggleLike(db: Database, cache: AppCache, listId: string, userId: string, dbError: bool)
    returns (r: Response)
    requires cache.Valid() && Consistent(cache)
    modifies db`likes, cache
    ensures cache.Valid() && Consistent(cache)
    ensures dbError ==>
      r == Response(true, LikeFailed) && db.likes == old(db.likes)
      && cache.entries == old(cache.entries) && cache.log == old(cache.log)
    ensures !dbError ==>
      db.likes == Flip(old(db.likes), Pair(userId, listId))
      && r == (if Pair(userId, listId) in old(db.likes) then Response(false, SharedLikes.LikeRemoved)
               else Response(false, SharedLikes.LikeAdded))
      && cache.log == old(cache.log) + [ProfileTag(userId, ProfileLikes)]
      && cache.entries == Evict(old(cache.entries), {ProfileTag(userId, ProfileLikes)})
  {
    if dbError {
      return Response(true, LikeFailed);
    }
    var like := Pair(userId, listId);
    if like in db.likes {
      db.likes := db.likes - {like};
      cache.RevalidateTag(ProfileTag(userId, ProfileLikes));
      return Response(false, SharedLikes.LikeRemoved);
    }
    db.likes := db.likes + {like};
    cache.RevalidateTag(ProfileTag(userId, ProfileLikes));
    r := Response(false, SharedLikes.LikeAdded);
  }
}
