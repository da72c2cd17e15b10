/** Likes on shared word lists, as the shared-list pages toggle and read them. */
module SharedLikes {
  import opened Wrappers
  import opened Cache
  import opened Store

  const LikeRemoved: string := "좋아요를 취소했습니다."
  const LikeAdded: string := "좋아요를 추가했습니다."

  /** The `revalidateTag` calls of either branch of `toggleLike`, in order. */
  function ToggleLikeInvalidations(userId: string): seq<Tag>
  {
    RevalidatedTags(Likes, Some(userId), None) + [ProfileTag(userId, ProfileLikes)]
  }

  /**
   * Toggling a like invalidates the global likes tag, the user's likes tag and
   * the user's profile likes tag, and no entity-scoped tag.
   */
  lemma {:induction false} ToggleLikeInvalidatesExactly(userId: string)
    requires userId != ""
    ensures TagSet(ToggleLikeInvalidations(userId)) ==
      {GlobalTag(Likes), UserTag(userId, Likes), ProfileTag(userId, ProfileLikes)}
    ensures forall i, k :: IdTag(i, k) !in ToggleLikeInvalidations(userId)
    ensures |TagSet(ToggleLikeInvalidations(userId))| == 3
  {
    var r := ToggleLikeInvalidations(userId);
    assert r == [GlobalTag(Likes), UserTag(userId, Likes), ProfileTag(userId, ProfileLikes)];
    forall i, k ensures IdTag(i, k) !in r {
      ScopesDisjoint(userId, i, Likes, Likes, k, ProfileLikes);
      ScopesDisjoint(userId, i, k, Likes, k, ProfileLikes);
    }
    ScopesDisjoint(userId, "", Likes, Likes, Likes, ProfileLikes);
    ProfileLikesTagDiffers(userId);
  }

  /**
   * `toggleLike`: deletes the (userId, listId) like when it exists and creates
   * it otherwise, then invalidates the likes tags.
   */
  method ToggleLike(db: Database, cache: AppCache, listId: string, userId: string) returns (r: Response)
    requires cache.Valid() && Consistent(cache)
    modifies db`likes, cache
    ensures cache.Valid() && Consistent(cache)
    ensures db.likes == Flip(old(db.likes), Pair(userId, listId))
    ensures r == if Pair(userId, listId) in old(db.likes) then Response(false, LikeRemoved)
                 else Response(false, LikeAdded)
    ensures cache.log == old(cache.log) + ToggleLikeInvalidations(userId)
    ensures cache.entries == Evict(old(cache.entries), TagSet(ToggleLikeInvalidations(userId)))
  {
    var like := Pair(userId, listId);
    var existing := like in db.likes;
    ghost var before := cache.entries;
    if existing {
      db.likes := db.likes - {like};
      cache.RevalidateDbCache(Likes, Some(userId), None);
      cache.RevalidateTag(ProfileTag(userId, ProfileLikes));
      r := Response(false, LikeRemoved);
    } else {
      db.likes := db.likes + {like};
      cache.RevalidateDbCache(Likes, Some(userId), None);
      cache.RevalidateTag(ProfileTag(userId, ProfileLikes));
      r := Response(false, LikeAdded);
    }
    EvictTwice(before, TagSet(RevalidatedTags(Likes, Some(userId), None)), {ProfileTag(userId, ProfileLikes)});
    assert TagSet(ToggleLikeInvalidations(userId)) ==
      TagSet(RevalidatedTags(Likes, Some(userId), None)) + {ProfileTag(userId, ProfileLikes)};
  }

  /** The tags `getLikes` registers its read under. */
  function LikesReadTags(userId: string): seq<Tag>
  {
    [GlobalTag(Likes), UserTag(userId, Likes)]
  }

  /**
   * `getLikes`: [] when the account maps to no user; otherwise the cached read
   * of every like in the table, whoever made it.
   */
  method GetLikes(db: Database, cache: AppCache, userId: Option<string>) returns (likes: set<Pair>)
    requires cache.Valid() && Consistent(cache)
    modifies cache
    ensures cache.Valid() && Consistent(cache) && cache.log == old(cache.log)
    ensures userId.None? ==> likes == {} && cache.entries == old(cache.entries)
    ensures userId.Some? && LikesKey in old(cache.entries) ==>
      likes == old(cache.entries)[LikesKey].value.likes && cache.entries == old(cache.entries)
    ensures userId.Some? && LikesKey !in old(cache.entries) ==>
      likes == db.likes
      && cache.entries == old(cache.entries)[LikesKey := Entry(LikeRows(db.likes), Registered(LikesReadTags(userId.value)))]
  {
    if userId.None? {
      return {};
    }
    var hit := cache.Lookup(LikesKey);
    if hit.Some? {
      return hit.value.likes;
    }
    likes := db.likes;
    cache.Store(LikesKey, LikesReadTags(userId.value), LikeRows(likes));
  }
}
