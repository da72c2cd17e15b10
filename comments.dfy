/** Comments on shared word lists: the cached read and the three mutations. */
module Comments {
  import opened Wrappers
  import opened Seqs
  import opened Cache
  import opened Ordering
  import opened Store

  const CommentDeleted: string := "댓글이 삭제되었습니다."
  const UpdateFailedMessage: string := "댓글을 수정하는 중 오류가 발생했습니다."
  const DeleteFailedMessage: string := "댓글을 삭제하는데 실패했습니다."
  const AlreadyDeletedMessage: string := "이미 삭제되었거나 존재하지 않는 댓글입니다."

  datatype UpdateResult = Updated(comment: Comment) | UpdateFailed(message: string)

  /** `{ success, message }` of `deleteComment`. */
  datatype DeleteResult = DeleteResult(success: bool, message: string)

  function CreatedAt(c: Comment): int
  {
    c.createdAt
  }

  /** `findMany({ where: { listId }, orderBy: { createdAt: "desc" } })`. */
  function CommentsOf(rows: seq<Comment>, listId: string): (r: seq<Comment>)
    ensures NewestFirst(r, CreatedAt)
  {
    SortNewestFirst(Filter(rows, (c: Comment) => c.listId == listId), CreatedAt)
  }

  /** A comment is returned exactly when it is stored under the list. */
  lemma CommentsOfMembers(rows: seq<Comment>, listId: string, c: Comment)
    ensures c in CommentsOf(rows, listId) <==> c in rows && c.listId == listId
  {
    var own := Filter(rows, (c: Comment) => c.listId == listId);
    assert c in CommentsOf(rows, listId) <==> c in multiset(own);
  }

  /** The list's comments are all there, each as often as stored: only the order changes. */
  lemma CommentsOfIsPermutation(rows: seq<Comment>, listId: string)
    ensures multiset(CommentsOf(rows, listId)) == multiset(Filter(rows, (c: Comment) => c.listId == listId))
  {
  }

  /** `where: { id, userId }`: the comment `id` exists and belongs to `userId`. */
  function OwnedIndex(rows: seq<Comment>, id: string, userId: string): (r: Option<nat>)
    requires UniqueCommentIds(rows)
    ensures r.Some? <==> exists i :: 0 <= i < |rows| && rows[i].id == id && rows[i].userId == userId
    ensures r.Some? ==> r.value < |rows| && rows[r.value].id == id && rows[r.value].userId == userId
  {
    match IndexOf(rows, CommentId, id)
    case Some(i) => if rows[i].userId == userId then Some(i) else None
    case None => None
  }

  /** The tags `getCommentsByWordListId` registers its read under. */
  function CommentsReadTags(listId: string): seq<Tag>
  {
    [IdTag(listId, Comments)]
  }

  /** `getCommentsByWordListId`: the cached read of a list's comments, newest first. */
  method GetCommentsByWordListId(db: Database, cache: AppCache, listId: string) returns (rows: seq<Comment>)
    requires cache.Valid() && Consistent(cache)
    modifies cache
    ensures cache.Valid() && Consistent(cache) && cache.log == old(cache.log)
    ensures CommentsKey(listId) in old(cache.entries) ==>
      rows == old(cache.entries)[CommentsKey(listId)].value.comments && cache.entries == old(cache.entries)
    ensures CommentsKey(listId) !in old(cache.entries) ==>
      rows == CommentsOf(old(db.comments), listId)
      && cache.entries == old(cache.entries)[CommentsKey(listId) := Entry(CommentRows(rows), Registered(CommentsReadTags(listId)))]
  {
    var stored := CommentsOf(db.comments, listId);
    var hit := cache.Lookup(CommentsKey(listId));
    if hit.Some? {
      return hit.value.comments;
    }
    rows := stored;
    cache.Store(CommentsKey(listId), CommentsReadTags(listId), CommentRows(rows));
  }

  /** What `createComment` invalidates: sharedWordlists, then comments, each global and for the list. */
  function CreateInvalidations(listId: string): seq<Tag>
  {
    RevalidatedTags(SharedWordlists, None, Some(listId)) + RevalidatedTags(Comments, None, Some(listId))
  }

  /** What a successful update or delete invalidates: the same, plus the owner's sharedWordlists tag. */
  function OwnerInvalidations(userId: string, listId: string): seq<Tag>
  {
    RevalidatedTags(SharedWordlists, Some(userId), Some(listId)) + RevalidatedTags(Comments, None, Some(listId))
  }

  lemma {:induction false} CreateInvalidatesExactly(listId: string)
    requires listId != ""
    ensures TagSet(CreateInvalidations(listId)) ==
      {GlobalTag(SharedWordlists), IdTag(listId, SharedWordlists), GlobalTag(Comments), IdTag(listId, Comments)}
    ensures forall u, k :: UserTag(u, k) !in CreateInvalidations(listId)
  {
    var r := CreateInvalidations(listId);
    assert r == [GlobalTag(SharedWordlists), IdTag(listId, SharedWordlists), GlobalTag(Comments), IdTag(listId, Comments)];
    forall u, k ensures UserTag(u, k) !in r {
      ScopesDisjoint(u, listId, SharedWordlists, k, SharedWordlists, ProfileLikes);
      ScopesDisjoint(u, listId, Comments, k, Comments, ProfileLikes);
    }
  }

  lemma {:induction false} OwnerInvalidatesExactly(userId: string, listId: string)
    requires userId != "" && listId != ""
    ensures TagSet(OwnerInvalidations(userId, listId)) ==
      {GlobalTag(SharedWordlists), UserTag(userId, SharedWordlists), IdTag(listId, SharedWordlists),
       GlobalTag(Comments), IdTag(listId, Comments)}
    ensures UserTag(userId, Comments) !in OwnerInvalidations(userId, listId)
  {
    var r := OwnerInvalidations(userId, listId);
    assert r == [GlobalTag(SharedWordlists), UserTag(userId, SharedWordlists), IdTag(listId, SharedWordlists),
                 GlobalTag(Comments), IdTag(listId, Comments)];
    ScopesDisjoint(userId, listId, SharedWordlists, Comments, SharedWordlists, ProfileLikes);
    ScopesDisjoint(userId, listId, Comments, Comments, Comments, ProfileLikes);
    assert TagValue(SharedWordlists) != TagValue(Comments);
  }

  /**
   * `createComment`: inserts a row with the given content, author and list.
   * The database supplies a fresh primary key `newId` and the timestamp `now`.
   */
  method CreateComment(db: Database, cache: AppCache, listId: string, userId: string, content: string,
                       newId: string, now: int)
    returns (c: Comment)
    requires db.Valid() && cache.Valid() && Consistent(cache)
    requires forall i :: 0 <= i < |db.comments| ==> db.comments[i].id != newId
    modifies db`comments, cache
    ensures db.Valid() && cache.Valid() && Consistent(cache)
    ensures c == Comment(newId, content, userId, listId, now)
    ensures db.comments == old(db.comments) + [c]
    ensures cache.log == old(cache.log) + CreateInvalidations(listId)
    ensures cache.entries == Evict(old(cache.entries), TagSet(CreateInvalidations(listId)))
  {
    c := Comment(newId, content, userId, listId, now);
    db.comments := db.comments + [c];
    ghost var before := cache.entries;
    cache.RevalidateDbCache(SharedWordlists, None, Some(listId));
    cache.RevalidateDbCache(Comments, None, Some(listId));
    EvictTwice(before, TagSet(RevalidatedTags(SharedWordlists, None, Some(listId))),
      TagSet(RevalidatedTags(Comments, None, Some(listId))));
    assert TagSet(CreateInvalidations(listId)) == TagSet(RevalidatedTags(SharedWordlists, None, Some(listId)))
      + TagSet(RevalidatedTags(Comments, None, Some(listId)));
  }

  /**
   * `updateComment`: only a comment whose id and owner both match is updated,
   * and only its content changes. Otherwise (or when the database fails) the
   * table is left alone and the failure message is returned.
   */
  method UpdateComment(db: Database, cache: AppCache, commentId: string, userId: string, content: string,
                       dbError: bool)
    returns (r: UpdateResult)
    requires db.Valid() && cache.Valid() && Consistent(cache)
    modifies db`comments, cache
    ensures db.Valid() && cache.Valid() && Consistent(cache)
    ensures var owned := OwnedIndex(old(db.comments), commentId, userId);
      if dbError || owned.None? then
        r == UpdateFailed(UpdateFailedMessage) && db.comments == old(db.comments)
        && cache.entries == old(cache.entries) && cache.log == old(cache.log)
      else
        var i := owned.value;
        r == Updated(old(db.comments)[i].(content := content))
        && r.comment.id == commentId && r.comment.userId == userId
        && r.comment.listId == old(db.comments)[i].listId
        && db.comments == old(db.comments)[i := r.comment]
        && cache.log == old(cache.log) + OwnerInvalidations(userId, r.comment.listId)
        && cache.entries == Evict(old(cache.entries), TagSet(OwnerInvalidations(userId, r.comment.listId)))
  {
    var owned := OwnedIndex(db.comments, commentId, userId);
    if dbError || owned.None? {
      return UpdateFailed(UpdateFailedMessage);
    }
    var i := owned.value;
    var comment := db.comments[i].(content := content);
    db.comments := db.comments[i := comment];
    ghost var before := cache.entries;
    cache.RevalidateDbCache(SharedWordlists, Some(userId), Some(comment.listId));
    cache.RevalidateDbCache(Comments, None, Some(comment.listId));
    EvictTwice(before, TagSet(RevalidatedTags(SharedWordlists, Some(userId), Some(comment.listId))),
      TagSet(RevalidatedTags(Comments, None, Some(comment.listId))));
    assert TagSet(OwnerInvalidations(userId, comment.listId))
      == TagSet(RevalidatedTags(SharedWordlists, Some(userId), Some(comment.listId)))
      + TagSet(RevalidatedTags(Comments, None, Some(comment.listId)));
    r := Updated(comment);
  }

  /**
   * `deleteComment`: removes the comment only when `userId` owns it. A missing
   * or foreign comment is Prisma's P2025 and gets its own message; any other
   * database failure (`dbError`) gets the generic one.
   */
  method DeleteComment(db: Database, cache: AppCache, commentId: string, userId: string, dbError: bool)
    returns (r: DeleteResult)
    requires db.Valid() && cache.Valid() && Consistent(cache)
    modifies db`comments, cache
    ensures db.Valid() && cache.Valid() && Consistent(cache)
    ensures var owned := OwnedIndex(old(db.comments), commentId, userId);
      if dbError then
        r == DeleteResult(false, DeleteFailedMessage) && db.comments == old(db.comments)
        && cache.entries == old(cache.entries) && cache.log == old(cache.log)
      else if owned.None? then
        r == DeleteResult(false, AlreadyDeletedMessage) && db.comments == old(db.comments)
        && cache.entries == old(cache.entries) && cache.log == old(cache.log)
      else
        var i := owned.value;
        var listId := old(db.comments)[i].listId;
        r == DeleteResult(true, CommentDeleted)
        && db.comments == old(db.comments)[..i] + old(db.comments)[i + 1..]
        && cache.log == old(cache.log) + OwnerInvalidations(userId, listId)
        && cache.entries == Evict(old(cache.entries), TagSet(OwnerInvalidations(userId, listId)))
  {
    if dbError {
      return DeleteResult(false, DeleteFailedMessage);
    }
    var owned := OwnedIndex(db.comments, commentId, userId);
    if owned.None? {
      return DeleteResult(false, AlreadyDeletedMessage);
    }
    var i := owned.value;
    var listId := db.comments[i].listId;
    var rest := db.comments[..i] + db.comments[i + 1..];
    RemoveKeepsUnique(db.comments, i);
    db.comments := rest;
    ghost var before := cache.entries;
    cache.RevalidateDbCache(SharedWordlists, Some(userId), Some(listId));
    cache.RevalidateDbCache(Comments, None, Some(listId));
    EvictTwice(before, TagSet(RevalidatedTags(SharedWordlists, Some(userId), Some(listId))),
      TagSet(RevalidatedTags(Comments, None, Some(listId))));
    assert TagSet(OwnerInvalidations(userId, listId))
      == TagSet(RevalidatedTags(SharedWordlists, Some(userId), Some(listId)))
      + TagSet(RevalidatedTags(Comments, None, Some(listId)));
    r := DeleteResult(true, CommentDeleted);
  }

  /** Removing one row keeps the primary keys distinct. */
  lemma RemoveKeepsUnique(rows: seq<Comment>, i: nat)
    requires UniqueCommentIds(rows) && i < |rows|
    ensures UniqueCommentIds(rows[..i] + rows[i + 1..])
  {
    var rest := rows[..i] + rows[i + 1..];
    assert forall a :: 0 <= a < |rest| ==> rest[a] == rows[if a < i then a else a + 1];
  }

  /** Deletion removes exactly the owned comment: every other row stays. */
  lemma DeleteKeepsOthers(rows: seq<Comment>, i: nat, c: Comment)
    requires UniqueCommentIds(rows) && i < |rows|
    ensures c in rows[..i] + rows[i + 1..] <==> c in rows && c.id != rows[i].id
  {
    var rest := rows[..i] + rows[i + 1..];
    if c in rest {
      var k :| 0 <= k < |rest| && rest[k] == c;
      assert c == rows[if k < i then k else k + 1];
    }
    if c in rows && c.id != rows[i].id {
      var k :| 0 <= k < |rows| && rows[k] == c;
      assert k != i;
      assert c == rest[if k < i then k else k - 1];
    }
  }
}
