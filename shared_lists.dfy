/** The shared word lists: the filtered list read and the detail read. */
module SharedLists {
  import opened Wrappers
  import opened Seqs
  import opened Text
  import opened Cache
  import opened Ordering
  import opened Store
  import Comments

  /** `search ? { OR: [name contains, description contains] } : {}`, case-insensitively. */
  predicate SearchMatches(l: SharedList, search: Option<string>)
  {
    !Truthy(search)
    || ContainsIgnoringCase(l.name, search.value)
    || (l.description.Some? && ContainsIgnoringCase(l.description.value, search.value))
  }

  /** `tags && tags.length > 0 ? { tags: { hasSome: tags } } : {}`. */
  predicate TagsMatch(l: SharedList, selected: Option<seq<string>>)
  {
    selected.None? || |selected.value| == 0
    || exists i :: 0 <= i < |selected.value| && selected.value[i] in l.tags
  }

  /** Both conditions of the `AND`. */
  predicate Matches(l: SharedList, search: Option<string>, selected: Option<seq<string>>)
  {
    SearchMatches(l, search) && TagsMatch(l, selected)
  }

  function CreatedAt(l: SharedList): int
  {
    l.createdAt
  }

  /** The `where` clause as a row filter. */
  function Keep(search: Option<string>, selected: Option<seq<string>>): SharedList -> bool
  {
    (l: SharedList) => Matches(l, search, selected)
  }

  /** `getSharedWordlistsInternal`: the matching lists, newest first. */
  function Query(rows: seq<SharedList>, search: Option<string>, selected: Option<seq<string>>): (r: seq<SharedList>)
    ensures forall l :: l in r <==> l in rows && Matches(l, search, selected)
    ensures NewestFirst(r, CreatedAt)
    ensures multiset(r) == multiset(Filter(rows, Keep(search, selected)))
  {
    var kept := Filter(rows, Keep(search, selected));
    var r := SortNewestFirst(kept, CreatedAt);
    forall l
      ensures l in r <==> l in rows && Matches(l, search, selected)
    {
      assert l in r <==> l in multiset(r);
      assert l in kept <==> l in multiset(kept);
    }
    r
  }

  /** With no search text and no tags the query returns every list. */
  lemma UnfilteredQueryReturnsAll(rows: seq<SharedList>, search: Option<string>, selected: Option<seq<string>>)
    requires !Truthy(search) && (selected.None? || selected.value == [])
    ensures multiset(Query(rows, search, selected)) == multiset(rows)
  {
    FilterAll(rows, Keep(search, selected));
  }

  /** Lower-casing distributes over concatenation. */
  lemma LowerAppend(a: string, b: string)
    ensures Lower(a + b) == Lower(a) + Lower(b)
  {
    assert forall i :: 0 <= i < |a + b| ==> Lower(a + b)[i] == (Lower(a) + Lower(b))[i];
  }

  /** Typing more search text can only narrow the result. */
  lemma {:induction false} LongerSearchNarrows(l: SharedList, typed: string, more: string, selected: Option<seq<string>>)
    requires typed != ""
    requires Matches(l, Some(typed + more), selected)
    ensures Matches(l, Some(typed), selected)
  {
    LowerAppend(typed, more);
    if ContainsIgnoringCase(l.name, typed + more) {
      ContainsPrefix(Lower(l.name), Lower(typed), Lower(more));
    } else {
      ContainsPrefix(Lower(l.description.value), Lower(typed), Lower(more));
    }
  }

  /** Selecting more tags can only widen the result (`hasSome`). */
  lemma MoreTagsWiden(l: SharedList, search: Option<string>, fewer: seq<string>, more: seq<string>)
    requires fewer != [] && forall t :: t in fewer ==> t in more
    requires Matches(l, search, Some(fewer))
    ensures Matches(l, search, Some(more))
  {
    var i :| 0 <= i < |fewer| && fewer[i] in l.tags;
    assert fewer[i] in more;
    var j :| 0 <= j < |more| && more[j] == fewer[i];
  }

  /** Searching for a list's exact name finds it. */
  lemma {:induction false} ExactNameFound(rows: seq<SharedList>, l: SharedList)
    requires l in rows && l.name != ""
    ensures l in Query(rows, Some(l.name), None)
  {
    assert Lower(l.name) <= Lower(l.name);
  }

  /** The tags `getSharedWordLists` registers its read under. */
  function ListsReadTags(userId: string): seq<Tag>
  {
    [GlobalTag(SharedWordlists), UserTag(userId, SharedWordlists)]
  }

  /**
   * `getSharedWordLists`: null when the account maps to no user, otherwise the
   * cached query. The cache key is the query only, so users share entries.
   */
  method GetSharedWordLists(db: Database, cache: AppCache, userId: Option<string>,
                            search: Option<string>, selected: Option<seq<string>>)
    returns (r: Option<seq<SharedList>>)
    requires cache.Valid() && Consistent(cache)
    modifies cache
    ensures cache.Valid() && Consistent(cache) && cache.log == old(cache.log)
    ensures userId.None? ==> r.None? && cache.entries == old(cache.entries)
    ensures userId.Some? && ListsKey(search, selected) in old(cache.entries) ==>
      r == Some(old(cache.entries)[ListsKey(search, selected)].value.lists) && cache.entries == old(cache.entries)
    ensures userId.Some? && ListsKey(search, selected) !in old(cache.entries) ==>
      r == Some(Query(db.sharedLists, search, selected))
      && cache.entries == old(cache.entries)[ListsKey(search, selected) :=
           Entry(ListRows(r.value), Registered(ListsReadTags(userId.value)))]
  {
    if userId.None? {
      return None;
    }
    var key := ListsKey(search, selected);
    var hit := cache.Lookup(key);
    if hit.Some? {
      return Some(hit.value.lists);
    }
    var rows := Query(db.sharedLists, search, selected);
    cache.Store(key, ListsReadTags(userId.value), ListRows(rows));
    r := Some(rows);
  }

  /** Replacing a row by one with the same id keeps primary keys unique. */
  lemma SameIdKeepsUnique(rows: seq<SharedList>, i: nat, l: SharedList)
    requires UniqueListIds(rows) && i < |rows| && l.id == rows[i].id
    ensures UniqueListIds(rows[i := l])
  {
  }

  /** The tags `getSharedWordListById` registers its read under. */
  function ListReadTags(id: string): seq<Tag>
  {
    [IdTag(id, SharedWordlists)]
  }

  /**
   * `getSharedWordListById`: on a cache miss, one transaction increments the
   * list's view count and reads it back with its comments, newest first. A
   * missing id makes the update throw: nothing changes and nothing is cached
   * (None here). A cache hit returns the stored detail and counts no view.
   */
  method GetSharedWordListById(db: Database, cache: AppCache, id: string) returns (r: Option<Detail>)
    requires db.Valid() && cache.Valid() && Consistent(cache)
    modifies db`sharedLists, cache
    ensures db.Valid() && cache.Valid() && Consistent(cache) && cache.log == old(cache.log)
    ensures ListKey(id) in old(cache.entries) ==>
      r == Some(old(cache.entries)[ListKey(id)].value.detail)
      && db.sharedLists == old(db.sharedLists) && cache.entries == old(cache.entries)
    ensures ListKey(id) !in old(cache.entries) && IndexOf(old(db.sharedLists), SharedListId, id).None? ==>
      r.None? && db.sharedLists == old(db.sharedLists) && cache.entries == old(cache.entries)
    ensures ListKey(id) !in old(cache.entries) && IndexOf(old(db.sharedLists), SharedListId, id).Some? ==>
      var i := IndexOf(old(db.sharedLists), SharedListId, id).value;
      var viewed := old(db.sharedLists)[i].(viewCount := old(db.sharedLists)[i].viewCount + 1);
      db.sharedLists == old(db.sharedLists)[i := viewed]
      && r == Some(Detail(viewed, Comments.CommentsOf(old(db.comments), id)))
      && cache.entries == old(cache.entries)[ListKey(id) := Entry(ListDetail(r.value), Registered(ListReadTags(id)))]
  {
    var comments := Comments.CommentsOf(db.comments, id);
    var hit := cache.Lookup(ListKey(id));
    if hit.Some? {
      return Some(hit.value.detail);
    }
    var found := IndexOf(db.sharedLists, SharedListId, id);
    if found.None? {
      return None;
    }
    var i := found.value;
    var viewed := db.sharedLists[i].(viewCount := db.sharedLists[i].viewCount + 1);
    SameIdKeepsUnique(db.sharedLists, i, viewed);
    db.sharedLists := db.sharedLists[i := viewed];
    var detail := Detail(viewed, comments);
    cache.Store(ListKey(id), ListReadTags(id), ListDetail(detail));
    r := Some(detail);
  }

  /** Invalidating the list's id tag drops its cached detail, so the next read counts a view again. */
  lemma IdInvalidationEvictsDetail(entries: map<ReadKey, Entry<Snapshot>>, id: string, d: Detail, dropped: set<Tag>)
    requires IdTag(id, SharedWordlists) in dropped
    ensures ListKey(id) !in Evict(entries[ListKey(id) := Entry(ListDetail(d), Registered(ListReadTags(id)))], dropped)
  {
    ReadSurvives(entries, ListKey(id), ListDetail(d), ListReadTags(id), dropped);
  }
}
