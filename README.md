# Fluent Journey in Dafny

This project models the core of Fluent Journey, a Next.js application. In it, users build vocabulary
lists, study them with flashcards, and share lists with other users. Other users can comment on,
like and bookmark the shared lists. The model covers three layers:

- **Server side.** This is the tagged read-through cache (`src/lib/cache.ts`) and the database
  operations that read and mutate likes, bookmarks, comments, view counts and shared lists. Each
  operation is stated together with the exact cache tags it invalidates.
- **Client side.** These are the stateful components: the flashcards, the study session, the word
  list pager, the page strip, the tag, bookmark and search filters that rewrite the URL query, the
  share dialog, the copy button, the word form and the navigation bar.
- **Pure rules.** These are the pure rules of the lists page, the cards and the grid, the page
  metadata, and the input schemas.

Mutable tables and component state are classes whose methods say what they change. Pure
computations are functions with lemmas about them.

Modules, one per file:

| file | module | models |
|---|---|---|
| wrappers.dfy | Wrappers | `Option` |
| seqs.dfy | Seqs | `Array.prototype.filter`, order-preserving subsequences, counting |
| text.dfy | Text | JavaScript truthiness, `split`/`join` on one character, `trim`, lower-casing, case-insensitive `contains` |
| cache.dfy | Cache | `CACHE_TAGS`, the tag builders, `dbCache`, `revalidateDbCache`, `clearFullCache` |
| store.dfy | Store | the tables (likes, bookmarks, comments, shared lists, view stats) and the cache's keys and values |
| ordering.dfy | Ordering | `orderBy: { createdAt: "desc" }` |
| likes.dfy | SharedLikes | `toggleLike` and `getLikes` of the shared-list pages |
| profile_likes.dfy | ProfileLikes | `toggleLike` of the profile pages |
| bookmarks.dfy | Bookmarks | `toggleBookmark` |
| comments.dfy | Comments | reading, creating, updating and deleting comments |
| view_count.dfy | ViewCount | `incrementSharedListViewCount` |
| shared_lists.dfy | SharedLists | `getSharedWordLists` and its search and tag filter, `getSharedWordListById` |
| pagination.dfy | Pagination | `getPageNumbers` and the prev/next links of `CustomPagination` |
| paged_words.dfy | PagedWords | `PaginatedWordsList` |
| flashcards.dfy | Flashcards | `Flashcards` |
| word_study.dfy | WordStudy | `WordStudy` |
| query_params.dfy | QueryParams | the `URLSearchParams` operations the filters use |
| tag_filter.dfy | TagFilter | `TagFilter` |
| bookmark_filter.dfy | BookmarkFilter | `BookmarkFilter` |
| search_bar.dfy | SearchBar | `SearchBar` |
| lists_page.dfy | ListsPage | the shared lists page (`src/app/shared/lists/page.tsx`) |
| grid.dfy | Grid | `SharedWordlistsGrid` |
| card.dfy | Card | `SharedWordlistCard` |
| word_form.dfy | WordForm | `CreateWordForm` |
| share_dialog.dfy | ShareDialog | `AddToSharedWordListDialogContent` |
| copy_button.dfy | CopyButton | `CopyToWordListButton` |
| metadata.dfy | Metadata | `getMetadata` |
| schemas.dfy | Schemas | the zod schemas of comments and word lists |
| navbar.dfy | Navbar | `Navbar` and `NAV_ITEMS` |

How the model represents the cache, the database and the outside world:

- **The cache.** `TaggedCache` is a map from read keys to entries. Each entry records the value and
  the tags it was registered under. `log` records every `revalidateTag` call in order.
  Invalidating a tag drops every entry registered under it.
- **The database.** The `Database` class holds the tables. Likes and bookmarks are sets of
  `(userId, listId)` pairs, because the tables are unique on that pair. Comments and shared lists
  are sequences in insertion order.
- **Injected inputs.** The account-to-user lookup is an `Option` parameter. So are a database
  failure (`dbError`), a new row's id and creation time, and the random shuffle (any permutation of
  the available words).

## Model

| member | source | states |
|---|---|---|
| Cache.GlobalTag | src/lib/cache.ts:25-27 | `global:` followed by the kind's CACHE_TAGS value; `GlobalTagInjective` and `ScopesDisjoint` are about it |
| Cache.UserTag | src/lib/cache.ts:29-31 | `user:<userId>-` followed by the kind's value; `UserTagInjective` is about it |
| Cache.IdTag | src/lib/cache.ts:33-35 | `id:<id>-` followed by the kind's value; `IdTagInjective` is about it |
| Cache.ProfileTag | src/lib/cache.ts:37-42 | `user:<userId>-` followed by the CACHE_TAGS.profile value; `ProfileTagMatchesUserTag` and `ProfileLikesTagDiffers` are about it |
| Cache.TagValueIsKeyName | src/lib/cache.ts:10-16 | every key but `profile` maps to its own name, so its global tag is `"global:" + name` |
| Cache.GlobalTagInjective | src/lib/cache.ts:10-27 | distinct kinds give distinct global tags |
| Cache.ProfileTagMatchesUserTag | src/lib/cache.ts:17-21 | the profile tag of wordlists, sharedWordlists and bookmarks equals the user's tag of that kind; the likes one is `"user:" + u + "-profile:likes"` |
| Cache.ProfileLikesTagDiffers | src/lib/cache.ts:21 | the profile likes tag differs from the user's likes tag |
| Cache.ScopesDisjoint | src/lib/cache.ts:25-45 | global, user, id, profile and `"*"` tags never coincide |
| Cache.UserTagInjective | src/lib/cache.ts:29-31 | within a kind, equal user tags mean equal user ids |
| Cache.IdTagInjective | src/lib/cache.ts:33-35 | within a kind, equal id tags mean equal ids |
| Cache.RevalidatedTags | src/lib/cache.ts:56-72 | the invalidated tags start with the global tag and number one to three |
| Cache.RevalidatedTagsExactly | src/lib/cache.ts:56-72 | a tag is invalidated iff it is the global tag, the user tag with a truthy `userId`, or the id tag with a truthy `id`; never `"*"` |
| Cache.Registered | src/lib/cache.ts:49-54 | a read is registered under all its declared tags plus `"*"` |
| Cache.Evict | src/lib/cache.ts:44-71 | an entry survives iff none of its tags was invalidated, and surviving entries are unchanged |
| Cache.EvictTwice | src/lib/cache.ts:65-71 | two invalidations in a row equal one invalidation of both tag sets |
| Cache.ReadSurvives | src/lib/cache.ts:53-71 | a read survives unless an invalidated tag is among its tags or is `"*"` |
| Cache.TaggedCache.constructor | src/lib/cache.ts:49-54 | the cache starts empty |
| Cache.TaggedCache.Lookup | src/lib/cache.ts:53 | a hit iff a live entry exists, returning its stored value |
| Cache.TaggedCache.Store | src/lib/cache.ts:53 | the fetched value is stored under the read's tags plus `"*"` |
| Cache.TaggedCache.RevalidateTag | src/lib/cache.ts:65-71 | drops exactly the entries carrying the tag and logs it |
| Cache.TaggedCache.RevalidateDbCache | src/lib/cache.ts:56-72 | logs the global, user and id tags in that order and drops every entry carrying one |
| Cache.TaggedCache.ClearFullCache | src/lib/cache.ts:44-46 | invalidating `"*"` empties the cache |
| Store.Flip | src/features/shared-wordlists/server/db/like.ts:23-46 | membership of the pair flips and no other pair changes |
| Store.FlipTwice | src/features/shared-wordlists/server/db/like.ts:23-46 | flipping the same pair twice restores the table |
| Ordering.Insert | src/features/shared-wordlists/server/db/shared-wordlists.ts:193-195 | inserting one row into a newest-first sequence keeps it newest first and adds exactly that row |
| Ordering.HeadIsNewest | src/features/shared-wordlists/server/db/shared-wordlists.ts:193-195 | a row older than the head goes after it and keeps the order |
| Ordering.SortNewestFirst | src/features/shared-wordlists/server/db/shared-wordlists.ts:193-195 | the result holds the same rows, each once, ordered by `createdAt` descending |
| SharedLikes.ToggleLikeInvalidatesExactly | src/features/shared-wordlists/server/db/like.ts:30-53 | either branch invalidates exactly `global:likes`, `user:<uid>-likes` and `user:<uid>-profile:likes`, and no id tag |
| SharedLikes.ToggleLike | src/features/shared-wordlists/server/db/like.ts:13-60 | the pair's like flips; the message is the removal or the addition one, with `error` false; the three tags are invalidated |
| SharedLikes.GetLikes | src/features/shared-wordlists/server/db/like.ts:62-80 | [] for no user; otherwise every like of the table, from the cache when present, stored under the global and user likes tags |
| ProfileLikes.ProfileToggleKeepsLikesReads | src/features/profile/server/db/likes.ts:21-36 | a cached `getLikes` read survives this toggle, but not the shared-list toggle |
| ProfileLikes.ToggleLike | src/features/profile/server/db/likes.ts:7-48 | a failure returns the error message and changes nothing; otherwise the pair flips and only the profile likes tag is invalidated |
| Bookmarks.BookmarkInvalidatesExactly | src/features/shared-wordlists/server/actions/bookmark.ts:36-56 | either branch invalidates exactly `global:bookmarks` and `user:<uid>-bookmarks` |
| Bookmarks.ToggleBookmark | src/features/shared-wordlists/server/actions/bookmark.ts:13-61 | no user: `error` false with the failure message and nothing changed; otherwise the pair flips with the removal or the addition message |
| Comments.CommentsOf | src/features/shared-wordlists/server/db/comments.ts:7-25 | a list's comments come newest first |
| Comments.CommentsOfMembers | src/features/shared-wordlists/server/db/comments.ts:7-25 | a comment is listed iff it is in the table and belongs to the list |
| Comments.CommentsOfIsPermutation | src/features/shared-wordlists/server/db/comments.ts:7-25 | each of the list's comments is listed exactly once |
| Comments.OwnedIndex | src/features/shared-wordlists/server/db/comments.ts:68-116 | a row is found iff one has both the comment id and the owner |
| Comments.GetCommentsByWordListId | src/features/shared-wordlists/server/db/comments.ts:7-25 | a cached read returns the stored rows; otherwise it reads the list's comments and registers them under `id:<listId>-comments` only |
| Comments.CreateInvalidatesExactly | src/features/shared-wordlists/server/db/comments.ts:50-58 | creating invalidates the global and id tags of sharedWordlists and comments, and no user tag |
| Comments.OwnerInvalidatesExactly | src/features/shared-wordlists/server/db/comments.ts:83-92 | an owner's change invalidates the sharedWordlists global, user and id tags and the comments global and id tags |
| Comments.CreateComment | src/features/shared-wordlists/server/db/comments.ts:27-59 | appends a row with the given content, user and list, and invalidates the create tags |
| Comments.UpdateComment | src/features/shared-wordlists/server/db/comments.ts:61-101 | only an owned comment's content changes, and its list is kept; a failure or a missing row returns `success` false with the update error message and changes nothing |
| Comments.DeleteComment | src/features/shared-wordlists/server/db/comments.ts:103-146 | removes only the owned row and returns the deletion message; a missing row gives the "already deleted" message; another failure gives the generic one |
| Comments.DeleteKeepsOthers | src/features/shared-wordlists/server/db/comments.ts:111-116 | after a deletion, exactly the comments with other ids remain |
| ViewCount.Bumped | src/features/shared-wordlists/server/actions/shared-wordlists.ts:6-18 | a missing row is created with count 1, an existing one grows by exactly 1, and other lists are untouched |
| ViewCount.BumpedCounts | src/features/shared-wordlists/server/actions/shared-wordlists.ts:6-18 | n views from no row give a count of n |
| ViewCount.BumpN | src/features/shared-wordlists/server/actions/shared-wordlists.ts:6-18 | after one or more views the row exists |
| ViewCount.IncrementSharedListViewCount | src/features/shared-wordlists/server/actions/shared-wordlists.ts:6-25 | upserts the counter, returns the new count and invalidates `global:` and `id:<id>-sharedWordlists` |
| SharedLists.SearchMatches | src/features/shared-wordlists/server/db/shared-wordlists.ts:161-170 | a falsy search matches everything; otherwise the name or the description contains it, ignoring case |
| SharedLists.TagsMatch | src/features/shared-wordlists/server/db/shared-wordlists.ts:171-175 | undefined or empty tags match everything; otherwise some selected tag is among the list's tags (`hasSome`) |
| SharedLists.Query | src/features/shared-wordlists/server/db/shared-wordlists.ts:158-196 | a list is returned iff it matches the search and the tags; results are newest first, each once |
| SharedLists.UnfilteredQueryReturnsAll | src/features/shared-wordlists/server/db/shared-wordlists.ts:161-175 | a falsy search with no tags returns every list |
| SharedLists.LowerAppend | src/features/shared-wordlists/server/db/shared-wordlists.ts:164-166 | lower-casing distributes over concatenation |
| SharedLists.LongerSearchNarrows | src/features/shared-wordlists/server/db/shared-wordlists.ts:161-170 | a list matching an extended search matches its prefix |
| SharedLists.MoreTagsWiden | src/features/shared-wordlists/server/db/shared-wordlists.ts:171-175 | a list matching some tags matches any superset of them |
| SharedLists.ExactNameFound | src/features/shared-wordlists/server/db/shared-wordlists.ts:161-170 | searching for a list's own non-empty name finds it |
| SharedLists.GetSharedWordLists | src/features/shared-wordlists/server/db/shared-wordlists.ts:16-33 | null for no user; otherwise the cached or freshly queried lists, registered under the global and user sharedWordlists tags |
| Store.IndexOf | src/features/shared-wordlists/server/db/shared-wordlists.ts:203-213 | the primary-key lookup behind every `where: { id }`: finds the row whose key is the id, or reports that no row has it |
| SharedLists.SameIdKeepsUnique | src/features/shared-wordlists/server/db/shared-wordlists.ts:203-210 | rewriting a row without changing its id keeps ids unique |
| SharedLists.GetSharedWordListById | src/features/shared-wordlists/server/db/shared-wordlists.ts:35-253 | a cache hit returns the stored detail and increments nothing; otherwise the list's `viewCount` grows by 1 and the detail with its comments newest first is stored under `id:<id>-sharedWordlists` |
| SharedLists.IdInvalidationEvictsDetail | src/features/shared-wordlists/server/db/shared-wordlists.ts:35-41 | invalidating the id tag drops the cached detail |
| Pagination.PageNumbers | src/components/CustomPagination.tsx:27-52 | the strip as one expression: 1, an optional leading ellipsis, the pages around the current one, an optional trailing ellipsis and the last page; `PageNumbersShape`, `EllipsesShown`, `LastPage` and `CurrentListed` are about it |
| Pagination.PrevTarget | src/components/CustomPagination.tsx:60 | the previous button's target `max(1, current - 1)`; `NavigationClamped` is about it |
| Pagination.NextTarget | src/components/CustomPagination.tsx:101-103 | the next button's target `min(total, current + 1)`; `NavigationClamped` is about it |
| Pagination.Run | src/components/CustomPagination.tsx:39-41 | the pages lo..hi, in order |
| Pagination.GetPageNumbers | src/components/CustomPagination.tsx:27-52 | the loop builds exactly the specified strip |
| Pagination.PageNumbersShape | src/components/CustomPagination.tsx:27-52 | 1 to 7 entries, first page 1, pages strictly increasing within [1, max(1,T)] |
| Pagination.EllipsesShown | src/components/CustomPagination.tsx:35-45 | "ellipsis-start" iff rangeStart > 2, "ellipsis-end" iff rangeEnd < T-1 |
| Pagination.LastPage | src/components/CustomPagination.tsx:33-49 | the last entry is T iff T > 1; for T ≤ 1 only page 1 is listed, and the strip is [1] when c ≤ 3 |
| Pagination.CurrentListed | src/components/CustomPagination.tsx:32-41 | for 1 ≤ c ≤ T the current page is listed |
| Pagination.EllipsisHidesPages | src/components/CustomPagination.tsx:35-49 | numbers around an ellipsis skip at least one page; adjacent numbers are consecutive |
| Pagination.NavigationClamped | src/components/CustomPagination.tsx:60-103 | prev is max(1,c-1) and next is min(T,c+1), both in [1,T], and each undoes the other away from the ends |
| PagedWords.StartIndex | src/features/shared-wordlists/components/pagination/PaginatedWordsList.tsx:42 | the first word index of a page, `(page - 1) * 15` |
| PagedWords.VisibleWords | src/features/shared-wordlists/components/pagination/PaginatedWordsList.tsx:43 | the slice shown on a page; `VisibleWindow`, `FirstPagesArePrefix` and `AllPagesGiveBackWords` are about it |
| PagedWords.TotalPages | src/features/shared-wordlists/components/pagination/PaginatedWordsList.tsx:41 | `ceil(n/15)` |
| PagedWords.SliceIndex | src/features/shared-wordlists/components/pagination/PaginatedWordsList.tsx:43 | `slice` clamps an index into [0, n] |
| PagedWords.JsSlice | src/features/shared-wordlists/components/pagination/PaginatedWordsList.tsx:43 | a slice is never longer than its source |
| PagedWords.VisibleWindow | src/features/shared-wordlists/components/pagination/PaginatedWordsList.tsx:42-43 | a page holds at most 15 words, the clipped window starting at (p-1)*15 |
| PagedWords.PagesInRangeNonEmpty | src/features/shared-wordlists/components/pagination/PaginatedWordsList.tsx:41-43 | each page 1..totalPages is non-empty |
| PagedWords.GlobalIndex | src/features/shared-wordlists/components/pagination/PaginatedWordsList.tsx:64 | item `index` of a page is `words[startIndex + index]` |
| PagedWords.FirstPagesArePrefix | src/features/shared-wordlists/components/pagination/PaginatedWordsList.tsx:41-43 | pages 1..k concatenated are the first min(15k, n) words |
| PagedWords.AllPagesGiveBackWords | src/features/shared-wordlists/components/pagination/PaginatedWordsList.tsx:41-43 | pages 1..totalPages concatenated give back the words |
| PagedWords.PaginationIffMoreThanOnePage | src/features/shared-wordlists/components/pagination/PaginatedWordsList.tsx:51-120 | the controls show iff there are more than 15 words; the empty state never shows them |
| PagedWords.PaginatedWordsList.constructor | src/features/shared-wordlists/components/pagination/PaginatedWordsList.tsx:38-39 | the page starts at 1 |
| PagedWords.PaginatedWordsList.HandlePageChange | src/features/shared-wordlists/components/pagination/PaginatedWordsList.tsx:45-46 | the current page becomes the requested one |
| PagedWords.OpensOnFirstWords | src/features/shared-wordlists/components/pagination/PaginatedWordsList.tsx:39-43 | the first page shows the first min(15, n) words |
| Flashcards.NextIndex | src/components/Flashcards.tsx:31 | the next index, wrapping from the last card to 0; `StepsAreModular` and `PrevUndoesNext` are about it |
| Flashcards.PrevIndex | src/components/Flashcards.tsx:26 | the previous index, wrapping from 0 to the last card; `StepsAreModular` and `PrevUndoesNext` are about it |
| Flashcards.StepsAreModular | src/components/Flashcards.tsx:25-33 | next is (i+1) mod n and prev is (i-1+n) mod n, both in [0,n) |
| Flashcards.PrevUndoesNext | src/components/Flashcards.tsx:25-33 | prev after next, and next after prev, give back the index |
| Flashcards.NextTimesWraps | src/components/Flashcards.tsx:30-33 | k ≤ n steps forward land on i+k, wrapped once past the end |
| Flashcards.FullRoundReturns | src/components/Flashcards.tsx:30-33 | n steps forward return to the start |
| Flashcards.Flashcards.constructor | src/components/Flashcards.tsx:22-23 | starts at index 0 with the front shown |
| Flashcards.Flashcards.GoToPrevious | src/components/Flashcards.tsx:25-28 | moves to the previous index, wrapping from 0 to the last, and shows the front |
| Flashcards.Flashcards.GoToNext | src/components/Flashcards.tsx:30-33 | moves to the next index, wrapping from the last to 0, and shows the front |
| Flashcards.Flashcards.FlipCard | src/components/Flashcards.tsx:55 | toggles the side shown |
| WordStudy.Ids | src/components/word/WordStudy.tsx:55-56 | every word's id is collected |
| WordStudy.IdsOnlyOf | src/components/word/WordStudy.tsx:55-56 | every collected id belongs to some word |
| WordStudy.IdsSnoc | src/components/word/WordStudy.tsx:56 | one more word adds exactly its id |
| WordStudy.IdsOfKnownWords | src/components/word/WordStudy.tsx:55-56 | the ids of words drawn from `allWords` are ids of `allWords` |
| WordStudy.Available | src/components/word/WordStudy.tsx:34-36 | exactly the words whose id is not studied |
| WordStudy.GetRandomWords | src/components/word/WordStudy.tsx:33-39 | min(count, available) words, drawn from the available ones |
| WordStudy.DrawIsSubmultiset | src/components/word/WordStudy.tsx:37-38 | a prefix of a permutation of the available words is drawn from them |
| WordStudy.DrawHasNoDuplicates | src/components/word/WordStudy.tsx:37-38 | with no repeated word in `allWords`, the draw has no word twice |
| WordStudy.RepeatCountsTwice | src/components/word/WordStudy.tsx:37-38 | a word at two positions is counted twice |
| WordStudy.SubmultisetKeepsNoDuplicates | src/components/word/WordStudy.tsx:37-38 | a sub-multiset of a repeat-free sequence is repeat-free |
| WordStudy.AvailableHasNoDuplicates | src/components/word/WordStudy.tsx:34-36 | filtering keeps a sequence repeat-free |
| WordStudy.NoDuplicatesCountsOnce | src/components/word/WordStudy.tsx:34-38 | a repeat-free sequence counts each element at most once |
| WordStudy.AvailableIgnoresForeignId | src/components/word/WordStudy.tsx:34-36 | an id no word carries does not affect availability |
| WordStudy.RemainingCountsUnstudied | src/components/word/WordStudy.tsx:64 | with distinct ids, `allWords.length - studied.size` is the number of available words |
| WordStudy.AddIds | src/components/word/WordStudy.tsx:55-56 | the loop adds exactly the current words' ids to the studied set |
| WordStudy.WordStudy.constructor | src/components/word/WordStudy.tsx:24-29 | nothing studied, no session, index 0, meaning hidden |
| WordStudy.WordStudy.StartNewStudySession | src/components/word/WordStudy.tsx:41-47 | draws 10 unstudied words, index 0, meaning hidden, studying |
| WordStudy.WordStudy.HandleNextWord | src/components/word/WordStudy.tsx:49-80 | hides the meaning; before the last word it only advances; on the last it records the ids, ends the session, resets the index, and empties the studied set when nothing remains |
| WordStudy.ResetExactlyWhenAllStudied | src/components/word/WordStudy.tsx:64-78 | the remaining count is never negative and is positive iff some word is still available |
| QueryParams.Get | src/features/shared-wordlists/components/filters/TagFilter.tsx:63 | `get` is absent iff no entry has the name, and otherwise it is the value of the first entry with that name |
| QueryParams.Set | src/features/shared-wordlists/components/filters/TagFilter.tsx:39 | `set` overwrites the first entry with the name and drops later ones, or appends; `GetAfterSet`, `SetKeepsOthers` and `SetAbsent` are about it |
| QueryParams.Delete | src/features/shared-wordlists/components/filters/TagFilter.tsx:41 | `delete` removes exactly the entries with the name |
| QueryParams.GetAfterSet | src/features/shared-wordlists/components/filters/TagFilter.tsx:39 | after `set`, `get` returns the new value |
| QueryParams.GetAfterDelete | src/features/shared-wordlists/components/filters/TagFilter.tsx:41 | after `delete`, `get` returns nothing |
| QueryParams.SetKeepsOthers | src/features/shared-wordlists/components/filters/SearchBar.tsx:15-21 | `set` changes nothing but that name's entries |
| QueryParams.DeleteTwice | src/features/shared-wordlists/components/filters/BookmarkFilter.tsx:17-18 | deleting twice is deleting once |
| QueryParams.DeleteAbsent | src/features/shared-wordlists/components/filters/BookmarkFilter.tsx:17-18 | deleting an absent name changes nothing |
| QueryParams.SetAbsent | src/features/shared-wordlists/components/filters/BookmarkFilter.tsx:19-21 | setting an absent name appends it |
| QueryParams.OtherNamesUnaffected | src/features/shared-wordlists/components/filters/BookmarkFilter.tsx:15-21 | `set` and `delete` leave other names' values alone |
| QueryParams.SearchParams.constructor | src/features/shared-wordlists/components/filters/TagFilter.tsx:37 | copies the current parameters |
| QueryParams.SearchParams.SetParam | src/features/shared-wordlists/components/filters/TagFilter.tsx:39 | applies `set` |
| QueryParams.SearchParams.DeleteParam | src/features/shared-wordlists/components/filters/TagFilter.tsx:41 | applies `delete` |
| TagFilter.TagIdsTransportable | src/features/shared-wordlists/components/filters/TagFilter.tsx:14-27 | the nine tag ids are non-empty and comma-free |
| TagFilter.Remove | src/features/shared-wordlists/components/filters/TagFilter.tsx:50 | removes every occurrence of the tag and nothing else, keeping the other tags in order |
| TagFilter.ToggleTag | src/features/shared-wordlists/components/filters/TagFilter.tsx:48-51 | the tag's membership flips and every other tag keeps its membership |
| TagFilter.RemoveAbsent | src/features/shared-wordlists/components/filters/TagFilter.tsx:50 | removing an absent tag changes nothing |
| TagFilter.RemoveAppended | src/features/shared-wordlists/components/filters/TagFilter.tsx:50-51 | removing a just-appended tag restores the selection |
| TagFilter.ToggleTwice | src/features/shared-wordlists/components/filters/TagFilter.tsx:48-51 | toggling an unselected tag twice restores the selection |
| TagFilter.RemoveKeepsNoDuplicates | src/features/shared-wordlists/components/filters/TagFilter.tsx:50 | removal keeps a repeat-free selection repeat-free |
| TagFilter.ToggleKeepsNoDuplicates | src/features/shared-wordlists/components/filters/TagFilter.tsx:48-51 | toggling keeps a repeat-free selection repeat-free |
| TagFilter.TagsUrl | src/features/shared-wordlists/components/filters/TagFilter.tsx:36-42 | the parameters `updateUrlParams` pushes: `tags` set to the comma join, or deleted for no tags; `TagsUrlEffect` is about it |
| TagFilter.TagsUrlEffect | src/features/shared-wordlists/components/filters/TagFilter.tsx:36-42 | `tags` becomes the comma-join, or is deleted for no tags; other parameters are kept |
| TagFilter.ParseTags | src/features/shared-wordlists/components/filters/TagFilter.tsx:65 | the parsed tags are non-empty and comma-free |
| TagFilter.ParseJoin | src/features/shared-wordlists/components/filters/TagFilter.tsx:39-65 | parsing the join of non-empty, comma-free tags gives them back |
| TagFilter.TagFilter.constructor | src/features/shared-wordlists/components/filters/TagFilter.tsx:33 | the selection starts empty |
| TagFilter.TagFilter.UpdateUrlParams | src/features/shared-wordlists/components/filters/TagFilter.tsx:36-46 | the pushed parameters are the tags URL of the new selection |
| TagFilter.TagFilter.HandleTagSelect | src/features/shared-wordlists/components/filters/TagFilter.tsx:48-55 | the selection is toggled and the URL follows it |
| TagFilter.TagFilter.ClearAllTags | src/features/shared-wordlists/components/filters/TagFilter.tsx:57-60 | empties the selection and deletes `tags` |
| TagFilter.TagFilter.SyncFromUrl | src/features/shared-wordlists/components/filters/TagFilter.tsx:62-68 | a truthy `tags` parameter replaces the selection by its parse; otherwise the selection is kept |
| TagFilter.SelectionSurvivesUrl | src/features/shared-wordlists/components/filters/TagFilter.tsx:36-68 | selecting a known tag and reading the URL back gives the same selection |
| TagFilter.JoinNonEmpty | src/features/shared-wordlists/components/filters/TagFilter.tsx:39-64 | joining tags whose first is non-empty gives a truthy parameter |
| BookmarkFilter.BookmarksOnly | src/features/shared-wordlists/components/filters/BookmarkFilter.tsx:12 | the flag is set iff the first `bookmarksOnly` value is "true" |
| BookmarkFilter.ToggledFavorites | src/features/shared-wordlists/components/filters/BookmarkFilter.tsx:15-21 | the toggled parameters; `ToggleNegates` and `ToggleTwiceFromAbsent` are about it |
| BookmarkFilter.ToggleFavorites | src/features/shared-wordlists/components/filters/BookmarkFilter.tsx:14-22 | pushes the toggled parameters |
| BookmarkFilter.ToggleNegates | src/features/shared-wordlists/components/filters/BookmarkFilter.tsx:12-21 | the derived flag is negated and other parameters are kept |
| BookmarkFilter.ToggleTwiceFromAbsent | src/features/shared-wordlists/components/filters/BookmarkFilter.tsx:15-21 | toggling twice from absent restores the parameters |
| BookmarkFilter.DeleteAppended | src/features/shared-wordlists/components/filters/BookmarkFilter.tsx:18-20 | deleting a just-appended name restores the rest |
| SearchBar.SearchUrl | src/features/shared-wordlists/components/filters/SearchBar.tsx:15-21 | `q` set to a non-empty term, or deleted for ""; `SearchRoundTrip` is about it |
| SearchBar.InitialValue | src/features/shared-wordlists/components/filters/SearchBar.tsx:34 | the input's default value, the first `q` parameter |
| SearchBar.HandleSearch | src/features/shared-wordlists/components/filters/SearchBar.tsx:14-23 | pushes the search URL of the term |
| SearchBar.SearchRoundTrip | src/features/shared-wordlists/components/filters/SearchBar.tsx:15-34 | the input then shows the term (none for ""), and other parameters are unchanged |
| ListsPage.SelectedTags | src/app/shared/lists/page.tsx:34 | a falsy `tags` gives []; otherwise the pieces join back to the string |
| ListsPage.SelectedTagsKeepEmptyPieces | src/app/shared/lists/page.tsx:34 | `"a,,b"` gives `["a", "", "b"]` |
| ListsPage.ParseNumber | src/app/shared/lists/page.tsx:36 | `Number` on digit strings (and "" as 0), NaN otherwise; `PageNumberRoundTrip` and `CurrentPageFallbacks` are about it |
| ListsPage.DigitOf | src/app/shared/lists/page.tsx:36 | a digit's value is below 10 |
| ListsPage.CurrentPage | src/app/shared/lists/page.tsx:36 | the page is at least 1, and 1 without a parameter |
| ListsPage.Decimal | src/app/shared/lists/page.tsx:36 | a number's decimal form is a non-empty digit string |
| ListsPage.PageNumberRoundTrip | src/app/shared/lists/page.tsx:36 | `Number` reads a decimal back; page n gives n, and 0 gives 1 |
| ListsPage.CurrentPageFallbacks | src/app/shared/lists/page.tsx:36 | "" and a non-number give page 1 |
| ListsPage.FilteredLists | src/app/shared/lists/page.tsx:46-51 | with `bookmarksOnly` "true", a list is kept iff some bookmark names it; otherwise the lists pass unchanged |
| ListsPage.FilteredIsSubsequence | src/app/shared/lists/page.tsx:46-51 | the result keeps the lists' order |
| ListsPage.SubsequenceOfItself | src/app/shared/lists/page.tsx:51 | the unfiltered branch is trivially in order |
| ListsPage.EmptyMessage | src/app/shared/lists/page.tsx:76 | a truthy `q` is quoted in the message, which then differs from the no-lists message |
| Grid.Rendered | src/features/shared-wordlists/components/SharedWordlistsGrid.tsx:60-62 | a list is rendered iff it is active |
| Grid.RenderedInOrder | src/features/shared-wordlists/components/SharedWordlistsGrid.tsx:60-62 | rendered lists keep their order |
| Grid.ListIds | src/features/shared-wordlists/components/SharedWordlistsGrid.tsx:55-56 | an id is in the set iff some row has it |
| Grid.LikeCount | src/features/shared-wordlists/components/SharedWordlistsGrid.tsx:63-65 | the count is at most the number of likes |
| Grid.Cards | src/features/shared-wordlists/components/SharedWordlistsGrid.tsx:60-74 | one card per rendered list, in order, each passed the `isBookmarked`, `isLiked` and `likeCount` props the grid computes for that list |
| Grid.BadgesAgree | src/features/shared-wordlists/components/SharedWordlistsGrid.tsx:55-71 | the `isBookmarked` prop is set iff some bookmark names the list; the `isLiked` prop iff the `likeCount` prop is positive |
| Grid.LikeCountAppend | src/features/shared-wordlists/components/SharedWordlistsGrid.tsx:63-65 | a new like raises its own list's count by one and no other |
| Card.TagPreview | src/features/shared-wordlists/components/SharedWordlistCard.tsx:55 | at most the first 3 tags, in order; all of them when there are at most 3 |
| Card.PreviewAccountsForAllTags | src/features/shared-wordlists/components/SharedWordlistCard.tsx:55-67 | "+N more" shows iff a tag is hidden, and shown + N equals the total |
| Card.AuthorName | src/features/shared-wordlists/components/SharedWordlistCard.tsx:88 | a truthy name is shown; otherwise "Anonymous" |
| WordForm.FilledWords | src/components/word/CreateWordForm.tsx:46-49 | a row is sent iff english and korean are both non-blank after trim; undefined words give [] |
| WordForm.ToSubmit | src/components/word/CreateWordForm.tsx:51-54 | title and description pass unchanged and the words are the filled rows |
| WordForm.SubmittedInOrder | src/components/word/CreateWordForm.tsx:46-49 | the sent rows keep the user's order |
| WordForm.SubmitIdempotent | src/components/word/CreateWordForm.tsx:46-49 | filtering twice equals filtering once |
| WordForm.BlankRowDropped | src/components/word/CreateWordForm.tsx:46-49 | a row with white-space-only english or korean is never sent |
| WordForm.Defaults | src/components/word/CreateWordForm.tsx:25-33 | the form starts with 5 rows |
| WordForm.UntouchedFormSendsNoWords | src/components/word/CreateWordForm.tsx:25-49 | the 5 default blank rows are all dropped |
| WordForm.WordRows.constructor | src/components/word/CreateWordForm.tsx:28-32 | the rows start as the 5 blank ones |
| WordForm.WordRows.Append | src/components/word/CreateWordForm.tsx:215-221 | appends a blank row |
| WordForm.WordRows.Remove | src/components/word/CreateWordForm.tsx:132-137 | removing one of several rows keeps at least one |
| ShareDialog.ToastFor | src/features/wordlists/components/AddToSharedWordListDialogContent.tsx:68-74 | a toast iff the message is non-empty, with the message and the error variant |
| ShareDialog.ToggledField | src/features/wordlists/components/AddToSharedWordListDialogContent.tsx:145-149 | the tag is selected afterwards iff it was not before; undefined counts as [] |
| ShareDialog.ToggleUndefinedSelectsOne | src/features/wordlists/components/AddToSharedWordListDialogContent.tsx:145-147 | on an undefined value a click selects just that tag |
| ShareDialog.ToggleFieldTwice | src/features/wordlists/components/AddToSharedWordListDialogContent.tsx:145-149 | two clicks on an unselected tag restore the selection |
| ShareDialog.ToggleFieldKeepsDistinct | src/features/wordlists/components/AddToSharedWordListDialogContent.tsx:145-149 | clicks never create a repeated tag |
| ShareDialog.Dialog.constructor | src/features/wordlists/components/AddToSharedWordListDialogContent.tsx:53-64 | closed, with the defaults: the list's title, "" and [] |
| ShareDialog.Dialog.SetOpen | src/features/wordlists/components/AddToSharedWordListDialogContent.tsx:81 | follows the dialog's open state |
| ShareDialog.Dialog.ToggleFieldTag | src/features/wordlists/components/AddToSharedWordListDialogContent.tsx:144-149 | the field becomes the toggled tags |
| ShareDialog.Dialog.OnSubmit | src/features/wordlists/components/AddToSharedWordListDialogContent.tsx:66-78 | a toast for a non-empty message, then the form is reset and the dialog closed |
| Metadata.PageTitle | src/lib/metadata.ts:22 | a truthy title is followed by the separator and `META.title`; otherwise the title is `META.title` alone |
| Metadata.OrDefault | src/lib/metadata.ts:23-25 | the page's value, or the fallback |
| Metadata.PageUrl | src/lib/metadata.ts:24 | `asPath` iff it is non-blank after trim, otherwise `META.url` |
| Metadata.GetMetadata | src/lib/metadata.ts:19-56 | the base URL, keywords, locale and type are the site's |
| Metadata.SameValuesEverywhere | src/lib/metadata.ts:27-51 | title, description, URL and image agree across top level, openGraph (including `siteName`) and twitter |
| Metadata.OverridesAndFallbacks | src/lib/metadata.ts:20-25 | each field takes a truthy page value and the default otherwise |
| Metadata.BlankPathFallsBack | src/lib/metadata.ts:24 | a blank path gives the site URL |
| Metadata.NoArgumentGivesDefaults | src/lib/metadata.ts:20 | no argument gives every default |
| Schemas.ParseString | src/features/wordlists/schemas/wordlists.ts:18-19 | accepts exactly strings |
| Schemas.ParseOptionalString | src/features/wordlists/schemas/wordlists.ts:5 | accepts undefined (as absent) or a string, not null |
| Schemas.ParseNullableString | src/features/wordlists/schemas/wordlists.ts:20-22 | accepts null (as absent) or a string, not undefined |
| Schemas.ParseStringOrEmpty | src/features/wordlists/schemas/wordlists.ts:9-11 | a missing value becomes "" |
| Schemas.ParseCommentContent | src/features/shared-wordlists/schemas/comments.ts:4-7 | accepted iff a string of length 1..500, untrimmed; "" and too long get their own messages |
| Schemas.ParseCommentCreate | src/features/shared-wordlists/schemas/comments.ts:3-8 | an object is accepted iff its content is |
| Schemas.BlankCommentAccepted | src/features/shared-wordlists/schemas/comments.ts:4-7 | a one-space comment passes as it is |
| Schemas.ParseWordItem | src/features/wordlists/schemas/wordlists.ts:7-13 | a word object is accepted iff each text field is missing or a string |
| Schemas.ParseWordItems | src/features/wordlists/schemas/wordlists.ts:6-14 | the array is accepted iff every item is; the rows keep the length and row k is the parse of item k |
| Schemas.ParseWords | src/features/wordlists/schemas/wordlists.ts:14 | missing words give []; an array is accepted iff every item is, and item i gives row i |
| Schemas.ParseTitle | src/features/wordlists/schemas/wordlists.ts:4 | accepted iff a non-empty string; "" gets the title message |
| Schemas.ParseWordListCreate | src/features/wordlists/schemas/wordlists.ts:3-15 | an object is accepted iff its title is a non-empty string, its description is missing or a string, and its words are accepted; the result carries that title, that description (absent when missing) and the parsed words |
| Schemas.EmptyTitleRejected | src/features/wordlists/schemas/wordlists.ts:4 | an empty title is rejected with its message whatever else is given |
| Schemas.TitleAloneSuffices | src/features/wordlists/schemas/wordlists.ts:4-14 | a title alone parses, with no description and no words |
| Schemas.EmptyWordIsBlank | src/features/wordlists/schemas/wordlists.ts:9-11 | `{}` parses to the blank row |
| Schemas.ParseWordListWord | src/features/wordlists/schemas/wordlists.ts:17-23 | accepted iff english and korean are strings and pronunciation, level and example are strings or null |
| Schemas.ParseTagItems | src/features/wordlists/schemas/wordlists.ts:28 | accepted iff every item is a string, kept in order |
| Schemas.ParseShare | src/features/wordlists/schemas/wordlists.ts:25-29 | accepted iff name is a string, description missing or a string, and tags an array of strings |
| CopyButton.DescriptionLine | src/features/wordlists/components/CopyToWordListButton.tsx:130-135 | none for a null or empty description; unchanged up to 20 characters; otherwise 20 characters and "..."; at most 23 |
| CopyButton.DescriptionLineKeepsPrefix | src/features/wordlists/components/CopyToWordListButton.tsx:132-134 | the line starts with the first min(20, length) characters |
| CopyButton.DescriptionLineUnchangedIff | src/features/wordlists/components/CopyToWordListButton.tsx:132-134 | the line equals the description iff it has at most 20 characters or already is 20 characters and "..." |
| CopyButton.ResultToast | src/features/wordlists/components/CopyToWordListButton.tsx:57-64 | the toast carries the message, and the error title and variant iff `error` |
| CopyButton.CopyButton.constructor | src/features/wordlists/components/CopyToWordListButton.tsx:45 | the picker starts closed |
| CopyButton.CopyButton.Click | src/features/wordlists/components/CopyToWordListButton.tsx:68-99 | with no lists, only the "create a list first" toast; otherwise the picker opens or closes |
| CopyButton.CopyButton.Select | src/features/wordlists/components/CopyToWordListButton.tsx:48-122 | closes the picker, then requests the copy to that list |
| CopyButton.CopyButton.OnResult | src/features/wordlists/components/CopyToWordListButton.tsx:55-64 | every answer adds its toast |
| Navbar.DesktopLinks | src/components/navbar.tsx:49-59 | an item is shown iff it does not require auth or a session exists |
| Navbar.MobileLinks | src/components/navbar.tsx:151-165 | no links while the menu is closed |
| Navbar.MobileMatchesDesktop | src/components/navbar.tsx:50-155 | the open mobile menu shows the desktop links |
| Navbar.SignedInSeesAll | src/components/navbar.tsx:49-59 | signed in, every item is shown in order |
| Navbar.SignedOutSeesPublicItems | src/constants/index.ts:7-12 | signed out, the first three `NAV_ITEMS` are shown (navbar.tsx lines 49-50), never "단어 학습" |
| Navbar.Navbar.constructor | src/components/navbar.tsx:41 | the mobile menu starts closed |
| Navbar.Navbar.ToggleMenu | src/components/navbar.tsx:41 | the menu button flips the menu |
| Navbar.Navbar.ClickMobileLink | src/components/navbar.tsx:160 | a mobile link closes the menu |
| Seqs.Filter | src/features/shared-wordlists/components/SharedWordlistsGrid.tsx:60-62 | `filter` keeps exactly the elements satisfying the predicate |
| Seqs.FilterIsSubsequence | src/app/shared/lists/page.tsx:46-50 | `filter` keeps the order |
| Seqs.FilterIdempotent | src/components/word/CreateWordForm.tsx:46-49 | filtering twice equals filtering once |
| Seqs.Count | src/features/shared-wordlists/components/SharedWordlistsGrid.tsx:63-65 | `filter(...).length`, positive iff some element satisfies the predicate |
| Text.Trim | src/components/word/CreateWordForm.tsx:48 | `trim` over ASCII white space; `TrimEmptyIffAllSpace` is about it |
| Text.Lower | src/features/shared-wordlists/server/db/shared-wordlists.ts:164-166 | lower-cases each character and keeps the length, the case folding behind `mode: "insensitive"` |
| Text.ContainsIgnoringCase | src/features/shared-wordlists/server/db/shared-wordlists.ts:164-166 | `contains` with `mode: "insensitive"`: the lower-cased text contains the lower-cased search; `ContainsIgnoringCaseOfContains` and `ContainsPrefix` are about it |
| Text.Split | src/app/shared/lists/page.tsx:34 | at least one piece, none containing the separator |
| Text.JoinSplit | src/app/shared/lists/page.tsx:34 | joining the pieces gives back the string |
| Text.SplitJoin | src/features/shared-wordlists/components/filters/TagFilter.tsx:39-65 | splitting a join of separator-free pieces gives them back |
| Text.TrimEmptyIffAllSpace | src/components/word/CreateWordForm.tsx:48 | `trim` gives "" iff the string is all white space |
| Text.ContainsIgnoringCaseOfContains | src/features/shared-wordlists/server/db/shared-wordlists.ts:164-166 | a plain match is also a case-insensitive match |
| Text.ContainsPrefix | src/features/shared-wordlists/server/db/shared-wordlists.ts:164-166 | containing a string means containing its prefixes |

## Left out

- Network, authentication and sessions. `auth()`, the redirect to `/signin`, and the account-to-user lookup (`getUserId`) are not modelled. The user is an `Option` parameter, and the session is a boolean.
- Prisma internals. Rows are tables in the `Database` class. Joined relations (`user`, `original`, `likes`, `_count`) are not modelled, except the author name and the comments of the detail read.
- Prisma errors in `src/features/shared-wordlists/server/db/like.ts`. A throwing query there propagates to the caller. Only the profile toggle, `updateComment` and `deleteComment` catch errors, and those are modelled with a `dbError` parameter.
- ProfileLikes.ToggleLike: `dbError` models a failure before any write. A throw after the delete or create, inside the same `try`, would report the error with the like table already changed; the model does not capture that outcome.
- The detail read of a missing id. The read throws (the update finds no record), so nothing is cached. The model returns `None` and stores nothing.
- Cache entries keep the tags they were first stored under. The per-call tags of `unstable_cache` and React's per-request memoisation are not modelled.
- Concurrency and timing. This covers `startTransition`, concurrent requests, the 300 ms debounce of the search bar, and the scroll to the top on a page change.
- Randomness. The `Math.random` shuffle is a parameter: any permutation of the available words.
- Floating point: the progress percentage of the study session.
- Rendering. The model leaves out JSX, styling, icons and router navigation. A pushed URL is modelled as its parameter list, without the `?a=b` serialisation.
- Toast texts. The texts of the study session's toasts interpolate a number and are not modelled. `HandleNextWord` returns the remaining count they report instead.
- Stale calls on the lists page. `src/app/shared/lists/page.tsx:38-44` calls `getSharedWordlistsPages`, which does not exist. It also calls `getSharedWordLists` with four arguments. The page model starts from the lists, bookmarks and parameters it receives.
- ListsPage.CurrentPage: `Number()` is modelled on digit strings and "" only. Signs, decimals, exponents, hex, `Infinity` and surrounding white space all fall back to page 1 in the model.
- Text.Trim and Text.Lower work on ASCII only. Unicode white space and case mapping are not modelled.
- String lengths count characters, not UTF-16 code units. This affects the 500-character comment limit and the 20-character description cut.
- Schemas: zod's own issue messages and codes, unknown-key stripping, and types other than strings, arrays and objects are not modelled. An issue records its path, its kind and the schema's custom message.
- WordForm.WordRows.Remove requires more than one row, because the remove button is rendered only then.
- What the card renders. `SharedWordlistCard` takes only `list` and `userId`, so it ignores the `isBookmarked`, `isLiked` and `likeCount` props the grid passes. It shows the joined `list._count.likes` instead, and joined counts are not modelled.
- The `ViewCounter` effect that calls `incrementSharedListViewCount` is not part of this model.

