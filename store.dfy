/**
 * The database tables the mutations touch, and the application's one cache
 * instance: the keys of its cached reads and the values they hold.
 */
module Store {
  import opened Wrappers
  import opened Cache

  /** A like or a bookmark row; the table is unique on (userId, listId). */
  datatype Pair = Pair(userId: string, listId: string)

  datatype Comment = Comment(id: string, content: string, userId: string, listId: string, createdAt: int)

  datatype SharedList = SharedList(
    id: string,
    name: string,
    description: Option<string>,
    tags: seq<string>,
    createdAt: int,
    viewCount: nat,
    isActive: bool,
    authorName: Option<string>)

  /** The detail read: one shared list and its comments, newest first. */
  datatype Detail = Detail(list: SharedList, comments: seq<Comment>)

  /** A cached read: the fetch function and its arguments. */
  datatype ReadKey =
    | LikesKey
    | ListsKey(search: Option<string>, selectedTags: Option<seq<string>>)
    | ListKey(id: string)
    | CommentsKey(listId: string)

  /** The value a cached read returns. */
  datatype Snapshot =
    | LikeRows(likes: set<Pair>)
    | ListRows(lists: seq<SharedList>)
    | ListDetail(detail: Detail)
    | CommentRows(comments: seq<Comment>)

  /** Each read's key holds the value shape that read produces. */
  predicate Fits(key: ReadKey, s: Snapshot)
  {
    match key
    case LikesKey => s.LikeRows?
    case ListsKey(_, _) => s.ListRows?
    case ListKey(_) => s.ListDetail?
    case CommentsKey(_) => s.CommentRows?
  }

  type AppCache = TaggedCache<ReadKey, Snapshot>

  ghost predicate Consistent(c: AppCache)
    reads c
  {
    forall key :: key in c.entries ==> Fits(key, c.entries[key].value)
  }

  predicate UniqueCommentIds(rows: seq<Comment>)
  {
    forall i, j :: 0 <= i < j < |rows| ==> rows[i].id != rows[j].id
  }

  predicate UniqueListIds(rows: seq<SharedList>)
  {
    forall i, j :: 0 <= i < j < |rows| ==> rows[i].id != rows[j].id
  }

  function CommentId(c: Comment): string
  {
    c.id
  }

  function SharedListId(l: SharedList): string
  {
    l.id
  }

  /** A lookup by primary key (`where: { id }`): the position of the row whose key is `id`, if there is one. */
  function IndexOf<T>(rows: seq<T>, key: T -> string, id: string): (r: Option<nat>)
    ensures r.Some? ==> r.value < |rows| && key(rows[r.value]) == id
    ensures r.None? ==> forall i :: 0 <= i < |rows| ==> key(rows[i]) != id
  {
    if rows == [] then None
    else if key(rows[0]) == id then Some(0)
    else match IndexOf(rows[1..], key, id)
      case Some(i) => Some(i + 1)
      case None => None
  }

  /** What a server action reports back: `{ error, message }`. */
  datatype Response = Response(error: bool, message: string)

  /** Membership of `p` flipped, every other pair left as it was. */
  function Flip(s: set<Pair>, p: Pair): (r: set<Pair>)
    ensures p in r <==> p !in s
    ensures forall q :: q != p ==> (q in r <==> q in s)
  {
    if p in s then s - {p} else s + {p}
  }

  /** Flipping the same pair twice restores the table. */
  lemma FlipTwice(s: set<Pair>, p: Pair)
    ensures Flip(Flip(s, p), p) == s
  {
  }

  class Database {
    var likes: set<Pair>
    var bookmarks: set<Pair>
    /** Comment rows, in insertion order. */
    var comments: seq<Comment>
    /** Shared word lists, in insertion order; `viewCount` is a column. */
    var sharedLists: seq<SharedList>
    /** `SharedWordListStats.viewCount`, by list id. */
    var stats: map<string, nat>

    /** Primary keys are unique. */
    ghost predicate Valid()
      reads this
    {
      UniqueCommentIds(comments) && UniqueListIds(sharedLists)
    }

    constructor ()
      ensures Valid()
      ensures likes == {} && bookmarks == {} && comments == [] && sharedLists == [] && stats == map[]
    {
      likes, bookmarks, comments, sharedLists, stats := {}, {}, [], [], map[];
    }
  }
}
