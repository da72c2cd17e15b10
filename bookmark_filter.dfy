/** The bookmarks-only switch of the shared-lists page, kept in the `bookmarksOnly` URL parameter. */
module BookmarkFilter {
  import opened Wrappers
  import opened QueryParams

  const BookmarksOnlyParam: string := "bookmarksOnly"

  /** `searchParams.get("bookmarksOnly") === "true"`. */
  predicate BookmarksOnly(params: seq<Param>)
  {
    Get(params, BookmarksOnlyParam) == Some("true")
  }

  /** The parameters `toggleFavorites` pushes. */
  function ToggledFavorites(params: seq<Param>): seq<Param>
  {
    if BookmarksOnly(params) then Delete(params, BookmarksOnlyParam) else Set(params, BookmarksOnlyParam, "true")
  }

  /** `toggleFavorites`: copy the parameters, delete the switch when on, set it to "true" when off. */
  method ToggleFavorites(params: seq<Param>) returns (pushed: seq<Param>)
    ensures pushed == ToggledFavorites(params)
  {
    var copy := new SearchParams(params);
    var bookmarksOnly := copy.GetParam(BookmarksOnlyParam) == Some("true");
    if bookmarksOnly {
      copy.DeleteParam(BookmarksOnlyParam);
    } else {
      copy.SetParam(BookmarksOnlyParam, "true");
    }
    pushed := copy.entries;
  }

  /** The toggle flips the derived flag and keeps every other parameter. */
  lemma ToggleNegates(params: seq<Param>, other: string)
    requires other != BookmarksOnlyParam
    ensures BookmarksOnly(ToggledFavorites(params)) <==> !BookmarksOnly(params)
    ensures Get(ToggledFavorites(params), other) == Get(params, other)
    ensures Delete(ToggledFavorites(params), BookmarksOnlyParam) == Delete(params, BookmarksOnlyParam)
  {
    if BookmarksOnly(params) {
      GetAfterDelete(params, BookmarksOnlyParam);
      DeleteTwice(params, BookmarksOnlyParam);
    } else {
      GetAfterSet(params, BookmarksOnlyParam, "true");
      SetKeepsOthers(params, BookmarksOnlyParam, "true");
    }
    OtherNamesUnaffected(params, BookmarksOnlyParam, "true", other);
  }

  /** From no parameter at all, two toggles give back the original parameters. */
  lemma ToggleTwiceFromAbsent(params: seq<Param>)
    requires Get(params, BookmarksOnlyParam).None?
    ensures ToggledFavorites(ToggledFavorites(params)) == params
  {
    SetAbsent(params, BookmarksOnlyParam, "true");
    GetAfterSet(params, BookmarksOnlyParam, "true");
    DeleteAbsent(params, BookmarksOnlyParam);
    DeleteAppended(params, BookmarksOnlyParam, "true");
  }

  lemma {:induction false} DeleteAppended(ps: seq<Param>, name: string, value: string)
    ensures Delete(ps + [Param(name, value)], name) == Delete(ps, name)
  {
    if ps == [] {
      assert Delete([Param(name, value)], name) == Delete([], name);
    } else {
      assert (ps + [Param(name, value)])[1..] == ps[1..] + [Param(name, value)];
      DeleteAppended(ps[1..], name, value);
    }
  }
}
