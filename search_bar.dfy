/** The search box of the shared-lists page, kept in the `q` URL parameter. */
module SearchBar {
  import opened Wrappers
  import opened QueryParams

  const SearchParam: string := "q"

  /** The parameters `handleSearch` pushes: `q` set to a non-empty term, deleted for "". */
  function SearchUrl(params: seq<Param>, term: string): seq<Param>
  {
    if term != "" then Set(params, SearchParam, term) else Delete(params, SearchParam)
  }

  /** `handleSearch` once the debounce fires: copy the parameters and set or delete `q`. */
  method HandleSearch(params: seq<Param>, term: string) returns (pushed: seq<Param>)
    ensures pushed == SearchUrl(params, term)
  {
    var copy := new SearchParams(params);
    if term != "" {
      copy.SetParam(SearchParam, term);
    } else {
      copy.DeleteParam(SearchParam);
    }
    pushed := copy.entries;
  }

  /** `defaultValue={searchParams.get("q")}`: the box opens with the current term. */
  function InitialValue(params: seq<Param>): Option<string>
  {
    Get(params, SearchParam)
  }

  /** After a search the box would open with that term (or empty for ""), and other parameters are kept. */
  lemma SearchRoundTrip(params: seq<Param>, term: string, other: string)
    requires other != SearchParam
    ensures InitialValue(SearchUrl(params, term)) == if term != "" then Some(term) else None
    ensures Get(SearchUrl(params, term), other) == Get(params, other)
    ensures Delete(SearchUrl(params, term), SearchParam) == Delete(params, SearchParam)
  {
    if term != "" {
      GetAfterSet(params, SearchParam, term);
      SetKeepsOthers(params, SearchParam, term);
    } else {
      GetAfterDelete(params, SearchParam);
      DeleteTwice(params, SearchParam);
    }
    OtherNamesUnaffected(params, SearchParam, term, other);
  }
}
