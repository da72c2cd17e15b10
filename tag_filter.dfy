/** The tag filter of the shared-lists page: the selection, the `tags` URL parameter, and the sync between them. */
module TagFilter {
  import opened Wrappers
  import opened Seqs
  import opened Text
  import opened QueryParams

  /** The ids of `TAGS`, in display order. */
  const Tags: seq<string> := ["TOEIC", "TOEFL", "비즈니스", "여행", "일상", "학술", "초급", "중급", "고급"]

  const TagsParam: string := "tags"

  /** A tag id can travel in the comma-separated parameter. */
  predicate Transportable(t: string)
  {
    t != "" && ',' !in t
  }

  /** Every tag id is non-empty and free of commas. */
  lemma TagIdsTransportable()
    ensures |Tags| == 9
    ensures forall i :: 0 <= i < |Tags| ==> Transportable(Tags[i])
  {
  }

  function Other(x: string): string -> bool
  {
    (t: string) => t != x
  }

  /** `s.filter((t) => t !== x)`: every occurrence of `x` goes, the other tags stay in order. */
  function Remove(s: seq<string>, x: string): (r: seq<string>)
    ensures forall y :: y in r <==> y in s && y != x
    ensures |r| <= |s|
    ensures IsSubsequence(r, s)
  {
    FilterIsSubsequence(s, Other(x));
    Filter(s, Other(x))
  }

  /** The new selection of `handleTagSelect`: a selected tag is dropped everywhere, another is appended. */
  function ToggleTag(selected: seq<string>, tag: string): (r: seq<string>)
    ensures tag in r <==> tag !in selected
    ensures forall t :: t != tag ==> (t in r <==> t in selected)
  {
    if tag in selected then Remove(selected, tag) else selected + [tag]
  }

  lemma {:induction false} RemoveAbsent(s: seq<string>, x: string)
    requires x !in s
    ensures Remove(s, x) == s
  {
    if s != [] {
      RemoveAbsent(s[1..], x);
      assert [s[0]] + s[1..] == s;
    }
  }

  lemma {:induction false} RemoveAppended(s: seq<string>, x: string)
    requires x !in s
    ensures Remove(s + [x], x) == s
  {
    if s == [] {
      assert Remove([x], x) == Remove([], x);
    } else {
      assert (s + [x])[1..] == s[1..] + [x];
      RemoveAppended(s[1..], x);
      assert [s[0]] + s[1..] == s;
    }
  }

  /** Toggling an unselected tag twice gives back the selection. */
  lemma ToggleTwice(selected: seq<string>, tag: string)
    requires tag !in selected
    ensures ToggleTag(ToggleTag(selected, tag), tag) == selected
  {
    RemoveAppended(selected, tag);
  }

  lemma {:induction false} RemoveKeepsNoDuplicates(s: seq<string>, x: string)
    requires NoDuplicates(s)
    ensures NoDuplicates(Remove(s, x))
  {
    if s != [] {
      assert NoDuplicates(s[1..]);
      RemoveKeepsNoDuplicates(s[1..], x);
      assert s[0] !in s[1..];
    }
  }

  /** A selection without repeats stays without repeats. */
  lemma ToggleKeepsNoDuplicates(selected: seq<string>, tag: string)
    requires NoDuplicates(selected)
    ensures NoDuplicates(ToggleTag(selected, tag))
  {
    if tag in selected {
      RemoveKeepsNoDuplicates(selected, tag);
    }
  }

  /** The parameters `updateUrlParams` pushes: `tags` set to the comma-join, or deleted for no tags. */
  function TagsUrl(params: seq<Param>, newTags: seq<string>): seq<Param>
  {
    if |newTags| > 0 then Set(params, TagsParam, Join(newTags, ',')) else Delete(params, TagsParam)
  }

  /** The `tags` parameter carries the join of a non-empty selection and is gone for an empty one; other parameters are kept. */
  lemma TagsUrlEffect(params: seq<Param>, newTags: seq<string>, other: string)
    requires other != TagsParam
    ensures Get(TagsUrl(params, newTags), TagsParam) == if |newTags| > 0 then Some(Join(newTags, ',')) else None
    ensures Get(TagsUrl(params, newTags), other) == Get(params, other)
    ensures Delete(TagsUrl(params, newTags), TagsParam) == Delete(params, TagsParam)
  {
    if |newTags| > 0 {
      GetAfterSet(params, TagsParam, Join(newTags, ','));
      SetKeepsOthers(params, TagsParam, Join(newTags, ','));
    } else {
      DeleteTwice(params, TagsParam);
    }
    OtherNamesUnaffected(params, TagsParam, Join(newTags, ','), other);
  }

  /** `tagsParam.split(",").filter(Boolean)`. */
  function ParseTags(tagsParam: string): (r: seq<string>)
    ensures forall t :: t in r ==> Transportable(t)
  {
    Filter(Split(tagsParam, ','), (p: string) => p != "")
  }

  /** Parsing the join of transportable tags gives them back. */
  lemma ParseJoin(tags: seq<string>)
    requires |tags| >= 1
    requires forall i :: 0 <= i < |tags| ==> Transportable(tags[i])
    ensures ParseTags(Join(tags, ',')) == tags
  {
    SplitJoin(tags, ',');
    FilterAll(tags, (p: string) => p != "");
  }

  class TagFilter {
    var selectedTags: seq<string>
    /** The page's current search parameters. */
    var url: seq<Param>

    constructor (url: seq<Param>)
      ensures selectedTags == [] && this.url == url
    {
      selectedTags := [];
      this.url := url;
    }

    /** `updateUrlParams`: copy the parameters, set or delete `tags`, and navigate. */
    method UpdateUrlParams(newTags: seq<string>)
      modifies this`url
      ensures url == TagsUrl(old(url), newTags)
    {
      var params := new SearchParams(url);
      if |newTags| > 0 {
        params.SetParam(TagsParam, Join(newTags, ','));
      } else {
        params.DeleteParam(TagsParam);
      }
      url := params.entries;
    }

    /** `handleTagSelect`. */
    method HandleTagSelect(tagId: string)
      modifies this
      ensures selectedTags == ToggleTag(old(selectedTags), tagId)
      ensures url == TagsUrl(old(url), selectedTags)
    {
      var newTags := if tagId in selectedTags then Remove(selectedTags, tagId) else selectedTags + [tagId];
      selectedTags := newTags;
      UpdateUrlParams(newTags);
    }

    /** `clearAllTags`. */
    method ClearAllTags()
      modifies this
      ensures selectedTags == [] && url == Delete(old(url), TagsParam)
    {
      selectedTags := [];
      UpdateUrlParams([]);
    }

    /** The effect on `searchParams`: a truthy `tags` parameter replaces the selection; otherwise it stays. */
    method SyncFromUrl()
      modifies this`selectedTags
      ensures Truthy(Get(url, TagsParam)) ==> selectedTags == ParseTags(Get(url, TagsParam).value)
      ensures !Truthy(Get(url, TagsParam)) ==> selectedTags == old(selectedTags)
    {
      var tagsParam := Get(url, TagsParam);
      if tagsParam.Some? && tagsParam.value != "" {
        selectedTags := ParseTags(tagsParam.value);
      }
    }
  }

  /**
   * Selecting known tags and letting the URL effect run agrees with the
   * selection: the parameter parses back to exactly the toggled tags.
   */
  lemma SelectionSurvivesUrl(params: seq<Param>, selected: seq<string>, tag: string)
    requires forall t :: t in selected ==> t in Tags
    requires tag in Tags
    requires ToggleTag(selected, tag) != []
    ensures var pushed := TagsUrl(params, ToggleTag(selected, tag));
      Truthy(Get(pushed, TagsParam)) && ParseTags(Get(pushed, TagsParam).value) == ToggleTag(selected, tag)
  {
    var r := ToggleTag(selected, tag);
    TagIdsTransportable();
    GetAfterSet(params, TagsParam, Join(r, ','));
    forall i | 0 <= i < |r| ensures Transportable(r[i]) {
      assert r[i] in Tags;
    }
    ParseJoin(r);
    JoinNonEmpty(r);
  }

  lemma JoinNonEmpty(tags: seq<string>)
    requires |tags| >= 1 && tags[0] != ""
    ensures Join(tags, ',') != ""
  {
  }
}
