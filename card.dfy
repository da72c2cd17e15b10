/** A shared-list card: the description line, the tag preview and the author line. */
module Card {
  import opened Wrappers

  /** `list.description && …`: the line is shown for a non-empty description. */
  predicate ShowsDescription(description: Option<string>)
  {
    description.Some? && description.value != ""
  }

  /** `list.tags && list.tags.length > 0`: the tag block is shown for at least one tag. */
  predicate ShowsTags(tags: seq<string>)
  {
    |tags| > 0
  }

  const PreviewSize: nat := 3

  /** `list.tags.slice(0, 3)`. */
  function TagPreview(tags: seq<string>): (r: seq<string>)
    ensures |r| <= PreviewSize && r <= tags
    ensures |tags| <= PreviewSize ==> r == tags
  {
    if |tags| <= PreviewSize then tags else tags[..PreviewSize]
  }

  /** The N of "+N more", shown when there are more than 3 tags. */
  function MoreCount(tags: seq<string>): Option<nat>
  {
    if |tags| > PreviewSize then Some(|tags| - PreviewSize) else None
  }

  /** The preview and the "+N more" badge account for every tag, and the badge appears iff some tag is hidden. */
  lemma PreviewAccountsForAllTags(tags: seq<string>)
    ensures MoreCount(tags).Some? <==> TagPreview(tags) != tags
    ensures |TagPreview(tags)| + MoreCount(tags).GetOr(0) == |tags|
    ensures MoreCount(tags).Some? ==> MoreCount(tags).value >= 1
  {
  }

  const Anonymous: string := "Anonymous"

  /** `list.user.name || "Anonymous"`. */
  function AuthorName(name: Option<string>): (r: string)
    ensures r != ""
    ensures name.Some? && name.value != "" ==> r == name.value
  {
    if name.Some? && name.value != "" then name.value else Anonymous
  }
}
