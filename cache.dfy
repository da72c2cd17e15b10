/**
 * Tag-based cache invalidation: the tag strings of the three scopes (global,
 * owning user, entity id) plus the profile variant, a read-through cache whose
 * entries are registered under their tags and the catch-all "*", and the
 * invalidation calls the mutations issue.
 */
module Cache {
  import opened Wrappers
  import opened Text

  type Tag = string

  /** The top-level keys of `CACHE_TAGS`. */
  datatype Kind = Wordlists | SharedWordlists | UserWords | Comments | Bookmarks | Likes | Profile

  /** The keys of `CACHE_TAGS.profile`. */
  datatype ProfileKind = ProfileWordlists | ProfileSharedWordlists | ProfileBookmarks | ProfileLikes

  /** The name of each top-level key, as written in the source. */
  function KeyName(k: Kind): string
  {
    match k
    case Wordlists => "wordlists"
    case SharedWordlists => "sharedWordlists"
    case UserWords => "userWords"
    case Comments => "comments"
    case Bookmarks => "bookmarks"
    case Likes => "likes"
    case Profile => "profile"
  }

  /**
   * `CACHE_TAGS[k]` as a template literal renders it. The value under
   * `profile` is a nested object, which renders as "[object Object]".
   */
  function TagValue(k: Kind): string
  {
    match k
    case Wordlists => "wordlists"
    case SharedWordlists => "sharedWordlists"
    case UserWords => "userWords"
    case Comments => "comments"
    case Bookmarks => "bookmarks"
    case Likes => "likes"
    case Profile => "[object Object]"
  }

  /** `CACHE_TAGS.profile[k]`. */
  function ProfileTagValue(k: ProfileKind): string
  {
    match k
    case ProfileWordlists => "wordlists"
    case ProfileSharedWordlists => "sharedWordlists"
    case ProfileBookmarks => "bookmarks"
    case ProfileLikes => "profile:likes"
  }

  /** The top-level key that shares its name with a profile key. */
  function KindOf(k: ProfileKind): Kind
  {
    match k
    case ProfileWordlists => Wordlists
    case ProfileSharedWordlists => SharedWordlists
    case ProfileBookmarks => Bookmarks
    case ProfileLikes => Likes
  }

  function GlobalTag(k: Kind): Tag
  {
    "global:" + TagValue(k)
  }

  function UserTag(userId: string, k: Kind): Tag
  {
    "user:" + userId + "-" + TagValue(k)
  }

  function IdTag(id: string, k: Kind): Tag
  {
    "id:" + id + "-" + TagValue(k)
  }

  function ProfileTag(userId: string, k: ProfileKind): Tag
  {
    "user:" + userId + "-" + ProfileTagValue(k)
  }

  /** The catch-all tag every cached read is registered under. */
  const AllTag: Tag := "*"

  /** Every key but `profile` maps to its own name, so `CACHE_TAGS.x` and "x" give one tag. */
  lemma TagValueIsKeyName(k: Kind)
    ensures k != Profile <==> TagValue(k) == KeyName(k)
    ensures k != Profile ==> GlobalTag(k) == "global:" + KeyName(k)
  {
  }

  /** Distinct kinds give distinct global tags. */
  lemma {:induction false} GlobalTagInjective(k1: Kind, k2: Kind)
    requires GlobalTag(k1) == GlobalTag(k2)
    ensures k1 == k2
  {
    assert TagValue(k1) == GlobalTag(k1)[7..];
    assert TagValue(k2) == GlobalTag(k2)[7..];
  }

  /**
   * The profile tags of wordlists, shared wordlists and bookmarks are the
   * owner-scoped tags of the same kind; that of likes is not.
   */
  lemma ProfileTagMatchesUserTag(userId: string, k: ProfileKind)
    ensures k != ProfileLikes ==> ProfileTag(userId, k) == UserTag(userId, KindOf(k))
    ensures ProfileTag(userId, ProfileLikes) == "user:" + userId + "-profile:likes"
  {
  }

  lemma {:induction false} ProfileLikesTagDiffers(userId: string)
    ensures ProfileTag(userId, ProfileLikes) != UserTag(userId, Likes)
  {
    assert |ProfileTag(userId, ProfileLikes)| == |userId| + 19;
    assert |UserTag(userId, Likes)| == |userId| + 11;
  }

  /** Tags of different scopes never coincide: their first characters differ. */
  lemma {:induction false} ScopesDisjoint(u: string, i: string, k1: Kind, k2: Kind, k3: Kind, pk: ProfileKind)
    ensures GlobalTag(k1) != UserTag(u, k2) && GlobalTag(k1) != IdTag(i, k3) && UserTag(u, k2) != IdTag(i, k3)
    ensures GlobalTag(k1) != ProfileTag(u, pk) && IdTag(i, k3) != ProfileTag(u, pk)
    ensures AllTag != GlobalTag(k1) && AllTag != UserTag(u, k2) && AllTag != IdTag(i, k3) && AllTag != ProfileTag(u, pk)
  {
    assert GlobalTag(k1)[0] == 'g';
    assert UserTag(u, k2)[0] == 'u';
    assert IdTag(i, k3)[0] == 'i';
    assert ProfileTag(u, pk)[0] == 'u';
    assert AllTag[0] == '*';
  }

  /** Within one kind, owner-scoped tags of different users differ. */
  lemma {:induction false} UserTagInjective(u1: string, u2: string, k: Kind)
    requires UserTag(u1, k) == UserTag(u2, k)
    ensures u1 == u2
  {
    var t := UserTag(u1, k);
    assert |u1| == |u2|;
    assert u1 == t[5..5 + |u1|];
    assert u2 == UserTag(u2, k)[5..5 + |u2|];
  }

  /** Within one kind, entity-scoped tags of different ids differ. */
  lemma {:induction false} IdTagInjective(i1: string, i2: string, k: Kind)
    requires IdTag(i1, k) == IdTag(i2, k)
    ensures i1 == i2
  {
    var t := IdTag(i1, k);
    assert |i1| == |i2|;
    assert i1 == t[3..3 + |i1|];
    assert i2 == IdTag(i2, k)[3..3 + |i2|];
  }

  /**
   * The tags `revalidateDbCache` invalidates, in the order it calls
   * `revalidateTag`: the global tag always, the owner tag when `userId` is
   * truthy, the id tag when `id` is truthy.
   */
  function RevalidatedTags(k: Kind, userId: Option<string>, id: Option<string>): (r: seq<Tag>)
    ensures 1 <= |r| <= 3 && r[0] == GlobalTag(k)
  {
    [GlobalTag(k)]
    + (if Truthy(userId) then [UserTag(userId.value, k)] else [])
    + (if Truthy(id) then [IdTag(id.value, k)] else [])
  }

  /** `revalidateDbCache` names the global tag, the owner tag iff given, the id tag iff given, and nothing else. */
  lemma {:induction false} RevalidatedTagsExactly(k: Kind, userId: Option<string>, id: Option<string>, t: Tag)
    ensures t in RevalidatedTags(k, userId, id) <==>
      t == GlobalTag(k)
      || (Truthy(userId) && t == UserTag(userId.value, k))
      || (Truthy(id) && t == IdTag(id.value, k))
    ensures Truthy(userId) <==> exists u :: UserTag(u, k) in RevalidatedTags(k, userId, id)
    ensures Truthy(id) <==> exists i :: IdTag(i, k) in RevalidatedTags(k, userId, id)
    ensures AllTag !in RevalidatedTags(k, userId, id)
  {
    var r := RevalidatedTags(k, userId, id);
    forall u | UserTag(u, k) in r ensures Truthy(userId) {
      ScopesDisjoint(u, "", k, k, k, ProfileLikes);
      if Truthy(id) { ScopesDisjoint(u, id.value, k, k, k, ProfileLikes); }
    }
    forall i | IdTag(i, k) in r ensures Truthy(id) {
      ScopesDisjoint("", i, k, k, k, ProfileLikes);
      if Truthy(userId) { ScopesDisjoint(userId.value, i, k, k, k, ProfileLikes); }
    }
    if Truthy(userId) { assert UserTag(userId.value, k) in r; }
    if Truthy(id) { assert IdTag(id.value, k) in r; }
    ScopesDisjoint(if Truthy(userId) then userId.value else "", if Truthy(id) then id.value else "", k, k, k, ProfileLikes);
  }

  /** A cached value with the tags it was registered under. */
  datatype Entry<V> = Entry(value: V, tags: set<Tag>)

  /** The tags a read declared, plus "*": what `dbCache` registers. */
  function Registered(tags: seq<Tag>): (r: set<Tag>)
    ensures AllTag in r
    ensures forall t :: t in tags ==> t in r
  {
    (set t | t in tags) + {AllTag}
  }

  /** What is left of the cache once every entry carrying one of `dropped` is invalidated. */
  function Evict<K(==,!new), V>(entries: map<K, Entry<V>>, dropped: set<Tag>): (r: map<K, Entry<V>>)
    ensures forall key :: key in r <==> key in entries && entries[key].tags !! dropped
    ensures forall key :: key in r ==> r[key] == entries[key]
  {
    map key | key in entries && entries[key].tags !! dropped :: entries[key]
  }

  /** Invalidating one set of tags after another is invalidating both at once. */
  lemma EvictTwice<K(!new), V>(entries: map<K, Entry<V>>, a: set<Tag>, b: set<Tag>)
    ensures Evict(Evict(entries, a), b) == Evict(entries, a + b)
  {
    assert Evict(Evict(entries, a), b).Keys == Evict(entries, a + b).Keys;
  }

  /** A read registered under `tags` survives an invalidation unless one of the invalidated tags is in `tags` or is "*". */
  lemma ReadSurvives<K(!new), V>(entries: map<K, Entry<V>>, key: K, v: V, tags: seq<Tag>, dropped: set<Tag>)
    ensures var e := entries[key := Entry(v, Registered(tags))];
      key in Evict(e, dropped) <==> (forall t :: t in dropped ==> t !in tags && t != AllTag)
  {
    var e := entries[key := Entry(v, Registered(tags))];
    if forall t :: t in dropped ==> t !in tags && t != AllTag {
      assert e[key].tags !! dropped;
    }
  }

  /** The tags of a sequence of invalidation calls, as a set. */
  function TagSet(tags: seq<Tag>): set<Tag>
  {
    set t | t in tags
  }

  /**
   * A process-wide read-through cache from keys to tagged values.
   * `log` records every `revalidateTag` call, in order.
   */
  class TaggedCache<K(==,!new), V> {
    var entries: map<K, Entry<V>>
    ghost var log: seq<Tag>

    /** Every entry was registered through `dbCache`, so it carries "*". */
    ghost predicate Valid()
      reads this
    {
      forall key :: key in entries ==> AllTag in entries[key].tags
    }

    constructor ()
      ensures Valid() && entries == map[] && log == []
    {
      entries := map[];
      log := [];
    }

    /** The cached value for `key`, if a live entry exists. */
    method Lookup(key: K) returns (hit: Option<V>)
      ensures hit.Some? <==> key in entries
      ensures hit.Some? ==> hit.value == entries[key].value
    {
      if key in entries {
        hit := Some(entries[key].value);
      } else {
        hit := None;
      }
    }

    /** Stores a freshly fetched value under the read's tags plus "*". */
    method Store(key: K, tags: seq<Tag>, v: V)
      requires Valid()
      modifies this
      ensures Valid()
      ensures entries == old(entries)[key := Entry(v, Registered(tags))]
      ensures log == old(log)
    {
      entries := entries[key := Entry(v, Registered(tags))];
    }

    /** `revalidateTag`: drops every entry registered under `tag`. */
    method RevalidateTag(tag: Tag)
      requires Valid()
      modifies this
      ensures Valid()
      ensures entries == Evict(old(entries), {tag})
      ensures log == old(log) + [tag]
    {
      entries := Evict(entries, {tag});
      log := log + [tag];
    }

    /** `revalidateDbCache`: the global tag, then the owner tag and the id tag when given. */
    method RevalidateDbCache(k: Kind, userId: Option<string>, id: Option<string>)
      requires Valid()
      modifies this
      ensures Valid()
      ensures entries == Evict(old(entries), TagSet(RevalidatedTags(k, userId, id)))
      ensures log == old(log) + RevalidatedTags(k, userId, id)
    {
      ghost var before := entries;
      RevalidateTag(GlobalTag(k));
      ghost var dropped: set<Tag> := {GlobalTag(k)};
      if Truthy(userId) {
        RevalidateTag(UserTag(userId.value, k));
        EvictTwice(before, dropped, {UserTag(userId.value, k)});
        dropped := dropped + {UserTag(userId.value, k)};
      }
      if Truthy(id) {
        RevalidateTag(IdTag(id.value, k));
        EvictTwice(before, dropped, {IdTag(id.value, k)});
        dropped := dropped + {IdTag(id.value, k)};
      }
      assert dropped == TagSet(RevalidatedTags(k, userId, id));
    }

    /** `clearFullCache`: invalidating "*" empties the cache. */
    method ClearFullCache()
      requires Valid()
      modifies this
      ensures Valid()
      ensures entries == map[]
      ensures log == old(log) + [AllTag]
    {
      RevalidateTag(AllTag);
    }
  }
}
