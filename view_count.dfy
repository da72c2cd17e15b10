/** The share-page view counter kept in `SharedWordListStats`. */
module ViewCount {
  import opened Wrappers
  import opened Cache
  import opened Store

  /** The stats row of `id` after the upsert: created at 1, or incremented by 1. */
  function Bumped(stats: map<string, nat>, id: string): (r: map<string, nat>)
    ensures id in r && r[id] >= 1
    ensures id !in stats ==> r[id] == 1
    ensures id in stats ==> r[id] == stats[id] + 1
    ensures forall other :: other != id ==> (other in r <==> other in stats)
    ensures forall other :: other != id && other in stats ==> r[other] == stats[other]
  {
    stats[id := if id in stats then stats[id] + 1 else 1]
  }

  /** Every upsert adds exactly one view: `n` upserts from no row leave `n` views. */
  lemma {:induction false} BumpedCounts(stats: map<string, nat>, id: string, n: nat)
    requires id !in stats
    ensures n > 0 ==> BumpN(stats, id, n)[id] == n
  {
    if n > 1 {
      BumpedCounts(stats, id, n - 1);
    }
  }

  /** `n` upserts of the same row in a row. */
  function BumpN(stats: map<string, nat>, id: string, n: nat): (r: map<string, nat>)
    ensures n > 0 ==> id in r
  {
    if n == 0 then stats else Bumped(BumpN(stats, id, n - 1), id)
  }

  /**
   * `incrementSharedListViewCount`: upserts the stats row, invalidates the
   * global and per-list sharedWordlists tags, and returns the new count.
   */
  method IncrementSharedListViewCount(db: Database, cache: AppCache, id: string) returns (count: nat)
    requires cache.Valid() && Consistent(cache)
    modifies db`stats, cache
    ensures cache.Valid() && Consistent(cache)
    ensures db.stats == Bumped(old(db.stats), id) && count == db.stats[id]
    ensures cache.log == old(cache.log) + RevalidatedTags(SharedWordlists, None, Some(id))
    ensures cache.entries == Evict(old(cache.entries), TagSet(RevalidatedTags(SharedWordlists, None, Some(id))))
  {
    db.stats := Bumped(db.stats, id);
    cache.RevalidateDbCache(SharedWordlists, None, Some(id));
    count := db.stats[id];
  }
}
