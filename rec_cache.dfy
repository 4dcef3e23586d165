/** The shared key-value cache as the recommender uses it: typed keys in
    place of the formatted strings, entries with an expiry time, and the
    per-user eviction of `_invalidate_user_recs_cache`. */
module RecCache {
  import opened Common

  /** `DEFAULT_REC_SIZES`: the only list size whose user entry is evicted. */
  const DEFAULT_REC_SIZES: seq<int> := [5]
  /** Timeouts, in seconds, of the three kinds of entries. */
  const ANON_TTL: int := 300
  const USER_TTL: int := 600
  const SECTIONS_TTL: int := 120

  /** `recs:u:{uid}:{n}`, `recs:anon:{n}` and `home:sections:{owner}:{ids}`. */
  datatype CacheKey =
    | UserRecs(userId: int, size: int)
    | AnonRecs(size: int)
    | HomeSections(owner: Option<int>, recIds: seq<int>)

  /** One home page section as stored in the cache. */
  datatype SectionPayload = SectionPayload(
    title: string, categoryId: nat, seedProductId: int, subtitle: Option<string>, productIds: seq<int>)

  /** A cached value: a list of product ids, a list of sections, or anything
      else another writer may have put under the key. */
  datatype CacheValue = IdList(ids: seq<int>) | SectionList(sections: seq<SectionPayload>) | OtherValue

  datatype Entry = Entry(value: CacheValue, expiresAt: int)

  /** The keys `_invalidate_user_recs_cache(uid, sizes)` deletes. */
  function UserKeys(uid: int, sizes: seq<int>): set<CacheKey> {
    set s | s in sizes :: UserRecs(uid, s)
  }

  /** The cache after a user's recommendation entries are evicted. */
  function Evict(entries: map<CacheKey, Entry>, uid: int): map<CacheKey, Entry> {
    entries - UserKeys(uid, DEFAULT_REC_SIZES)
  }

  /** Eviction removes exactly the user's size-5 entry: every other entry,
      other users', anonymous ones and other sizes, stays as it was. */
  lemma EvictOnlySizeFive(entries: map<CacheKey, Entry>, uid: int, k: CacheKey)
    ensures k in Evict(entries, uid) <==> k in entries && k != UserRecs(uid, 5)
    ensures k in Evict(entries, uid) ==> Evict(entries, uid)[k] == entries[k]
  {
  }

  /** What a read of `key` at time `now` returns from the table `entries`. */
  function Lookup(entries: map<CacheKey, Entry>, key: CacheKey, now: int): Option<CacheValue> {
    if key in entries && now < entries[key].expiresAt then Some(entries[key].value) else None
  }

  class Cache {
    var entries: map<CacheKey, Entry>

    constructor ()
      ensures entries == map[]
    {
      entries := map[];
    }

    /** `cache.get(key)` at time `now`: an entry is served only before its
        expiry time. */
    function Get(key: CacheKey, now: int): (r: Option<CacheValue>)
      reads this
      ensures r.Some? <==> key in entries && now < entries[key].expiresAt
      ensures r.Some? ==> r.value == entries[key].value
    {
      Lookup(entries, key, now)
    }

    /** `cache.set(key, value, timeout)` at time `now`. */
    method Set(key: CacheKey, value: CacheValue, timeout: int, now: int)
      modifies this
      ensures entries == old(entries)[key := Entry(value, now + timeout)]
      ensures Get(key, now) == if timeout > 0 then Some(value) else None
      ensures Get(key, now + timeout) == None
    {
      entries := entries[key := Entry(value, now + timeout)];
    }

    /** `cache.delete(key)`. */
    method Delete(key: CacheKey)
      modifies this
      ensures entries == old(entries) - {key}
    {
      entries := entries - {key};
    }
  }

  /** `_invalidate_user_recs_cache(user_id, sizes)`: delete each
      `recs:u:{user_id}:{size}` key. */
  method InvalidateUserRecsCache(cache: Cache, uid: int, sizes: seq<int>)
    modifies cache
    ensures cache.entries == old(cache.entries) - UserKeys(uid, sizes)
  {
    var i := 0;
    while i < |sizes|
      invariant 0 <= i <= |sizes|
      invariant cache.entries == old(cache.entries) - UserKeys(uid, sizes[..i])
    {
      cache.Delete(UserRecs(uid, sizes[i]));
      assert UserKeys(uid, sizes[..i + 1]) == UserKeys(uid, sizes[..i]) + {UserRecs(uid, sizes[i])};
      i := i + 1;
    }
    assert sizes[..i] == sizes;
  }
}
