/** `get_recommended_products(user, n)`: the cache lookup, the anonymous
    path (interleaved fallback, then diversity), and the signed-in path
    (seeds, co-purchase and same-category pools, fallback top-up, diversity,
    final backfill). The database queries are inputs: the catalog, and the
    rankings each query would return. */
module Recommendations {
  import opened Common
  import opened Catalog
  import opened RecCache
  import opened Diversity
  import opened Fallback
  import opened Seeds
  import opened SeedSort

  /** What the queries of one call return apart from the user's signals:
      the catalog; all products by units sold then recency (`topSelling`),
      by creation date (`recent`) and by last update (`byUpdated`); and the
      products bought by the users who share the seeds, most bought first
      (`coPurchase`). */
  datatype World = World(catalog: map<int, Product>, topSelling: seq<int>, recent: seq<int>,
                         byUpdated: seq<int>, coPurchase: seq<int>)

  const POOL_FACTOR: nat := 5
  const ANON_FACTOR: nat := 3
  const BACKFILL_FACTOR: nat := 5

  /** `_ordered_qs(ids)`: the in-stock products among `ids`, each once, in
      the order of its first position in `ids`. */
  function OrderedQs(catalog: map<int, Product>, ids: seq<int>): seq<int> {
    Dedup(InStockOnly(catalog, ids))
  }

  /** A list without repeats of in-stock products comes back unchanged. */
  lemma OrderedQsIdentity(catalog: map<int, Product>, ids: seq<int>)
    requires NoDup(ids)
    requires forall p :: p in ids ==> InStock(catalog, p)
    ensures OrderedQs(catalog, ids) == ids
  {
    InStockOnlyFacts(catalog, ids);
    DedupOfDistinct(ids);
  }

  lemma {:induction false} DedupOfDistinct(xs: seq<int>)
    requires NoDup(xs)
    ensures Dedup(xs) == xs
    decreases |xs|
  {
    if xs != [] {
      var pre := xs[..|xs| - 1];
      var x := xs[|xs| - 1];
      assert xs == pre + [x];
      NoDupSnoc(pre, x);
      DedupOfDistinct(pre);
    }
  }

  /** The products served, whatever the cached list holds: in stock, each
      once, all from the list. */
  lemma OrderedQsFacts(catalog: map<int, Product>, ids: seq<int>)
    ensures NoDup(OrderedQs(catalog, ids))
    ensures forall p :: p in OrderedQs(catalog, ids) <==> p in ids && InStock(catalog, p)
    ensures |OrderedQs(catalog, ids)| <= |ids|
  {
    InStockOnlyFacts(catalog, ids);
    DedupFacts(InStockOnly(catalog, ids));
    assert forall p :: p in OrderedQs(catalog, ids) <==> p in Elems(InStockOnly(catalog, ids));
  }

  /** The anonymous result: the fallback for `3 * n`, then diversity. */
  function AnonIds(w: World, n: int): seq<int>
    requires n > 0
  {
    Diverse(w.catalog, FallbackIds(w.catalog, w.topSelling, w.recent, n * ANON_FACTOR, {}), n)
  }

  /** The categories of the seed products (uncategorised seeds add none). */
  function SeedCategories(catalog: map<int, Product>, seeds: seq<int>): set<nat> {
    set p | p in seeds && p in catalog && catalog[p].category.Some? :: catalog[p].category.value
  }

  /** `Product.objects.filter(category_id__in=cats, quantity__gt=0)
      .exclude(id__in=excl)` over the products by last update. */
  function InCategories(catalog: map<int, Product>, ranked: seq<int>, cats: set<nat>, excl: set<int>): seq<int>
    decreases |ranked|
  {
    if ranked == [] then []
    else
      var r0 := InCategories(catalog, ranked[..|ranked| - 1], cats, excl);
      var p := ranked[|ranked| - 1];
      if p in catalog && catalog[p].category.Some? && catalog[p].category.value in cats
         && InStock(catalog, p) && p !in excl
      then r0 + [p] else r0
  }

  lemma {:induction false} InCategoriesFacts(catalog: map<int, Product>, ranked: seq<int>, cats: set<nat>, excl: set<int>)
    ensures forall p :: p in InCategories(catalog, ranked, cats, excl) ==>
              InStock(catalog, p) && p !in excl && catalog[p].category.Some? && catalog[p].category.value in cats
    decreases |ranked|
  {
    if ranked != [] {
      InCategoriesFacts(catalog, ranked[..|ranked| - 1], cats, excl);
    }
  }

  /** The seed products and the cancelled ones: `exclude_seed`. */
  function ExcludeSeed(f: UserSignals, n: nat): set<int> {
    Elems(SeedIds(f, n)) + AvoidIds(f)
  }

  /** `co_purchase_ids`. */
  function CoPool(w: World, f: UserSignals, n: nat): seq<int> {
    Take(Eligible(w.catalog, w.coPurchase, ExcludeSeed(f, n)), n * POOL_FACTOR)
  }

  /** `category_rec_ids`. */
  function CategoryPool(w: World, f: UserSignals, n: nat): seq<int> {
    Take(InCategories(w.catalog, w.byUpdated, SeedCategories(w.catalog, SeedIds(f, n)),
                      ExcludeSeed(f, n) + Elems(CoPool(w, f, n))), n * POOL_FACTOR)
  }

  /** The fallback top-up of a merged list shorter than `n`: the fallback
      for `3 * (n - len)` products outside `excl` and the merged ones. */
  function Topped(catalog: map<int, Product>, top: seq<int>, recent: seq<int>,
                  merged: seq<int>, excl: set<int>, n: int): seq<int>
  {
    if |merged| < n
    then merged + FallbackIds(catalog, top, recent, (n - |merged|) * ANON_FACTOR, excl + Elems(merged))
    else merged
  }

  /** `ordered_ids` after the merge loop and the fallback top-up. */
  function Extended(w: World, f: UserSignals, n: int): seq<int>
    requires n > 0
  {
    var merged := Collect(CoPool(w, f, n) + CategoryPool(w, f, n), ExcludeSeed(f, n), n);
    Topped(w.catalog, w.topSelling, w.recent, merged, ExcludeSeed(f, n), n)
  }

  /** Diversity, then, when still short of `n`, the final backfill: the
      fallback for `5 * (n - len)` products outside the chosen ones only,
      appended and made diverse again. */
  function Finished(catalog: map<int, Product>, top: seq<int>, recent: seq<int>, ext: seq<int>, n: int): seq<int>
    requires n > 0
  {
    var diverse := Diverse(catalog, ext, n);
    if |diverse| < n
    then Diverse(catalog, diverse + FallbackIds(catalog, top, recent, (n - |diverse|) * BACKFILL_FACTOR, Elems(diverse)), n)
    else diverse
  }

  /** The signed-in result: anonymous when there are no seeds, otherwise
      the extended list finished by diversity and backfill. */
  function UserRecIds(w: World, f: UserSignals, n: int): seq<int>
    requires n > 0
  {
    if SeedIds(f, n) == [] then AnonIds(w, n)
    else Finished(w.catalog, w.topSelling, w.recent, Extended(w, f, n), n)
  }

  /** What a list must satisfy to be served. */
  ghost predicate Servable(catalog: map<int, Product>, ids: seq<int>, n: int) {
    && NoDup(ids)
    && |ids| <= n
    && (forall p :: p in ids ==> InStock(catalog, p))
    && (forall c :: CountCat(catalog, ids, c) <= MAX_PER_CATEGORY)
  }

  /** Diversity over distinct in-stock products yields a servable list. */
  lemma DiverseServable(catalog: map<int, Product>, xs: seq<int>, n: int)
    requires n > 0 && NoDup(xs)
    requires forall p :: p in xs ==> InStock(catalog, p)
    ensures Servable(catalog, Diverse(catalog, xs, n), n)
  {
    DiverseFacts(catalog, xs, n);
  }

  /** Appending a fallback that excludes `xs` keeps the list distinct and in
      stock. */
  lemma AppendFallback(catalog: map<int, Product>, top: seq<int>, recent: seq<int>, xs: seq<int>, limit: int, excl: set<int>)
    requires limit > 0 && NoDup(xs) && Elems(xs) <= excl
    requires forall p :: p in xs ==> InStock(catalog, p)
    ensures NoDup(xs + FallbackIds(catalog, top, recent, limit, excl))
    ensures forall p :: p in xs + FallbackIds(catalog, top, recent, limit, excl) ==> InStock(catalog, p)
    ensures forall p :: p in FallbackIds(catalog, top, recent, limit, excl) ==> p !in excl
  {
    FallbackFacts(catalog, top, recent, limit, excl);
    forall p | p in xs ensures p !in FallbackIds(catalog, top, recent, limit, excl) {
      assert p in Elems(xs);
    }
    NoDupAppend(xs, FallbackIds(catalog, top, recent, limit, excl));
  }

  /** Every anonymous result is servable. */
  lemma AnonServable(w: World, n: int)
    requires n > 0
    ensures Servable(w.catalog, AnonIds(w, n), n)
  {
    FallbackFacts(w.catalog, w.topSelling, w.recent, n * ANON_FACTOR, {});
    DiverseServable(w.catalog, FallbackIds(w.catalog, w.topSelling, w.recent, n * ANON_FACTOR, {}), n);
  }

  /** The top-up keeps a distinct, in-stock list outside `excl` so. */
  lemma ToppedFacts(catalog: map<int, Product>, top: seq<int>, recent: seq<int>,
                    merged: seq<int>, excl: set<int>, n: int)
    requires NoDup(merged)
    requires forall p :: p in merged ==> InStock(catalog, p) && p !in excl
    ensures NoDup(Topped(catalog, top, recent, merged, excl, n))
    ensures forall p :: p in Topped(catalog, top, recent, merged, excl, n) ==> InStock(catalog, p) && p !in excl
  {
    if |merged| < n {
      AppendFallback(catalog, top, recent, merged, (n - |merged|) * ANON_FACTOR, excl + Elems(merged));
    }
  }

  /** The extended list holds distinct in-stock products, none a seed or a
      cancelled product. */
  lemma ExtendedFacts(w: World, f: UserSignals, n: int)
    requires n > 0
    ensures NoDup(Extended(w, f, n))
    ensures forall p :: p in Extended(w, f, n) ==> InStock(w.catalog, p) && p !in ExcludeSeed(f, n)
  {
    var excl := ExcludeSeed(f, n);
    var co := CoPool(w, f, n);
    var cat := CategoryPool(w, f, n);
    var merged := Collect(co + cat, excl, n);
    CollectFacts(co + cat, excl, n);
    EligibleFacts(w.catalog, w.coPurchase, excl);
    InCategoriesFacts(w.catalog, w.byUpdated, SeedCategories(w.catalog, SeedIds(f, n)), excl + Elems(co));
    assert forall p :: p in co ==> p in Eligible(w.catalog, w.coPurchase, excl);
    assert forall p :: p in cat ==> p in InCategories(w.catalog, w.byUpdated, SeedCategories(w.catalog, SeedIds(f, n)), excl + Elems(co));
    ToppedFacts(w.catalog, w.topSelling, w.recent, merged, excl, n);
  }

  /** Finishing a distinct in-stock list gives a servable list. */
  lemma FinishedServable(catalog: map<int, Product>, top: seq<int>, recent: seq<int>, ext: seq<int>, n: int)
    requires n > 0 && NoDup(ext)
    requires forall p :: p in ext ==> InStock(catalog, p)
    ensures Servable(catalog, Finished(catalog, top, recent, ext, n), n)
  {
    var diverse := Diverse(catalog, ext, n);
    DiverseServable(catalog, ext, n);
    DiverseFacts(catalog, ext, n);
    if |diverse| < n {
      var limit := (n - |diverse|) * BACKFILL_FACTOR;
      AppendFallback(catalog, top, recent, diverse, limit, Elems(diverse));
      DiverseServable(catalog, diverse + FallbackIds(catalog, top, recent, limit, Elems(diverse)), n);
    }
  }

  /** Every signed-in result is servable: distinct, at most `n`, in stock,
      at most two per category. */
  lemma UserRecsServable(w: World, f: UserSignals, n: int)
    requires n > 0
    ensures Servable(w.catalog, UserRecIds(w, f, n), n)
  {
    if SeedIds(f, n) == [] {
      AnonServable(w, n);
    } else {
      ExtendedFacts(w, f, n);
      FinishedServable(w.catalog, w.topSelling, w.recent, Extended(w, f, n), n);
    }
  }

  /** Seeds and cancelled products are kept out of a signed-in result unless
      the final backfill ran: only that step excludes just the products
      already chosen. */
  lemma SeedsExcludedWithoutBackfill(w: World, f: UserSignals, n: int)
    requires n > 0 && SeedIds(f, n) != []
    requires |Diverse(w.catalog, Extended(w, f, n), n)| >= n
    ensures forall p :: p in UserRecIds(w, f, n) ==> p !in ExcludeSeed(f, n)
  {
    ExtendedFacts(w, f, n);
    DiverseFacts(w.catalog, Extended(w, f, n), n);
  }

  /** One visit of the inner pool loop, stated on the state the loop keeps. */
  lemma PoolStep(visited: seq<int>, pool: seq<int>, j: nat, ordered: seq<int>, seen: set<int>, excl: set<int>, n: int)
    requires j < |pool|
    requires ordered == Collect(visited + pool[..j], excl, n) && |ordered| < n
    requires seen == excl + Elems(ordered)
    ensures Collect(visited + pool[..j + 1], excl, n) == if pool[j] in seen then ordered else ordered + [pool[j]]
    ensures seen + {pool[j]} == excl + Elems(ordered + [pool[j]])
  {
    assert visited + pool[..j + 1] == visited + pool[..j] + [pool[j]];
    VisitStep(visited + pool[..j], pool[j], ordered, seen, excl, n);
  }

  /** Leaving the inner pool loop, full or at the end of the pool. */
  lemma PoolDone(visited: seq<int>, pool: seq<int>, j: nat, excl: set<int>, n: int)
    requires j <= |pool|
    requires |Collect(visited + pool[..j], excl, n)| >= n || j == |pool|
    ensures Collect(visited + pool, excl, n) == Collect(visited + pool[..j], excl, n)
  {
    if j == |pool| {
      assert pool[..j] == pool;
    } else {
      assert visited + pool[..j] <= visited + pool;
      CollectCapped(visited + pool[..j], visited + pool, excl, n);
    }
  }

  /** One pass of the inner loop over a pool: take each product not seen,
      and stop as soon as `n` are taken. */
  method ScanPool(pool: seq<int>, ghost visited: seq<int>, ordered: seq<int>, seen: set<int>, excl: set<int>, n: int)
    returns (ordered': seq<int>, seen': set<int>)
    requires ordered == Collect(visited, excl, n) && seen == excl + Elems(ordered) && |ordered| < n
    ensures ordered' == Collect(visited + pool, excl, n) && seen' == excl + Elems(ordered')
  {
    ordered', seen' := ordered, seen;
    var j := 0;
    assert visited + pool[..0] == visited;
    while j < |pool|
      invariant 0 <= j <= |pool|
      invariant ordered' == Collect(visited + pool[..j], excl, n) && seen' == excl + Elems(ordered')
      invariant |ordered'| < n
    {
      var pid := pool[j];
      PoolStep(visited, pool, j, ordered', seen', excl, n);
      if pid !in seen' {
        ordered' := ordered' + [pid];
        seen' := seen' + {pid};
      }
      j := j + 1;
      if |ordered'| >= n {
        break;
      }
    }
    PoolDone(visited, pool, j, excl, n);
  }

  /** The merge loop over `co_purchase_ids` then `category_rec_ids`,
      skipping anything seen and stopping at `n`. */
  method MergeCandidates(co: seq<int>, catPool: seq<int>, excl: set<int>, n: int) returns (ordered: seq<int>, seen: set<int>)
    requires n > 0
    ensures ordered == Collect(co + catPool, excl, n)
    ensures seen == excl + Elems(ordered)
  {
    ordered, seen := [], excl;
    var pools := [co, catPool];
    ghost var visited: seq<int> := [];
    var p := 0;
    while p < 2
      invariant 0 <= p <= 2
      invariant visited == if p == 0 then [] else if p == 1 then co else co + catPool
      invariant ordered == Collect(visited, excl, n) && seen == excl + Elems(ordered)
      invariant |ordered| < n
    {
      ordered, seen := ScanPool(pools[p], visited, ordered, seen, excl, n);
      visited := visited + pools[p];
      if |ordered| >= n {
        assert visited <= co + catPool;
        CollectCapped(visited, co + catPool, excl, n);
        return;
      }
      p := p + 1;
    }
  }

  /** The anonymous branch after a cache miss. */
  method AnonymousRecIds(w: World, n: int) returns (ids: seq<int>)
    requires n > 0
    ensures ids == AnonIds(w, n)
  {
    var fallback := AnonFallback(w.catalog, w.topSelling, w.recent, n * ANON_FACTOR, {});
    ids := ApplyCategoryDiversity(w.catalog, fallback, n);
  }

  /** Seed scoring and selection: `seed_ids`. */
  method SeedList(f: UserSignals, n: int) returns (seeds: seq<int>)
    requires n > 0
    ensures seeds == SeedIds(f, n)
  {
    var score, order := ScoreSeeds(f);
    var avoid := Elems(AggKeys(f.cancelled));
    seeds := Ids(Take(Select(SortDesc(Items(order, score)), avoid), n * SEEDS_PER_SLOT));
  }

  /** The two pools, the merge loop and the fallback top-up. */
  method ExtendedIds(w: World, f: UserSignals, n: int, seeds: seq<int>) returns (ordered: seq<int>)
    requires n > 0 && seeds == SeedIds(f, n)
    ensures ordered == Extended(w, f, n)
  {
    var excl := Elems(seeds) + Elems(AggKeys(f.cancelled));
    var co := Take(Eligible(w.catalog, w.coPurchase, excl), n * POOL_FACTOR);
    var catPool := Take(InCategories(w.catalog, w.byUpdated, SeedCategories(w.catalog, seeds), excl + Elems(co)),
                        n * POOL_FACTOR);
    assert excl == ExcludeSeed(f, n);
    assert co == CoPool(w, f, n);
    assert catPool == CategoryPool(w, f, n);
    var merged, seen := MergeCandidates(co, catPool, excl, n);
    ordered := TopUp(w, merged, seen, excl, n);
  }

  /** `if len(ordered_ids) < n: ordered_ids.extend(_anon_fallback(...))`. */
  method TopUp(w: World, merged: seq<int>, seen: set<int>, excl: set<int>, n: int) returns (ordered: seq<int>)
    requires seen == excl + Elems(merged)
    ensures ordered == Topped(w.catalog, w.topSelling, w.recent, merged, excl, n)
  {
    ordered := merged;
    if |ordered| < n {
      var more := AnonFallback(w.catalog, w.topSelling, w.recent, (n - |ordered|) * ANON_FACTOR, seen);
      ordered := ordered + more;
    }
  }

  /** Diversity and the final backfill. */
  method FinishRecs(w: World, ext: seq<int>, n: int) returns (ids: seq<int>)
    requires n > 0
    ensures ids == Finished(w.catalog, w.topSelling, w.recent, ext, n)
  {
    ids := ApplyCategoryDiversity(w.catalog, ext, n);
    if |ids| < n {
      var more := AnonFallback(w.catalog, w.topSelling, w.recent, (n - |ids|) * BACKFILL_FACTOR, Elems(ids));
      ids := ApplyCategoryDiversity(w.catalog, ids + more, n);
    }
  }

  /** The signed-in branch after a cache miss. */
  method ComputeUserRecIds(w: World, f: UserSignals, n: int) returns (ids: seq<int>)
    requires n > 0
    ensures ids == UserRecIds(w, f, n)
  {
    var seeds := SeedList(f, n);
    if seeds == [] {
      ids := AnonymousRecIds(w, n);
      return;
    }
    var ext := ExtendedIds(w, f, n, seeds);
    ids := FinishRecs(w, ext, n);
  }

  /** The cache key of a call. */
  function RecsKey(user: User, n: int): CacheKey {
    if IsAuthenticated(user) then UserRecs(user.id, n) else AnonRecs(n)
  }

  /** How long a freshly computed list is cached. */
  function RecsTtl(user: User): int {
    if IsAuthenticated(user) then USER_TTL else ANON_TTL
  }

  /** A cache entry counts as a hit only when it is a non-empty list. */
  function CachedIds(v: Option<CacheValue>): Option<seq<int>> {
    if v.Some? && v.value.IdList? && v.value.ids != [] then Some(v.value.ids) else None
  }

  /** The list a cache miss computes. */
  function FreshIds(w: World, f: UserSignals, user: User, n: int): seq<int>
    requires n > 0
  {
    if IsAuthenticated(user) then UserRecIds(w, f, n) else AnonIds(w, n)
  }

  /** The list `get_recommended_products` returns while the cache holds
      `entries`: the cached ids re-read in order, or a freshly computed list. */
  function ServedRecs(w: World, f: UserSignals, user: User, n: int, entries: map<CacheKey, Entry>, now: int): seq<int>
    requires n > 0
  {
    var cached := CachedIds(Lookup(entries, RecsKey(user, n), now));
    if cached.Some? then OrderedQs(w.catalog, Take(cached.value, n)) else FreshIds(w, f, user, n)
  }

  /** The cache table after `get_recommended_products`: a miss stores the
      fresh list under the caller's key. */
  function RecsStored(w: World, f: UserSignals, user: User, n: int, entries: map<CacheKey, Entry>, now: int)
    : map<CacheKey, Entry>
    requires n > 0
  {
    if CachedIds(Lookup(entries, RecsKey(user, n), now)).Some? then entries
    else entries[RecsKey(user, n) := Entry(IdList(FreshIds(w, f, user, n)), now + RecsTtl(user))]
  }

  /** Whatever the cache holds, the served list is distinct, at most `n` long
      and in stock. */
  lemma ServedRecsFacts(w: World, f: UserSignals, user: User, n: int, entries: map<CacheKey, Entry>, now: int)
    requires n > 0
    ensures var r := ServedRecs(w, f, user, n, entries, now);
            NoDup(r) && |r| <= n && forall p :: p in r ==> InStock(w.catalog, p)
  {
    var cached := CachedIds(Lookup(entries, RecsKey(user, n), now));
    if cached.Some? {
      OrderedQsFacts(w.catalog, Take(cached.value, n));
    } else if !IsAuthenticated(user) {
      AnonServable(w, n);
    } else {
      UserRecsServable(w, f, n);
    }
  }

  /** Right after a signed-in user's size-5 entry was evicted, the next
      request for five misses: it computes the user's list and stores it
      for `USER_TTL`. */
  lemma EvictedMiss(w: World, f: UserSignals, user: User, entries: map<CacheKey, Entry>, now: int)
    requires IsAuthenticated(user)
    ensures ServedRecs(w, f, user, 5, Evict(entries, user.id), now) == FreshIds(w, f, user, 5)
    ensures RecsStored(w, f, user, 5, Evict(entries, user.id), now)
            == Evict(entries, user.id)[RecsKey(user, 5) := Entry(IdList(FreshIds(w, f, user, 5)), now + USER_TTL)]
  {
    EvictOnlySizeFive(entries, user.id, RecsKey(user, 5));
  }

  /** `get_recommended_products`. `f` holds the signed-in user's signals and
      is not read for anonymous callers. */
  method GetRecommendedProducts(cache: Cache, user: User, n: int, w: World, f: UserSignals, now: int)
    returns (products: seq<int>)
    modifies cache
    ensures n <= 0 ==> products == [] && cache.entries == old(cache.entries)
    ensures n > 0 && CachedIds(old(cache.Get(RecsKey(user, n), now))).Some? ==>
              products == OrderedQs(w.catalog, Take(CachedIds(old(cache.Get(RecsKey(user, n), now))).value, n))
              && cache.entries == old(cache.entries)
    ensures n > 0 && CachedIds(old(cache.Get(RecsKey(user, n), now))).None? ==>
              products == FreshIds(w, f, user, n)
              && cache.entries == old(cache.entries)[RecsKey(user, n) := Entry(IdList(FreshIds(w, f, user, n)), now + RecsTtl(user))]
              && cache.Get(RecsKey(user, n), now) == Some(IdList(products))
    ensures n > 0 ==> NoDup(products) && |products| <= n && forall p :: p in products ==> InStock(w.catalog, p)
    ensures n > 0 ==>
              products == ServedRecs(w, f, user, n, old(cache.entries), now)
              && cache.entries == RecsStored(w, f, user, n, old(cache.entries), now)
  {
    if n <= 0 {
      return [];
    }
    var key := RecsKey(user, n);
    var cached := CachedIds(cache.Get(key, now));
    if cached.Some? {
      products := OrderedQs(w.catalog, Take(cached.value, n));
      OrderedQsFacts(w.catalog, Take(cached.value, n));
      return;
    }
    var ids;
    if !IsAuthenticated(user) {
      ids := AnonymousRecIds(w, n);
      AnonServable(w, n);
    } else {
      ids := ComputeUserRecIds(w, f, n);
      UserRecsServable(w, f, n);
    }
    cache.Set(key, IdList(ids), RecsTtl(user), now);
    OrderedQsIdentity(w.catalog, ids);
    products := OrderedQs(w.catalog, ids);
  }

  /** A list cached by a miss is served back unchanged by a later hit while
      the catalog's stock is unchanged. */
  lemma CachedListServedAgain(w: World, f: UserSignals, user: User, n: int)
    requires n > 0
    ensures OrderedQs(w.catalog, Take(FreshIds(w, f, user, n), n)) == FreshIds(w, f, user, n)
  {
    if IsAuthenticated(user) {
      UserRecsServable(w, f, n);
    } else {
      AnonServable(w, n);
    }
    OrderedQsIdentity(w.catalog, FreshIds(w, f, user, n));
  }
}
