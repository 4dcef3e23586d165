# MiniShop recommendations, likes and order views

This project models the recommendation engine of MiniShop, a Django shop, and
the views built on it.

- **Interest recording.** A product view, a like or a checkout raises the user's
  `ProductInterest` score by `max(1, weight)`. It then evicts the user's cached
  recommendation list.
- **Cache invalidation on change.** The `post_save`/`post_delete` receivers
  evict that same cache entry whenever an interest row, a cart item or a like
  changes.
- **The recommender.** `get_recommended_products` does the following:
  - anonymous users get the interleaved top-selling/recent fallback;
  - signed-in users get seeds scored from likes, purchases, time-decayed
    interest, cart quantities and cancellations;
  - the seeds are extended by a co-purchase pool and a same-category pool, with
    a fallback top-up;
  - a per-category diversity cap is applied, then a final backfill;
  - the result is cached for 5 or 10 minutes.
- **Likes.** `liked_product_ids_for_user` answers which of some products the
  user has liked. `toggle_like` likes or unlikes a product.
- **Product pages.** `product_detail` and `product_public` record a view and
  show up to five recommendations, never the product itself.
- **The shop listing.** It can float a `?highlight=` product to the top.
- **The home page.** It shows the recommended strip with its heading. It also
  builds up to two "similar to" sections from cart, watchlist and interest
  seeds, and caches them for 120 seconds.
- **The order views.** Order cancel and refund request. Checkout and the
  payment-cancel page record cart interest.
- **The assistant bridge.** It validates intents, coerces entities and caps
  search results.

Database queries are inputs to the model: a product catalog, ranked id lists
and row sequences. Tables that the code updates in place are classes: interest
rows, likes and return requests with a `rows` field, and the cache with an
`entries` map. Each
operation that changes them states the new cache table exactly. It states the
other tables as their lookups (`InterestOf`, `LikeOf`, the set of like pairs,
the return requests) see them.

## Model

| member | source | states |
|---|---|---|
| RecCache.Cache.Get | shop/recommendations.py:152-153 | a key yields a value exactly when it is stored and not expired, and then yields the stored value |
| RecCache.Cache.Set | shop/recommendations.py:164 | stores the value under the key with expiry now+timeout; it is readable now (when timeout > 0) and gone at the expiry time |
| RecCache.Cache.Delete | shop/recommendations.py:32 | removes exactly that key |
| RecCache.InvalidateUserRecsCache | shop/recommendations.py:30-32 | removes exactly the keys `recs:u:<uid>:<size>` for the given sizes and nothing else |
| RecCache.EvictOnlySizeFive | shop/recommendations.py:21 | with the default sizes (5,), eviction removes only the user's size-5 list and leaves every other entry unchanged |
| Signals.InvalidateRecsOnInterestChange | shop/signals.py:9-12 | a saved or deleted interest row evicts its user's cached recommendations |
| Signals.InvalidateRecsOnCartChange | shop/signals.py:15-18 | a saved or deleted cart item evicts its user's cached recommendations |
| Signals.InvalidateRecsOnLikeChange | shop/signals.py:21-24 | a saved or deleted like evicts its user's cached recommendations |
| ShopModels.InterestOf | shop/models.py:9-16 | the lookup returns a row for (user, product) if and only if one exists |
| ShopModels.LikeOf | shop/models.py:25-31 | the lookup returns a like for (user, product) if and only if one exists |
| ShopModels.InterestOfIndex | shop/models.py:16 | under `unique_together`, the row at any index is the one found for its (user, product) |
| ShopModels.LikeOfRemove | shop/models.py:31 | deleting one like removes exactly its (user, product) pair from the lookup |
| ShopModels.InterestTable.GetOrCreate | shop/recommendations.py:38-42 | creates a score-0 row exactly when none exists, returns the row's index, and keeps pairs unique |
| ShopModels.InterestTable.UpdateAddScore | shop/recommendations.py:67-69 | adds delta to the score of exactly the user's rows for the given products; no row is added or removed |
| ShopModels.InterestTable.BulkCreateIgnoreConflicts | shop/recommendations.py:65-66 | new rows are inserted only for pairs that do not yet exist; existing rows win the conflict |
| ShopModels.LikeTable.GetOrCreate | shop/views.py:329 | creates a like exactly when none exists for (user, product) |
| ShopModels.LikeTable.Delete | shop/views.py:334 | removes exactly that row; only its pair leaves the lookup |
| InterestRecording.RecordProductInterest | shop/recommendations.py:35-44 | an anonymous user changes nothing; otherwise only (user, product) changes, gaining max(1, weight) (a new row starts at 0), and the user's cache entry is evicted |
| InterestRecording.RecordCartInterest | shop/recommendations.py:47-70 | anonymous user or empty cart: nothing changes; otherwise each distinct cart product in the catalog gets a row if missing, every cart product's row gains max(1, weight), other rows are untouched, and the cache is evicted |
| InterestRecording.InCatalogFacts | shop/recommendations.py:55 | only cart products that exist in the catalog get new rows |
| InterestRecording.NewRowsLookup | shop/recommendations.py:60-64 | the rows to create are score-0 rows for exactly the missing (user, product) pairs |
| LikeServices.LikedProductIdsForUser | shop/services/like_services.py:10-18 | empty for a missing, anonymous or unauthenticated user and for only-None ids; otherwise exactly the non-None ids the user has liked |
| LikeServices.LikedIdsWithin | shop/services/like_services.py:16-18 | every returned id was asked about and is liked by the user |
| LikeServices.PresentIds | shop/services/like_services.py:13 | drops exactly the None ids |
| Catalog.InStockOnlyFacts | shop/recommendations.py:121 | the `quantity__gt=0` filter keeps exactly the in-stock ids, in order |
| Common.CollectFacts | shop/recommendations.py:322-332 | the seen-set merge yields distinct ids, none excluded, in source order, at most the cap, and, below the cap, every eligible id |
| Common.DedupFacts | shop/recommendations.py:51-53 | `.distinct()` keeps each id once and loses none |
| Recommendations.OrderedQsFacts | shop/recommendations.py:114-121 | `_ordered_qs` returns distinct in-stock ids, exactly those of the input that are in stock, in input order |
| Recommendations.OrderedQsIdentity | shop/recommendations.py:114-121 | on distinct in-stock ids, `_ordered_qs` returns its input unchanged |
| Diversity.ApplyCategoryDiversity | shop/recommendations.py:89-112 | the loop computes exactly the specification `Diverse` (first ids, at most 2 per category, stop at limit) |
| Diversity.DiverseFacts | shop/recommendations.py:89-112 | the result is an ordered subsequence; it is empty when limit ≤ 0; its length is at most limit; each category has at most 2 ids; distinct inputs give distinct outputs; below the limit every dropped id's category is full |
| Diversity.DiverseCapped | shop/recommendations.py:108-109 | once the limit is reached, later candidates change nothing |
| Fallback.AnonFallback | shop/recommendations.py:123-147 | returns the specification `FallbackIds`: the two pools interleaved, deduplicated against the exclusions, stopped at the limit |
| Fallback.MergePools | shop/recommendations.py:139-147 | the nested loop equals collecting over the interleaving top[0], recent[0], top[1], … |
| Fallback.FallbackFacts | shop/recommendations.py:123-147 | the result is distinct, at most the limit, in stock, not excluded, and drawn from the two pools; below the limit it contains everything eligible in both pools |
| Fallback.FallbackFirst | shop/recommendations.py:139-142 | the best-selling eligible product comes first |
| Fallback.InterleavedElems | shop/recommendations.py:139-141 | after k rounds, the interleaving holds exactly the first k of each pool |
| Fallback.InterleavedComplete | shop/recommendations.py:139 | running max(len) rounds visits every element of both pools |
| Seeds.ScoreSeeds | shop/recommendations.py:241-267 | each product's accumulated score is 8·likes + 5·purchased + decayed interest + 2·cart − 3·cancelled, and keys appear in first-insertion order |
| Seeds.DecayInterest | shop/recommendations.py:204-207 | the interest dictionary accumulates only positive decayed scores, in first-seen order |
| Seeds.AddAll | shop/recommendations.py:257-267 | each accumulation loop extends the dictionary exactly as the specification `Accumulate` does |
| Seeds.SeedScoreFormula | shop/recommendations.py:257-267 | a product's dictionary value is its closed-form score, and an absent product scores 0 |
| Seeds.SeedIdsFacts | shop/recommendations.py:269-273 | seed ids are distinct, at most n·10, positively scored, not avoided and ordered by descending score; below the cap, every eligible product is a seed |
| Seeds.ColdStart | shop/recommendations.py:277-280 | there are no seeds exactly when every positively scored product is avoided |
| Seeds.SelectFacts | shop/recommendations.py:269-273 | the comprehension keeps exactly the positive, non-avoided items and preserves the sort |
| SeedSort.SortFacts | shop/recommendations.py:271 | `sorted(..., reverse=True)` gives a descending permutation that is stable among equal scores |
| SeedSort.SortKeepsIdsDistinct | shop/recommendations.py:271 | sorting keeps dictionary keys distinct |
| Recommendations.SeedList | shop/recommendations.py:269-273 | the method computes the specification seed list |
| Recommendations.InCategoriesFacts | shop/recommendations.py:298-305 | the category pool holds only in-stock products of a seed category that are not excluded |
| Recommendations.MergeCandidates | shop/recommendations.py:322-332 | the nested pool loop equals collecting over co-purchase then category ids, stopping at n |
| Recommendations.ScanPool | shop/recommendations.py:324-329 | one pool's inner loop extends the collection exactly as the specification does |
| Recommendations.TopUp | shop/recommendations.py:334-335 | below n, the fallback is appended, excluding everything seen |
| Recommendations.ExtendedIds | shop/recommendations.py:291-335 | computes the specification pipeline up to diversity |
| Recommendations.FinishRecs | shop/recommendations.py:337-342 | the diversity pass and the diversity-respecting backfill equal the specification `Finished` |
| Recommendations.ComputeUserRecIds | shop/recommendations.py:183-342 | computes the signed-in pipeline `UserRecIds`, including the cold-start fallback |
| Recommendations.AnonymousRecIds | shop/recommendations.py:162 | computes the anonymous list: the fallback of n·3 under diversity |
| Recommendations.ExtendedFacts | shop/recommendations.py:291-335 | the extended list is distinct, in stock, and excludes the seeds and avoided ids |
| Recommendations.ToppedFacts | shop/recommendations.py:334-335 | the top-up keeps ids distinct, in stock and outside the exclusion set |
| Recommendations.AppendFallback | shop/recommendations.py:338-340 | appending a fallback that excludes the current ids keeps the list distinct and in stock |
| Recommendations.AnonServable | shop/recommendations.py:162 | anonymous recommendations are distinct, in stock, at most n, with at most 2 per category |
| Recommendations.UserRecsServable | shop/recommendations.py:277-342 | signed-in recommendations are distinct, in stock, at most n, with at most 2 per category |
| Recommendations.DiverseServable | shop/recommendations.py:337 | diversity over distinct in-stock ids yields a servable list |
| Recommendations.FinishedServable | shop/recommendations.py:337-342 | the finishing step yields a servable list |
| Recommendations.SeedsExcludedWithoutBackfill | shop/recommendations.py:307-342 | without the final backfill, no seed or avoided product is recommended |
| Recommendations.GetRecommendedProducts | shop/recommendations.py:73-370 | n ≤ 0 gives nothing; a non-empty cached list is served, trimmed to n and in stock, and the cache is untouched; otherwise the fresh list is computed and cached under the user's or the anonymous key with TTL 600 or 300; the output is always distinct, at most n and in stock; the list and the new cache table are `ServedRecs` and `RecsStored` of the old table |
| Recommendations.ServedRecsFacts | shop/recommendations.py:150-170 | whatever the cache holds, the list served from it or computed is distinct, at most n and in stock |
| Recommendations.EvictedMiss | shop/recommendations.py:168-170 | after a signed-in user's entries are evicted, a request for five misses, serves the freshly computed list and stores it for 600 seconds, other entries untouched |
| Recommendations.CachedListServedAgain | shop/recommendations.py:153-157 | serving a freshly cached list gives back the same list |
| PyText.StripFacts | home/assistant_bridge.py:51 | `str.strip` removes exactly the outer whitespace and is empty exactly for all-space input |
| PyText.StripIdempotent | home/assistant_bridge.py:51 | stripping twice equals stripping once |
| PyText.LowerIdempotent | home/assistant_bridge.py:51 | lowering twice equals lowering once |
| PyText.DecimalRoundTrip | shop/views.py:44 | `str(n)` is a decimal string whose value is n |
| PyText.DigitsToIntAsWritten | shop/views.py:44 | `int(s) if s.isdigit()` raises exactly on digit strings that are not decimal |
| PyText.SuperscriptRaises | shop/views.py:44 | "²" passes `isdigit()` but `int` raises on it |
| PyText.DigitsToInt | shop/views.py:44 | the corrected parse succeeds exactly on decimal strings and agrees with the source wherever the source returns |
| PyText.DigitsToIntRoundTrip | shop/views.py:44 | parsing `str(n)` gives back n |
| PyText.DigitsToIntRejects | shop/views.py:44 | "-3", "" and "1.5" are not ids |
| ShopViews.ParseHighlightAsWritten | shop/views.py:43-44 | the highlight parse as written raises on non-decimal digit strings |
| ShopViews.HighlightAsWrittenRaises | shop/views.py:44 | `?highlight=²` raises |
| ShopViews.ParseHighlight | shop/views.py:43-44 | a highlight id is produced exactly for a decimal parameter; it is the parameter's value and agrees with the source where the source returns |
| ShopViews.HighlightRoundTrip | shop/views.py:44 | `?highlight=<id>` selects that id |
| ShopViews.HighlightOrderSorted | shop/views.py:46-61 | the listing keeps every product once; the highlighted product comes first when present, and the rest are by descending id |
| ShopViews.Without | shop/views.py:165-169 | `.exclude(id=…)` removes exactly that id and keeps the order |
| ShopViews.WithoutCount | shop/views.py:167 | excluding a present id shortens a distinct list by one |
| ShopViews.WithoutAbsent | shop/views.py:167 | excluding an absent id changes nothing |
| ShopViews.Toggled | shop/views.py:329-335 | toggling flips exactly one (user, product) pair |
| ShopViews.ToggleTwice | shop/views.py:327-335 | toggling twice restores the likes |
| ShopViews.LikePairsLookup | shop/models.py:25-31 | a pair is in the like set if and only if the lookup finds it |
| ShopViews.ToggleLike | shop/views.py:325-335 | anonymous: login redirect, nothing changes; unknown product: 404, nothing changes; otherwise the like is toggled, the reply says whether the product is now liked, the cache is evicted, and only a new like adds interest weight 3 |
| ShopViews.ProductDetail | shop/views.py:145-177 | unknown product: 404 and nothing changes; otherwise a view (weight 1) is recorded for a signed-in user, at most 5 recommendations are shown and never the product itself, and liked ids are exactly the liked ones among the product and the recommendations; for a signed-in user the cache is the evicted table plus the fresh list under the user's size-5 key for 600 seconds; for a visitor the list and the cache are what `get_recommended_products` serves and stores from the old table |
| HomeViews.SubtitleBasis | home/views.py:67-76 | the subtitle is chosen by cart, then watchlist, then interest, then popular, with each case in both directions |
| HomeViews.RecommendedHeading | home/views.py:61-79 | anonymous users see "Trending now"; signed-in users see "Recommended for you" with the subtitle chosen by their signals |
| HomeViews.WatchlistAndActivity | home/views.py:173-181 | the merge loop equals collecting watchlist then interest ids, distinct, capped at 30 |
| HomeViews.WatchlistAndActivityFacts | home/views.py:173-181 | the merged list is distinct and at most 30; watchlist ids come first; below the cap nothing is lost |
| HomeViews.RotateLeft | home/views.py:189 | `ids[1:] + ids[:1]` is a left rotation, a permutation of the ids |
| HomeViews.SeedSources | home/views.py:151-190 | signed-in users get the cart source, then watchlist and activity, or else "Recommended"; anonymous users get "Trending" and its rotation; there are 1 or 2 sources; the result is `HomeSources` of the same inputs |
| HomeViews.PickSeeds | home/views.py:192-208 | the nested loop computes the specification `Picked` over the flattened sources |
| HomeViews.ScanSource | home/views.py:195-206 | the inner loop extends the pick exactly as the specification does |
| HomeViews.PickedFacts | home/views.py:192-208 | at most 2 seeds, with distinct products, each with a category, in source order; below 2, every categorised candidate was taken |
| HomeViews.PickedCapped | home/views.py:205-208 | once 2 seeds are picked, later sources change nothing |
| HomeViews.FillSeeds | home/views.py:211-228 | the filler loop computes the specification `Filled` |
| HomeViews.FirstInCategory | home/views.py:218-223 | finds a product of the category, in the update list, not in the recommendations, or reports there is none |
| HomeViews.FirstInCategoryIsNewest | home/views.py:218-223 | the product found stands at or before every qualifying position of the `-updated_at` list: it is the newest one |
| HomeViews.FilledFacts | home/views.py:211-228 | filling keeps the picked seeds, stays within 2, and adds only "Popular" categorised products outside the recommendations |
| HomeViews.FillerMayRepeatSeed | home/views.py:218-226 | the filler does not exclude already-picked seeds: a lone picked seed that is its category's newest non-recommended product is seeded again as "Popular", for any catalog, label and category |
| HomeViews.SameCategory | home/views.py:143-146 | the candidates are exactly the in-stock products of the category that are not excluded, distinct when the list is, and a subsequence of the `-updated_at` list |
| HomeViews.SimilarFacts | home/views.py:131-149 | no category gives []; otherwise at most `limit` in-stock, same-category, non-excluded products, all of them when fewer than `limit`, in `-updated_at` order, and the leading (newest) ones of all qualifying products |
| HomeViews.TitleFresh | home/views.py:247-250 | with at most one title used, the chosen title is new |
| HomeViews.BuiltFacts | home/views.py:239-269 | every section is about its seed, products are not repeated across sections, and recommendations are never shown |
| HomeViews.BuiltTitlesDistinct | home/views.py:247-250 | section titles are pairwise distinct |
| HomeViews.BuildSections | home/views.py:239-269 | the section loop over the first 2 seeds computes the specification `Built` |
| HomeViews.BuiltPageSections | home/views.py:239-269 | the built sections satisfy the page invariant: at most 2, disjoint, distinct titles, at most 4 in-stock same-category products each, never recommended or a seed |
| HomeViews.HeadingMatchesSources | home/views.py:61-190 | when each `exists()` check agrees with its id list, a signed-in user's cart is a seed source exactly when the subtitle names the cart, and the recommendations are the fallback source exactly when the subtitle is the popular one |
| HomeViews.HomeSeeds | home/views.py:192-228 | seeds are the picked ones, topped up from filler categories when fewer than 2, which is `PageSeeds` of the same inputs |
| HomeViews.PageSeedsSeedable | home/views.py:192-228 | every seed of the page is a catalog product with a category |
| HomeViews.FreshSections | home/views.py:151-254 | the sections built from the page's seed sources and seeds satisfy the page invariant: at most two, distinct titles, no product twice, each about its seed's category, in stock, never recommended or a seed |
| HomeViews.CategorySections | home/views.py:82-254 | a non-empty cached section list under the row's key is served and the cache is untouched; otherwise the sections are `FreshSections` and stored under the key for 120 seconds, other entries untouched |
| HomeViews.Home | home/views.py:45-284 | for a signed-in user the `exists()` checks agree with the id lists read from the same tables; the heading follows the signals; the recommended strip is what `get_recommended_products` serves for five (distinct, at most 5, in stock); a hit on the sections key, read after the recommender's store, serves the cached sections; a miss shows `FreshSections` for that strip and that seed data, which satisfy the page invariant; the final cache table is the recommender's table plus, on a miss, the sections under the key for 120 seconds; liked ids are exactly the liked ones among all shown ids |
| PaymentViews.FindOrder | payment/views.py:112 | finds the first order with that uuid owned by the user, or none when there is none |
| PaymentViews.OrderCancel | payment/views.py:109-122 | login required; a missing order gives "Order not found."; PENDING/PROCESSING becomes CANCELLED with a fresh timestamp and a success message; any other status is unchanged with an error naming it |
| PaymentViews.RefundRefusal | payment/views.py:138-150 | a refund is refused exactly unless the status is COMPLETED or RETURNED, with the source's message per status |
| PaymentViews.RequestReturns | payment/views.py:152-162 | the loop appends exactly the specification `Requested` rows and reports whether any was created |
| PaymentViews.RequestedFacts | payment/views.py:152-162 | old rows are kept; new rows are REQUESTED with the fixed reason, one per item that had no open (non-REJECTED) request; afterwards every item has one |
| PaymentViews.RequestedIdempotent | payment/views.py:152-162 | a second request creates nothing |
| PaymentViews.NothingMissing | payment/views.py:154-156 | when every item already has an open request, nothing is created |
| PaymentViews.ReturnTable.Create | payment/views.py:157-161 | appends exactly one row |
| PaymentViews.OrderRefundRequest | payment/views.py:125-168 | login required; missing order: not found; refused status: its message and no rows; otherwise the return rows are created, with success if any was new and info otherwise |
| PaymentViews.Checkout | payment/views.py:18-25 | an empty cart redirects with "Cart is empty" and changes no table; otherwise cart interest of weight 2 is recorded and the checkout page shown; the cache loses the signed-in user's entries exactly when the stored cart is non-empty, and is unchanged for a visitor |
| PaymentViews.ShopCancel | payment/views.py:60-63 | records cart interest of weight 2 and shows the cancel page; the cache loses the signed-in user's entries exactly when the stored cart is non-empty, and is unchanged for a visitor |
| AssistantBridge.ToIntAsWritten | home/assistant_bridge.py:32-39 | `_to_int` as written raises exactly on non-decimal digit strings |
| AssistantBridge.ToIntAsWrittenRaises | home/assistant_bridge.py:37-38 | `_to_int("²")` raises |
| AssistantBridge.ToInt | home/assistant_bridge.py:32-39 | None maps to None, an int to itself, a decimal string to its value, anything else to None; agrees with the source wherever the source returns |
| AssistantBridge.ToIntRoundTrip | home/assistant_bridge.py:37-38 | `_to_int(str(n)) == n` |
| AssistantBridge.ValidateIntent | home/assistant_bridge.py:50-54 | the result is always a known intent: the stripped, lower-cased input if known, else "search" |
| AssistantBridge.ValidateIntentIdempotent | home/assistant_bridge.py:50-54 | validating a validated intent changes nothing |
| AssistantBridge.CleanText | home/assistant_bridge.py:60-69 | a text field is kept exactly when it is a string with a non-space character, and then it is stripped |
| AssistantBridge.CoerceEntities | home/assistant_bridge.py:57-77 | a non-dict gives empty entities; otherwise query, category and product id are each coerced from their key |
| AssistantBridge.CoerceRoundTrip | home/assistant_bridge.py:57-77 | coercing the raw form of clean entities gives them back |
| AssistantBridge.ResultCap | home/assistant_bridge.py:97 | `max(1, min(limit, 10))` clamps to the range 1 to 10 |
| AssistantBridge.SearchProducts | home/assistant_bridge.py:80-97 | a blank query gives []; otherwise the result is the first min(len, cap) matches, in order |

## Left out

- Django's ORM queries are inputs: the catalog map, ranked id lists (top selling, recent, co-purchase, by update time) and row sequences. Their SQL is not modelled. `payment/models.py`, `cart/models.py` and `dashboard/models.py` are not part of this model; Order, ReturnRequest, CartItem and Product carry only the fields the views use.
- Seeds.DecayInterest: `exp(-λ·age)` is floating point; each row's decayed score is an input real, and only its accumulation is modelled.
- Seeds.ScoreSeeds: scores are exact reals, while the source adds Python floats. Near-ties can therefore order differently. For example, take products B and A, both liked (8.0), B inserted first, and A also carrying decayed interest 1e-16. In floats both score 8.0 and B comes first; here A scores more and comes first. That order decides which seeds survive the `[:n*10]` cap.
- AssistantBridge.ValidateIntent: the intent is `Option<string>`. A truthy non-string intent (a number, a list) makes `validate_intent` raise `AttributeError` in the source (home/views.py:319 calls home/assistant_bridge.py:50-51). The model does not represent that error.
- Decimal prices and the `_to_decimal`, `min_price` and `max_price` filters are left out, because they need decimal arithmetic.
- AssistantBridge.SearchProducts: the database text match (`icontains` over name, description and category) is an input list; only the blank-query guard, the ordering and the cap are modelled. The JSON payload (URLs, image) is left out.
- PyText.Lower: ASCII letters only; Unicode case mapping is not modelled. Python's `isdigit` and `isdecimal` are modelled for the ASCII digits plus the superscript and subscript digits (digits to `isdigit` but not decimal); other Unicode digit classes are left out.
- ShopViews.ProductDetail also stands for `product_public` (shop/views.py:106-142), which is the same flow keyed by slug. The slug lookup is left out.
- ShopViews.ProductDetail: for an anonymous user the list may come from the shared anonymous cache entry. It is stated as what `get_recommended_products` serves from the old table. For a signed-in user the view evicts the user's entry first, so the list is always fresh.
- HomeViews.Home: a cache hit serves the sections as stored. The per-section product re-fetch (dropping products deleted since the sections were cached, and a seed product or category that no longer exists) is not modelled, so liked ids on a hit include every stored seed id.
- HomeViews.Home: the hero products and the rendering are left out.
- HomeViews.HasCategory: on the home page a category id of 0 counts as "no category", as the truthiness tests of `category_id` in seed picking and `_similar_products` (home/views.py:135, 201) treat it. The recommender instead treats 0 as a real category, as its `is not None` and `isnull` tests do: `Catalog.CategoryKey` keeps it as bucket 0 for the diversity cap, and the category pool includes it.
- Logging and observability (`_obs_enabled`, timings, query counts) are left out: they do not change any result.
- The payment form handling in `checkout`, Stripe, and the services behind it are left out.
- Flash messages are `Flash` values in the response rather than Django's messages framework. `login_required` is the `LoginRedirect` response. `require_POST` is assumed satisfied.
- The order of an order's items is an input sequence.
- Concurrency between requests (races on `get_or_create` and `bulk_create`) is not modelled. Each view runs atomically on the tables.

## Findings

| source | as written | input that shows it | evidently intended | confidence | as-written member | corrected member |
|---|---|---|---|---|---|---|
| shop/views.py:44 | `int(highlight_id) if highlight_id.isdigit()`: `isdigit` accepts digits such as "²" that `int` rejects | `?highlight=²` raises `ValueError` (a server error) | a non-decimal highlight is ignored (treated as None) | not executed | ShopViews.HighlightAsWrittenRaises | ShopViews.ParseHighlight |
| home/assistant_bridge.py:37-38 | `_to_int` tests `isdigit()` before `int(value)` | `{"product_id": "²"}` raises instead of returning None | a non-decimal string gives None | not executed | AssistantBridge.ToIntAsWrittenRaises | AssistantBridge.ToInt |
