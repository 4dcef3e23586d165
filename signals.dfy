/** The cache-invalidation receivers connected to `post_save` and
    `post_delete` of interest rows, cart lines and likes. Django dispatches
    them from `save()` and `delete()`; in this model the callers that save or
    delete a row call the matching receiver themselves. */
module Signals {
  import opened RecCache
  import opened ShopModels
  import opened Catalog

  /** Saving or deleting a `ProductInterest` evicts its user's entries. */
  method InvalidateRecsOnInterestChange(cache: Cache, instance: InterestRow)
    modifies cache
    ensures cache.entries == Evict(old(cache.entries), instance.user)
  {
    InvalidateUserRecsCache(cache, instance.user, DEFAULT_REC_SIZES);
  }

  /** Saving or deleting a `CartItem` evicts its user's entries. */
  method InvalidateRecsOnCartChange(cache: Cache, instance: CartItem)
    modifies cache
    ensures cache.entries == Evict(old(cache.entries), instance.user)
  {
    InvalidateUserRecsCache(cache, instance.user, DEFAULT_REC_SIZES);
  }

  /** Saving or deleting a `LikedProduct` evicts its user's entries. */
  method InvalidateRecsOnLikeChange(cache: Cache, instance: LikedRow)
    modifies cache
    ensures cache.entries == Evict(old(cache.entries), instance.user)
  {
    InvalidateUserRecsCache(cache, instance.user, DEFAULT_REC_SIZES);
  }
}
