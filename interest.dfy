/** `record_product_interest` and `record_cart_interest`: raising a signed-in
    user's interest scores and dropping the user's cached recommendations.
    Neither touches anything for an anonymous caller. */
module InterestRecording {
  import opened Common
  import opened Catalog
  import opened RecCache
  import opened ShopModels
  import opened Signals

  /** `max(1, int(weight))`. */
  function Increment(weight: int): nat {
    if weight >= 1 then weight else 1
  }

  /** The row a pair has after `delta` is recorded for it: a new pair starts
      at `delta` with `updated_at = now`; an existing row gains `delta` and
      keeps its `updated_at`. */
  function Recorded(before: Option<InterestRow>, u: int, p: int, delta: nat, now: int): Option<InterestRow> {
    match before
    case None => Some(InterestRow(u, p, delta, now))
    case Some(r) => Some(r.(score := r.score + delta))
  }

  /** `record_product_interest(user, product, weight)`: `get_or_create` (its
      `post_save` signal evicts the cache when a row is created), a queryset
      `update` of the score, then the explicit eviction. */
  method RecordProductInterest(user: User, product: int, weight: int, now: int, table: InterestTable, cache: Cache)
    requires table.Valid()
    modifies table, cache
    ensures table.Valid()
    ensures !IsAuthenticated(user) ==> table.rows == old(table.rows) && cache.entries == old(cache.entries)
    ensures IsAuthenticated(user) ==> cache.entries == Evict(old(cache.entries), user.id)
    ensures IsAuthenticated(user) ==>
              forall u, p :: InterestOf(table.rows, u, p)
                == if u == user.id && p == product
                   then Recorded(InterestOf(old(table.rows), u, p), u, p, Increment(weight), now)
                   else InterestOf(old(table.rows), u, p)
  {
    if !IsAuthenticated(user) {
      return;
    }
    var uid := user.id;
    ghost var before := table.rows;
    var k, created := table.GetOrCreate(uid, product, now);
    if created {
      InvalidateRecsOnInterestChange(cache, table.rows[k]);
    }
    ghost var mid := table.rows;
    forall u, p ensures InterestOf(mid, u, p)
                        == if created && u == uid && p == product then Some(InterestRow(uid, product, 0, now)) else InterestOf(before, u, p)
    {
      if created {
        InterestOfAppend(before, InterestRow(uid, product, 0, now), u, p);
      }
    }
    table.UpdateAddScore(uid, {product}, Increment(weight));
    forall u, p ensures InterestOf(table.rows, u, p)
                        == if u == uid && p == product
                           then Recorded(InterestOf(before, u, p), u, p, Increment(weight), now)
                           else InterestOf(before, u, p)
    {
      InterestOfBumped(mid, table.rows, uid, {product}, Increment(weight), u, p);
    }
    InvalidateUserRecsCache(cache, uid, DEFAULT_REC_SIZES);
  }

  /** The product ids in the user's cart, each once. */
  function CartProducts(cart: seq<CartItem>, uid: int): seq<int> {
    Dedup(UserCartProducts(cart, uid))
  }

  function UserCartProducts(cart: seq<CartItem>, uid: int): seq<int>
    decreases |cart|
  {
    if cart == [] then []
    else
      var c := cart[|cart| - 1];
      UserCartProducts(cart[..|cart| - 1], uid) + (if c.user == uid then [c.product] else [])
  }

  /** `Product.objects.filter(id__in=product_ids)`. */
  function InCatalog(catalog: map<int, Product>, ids: seq<int>): seq<int>
    decreases |ids|
  {
    if ids == [] then []
    else InCatalog(catalog, ids[..|ids| - 1]) + (if ids[|ids| - 1] in catalog then [ids[|ids| - 1]] else [])
  }

  lemma {:induction false} InCatalogFacts(catalog: map<int, Product>, ids: seq<int>)
    ensures forall p :: p in InCatalog(catalog, ids) <==> p in ids && p in catalog
    decreases |ids|
  {
    if ids != [] {
      InCatalogFacts(catalog, ids[..|ids| - 1]);
      assert ids == ids[..|ids| - 1] + [ids[|ids| - 1]];
    }
  }

  /** `to_create`: a zero-score row for each product without a row yet. */
  function NewRows(rows: seq<InterestRow>, uid: int, products: seq<int>, now: int): seq<InterestRow>
    decreases |products|
  {
    if products == [] then []
    else
      var p := products[|products| - 1];
      NewRows(rows, uid, products[..|products| - 1], now)
      + (if InterestOf(rows, uid, p) == None then [InterestRow(uid, p, 0, now)] else [])
  }

  lemma {:induction false} NewRowsLookup(rows: seq<InterestRow>, uid: int, products: seq<int>, now: int, u: int, p: int)
    ensures InterestOf(NewRows(rows, uid, products, now), u, p)
         == if u == uid && p in products && InterestOf(rows, u, p) == None then Some(InterestRow(uid, p, 0, now)) else None
    decreases |products|
  {
    if products != [] {
      var pre := products[..|products| - 1];
      var x := products[|products| - 1];
      assert products == pre + [x];
      NewRowsLookup(rows, uid, pre, now, u, p);
      if InterestOf(rows, uid, x) == None {
        InterestOfAppendTail(NewRows(rows, uid, pre, now), InterestRow(uid, x, 0, now), u, p);
      } else {
        assert NewRows(rows, uid, products, now) == NewRows(rows, uid, pre, now) + [];
        assert NewRows(rows, uid, pre, now) + [] == NewRows(rows, uid, pre, now);
      }
    }
  }

  /** The row a pair has after `record_cart_interest`: the user's cart
      products gain `delta`, a cart product without a row gets a new row of
      score `delta`, and every other pair is untouched. */
  function CartRecorded(before: seq<InterestRow>, uid: int, ids: seq<int>, catalog: map<int, Product>,
                        delta: nat, now: int, u: int, p: int): Option<InterestRow>
  {
    if u == uid && p in ids then
      match InterestOf(before, u, p)
      case Some(r) => Some(r.(score := r.score + delta))
      case None => if p in catalog then Some(InterestRow(uid, p, delta, now)) else None
    else InterestOf(before, u, p)
  }

  /** The rows after `bulk_create(..., ignore_conflicts=True)`: existing
      pairs unchanged, and a zero-score row for each cart product in the
      catalog that had none. */
  ghost predicate CartCreated(before: seq<InterestRow>, mid: seq<InterestRow>, uid: int, ids: seq<int>,
                              catalog: map<int, Product>, now: int) {
    forall u, p :: InterestOf(mid, u, p)
      == if InterestOf(before, u, p).Some? then InterestOf(before, u, p)
         else if u == uid && p in ids && p in catalog then Some(InterestRow(uid, p, 0, now))
         else None
  }

  /** Inserting `to_create` while ignoring conflicts gives that state. */
  lemma CreateMissing(before: seq<InterestRow>, mid: seq<InterestRow>, uid: int, ids: seq<int>,
                      catalog: map<int, Product>, now: int)
    requires forall u, p :: InterestOf(mid, u, p)
               == if InterestOf(before, u, p).Some? then InterestOf(before, u, p)
                  else InterestOf(NewRows(before, uid, InCatalog(catalog, ids), now), u, p)
    ensures CartCreated(before, mid, uid, ids, catalog, now)
  {
    InCatalogFacts(catalog, ids);
    forall u, p ensures InterestOf(mid, u, p)
                        == if InterestOf(before, u, p).Some? then InterestOf(before, u, p)
                           else if u == uid && p in ids && p in catalog then Some(InterestRow(uid, p, 0, now))
                           else None
    {
      NewRowsLookup(before, uid, InCatalog(catalog, ids), now, u, p);
    }
  }

  /** Adding `delta` to the user's cart rows then gives `CartRecorded`. */
  lemma BumpCart(before: seq<InterestRow>, mid: seq<InterestRow>, rows: seq<InterestRow>, uid: int, ids: seq<int>,
                 catalog: map<int, Product>, delta: nat, now: int)
    requires CartCreated(before, mid, uid, ids, catalog, now)
    requires |rows| == |mid| && forall k :: 0 <= k < |mid| ==> rows[k] == Bumped(mid[k], uid, Elems(ids), delta)
    ensures forall u, p :: InterestOf(rows, u, p) == CartRecorded(before, uid, ids, catalog, delta, now, u, p)
  {
    forall u, p ensures InterestOf(rows, u, p) == CartRecorded(before, uid, ids, catalog, delta, now, u, p) {
      InterestOfBumped(mid, rows, uid, Elems(ids), delta, u, p);
    }
  }

  /** `record_cart_interest(user, weight)`: one `bulk_create` of the missing
      rows (no signals), one queryset `update`, then the explicit eviction;
      nothing at all when the cart is empty. */
  method RecordCartInterest(user: User, cart: seq<CartItem>, catalog: map<int, Product>, weight: int, now: int,
                            table: InterestTable, cache: Cache)
    requires table.Valid()
    modifies table, cache
    ensures table.Valid()
    ensures !IsAuthenticated(user) || CartProducts(cart, user.id) == [] ==>
              table.rows == old(table.rows) && cache.entries == old(cache.entries)
    ensures IsAuthenticated(user) && CartProducts(cart, user.id) != [] ==>
              cache.entries == Evict(old(cache.entries), user.id)
    ensures IsAuthenticated(user) ==>
              forall u, p :: InterestOf(table.rows, u, p)
                == CartRecorded(old(table.rows), user.id, CartProducts(cart, user.id), catalog, Increment(weight), now, u, p)
  {
    if !IsAuthenticated(user) {
      return;
    }
    var uid := user.id;
    var productIds := CartProducts(cart, uid);
    if productIds == [] {
      return;
    }
    var products := InCatalog(catalog, productIds);
    ghost var before := table.rows;
    var toCreate := NewRows(table.rows, uid, products, now);
    if toCreate != [] {
      table.BulkCreateIgnoreConflicts(toCreate);
    }
    CreateMissing(before, table.rows, uid, productIds, catalog, now);
    ghost var mid := table.rows;
    table.UpdateAddScore(uid, Elems(productIds), Increment(weight));
    BumpCart(before, mid, table.rows, uid, productIds, catalog, Increment(weight), now);
    InvalidateUserRecsCache(cache, uid, DEFAULT_REC_SIZES);
  }
}
