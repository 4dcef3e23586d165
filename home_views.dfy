/** The home page around the recommendations: the heading of the
    recommended row, and the two "similar products" sections built from
    seed products, which never repeat a product already on the page. */
module HomeViews {
  import opened Common
  import opened Catalog
  import opened RecCache
  import opened ShopModels
  import opened LikeServices
  import Seeds
  import opened Recommendations

  // ---------------------------------------------------------------------
  // The recommended row's heading.

  /** What the subtitle says the recommendations are based on. */
  datatype Basis = CartAndWatchlist | CartOnly | WatchlistOnly | Viewed | Popular

  /** The `if has_cart and has_watchlist ... elif ...` chain. */
  function SubtitleBasis(hasCart: bool, hasWatchlist: bool, hasInterest: bool): (b: Basis)
    ensures (b == CartAndWatchlist || b == CartOnly) <==> hasCart
    ensures (b == CartAndWatchlist || b == WatchlistOnly) <==> hasWatchlist
    ensures b == Viewed <==> !hasCart && !hasWatchlist && hasInterest
    ensures b == Popular <==> !hasCart && !hasWatchlist && !hasInterest
  {
    if hasCart && hasWatchlist then CartAndWatchlist
    else if hasCart then CartOnly
    else if hasWatchlist then WatchlistOnly
    else if hasInterest then Viewed
    else Popular
  }

  const POPULAR_PICKS: string := "Popular picks based on what shoppers are viewing and buying"

  function SubtitleText(b: Basis): string {
    match b
    case CartAndWatchlist => "Based on items in your cart and your watchlist"
    case CartOnly => "Based on items in your cart"
    case WatchlistOnly => "Based on items in your watchlist"
    case Viewed => "Based on what you viewed"
    case Popular => POPULAR_PICKS
  }

  datatype Heading = Heading(title: string, subtitle: string)

  /** The title and subtitle of the recommended row; anonymous visitors
      always see the trending heading. */
  function RecommendedHeading(user: User, hasCart: bool, hasWatchlist: bool, hasInterest: bool): (h: Heading)
    ensures !IsAuthenticated(user) ==> h == Heading("Trending now", POPULAR_PICKS)
    ensures IsAuthenticated(user) ==>
              h == Heading("Recommended for you", SubtitleText(SubtitleBasis(hasCart, hasWatchlist, hasInterest)))
  {
    if IsAuthenticated(user) then Heading("Recommended for you", SubtitleText(SubtitleBasis(hasCart, hasWatchlist, hasInterest)))
    else Heading("Trending now", POPULAR_PICKS)
  }

  // ---------------------------------------------------------------------
  // The watchlist & activity list.

  const WATCH_ACTIVITY_CAP: nat := 30

  /** The loop over liked ids then interest ids: skip ids already taken,
      stop at 30. */
  method WatchlistAndActivity(watchlist: seq<int>, interest: seq<int>) returns (ids: seq<int>)
    ensures ids == Collect(watchlist + interest, {}, WATCH_ACTIVITY_CAP)
  {
    var all := watchlist + interest;
    ids := [];
    var seen: set<int> := {};
    var i := 0;
    while i < |all|
      invariant 0 <= i <= |all|
      invariant ids == Collect(all[..i], {}, WATCH_ACTIVITY_CAP) && seen == {} + Elems(ids)
      invariant |ids| < WATCH_ACTIVITY_CAP
    {
      var pid := all[i];
      IndexStep(all, i, ids, seen, {}, WATCH_ACTIVITY_CAP);
      i := i + 1;
      if pid in seen {
        continue;
      }
      ids := ids + [pid];
      seen := seen + {pid};
      if |ids| >= WATCH_ACTIVITY_CAP {
        break;
      }
    }
    IndexDone(all, i, ids, {}, WATCH_ACTIVITY_CAP);
  }

  /** The merged list has no repeats and at most 30 ids; it starts with the
      liked ids (in order) and only then brings ids that are not liked; and
      when it is short of 30 it holds every id of both lists. */
  lemma WatchlistAndActivityFacts(watchlist: seq<int>, interest: seq<int>)
    ensures var ids := Collect(watchlist + interest, {}, WATCH_ACTIVITY_CAP);
            && NoDup(ids) && |ids| <= WATCH_ACTIVITY_CAP
            && Collect(watchlist, {}, WATCH_ACTIVITY_CAP) <= ids
            && (forall k :: |Collect(watchlist, {}, WATCH_ACTIVITY_CAP)| <= k < |ids| ==> ids[k] !in watchlist)
            && (|ids| < WATCH_ACTIVITY_CAP ==> forall y :: y in watchlist || y in interest ==> y in ids)
  {
    var all := watchlist + interest;
    var ids := Collect(all, {}, WATCH_ACTIVITY_CAP);
    var liked := Collect(watchlist, {}, WATCH_ACTIVITY_CAP);
    CollectFacts(all, {}, WATCH_ACTIVITY_CAP);
    CollectFacts(watchlist, {}, WATCH_ACTIVITY_CAP);
    CollectPrefix(watchlist, all, {}, WATCH_ACTIVITY_CAP);
    if |liked| >= WATCH_ACTIVITY_CAP {
      CollectCapped(watchlist, all, {}, WATCH_ACTIVITY_CAP);
    }
  }

  // ---------------------------------------------------------------------
  // Seed sources.

  /** `recommended_ids[1:] + recommended_ids[:1]`, and `[]` for `[]`. */
  function RotateLeft(s: seq<int>): (r: seq<int>)
    ensures |r| == |s| && multiset(r) == multiset(s)
    ensures forall i :: 0 <= i < |s| ==> r[i] == if i + 1 < |s| then s[i + 1] else s[0]
  {
    if s == [] then []
    else
      assert s == s[..1] + s[1..];
      s[1..] + s[..1]
  }

  /** A list of candidate seed ids under its label (`origin`). */
  datatype Source = Source(origin: string, ids: seq<int>)

  const FROM_CART: string := "From your cart"
  const FROM_WATCHLIST: string := "From your watchlist & activity"
  const RECOMMENDED: string := "Recommended"
  const TRENDING: string := "Trending"
  const POPULAR: string := "Popular"

  /** The seed sources of the page: for a signed-in user the cart's
      products, then the watchlist & activity list, and the recommendations
      only when both are empty; for a visitor the recommendations and their
      rotation by one. */
  function HomeSources(user: User, cartIds: seq<int>, watchlistIds: seq<int>, interestIds: seq<int>, recommended: seq<int>)
    : seq<Source>
  {
    if !IsAuthenticated(user) then [Source(TRENDING, recommended), Source(TRENDING, RotateLeft(recommended))]
    else
      var merged := Collect(watchlistIds + interestIds, {}, WATCH_ACTIVITY_CAP);
      (if cartIds != [] then [Source(FROM_CART, cartIds)] else [])
      + (if merged != [] then [Source(FROM_WATCHLIST, merged)] else [])
      + (if cartIds == [] && merged == [] then [Source(RECOMMENDED, recommended)] else [])
  }

  /** `seed_sources`: the cart's products and the watchlist & activity list
      for a signed-in user (the recommendations when both are empty); for a
      visitor the recommendations and their rotation by one. */
  method SeedSources(user: User, cartIds: seq<int>, watchlistIds: seq<int>, interestIds: seq<int>, recommended: seq<int>)
    returns (sources: seq<Source>)
    ensures !IsAuthenticated(user) ==> sources == [Source(TRENDING, recommended), Source(TRENDING, RotateLeft(recommended))]
    ensures IsAuthenticated(user) ==>
              var merged := Collect(watchlistIds + interestIds, {}, WATCH_ACTIVITY_CAP);
              sources == (if cartIds != [] then [Source(FROM_CART, cartIds)] else [])
                         + (if merged != [] then [Source(FROM_WATCHLIST, merged)] else [])
                         + (if cartIds == [] && merged == [] then [Source(RECOMMENDED, recommended)] else [])
    ensures 1 <= |sources| <= 2
    ensures sources == HomeSources(user, cartIds, watchlistIds, interestIds, recommended)
  {
    if !IsAuthenticated(user) {
      var shifted := RotateLeft(recommended);
      return [Source(TRENDING, recommended), Source(TRENDING, shifted)];
    }
    sources := [];
    if cartIds != [] {
      sources := sources + [Source(FROM_CART, cartIds)];
    }
    var merged := WatchlistAndActivity(watchlistIds, interestIds);
    if merged != [] {
      sources := sources + [Source(FROM_WATCHLIST, merged)];
    }
    if sources == [] {
      sources := sources + [Source(RECOMMENDED, recommended)];
    }
  }

  // ---------------------------------------------------------------------
  // Seed picking.

  /** A seed product under the label of the source it came from. */
  datatype HomeSeed = HomeSeed(origin: string, product: int)

  /** `product.category_id` is truthy: the product exists and has a category
      whose id is not 0. */
  predicate HasCategory(catalog: map<int, Product>, p: int) {
    p in catalog && catalog[p].category.Some? && catalog[p].category.value != 0
  }

  function Labelled(src: Source): (r: seq<HomeSeed>)
    ensures |r| == |src.ids|
    ensures forall i :: 0 <= i < |r| ==> r[i] == HomeSeed(src.origin, src.ids[i])
  {
    seq(|src.ids|, i requires 0 <= i < |src.ids| => HomeSeed(src.origin, src.ids[i]))
  }

  /** Every source's ids in turn, each under its source's label. */
  function Flat(sources: seq<Source>): seq<HomeSeed>
    decreases |sources|
  {
    if sources == [] then [] else Flat(sources[..|sources| - 1]) + Labelled(sources[|sources| - 1])
  }

  lemma {:induction false} FlatPrefix(sources: seq<Source>, s: nat, t: nat)
    requires s <= t <= |sources|
    ensures Flat(sources[..s]) <= Flat(sources[..t])
    decreases t
  {
    if s < t {
      FlatPrefix(sources, s, t - 1);
      assert sources[..t][..t - 1] == sources[..t - 1];
    } else {
      assert sources[..s] == sources[..t];
    }
  }

  function SeedProducts(seeds: seq<HomeSeed>): set<int> {
    set s | s in seeds :: s.product
  }

  const SEED_COUNT: nat := 2

  /** The seeds the first loop takes from the candidates, in order: an id not
      taken yet whose product has a category, until two are taken. */
  function Picked(catalog: map<int, Product>, cands: seq<HomeSeed>): seq<HomeSeed>
    decreases |cands|
  {
    if cands == [] then []
    else
      var r0 := Picked(catalog, cands[..|cands| - 1]);
      var c := cands[|cands| - 1];
      if |r0| >= SEED_COUNT || c.product in SeedProducts(r0) || !HasCategory(catalog, c.product) then r0
      else r0 + [c]
  }

  lemma PickedSnoc(catalog: map<int, Product>, visited: seq<HomeSeed>, c: HomeSeed)
    ensures Picked(catalog, visited + [c])
         == var r0 := Picked(catalog, visited);
            if |r0| >= SEED_COUNT || c.product in SeedProducts(r0) || !HasCategory(catalog, c.product) then r0 else r0 + [c]
  {
    assert (visited + [c])[..|visited|] == visited;
  }

  /** One visit of the inner loop. */
  lemma PickStep(catalog: map<int, Product>, visited: seq<HomeSeed>, c: HomeSeed, seeds: seq<HomeSeed>, seen: set<int>)
    requires seeds == Picked(catalog, visited) && |seeds| < SEED_COUNT && seen == SeedProducts(seeds)
    ensures Picked(catalog, visited + [c])
         == if c.product in seen || !HasCategory(catalog, c.product) then seeds else seeds + [c]
    ensures seen + {c.product} == SeedProducts(seeds + [c])
  {
    PickedSnoc(catalog, visited, c);
    SeedProductsSnoc(seeds, c);
  }

  /** `PickStep` at the `j`-th candidate of a source. */
  lemma ScanStep(catalog: map<int, Product>, visited: seq<HomeSeed>, cands: seq<HomeSeed>, j: nat,
                 seeds: seq<HomeSeed>, seen: set<int>)
    requires j < |cands|
    requires seeds == Picked(catalog, visited + cands[..j]) && |seeds| < SEED_COUNT && seen == SeedProducts(seeds)
    ensures Picked(catalog, visited + cands[..j + 1])
         == if cands[j].product in seen || !HasCategory(catalog, cands[j].product) then seeds else seeds + [cands[j]]
    ensures seen + {cands[j].product} == SeedProducts(seeds + [cands[j]])
  {
    assert visited + cands[..j + 1] == visited + cands[..j] + [cands[j]];
    PickStep(catalog, visited + cands[..j], cands[j], seeds, seen);
  }

  /** Once two seeds are taken, later candidates change nothing. */
  lemma {:induction false} PickedCapped(catalog: map<int, Product>, xs: seq<HomeSeed>, ys: seq<HomeSeed>)
    requires xs <= ys && |Picked(catalog, xs)| >= SEED_COUNT
    ensures Picked(catalog, ys) == Picked(catalog, xs)
    decreases |ys|
  {
    if |ys| > |xs| {
      assert xs <= ys[..|ys| - 1];
      PickedCapped(catalog, xs, ys[..|ys| - 1]);
    } else {
      assert xs == ys;
    }
  }

  /** At most two seeds, with distinct ids, each with a category, in the
      candidates' order; fewer than two only when no other candidate has a
      category. */
  lemma {:induction false} PickedFacts(catalog: map<int, Product>, cands: seq<HomeSeed>)
    ensures var r := Picked(catalog, cands);
            && |r| <= SEED_COUNT
            && (forall i, j :: 0 <= i < j < |r| ==> r[i].product != r[j].product)
            && (forall s :: s in r ==> HasCategory(catalog, s.product))
            && IsSubseq(r, cands)
            && (|r| < SEED_COUNT ==> forall c :: c in cands && HasCategory(catalog, c.product) ==> c.product in SeedProducts(r))
    decreases |cands|
  {
    if cands != [] {
      var pre := cands[..|cands| - 1];
      var c := cands[|cands| - 1];
      assert cands == pre + [c];
      PickedFacts(catalog, pre);
      var r0 := Picked(catalog, pre);
      if |r0| >= SEED_COUNT || c.product in SeedProducts(r0) || !HasCategory(catalog, c.product) {
        SubseqExtend(r0, pre, c);
      } else {
        SubseqAppendBoth(r0, pre, c);
        var r := r0 + [c];
        forall i, j | 0 <= i < j < |r| ensures r[i].product != r[j].product {
          if j == |r0| {
            assert r[i] in r0;
          }
        }
        assert SeedProducts(r) == SeedProducts(r0) + {c.product};
      }
    }
  }

  /** Leaving the inner loop, with two seeds or at the end of the source. */
  lemma ScanDone(catalog: map<int, Product>, visited: seq<HomeSeed>, cands: seq<HomeSeed>, j: nat)
    requires j <= |cands|
    requires |Picked(catalog, visited + cands[..j])| >= SEED_COUNT || j == |cands|
    ensures Picked(catalog, visited + cands) == Picked(catalog, visited + cands[..j])
  {
    if j == |cands| {
      assert cands[..j] == cands;
    } else {
      assert visited + cands[..j] <= visited + cands;
      PickedCapped(catalog, visited + cands[..j], visited + cands);
    }
  }

  /** The inner loop over one source's ids. */
  method ScanSource(src: Source, ghost visited: seq<HomeSeed>, seeds: seq<HomeSeed>, seen: set<int>, catalog: map<int, Product>)
    returns (seeds': seq<HomeSeed>, seen': set<int>)
    requires seeds == Picked(catalog, visited) && |seeds| < SEED_COUNT && seen == SeedProducts(seeds)
    ensures seeds' == Picked(catalog, visited + Labelled(src)) && seen' == SeedProducts(seeds')
  {
    seeds', seen' := seeds, seen;
    ghost var cands := Labelled(src);
    var j := 0;
    assert visited + cands[..0] == visited;
    while j < |src.ids|
      invariant 0 <= j <= |src.ids|
      invariant seeds' == Picked(catalog, visited + cands[..j]) && seen' == SeedProducts(seeds')
      invariant |seeds'| < SEED_COUNT
    {
      var productId := src.ids[j];
      ScanStep(catalog, visited, cands, j, seeds', seen');
      if productId !in seen' && productId in catalog && HasCategory(catalog, productId) {
        seeds' := seeds' + [HomeSeed(src.origin, productId)];
        seen' := seen' + {productId};
      }
      j := j + 1;
      if |seeds'| >= SEED_COUNT {
        break;
      }
    }
    ScanDone(catalog, visited, cands, j);
  }

  /** The loop over the seed sources, stopping at two seeds. */
  method PickSeeds(sources: seq<Source>, catalog: map<int, Product>) returns (seeds: seq<HomeSeed>)
    ensures seeds == Picked(catalog, Flat(sources))
  {
    seeds := [];
    var seen: set<int> := {};
    var s := 0;
    while s < |sources|
      invariant 0 <= s <= |sources|
      invariant seeds == Picked(catalog, Flat(sources[..s])) && seen == SeedProducts(seeds)
      invariant |seeds| < SEED_COUNT
    {
      assert sources[..s + 1][..s] == sources[..s];
      seeds, seen := ScanSource(sources[s], Flat(sources[..s]), seeds, seen, catalog);
      s := s + 1;
      if |seeds| >= SEED_COUNT {
        break;
      }
    }
    if |seeds| >= SEED_COUNT {
      FlatPrefix(sources, s, |sources|);
      assert sources[..|sources|] == sources;
      PickedCapped(catalog, Flat(sources[..s]), Flat(sources));
    } else {
      assert sources[..s] == sources;
    }
  }

  /** A product of category `cat` that is not recommended. */
  predicate InCategoryOutside(catalog: map<int, Product>, cat: nat, recommended: set<int>, p: int) {
    p in catalog && catalog[p].category == Some(cat) && p !in recommended
  }

  /** The newest product of category `cat` (by `-updated_at`) that is not
      recommended. */
  function FirstInCategory(catalog: map<int, Product>, byUpdated: seq<int>, cat: nat, recommended: set<int>): (r: Option<int>)
    ensures r.Some? ==> r.value in byUpdated && r.value in catalog && catalog[r.value].category == Some(cat)
                        && r.value !in recommended
    ensures r.None? ==> forall p :: p in byUpdated && p in catalog && catalog[p].category == Some(cat) ==> p in recommended
    decreases |byUpdated|
  {
    if byUpdated == [] then None
    else
      var p := byUpdated[0];
      if InCategoryOutside(catalog, cat, recommended, p) then Some(p)
      else
        var r := FirstInCategory(catalog, byUpdated[1..], cat, recommended);
        assert forall q :: q in byUpdated ==> q == p || q in byUpdated[1..];
        r
  }

  /** The product found is the newest such one: it stands at or before any
      position of `byUpdated` holding a product of `cat` outside the
      recommendations. */
  lemma {:induction false} FirstInCategoryIsNewest(catalog: map<int, Product>, byUpdated: seq<int>, cat: nat,
                                                   recommended: set<int>, i: int)
    requires 0 <= i < |byUpdated| && InCategoryOutside(catalog, cat, recommended, byUpdated[i])
    ensures var r := FirstInCategory(catalog, byUpdated, cat, recommended);
            r.Some? && r.value in byUpdated[..i + 1]
    decreases |byUpdated|
  {
    var p := byUpdated[0];
    assert byUpdated[..i + 1] == [p] + byUpdated[1..i + 1];
    if !InCategoryOutside(catalog, cat, recommended, p) {
      FirstInCategoryIsNewest(catalog, byUpdated[1..], cat, recommended, i - 1);
      assert byUpdated[1..][..i] == byUpdated[1..i + 1];
    }
  }

  /** The seeds after the "Popular" filler: one per listed category that has
      a product outside the recommendations, until there are two. */
  function Filled(catalog: map<int, Product>, byUpdated: seq<int>, seeds: seq<HomeSeed>, cats: seq<nat>, recommended: set<int>)
    : seq<HomeSeed>
    decreases |cats|
  {
    if cats == [] then seeds
    else
      var r0 := Filled(catalog, byUpdated, seeds, cats[..|cats| - 1], recommended);
      if |r0| >= SEED_COUNT then r0
      else
        match FirstInCategory(catalog, byUpdated, cats[|cats| - 1], recommended)
        case None => r0
        case Some(p) => r0 + [HomeSeed(POPULAR, p)]
  }

  lemma {:induction false} FilledCapped(catalog: map<int, Product>, byUpdated: seq<int>, seeds: seq<HomeSeed>,
                                        xs: seq<nat>, ys: seq<nat>, recommended: set<int>)
    requires xs <= ys && |Filled(catalog, byUpdated, seeds, xs, recommended)| >= SEED_COUNT
    ensures Filled(catalog, byUpdated, seeds, ys, recommended) == Filled(catalog, byUpdated, seeds, xs, recommended)
    decreases |ys|
  {
    if |ys| > |xs| {
      assert xs <= ys[..|ys| - 1];
      FilledCapped(catalog, byUpdated, seeds, xs, ys[..|ys| - 1], recommended);
    } else {
      assert xs == ys;
    }
  }

  /** The filler keeps the picked seeds, stops at two, and adds only
      "Popular" products that have a category and are not recommended. */
  lemma {:induction false} FilledFacts(catalog: map<int, Product>, byUpdated: seq<int>, seeds: seq<HomeSeed>,
                                       cats: seq<nat>, recommended: set<int>)
    requires |seeds| <= SEED_COUNT
    ensures var r := Filled(catalog, byUpdated, seeds, cats, recommended);
            && seeds <= r && |r| <= SEED_COUNT
            && (forall i :: |seeds| <= i < |r| ==>
                  r[i].origin == POPULAR && r[i].product in catalog && catalog[r[i].product].category.Some?
                  && r[i].product !in recommended)
    decreases |cats|
  {
    if cats != [] {
      FilledFacts(catalog, byUpdated, seeds, cats[..|cats| - 1], recommended);
    }
  }

  /** The filler does not skip seeds already taken: a lone picked seed that
      is also its category's newest product outside the recommendations is
      seeded a second time, as "Popular". */
  lemma FillerMayRepeatSeed(catalog: map<int, Product>, byUpdated: seq<int>, origin: string, p: int, cat: nat,
                            recommended: set<int>)
    requires HasCategory(catalog, p) && catalog[p].category == Some(cat)
    requires FirstInCategory(catalog, byUpdated, cat, recommended) == Some(p)
    ensures Filled(catalog, byUpdated, Picked(catalog, Flat([Source(origin, [p])])), [cat], recommended)
            == [HomeSeed(origin, p), HomeSeed(POPULAR, p)]
  {
    var src := Source(origin, [p]);
    var c := HomeSeed(origin, p);
    assert [src][..0] == [];
    assert Labelled(src) == [c];
    assert Flat([src]) == [c];
    assert [] + [c] == [c];
    PickedSnoc(catalog, [], c);
    assert Picked(catalog, [c]) == [c];
    assert [cat][..0] == [];
    assert Filled(catalog, byUpdated, [c], [], recommended) == [c];
  }

  /** `if len(seed_products) < 2:` the loop over the popular categories. */
  method FillSeeds(catalog: map<int, Product>, byUpdated: seq<int>, seeds: seq<HomeSeed>, cats: seq<nat>, recommended: set<int>)
    returns (seeds': seq<HomeSeed>)
    requires |seeds| < SEED_COUNT
    ensures seeds' == Filled(catalog, byUpdated, seeds, cats, recommended)
  {
    seeds' := seeds;
    var i := 0;
    while i < |cats|
      invariant 0 <= i <= |cats|
      invariant seeds' == Filled(catalog, byUpdated, seeds, cats[..i], recommended)
      invariant |seeds'| < SEED_COUNT
    {
      assert cats[..i + 1][..i] == cats[..i];
      var product := FirstInCategory(catalog, byUpdated, cats[i], recommended);
      i := i + 1;
      if product.None? {
        continue;
      }
      seeds' := seeds' + [HomeSeed(POPULAR, product.value)];
      if |seeds'| >= SEED_COUNT {
        break;
      }
    }
    if |seeds'| >= SEED_COUNT {
      FilledCapped(catalog, byUpdated, seeds, cats[..i], cats, recommended);
    } else {
      assert cats[..i] == cats;
    }
  }

  // ---------------------------------------------------------------------
  // Sections.

  const SIMILAR_LIMIT: nat := 4

  /** In-stock products of category `cat` outside `exclude`, newest first. */
  function SameCategory(catalog: map<int, Product>, byUpdated: seq<int>, cat: nat, exclude: set<int>): (r: seq<int>)
    ensures forall p :: p in r <==>
              p in byUpdated && InStock(catalog, p) && catalog[p].category == Some(cat) && p !in exclude
    ensures NoDup(byUpdated) ==> NoDup(r)
    ensures IsSubseq(r, byUpdated)
    decreases |byUpdated|
  {
    if byUpdated == [] then []
    else
      var pre := byUpdated[..|byUpdated| - 1];
      var p := byUpdated[|byUpdated| - 1];
      var r0 := SameCategory(catalog, pre, cat, exclude);
      assert byUpdated == pre + [p];
      NoDupSnoc(pre, p);
      if InStock(catalog, p) && catalog[p].category == Some(cat) && p !in exclude then
        NoDupSnoc(r0, p);
        SubseqAppendBoth(r0, pre, p);
        r0 + [p]
      else
        SubseqExtend(r0, pre, p);
        r0
  }

  /** `_similar_products(seed, exclude_ids=exclude, limit=limit)`. */
  function SimilarProducts(catalog: map<int, Product>, byUpdated: seq<int>, seed: int, exclude: set<int>, limit: nat)
    : seq<int>
  {
    if !HasCategory(catalog, seed) then []
    else Take(SameCategory(catalog, byUpdated, catalog[seed].category.value, exclude), limit)
  }

  /** Nothing for a seed without a category; otherwise at most `limit`
      in-stock products of the seed's category outside `exclude`, the newest
      ones: in `-updated_at` order, the first of all such products, and
      fewer than `limit` only when there are no more. */
  lemma SimilarFacts(catalog: map<int, Product>, byUpdated: seq<int>, seed: int, exclude: set<int>, limit: nat)
    ensures var r := SimilarProducts(catalog, byUpdated, seed, exclude, limit);
            && (!HasCategory(catalog, seed) ==> r == [])
            && |r| <= limit
            && (forall p :: p in r ==>
                  p in catalog && InStock(catalog, p) && catalog[p].category == catalog[seed].category
                  && p !in exclude && p in byUpdated)
            && (NoDup(byUpdated) ==> NoDup(r))
            && (HasCategory(catalog, seed) && |r| < limit ==>
                  forall p :: (p in byUpdated && InStock(catalog, p) && catalog[p].category == catalog[seed].category
                               && p !in exclude) ==> p in r)
            && IsSubseq(r, byUpdated)
            && (HasCategory(catalog, seed) ==>
                  r == SameCategory(catalog, byUpdated, catalog[seed].category.value, exclude)[..|r|])
  {
    if HasCategory(catalog, seed) {
      var all := SameCategory(catalog, byUpdated, catalog[seed].category.value, exclude);
      var r := Take(all, limit);
      assert forall i :: 0 <= i < |r| ==> r[i] == all[i];
      assert forall p :: p in r ==> p in all;
      SubseqPrefix(all, byUpdated, |r|);
      assert r == all[..|r|];
    }
  }

  function SimilarTitle(origin: string, name: string): string {
    origin + ": Similar to " + name
  }

  function MoreTitle(origin: string, name: string): string {
    origin + ": More like " + name
  }

  /** A title already used is replaced by the "More like" variant. */
  function Title(origin: string, name: string, used: set<string>): string {
    if SimilarTitle(origin, name) in used then MoreTitle(origin, name) else SimilarTitle(origin, name)
  }

  /** With at most one title used, the chosen title is new. */
  lemma TitleFresh(origin: string, name: string, used: set<string>)
    requires |used| <= 1
    ensures Title(origin, name, used) !in used
  {
    var similar, more := SimilarTitle(origin, name), MoreTitle(origin, name);
    if similar in used {
      assert |used - {similar}| == 0;
      assert used == {similar} by {
        forall t | t in used ensures t == similar {
        }
      }
      assert more[|origin| + 2] == 'M' && similar[|origin| + 2] == 'S';
    }
  }

  const SUBTITLE_BY_LABEL: map<string, string> := map[
    FROM_CART := "Because it\U{2019}s in your cart",
    FROM_WATCHLIST := "Because you liked it or viewed it",
    "Because you bought" := "Based on your purchases",
    RECOMMENDED := "Based on your activity",
    TRENDING := "Popular right now",
    POPULAR := "Popular in this category"
  ]

  /** `subtitle_by_label.get(label)`. */
  function SubtitleFor(origin: string): Option<string> {
    if origin in SUBTITLE_BY_LABEL then Some(SUBTITLE_BY_LABEL[origin]) else None
  }

  /** Every seed's product exists and has a category. */
  predicate Seedable(catalog: map<int, Product>, seeds: seq<HomeSeed>) {
    forall i :: 0 <= i < |seeds| ==> seeds[i].product in catalog && catalog[seeds[i].product].category.Some?
  }

  /** The state of the section loop: sections so far, `exclude_ids` and
      `used_titles`. */
  datatype Build = Build(sections: seq<SectionPayload>, exclude: set<int>, used: set<string>)

  /** One turn of the section loop for seed `s`. */
  function Step(catalog: map<int, Product>, byUpdated: seq<int>, b: Build, s: HomeSeed): Build
    requires s.product in catalog && catalog[s.product].category.Some?
  {
    var product := catalog[s.product];
    var exclude := b.exclude + {s.product};
    var products := SimilarProducts(catalog, byUpdated, s.product, exclude, SIMILAR_LIMIT);
    var title := Title(s.origin, product.name, b.used);
    Build(b.sections + [SectionPayload(title, product.category.value, s.product, SubtitleFor(s.origin), products)],
          exclude + Elems(products), b.used + {title})
  }

  /** The section loop over `seeds`, starting from the recommended ids. */
  function Built(catalog: map<int, Product>, byUpdated: seq<int>, seeds: seq<HomeSeed>, recommended: seq<int>): Build
    requires Seedable(catalog, seeds)
    decreases |seeds|
  {
    if seeds == [] then Build([], Elems(recommended), {})
    else Step(catalog, byUpdated, Built(catalog, byUpdated, seeds[..|seeds| - 1], recommended), seeds[|seeds| - 1])
  }

  /** Every product shown in the sections. */
  function Shown(sections: seq<SectionPayload>): set<int>
    decreases |sections|
  {
    if sections == [] then {} else Shown(sections[..|sections| - 1]) + Elems(sections[|sections| - 1].productIds)
  }

  lemma {:induction false} ShownMember(sections: seq<SectionPayload>, i: nat, p: int)
    requires i < |sections| && p in sections[i].productIds
    ensures p in Shown(sections)
    decreases |sections|
  {
    if i < |sections| - 1 {
      ShownMember(sections[..|sections| - 1], i, p);
    }
  }

  lemma ShownSnoc(pre: seq<SectionPayload>, s: SectionPayload)
    ensures Shown(pre + [s]) == Shown(pre) + Elems(s.productIds)
  {
    assert (pre + [s])[..|pre|] == pre;
  }

  function Titles(sections: seq<SectionPayload>): set<string> {
    set s | s in sections :: s.title
  }

  lemma TitlesSnoc(pre: seq<SectionPayload>, s: SectionPayload)
    ensures Titles(pre + [s]) == Titles(pre) + {s.title}
  {
    assert forall t :: t in pre + [s] <==> t in pre || t == s;
  }

  lemma SeedProductsSnoc(pre: seq<HomeSeed>, s: HomeSeed)
    ensures SeedProducts(pre + [s]) == SeedProducts(pre) + {s.product}
  {
  }

  /** Section `sec` is about seed `s`: its product, category and label's
      subtitle, with at most four in-stock products of that category. */
  ghost predicate AboutSeed(catalog: map<int, Product>, s: HomeSeed, sec: SectionPayload) {
    && s.product in catalog
    && sec.seedProductId == s.product
    && Some(sec.categoryId) == catalog[s.product].category
    && sec.subtitle == SubtitleFor(s.origin)
    && |sec.productIds| <= SIMILAR_LIMIT
    && (forall p :: p in sec.productIds ==> p in catalog && InStock(catalog, p) && catalog[p].category == catalog[s.product].category)
  }

  /** No product is shown in two sections. */
  ghost predicate Disjoint(sections: seq<SectionPayload>) {
    forall i, j, p :: 0 <= i < j < |sections| && p in sections[i].productIds ==> p !in sections[j].productIds
  }

  /** The bookkeeping part of the section loop's invariant: one section
      per seed, about that seed; `exclude_ids` is everything on the page so
      far and `used_titles` the titles so far. */
  ghost predicate ShapeInv(catalog: map<int, Product>, recommended: seq<int>, seeds: seq<HomeSeed>, b: Build) {
    && |b.sections| == |seeds|
    && b.exclude == Elems(recommended) + SeedProducts(seeds) + Shown(b.sections)
    && b.used == Titles(b.sections)
    && (forall i :: 0 <= i < |seeds| ==> AboutSeed(catalog, seeds[i], b.sections[i]))
  }

  /** No section shows a recommended product, its own seed or an earlier
      seed. */
  ghost predicate FreshInv(recommended: seq<int>, seeds: seq<HomeSeed>, b: Build)
    requires |b.sections| == |seeds|
  {
    forall i, p :: 0 <= i < |seeds| && p in b.sections[i].productIds ==>
      p !in recommended && forall j :: 0 <= j <= i ==> p != seeds[j].product
  }

  /** One instance of `FreshInv`: product `p` of section `i` is neither
      recommended nor the seed of section `j <= i`. */
  lemma FreshAt(recommended: seq<int>, seeds: seq<HomeSeed>, b: Build, i: int, p: int, j: int)
    requires |b.sections| == |seeds| && FreshInv(recommended, seeds, b)
    requires 0 <= j <= i < |seeds| && p in b.sections[i].productIds
    ensures p !in recommended && p != seeds[j].product
  {
  }

  /** What the section loop keeps true. */
  ghost predicate SectionsInv(catalog: map<int, Product>, recommended: seq<int>, seeds: seq<HomeSeed>, b: Build) {
    ShapeInv(catalog, recommended, seeds, b) && FreshInv(recommended, seeds, b) && Disjoint(b.sections)
  }

  /** The new section is about its seed and avoids everything excluded. */
  lemma StepLast(catalog: map<int, Product>, byUpdated: seq<int>, b: Build, s: HomeSeed)
    requires s.product in catalog && catalog[s.product].category.Some?
    ensures var b' := Step(catalog, byUpdated, b, s);
            && b'.sections == b.sections + [b'.sections[|b.sections|]]
            && AboutSeed(catalog, s, b'.sections[|b.sections|])
            && (forall p :: p in b'.sections[|b.sections|].productIds ==> p !in b.exclude && p != s.product)
            && b'.exclude == b.exclude + {s.product} + Elems(b'.sections[|b.sections|].productIds)
            && b'.used == b.used + {b'.sections[|b.sections|].title}
  {
    SimilarFacts(catalog, byUpdated, s.product, b.exclude + {s.product}, SIMILAR_LIMIT);
  }

  /** The bookkeeping invariant survives appending a section about `s`. */
  lemma ShapeSnoc(catalog: map<int, Product>, recommended: seq<int>, seeds: seq<HomeSeed>, b: Build, s: HomeSeed,
                  last: SectionPayload, b': Build)
    requires ShapeInv(catalog, recommended, seeds, b)
    requires b'.sections == b.sections + [last] && AboutSeed(catalog, s, last)
    requires b'.exclude == b.exclude + {s.product} + Elems(last.productIds)
    requires b'.used == b.used + {last.title}
    ensures ShapeInv(catalog, recommended, seeds + [s], b')
  {
    ShownSnoc(b.sections, last);
    SeedProductsSnoc(seeds, s);
    TitlesSnoc(b.sections, last);
    AboutSnoc(catalog, seeds, b.sections, s, last);
  }

  lemma AboutSnoc(catalog: map<int, Product>, seeds: seq<HomeSeed>, sections: seq<SectionPayload>,
                  s: HomeSeed, last: SectionPayload)
    requires |sections| == |seeds| && AboutSeed(catalog, s, last)
    requires forall i :: 0 <= i < |seeds| ==> AboutSeed(catalog, seeds[i], sections[i])
    ensures forall i :: 0 <= i < |seeds| + 1 ==> AboutSeed(catalog, (seeds + [s])[i], (sections + [last])[i])
  {
    forall i | 0 <= i < |seeds| + 1 ensures AboutSeed(catalog, (seeds + [s])[i], (sections + [last])[i]) {
      if i < |seeds| {
        assert (seeds + [s])[i] == seeds[i] && (sections + [last])[i] == sections[i];
      }
    }
  }

  lemma StepShape(catalog: map<int, Product>, byUpdated: seq<int>, recommended: seq<int>, seeds: seq<HomeSeed>,
                  b: Build, s: HomeSeed)
    requires s.product in catalog && catalog[s.product].category.Some?
    requires ShapeInv(catalog, recommended, seeds, b)
    ensures ShapeInv(catalog, recommended, seeds + [s], Step(catalog, byUpdated, b, s))
  {
    var b' := Step(catalog, byUpdated, b, s);
    StepLast(catalog, byUpdated, b, s);
    ShapeSnoc(catalog, recommended, seeds, b, s, b'.sections[|b.sections|], b');
  }

  lemma StepFresh(catalog: map<int, Product>, byUpdated: seq<int>, recommended: seq<int>, seeds: seq<HomeSeed>,
                  b: Build, s: HomeSeed)
    requires s.product in catalog && catalog[s.product].category.Some?
    requires ShapeInv(catalog, recommended, seeds, b) && FreshInv(recommended, seeds, b)
    ensures |Step(catalog, byUpdated, b, s).sections| == |seeds + [s]|
    ensures FreshInv(recommended, seeds + [s], Step(catalog, byUpdated, b, s))
  {
    var b' := Step(catalog, byUpdated, b, s);
    var seeds' := seeds + [s];
    StepLast(catalog, byUpdated, b, s);
    forall i, p | 0 <= i < |seeds'| && p in b'.sections[i].productIds
      ensures p !in recommended && forall j :: 0 <= j <= i ==> p != seeds'[j].product
    {
      if i == |seeds| {
        assert b'.sections[i] == b'.sections[|b.sections|];
        assert p !in b.exclude;
        assert p in recommended ==> p in Elems(recommended);
        forall j | 0 <= j < i ensures p != seeds'[j].product {
          assert seeds'[j] == seeds[j] && seeds[j] in seeds;
        }
      } else {
        assert b'.sections[i] == b.sections[i];
        forall j | 0 <= j <= i ensures p !in recommended && p != seeds'[j].product {
          assert seeds'[j] == seeds[j];
          FreshAt(recommended, seeds, b, i, p, j);
        }
        FreshAt(recommended, seeds, b, i, p, i);
      }
    }
    assert FreshInv(recommended, seeds', b');
  }

  lemma StepDisjoint(catalog: map<int, Product>, byUpdated: seq<int>, recommended: seq<int>, seeds: seq<HomeSeed>,
                     b: Build, s: HomeSeed)
    requires s.product in catalog && catalog[s.product].category.Some?
    requires ShapeInv(catalog, recommended, seeds, b) && Disjoint(b.sections)
    ensures Disjoint(Step(catalog, byUpdated, b, s).sections)
  {
    var b' := Step(catalog, byUpdated, b, s);
    StepLast(catalog, byUpdated, b, s);
    forall i, j, p | 0 <= i < j < |b'.sections| && p in b'.sections[i].productIds
      ensures p !in b'.sections[j].productIds
    {
      assert b'.sections[i] == b.sections[i];
      if j == |b.sections| {
        ShownMember(b.sections, i, p);
      } else {
        assert b'.sections[j] == b.sections[j];
      }
    }
  }

  /** One turn of the loop keeps the invariant. */
  lemma StepKeeps(catalog: map<int, Product>, byUpdated: seq<int>, recommended: seq<int>, seeds: seq<HomeSeed>,
                  b: Build, s: HomeSeed)
    requires s.product in catalog && catalog[s.product].category.Some?
    requires SectionsInv(catalog, recommended, seeds, b)
    ensures SectionsInv(catalog, recommended, seeds + [s], Step(catalog, byUpdated, b, s))
  {
    StepShape(catalog, byUpdated, recommended, seeds, b, s);
    StepFresh(catalog, byUpdated, recommended, seeds, b, s);
    StepDisjoint(catalog, byUpdated, recommended, seeds, b, s);
  }

  /** The loop's invariant holds of what it builds. */
  lemma {:induction false} BuiltFacts(catalog: map<int, Product>, byUpdated: seq<int>, seeds: seq<HomeSeed>, recommended: seq<int>)
    requires Seedable(catalog, seeds)
    ensures SectionsInv(catalog, recommended, seeds, Built(catalog, byUpdated, seeds, recommended))
    decreases |seeds|
  {
    if seeds != [] {
      var pre, s := seeds[..|seeds| - 1], seeds[|seeds| - 1];
      var b0 := Built(catalog, byUpdated, pre, recommended);
      assert seeds == pre + [s];
      assert Built(catalog, byUpdated, seeds, recommended) == Step(catalog, byUpdated, b0, s);
      BuiltFacts(catalog, byUpdated, pre, recommended);
      StepKeeps(catalog, byUpdated, recommended, pre, b0, s);
    }
  }

  /** The two sections never share a title. */
  lemma {:induction false} BuiltTitlesDistinct(catalog: map<int, Product>, byUpdated: seq<int>, seeds: seq<HomeSeed>,
                                               recommended: seq<int>)
    requires Seedable(catalog, seeds) && |seeds| <= SEED_COUNT
    ensures var b := Built(catalog, byUpdated, seeds, recommended);
            |b.used| == |seeds|
            && forall i, j :: 0 <= i < j < |b.sections| ==> b.sections[i].title != b.sections[j].title
    decreases |seeds|
  {
    if seeds != [] {
      var pre := seeds[..|seeds| - 1];
      var s := seeds[|seeds| - 1];
      BuiltTitlesDistinct(catalog, byUpdated, pre, recommended);
      BuiltFacts(catalog, byUpdated, pre, recommended);
      var b0 := Built(catalog, byUpdated, pre, recommended);
      var b := Step(catalog, byUpdated, b0, s);
      TitleFresh(s.origin, catalog[s.product].name, b0.used);
      assert b.sections[..|b0.sections|] == b0.sections;
      forall i, j | 0 <= i < j < |b.sections| ensures b.sections[i].title != b.sections[j].title {
        if j == |b0.sections| {
          assert b.sections[i] in b0.sections;
        }
      }
    }
  }

  /** One more seed extends the built sections by one `Step`. */
  lemma BuiltSnoc(catalog: map<int, Product>, byUpdated: seq<int>, taken: seq<HomeSeed>, i: nat, recommended: seq<int>)
    requires Seedable(catalog, taken) && i < |taken|
    ensures Seedable(catalog, taken[..i]) && Seedable(catalog, taken[..i + 1])
    ensures taken[i].product in catalog && catalog[taken[i].product].category.Some?
    ensures Built(catalog, byUpdated, taken[..i + 1], recommended)
         == Step(catalog, byUpdated, Built(catalog, byUpdated, taken[..i], recommended), taken[i])
  {
    assert taken[..i + 1][..i] == taken[..i];
  }

  /** The section loop: `for label, seed in seed_products[:2]`. */
  method BuildSections(catalog: map<int, Product>, byUpdated: seq<int>, seeds: seq<HomeSeed>, recommended: seq<int>)
    returns (sections: seq<SectionPayload>, exclude: set<int>)
    requires Seedable(catalog, seeds)
    ensures var b := Built(catalog, byUpdated, Take(seeds, SEED_COUNT), recommended);
            sections == b.sections && exclude == b.exclude
  {
    var taken := Take(seeds, SEED_COUNT);
    var used: set<string> := {};
    sections, exclude := [], Elems(recommended);
    var i := 0;
    assert Seedable(catalog, taken);
    while i < |taken|
      invariant 0 <= i <= |taken|
      invariant Seedable(catalog, taken[..i])
      invariant Built(catalog, byUpdated, taken[..i], recommended) == Build(sections, exclude, used)
    {
      BuiltSnoc(catalog, byUpdated, taken, i, recommended);
      var seed := taken[i];
      var product := catalog[seed.product];
      exclude := exclude + {seed.product};
      var products := SimilarProducts(catalog, byUpdated, seed.product, exclude, SIMILAR_LIMIT);
      exclude := exclude + Elems(products);
      var title := SimilarTitle(seed.origin, product.name);
      if title in used {
        title := MoreTitle(seed.origin, product.name);
      }
      used := used + {title};
      sections := sections + [SectionPayload(title, product.category.value, seed.product, SubtitleFor(seed.origin), products)];
      i := i + 1;
    }
    assert taken[..i] == taken;
  }

  // ---------------------------------------------------------------------
  // The page.

  /** What the page reads from the database besides the recommender: the
      three `exists()` checks, the cart ids by `-added_at` (distinct, at most
      20), the liked ids by `-created_at` (at most 20), the interest ids by
      `-score, -updated_at` (at most 30), and the categories with products by
      `-product_count, -updated_at`. */
  datatype HomeQueries = HomeQueries(
    hasCart: bool, hasWatchlist: bool, hasInterest: bool,
    cartIds: seq<int>, watchlistIds: seq<int>, interestIds: seq<int>, fillerCategories: seq<nat>)

  /** Each `exists()` check and its id list read the same table with the
      same filter (`CartItem`, `LikedProduct`, `ProductInterest` of the
      user), so a list is non-empty exactly when its check holds. */
  predicate QueriesAgree(q: HomeQueries) {
    && q.hasCart == (q.cartIds != [])
    && q.hasWatchlist == (q.watchlistIds != [])
    && q.hasInterest == (q.interestIds != [])
  }

  /** For a signed-in user the heading and the seeds tell the same story:
      the cart is a seed source exactly when the subtitle mentions the cart,
      and the recommendations are the fallback source exactly when the
      subtitle is the popular one. */
  lemma HeadingMatchesSources(user: User, q: HomeQueries, recommended: seq<int>)
    requires IsAuthenticated(user) && QueriesAgree(q)
    ensures var sources := HomeSources(user, q.cartIds, q.watchlistIds, q.interestIds, recommended);
            var basis := SubtitleBasis(q.hasCart, q.hasWatchlist, q.hasInterest);
            && (Source(FROM_CART, q.cartIds) in sources <==> basis == CartAndWatchlist || basis == CartOnly)
            && (Source(RECOMMENDED, recommended) in sources <==> basis == Popular)
  {
    var all := q.watchlistIds + q.interestIds;
    CollectFacts(all, {}, WATCH_ACTIVITY_CAP);
    if all != [] {
      assert all[0] in all;
    }
  }

  datatype HomePage = HomePage(
    recommended: seq<int>, heading: Heading, sections: seq<SectionPayload>, fromCache: bool, likedIds: set<int>)

  /** `liked_source_ids` after the recommended ids: each section's seed,
      then its products. */
  function SectionIds(sections: seq<SectionPayload>): seq<int>
    decreases |sections|
  {
    if sections == [] then []
    else
      var last := sections[|sections| - 1];
      SectionIds(sections[..|sections| - 1]) + [last.seedProductId] + last.productIds
  }

  /** A cached value for the sections key counts only when it is a
      non-empty list of sections. */
  function CachedSections(v: Option<CacheValue>): Option<seq<SectionPayload>> {
    if v.Some? && v.value.SectionList? && v.value.sections != [] then Some(v.value.sections) else None
  }

  /** The cache key `home:sections:{owner}:{ids}`. */
  function SectionsKey(user: User, recommended: seq<int>): CacheKey {
    HomeSections(if IsAuthenticated(user) then Some(user.id) else None, recommended)
  }

  /** What the page promises of freshly built sections: at most two, with
      distinct titles, no product twice, and each section about a seed
      product with a category, showing at most four in-stock products of
      that category that are neither recommended nor this or an earlier
      section's seed. */
  ghost predicate PageSections(catalog: map<int, Product>, recommended: seq<int>, sections: seq<SectionPayload>) {
    && |sections| <= SEED_COUNT
    && Disjoint(sections)
    && (forall i, j :: 0 <= i < j < |sections| ==> sections[i].title != sections[j].title)
    && (forall i :: 0 <= i < |sections| ==>
          && sections[i].seedProductId in catalog
          && Some(sections[i].categoryId) == catalog[sections[i].seedProductId].category
          && |sections[i].productIds| <= SIMILAR_LIMIT)
    && (forall i, p :: 0 <= i < |sections| && p in sections[i].productIds ==>
          && InStock(catalog, p) && catalog[p].category == Some(sections[i].categoryId)
          && p !in recommended
          && forall j :: 0 <= j <= i ==> p != sections[j].seedProductId)
  }

  /** The loop invariant, with at most two seeds and distinct titles, is
      what the page promises. */
  lemma InvPageSections(catalog: map<int, Product>, recommended: seq<int>, seeds: seq<HomeSeed>, b: Build)
    requires SectionsInv(catalog, recommended, seeds, b) && |seeds| <= SEED_COUNT
    requires forall i, j :: 0 <= i < j < |b.sections| ==> b.sections[i].title != b.sections[j].title
    ensures PageSections(catalog, recommended, b.sections)
  {
    var secs := b.sections;
    forall i | 0 <= i < |secs|
      ensures secs[i].seedProductId in catalog && Some(secs[i].categoryId) == catalog[secs[i].seedProductId].category
      ensures |secs[i].productIds| <= SIMILAR_LIMIT
    {
      assert AboutSeed(catalog, seeds[i], secs[i]);
    }
    forall i, p | 0 <= i < |secs| && p in secs[i].productIds
      ensures InStock(catalog, p) && catalog[p].category == Some(secs[i].categoryId)
      ensures p !in recommended && forall j :: 0 <= j <= i ==> p != secs[j].seedProductId
    {
      assert AboutSeed(catalog, seeds[i], secs[i]);
      FreshAt(recommended, seeds, b, i, p, i);
      forall j | 0 <= j <= i ensures p != secs[j].seedProductId {
        assert AboutSeed(catalog, seeds[j], secs[j]);
        FreshAt(recommended, seeds, b, i, p, j);
      }
    }
  }

  /** The section loop over the first two seeds builds such sections. */
  lemma BuiltPageSections(catalog: map<int, Product>, byUpdated: seq<int>, seeds: seq<HomeSeed>, recommended: seq<int>)
    requires Seedable(catalog, seeds)
    ensures PageSections(catalog, recommended, Built(catalog, byUpdated, Take(seeds, SEED_COUNT), recommended).sections)
  {
    var taken := Take(seeds, SEED_COUNT);
    BuiltFacts(catalog, byUpdated, taken, recommended);
    BuiltTitlesDistinct(catalog, byUpdated, taken, recommended);
    InvPageSections(catalog, recommended, taken, Built(catalog, byUpdated, taken, recommended));
  }

  /** The seeds of the page: picked from the sources, topped up from the
      category filler when fewer than two were found. */
  function PageSeeds(catalog: map<int, Product>, byUpdated: seq<int>, sources: seq<Source>, cats: seq<nat>, recommended: seq<int>)
    : seq<HomeSeed>
  {
    var picked := Picked(catalog, Flat(sources));
    if |picked| < SEED_COUNT then Filled(catalog, byUpdated, picked, cats, Elems(recommended)) else picked
  }

  /** Every seed of the page has a product with a category. */
  lemma PageSeedsSeedable(catalog: map<int, Product>, byUpdated: seq<int>, sources: seq<Source>, cats: seq<nat>, recommended: seq<int>)
    ensures Seedable(catalog, PageSeeds(catalog, byUpdated, sources, cats, recommended))
  {
    var picked := Picked(catalog, Flat(sources));
    PickedFacts(catalog, Flat(sources));
    assert forall i :: 0 <= i < |picked| ==> picked[i] in picked;
    if |picked| < SEED_COUNT {
      FilledFacts(catalog, byUpdated, picked, cats, Elems(recommended));
    }
  }

  /** The sections a cache miss builds: the section loop over the first two
      seeds of the page, whose sources follow from the user, the three id
      lists and the recommended row. */
  function FreshSections(catalog: map<int, Product>, byUpdated: seq<int>, user: User, q: HomeQueries, recommended: seq<int>)
    : (r: seq<SectionPayload>)
    ensures PageSections(catalog, recommended, r)
  {
    var sources := HomeSources(user, q.cartIds, q.watchlistIds, q.interestIds, recommended);
    var seeds := PageSeeds(catalog, byUpdated, sources, q.fillerCategories, recommended);
    PageSeedsSeedable(catalog, byUpdated, sources, q.fillerCategories, recommended);
    BuiltPageSections(catalog, byUpdated, seeds, recommended);
    Built(catalog, byUpdated, Take(seeds, SEED_COUNT), recommended).sections
  }

  method HomeSeeds(catalog: map<int, Product>, byUpdated: seq<int>, sources: seq<Source>, cats: seq<nat>, recommended: seq<int>)
    returns (seeds: seq<HomeSeed>)
    ensures Seedable(catalog, seeds)
    ensures var picked := Picked(catalog, Flat(sources));
            seeds == if |picked| < SEED_COUNT then Filled(catalog, byUpdated, picked, cats, Elems(recommended)) else picked
    ensures seeds == PageSeeds(catalog, byUpdated, sources, cats, recommended)
  {
    seeds := PickSeeds(sources, catalog);
    PickedFacts(catalog, Flat(sources));
    assert forall i :: 0 <= i < |seeds| ==> seeds[i] in seeds;
    if |seeds| < SEED_COUNT {
      ghost var picked := seeds;
      seeds := FillSeeds(catalog, byUpdated, seeds, cats, Elems(recommended));
      FilledFacts(catalog, byUpdated, picked, cats, Elems(recommended));
      assert forall i :: 0 <= i < |picked| ==> seeds[i] == picked[i];
    }
  }

  /** The category sections of `home` below a recommended row `recs`: the
      sections cached under the row's key when present, otherwise sections
      built from the page's seeds and cached for two minutes. */
  method CategorySections(user: User, w: World, q: HomeQueries, recs: seq<int>, now: int, cache: Cache)
    returns (sections: seq<SectionPayload>, fromCache: bool)
    modifies cache
    ensures var hit := CachedSections(Lookup(old(cache.entries), SectionsKey(user, recs), now));
            && fromCache == hit.Some?
            && (fromCache ==> Some(sections) == hit && cache.entries == old(cache.entries))
            && (!fromCache ==>
                  && sections == FreshSections(w.catalog, w.byUpdated, user, q, recs)
                  && cache.entries == old(cache.entries)[SectionsKey(user, recs) := Entry(SectionList(sections), now + SECTIONS_TTL)])
  {
    var key := SectionsKey(user, recs);
    var cached := CachedSections(cache.Get(key, now));
    if cached.Some? {
      return cached.value, true;
    }
    var sources := SeedSources(user, q.cartIds, q.watchlistIds, q.interestIds, recs);
    var seeds := HomeSeeds(w.catalog, w.byUpdated, sources, q.fillerCategories, recs);
    var exclude;
    sections, exclude := BuildSections(w.catalog, w.byUpdated, seeds, recs);
    cache.Set(key, SectionList(sections), SECTIONS_TTL, now);
    fromCache := false;
  }

  /** `home`: the recommended row, its heading and the category sections,
      with the ids among them the user likes. The cached branch's
      re-fetching of products is not modelled: the cached sections are shown
      as stored. */
  method Home(user: User, w: World, f: Seeds.UserSignals, q: HomeQueries, now: int, likes: seq<LikedRow>, cache: Cache)
    returns (page: HomePage)
    requires IsAuthenticated(user) ==> QueriesAgree(q)
    modifies cache
    ensures page.heading == RecommendedHeading(user, q.hasCart, q.hasWatchlist, q.hasInterest)
    ensures NoDup(page.recommended) && |page.recommended| <= 5
    ensures forall p :: p in page.recommended ==> InStock(w.catalog, p)
    ensures page.fromCache ==> Some(page.sections) == CachedSections(cache.Get(SectionsKey(user, page.recommended), now))
    ensures !page.fromCache ==>
              && cache.Get(SectionsKey(user, page.recommended), now) == Some(SectionList(page.sections))
              && PageSections(w.catalog, page.recommended, page.sections)
    ensures forall p :: p in page.likedIds <==>
              IsAuthenticated(user) && p in page.recommended + SectionIds(page.sections) && LikeOf(likes, user.id, p).Some?
    ensures page.recommended == ServedRecs(w, f, user, 5, old(cache.entries), now)
    ensures var stored := RecsStored(w, f, user, 5, old(cache.entries), now);
            var hit := CachedSections(Lookup(stored, SectionsKey(user, page.recommended), now));
            && page.fromCache == hit.Some?
            && (page.fromCache ==> Some(page.sections) == hit && cache.entries == stored)
            && (!page.fromCache ==>
                  && page.sections == FreshSections(w.catalog, w.byUpdated, user, q, page.recommended)
                  && cache.entries == stored[SectionsKey(user, page.recommended) := Entry(SectionList(page.sections), now + SECTIONS_TTL)])
  {
    var recs := GetRecommendedProducts(cache, user, 5, w, f, now);
    var heading := RecommendedHeading(user, q.hasCart, q.hasWatchlist, q.hasInterest);
    var sections, fromCache := CategorySections(user, w, q, recs, now, cache);
    var liked := LikedProductIdsForUser(user, likes, AsOptions(recs + SectionIds(sections)));
    return HomePage(recs, heading, sections, fromCache, liked);
  }

}
