/** The catalog entities the recommender reads but does not own: products
    (with an optional category and a stock count) and cart lines. */
module Catalog {
  import opened Common

  /** A product row: `category` is `None` for a product without a category;
      only products with `quantity > 0` are ever recommended. */
  datatype Product = Product(id: int, category: Option<nat>, quantity: int, name: string)

  /** A cart line of one user (the cart app's `CartItem`). */
  datatype CartItem = CartItem(user: int, product: int, quantity: nat)

  /** The diversity filter's bucket for products without a category (or not
      found in the product table). Real category ids are never negative. */
  const NO_CATEGORY: int := -1

  predicate InStock(catalog: map<int, Product>, pid: int) {
    pid in catalog && catalog[pid].quantity > 0
  }

  /** `cat_map.get(pid, -1)` where `cat_map` maps each product to its
      category id, or to -1 when it has none. */
  function CategoryKey(catalog: map<int, Product>, pid: int): int {
    if pid in catalog && catalog[pid].category.Some? then catalog[pid].category.value else NO_CATEGORY
  }

  /** `queryset.filter(quantity__gt=0)` applied to a list of ids, keeping order. */
  function InStockOnly(catalog: map<int, Product>, xs: seq<int>): seq<int>
    decreases |xs|
  {
    if xs == [] then []
    else
      var r0 := InStockOnly(catalog, xs[..|xs| - 1]);
      if InStock(catalog, xs[|xs| - 1]) then r0 + [xs[|xs| - 1]] else r0
  }

  lemma {:induction false} InStockOnlyFacts(catalog: map<int, Product>, xs: seq<int>)
    ensures forall y :: y in InStockOnly(catalog, xs) <==> y in xs && InStock(catalog, y)
    ensures IsSubseq(InStockOnly(catalog, xs), xs)
    ensures (forall y :: y in xs ==> InStock(catalog, y)) ==> InStockOnly(catalog, xs) == xs
    ensures |InStockOnly(catalog, xs)| <= |xs|
    decreases |xs|
  {
    if xs != [] {
      var pre := xs[..|xs| - 1];
      var x := xs[|xs| - 1];
      assert xs == pre + [x];
      InStockOnlyFacts(catalog, pre);
      if InStock(catalog, x) {
        SubseqAppendBoth(InStockOnly(catalog, pre), pre, x);
      } else {
        SubseqExtend(InStockOnly(catalog, pre), pre, x);
      }
    }
  }
}
