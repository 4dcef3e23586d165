/** `_apply_category_diversity`: a stable filter that keeps at most two
    products per category (products without a category share the bucket
    -1) and stops once `limit` products are kept. */
module Diversity {
  import opened Common
  import opened Catalog

  /** `DEFAULT_MAX_PER_CATEGORY`. */
  const MAX_PER_CATEGORY: nat := 2

  /** How many products of `s` fall in category bucket `c`. */
  function CountCat(catalog: map<int, Product>, s: seq<int>, c: int): nat
    decreases |s|
  {
    if s == [] then 0
    else CountCat(catalog, s[..|s| - 1], c) + (if CategoryKey(catalog, s[|s| - 1]) == c then 1 else 0)
  }

  lemma CountCatSnoc(catalog: map<int, Product>, s: seq<int>, x: int, c: int)
    ensures CountCat(catalog, s + [x], c) == CountCat(catalog, s, c) + (if CategoryKey(catalog, x) == c then 1 else 0)
  {
    assert (s + [x])[..|s|] == s;
  }

  /** The filter's result on `ids`: walking the list, a product is kept when
      fewer than two of its category are already kept and fewer than `limit`
      products are kept in all. */
  function Diverse(catalog: map<int, Product>, ids: seq<int>, limit: int): seq<int>
    decreases |ids|
  {
    if ids == [] then []
    else
      var r0 := Diverse(catalog, ids[..|ids| - 1], limit);
      var x := ids[|ids| - 1];
      if |r0| >= limit || CountCat(catalog, r0, CategoryKey(catalog, x)) >= MAX_PER_CATEGORY then r0 else r0 + [x]
  }

  lemma DiverseSnoc(catalog: map<int, Product>, ids: seq<int>, x: int, limit: int)
    ensures Diverse(catalog, ids + [x], limit)
         == (var r0 := Diverse(catalog, ids, limit);
             if |r0| >= limit || CountCat(catalog, r0, CategoryKey(catalog, x)) >= MAX_PER_CATEGORY then r0 else r0 + [x])
  {
    assert (ids + [x])[..|ids|] == ids;
  }

  /** The kept products are drawn from the input in order, and a list
      without repeats stays free of repeats. */
  lemma {:induction false} DiverseSubseq(catalog: map<int, Product>, ids: seq<int>, limit: int)
    ensures IsSubseq(Diverse(catalog, ids, limit), ids)
    ensures forall y :: y in Diverse(catalog, ids, limit) ==> y in ids
    ensures NoDup(ids) ==> NoDup(Diverse(catalog, ids, limit))
    decreases |ids|
  {
    if ids != [] {
      var pre := ids[..|ids| - 1];
      var x := ids[|ids| - 1];
      assert ids == pre + [x];
      DiverseSubseq(catalog, pre, limit);
      var r0 := Diverse(catalog, pre, limit);
      if |r0| >= limit || CountCat(catalog, r0, CategoryKey(catalog, x)) >= MAX_PER_CATEGORY {
        SubseqExtend(r0, pre, x);
      } else {
        SubseqAppendBoth(r0, pre, x);
        if NoDup(ids) {
          assert x !in pre;
          NoDupSnoc(r0, x);
        }
      }
    }
  }

  /** At most `limit` products, and at most two of any category. */
  lemma {:induction false} DiverseBounds(catalog: map<int, Product>, ids: seq<int>, limit: int)
    ensures limit <= 0 ==> Diverse(catalog, ids, limit) == []
    ensures |Diverse(catalog, ids, limit)| <= limit || Diverse(catalog, ids, limit) == []
    ensures forall c :: CountCat(catalog, Diverse(catalog, ids, limit), c) <= MAX_PER_CATEGORY
    decreases |ids|
  {
    if ids != [] {
      var pre := ids[..|ids| - 1];
      var x := ids[|ids| - 1];
      DiverseBounds(catalog, pre, limit);
      var r0 := Diverse(catalog, pre, limit);
      if !(|r0| >= limit || CountCat(catalog, r0, CategoryKey(catalog, x)) >= MAX_PER_CATEGORY) {
        forall c ensures CountCat(catalog, r0 + [x], c) <= MAX_PER_CATEGORY {
          CountCatSnoc(catalog, r0, x, c);
        }
      }
    }
  }

  /** Ending short of `limit`, the filter dropped a product only because its
      category was already full. */
  lemma {:induction false} DiverseDropped(catalog: map<int, Product>, ids: seq<int>, limit: int)
    ensures |Diverse(catalog, ids, limit)| < limit ==>
              forall y :: y in ids && y !in Diverse(catalog, ids, limit) ==>
                CountCat(catalog, Diverse(catalog, ids, limit), CategoryKey(catalog, y)) >= MAX_PER_CATEGORY
    decreases |ids|
  {
    if ids != [] {
      var pre := ids[..|ids| - 1];
      var x := ids[|ids| - 1];
      assert ids == pre + [x];
      DiverseDropped(catalog, pre, limit);
      var r0 := Diverse(catalog, pre, limit);
      if !(|r0| >= limit || CountCat(catalog, r0, CategoryKey(catalog, x)) >= MAX_PER_CATEGORY) {
        forall c ensures CountCat(catalog, r0 + [x], c) >= CountCat(catalog, r0, c) {
          CountCatSnoc(catalog, r0, x, c);
        }
      }
    }
  }

  /** The diversity filter's output is an order-preserving subsequence of
      its input, holds at most `limit` products and at most two of any
      category (the no-category bucket included), keeps a list without
      repeats free of repeats, and, when it ends short of `limit`, dropped a
      product only because its category was already full. */
  lemma DiverseFacts(catalog: map<int, Product>, ids: seq<int>, limit: int)
    ensures IsSubseq(Diverse(catalog, ids, limit), ids)
    ensures forall y :: y in Diverse(catalog, ids, limit) ==> y in ids
    ensures limit <= 0 ==> Diverse(catalog, ids, limit) == []
    ensures |Diverse(catalog, ids, limit)| <= limit || Diverse(catalog, ids, limit) == []
    ensures forall c :: CountCat(catalog, Diverse(catalog, ids, limit), c) <= MAX_PER_CATEGORY
    ensures NoDup(ids) ==> NoDup(Diverse(catalog, ids, limit))
    ensures |Diverse(catalog, ids, limit)| < limit ==>
              forall y :: y in ids && y !in Diverse(catalog, ids, limit) ==>
                CountCat(catalog, Diverse(catalog, ids, limit), CategoryKey(catalog, y)) >= MAX_PER_CATEGORY
  {
    DiverseSubseq(catalog, ids, limit);
    DiverseBounds(catalog, ids, limit);
    DiverseDropped(catalog, ids, limit);
  }

  /** Once `limit` products are kept, the rest of the input is not looked at. */
  lemma {:induction false} DiverseCapped(catalog: map<int, Product>, xs: seq<int>, ys: seq<int>, limit: int)
    requires xs <= ys
    requires |Diverse(catalog, xs, limit)| >= limit
    ensures Diverse(catalog, ys, limit) == Diverse(catalog, xs, limit)
    decreases |ys|
  {
    if |ys| > |xs| {
      var pre := ys[..|ys| - 1];
      assert xs <= pre;
      DiverseCapped(catalog, xs, pre, limit);
    } else {
      assert ys == xs;
    }
  }

  /** The value of `per_cat.get(c, 0)`. */
  function Tally(perCat: map<int, nat>, c: int): nat {
    if c in perCat then perCat[c] else 0
  }

  /** The counter agrees with the kept list in every bucket. */
  ghost predicate TalliesMatch(catalog: map<int, Product>, perCat: map<int, nat>, out: seq<int>) {
    forall c :: Tally(perCat, c) == CountCat(catalog, out, c)
  }

  /** Bumping the tally of the kept product's bucket keeps the tallies equal
      to the counts of the kept list. */
  lemma TallyAppend(catalog: map<int, Product>, perCat: map<int, nat>, out: seq<int>, pid: int)
    requires TalliesMatch(catalog, perCat, out)
    ensures TalliesMatch(catalog, perCat[CategoryKey(catalog, pid) := Tally(perCat, CategoryKey(catalog, pid)) + 1], out + [pid])
  {
    forall c ensures Tally(perCat[CategoryKey(catalog, pid) := Tally(perCat, CategoryKey(catalog, pid)) + 1], c)
                     == CountCat(catalog, out + [pid], c) {
      CountCatSnoc(catalog, out, pid, c);
    }
  }

  /** One visit of the loop at position `i`: the product is kept exactly
      when its bucket's tally is below two, the bumped counter still
      matches, and reaching `limit` settles the result. */
  lemma DiverseVisit(catalog: map<int, Product>, ids: seq<int>, i: nat, out: seq<int>, perCat: map<int, nat>, limit: int)
    requires i < |ids| && out == Diverse(catalog, ids[..i], limit) && |out| < limit
    requires TalliesMatch(catalog, perCat, out)
    ensures var pid := ids[i];
            var cat := CategoryKey(catalog, pid);
            if Tally(perCat, cat) >= MAX_PER_CATEGORY then out == Diverse(catalog, ids[..i + 1], limit)
            else
              && out + [pid] == Diverse(catalog, ids[..i + 1], limit)
              && TalliesMatch(catalog, perCat[cat := Tally(perCat, cat) + 1], out + [pid])
              && (|out + [pid]| >= limit ==> out + [pid] == Diverse(catalog, ids, limit))
  {
    var pid := ids[i];
    assert ids[..i + 1] == ids[..i] + [pid];
    DiverseSnoc(catalog, ids[..i], pid, limit);
    assert Tally(perCat, CategoryKey(catalog, pid)) == CountCat(catalog, out, CategoryKey(catalog, pid));
    if Tally(perCat, CategoryKey(catalog, pid)) < MAX_PER_CATEGORY {
      TallyAppend(catalog, perCat, out, pid);
      if |out + [pid]| >= limit {
        DiverseCapped(catalog, ids[..i + 1], ids, limit);
      }
    }
  }

  /** `_apply_category_diversity(product_ids, limit)`, the loop with its
      per-category counter. */
  method ApplyCategoryDiversity(catalog: map<int, Product>, ids: seq<int>, limit: int) returns (out: seq<int>)
    ensures out == Diverse(catalog, ids, limit)
  {
    if |ids| == 0 || limit <= 0 {
      DiverseBounds(catalog, ids, limit);
      return [];
    }
    var perCat: map<int, nat> := map[];
    out := [];
    var i := 0;
    while i < |ids|
      invariant 0 <= i <= |ids|
      invariant out == Diverse(catalog, ids[..i], limit)
      invariant |out| < limit
      invariant TalliesMatch(catalog, perCat, out)
    {
      var pid := ids[i];
      var cat := CategoryKey(catalog, pid);
      var count := Tally(perCat, cat);
      DiverseVisit(catalog, ids, i, out, perCat, limit);
      if count >= MAX_PER_CATEGORY {
        i := i + 1;
        continue;
      }
      perCat := perCat[cat := count + 1];
      out := out + [pid];
      i := i + 1;
      if |out| >= limit {
        return;
      }
    }
    assert ids[..i] == ids;
  }
}
