/** Seed scoring for a signed-in user: every product the user liked, bought,
    showed interest in, has in the cart or cancelled gets a score
    `8 * liked + 5 * bought + decayed interest + 2 * in cart - 3 * cancelled`;
    the seeds are the products of positive score that were never in a
    cancelled order, best first, at most `10 * n`. The query results are
    inputs; the exponential time decay is floating-point arithmetic and each
    interest row arrives with its decayed score already computed. */
module Seeds {
  import opened Common
  import opened SeedSort

  /** A row of `values("product_id").annotate(qty=Coalesce(Sum("quantity"), 0))`. */
  datatype Agg = Agg(product: int, qty: int)

  /** An interest row of the user with `score * exp(-lambda * age_days)`. */
  datatype Decayed = Decayed(product: int, decayed: real)

  /** What one recommendation request reads about its user: liked product
      ids, interest rows newest first, and the purchased, in-cart and
      cancelled quantities per in-stock product. */
  datatype UserSignals = UserSignals(liked: seq<int>, interest: seq<Decayed>,
                                     purchased: seq<Agg>, cart: seq<Agg>, cancelled: seq<Agg>)

  /** One `seed_score[k] = seed_score.get(k, 0.0) + amount` step. */
  datatype Delta = Delta(product: int, amount: real)

  const LIKED_LIMIT: nat := 500
  const INTEREST_LIMIT: nat := 200
  const SEEDS_PER_SLOT: nat := 10

  /** `d.get(k, 0.0)`. */
  function Get(m: map<int, real>, k: int): real {
    if k in m then m[k] else 0.0
  }

  /** The dictionary left by `for k, v in pairs: d[k] = d.get(k, 0.0) + v`
      starting from an empty `d`. */
  function Accumulate(pairs: seq<Delta>): map<int, real>
    decreases |pairs|
  {
    if pairs == [] then map[]
    else
      var m0 := Accumulate(pairs[..|pairs| - 1]);
      var d := pairs[|pairs| - 1];
      m0[d.product := Get(m0, d.product) + d.amount]
  }

  function Keys(pairs: seq<Delta>): seq<int> {
    seq(|pairs|, i requires 0 <= i < |pairs| => pairs[i].product)
  }

  /** The key order of that dictionary: first insertion first. */
  function KeyOrder(pairs: seq<Delta>): seq<int> {
    Dedup(Keys(pairs))
  }

  /** The total of the values paired with `p`. */
  function SumFor(pairs: seq<Delta>, p: int): real
    decreases |pairs|
  {
    if pairs == [] then 0.0
    else SumFor(pairs[..|pairs| - 1], p) + (if pairs[|pairs| - 1].product == p then pairs[|pairs| - 1].amount else 0.0)
  }

  lemma SumForSnoc(xs: seq<Delta>, y: Delta, p: int)
    ensures SumFor(xs + [y], p) == SumFor(xs, p) + (if y.product == p then y.amount else 0.0)
    ensures Keys(xs + [y]) == Keys(xs) + [y.product]
  {
    assert (xs + [y])[..|xs|] == xs;
  }

  lemma {:induction false} SumForAppend(xs: seq<Delta>, ys: seq<Delta>, p: int)
    ensures SumFor(xs + ys, p) == SumFor(xs, p) + SumFor(ys, p)
    decreases |ys|
  {
    if ys == [] {
      assert xs + ys == xs;
    } else {
      var y0 := ys[..|ys| - 1];
      assert (xs + ys)[..|xs + ys| - 1] == xs + y0;
      SumForAppend(xs, y0, p);
    }
  }

  /** The accumulated dictionary holds, for every key that occurs, the total
      of its values, and no other key. */
  lemma {:induction false} AccumulateFacts(pairs: seq<Delta>)
    ensures forall p :: Get(Accumulate(pairs), p) == SumFor(pairs, p)
    ensures forall p :: p in Accumulate(pairs) <==> p in Keys(pairs)
    decreases |pairs|
  {
    if pairs != [] {
      var p0 := pairs[..|pairs| - 1];
      AccumulateFacts(p0);
      assert Keys(pairs) == Keys(p0) + [pairs[|pairs| - 1].product];
    }
  }

  lemma {:induction false} SumForAbsent(pairs: seq<Delta>, p: int)
    requires p !in Keys(pairs)
    ensures SumFor(pairs, p) == 0.0
    decreases |pairs|
  {
    if pairs != [] {
      var p0 := pairs[..|pairs| - 1];
      assert Keys(pairs) == Keys(p0) + [pairs[|pairs| - 1].product];
      SumForAbsent(p0, p);
    }
  }

  /** The product ids of aggregate rows, in row order. */
  function Products(rows: seq<Agg>): seq<int> {
    seq(|rows|, i requires 0 <= i < |rows| => rows[i].product)
  }

  /** `{r["product_id"]: int(r["qty"] or 0) for r in rows}`: a later row
      overwrites an earlier one with the same key. */
  function AggDict(rows: seq<Agg>): map<int, real>
    decreases |rows|
  {
    if rows == [] then map[]
    else AggDict(rows[..|rows| - 1])[rows[|rows| - 1].product := rows[|rows| - 1].qty as real]
  }

  /** The key order of that dictionary. */
  function AggKeys(rows: seq<Agg>): seq<int> {
    Dedup(Products(rows))
  }

  /** The quantity the dictionary holds for `p`, 0 when absent. */
  function Qty(rows: seq<Agg>, p: int): real {
    Get(AggDict(rows), p)
  }

  /** `d.items()` over the keys `keys`, each value scaled by `w`. */
  function Weighted(keys: seq<int>, m: map<int, real>, w: real): seq<Delta> {
    seq(|keys|, i requires 0 <= i < |keys| => Delta(keys[i], Get(m, keys[i]) * w))
  }

  lemma WeightedSnoc(keys: seq<int>, x: int, m: map<int, real>, w: real)
    ensures Weighted(keys + [x], m, w) == Weighted(keys, m, w) + [Delta(x, Get(m, x) * w)]
  {
    forall i | 0 <= i <= |keys|
      ensures Weighted(keys + [x], m, w)[i] == (Weighted(keys, m, w) + [Delta(x, Get(m, x) * w)])[i]
    {
      var k := (keys + [x])[i];
      assert Weighted(keys + [x], m, w)[i] == Delta(k, Get(m, k) * w);
      if i < |keys| {
        assert k == keys[i];
        assert Weighted(keys, m, w)[i] == Delta(k, Get(m, k) * w);
      } else {
        assert k == x;
      }
    }
  }

  lemma {:induction false} WeightedSum(keys: seq<int>, m: map<int, real>, w: real, p: int)
    requires NoDup(keys)
    ensures Keys(Weighted(keys, m, w)) == keys
    ensures SumFor(Weighted(keys, m, w), p) == if p in keys then Get(m, p) * w else 0.0
    decreases |keys|
  {
    if keys != [] {
      var k0 := keys[..|keys| - 1];
      NoDupSnoc(k0, keys[|keys| - 1]);
      assert keys == k0 + [keys[|keys| - 1]];
      var x := keys[|keys| - 1];
      WeightedSnoc(k0, x, m, w);
      SumForSnoc(Weighted(k0, m, w), Delta(x, Get(m, x) * w), p);
      WeightedSum(k0, m, w, p);
    }
  }

  /** How often `p` occurs in `s`. */
  function Count(s: seq<int>, p: int): nat
    decreases |s|
  {
    if s == [] then 0 else Count(s[..|s| - 1], p) + (if s[|s| - 1] == p then 1 else 0)
  }

  /** `for product_id in liked_ids: seed_score[pid] += 8.0`. */
  function LikeDeltas(liked: seq<int>): seq<Delta> {
    seq(|liked|, i requires 0 <= i < |liked| => Delta(liked[i], 8.0))
  }

  lemma {:induction false} LikeDeltasSum(liked: seq<int>, p: int)
    ensures SumFor(LikeDeltas(liked), p) == 8.0 * Count(liked, p) as real
    decreases |liked|
  {
    if liked != [] {
      var l0 := liked[..|liked| - 1];
      assert LikeDeltas(liked)[..|liked| - 1] == LikeDeltas(l0);
      LikeDeltasSum(l0, p);
    }
  }

  /** The rows whose decayed score is positive, as `(product, decayed)`:
      what the decay loop adds into `interest_scores`. */
  function InterestDeltas(rows: seq<Decayed>): seq<Delta>
    decreases |rows|
  {
    if rows == [] then []
    else
      var r := rows[|rows| - 1];
      InterestDeltas(rows[..|rows| - 1]) + (if r.decayed > 0.0 then [Delta(r.product, r.decayed)] else [])
  }

  /** The decayed interest of `p`: the sum of its positive decayed rows. */
  function DecayedSum(rows: seq<Decayed>, p: int): real
    decreases |rows|
  {
    if rows == [] then 0.0
    else
      var r := rows[|rows| - 1];
      DecayedSum(rows[..|rows| - 1], p) + (if r.product == p && r.decayed > 0.0 then r.decayed else 0.0)
  }

  lemma {:induction false} InterestDeltasSum(rows: seq<Decayed>, p: int)
    ensures SumFor(InterestDeltas(rows), p) == DecayedSum(rows, p)
    decreases |rows|
  {
    if rows != [] {
      var r := rows[|rows| - 1];
      InterestDeltasSum(rows[..|rows| - 1], p);
      SumForAppend(InterestDeltas(rows[..|rows| - 1]), if r.decayed > 0.0 then [Delta(r.product, r.decayed)] else [], p);
    }
  }

  /** Everything added into `seed_score`, loop after loop: likes,
      purchases, interest, cart, cancellations. */
  function SeedDeltas(f: UserSignals): seq<Delta> {
    var interest := InterestDeltas(Take(f.interest, INTEREST_LIMIT));
    LikeDeltas(Take(f.liked, LIKED_LIMIT))
    + Weighted(AggKeys(f.purchased), AggDict(f.purchased), 5.0)
    + Weighted(KeyOrder(interest), Accumulate(interest), 1.0)
    + Weighted(AggKeys(f.cart), AggDict(f.cart), 2.0)
    + Weighted(AggKeys(f.cancelled), AggDict(f.cancelled), -3.0)
  }

  /** The seed score of one product, stated product by product. */
  function SeedFormula(f: UserSignals, p: int): real {
    8.0 * Count(Take(f.liked, LIKED_LIMIT), p) as real
    + 5.0 * Qty(f.purchased, p)
    + DecayedSum(Take(f.interest, INTEREST_LIMIT), p)
    + 2.0 * Qty(f.cart, p)
    - 3.0 * Qty(f.cancelled, p)
  }

  /** `avoid_ids`: every product of a cancelled order. */
  function AvoidIds(f: UserSignals): set<int> {
    Elems(AggKeys(f.cancelled))
  }

  lemma {:induction false} AggDictKeys(rows: seq<Agg>, p: int)
    ensures p in AggDict(rows) <==> p in AggKeys(rows)
    decreases |rows|
  {
    DedupFacts(Products(rows));
    assert p in AggKeys(rows) <==> p in Elems(Products(rows));
    if rows != [] {
      var r0 := rows[..|rows| - 1];
      AggDictKeys(r0, p);
      DedupFacts(Products(r0));
      assert Products(rows) == Products(r0) + [rows[|rows| - 1].product];
    }
  }

  lemma WeightedAggSum(rows: seq<Agg>, w: real, p: int)
    ensures SumFor(Weighted(AggKeys(rows), AggDict(rows), w), p) == Qty(rows, p) * w
  {
    DedupFacts(Products(rows));
    WeightedSum(AggKeys(rows), AggDict(rows), w, p);
    AggDictKeys(rows, p);
    if p !in AggKeys(rows) {
      assert Qty(rows, p) == 0.0;
    }
  }

  /** The dictionary the five loops build holds `SeedFormula` for every
      product, and a product that none of the signals mention has no entry. */
  lemma SeedScoreFormula(f: UserSignals, p: int)
    ensures Get(Accumulate(SeedDeltas(f)), p) == SeedFormula(f, p)
    ensures p !in Accumulate(SeedDeltas(f)) ==> SeedFormula(f, p) == 0.0
  {
    var interest := InterestDeltas(Take(f.interest, INTEREST_LIMIT));
    var d1 := LikeDeltas(Take(f.liked, LIKED_LIMIT));
    var d2 := Weighted(AggKeys(f.purchased), AggDict(f.purchased), 5.0);
    var d3 := Weighted(KeyOrder(interest), Accumulate(interest), 1.0);
    var d4 := Weighted(AggKeys(f.cart), AggDict(f.cart), 2.0);
    var d5 := Weighted(AggKeys(f.cancelled), AggDict(f.cancelled), -3.0);
    assert SeedDeltas(f) == d1 + d2 + d3 + d4 + d5;
    SumForAppend(d1 + d2 + d3 + d4, d5, p);
    SumForAppend(d1 + d2 + d3, d4, p);
    SumForAppend(d1 + d2, d3, p);
    SumForAppend(d1, d2, p);
    LikeDeltasSum(Take(f.liked, LIKED_LIMIT), p);
    WeightedAggSum(f.purchased, 5.0, p);
    WeightedAggSum(f.cart, 2.0, p);
    WeightedAggSum(f.cancelled, -3.0, p);
    DedupFacts(Keys(interest));
    WeightedSum(KeyOrder(interest), Accumulate(interest), 1.0, p);
    AccumulateFacts(interest);
    InterestDeltasSum(Take(f.interest, INTEREST_LIMIT), p);
    if p !in KeyOrder(interest) {
      assert p !in Elems(Keys(interest));
      SumForAbsent(interest, p);
    }
    AccumulateFacts(SeedDeltas(f));
  }

  /** `seed_score.items()`: the products in insertion order with their scores. */
  function Items(order: seq<int>, score: map<int, real>): seq<Scored> {
    seq(|order|, i requires 0 <= i < |order| => Scored(order[i], Get(score, order[i])))
  }

  /** The items of positive score whose product is not avoided. */
  function Select(s: seq<Scored>, avoid: set<int>): seq<Scored>
    decreases |s|
  {
    if s == [] then []
    else
      var z := s[|s| - 1];
      Select(s[..|s| - 1], avoid) + (if z.score > 0.0 && z.id !in avoid then [z] else [])
  }

  lemma {:induction false} SelectMembers(s: seq<Scored>, avoid: set<int>)
    ensures forall z :: z in Select(s, avoid) <==> z in s && z.score > 0.0 && z.id !in avoid
    decreases |s|
  {
    if s != [] {
      var s0 := s[..|s| - 1];
      assert s == s0 + [s[|s| - 1]];
      SelectMembers(s0, avoid);
    }
  }

  lemma {:induction false} SelectSorted(s: seq<Scored>, avoid: set<int>)
    requires SortedDesc(s)
    ensures SortedDesc(Select(s, avoid))
    decreases |s|
  {
    if s != [] {
      var s0 := s[..|s| - 1];
      var z := s[|s| - 1];
      assert SortedDesc(s0);
      SelectSorted(s0, avoid);
      var r0 := Select(s0, avoid);
      if z.score > 0.0 && z.id !in avoid {
        SelectMembers(s0, avoid);
        forall k | 0 <= k < |r0| ensures r0[k].score >= z.score {
          assert r0[k] in r0;
          var m :| 0 <= m < |s0| && s0[m] == r0[k];
          assert s[m] == r0[k];
        }
        assert Select(s, avoid) == r0 + [z];
      }
    }
  }

  /** The comprehension keeps exactly the positive, non-avoided items and
      keeps their order. */
  lemma SelectFacts(s: seq<Scored>, avoid: set<int>)
    ensures forall z :: z in Select(s, avoid) <==> z in s && z.score > 0.0 && z.id !in avoid
    ensures SortedDesc(s) ==> SortedDesc(Select(s, avoid))
  {
    SelectMembers(s, avoid);
    if SortedDesc(s) {
      SelectSorted(s, avoid);
    }
  }

  lemma {:induction false} SelectIds(s: seq<Scored>, avoid: set<int>)
    requires NoDup(Ids(s))
    ensures NoDup(Ids(Select(s, avoid)))
    decreases |s|
  {
    if s != [] {
      var s0 := s[..|s| - 1];
      var z := s[|s| - 1];
      assert Ids(s) == Ids(s0) + [z.id];
      NoDupSnoc(Ids(s0), z.id);
      SelectIds(s0, avoid);
      SelectMembers(s0, avoid);
      var r0 := Select(s0, avoid);
      if z.score > 0.0 && z.id !in avoid {
        assert Select(s, avoid) == r0 + [z];
        assert Ids(r0 + [z]) == Ids(r0) + [z.id];
        forall k | 0 <= k < |r0| ensures Ids(r0)[k] != z.id {
          assert r0[k] in r0;
          var m :| 0 <= m < |s0| && s0[m] == r0[k];
          assert Ids(s0)[m] == r0[k].id;
        }
        NoDupSnoc(Ids(r0), z.id);
      } else {
        assert Select(s, avoid) == r0;
      }
    }
  }

  /** The sorted, filtered items the seed list is cut from. */
  function SeedItems(f: UserSignals): seq<Scored> {
    var deltas := SeedDeltas(f);
    Select(SortDesc(Items(KeyOrder(deltas), Accumulate(deltas))), AvoidIds(f))
  }

  /** The seed list: the dictionary's items sorted by descending score
      (stable), filtered to positive, non-avoided products, cut at `10 * n`. */
  function SeedIds(f: UserSignals, n: nat): seq<int> {
    Ids(Take(SeedItems(f), n * SEEDS_PER_SLOT))
  }

  /** Every item of the dictionary carries the product's seed score, and a
      product of positive score has an item. */
  lemma ItemsFacts(f: UserSignals)
    ensures NoDup(Ids(Items(KeyOrder(SeedDeltas(f)), Accumulate(SeedDeltas(f)))))
    ensures forall z :: z in Items(KeyOrder(SeedDeltas(f)), Accumulate(SeedDeltas(f))) ==> z.score == SeedFormula(f, z.id)
    ensures forall p :: SeedFormula(f, p) > 0.0 ==> Scored(p, SeedFormula(f, p)) in Items(KeyOrder(SeedDeltas(f)), Accumulate(SeedDeltas(f)))
  {
    var deltas := SeedDeltas(f);
    var order := KeyOrder(deltas);
    var items := Items(order, Accumulate(deltas));
    DedupFacts(Keys(deltas));
    assert Ids(items) == order;
    forall z | z in items ensures z.score == SeedFormula(f, z.id) {
      SeedScoreFormula(f, z.id);
    }
    forall p | SeedFormula(f, p) > 0.0 ensures Scored(p, SeedFormula(f, p)) in items {
      SeedScoreFormula(f, p);
      AccumulateFacts(deltas);
      assert p in Elems(Keys(deltas));
      assert p in Elems(order);
      var k :| 0 <= k < |order| && order[k] == p;
      assert items[k] == Scored(p, SeedFormula(f, p));
    }
  }

  /** The selected items: distinct products, each of positive score and not
      avoided, scores non-increasing, and every such product present. */
  lemma SeedItemsFacts(f: UserSignals)
    ensures NoDup(Ids(SeedItems(f)))
    ensures SortedDesc(SeedItems(f))
    ensures forall z :: z in SeedItems(f) ==> z.score == SeedFormula(f, z.id) && z.score > 0.0 && z.id !in AvoidIds(f)
    ensures forall p :: SeedFormula(f, p) > 0.0 && p !in AvoidIds(f) ==> p in Ids(SeedItems(f))
  {
    var deltas := SeedDeltas(f);
    var items := Items(KeyOrder(deltas), Accumulate(deltas));
    var sorted := SortDesc(items);
    ItemsFacts(f);
    SortFacts(items);
    SortKeepsIdsDistinct(items);
    SelectFacts(sorted, AvoidIds(f));
    SelectIds(sorted, AvoidIds(f));
    var sel := SeedItems(f);
    forall p | SeedFormula(f, p) > 0.0 && p !in AvoidIds(f) ensures p in Ids(sel) {
      assert Scored(p, SeedFormula(f, p)) in sel;
      var m :| 0 <= m < |sel| && sel[m] == Scored(p, SeedFormula(f, p));
      assert Ids(sel)[m] == p;
    }
  }

  /** Seeds are distinct products of positive score that never appeared in
      a cancelled order, listed best first, at most `10 * n`; when fewer
      than `10 * n`, every such product is a seed. */
  lemma SeedIdsFacts(f: UserSignals, n: nat)
    ensures NoDup(SeedIds(f, n))
    ensures |SeedIds(f, n)| <= n * SEEDS_PER_SLOT
    ensures forall p :: p in SeedIds(f, n) ==> SeedFormula(f, p) > 0.0 && p !in AvoidIds(f)
    ensures forall i, j :: 0 <= i < j < |SeedIds(f, n)| ==>
              SeedFormula(f, SeedIds(f, n)[i]) >= SeedFormula(f, SeedIds(f, n)[j])
    ensures |SeedIds(f, n)| < n * SEEDS_PER_SLOT ==>
              forall p :: SeedFormula(f, p) > 0.0 && p !in AvoidIds(f) ==> p in SeedIds(f, n)
  {
    var sel := SeedItems(f);
    var cut := Take(sel, n * SEEDS_PER_SLOT);
    SeedItemsFacts(f);
    assert Ids(cut) == Ids(sel)[..|cut|];
    assert forall i :: 0 <= i < |cut| ==> cut[i] == sel[i];
    forall p | p in Ids(cut) ensures SeedFormula(f, p) > 0.0 && p !in AvoidIds(f) {
      var k :| 0 <= k < |cut| && Ids(cut)[k] == p;
      assert sel[k] in sel;
    }
    forall i, j | 0 <= i < j < |cut| ensures SeedFormula(f, Ids(cut)[i]) >= SeedFormula(f, Ids(cut)[j]) {
      assert sel[i] in sel && sel[j] in sel;
    }
    if |cut| < n * SEEDS_PER_SLOT {
      assert cut == sel;
    }
  }

  /** No seeds exactly when every product of positive score was in a
      cancelled order: the user is then treated as a cold start. */
  lemma ColdStart(f: UserSignals, n: nat)
    requires n > 0
    ensures SeedIds(f, n) == [] <==> forall p :: SeedFormula(f, p) > 0.0 ==> p in AvoidIds(f)
  {
    SeedIdsFacts(f, n);
    if SeedIds(f, n) != [] {
      var p := SeedIds(f, n)[0];
      assert p in SeedIds(f, n);
    }
  }

  /** The dictionary's keys are exactly the recorded key order. */
  lemma KeyOrderMembers(done: seq<Delta>, p: int)
    ensures p in Accumulate(done) <==> p in KeyOrder(done)
  {
    AccumulateFacts(done);
    DedupFacts(Keys(done));
    assert p in Keys(done) <==> p in Elems(Keys(done));
  }

  lemma AccumulateSnoc(done: seq<Delta>, d: Delta)
    ensures Accumulate(done + [d]) == Accumulate(done)[d.product := Get(Accumulate(done), d.product) + d.amount]
  {
    assert (done + [d])[..|done|] == done;
  }

  lemma KeyOrderSnoc(done: seq<Delta>, d: Delta)
    ensures KeyOrder(done + [d]) == if d.product in KeyOrder(done) then KeyOrder(done) else KeyOrder(done) + [d.product]
  {
    assert Keys(done + [d]) == Keys(done) + [d.product];
    DedupSnoc(Keys(done), d.product);
  }

  /** One dictionary update, as the loop performs it. */
  lemma AddStep(done: seq<Delta>, d: Delta)
    ensures Accumulate(done + [d]) == Accumulate(done)[d.product := Get(Accumulate(done), d.product) + d.amount]
    ensures KeyOrder(done + [d]) == if d.product in KeyOrder(done) then KeyOrder(done) else KeyOrder(done) + [d.product]
    ensures d.product in Accumulate(done) <==> d.product in KeyOrder(done)
  {
    KeyOrderMembers(done, d.product);
    AccumulateSnoc(done, d);
    KeyOrderSnoc(done, d);
  }

  /** The same step, stated on the loop's variables. */
  lemma AddVisit(done: seq<Delta>, d: Delta, score: map<int, real>, order: seq<int>)
    requires score == Accumulate(done) && order == KeyOrder(done)
    ensures Accumulate(done + [d]) == score[d.product := Get(score, d.product) + d.amount]
    ensures KeyOrder(done + [d]) == if d.product in score then order else order + [d.product]
  {
    AddStep(done, d);
  }

  /** One pass of `for k, v in pairs: seed_score[k] = seed_score.get(k, 0.0) + v`,
      with `order` recording the dictionary's key order. */
  method AddAll(score: map<int, real>, order: seq<int>, ghost prev: seq<Delta>, pairs: seq<Delta>)
    returns (score': map<int, real>, order': seq<int>)
    requires score == Accumulate(prev) && order == KeyOrder(prev)
    ensures score' == Accumulate(prev + pairs) && order' == KeyOrder(prev + pairs)
  {
    score', order' := score, order;
    var i := 0;
    ghost var done := prev;
    assert pairs[..0] == [];
    while i < |pairs|
      invariant 0 <= i <= |pairs|
      invariant done == prev + pairs[..i]
      invariant score' == Accumulate(done) && order' == KeyOrder(done)
    {
      var d := pairs[i];
      AddVisit(done, d, score', order');
      if d.product !in score' {
        order' := order' + [d.product];
      }
      score' := score'[d.product := Get(score', d.product) + d.amount];
      assert pairs[..i + 1] == pairs[..i] + [d];
      done := done + [d];
      i := i + 1;
    }
    assert pairs[..i] == pairs;
  }

  /** The decay loop: rows of positive decayed score are summed per product
      into `interest_scores`. */
  method DecayInterest(rows: seq<Decayed>) returns (scores: map<int, real>, order: seq<int>)
    ensures scores == Accumulate(InterestDeltas(rows)) && order == KeyOrder(InterestDeltas(rows))
  {
    scores, order := map[], [];
    var i := 0;
    while i < |rows|
      invariant 0 <= i <= |rows|
      invariant scores == Accumulate(InterestDeltas(rows[..i])) && order == KeyOrder(InterestDeltas(rows[..i]))
    {
      assert rows[..i + 1][..i] == rows[..i];
      if rows[i].decayed > 0.0 {
        assert InterestDeltas(rows[..i + 1]) == InterestDeltas(rows[..i]) + [Delta(rows[i].product, rows[i].decayed)];
        scores, order := AddAll(scores, order, InterestDeltas(rows[..i]), [Delta(rows[i].product, rows[i].decayed)]);
      } else {
        assert InterestDeltas(rows[..i + 1]) == InterestDeltas(rows[..i]) + [];
        assert InterestDeltas(rows[..i]) + [] == InterestDeltas(rows[..i]);
      }
      i := i + 1;
    }
    assert rows[..i] == rows;
  }

  /** Building `seed_score` from the five signals, in the source's order. */
  method ScoreSeeds(f: UserSignals) returns (score: map<int, real>, order: seq<int>)
    ensures score == Accumulate(SeedDeltas(f)) && order == KeyOrder(SeedDeltas(f))
    ensures forall p :: Get(score, p) == SeedFormula(f, p)
    ensures forall p :: p in score <==> p in order
  {
    var interestScores, interestOrder := DecayInterest(Take(f.interest, INTEREST_LIMIT));
    var d1 := LikeDeltas(Take(f.liked, LIKED_LIMIT));
    var d2 := Weighted(AggKeys(f.purchased), AggDict(f.purchased), 5.0);
    var d3 := Weighted(interestOrder, interestScores, 1.0);
    var d4 := Weighted(AggKeys(f.cart), AggDict(f.cart), 2.0);
    var d5 := Weighted(AggKeys(f.cancelled), AggDict(f.cancelled), -3.0);
    score, order := AddAll(map[], [], [], d1);
    assert [] + d1 == d1;
    score, order := AddAll(score, order, d1, d2);
    score, order := AddAll(score, order, d1 + d2, d3);
    score, order := AddAll(score, order, d1 + d2 + d3, d4);
    score, order := AddAll(score, order, d1 + d2 + d3 + d4, d5);
    assert d1 + d2 + d3 + d4 + d5 == SeedDeltas(f);
    forall p ensures Get(score, p) == SeedFormula(f, p) {
      SeedScoreFormula(f, p);
    }
    AccumulateFacts(SeedDeltas(f));
    DedupFacts(Keys(SeedDeltas(f)));
    assert forall p :: p in order <==> p in Elems(Keys(SeedDeltas(f)));
  }
}
