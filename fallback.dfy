/** `_anon_fallback(limit, exclude_ids)`: two ranked pools of in-stock
    products outside `exclude_ids` (best sellers first, and newest first),
    each cut at `2 * limit`, merged by alternating between them, skipping
    anything already seen, until `limit` products are gathered. The two
    rankings are query results and are inputs here: `topSelling` lists the
    catalog by units sold then recency, `recent` by creation date. */
module Fallback {
  import opened Common
  import opened Catalog

  /** A ranking restricted by `quantity__gt=0` and `.exclude(id__in=...)`. */
  function Eligible(catalog: map<int, Product>, ranked: seq<int>, exclude: set<int>): seq<int>
    decreases |ranked|
  {
    if ranked == [] then []
    else
      var r0 := Eligible(catalog, ranked[..|ranked| - 1], exclude);
      var x := ranked[|ranked| - 1];
      if InStock(catalog, x) && x !in exclude then r0 + [x] else r0
  }

  lemma {:induction false} EligibleFacts(catalog: map<int, Product>, ranked: seq<int>, exclude: set<int>)
    ensures forall y :: y in Eligible(catalog, ranked, exclude) <==> y in ranked && InStock(catalog, y) && y !in exclude
    ensures NoDup(ranked) ==> NoDup(Eligible(catalog, ranked, exclude))
    decreases |ranked|
  {
    if ranked != [] {
      var pre := ranked[..|ranked| - 1];
      assert ranked == pre + [ranked[|ranked| - 1]];
      EligibleFacts(catalog, pre, exclude);
    }
  }

  /** One pool: the first `2 * limit` rows of the restricted ranking. */
  function Pool(catalog: map<int, Product>, ranked: seq<int>, exclude: set<int>, limit: nat): seq<int> {
    Take(Eligible(catalog, ranked, exclude), 2 * limit)
  }

  /** The `i`-th product of a pool, if the pool is that long. */
  function Pick(pool: seq<int>, i: nat): seq<int> {
    if i < |pool| then [pool[i]] else []
  }

  /** Round `i` of the merge: the best-seller pick, then the recent pick. */
  function Layer(a: seq<int>, b: seq<int>, i: nat): seq<int> {
    Pick(a, i) + Pick(b, i)
  }

  /** The picks of round `i` from the first `j` of the pools `[a, b]`. */
  function PartialLayer(a: seq<int>, b: seq<int>, i: nat, j: nat): seq<int> {
    if j == 0 then [] else if j == 1 then Pick(a, i) else Layer(a, b, i)
  }

  /** Part-way through round `i`, the visited candidates lead up to the
      round's end, which leads up to the end of the merge. */
  lemma PartialPrefix(a: seq<int>, b: seq<int>, i: nat, j: nat, m: nat)
    requires j <= 2 && i < m
    ensures Interleaved(a, b, i) + PartialLayer(a, b, i, j) <= Interleaved(a, b, m)
  {
    InterleavedPrefix(a, b, i + 1, m);
  }

  /** Taking the next pool's pick extends the partial round by one pool. */
  lemma PartialStep(a: seq<int>, b: seq<int>, i: nat, j: nat)
    requires j < 2
    ensures PartialLayer(a, b, i, j + 1) == PartialLayer(a, b, i, j) + Pick([a, b][j], i)
  {
  }

  /** The candidates the merge visits in its first `k` rounds, in order. */
  function Interleaved(a: seq<int>, b: seq<int>, k: nat): seq<int> {
    if k == 0 then [] else Interleaved(a, b, k - 1) + Layer(a, b, k - 1)
  }

  function Max(x: int, y: int): int {
    if x >= y then x else y
  }

  lemma PrefixAppend(p: seq<int>, q: seq<int>, r: seq<int>)
    requires p <= q
    ensures p <= q + r
  {
    assert (q + r)[..|q|] == q;
  }

  lemma {:induction false} InterleavedPrefix(a: seq<int>, b: seq<int>, k: nat, m: nat)
    requires k <= m
    ensures Interleaved(a, b, k) <= Interleaved(a, b, m)
    decreases m
  {
    if k < m {
      InterleavedPrefix(a, b, k, m - 1);
      PrefixAppend(Interleaved(a, b, k), Interleaved(a, b, m - 1), Layer(a, b, m - 1));
    }
  }

  lemma {:induction false} InterleavedLength(a: seq<int>, b: seq<int>, k: nat)
    requires k <= |a| && k <= |b|
    ensures |Interleaved(a, b, k)| == 2 * k
  {
    if k > 0 {
      InterleavedLength(a, b, k - 1);
    }
  }

  /** While both pools last, position `2i` holds the `i`-th best seller and
      position `2i + 1` the `i`-th recent product. */
  lemma InterleavedAt(a: seq<int>, b: seq<int>, i: nat, m: nat)
    requires i < |a| && i < |b| && i < m
    ensures |Interleaved(a, b, m)| > 2 * i + 1
    ensures Interleaved(a, b, m)[2 * i] == a[i] && Interleaved(a, b, m)[2 * i + 1] == b[i]
  {
    InterleavedLength(a, b, i);
    InterleavedPrefix(a, b, i + 1, m);
    assert Interleaved(a, b, i + 1) == Interleaved(a, b, i) + [a[i], b[i]];
  }

  /** After enough rounds every product of either pool has been visited, and
      nothing else has. */
  lemma {:induction false} InterleavedElems(a: seq<int>, b: seq<int>, k: nat)
    ensures forall y :: y in Interleaved(a, b, k) <==> exists i :: 0 <= i < k && ((i < |a| && a[i] == y) || (i < |b| && b[i] == y))
  {
    if k > 0 {
      InterleavedElems(a, b, k - 1);
      var last := k - 1;
      assert Interleaved(a, b, k) == Interleaved(a, b, last) + Layer(a, b, last);
      forall y ensures y in Interleaved(a, b, k) <==> exists i :: 0 <= i < k && ((i < |a| && a[i] == y) || (i < |b| && b[i] == y)) {
        var now := (last < |a| && a[last] == y) || (last < |b| && b[last] == y);
        assert y in Layer(a, b, last) <==> now;
        if exists i :: 0 <= i < k && ((i < |a| && a[i] == y) || (i < |b| && b[i] == y)) {
          var i :| 0 <= i < k && ((i < |a| && a[i] == y) || (i < |b| && b[i] == y));
          if i < last {
            assert y in Interleaved(a, b, last);
          }
        }
      }
    }
  }

  /** The fallback's result: the merged pools gathered up to `limit`. */
  function FallbackIds(catalog: map<int, Product>, topSelling: seq<int>, recent: seq<int>,
                       limit: int, exclude: set<int>): seq<int>
    requires limit > 0
  {
    var a := Pool(catalog, topSelling, exclude, limit);
    var b := Pool(catalog, recent, exclude, limit);
    Collect(Interleaved(a, b, Max(|a|, |b|)), exclude, limit)
  }

  /** The merge visits only products of the two pools. */
  lemma InterleavedWithin(a: seq<int>, b: seq<int>, k: nat)
    ensures forall y :: y in Interleaved(a, b, k) ==> y in a || y in b
  {
    InterleavedElems(a, b, k);
    forall y | y in Interleaved(a, b, k) ensures y in a || y in b {
      var i :| 0 <= i < k && ((i < |a| && a[i] == y) || (i < |b| && b[i] == y));
    }
  }

  /** Given enough rounds, the merge visits every product of both pools. */
  lemma InterleavedComplete(a: seq<int>, b: seq<int>)
    ensures forall y :: y in a || y in b ==> y in Interleaved(a, b, Max(|a|, |b|))
  {
    var m := Max(|a|, |b|);
    InterleavedElems(a, b, m);
    forall y | y in a ensures y in Interleaved(a, b, m) {
      var i :| 0 <= i < |a| && a[i] == y;
    }
    forall y | y in b ensures y in Interleaved(a, b, m) {
      var i :| 0 <= i < |b| && b[i] == y;
    }
  }

  /** The fallback returns at most `limit` distinct in-stock products, none
      of them excluded, each drawn from one of the two rankings; and when it
      returns fewer than `limit`, it returned every product of both pools. */
  lemma FallbackFacts(catalog: map<int, Product>, topSelling: seq<int>, recent: seq<int>,
                      limit: int, exclude: set<int>)
    requires limit > 0
    ensures NoDup(FallbackIds(catalog, topSelling, recent, limit, exclude))
    ensures |FallbackIds(catalog, topSelling, recent, limit, exclude)| <= limit
    ensures forall y :: y in FallbackIds(catalog, topSelling, recent, limit, exclude) ==>
              InStock(catalog, y) && y !in exclude && (y in topSelling || y in recent)
    ensures |FallbackIds(catalog, topSelling, recent, limit, exclude)| < limit ==>
              forall y :: y in Pool(catalog, topSelling, exclude, limit) || y in Pool(catalog, recent, exclude, limit) ==>
                y in FallbackIds(catalog, topSelling, recent, limit, exclude)
  {
    var a := Pool(catalog, topSelling, exclude, limit);
    var b := Pool(catalog, recent, exclude, limit);
    var xs := Interleaved(a, b, Max(|a|, |b|));
    EligibleFacts(catalog, topSelling, exclude);
    EligibleFacts(catalog, recent, exclude);
    CollectFacts(xs, exclude, limit);
    InterleavedWithin(a, b, Max(|a|, |b|));
    InterleavedComplete(a, b);
    assert forall y :: y in a ==> y in Eligible(catalog, topSelling, exclude);
    assert forall y :: y in b ==> y in Eligible(catalog, recent, exclude);
  }

  /** A non-empty best-seller pool supplies the fallback's first product. */
  lemma FallbackFirst(catalog: map<int, Product>, topSelling: seq<int>, recent: seq<int>,
                      limit: int, exclude: set<int>)
    requires limit > 0
    requires Pool(catalog, topSelling, exclude, limit) != []
    ensures FallbackIds(catalog, topSelling, recent, limit, exclude) != []
    ensures FallbackIds(catalog, topSelling, recent, limit, exclude)[0] == Pool(catalog, topSelling, exclude, limit)[0]
  {
    var a := Pool(catalog, topSelling, exclude, limit);
    var b := Pool(catalog, recent, exclude, limit);
    var m := Max(|a|, |b|);
    EligibleFacts(catalog, topSelling, exclude);
    assert a[0] in Eligible(catalog, topSelling, exclude);
    InterleavedPrefix(a, b, 1, m);
    var first := Interleaved(a, b, 1);
    assert first == [a[0]] + Pick(b, 0);
    CollectPrefix(first, Interleaved(a, b, m), exclude, limit);
    CollectSnoc([], a[0], exclude, limit);
    CollectPrefix([a[0]], first, exclude, limit);
  }

  /** `_anon_fallback`: the two pool queries, then the merge. The closure
      is only called with a positive `limit` (`n * 3`, `(n - k) * 3` and
      `(n - k) * 5` with `k < n`). */
  method AnonFallback(catalog: map<int, Product>, topSelling: seq<int>, recent: seq<int>,
                      limit: int, exclude: set<int>) returns (out: seq<int>)
    requires limit > 0
    ensures out == FallbackIds(catalog, topSelling, recent, limit, exclude)
  {
    var a := Pool(catalog, topSelling, exclude, limit);
    var b := Pool(catalog, recent, exclude, limit);
    out := MergePools(a, b, limit, exclude);
  }

  /** One visit of the inner loop: pool `j`'s pick of round `i`, if any,
      is gathered unless already seen. */
  lemma RoundVisit(a: seq<int>, b: seq<int>, i: nat, j: nat, out: seq<int>, seen: set<int>, exclude: set<int>, limit: int)
    requires j < 2
    requires out == Collect(Interleaved(a, b, i) + PartialLayer(a, b, i, j), exclude, limit) && |out| < limit
    requires seen == exclude + Elems(out)
    ensures var pool := [a, b][j];
            var next := Collect(Interleaved(a, b, i) + PartialLayer(a, b, i, j + 1), exclude, limit);
            && (i < |pool| ==> next == (if pool[i] in seen then out else out + [pool[i]])
                               && seen + {pool[i]} == exclude + Elems(out + [pool[i]]))
            && (i >= |pool| ==> next == out)
  {
    var visited := Interleaved(a, b, i) + PartialLayer(a, b, i, j);
    var pool := [a, b][j];
    PartialStep(a, b, i, j);
    assert Interleaved(a, b, i) + PartialLayer(a, b, i, j + 1) == visited + Pick(pool, i);
    if i < |pool| {
      VisitStep(visited, pool[i], out, seen, exclude, limit);
    } else {
      assert visited + Pick(pool, i) == visited;
    }
  }

  /** Returning early is right: once `limit` are gathered part-way through
      round `i`, the rest of the merge adds nothing. */
  lemma RoundCapped(a: seq<int>, b: seq<int>, i: nat, j: nat, m: nat, exclude: set<int>, limit: int)
    requires j <= 2 && i < m
    requires |Collect(Interleaved(a, b, i) + PartialLayer(a, b, i, j), exclude, limit)| >= limit
    ensures Collect(Interleaved(a, b, m), exclude, limit) == Collect(Interleaved(a, b, i) + PartialLayer(a, b, i, j), exclude, limit)
  {
    PartialPrefix(a, b, i, j, m);
    CollectCapped(Interleaved(a, b, i) + PartialLayer(a, b, i, j), Interleaved(a, b, m), exclude, limit);
  }

  /** The inner loop of `_anon_fallback`, round `i`: the best-seller pick
      then the recent pick, each taken if not seen; `full` when `limit` was
      reached and the function returns. */
  method MergeRound(a: seq<int>, b: seq<int>, i: nat, m: nat, out: seq<int>, seen: set<int>, exclude: set<int>, limit: int)
    returns (out': seq<int>, seen': set<int>, full: bool)
    requires i < m
    requires out == Collect(Interleaved(a, b, i), exclude, limit) && |out| < limit
    requires seen == exclude + Elems(out)
    ensures full ==> out' == Collect(Interleaved(a, b, m), exclude, limit)
    ensures !full ==> out' == Collect(Interleaved(a, b, i + 1), exclude, limit) && |out'| < limit
                      && seen' == exclude + Elems(out')
  {
    out', seen', full := out, seen, false;
    var pools := [a, b];
    var j := 0;
    assert Interleaved(a, b, i) + PartialLayer(a, b, i, 0) == Interleaved(a, b, i);
    while j < 2
      invariant 0 <= j <= 2
      invariant out' == Collect(Interleaved(a, b, i) + PartialLayer(a, b, i, j), exclude, limit)
      invariant seen' == exclude + Elems(out')
      invariant |out'| < limit
    {
      RoundVisit(a, b, i, j, out', seen', exclude, limit);
      if i < |pools[j]| {
        var x := pools[j][i];
        if x !in seen' {
          out' := out' + [x];
          seen' := seen' + {x};
          if |out'| >= limit {
            RoundCapped(a, b, i, j + 1, m, exclude, limit);
            full := true;
            return;
          }
        }
      }
      j := j + 1;
    }
    assert Interleaved(a, b, i) + PartialLayer(a, b, i, 2) == Interleaved(a, b, i + 1);
  }

  /** The outer loop of `_anon_fallback`: rounds until both pools are
      exhausted or `limit` products are gathered. */
  method MergePools(a: seq<int>, b: seq<int>, limit: int, exclude: set<int>) returns (out: seq<int>)
    requires limit > 0
    ensures out == Collect(Interleaved(a, b, Max(|a|, |b|)), exclude, limit)
  {
    var m := Max(|a|, |b|);
    out := [];
    var seen := exclude;
    var i := 0;
    while i < m
      invariant 0 <= i <= m
      invariant out == Collect(Interleaved(a, b, i), exclude, limit)
      invariant seen == exclude + Elems(out)
      invariant |out| < limit
    {
      var full;
      out, seen, full := MergeRound(a, b, i, m, out, seen, exclude, limit);
      if full {
        return;
      }
      i := i + 1;
    }
  }
}
