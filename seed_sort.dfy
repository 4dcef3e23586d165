/** `sorted(seed_score.items(), key=lambda kv: kv[1], reverse=True)`:
    Python's sort is stable, also with `reverse=True`, so products with equal
    scores keep the dictionary's insertion order. The sort is a library call
    and is modelled as a function: an insertion sort that places each item
    after every item whose score is at least its own. */
module SeedSort {
  import opened Common

  /** A `(product_id, score)` item of the seed dictionary. */
  datatype Scored = Scored(id: int, score: real)

  function Ids(s: seq<Scored>): seq<int> {
    seq(|s|, i requires 0 <= i < |s| => s[i].id)
  }

  /** Scores never increase along `s`. */
  predicate SortedDesc(s: seq<Scored>) {
    forall i, j :: 0 <= i < j < |s| ==> s[i].score >= s[j].score
  }

  /** Place `x` right after the last item of `t` whose score is at least
      `x.score`. */
  function Insert(x: Scored, t: seq<Scored>): seq<Scored>
    decreases |t|
  {
    if t == [] then [x]
    else if t[|t| - 1].score >= x.score then t + [x]
    else Insert(x, t[..|t| - 1]) + [t[|t| - 1]]
  }

  function SortDesc(s: seq<Scored>): seq<Scored>
    decreases |s|
  {
    if s == [] then [] else Insert(s[|s| - 1], SortDesc(s[..|s| - 1]))
  }

  /** The items of `s` whose score is `v`, in their order in `s`. */
  function WithScore(s: seq<Scored>, v: real): seq<Scored>
    decreases |s|
  {
    if s == [] then []
    else WithScore(s[..|s| - 1], v) + (if s[|s| - 1].score == v then [s[|s| - 1]] else [])
  }

  lemma {:induction false} WithScoreAppend(s: seq<Scored>, t: seq<Scored>, v: real)
    ensures WithScore(s + t, v) == WithScore(s, v) + WithScore(t, v)
    decreases |t|
  {
    if t != [] {
      var t0 := t[..|t| - 1];
      assert (s + t)[..|s + t| - 1] == s + t0;
      assert t[..|t| - 1] == t0;
      WithScoreAppend(s, t0, v);
    } else {
      assert s + t == s;
    }
  }

  /** Inserting one item adds exactly that item. */
  lemma {:induction false} InsertPerm(x: Scored, t: seq<Scored>)
    ensures multiset(Insert(x, t)) == multiset(t) + multiset{x}
    ensures forall z :: z in Insert(x, t) <==> z in t || z == x
    decreases |t|
  {
    if t != [] {
      var t0 := t[..|t| - 1];
      var y := t[|t| - 1];
      assert t == t0 + [y];
      if y.score < x.score {
        InsertPerm(x, t0);
      }
    }
  }

  /** Inserting an item with a new product id keeps the ids distinct. */
  lemma {:induction false} InsertIds(x: Scored, t: seq<Scored>)
    requires NoDup(Ids(t)) && x.id !in Ids(t)
    ensures NoDup(Ids(Insert(x, t)))
    decreases |t|
  {
    if t == [] {
    } else {
      var t0 := t[..|t| - 1];
      var y := t[|t| - 1];
      assert t == t0 + [y];
      assert Ids(t) == Ids(t0) + [y.id];
      NoDupSnoc(Ids(t0), y.id);
      if y.score >= x.score {
        assert Ids(t + [x]) == Ids(t) + [x.id];
        NoDupSnoc(Ids(t), x.id);
      } else {
        assert x.id !in Ids(t0);
        InsertIds(x, t0);
        InsertPerm(x, t0);
        var r := Insert(x, t0);
        assert Ids(r + [y]) == Ids(r) + [y.id];
        forall k | 0 <= k < |r| ensures Ids(r)[k] != y.id {
          assert r[k] in r;
          if r[k] != x {
            var m :| 0 <= m < |t0| && t0[m] == r[k];
            assert Ids(t0)[m] == r[k].id;
          }
        }
        NoDupSnoc(Ids(r), y.id);
      }
    }
  }

  /** Inserting into a sorted list keeps it sorted. */
  lemma {:induction false} InsertSorted(x: Scored, t: seq<Scored>)
    requires SortedDesc(t)
    ensures SortedDesc(Insert(x, t))
    decreases |t|
  {
    if t != [] {
      var t0 := t[..|t| - 1];
      var y := t[|t| - 1];
      assert t == t0 + [y];
      if y.score >= x.score {
        assert forall k :: 0 <= k < |t| ==> t[k].score >= y.score;
      } else {
        InsertSorted(x, t0);
        InsertPerm(x, t0);
        var r := Insert(x, t0);
        forall k | 0 <= k < |r| ensures r[k].score >= y.score {
          assert r[k] in r;
          if r[k] != x {
            var m :| 0 <= m < |t0| && t0[m] == r[k];
            assert t[m] == r[k];
          }
        }
      }
    }
  }

  /** The new item lands after every item of equal score. */
  lemma {:induction false} InsertStable(x: Scored, t: seq<Scored>, v: real)
    ensures WithScore(Insert(x, t), v) == WithScore(t, v) + WithScore([x], v)
    decreases |t|
  {
    if t == [] {
      assert WithScore([x], v) == WithScore([], v) + (if x.score == v then [x] else []);
    } else {
      var t0 := t[..|t| - 1];
      var y := t[|t| - 1];
      assert t == t0 + [y];
      if y.score >= x.score {
        WithScoreAppend(t, [x], v);
      } else {
        InsertStable(x, t0, v);
        WithScoreAppend(Insert(x, t0), [y], v);
        WithScoreAppend(t0, [y], v);
      }
    }
  }

  /** The sort is a stable descending sort: it permutes its input, leaves
      scores non-increasing, and keeps items of equal score in input order;
      product ids that were distinct stay distinct. */
  lemma {:induction false} SortFacts(s: seq<Scored>)
    ensures multiset(SortDesc(s)) == multiset(s)
    ensures |SortDesc(s)| == |s|
    ensures forall z :: z in SortDesc(s) <==> z in s
    ensures SortedDesc(SortDesc(s))
    ensures forall v :: WithScore(SortDesc(s), v) == WithScore(s, v)
    decreases |s|
  {
    if s != [] {
      var s0 := s[..|s| - 1];
      var x := s[|s| - 1];
      assert s == s0 + [x];
      SortFacts(s0);
      InsertPerm(x, SortDesc(s0));
      InsertSorted(x, SortDesc(s0));
      assert |multiset(SortDesc(s))| == |multiset(s)|;
      forall v ensures WithScore(SortDesc(s), v) == WithScore(s, v) {
        InsertStable(x, SortDesc(s0), v);
        WithScoreAppend(s0, [x], v);
      }
    }
  }

  /** Distinct product ids stay distinct through the sort. */
  lemma {:induction false} SortKeepsIdsDistinct(s: seq<Scored>)
    requires NoDup(Ids(s))
    ensures NoDup(Ids(SortDesc(s)))
    decreases |s|
  {
    if s != [] {
      var s0 := s[..|s| - 1];
      var x := s[|s| - 1];
      assert s == s0 + [x];
      assert Ids(s) == Ids(s0) + [x.id];
      NoDupSnoc(Ids(s0), x.id);
      SortKeepsIdsDistinct(s0);
      SortFacts(s0);
      forall k | 0 <= k < |SortDesc(s0)| ensures Ids(SortDesc(s0))[k] != x.id {
        assert SortDesc(s0)[k] in s0;
        var m :| 0 <= m < |s0| && s0[m] == SortDesc(s0)[k];
        assert Ids(s0)[m] == SortDesc(s0)[k].id;
      }
      InsertIds(x, SortDesc(s0));
    }
  }
}
