/** Shared vocabulary: optional values, the request user, and the sequence
    idioms the views and the recommender use over lists of product ids. */
module Common {

  datatype Option<+T> = None | Some(value: T)

  /** `request.user` as the code sees it: no user at all, Django's anonymous
      user, or an account that may or may not be authenticated. */
  datatype User = NoUser | AnonymousUser | Account(id: int, isAuthenticated: bool)

  /** The guard `not user or isinstance(user, AnonymousUser) or not
      user.is_authenticated`, negated. */
  predicate IsAuthenticated(u: User) {
    u.Account? && u.isAuthenticated
  }

  predicate NoDup<T(==)>(s: seq<T>) {
    forall i, j :: 0 <= i < j < |s| ==> s[i] != s[j]
  }

  lemma NoDupSnoc<T>(s: seq<T>, x: T)
    ensures NoDup(s + [x]) <==> NoDup(s) && x !in s
  {
    if NoDup(s + [x]) {
      assert forall i, j :: 0 <= i < j < |s| ==> s[i] == (s + [x])[i] && s[j] == (s + [x])[j];
      assert forall i :: 0 <= i < |s| ==> s[i] == (s + [x])[i] != (s + [x])[|s|];
    }
  }

  lemma NoDupAppend<T>(a: seq<T>, b: seq<T>)
    requires NoDup(a) && NoDup(b)
    requires forall x :: x in a ==> x !in b
    ensures NoDup(a + b)
  {
    forall i, j | 0 <= i < j < |a + b| ensures (a + b)[i] != (a + b)[j] {
      if j < |a| {
      } else if i >= |a| {
        assert (a + b)[i] == b[i - |a|] && (a + b)[j] == b[j - |a|];
      } else {
        assert (a + b)[i] == a[i] && a[i] in a;
        assert (a + b)[j] == b[j - |a|];
      }
    }
  }

  function Elems<T>(s: seq<T>): set<T> {
    set x | x in s
  }

  /** Python's `s[:k]` for a non-negative `k`. */
  function Take<T>(s: seq<T>, k: nat): seq<T> {
    if k < |s| then s[..k] else s
  }

  /** `a` is an order-preserving subsequence of `b`. */
  predicate IsSubseq<T(==)>(a: seq<T>, b: seq<T>)
    decreases |b|
  {
    if a == [] then true
    else if b == [] then false
    else if a[0] == b[0] then IsSubseq(a[1..], b[1..])
    else IsSubseq(a, b[1..])
  }

  lemma {:induction false} SubseqExtend<T>(a: seq<T>, b: seq<T>, x: T)
    requires IsSubseq(a, b)
    ensures IsSubseq(a, b + [x])
    decreases |b|
  {
    if a != [] {
      assert (b + [x])[1..] == b[1..] + [x];
      if a[0] == b[0] {
        SubseqExtend(a[1..], b[1..], x);
      } else {
        SubseqExtend(a, b[1..], x);
      }
    }
  }

  lemma {:induction false} SubseqSingleton<T>(b: seq<T>, x: T)
    ensures IsSubseq([x], b + [x])
    decreases |b|
  {
    if b != [] && b[0] != x {
      assert (b + [x])[1..] == b[1..] + [x];
      SubseqSingleton(b[1..], x);
    }
  }

  /** A prefix of a subsequence is a subsequence. */
  lemma {:induction false} SubseqPrefix<T>(a: seq<T>, b: seq<T>, k: nat)
    requires IsSubseq(a, b) && k <= |a|
    ensures IsSubseq(a[..k], b)
    decreases |b|
  {
    if k > 0 {
      if a[0] == b[0] {
        assert a[..k][1..] == a[1..][..k - 1];
        SubseqPrefix(a[1..], b[1..], k - 1);
      } else {
        SubseqPrefix(a, b[1..], k);
      }
    }
  }

  lemma {:induction false} SubseqAppendBoth<T>(a: seq<T>, b: seq<T>, x: T)
    requires IsSubseq(a, b)
    ensures IsSubseq(a + [x], b + [x])
    decreases |b|
  {
    if a == [] {
      SubseqSingleton(b, x);
      assert a + [x] == [x];
    } else {
      assert (a + [x])[0] == a[0] && (a + [x])[1..] == a[1..] + [x];
      assert (b + [x])[1..] == b[1..] + [x];
      if a[0] == b[0] {
        SubseqAppendBoth(a[1..], b[1..], x);
      } else {
        SubseqAppendBoth(a, b[1..], x);
      }
    }
  }

  lemma {:induction false} SubseqElems<T>(a: seq<T>, b: seq<T>)
    requires IsSubseq(a, b)
    ensures Elems(a) <= Elems(b)
    decreases |b|
  {
    if a != [] {
      if a[0] == b[0] {
        SubseqElems(a[1..], b[1..]);
        forall y | y in a ensures y in b {
          if y != a[0] {
            assert y in a[1..];
            assert y in Elems(b[1..]);
          }
        }
      } else {
        SubseqElems(a, b[1..]);
        forall y | y in a ensures y in b {
          assert y in Elems(b[1..]);
        }
      }
    }
  }

  /** The elements of `xs`, in first-seen order, that are not in `exclude`,
      gathering stops once `cap` of them have been taken. This is the loop
      "if x not in seen: out.append(x); seen.add(x); if len(out) >= cap: stop"
      with `seen` starting as `exclude`. */
  function Collect(xs: seq<int>, exclude: set<int>, cap: int): seq<int>
    decreases |xs|
  {
    if xs == [] then []
    else
      var r0 := Collect(xs[..|xs| - 1], exclude, cap);
      var x := xs[|xs| - 1];
      if |r0| >= cap || x in exclude || x in r0 then r0 else r0 + [x]
  }

  /** One more candidate at the end: the step the loops take. */
  lemma CollectSnoc(xs: seq<int>, x: int, exclude: set<int>, cap: int)
    ensures Collect(xs + [x], exclude, cap)
         == (var r0 := Collect(xs, exclude, cap);
             if |r0| >= cap || x in exclude || x in r0 then r0 else r0 + [x])
  {
    assert (xs + [x])[..|xs|] == xs;
  }

  /** What `Collect` gathers: distinct, not excluded, drawn from `xs` in
      order, at most `cap`, and, while the cap is not reached, everything
      eligible. */
  lemma {:induction false} CollectFacts(xs: seq<int>, exclude: set<int>, cap: int)
    ensures NoDup(Collect(xs, exclude, cap))
    ensures forall y :: y in Collect(xs, exclude, cap) ==> y in xs && y !in exclude
    ensures |Collect(xs, exclude, cap)| <= cap || Collect(xs, exclude, cap) == []
    ensures IsSubseq(Collect(xs, exclude, cap), xs)
    ensures |Collect(xs, exclude, cap)| < cap ==>
              forall y :: y in xs && y !in exclude ==> y in Collect(xs, exclude, cap)
    decreases |xs|
  {
    if xs != [] {
      var pre := xs[..|xs| - 1];
      var x := xs[|xs| - 1];
      assert xs == pre + [x];
      CollectFacts(pre, exclude, cap);
      var r0 := Collect(pre, exclude, cap);
      if |r0| >= cap || x in exclude || x in r0 {
        SubseqExtend(r0, pre, x);
      } else {
        SubseqAppendBoth(r0, pre, x);
      }
    }
  }

  /** One visit of the merge loop: a candidate not yet seen is gathered. */
  lemma VisitStep(visited: seq<int>, x: int, out: seq<int>, seen: set<int>, exclude: set<int>, limit: int)
    requires out == Collect(visited, exclude, limit) && |out| < limit
    requires seen == exclude + Elems(out)
    ensures Collect(visited + [x], exclude, limit) == if x in seen then out else out + [x]
    ensures seen + {x} == exclude + Elems(out + [x])
  {
    CollectSnoc(visited, x, exclude, limit);
    assert Elems(out + [x]) == Elems(out) + {x};
  }

  /** The step of a loop over `xs` by index: visiting `xs[i]`. */
  lemma IndexStep(xs: seq<int>, i: int, out: seq<int>, seen: set<int>, exclude: set<int>, limit: int)
    requires 0 <= i < |xs|
    requires out == Collect(xs[..i], exclude, limit) && |out| < limit
    requires seen == exclude + Elems(out)
    ensures Collect(xs[..i + 1], exclude, limit) == if xs[i] in seen then out else out + [xs[i]]
    ensures seen + {xs[i]} == exclude + Elems(out + [xs[i]])
  {
    assert xs[..i + 1] == xs[..i] + [xs[i]];
    VisitStep(xs[..i], xs[i], out, seen, exclude, limit);
  }

  /** A loop over `xs` by index that stops at the end or at the cap has
      collected all of `xs`. */
  lemma IndexDone(xs: seq<int>, i: int, out: seq<int>, exclude: set<int>, limit: int)
    requires 0 <= i <= |xs| && out == Collect(xs[..i], exclude, limit)
    requires i == |xs| || |out| >= limit
    ensures out == Collect(xs, exclude, limit)
  {
    if i < |xs| {
      CollectCapped(xs[..i], xs, exclude, limit);
    } else {
      assert xs[..i] == xs;
    }
  }

  /** Once the cap is reached, later candidates change nothing. */
  lemma {:induction false} CollectCapped(xs: seq<int>, ys: seq<int>, exclude: set<int>, cap: int)
    requires xs <= ys
    requires |Collect(xs, exclude, cap)| >= cap
    ensures Collect(ys, exclude, cap) == Collect(xs, exclude, cap)
    decreases |ys|
  {
    if |ys| > |xs| {
      var pre := ys[..|ys| - 1];
      assert xs <= pre;
      CollectCapped(xs, pre, exclude, cap);
    } else {
      assert ys == xs;
    }
  }

  /** Gathering is monotone: more candidates only extend what was gathered. */
  lemma {:induction false} CollectPrefix(xs: seq<int>, ys: seq<int>, exclude: set<int>, cap: int)
    requires xs <= ys
    ensures Collect(xs, exclude, cap) <= Collect(ys, exclude, cap)
    decreases |ys|
  {
    if |ys| > |xs| {
      var pre := ys[..|ys| - 1];
      assert xs <= pre;
      CollectPrefix(xs, pre, exclude, cap);
    } else {
      assert ys == xs;
    }
  }

  /** `xs` without repeats, in first-seen order (Python's insertion-ordered
      dict keys, or `seen`-set deduplication without a cap). */
  function Dedup(xs: seq<int>): seq<int>
    decreases |xs|
  {
    if xs == [] then []
    else
      var r0 := Dedup(xs[..|xs| - 1]);
      if xs[|xs| - 1] in r0 then r0 else r0 + [xs[|xs| - 1]]
  }

  lemma DedupSnoc(xs: seq<int>, x: int)
    ensures Dedup(xs + [x]) == if x in Dedup(xs) then Dedup(xs) else Dedup(xs) + [x]
  {
    assert (xs + [x])[..|xs|] == xs;
  }

  lemma {:induction false} DedupFacts(xs: seq<int>)
    ensures NoDup(Dedup(xs))
    ensures Elems(Dedup(xs)) == Elems(xs)
    ensures |Dedup(xs)| <= |xs|
    decreases |xs|
  {
    if xs != [] {
      var pre := xs[..|xs| - 1];
      var x := xs[|xs| - 1];
      assert xs == pre + [x];
      DedupFacts(pre);
      assert Elems(xs) == Elems(pre) + {x};
    }
  }
}
