/** The shop views around the recommender: the `highlight` parameter of the
    product list, the like toggle, and the product page that records a view
    before it recommends. */
module ShopViews {
  import opened Common
  import opened PyText
  import opened Catalog
  import opened RecCache
  import opened ShopModels
  import opened Signals
  import opened InterestRecording
  import opened LikeServices
  import opened Seeds
  import opened Recommendations

  /** `int(h) if (h and h.isdigit()) else None` as written: a superscript
      digit passes `isdigit()` and `int()` raises. */
  function ParseHighlightAsWritten(h: Option<string>): (r: Outcome<Option<nat>>)
    ensures r.Raised? <==> h.Some? && IsDigits(h.value) && !IsDecimal(h.value)
  {
    if h.None? || h.value == [] then Returned(None) else DigitsToIntAsWritten(h.value)
  }

  /** `?highlight=²` fails the request instead of being ignored. */
  lemma HighlightAsWrittenRaises()
    ensures ParseHighlightAsWritten(Some("\U{B2}")) == Raised
  {
    SuperscriptRaises();
  }

  /** The highlight id: present exactly for a non-empty string of decimal
      digits, and then its value. */
  function ParseHighlight(h: Option<string>): (r: Option<nat>)
    ensures r.Some? <==> h.Some? && IsDecimal(h.value)
    ensures r.Some? ==> r.value == DecimalValue(h.value)
    ensures ParseHighlightAsWritten(h).Returned? ==> r == ParseHighlightAsWritten(h).value
  {
    if h.None? then None else DigitsToInt(h.value)
  }

  /** A highlight link built from a product id selects that product. */
  lemma HighlightRoundTrip(id: nat)
    ensures ParseHighlight(Some(NatToDecimal(id))) == Some(id)
  {
    DigitsToIntRoundTrip(id);
  }

  predicate StrictlyDescending(ids: seq<int>) {
    forall i, j :: 0 <= i < j < |ids| ==> ids[i] > ids[j]
  }

  /** `ids` without `x`, in order. */
  function Without(ids: seq<int>, x: int): (r: seq<int>)
    ensures forall y :: y in r <==> y in ids && y != x
    ensures |r| <= |ids|
    ensures IsSubseq(r, ids)
    decreases |ids|
  {
    if ids == [] then []
    else
      var pre := ids[..|ids| - 1];
      var y := ids[|ids| - 1];
      var r0 := Without(pre, x);
      assert ids == pre + [y];
      if y == x then
        SubseqExtend(r0, pre, y);
        r0
      else
        SubseqAppendBoth(r0, pre, y);
        r0 + [y]
  }

  lemma {:induction false} WithoutDescending(ids: seq<int>, x: int)
    requires StrictlyDescending(ids)
    ensures StrictlyDescending(Without(ids, x))
    decreases |ids|
  {
    if ids != [] {
      var pre := ids[..|ids| - 1];
      WithoutDescending(pre, x);
      var r0 := Without(pre, x);
      var y := ids[|ids| - 1];
      if y != x {
        assert forall i :: 0 <= i < |r0| ==> r0[i] in pre;
        assert forall i :: 0 <= i < |r0| ==> r0[i] > y;
      }
    }
  }

  /** The sort key of `order_by('_highlight', '-id')`: `a` comes before `b`. */
  predicate Before(a: int, b: int, h: Option<int>) {
    var ka := if h == Some(a) then 0 else 1;
    var kb := if h == Some(b) then 0 else 1;
    ka < kb || (ka == kb && a > b)
  }

  /** The product list order: `ids` is the list ordered by `-id`; the
      highlighted product, when listed, moves to the front. */
  function HighlightOrder(ids: seq<int>, h: Option<int>): seq<int> {
    if h.Some? && h.value in ids then [h.value] + Without(ids, h.value) else ids
  }

  /** The order holds the same products, each once, sorted by the key
      (highlight first, then descending id). */
  lemma HighlightOrderSorted(ids: seq<int>, h: Option<int>)
    requires StrictlyDescending(ids)
    ensures var r := HighlightOrder(ids, h);
            (forall y :: y in r <==> y in ids) && |r| == |ids| && NoDup(r)
            && (forall i, j :: 0 <= i < j < |r| ==> Before(r[i], r[j], h))
            && (h.Some? && h.value in ids ==> r[0] == h.value)
  {
    var r := HighlightOrder(ids, h);
    if h.Some? && h.value in ids {
      var x := h.value;
      var rest := Without(ids, x);
      WithoutDescending(ids, x);
      WithoutCount(ids, x);
      forall i, j | 0 <= i < j < |r| ensures Before(r[i], r[j], h) {
        if i == 0 {
          assert r[j] == rest[j - 1] && rest[j - 1] in rest;
        } else {
          assert r[i] == rest[i - 1] && r[j] == rest[j - 1];
          assert rest[i - 1] in rest && rest[j - 1] in rest;
        }
      }
    } else {
      forall i, j | 0 <= i < j < |r| ensures Before(r[i], r[j], h) {
        assert r[i] in ids && r[j] in ids;
      }
    }
  }

  /** Removing a listed id from a list without repeats shortens it by one. */
  lemma {:induction false} WithoutCount(ids: seq<int>, x: int)
    requires StrictlyDescending(ids) && x in ids
    ensures |Without(ids, x)| == |ids| - 1
    decreases |ids|
  {
    var pre := ids[..|ids| - 1];
    var y := ids[|ids| - 1];
    if y == x {
      WithoutAbsent(pre, x);
    } else {
      assert x in pre;
      WithoutCount(pre, x);
    }
  }

  lemma {:induction false} WithoutAbsent(ids: seq<int>, x: int)
    requires x !in ids
    ensures Without(ids, x) == ids
    decreases |ids|
  {
    if ids != [] {
      var pre := ids[..|ids| - 1];
      WithoutAbsent(pre, x);
      assert ids == pre + [ids[|ids| - 1]];
    }
  }

  /** What the like button answers. */
  datatype LikeResponse = LoginRedirect | NotFound | LikedState(liked: bool)

  /** The like set after a toggle of `pair`. */
  function Toggled(likes: set<(int, int)>, pair: (int, int)): (r: set<(int, int)>)
    ensures pair in r <==> pair !in likes
    ensures forall q :: q != pair ==> (q in r <==> q in likes)
  {
    if pair in likes then likes - {pair} else likes + {pair}
  }

  /** Toggling twice restores the like set. */
  lemma ToggleTwice(likes: set<(int, int)>, pair: (int, int))
    ensures Toggled(Toggled(likes, pair), pair) == likes
  {
  }

  /** A pair is in the like set exactly when the lookup finds its row. */
  lemma LikePairsLookup(rows: seq<LikedRow>, u: int, p: int)
    ensures (u, p) in LikePairs(rows) <==> LikeOf(rows, u, p).Some?
  {
    if (u, p) in LikePairs(rows) {
      var r :| r in rows && (r.user, r.product) == (u, p);
      var k :| 0 <= k < |rows| && rows[k] == r;
    }
  }

  /** `toggle_like`: create the like (its `post_save` signal evicts the
      user's recommendations) and record interest of weight 3, or delete the
      like (its `post_delete` signal evicts). */
  method ToggleLike(user: User, productId: int, catalog: map<int, Product>, now: int,
                    likes: LikeTable, interests: InterestTable, cache: Cache)
    returns (resp: LikeResponse)
    requires likes.Valid() && interests.Valid()
    modifies likes, interests, cache
    ensures likes.Valid() && interests.Valid()
    ensures !IsAuthenticated(user) ==> resp == LoginRedirect
    ensures IsAuthenticated(user) && productId !in catalog ==> resp == NotFound
    ensures resp.LoginRedirect? || resp.NotFound? ==>
              likes.rows == old(likes.rows) && interests.rows == old(interests.rows) && cache.entries == old(cache.entries)
    ensures IsAuthenticated(user) && productId in catalog ==>
              resp == LikedState(LikeOf(old(likes.rows), user.id, productId).None?)
              && LikePairs(likes.rows) == Toggled(LikePairs(old(likes.rows)), (user.id, productId))
              && cache.entries == Evict(old(cache.entries), user.id)
    ensures resp == LikedState(true) ==>
              forall u, p :: InterestOf(interests.rows, u, p)
                == if u == user.id && p == productId
                   then Recorded(InterestOf(old(interests.rows), u, p), u, p, 3, now)
                   else InterestOf(old(interests.rows), u, p)
    ensures resp == LikedState(false) ==> interests.rows == old(interests.rows)
  {
    if !IsAuthenticated(user) {
      return LoginRedirect;
    }
    if productId !in catalog {
      return NotFound;
    }
    var uid := user.id;
    ghost var before := likes.rows;
    LikePairsLookup(before, uid, productId);
    var k, created := likes.GetOrCreate(uid, productId, now);
    if created {
      assert LikePairs(likes.rows) == LikePairs(before) + {(uid, productId)};
      InvalidateRecsOnLikeChange(cache, likes.rows[k]);
      RecordProductInterest(user, productId, 3, now, interests, cache);
      return LikedState(true);
    }
    var row := likes.rows[k];
    likes.Delete(k);
    forall q ensures q in LikePairs(likes.rows) <==> q in Toggled(LikePairs(before), (uid, productId)) {
      LikePairsLookup(likes.rows, q.0, q.1);
      LikePairsLookup(before, q.0, q.1);
    }
    InvalidateRecsOnLikeChange(cache, row);
    return LikedState(false);
  }

  /** What the product page shows: the recommendations and which of the
      shown ids the user likes. */
  datatype DetailResponse = DetailNotFound | Detail(recommended: seq<int>, likedIds: set<int>)

  /** `product_detail`: record a view (weight 1), then recommend 5 and drop
      the product itself. `w` and `f` are the database as read after the
      view is recorded. */
  method ProductDetail(user: User, productId: int, w: World, f: UserSignals, now: int,
                       likes: LikeTable, interests: InterestTable, cache: Cache)
    returns (resp: DetailResponse)
    requires interests.Valid()
    modifies interests, cache
    ensures interests.Valid()
    ensures productId !in w.catalog ==>
              resp == DetailNotFound && interests.rows == old(interests.rows) && cache.entries == old(cache.entries)
    ensures productId in w.catalog ==> resp.Detail?
    ensures resp.Detail? ==> productId !in resp.recommended && |resp.recommended| <= 5
    ensures resp.Detail? && IsAuthenticated(user) ==>
              resp.recommended == Without(FreshIds(w, f, user, 5), productId)
              && (forall u, p :: InterestOf(interests.rows, u, p)
                    == if u == user.id && p == productId
                       then Recorded(InterestOf(old(interests.rows), u, p), u, p, 1, now)
                       else InterestOf(old(interests.rows), u, p))
    ensures resp.Detail? ==>
              forall p :: p in resp.likedIds <==>
                IsAuthenticated(user) && (p == productId || p in resp.recommended) && LikeOf(likes.rows, user.id, p).Some?
    ensures productId in w.catalog && IsAuthenticated(user) ==>
              cache.entries == Evict(old(cache.entries), user.id)[RecsKey(user, 5) := Entry(IdList(FreshIds(w, f, user, 5)), now + USER_TTL)]
    ensures productId in w.catalog && !IsAuthenticated(user) ==>
              resp.recommended == Without(ServedRecs(w, f, user, 5, old(cache.entries), now), productId)
              && cache.entries == RecsStored(w, f, user, 5, old(cache.entries), now)
  {
    if productId !in w.catalog {
      return DetailNotFound;
    }
    RecordProductInterest(user, productId, 1, now, interests, cache);
    if IsAuthenticated(user) {
      EvictedMiss(w, f, user, old(cache.entries), now);
    }
    var recs := GetRecommendedProducts(cache, user, 5, w, f, now);
    var shown := Without(recs, productId);
    var ids := AsOptions([productId] + shown);
    return Detail(shown, LikedProductIdsForUser(user, likes.rows, ids));
  }
}
