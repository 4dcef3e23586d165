/** `liked_product_ids_for_user`: which of the given product ids the user has
    liked. */
module LikeServices {
  import opened Common
  import opened ShopModels

  /** `[int(pid) for pid in product_ids if pid is not None]`. */
  function PresentIds(productIds: seq<Option<int>>): (ids: seq<int>)
    ensures forall p :: p in ids <==> Some(p) in productIds
    ensures |ids| <= |productIds|
    decreases |productIds|
  {
    if productIds == [] then []
    else
      var pre := productIds[..|productIds| - 1];
      var last := productIds[|productIds| - 1];
      assert productIds == pre + [last];
      PresentIds(pre) + (if last.Some? then [last.value] else [])
  }

  /** A list of ids as the helper receives it from a view. */
  function AsOptions(ids: seq<int>): (r: seq<Option<int>>)
    ensures |r| == |ids|
    ensures forall p :: Some(p) in r <==> p in ids
  {
    var r := seq(|ids|, i requires 0 <= i < |ids| => Some(ids[i]));
    assert forall p :: p in ids ==> Some(p) in r by {
      forall p | p in ids ensures Some(p) in r {
        var i :| 0 <= i < |ids| && ids[i] == p;
        assert r[i] == Some(p);
      }
    }
    r
  }

  /** The user's liked product ids among `productIds`; `likes` is the
      `LikedProduct` table. */
  function LikedProductIdsForUser(user: User, likes: seq<LikedRow>, productIds: seq<Option<int>>): (r: set<int>)
    ensures !IsAuthenticated(user) ==> r == {}
    ensures (forall i :: 0 <= i < |productIds| ==> productIds[i].None?) ==> r == {}
    ensures forall p :: p in r <==> IsAuthenticated(user) && Some(p) in productIds && LikeOf(likes, user.id, p).Some?
  {
    if !IsAuthenticated(user) then {}
    else
      var ids := PresentIds(productIds);
      if ids == [] then {}
      else set p | p in ids && LikeOf(likes, user.id, p).Some?
  }

  /** The result lies inside both the given ids and the user's likes. */
  lemma LikedIdsWithin(user: User, likes: seq<LikedRow>, productIds: seq<Option<int>>)
    ensures forall p :: p in LikedProductIdsForUser(user, likes, productIds) ==>
              Some(p) in productIds && (user.id, p) in LikePairs(likes)
  {
    forall p | p in LikedProductIdsForUser(user, likes, productIds)
      ensures (user.id, p) in LikePairs(likes)
    {
      var row := LikeOf(likes, user.id, p).value;
      assert row in likes;
    }
  }
}
