/** The two tables of the shop app: `ProductInterest` (a non-negative score
    per user and product, with an auto-refreshed `updated_at`) and
    `LikedProduct` (a like per user and product, with a creation time).
    Each table holds at most one row per (user, product). */
module ShopModels {
  import opened Common

  datatype InterestRow = InterestRow(user: int, product: int, score: nat, updatedAt: int)

  datatype LikedRow = LikedRow(user: int, product: int, createdAt: int)

  /** `unique_together = ('user', 'product')` on `ProductInterest`. */
  predicate UniqueInterest(rows: seq<InterestRow>) {
    forall i, j :: 0 <= i < j < |rows| ==> (rows[i].user, rows[i].product) != (rows[j].user, rows[j].product)
  }

  /** `unique_together = ("user", "product")` on `LikedProduct`. */
  predicate UniqueLikes(rows: seq<LikedRow>) {
    forall i, j :: 0 <= i < j < |rows| ==> (rows[i].user, rows[i].product) != (rows[j].user, rows[j].product)
  }

  /** `ProductInterest.objects.filter(user=u, product=p).first()`. */
  function InterestOf(rows: seq<InterestRow>, u: int, p: int): (r: Option<InterestRow>)
    ensures r.Some? ==> r.value in rows && r.value.user == u && r.value.product == p
    ensures r.None? ==> forall k :: 0 <= k < |rows| ==> (rows[k].user, rows[k].product) != (u, p)
    decreases |rows|
  {
    if rows == [] then None
    else if rows[0].user == u && rows[0].product == p then Some(rows[0])
    else InterestOf(rows[1..], u, p)
  }

  /** `LikedProduct.objects.filter(user=u, product=p).first()`. */
  function LikeOf(rows: seq<LikedRow>, u: int, p: int): (r: Option<LikedRow>)
    ensures r.Some? ==> r.value in rows && r.value.user == u && r.value.product == p
    ensures r.None? ==> forall k :: 0 <= k < |rows| ==> (rows[k].user, rows[k].product) != (u, p)
    decreases |rows|
  {
    if rows == [] then None
    else if rows[0].user == u && rows[0].product == p then Some(rows[0])
    else LikeOf(rows[1..], u, p)
  }

  /** In a table with unique pairs, the row at index `k` is the row its
      pair looks up. */
  lemma {:induction false} InterestOfIndex(rows: seq<InterestRow>, k: nat)
    requires UniqueInterest(rows) && k < |rows|
    ensures InterestOf(rows, rows[k].user, rows[k].product) == Some(rows[k])
    decreases |rows|
  {
    if k > 0 {
      assert (rows[0].user, rows[0].product) != (rows[k].user, rows[k].product);
      assert rows[1..][k - 1] == rows[k];
      InterestOfIndex(rows[1..], k - 1);
    }
  }

  /** Appending a row for a new pair adds that pair and changes no other. */
  lemma {:induction false} InterestOfAppend(rows: seq<InterestRow>, row: InterestRow, u: int, p: int)
    requires InterestOf(rows, row.user, row.product) == None
    ensures InterestOf(rows + [row], u, p)
         == if (u, p) == (row.user, row.product) then Some(row) else InterestOf(rows, u, p)
    decreases |rows|
  {
    if rows != [] {
      assert (rows + [row])[1..] == rows[1..] + [row];
      if !(rows[0].user == u && rows[0].product == p) {
        InterestOfAppend(rows[1..], row, u, p);
      }
    }
  }

  /** The row a queryset `update(score=F("score") + delta)` leaves, for the
      rows of user `u` whose product is in `products`: only the score moves,
      `updated_at` is not refreshed because `save()` is not called. */
  function Bumped(r: InterestRow, u: int, products: set<int>, delta: nat): InterestRow {
    if r.user == u && r.product in products then r.(score := r.score + delta) else r
  }

  /** A row-wise update seen through the lookup. */
  lemma {:induction false} InterestOfBumped(rows: seq<InterestRow>, rows': seq<InterestRow>,
                                            u: int, products: set<int>, delta: nat, u': int, p': int)
    requires |rows'| == |rows|
    requires forall k :: 0 <= k < |rows| ==> rows'[k] == Bumped(rows[k], u, products, delta)
    ensures InterestOf(rows', u', p')
         == match InterestOf(rows, u', p')
            case None => None
            case Some(r) => Some(Bumped(r, u, products, delta))
    decreases |rows|
  {
    if rows != [] {
      assert rows'[0] == Bumped(rows[0], u, products, delta);
      InterestOfBumped(rows[1..], rows'[1..], u, products, delta, u', p');
    }
  }

  lemma {:induction false} LikeOfIndex(rows: seq<LikedRow>, k: nat)
    requires UniqueLikes(rows) && k < |rows|
    ensures LikeOf(rows, rows[k].user, rows[k].product) == Some(rows[k])
    decreases |rows|
  {
    if k > 0 {
      assert (rows[0].user, rows[0].product) != (rows[k].user, rows[k].product);
      assert rows[1..][k - 1] == rows[k];
      LikeOfIndex(rows[1..], k - 1);
    }
  }

  lemma {:induction false} LikeOfAppend(rows: seq<LikedRow>, row: LikedRow, u: int, p: int)
    requires LikeOf(rows, row.user, row.product) == None
    ensures LikeOf(rows + [row], u, p)
         == if (u, p) == (row.user, row.product) then Some(row) else LikeOf(rows, u, p)
    decreases |rows|
  {
    if rows != [] {
      assert (rows + [row])[1..] == rows[1..] + [row];
      if !(rows[0].user == u && rows[0].product == p) {
        LikeOfAppend(rows[1..], row, u, p);
      }
    }
  }

  /** Removing the row at `k` of a table with unique pairs removes its pair
      and changes no other lookup. */
  lemma {:induction false} LikeOfRemove(rows: seq<LikedRow>, k: nat, u: int, p: int)
    requires UniqueLikes(rows) && k < |rows|
    ensures LikeOf(rows[..k] + rows[k + 1..], u, p)
         == if (u, p) == (rows[k].user, rows[k].product) then None else LikeOf(rows, u, p)
    decreases |rows|
  {
    var rest := rows[..k] + rows[k + 1..];
    if k == 0 {
      assert rest == rows[1..];
    } else {
      assert rest[0] == rows[0];
      assert rest[1..] == rows[1..][..k - 1] + rows[1..][k..];
      LikeOfRemove(rows[1..], k - 1, u, p);
    }
  }

  /** The set of (user, product) pairs that are liked. */
  function LikePairs(rows: seq<LikedRow>): set<(int, int)> {
    set r | r in rows :: (r.user, r.product)
  }

  class InterestTable {
    var rows: seq<InterestRow>

    ghost predicate Valid()
      reads this
    {
      UniqueInterest(rows)
    }

    constructor ()
      ensures Valid() && rows == []
    {
      rows := [];
    }

    /** `get_or_create(user=u, product=p, defaults={"score": 0})`: a created
        row is saved, so its `updated_at` is `now`. */
    method GetOrCreate(u: int, p: int, now: int) returns (k: nat, created: bool)
      requires Valid()
      modifies this
      ensures Valid()
      ensures created <==> InterestOf(old(rows), u, p) == None
      ensures k < |rows| && rows[k].user == u && rows[k].product == p
      ensures created ==> rows == old(rows) + [InterestRow(u, p, 0, now)]
      ensures !created ==> rows == old(rows)
    {
      k := 0;
      while k < |rows|
        invariant 0 <= k <= |rows|
        invariant forall j :: 0 <= j < k ==> (rows[j].user, rows[j].product) != (u, p)
      {
        if rows[k].user == u && rows[k].product == p {
          InterestOfIndex(rows, k);
          created := false;
          return;
        }
        k := k + 1;
      }
      created := true;
      rows := rows + [InterestRow(u, p, 0, now)];
    }

    /** `ProductInterest.objects.filter(user=u, product_id__in=products)
        .update(score=F("score") + delta)`. */
    method UpdateAddScore(u: int, products: set<int>, delta: nat)
      requires Valid()
      modifies this
      ensures Valid() && |rows| == |old(rows)|
      ensures forall k :: 0 <= k < |rows| ==> rows[k] == Bumped(old(rows)[k], u, products, delta)
    {
      var k := 0;
      while k < |rows|
        invariant 0 <= k <= |rows| == |old(rows)|
        invariant forall j :: 0 <= j < k ==> rows[j] == Bumped(old(rows)[j], u, products, delta)
        invariant forall j :: k <= j < |rows| ==> rows[j] == old(rows)[j]
      {
        rows := rows[k := Bumped(rows[k], u, products, delta)];
        k := k + 1;
      }
    }

    /** `bulk_create(news, ignore_conflicts=True)`: a row whose pair already
        exists is skipped; the others are inserted. */
    method BulkCreateIgnoreConflicts(news: seq<InterestRow>)
      requires Valid()
      modifies this
      ensures Valid()
      ensures forall u, p :: InterestOf(rows, u, p)
                == if InterestOf(old(rows), u, p).Some? then InterestOf(old(rows), u, p) else InterestOf(news, u, p)
    {
      var i := 0;
      while i < |news|
        invariant 0 <= i <= |news|
        invariant Valid()
        invariant forall u, p :: InterestOf(rows, u, p)
                    == if InterestOf(old(rows), u, p).Some? then InterestOf(old(rows), u, p) else InterestOf(news[..i], u, p)
      {
        var row := news[i];
        assert news[..i + 1] == news[..i] + [row];
        if InterestOf(rows, row.user, row.product) == None {
          forall u, p ensures InterestOf(rows + [row], u, p)
                 == if InterestOf(old(rows), u, p).Some? then InterestOf(old(rows), u, p) else InterestOf(news[..i + 1], u, p)
          {
            InterestOfAppend(rows, row, u, p);
            InterestOfAppendTail(news[..i], row, u, p);
          }
          rows := rows + [row];
        } else {
          forall u, p ensures InterestOf(rows, u, p)
                 == if InterestOf(old(rows), u, p).Some? then InterestOf(old(rows), u, p) else InterestOf(news[..i + 1], u, p)
          {
            InterestOfAppendTail(news[..i], row, u, p);
          }
        }
        i := i + 1;
      }
      assert news[..i] == news;
    }
  }

  /** Looking a pair up in a list with one more row at the end. */
  lemma {:induction false} InterestOfAppendTail(rows: seq<InterestRow>, row: InterestRow, u: int, p: int)
    ensures InterestOf(rows + [row], u, p)
         == if InterestOf(rows, u, p).Some? then InterestOf(rows, u, p)
            else if (u, p) == (row.user, row.product) then Some(row) else None
    decreases |rows|
  {
    if rows != [] {
      assert (rows + [row])[1..] == rows[1..] + [row];
      InterestOfAppendTail(rows[1..], row, u, p);
    }
  }

  class LikeTable {
    var rows: seq<LikedRow>

    ghost predicate Valid()
      reads this
    {
      UniqueLikes(rows)
    }

    constructor ()
      ensures Valid() && rows == []
    {
      rows := [];
    }

    /** `LikedProduct.objects.get_or_create(user=u, product=p)`: a created
        row gets `created_at = now` (`auto_now_add`). */
    method GetOrCreate(u: int, p: int, now: int) returns (k: nat, created: bool)
      requires Valid()
      modifies this
      ensures Valid()
      ensures created <==> LikeOf(old(rows), u, p) == None
      ensures k < |rows| && rows[k].user == u && rows[k].product == p
      ensures created ==> rows == old(rows) + [LikedRow(u, p, now)]
      ensures !created ==> rows == old(rows)
    {
      k := 0;
      while k < |rows|
        invariant 0 <= k <= |rows|
        invariant forall j :: 0 <= j < k ==> (rows[j].user, rows[j].product) != (u, p)
      {
        if rows[k].user == u && rows[k].product == p {
          LikeOfIndex(rows, k);
          created := false;
          return;
        }
        k := k + 1;
      }
      created := true;
      rows := rows + [LikedRow(u, p, now)];
    }

    /** `liked.delete()` of the row at index `k`. */
    method Delete(k: nat)
      requires Valid() && k < |rows|
      modifies this
      ensures Valid()
      ensures rows == old(rows)[..k] + old(rows)[k + 1..]
      ensures forall u, p :: LikeOf(rows, u, p)
                == if (u, p) == (old(rows)[k].user, old(rows)[k].product) then None else LikeOf(old(rows), u, p)
    {
      forall u, p ensures LikeOf(rows[..k] + rows[k + 1..], u, p)
                == if (u, p) == (rows[k].user, rows[k].product) then None else LikeOf(rows, u, p)
      {
        LikeOfRemove(rows, k, u, p);
      }
      rows := rows[..k] + rows[k + 1..];
    }
  }
}
