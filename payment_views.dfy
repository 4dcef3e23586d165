/** The order views of the payment app that the recommender and the order
    state machine care about: cancelling an order, requesting a refund or
    return for it, and the cart-interest signal sent when checkout starts or
    a payment is abandoned. */
module PaymentViews {
  import opened Common
  import opened Catalog
  import opened RecCache
  import opened ShopModels
  import opened InterestRecording

  const PENDING := "PENDING"
  const PROCESSING := "PROCESSING"
  const SHIPPED := "SHIPPED"
  const COMPLETED := "COMPLETED"
  const CANCELLED := "CANCELLED"
  const RETURNED := "RETURNED"

  const REQUESTED := "REQUESTED"
  const REJECTED := "REJECTED"
  const REFUND_REASON := "User requested refund/return from My Orders"

  /** The weight both checkout and the cancelled-payment page give the cart. */
  const CHECKOUT_WEIGHT := 2

  /** An order as these views load it: its identity and items never change
      here, its status and `updated_at` do. */
  class Order {
    const orderUuid: int
    const owner: int
    const orderNumber: string
    const items: seq<int>
    var status: string
    var updatedAt: int

    constructor (orderUuid: int, owner: int, orderNumber: string, items: seq<int>, status: string, now: int)
      ensures this.orderUuid == orderUuid && this.owner == owner && this.orderNumber == orderNumber
      ensures this.items == items && this.status == status && this.updatedAt == now
    {
      this.orderUuid := orderUuid;
      this.owner := owner;
      this.orderNumber := orderNumber;
      this.items := items;
      this.status := status;
      this.updatedAt := now;
    }
  }

  /** `Order.objects.filter(order_uuid=pk, user=request.user).first()`. */
  function FindOrder(orders: seq<Order>, uuid: int, user: int): (r: Option<Order>)
    ensures r.None? <==> forall o :: o in orders ==> o.orderUuid != uuid || o.owner != user
    ensures r.Some? ==> exists i :: 0 <= i < |orders| && orders[i] == r.value
                          && r.value.orderUuid == uuid && r.value.owner == user
                          && forall j :: 0 <= j < i ==> orders[j].orderUuid != uuid || orders[j].owner != user
    decreases |orders|
  {
    if orders == [] then None
    else if orders[0].orderUuid == uuid && orders[0].owner == user then Some(orders[0])
    else
      var r := FindOrder(orders[1..], uuid, user);
      assert forall o :: o in orders[1..] ==> o in orders;
      assert r.Some? ==> exists i :: 1 <= i < |orders| && orders[i] == r.value
                          && forall j :: 1 <= j < i ==> orders[j].orderUuid != uuid || orders[j].owner != user
        by {
        if r.Some? {
          var i :| 0 <= i < |orders[1..]| && orders[1..][i] == r.value
                   && forall j :: 0 <= j < i ==> orders[1..][j].orderUuid != uuid || orders[1..][j].owner != user;
          assert orders[i + 1] == r.value;
          assert forall j :: 1 <= j < i + 1 ==> orders[j] == orders[1..][j - 1];
        }
      }
      r
  }

  /** The order a signed-in user's request can touch, as a frame. */
  function Target(orders: seq<Order>, uuid: int, user: User): set<Order> {
    if IsAuthenticated(user) && FindOrder(orders, uuid, user.id).Some? then {FindOrder(orders, uuid, user.id).value} else {}
  }

  /** The flash message a view leaves for the next page. */
  datatype Flash = Error(text: string) | Success(text: string) | Info(text: string)

  datatype PaymentResponse =
    | LoginRedirect
    | MyOrders(flash: Flash)
    | CartRedirect(flash: Flash)
    | CheckoutPage
    | CancelPage

  const ORDER_NOT_FOUND := "Order not found."

  /** `order.status in {"PENDING", "PROCESSING"}`. */
  predicate Cancellable(status: string) {
    status == PENDING || status == PROCESSING
  }

  /** `order_cancel`: a signed-in user's pending or processing order becomes
      cancelled; anything else is refused and nothing changes. */
  method OrderCancel(user: User, pk: int, orders: seq<Order>, now: int) returns (resp: PaymentResponse)
    modifies Target(orders, pk, user)
    ensures !IsAuthenticated(user) ==> resp == LoginRedirect
    ensures IsAuthenticated(user) && FindOrder(orders, pk, user.id).None? ==> resp == MyOrders(Error(ORDER_NOT_FOUND))
    ensures IsAuthenticated(user) && FindOrder(orders, pk, user.id).Some? ==>
              var o := FindOrder(orders, pk, user.id).value;
              if Cancellable(old(o.status)) then
                && o.status == CANCELLED && o.updatedAt == now
                && resp == MyOrders(Success("Cancelled " + o.orderNumber + "."))
              else
                && o.status == old(o.status) && o.updatedAt == old(o.updatedAt)
                && resp == MyOrders(Error("Order " + o.orderNumber + " cannot be cancelled (status: " + o.status + ")."))
  {
    if !IsAuthenticated(user) {
      return LoginRedirect;
    }
    var found := FindOrder(orders, pk, user.id);
    if found.None? {
      return MyOrders(Error(ORDER_NOT_FOUND));
    }
    var order := found.value;
    if !Cancellable(order.status) {
      return MyOrders(Error("Order " + order.orderNumber + " cannot be cancelled (status: " + order.status + ")."));
    }
    order.status := CANCELLED;
    order.updatedAt := now;
    return MyOrders(Success("Cancelled " + order.orderNumber + "."));
  }

  /** The refusal `order_refund_request` gives for a status, checked in the
      code's order. */
  function RefundRefusal(status: string): (r: Option<string>)
    ensures r.None? <==> status == COMPLETED || status == RETURNED
  {
    if Cancellable(status) then Some("This order is not shipped yet. Consider cancelling the order instead.")
    else if status == CANCELLED then Some("This order is already cancelled.")
    else if status == SHIPPED then Some("This order is shipped. You can request a return/refund after delivery.")
    else if status != COMPLETED && status != RETURNED then Some("Refund is not available for status: " + status + ".")
    else None
  }

  datatype ReturnRequest = ReturnRequest(orderItem: int, reason: string, status: string)

  /** `ReturnRequest.objects.filter(order_item=item).exclude(status__in={"REJECTED"}).exists()`. */
  predicate HasOpenRequest(rows: seq<ReturnRequest>, item: int) {
    exists i :: 0 <= i < |rows| && rows[i].orderItem == item && rows[i].status != REJECTED
  }

  /** The return requests after the loop has visited `items`: an item
      without an open request gets a new `REQUESTED` one. */
  function Requested(rows: seq<ReturnRequest>, items: seq<int>): seq<ReturnRequest>
    decreases |items|
  {
    if items == [] then rows
    else
      var r0 := Requested(rows, items[..|items| - 1]);
      var item := items[|items| - 1];
      if HasOpenRequest(r0, item) then r0 else r0 + [ReturnRequest(item, REFUND_REASON, REQUESTED)]
  }

  lemma {:induction false} RequestedGrows(rows: seq<ReturnRequest>, items: seq<int>)
    ensures |rows| <= |Requested(rows, items)| && Requested(rows, items)[..|rows|] == rows
    decreases |items|
  {
    if items != [] {
      RequestedGrows(rows, items[..|items| - 1]);
    }
  }

  /** What the refund loop does: existing requests are kept; every new
      request is a `REQUESTED` one for an item of the order that had no open
      request before; no item gets two; and afterwards every item of the
      order has an open request. */
  lemma {:induction false} RequestedFacts(rows: seq<ReturnRequest>, items: seq<int>)
    ensures var r := Requested(rows, items);
            && |rows| <= |r| && r[..|rows|] == rows
            && (forall k :: |rows| <= k < |r| ==>
                  r[k].status == REQUESTED && r[k].reason == REFUND_REASON
                  && r[k].orderItem in items && !HasOpenRequest(rows, r[k].orderItem))
            && (forall k, l :: |rows| <= k < l < |r| ==> r[k].orderItem != r[l].orderItem)
            && (forall item :: item in items ==> HasOpenRequest(r, item))
    decreases |items|
  {
    if items != [] {
      var pre := items[..|items| - 1];
      var item := items[|items| - 1];
      RequestedFacts(rows, pre);
      var r0 := Requested(rows, pre);
      var r := Requested(rows, items);
      assert forall x :: x in pre ==> x in items;
      forall x | x in items ensures HasOpenRequest(r, x) {
        if x != item {
          assert x in pre;
          var i :| 0 <= i < |r0| && r0[i].orderItem == x && r0[i].status != REJECTED;
          assert r[i] == r0[i];
        } else if !HasOpenRequest(r0, item) {
          assert r[|r0|].orderItem == item && r[|r0|].status == REQUESTED;
        }
      }
      if !HasOpenRequest(r0, item) {
        forall k | |rows| <= k < |r0| ensures r0[k].orderItem != item {
          assert r0[k].status == REQUESTED;
        }
      }
    }
  }

  /** Once every item has an open request, the loop creates nothing. */
  lemma {:induction false} NothingMissing(rows: seq<ReturnRequest>, items: seq<int>)
    requires forall item :: item in items ==> HasOpenRequest(rows, item)
    ensures Requested(rows, items) == rows
    decreases |items|
  {
    if items != [] {
      assert forall x :: x in items[..|items| - 1] ==> x in items;
      NothingMissing(rows, items[..|items| - 1]);
      assert items[|items| - 1] in items;
    }
  }

  /** Asking twice creates nothing the second time. */
  lemma RequestedIdempotent(rows: seq<ReturnRequest>, items: seq<int>)
    ensures Requested(Requested(rows, items), items) == Requested(rows, items)
  {
    RequestedFacts(rows, items);
    NothingMissing(Requested(rows, items), items);
  }

  /** The `ReturnRequest` table. */
  class ReturnTable {
    var rows: seq<ReturnRequest>

    constructor ()
      ensures rows == []
    {
      rows := [];
    }

    /** `ReturnRequest.objects.create(...)`. */
    method Create(r: ReturnRequest)
      modifies this
      ensures rows == old(rows) + [r]
    {
      rows := rows + [r];
    }
  }

  /** The loop `for item in list(order.items.all())` with its `created_any`
      flag. */
  method RequestReturns(items: seq<int>, table: ReturnTable) returns (createdAny: bool)
    modifies table
    ensures table.rows == Requested(old(table.rows), items)
    ensures createdAny <==> |table.rows| > |old(table.rows)|
  {
    createdAny := false;
    var i := 0;
    while i < |items|
      invariant 0 <= i <= |items|
      invariant table.rows == Requested(old(table.rows), items[..i])
      invariant createdAny <==> |table.rows| > |old(table.rows)|
    {
      assert items[..i + 1][..i] == items[..i];
      RequestedGrows(old(table.rows), items[..i]);
      if HasOpenRequest(table.rows, items[i]) {
        i := i + 1;
        continue;
      }
      table.Create(ReturnRequest(items[i], REFUND_REASON, REQUESTED));
      createdAny := true;
      i := i + 1;
    }
    assert items[..i] == items;
  }

  /** `order_refund_request`: refused unless the order is completed or
      returned; otherwise every item without an open request gets one. The
      order itself is never changed. */
  method OrderRefundRequest(user: User, pk: int, orders: seq<Order>, table: ReturnTable) returns (resp: PaymentResponse)
    modifies table
    ensures !IsAuthenticated(user) ==> resp == LoginRedirect && table.rows == old(table.rows)
    ensures IsAuthenticated(user) && FindOrder(orders, pk, user.id).None? ==>
              resp == MyOrders(Error(ORDER_NOT_FOUND)) && table.rows == old(table.rows)
    ensures IsAuthenticated(user) && FindOrder(orders, pk, user.id).Some? ==>
              var o := FindOrder(orders, pk, user.id).value;
              if RefundRefusal(o.status).Some? then
                resp == MyOrders(Error(RefundRefusal(o.status).value)) && table.rows == old(table.rows)
              else
                && table.rows == Requested(old(table.rows), o.items)
                && resp == (if |table.rows| > |old(table.rows)|
                            then MyOrders(Success("Refund/return request submitted for " + o.orderNumber + "."))
                            else MyOrders(Info("A refund/return request already exists for " + o.orderNumber + ".")))
  {
    if !IsAuthenticated(user) {
      return LoginRedirect;
    }
    var found := FindOrder(orders, pk, user.id);
    if found.None? {
      return MyOrders(Error(ORDER_NOT_FOUND));
    }
    var order := found.value;
    var refusal := RefundRefusal(order.status);
    if refusal.Some? {
      return MyOrders(Error(refusal.value));
    }
    var createdAny := RequestReturns(order.items, table);
    if createdAny {
      resp := MyOrders(Success("Refund/return request submitted for " + order.orderNumber + "."));
    } else {
      resp := MyOrders(Info("A refund/return request already exists for " + order.orderNumber + "."));
    }
  }

  /** `checkout`, up to the address form: an empty cart goes back to the
      cart page before anything is recorded; otherwise the cart is recorded
      as interest of weight 2. `cartItems` is what `get_user_cart` returns
      (the session cart for a guest), `cart` the stored cart rows. */
  method Checkout(user: User, cartItems: seq<CartItem>, cart: seq<CartItem>, catalog: map<int, Product>, now: int,
                  table: InterestTable, cache: Cache) returns (resp: PaymentResponse)
    requires table.Valid()
    modifies table, cache
    ensures table.Valid()
    ensures cartItems == [] ==>
              && resp == CartRedirect(Error("Cart is empty"))
              && table.rows == old(table.rows) && cache.entries == old(cache.entries)
    ensures cartItems != [] ==> resp == CheckoutPage
    ensures cartItems != [] && IsAuthenticated(user) ==>
              forall u, p :: InterestOf(table.rows, u, p)
                == CartRecorded(old(table.rows), user.id, CartProducts(cart, user.id), catalog, CHECKOUT_WEIGHT, now, u, p)
    ensures !IsAuthenticated(user) ==> table.rows == old(table.rows) && cache.entries == old(cache.entries)
    ensures cartItems != [] && IsAuthenticated(user) ==>
              cache.entries == if CartProducts(cart, user.id) != [] then Evict(old(cache.entries), user.id)
                               else old(cache.entries)
  {
    if cartItems == [] {
      return CartRedirect(Error("Cart is empty"));
    }
    RecordCartInterest(user, cart, catalog, CHECKOUT_WEIGHT, now, table, cache);
    return CheckoutPage;
  }

  /** `shop_cancel`: an abandoned payment still records the cart as
      interest of weight 2. */
  method ShopCancel(user: User, cart: seq<CartItem>, catalog: map<int, Product>, now: int,
                    table: InterestTable, cache: Cache) returns (resp: PaymentResponse)
    requires table.Valid()
    modifies table, cache
    ensures table.Valid() && resp == CancelPage
    ensures IsAuthenticated(user) ==>
              forall u, p :: InterestOf(table.rows, u, p)
                == CartRecorded(old(table.rows), user.id, CartProducts(cart, user.id), catalog, CHECKOUT_WEIGHT, now, u, p)
    ensures !IsAuthenticated(user) ==> table.rows == old(table.rows) && cache.entries == old(cache.entries)
    ensures IsAuthenticated(user) ==>
              cache.entries == if CartProducts(cart, user.id) != [] then Evict(old(cache.entries), user.id)
                               else old(cache.entries)
  {
    RecordCartInterest(user, cart, catalog, CHECKOUT_WEIGHT, now, table, cache);
    return CancelPage;
  }
}
