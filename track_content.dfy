/**
 * The order tracker (src/components/TrackContent.jsx): the message shown
 * for the order's status, which buttons are offered, the checkout request,
 * and the checkout view's lines and total.
 */
module TrackContent {
  import opened Js
  import opened Store
  import OrdersApi

  /** The seven statuses an order goes through. */
  const Statuses: seq<string> := ["new", "in-kitchen", "ready", "delivered", "billing-requested", "paid", "completed"]

  const NewMessage: string := "\U{1F680} Your order is new and being prepared. Thanks for your patience!"
  const InKitchenMessage: string := "\U{1F468}\U{200D}\U{1F373} Your order is now cooking with care."
  const ReadyMessage: string := "\U{2705} Your order is ready. Enjoy your meal!"
  const DeliveredMessage: string := "\U{1F389} Your order has been delivered. Thank you for choosing us!"
  const BillingRequestedMessage: string := "\U{1F4B3} You requested the bill. Preparing your payment."
  const PaidMessage: string := "\U{1F64F} Thanks for your payment. Finalizing your order shortly."
  const CompletedMessage: string := "\U{1F38A} Your order is complete. Have a wonderful day!"

  /** `STATUS_MESSAGES`. */
  const StatusMessages: map<string, string> := map[
      "new" := NewMessage,
      "in-kitchen" := InKitchenMessage,
      "ready" := ReadyMessage,
      "delivered" := DeliveredMessage,
      "billing-requested" := BillingRequestedMessage,
      "paid" := PaidMessage,
      "completed" := CompletedMessage]

  const FallbackMessage: string := "\U{1F4E6} Updating your order status..."

  /** `STATUS_MESSAGES[order?.status] || "..."`: a missing status, or one that
      is not a key of the table, gets the fallback. */
  function Message(status: Option<string>): string
  {
    if status.Some? && status.value in StatusMessages then StatusMessages[status.value] else FallbackMessage
  }

  /** The table has exactly the seven statuses as keys. */
  lemma MessageKeys()
    ensures forall s :: s in StatusMessages <==> s in Statuses
  {
    forall s | s in Statuses ensures s in StatusMessages {
      var i :| 0 <= i < |Statuses| && Statuses[i] == s;
    }
  }

  /** The fallback is shown exactly for a status outside the seven. */
  lemma MessageFallback(status: Option<string>)
    ensures Message(status) == FallbackMessage <==> !(status.Some? && status.value in Statuses)
  {
    MessagesDistinct();
  }

  /** Each status has its own message, and none of them is the fallback. */
  lemma MessagesDistinct()
    ensures forall a, b :: a in StatusMessages && b in StatusMessages && a != b ==> StatusMessages[a] != StatusMessages[b]
    ensures forall a :: a in StatusMessages ==> StatusMessages[a] != FallbackMessage
  {
    // The messages have pairwise different lengths.
    assert |NewMessage| == 65;
    assert |InKitchenMessage| == 40;
    assert |ReadyMessage| == 39;
    assert |DeliveredMessage| == 59;
    assert |BillingRequestedMessage| == 49;
    assert |PaidMessage| == 57;
    assert |CompletedMessage| == 47;
    assert |FallbackMessage| == 31;
  }

  // ---------------------------------------------------------------------
  // Buttons and spinner (TrackContent.jsx:82, 196-217)

  /** The first button is Edit exactly while the order is new; otherwise it is Add. */
  predicate OffersEdit(status: Option<string>)
  {
    status == Some("new")
  }

  /** Checkout is disabled for every status but 'delivered'. */
  predicate CheckoutDisabled(status: Option<string>)
  {
    status != Some("delivered")
  }

  /** The big spinner runs for every status but 'delivered'. */
  predicate ShowsSpinner(status: Option<string>)
  {
    status != Some("delivered")
  }

  /** While Edit is offered, Checkout is disabled; Checkout is enabled exactly
      when the wait is over. */
  lemma GatingConsistent(status: Option<string>)
    ensures OffersEdit(status) ==> CheckoutDisabled(status)
    ensures !CheckoutDisabled(status) <==> !ShowsSpinner(status)
    ensures !CheckoutDisabled(status) ==> Message(status) == DeliveredMessage
  {
  }

  // ---------------------------------------------------------------------
  // handleCheck (TrackContent.jsx:58-77)

  /** `{status: 'billing-requested'}`. */
  const CheckPatch: OrderPatch := OrderPatch(Some("billing-requested"), None, None)

  /** The checkout request changes the status of that one order and nothing else. */
  lemma CheckChangesOnlyStatus(orders: seq<OrderRow>, id: nat)
    ensures |UpdatedOrders(orders, id, CheckPatch)| == |orders|
    ensures forall i :: 0 <= i < |orders| && orders[i].id != id ==> UpdatedOrders(orders, id, CheckPatch)[i] == orders[i]
    ensures forall i :: 0 <= i < |orders| && orders[i].id == id ==>
      UpdatedOrders(orders, id, CheckPatch)[i] == orders[i].(status := Some("billing-requested"))
  {
  }

  method HandleCheck(db: Backend, order: OrderDetails, reply: Option<OrdersApi.PgError>)
    returns (outcome: OrdersApi.UpdateOutcome)
    requires db.Valid()
    modifies db
    ensures db.Valid()
    ensures reply.Some? ==> unchanged(db)
    ensures reply.None? ==> db.orders == UpdatedOrders(old(db.orders), order.id, CheckPatch)
    ensures reply.Some? ==> outcome == OrdersApi.UpdateThrown(reply.value.message)
    ensures reply.None? ==>
      var k := FirstWithId(db.orders, order.id);
      outcome == OrdersApi.Updated(if k < |db.orders| then Some(db.orders[k]) else None)
    ensures db.orderItems == old(db.orderItems) && db.tables == old(db.tables) && db.nextOrderId == old(db.nextOrderId)
  {
    outcome := OrdersApi.UpdateOrder(db, order.id, CheckPatch, reply);
  }

  // ---------------------------------------------------------------------
  // Checkout view (TrackContent.jsx:157-172)

  /** `item.unit_price * item.quantity` for each line; no lines can be shown
      when `order_items` is missing (the `.map` throws). */
  function CheckoutLines(order: OrderDetails): (lines: Option<seq<int>>)
    ensures lines.Some? <==> order.orderItems.Some?
    ensures lines.Some? ==> |lines.value| == |order.orderItems.value|
    ensures lines.Some? ==> forall i :: 0 <= i < |lines.value| ==>
      lines.value[i] == ToNumber(order.orderItems.value[i].unitPrice) * ToNumber(order.orderItems.value[i].quantity)
  {
    if order.orderItems.None? then None
    else
      var ois := order.orderItems.value;
      Some(seq(|ois|, i requires 0 <= i < |ois| => ToNumber(ois[i].unitPrice) * ToNumber(ois[i].quantity)))
  }

  /** The total the view shows: the stored `total_price`. */
  function CheckoutTotal(order: OrderDetails): int
  {
    order.totalPrice
  }

  function Sum(xs: seq<int>): int
  {
    if xs == [] then 0 else Sum(xs[..|xs| - 1]) + xs[|xs| - 1]
  }

  /** The saved lines of an order placed with `items`: same order, same
      quantities and unit prices. */
  ghost predicate SavedFrom(ois: seq<DetailItem>, items: seq<ItemPayload>)
  {
    |ois| == |items| &&
    forall i :: 0 <= i < |ois| ==> ois[i].quantity == Some(items[i].quantity) && ois[i].unitPrice == items[i].unitPrice
  }

  /** For an order whose lines are those it was placed with, the lines add up
      to the total computed at creation. */
  lemma {:induction false} LinesAddUpToCreatedTotal(order: OrderDetails, items: seq<ItemPayload>)
    requires order.orderItems.Some? && SavedFrom(order.orderItems.value, items)
    ensures Sum(CheckoutLines(order).value) == OrdersApi.TotalPrice(items)
    decreases |items|
  {
    if items != [] {
      var ois := order.orderItems.value;
      var n := |items| - 1;
      var shorter := order.(orderItems := Some(ois[..n]));
      assert SavedFrom(ois[..n], items[..n]);
      LinesAddUpToCreatedTotal(shorter, items[..n]);
      var lines := CheckoutLines(order).value;
      assert lines[..n] == CheckoutLines(shorter).value;
      assert lines[n] == OrdersApi.LinePrice(items[n]);
    }
  }

  /** The total shown is the stored one, which need not be the sum of the lines. */
  lemma TotalNotRecomputed()
    ensures var order := OrderDetails(1, None, Some("delivered"), 5, Some([]));
            Sum(CheckoutLines(order).value) == 0 && CheckoutTotal(order) == 5
  {
  }
}
