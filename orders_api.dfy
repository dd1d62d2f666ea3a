/**
 * Order creation and update against the store (src/lib/ordersApi.js).
 * Every backend call's answer (an error or none) is a parameter, so each
 * early exit of `createOrder` can be reached.
 */
module OrdersApi {
  import opened Js
  import opened Store

  /** The argument object of `createOrder`. */
  datatype CreateInput = CreateInput(
    restaurantId: Option<int>,
    tableId: Option<int>,
    items: seq<ItemPayload>,
    notes: Option<string>)

  /** An error object returned by the backend. */
  datatype PgError = PgError(code: string, message: string)

  /** The error, if any, that each backend call of one `createOrder` run reports. */
  datatype Replies = Replies(fetch: Option<PgError>, insertOrder: Option<PgError>, insertItems: Option<PgError>)

  /** How `createOrder` ends: it resolves to the new order, resolves to
      `undefined` after an alert, or throws an Error with this message. */
  datatype CreateOutcome = Created(order: OrderRow) | Alerted | Thrown(message: string)

  /** The code `.single()` reports when the query matched no row. */
  const NoRowsCode: string := "PGRST116"
  const NoItemsMessage: string := "You must provide at least one order item."
  const FetchErrorPrefix: string := "Error fetching latest order: "
  const InsertOrderErrorPrefix: string := "Error inserting order: "
  const InsertItemsErrorPrefix: string := "Error inserting order items: "

  // ---------------------------------------------------------------------
  // Next order number

  /** The `.eq('restaurant_id', rid).gte/lte('created_at', day bounds)` filter. */
  function PlacedOn(rid: int, day: int): OrderRow -> bool
  {
    (r: OrderRow) => r.restaurantId == rid && r.day == day
  }

  /** The first row of `rows` under `.order('order_number', {ascending: false})`:
      PostgreSQL puts NULL first in a descending order, then the largest
      number. Only its `order_number` is selected. */
  function TopNumber(rows: seq<OrderRow>): (t: Option<int>)
    requires rows != []
    ensures exists i :: 0 <= i < |rows| && rows[i].orderNumber == t
    ensures t.None? <==> exists i :: 0 <= i < |rows| && rows[i].orderNumber.None?
    ensures t.Some? ==> forall i :: 0 <= i < |rows| ==> rows[i].orderNumber.value <= t.value
  {
    if |rows| == 1 then rows[0].orderNumber
    else
      var rest := TopNumber(rows[1..]);
      var first := rows[0].orderNumber;
      assert forall i :: 1 <= i < |rows| ==> rows[i] == rows[1..][i - 1];
      if first.None? || rest.None? then None
      else if first.value >= rest.value then first
      else rest
  }

  /** The answer to the latest-order query. */
  datatype Latest = Row(orderNumber: Option<int>) | NoRows | Failed(error: PgError)

  /** `.limit(1).single()` of the query above, or the error the call reports. */
  function LatestOrder(orders: seq<OrderRow>, rid: int, day: int, reply: Option<PgError>): Latest
  {
    if reply.Some? then Failed(reply.value)
    else
      var todays := Filter(orders, PlacedOn(rid, day));
      if todays == [] then NoRows else Row(TopNumber(todays))
  }

  /** `fetchError && fetchError.code !== 'PGRST116'`. */
  predicate FetchThrows(latest: Latest)
  {
    latest.Failed? && latest.error.code != NoRowsCode
  }

  /** `(latestOrder?.order_number || 0) + 1`; `latestOrder` is `null` whenever
      the call reported an error. */
  function NextOrderNumber(latest: Latest): (n: int)
    ensures !latest.Row? ==> n == 1
    ensures latest.Row? && latest.orderNumber.None? ==> n == 1
    ensures latest.Row? && latest.orderNumber.Some? ==> n == latest.orderNumber.value + 1
  {
    if latest.Row? && TruthyNumber(latest.orderNumber) then latest.orderNumber.value + 1 else 1
  }

  /** The next order number is one more than the highest number the restaurant
      used that day, and 1 on a day without orders; a NULL number among that day's
      orders sorts first and also gives 1. */
  lemma NextOrderNumberIsMaxPlusOne(orders: seq<OrderRow>, rid: int, day: int)
    ensures var next := NextOrderNumber(LatestOrder(orders, rid, day, None));
      var todays := Filter(orders, PlacedOn(rid, day));
      && (todays == [] ==> next == 1)
      && ((exists i :: 0 <= i < |todays| && todays[i].orderNumber.None?) ==> next == 1)
      && ((forall i :: 0 <= i < |todays| ==> todays[i].orderNumber.Some?) && todays != [] ==>
            (exists i :: 0 <= i < |todays| && next == todays[i].orderNumber.value + 1)
            && (forall i :: 0 <= i < |todays| ==> todays[i].orderNumber.value < next))
  {
    var todays := Filter(orders, PlacedOn(rid, day));
    if todays != [] {
      var t := TopNumber(todays);
      if t.Some? {
        var i :| 0 <= i < |todays| && todays[i].orderNumber == t;
        assert todays[i].orderNumber.value + 1 == t.value + 1;
      }
    }
  }

  /** A query error other than "no rows" is the only way the fetch step throws. */
  lemma OnlyRealErrorsThrow(orders: seq<OrderRow>, rid: int, day: int, reply: Option<PgError>)
    ensures FetchThrows(LatestOrder(orders, rid, day, reply)) <==> reply.Some? && reply.value.code != NoRowsCode
  {
  }

  // ---------------------------------------------------------------------
  // Total price and order item rows

  /** `unit_price * quantity`, with a null price counting as 0. */
  function LinePrice(item: ItemPayload): int
  {
    ToNumber(item.unitPrice) * item.quantity
  }

  /** `items.reduce((sum, item) => sum + item.unit_price * item.quantity, 0)`. */
  function TotalPrice(items: seq<ItemPayload>): (t: int)
    ensures items == [] ==> t == 0
  {
    if items == [] then 0 else TotalPrice(items[..|items| - 1]) + LinePrice(items[|items| - 1])
  }

  /** The total of a concatenation is the sum of the totals. */
  lemma {:induction false} TotalPriceConcat(a: seq<ItemPayload>, b: seq<ItemPayload>)
    ensures TotalPrice(a + b) == TotalPrice(a) + TotalPrice(b)
  {
    if b != [] {
      assert (a + b)[..|a + b| - 1] == a + b[..|b| - 1];
      TotalPriceConcat(a, b[..|b| - 1]);
    } else {
      assert a + b == a;
    }
  }

  /** With non-negative prices and quantities the total is non-negative. */
  lemma {:induction false} TotalPriceNonNegative(items: seq<ItemPayload>)
    requires forall i :: 0 <= i < |items| ==> ToNumber(items[i].unitPrice) >= 0 && items[i].quantity >= 0
    ensures TotalPrice(items) >= 0
  {
    if items != [] {
      TotalPriceNonNegative(items[..|items| - 1]);
    }
  }

  /** The `{menu_id, quantity, unit_price}` part of an order_items row. */
  function PayloadOf(row: OrderItemRow): ItemPayload
  {
    ItemPayload(row.menuId, row.quantity, row.unitPrice)
  }

  /** `items.map(item => ({order_id, menu_id, quantity, unit_price}))`: one row
      per item, in order, all pointing at `orderId`; dropping `order_id`
      gives the items back. */
  function ItemRows(orderId: nat, items: seq<ItemPayload>): (rows: seq<OrderItemRow>)
    ensures |rows| == |items|
    ensures forall i :: 0 <= i < |rows| ==> rows[i].orderId == orderId && PayloadOf(rows[i]) == items[i]
  {
    seq(|items|, i requires 0 <= i < |items| =>
      OrderItemRow(orderId, items[i].menuId, items[i].quantity, items[i].unitPrice))
  }

  // ---------------------------------------------------------------------
  // createOrder

  /** `!restaurant_id || !table_id` is false. */
  predicate HasIds(input: CreateInput)
  {
    TruthyNumber(input.restaurantId) && TruthyNumber(input.tableId)
  }

  /** What one run of `createOrder` does to `orders` and `order_items`, and
      how it ends, given the tables before, the id the next order row gets,
      and each backend call's answer. Each early exit leaves both tables as
      they were; a failed item insert leaves the order row in place. */
  predicate CreateOrderEffect(input: CreateInput, today: int, replies: Replies,
                              orders0: seq<OrderRow>, items0: seq<OrderItemRow>, nextId: nat,
                              outcome: CreateOutcome, orders1: seq<OrderRow>, items1: seq<OrderItemRow>)
  {
    if !HasIds(input) then
      outcome == Alerted && orders1 == orders0 && items1 == items0
    else if input.items == [] then
      outcome == Thrown(NoItemsMessage) && orders1 == orders0 && items1 == items0
    else
      var latest := LatestOrder(orders0, input.restaurantId.value, today, replies.fetch);
      if FetchThrows(latest) then
        outcome == Thrown(FetchErrorPrefix + latest.error.message) && orders1 == orders0 && items1 == items0
      else if replies.insertOrder.Some? then
        outcome == Thrown(InsertOrderErrorPrefix + replies.insertOrder.value.message)
        && orders1 == orders0 && items1 == items0
      else
        var row := OrderRow(nextId, input.restaurantId.value, input.tableId.value, Some(NextOrderNumber(latest)),
                            TotalPrice(input.items), input.notes, Some("new"), today);
        && orders1 == orders0 + [row]
        && if replies.insertItems.Some? then
             outcome == Thrown(InsertItemsErrorPrefix + replies.insertItems.value.message) && items1 == items0
           else
             outcome == Created(row) && items1 == items0 + ItemRows(row.id, input.items)
  }

  /** When every backend call succeeds and the input has both ids and some
      items, the order is created: one new order row, and one item row per
      input item pointing at it. */
  lemma CreatedWhenAllSucceed(input: CreateInput, today: int,
                              orders0: seq<OrderRow>, items0: seq<OrderItemRow>, nextId: nat,
                              outcome: CreateOutcome, orders1: seq<OrderRow>, items1: seq<OrderItemRow>)
    requires HasIds(input) && input.items != []
    requires CreateOrderEffect(input, today, Replies(None, None, None), orders0, items0, nextId, outcome, orders1, items1)
    ensures outcome.Created? && outcome.order.id == nextId
    ensures orders1 == orders0 + [outcome.order]
    ensures items1 == items0 + ItemRows(nextId, input.items)
  {
    assert !FetchThrows(LatestOrder(orders0, input.restaurantId.value, today, None));
  }

  /** Without a table id (the order screen the tracker's Add button opens
      gets none) every call ends in the alert, whatever the cart and the
      backend, and nothing is read or written. */
  lemma MissingTableAlerts(input: CreateInput, today: int, replies: Replies,
                           orders0: seq<OrderRow>, items0: seq<OrderItemRow>, nextId: nat,
                           outcome: CreateOutcome, orders1: seq<OrderRow>, items1: seq<OrderItemRow>)
    requires input.tableId.None?
    requires CreateOrderEffect(input, today, replies, orders0, items0, nextId, outcome, orders1, items1)
    ensures outcome == Alerted && orders1 == orders0 && items1 == items0
  {
    assert !HasIds(input);
  }

  method CreateOrder(db: Backend, input: CreateInput, today: int, replies: Replies)
    returns (outcome: CreateOutcome)
    requires db.Valid()
    modifies db
    ensures db.Valid() && db.tables == old(db.tables)
    // Summary: an alert exactly when an identifier is missing; a created order
    // carries the input's identifiers, notes and computed total.
    ensures outcome.Alerted? <==> !HasIds(input)
    ensures outcome.Created? ==>
      && HasIds(input) && outcome.order.restaurantId == input.restaurantId.value
      && outcome.order.tableId == input.tableId.value && outcome.order.notes == input.notes
      && outcome.order.totalPrice == TotalPrice(input.items) && outcome.order.status == Some("new")
    // Path by path: which outcome, and what is written to the two tables.
    ensures CreateOrderEffect(input, today, replies, old(db.orders), old(db.orderItems), old(db.nextOrderId),
                              outcome, db.orders, db.orderItems)
    // No order row written means nothing written at all.
    ensures db.orders == old(db.orders) ==> unchanged(db)
  {
    if !HasIds(input) {
      return Alerted;
    }
    if input.items == [] {
      return Thrown(NoItemsMessage);
    }
    var rid, tid := input.restaurantId.value, input.tableId.value;

    var latest := LatestOrder(db.orders, rid, today, replies.fetch);
    if FetchThrows(latest) {
      return Thrown(FetchErrorPrefix + latest.error.message);
    }
    var nextOrderNumber := NextOrderNumber(latest);

    var totalPrice := TotalPrice(input.items);

    if replies.insertOrder.Some? {
      return Thrown(InsertOrderErrorPrefix + replies.insertOrder.value.message);
    }
    var newOrder := db.InsertOrder(rid, tid, totalPrice, input.notes, nextOrderNumber, today);

    var orderItems := ItemRows(newOrder.id, input.items);
    if replies.insertItems.Some? {
      return Thrown(InsertItemsErrorPrefix + replies.insertItems.value.message);
    }
    db.InsertOrderItems(orderItems);
    return Created(newOrder);
  }

  // ---------------------------------------------------------------------
  // updateOrder

  datatype UpdateOutcome = Updated(first: Option<OrderRow>) | UpdateThrown(message: string)

  /** `data?.[0]` of the updated rows: the first row with that id, if any. */
  lemma FirstUpdatedRow(rows: seq<OrderRow>, id: nat)
    ensures var k := FirstWithId(rows, id);
      && (Filter(rows, HasId(id)) == [] <==> k == |rows|)
      && (k < |rows| ==> Filter(rows, HasId(id))[0] == rows[k])
  {
    var k := FirstWithId(rows, id);
    if rows != [] && rows[0].id != id {
      FirstUpdatedRow(rows[1..], id);
      assert Filter(rows, HasId(id)) == Filter(rows[1..], HasId(id));
    }
  }

  /** `updateOrder(orderId, updatedFields)`: only the order with that id
      changes, and only in the given fields; resolves to the first updated
      row (`undefined` when no order has that id). */
  method UpdateOrder(db: Backend, orderId: nat, patch: OrderPatch, reply: Option<PgError>)
    returns (outcome: UpdateOutcome)
    requires db.Valid()
    modifies db
    ensures db.Valid()
    ensures reply.Some? ==> outcome == UpdateThrown(reply.value.message) && unchanged(db)
    ensures reply.None? ==>
      && db.orders == UpdatedOrders(old(db.orders), orderId, patch)
      && db.orderItems == old(db.orderItems) && db.tables == old(db.tables)
      && db.nextOrderId == old(db.nextOrderId)
      && var k := FirstWithId(db.orders, orderId);
         outcome == Updated(if k < |db.orders| then Some(db.orders[k]) else None)
  {
    if reply.Some? {
      return UpdateThrown(reply.value.message);
    }
    var updated := db.UpdateOrders(orderId, patch);
    FirstUpdatedRow(db.orders, orderId);
    outcome := Updated(if updated != [] then Some(updated[0]) else None);
  }
}
