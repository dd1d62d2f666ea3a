/**
 * The backend the ordering core talks to, as an abstract store: the rows
 * of the `menu`, `orders`, `order_items` and `tables` collections, and the
 * inserts and updates the core issues against them. Identifiers the
 * database assigns come from a counter.
 */
module Store {
  import opened Js

  /** A row of `menu`. */
  datatype MenuItem = MenuItem(
    id: nat,
    name: Option<string>,
    price: Option<int>,
    category: Option<string>,
    imageUrl: Option<string>)

  /** The `category` field of every menu item, in menu order. */
  function CategoriesOf(menu: seq<MenuItem>): (cs: seq<Option<string>>)
    ensures |cs| == |menu| && forall i :: 0 <= i < |menu| ==> cs[i] == menu[i].category
  {
    seq(|menu|, i requires 0 <= i < |menu| => menu[i].category)
  }

  /** `i => i.category === c`. */
  function WithCategory(c: Option<string>): MenuItem -> bool
  {
    (i: MenuItem) => i.category == c
  }

  /** One `{menu_id, quantity, unit_price}` line sent along with an order. */
  datatype ItemPayload = ItemPayload(menuId: nat, quantity: int, unitPrice: Option<int>)

  /** A row of `orders`; `day` is the calendar day of its `created_at`. */
  datatype OrderRow = OrderRow(
    id: nat,
    restaurantId: int,
    tableId: int,
    orderNumber: Option<int>,
    totalPrice: int,
    notes: Option<string>,
    status: Option<string>,
    day: int)

  /** A row of `order_items`. */
  datatype OrderItemRow = OrderItemRow(orderId: nat, menuId: nat, quantity: int, unitPrice: Option<int>)

  /** A row of `tables`. */
  datatype TableRow = TableRow(id: int, isActive: bool, activeOrder: Option<nat>)

  /** An order as the tracker and the edit screen receive it: the order
      with its `order_items` (possibly missing), each joined with its menu row. */
  datatype OrderDetails = OrderDetails(
    id: nat,
    notes: Option<string>,
    status: Option<string>,
    totalPrice: int,
    orderItems: Option<seq<DetailItem>>)

  datatype DetailItem = DetailItem(menu: MenuItem, quantity: Option<int>, unitPrice: Option<int>)

  /** The `updatedFields` of an update of `orders`: a column is written
      exactly when its field is present. */
  datatype OrderPatch = OrderPatch(status: Option<string>, notes: Option<string>, totalPrice: Option<int>)

  /** A row after an update with `patch`: the present fields are replaced,
      every other column is kept. */
  function Patched(row: OrderRow, patch: OrderPatch): (r: OrderRow)
    ensures r.id == row.id && r.restaurantId == row.restaurantId && r.tableId == row.tableId
    ensures r.orderNumber == row.orderNumber && r.day == row.day
    ensures r.status == if patch.status.Some? then patch.status else row.status
    ensures r.notes == if patch.notes.Some? then patch.notes else row.notes
    ensures r.totalPrice == if patch.totalPrice.Some? then patch.totalPrice.value else row.totalPrice
    ensures patch == OrderPatch(None, None, None) ==> r == row
  {
    OrderRow(row.id, row.restaurantId, row.tableId, row.orderNumber,
             Coalesce(patch.totalPrice, row.totalPrice),
             if patch.notes.Some? then patch.notes else row.notes,
             if patch.status.Some? then patch.status else row.status,
             row.day)
  }

  /** Applying the same patch twice is applying it once. */
  lemma PatchedIdempotent(row: OrderRow, patch: OrderPatch)
    ensures Patched(Patched(row, patch), patch) == Patched(row, patch)
  {
  }

  /** `orders` after `.update(patch).eq('id', id)`: the rows with that id are
      patched, all others are kept, and the order of rows is unchanged. */
  function UpdatedOrders(orders: seq<OrderRow>, id: nat, patch: OrderPatch): (r: seq<OrderRow>)
    ensures |r| == |orders|
    ensures forall i :: 0 <= i < |r| && orders[i].id != id ==> r[i] == orders[i]
    ensures forall i :: 0 <= i < |r| && orders[i].id == id ==> r[i] == Patched(orders[i], patch)
  {
    seq(|orders|, i requires 0 <= i < |orders| => if orders[i].id == id then Patched(orders[i], patch) else orders[i])
  }

  /** The `.eq('id', id)` filter. */
  function HasId(id: nat): OrderRow -> bool
  {
    (r: OrderRow) => r.id == id
  }

  /** Position of the first row with the given id, or `|rows|` if there is none. */
  function FirstWithId(rows: seq<OrderRow>, id: nat): (k: nat)
    ensures k <= |rows|
    ensures forall j :: 0 <= j < k ==> rows[j].id != id
    ensures k < |rows| ==> rows[k].id == id
  {
    if rows == [] then 0
    else if rows[0].id == id then 0
    else 1 + FirstWithId(rows[1..], id)
  }

  /** `tables` after `.update({is_active, active_order}).match({id})`. */
  function UpdatedTables(tables: seq<TableRow>, id: int, isActive: bool, activeOrder: Option<nat>): (r: seq<TableRow>)
    ensures |r| == |tables|
    ensures forall i :: 0 <= i < |r| && tables[i].id != id ==> r[i] == tables[i]
    ensures forall i :: 0 <= i < |r| && tables[i].id == id ==>
              r[i].id == id && r[i].isActive == isActive && r[i].activeOrder == activeOrder
  {
    seq(|tables|, i requires 0 <= i < |tables| =>
      if tables[i].id == id then TableRow(id, isActive, activeOrder) else tables[i])
  }

  class Backend {
    var orders: seq<OrderRow>
    var orderItems: seq<OrderItemRow>
    var tables: seq<TableRow>
    /** The id the database gives the next inserted order. */
    var nextOrderId: nat

    /** Every stored order has an id below the next one handed out, so new
        ids are fresh. */
    ghost predicate Valid()
      reads this
    {
      forall i :: 0 <= i < |orders| ==> orders[i].id < nextOrderId
    }

    constructor (tables0: seq<TableRow>)
      ensures Valid()
      ensures orders == [] && orderItems == [] && tables == tables0 && nextOrderId == 1
    {
      orders, orderItems, tables, nextOrderId := [], [], tables0, 1;
    }

    /** Insert one order row; the database assigns its id and, by default,
        the status 'new'. */
    method InsertOrder(restaurantId: int, tableId: int, totalPrice: int, notes: Option<string>,
                       orderNumber: int, day: int) returns (row: OrderRow)
      requires Valid()
      modifies this
      ensures Valid()
      ensures row == OrderRow(old(nextOrderId), restaurantId, tableId, Some(orderNumber),
                              totalPrice, notes, Some("new"), day)
      ensures orders == old(orders) + [row] && nextOrderId == old(nextOrderId) + 1
      ensures orderItems == old(orderItems) && tables == old(tables)
    {
      row := OrderRow(nextOrderId, restaurantId, tableId, Some(orderNumber), totalPrice, notes, Some("new"), day);
      orders := orders + [row];
      nextOrderId := nextOrderId + 1;
    }

    /** Insert order_items rows, in the given order. */
    method InsertOrderItems(rows: seq<OrderItemRow>)
      requires Valid()
      modifies this`orderItems
      ensures Valid()
      ensures orderItems == old(orderItems) + rows
    {
      orderItems := orderItems + rows;
    }

    /** `.update(patch).eq('id', id).select()`: patch the matching orders and
        return the updated rows. */
    method UpdateOrders(id: nat, patch: OrderPatch) returns (updated: seq<OrderRow>)
      requires Valid()
      modifies this`orders
      ensures Valid()
      ensures orders == UpdatedOrders(old(orders), id, patch)
      ensures updated == Filter(orders, HasId(id))
    {
      orders := UpdatedOrders(orders, id, patch);
      updated := Filter(orders, HasId(id));
    }

    /** `.update({is_active, active_order}).match({id})` on `tables`. */
    method UpdateTables(id: int, isActive: bool, activeOrder: Option<nat>)
      requires Valid()
      modifies this`tables
      ensures Valid()
      ensures tables == UpdatedTables(old(tables), id, isActive, activeOrder)
    {
      tables := UpdatedTables(tables, id, isActive, activeOrder);
    }
  }
}
