/**
 * The ordering screen (src/components/OrderUI.jsx): the cart a diner
 * builds, the category bar, the menu list for a category, and the order
 * submission with its state reset and table update.
 */
module OrderUI {
  import opened Js
  import opened Store
  import opened Cart
  import OrdersApi

  // ---------------------------------------------------------------------
  // handleAdd (OrderUI.jsx:23-28)

  /** `handleAdd(item)`'s state updater: the item's fields are copied as they
      are, with one more unit (1 when it was absent); nothing else changes. */
  function Added(prev: Cart, item: MenuItem): (next: Cart)
    ensures next - {item.id} == prev - {item.id}
    ensures item.id in next && next[item.id].item == item
    ensures next[item.id].quantity == Qty(prev, item.id) + 1
    ensures item.id !in prev ==> next[item.id].quantity == 1
    ensures Valid(prev) ==> Valid(next)
  {
    prev[item.id := CartEntry(item, Qty(prev, item.id) + 1)]
  }

  /** Adding an item not yet in the cart adds its price to the total (a
      missing price adds 0). */
  lemma TotalAfterAdd(prev: Cart, item: MenuItem)
    requires item.id !in prev
    ensures Total(Added(prev, item)) == Total(prev) + ToNumber(item.price)
  {
    TotalStore(prev, item.id, CartEntry(item, 1));
    assert prev - {item.id} == prev;
  }

  /** Adding the same item again also adds its price once. */
  lemma TotalAfterAddAgain(prev: Cart, item: MenuItem)
    requires item.id in prev && prev[item.id].item == item
    ensures Total(Added(prev, item)) == Total(prev) + ToNumber(item.price)
  {
    var q := prev[item.id].quantity;
    assert prev[item.id] == CartEntry(item, q);
    TotalStore(prev, item.id, CartEntry(item, q + 1));
    TotalRemove(prev, item.id);
    LineAdd(item, q, 1);
  }

  // ---------------------------------------------------------------------
  // categories (OrderUI.jsx:49)

  /** `["all", ...new Set(menuItems?.map(i => i.category))]`: every category
      value once, a missing one included, in order of first appearance. */
  function Categories(menuItems: Option<seq<MenuItem>>): (cats: seq<Option<string>>)
    ensures |cats| >= 1 && cats[0] == Some("all")
  {
    [Some("all")] + Distinct(CategoriesOf(OrNil(menuItems)))
  }

  lemma CategoriesSpec(menuItems: Option<seq<MenuItem>>)
    ensures NoDuplicates(Categories(menuItems)[1..])
    ensures forall i :: 1 <= i < |Categories(menuItems)| ==> Categories(menuItems)[i] in CategoriesOf(OrNil(menuItems))
    ensures forall j :: 0 <= j < |OrNil(menuItems)| ==> OrNil(menuItems)[j].category in Categories(menuItems)[1..]
  {
    var cs := CategoriesOf(OrNil(menuItems));
    DistinctSpec(cs);
    assert Categories(menuItems)[1..] == Distinct(cs);
    forall i | 1 <= i < |Categories(menuItems)| ensures Categories(menuItems)[i] in cs {
      assert Categories(menuItems)[i] == Distinct(cs)[i - 1];
    }
    forall j | 0 <= j < |OrNil(menuItems)| ensures OrNil(menuItems)[j].category in Distinct(cs) {
      assert cs[j] == OrNil(menuItems)[j].category;
    }
  }

  /** A menu whose items all lack a category still gets a second button. */
  lemma CategoriesKeepMissing(menu: seq<MenuItem>)
    requires menu != [] && forall i :: 0 <= i < |menu| ==> menu[i].category.None?
    ensures Categories(Some(menu)) == [Some("all"), None]
  {
    DistinctConstant(CategoriesOf(menu), None);
  }

  // ---------------------------------------------------------------------
  // filtered (OrderUI.jsx:51-54)

  /** The menu for the active category: the menu itself for "all", else the
      items of that category; nothing while the menu has not arrived. */
  function Filtered(menuItems: Option<seq<MenuItem>>, active: Option<string>): (r: Option<seq<MenuItem>>)
    ensures r.Some? <==> menuItems.Some?
  {
    if active == Some("all") then menuItems
    else if menuItems.None? then None
    else Some(Filter(menuItems.value, WithCategory(active)))
  }

  /** For a category other than "all" the list holds exactly the menu's
      items of that category, each as often as on the menu. */
  lemma FilteredSpec(menu: seq<MenuItem>, active: Option<string>)
    ensures active == Some("all") ==> Filtered(Some(menu), active) == Some(menu)
    ensures active != Some("all") ==>
      forall i :: 0 <= i < |Filtered(Some(menu), active).value| ==> Filtered(Some(menu), active).value[i].category == active
    ensures active != Some("all") ==>
      forall x :: multiset(Filtered(Some(menu), active).value)[x] == if x.category == active then multiset(menu)[x] else 0
  {
    if active != Some("all") {
      var r := Filtered(Some(menu), active).value;
      forall i | 0 <= i < |r| ensures r[i].category == active {
        assert WithCategory(active)(r[i]);
      }
      forall x ensures multiset(r)[x] == if x.category == active then multiset(menu)[x] else 0 {
        FilterCount(menu, WithCategory(active), x);
      }
    }
  }

  // ---------------------------------------------------------------------
  // submitOrder (OrderUI.jsx:57-81)

  /** The argument `submitOrder` passes to `createOrder`. */
  function CreateInputFor(cart: Cart, notes: string, restaurantId: Option<int>, tableId: Option<int>)
    : (input: OrdersApi.CreateInput)
    ensures input.restaurantId == restaurantId && input.tableId == tableId && input.notes == Some(notes)
    ensures input.items == Payload(cart) && |input.items| == |cart| && OrdersApi.TotalPrice(input.items) == Total(cart)
  {
    PayloadTotal(cart);
    OrdersApi.CreateInput(restaurantId, tableId, Payload(cart), Some(notes))
  }

  /** The screen's state: the cart and the notes field. */
  class OrderState {
    var selectedItems: Cart
    var notes: string

    constructor ()
      ensures selectedItems == map[] && notes == ""
    {
      selectedItems, notes := map[], "";
    }

    method HandleAdd(item: MenuItem)
      modifies this`selectedItems
      ensures selectedItems == Added(old(selectedItems), item)
    {
      selectedItems := Added(selectedItems, item);
    }

    /** Called only for an id in the cart, or with delta -1. */
    method HandleQuantity(id: nat, delta: int)
      requires id in selectedItems || delta <= 0
      modifies this`selectedItems
      ensures selectedItems == Adjusted(old(selectedItems), id, delta)
    {
      selectedItems := Adjusted(selectedItems, id, delta);
    }

    /** `submitOrder`. An empty cart sends nothing. Otherwise `createOrder`
        runs; when it resolves (to an order or, after its alert, to
        `undefined`) the cart and notes are cleared, and only for an order is
        the table marked active with that order, unless that update fails
        (`tableReply`). When it throws, nothing here changes. */
    method SubmitOrder(db: Backend, restaurantId: Option<int>, tableId: Option<int>, today: int,
                       replies: OrdersApi.Replies, tableReply: Option<OrdersApi.PgError>)
      returns (outcome: Option<OrdersApi.CreateOutcome>)
      requires db.Valid()
      modifies this, db
      ensures db.Valid()
      ensures outcome.None? <==> old(selectedItems) == map[]
      ensures outcome.None? ==> unchanged(db) && unchanged(this)
      ensures outcome.Some? && outcome.value.Thrown? ==>
        selectedItems == old(selectedItems) && notes == old(notes) && db.tables == old(db.tables)
      ensures outcome.Some? && !outcome.value.Thrown? ==> selectedItems == map[] && notes == ""
      ensures outcome.Some? && outcome.value.Alerted? ==> unchanged(db)
      // What createOrder did, path by path, for the request built from the cart.
      ensures outcome.Some? ==>
        var input := CreateInputFor(old(selectedItems), old(notes), restaurantId, tableId);
        && (outcome.value.Alerted? <==> !OrdersApi.HasIds(input))
        && OrdersApi.CreateOrderEffect(input, today, replies, old(db.orders), old(db.orderItems), old(db.nextOrderId),
                                       outcome.value, db.orders, db.orderItems)
      ensures outcome.Some? && outcome.value.Created? ==>
        && tableId.Some?
        && outcome.value.order.totalPrice == Total(old(selectedItems))
        && outcome.value.order.notes == Some(old(notes))
        && db.orders == old(db.orders) + [outcome.value.order]
        && db.orderItems == old(db.orderItems) + OrdersApi.ItemRows(outcome.value.order.id, Payload(old(selectedItems)))
        && db.tables == (if tableReply.None?
                         then UpdatedTables(old(db.tables), tableId.value, true, Some(outcome.value.order.id))
                         else old(db.tables))
    {
      if selectedItems == map[] {
        return None;
      }
      var input := CreateInputFor(selectedItems, notes, restaurantId, tableId);
      var o := OrdersApi.CreateOrder(db, input, today, replies);
      outcome := Some(o);
      if o.Thrown? {
        return;
      }
      selectedItems, notes := map[], "";
      if o.Created? && tableReply.None? {
        db.UpdateTables(tableId.value, true, Some(o.order.id));
      }
    }
  }
}
