/**
 * The order-edit screen (src/components/EditUI.jsx): the cart rebuilt from
 * a saved order, the handlers that change it, the category bar, the menu
 * list with cart items first, and the update it submits.
 */
module EditUI {
  import opened Js
  import opened Store
  import opened Cart
  import OrdersApi

  // ---------------------------------------------------------------------
  // handleAdd (EditUI.jsx:50-60)

  /** The item as `handleAdd` copies it: name trimmed (a missing name becomes
      ""), missing price becomes 0, every other field kept. */
  function Snapshot(item: MenuItem): (s: MenuItem)
    ensures s.id == item.id && s.category == item.category && s.imageUrl == item.imageUrl
    ensures s.name.Some? && s.price.Some?
  {
    MenuItem(item.id, Some(Trim(OrEmpty(item.name))), Some(Coalesce(item.price, 0)), item.category, item.imageUrl)
  }

  /** Copying an already copied item changes nothing. */
  lemma SnapshotIdempotent(item: MenuItem)
    ensures Snapshot(Snapshot(item)) == Snapshot(item)
  {
    TrimIdempotent(OrEmpty(item.name));
  }

  /** `handleAdd(item)`'s state updater: the entry under `item.id` becomes the
      copied item with one more unit (1 when it was absent); nothing else changes. */
  function Added(prev: Cart, item: MenuItem): (next: Cart)
    ensures next - {item.id} == prev - {item.id}
    ensures item.id in next && next[item.id].item == Snapshot(item)
    ensures next[item.id].quantity == Qty(prev, item.id) + 1
    ensures item.id !in prev ==> next[item.id].quantity == 1
    ensures Valid(prev) ==> Valid(next)
  {
    prev[item.id := CartEntry(Snapshot(item), Qty(prev, item.id) + 1)]
  }

  /** Adding moves the total by the copied price times the new quantity,
      in place of the line the item had before. */
  lemma TotalAfterAdd(prev: Cart, item: MenuItem)
    ensures Total(Added(prev, item)) == Total(prev - {item.id}) + Coalesce(item.price, 0) * (Qty(prev, item.id) + 1)
    ensures item.id !in prev ==> Total(Added(prev, item)) == Total(prev) + Coalesce(item.price, 0)
  {
    TotalStore(prev, item.id, CartEntry(Snapshot(item), Qty(prev, item.id) + 1));
    if item.id !in prev {
      assert prev - {item.id} == prev;
    }
  }

  // ---------------------------------------------------------------------
  // removeItem (EditUI.jsx:75-81)

  /** `removeItem(id)`'s state updater: only the key `id` goes away. */
  function Removed(prev: Cart, id: nat): (next: Cart)
    ensures id !in next
    ensures forall k :: k != id ==> (k in next <==> k in prev)
    ensures forall k :: k in next ==> next[k] == prev[k]
    ensures Valid(prev) ==> Valid(next)
  {
    prev - {id}
  }

  /** Removing twice is removing once. */
  lemma RemovedIdempotent(prev: Cart, id: nat)
    ensures Removed(Removed(prev, id), id) == Removed(prev, id)
  {
    assert Removed(prev, id) - {id} == prev - {id};
  }

  /** Removing an entry takes its whole line off the total. */
  lemma TotalAfterRemove(prev: Cart, id: nat)
    ensures id in prev ==> Total(Removed(prev, id)) == Total(prev) - Line(prev[id])
    ensures id !in prev ==> Total(Removed(prev, id)) == Total(prev)
  {
    if id in prev {
      TotalRemove(prev, id);
    } else {
      assert prev - {id} == prev;
    }
  }

  // ---------------------------------------------------------------------
  // Preload from a saved order (EditUI.jsx:31-47)

  /** The entry built from one saved order item: the captured unit price,
      else the menu price, else 0; the saved quantity, else 1. */
  function FromSaved(oi: DetailItem): (e: CartEntry)
    ensures e.item.id == oi.menu.id
    ensures oi.unitPrice.Some? ==> e.item.price == oi.unitPrice
    ensures oi.unitPrice.None? && oi.menu.price.Some? ==> e.item.price == oi.menu.price
    ensures oi.unitPrice.None? && oi.menu.price.None? ==> e.item.price == Some(0)
    ensures oi.quantity.Some? ==> e.quantity == oi.quantity.value
    ensures oi.quantity.None? ==> e.quantity == 1
  {
    var m := oi.menu;
    CartEntry(MenuItem(m.id, Some(Trim(OrEmpty(m.name))), Some(Coalesce(oi.unitPrice, Coalesce(m.price, 0))),
                       m.category, m.imageUrl),
              Coalesce(oi.quantity, 1))
  }

  /** `mapped` after the `forEach` has visited all of `ois`: each item is
      written under its menu id, so a later item overwrites an earlier one. */
  function Mapped(ois: seq<DetailItem>): (m: Cart)
    ensures ois != [] ==> ois[|ois| - 1].menu.id in m
  {
    if ois == [] then map[]
    else Mapped(ois[..|ois| - 1])[ois[|ois| - 1].menu.id := FromSaved(ois[|ois| - 1])]
  }

  /** The menu ids of the saved items, in order. */
  function MenuIds(ois: seq<DetailItem>): (ids: seq<nat>)
    ensures |ids| == |ois| && forall i :: 0 <= i < |ois| ==> ids[i] == ois[i].menu.id
  {
    seq(|ois|, i requires 0 <= i < |ois| => ois[i].menu.id)
  }

  /** One entry per distinct menu id among the saved items, and no other. */
  lemma {:induction false} MappedKeys(ois: seq<DetailItem>)
    ensures forall k :: k in Mapped(ois) <==> k in MenuIds(ois)
  {
    if ois != [] {
      var init, last := ois[..|ois| - 1], ois[|ois| - 1];
      MappedKeys(init);
      assert MenuIds(ois) == MenuIds(init) + [last.menu.id];
      assert Mapped(ois) == Mapped(init)[last.menu.id := FromSaved(last)];
    }
  }

  /** The entry under a menu id is built from the last saved item with that id. */
  lemma {:induction false} MappedLastWins(ois: seq<DetailItem>, j: nat)
    requires j < |ois|
    requires forall i :: j < i < |ois| ==> ois[i].menu.id != ois[j].menu.id
    ensures ois[j].menu.id in Mapped(ois) && Mapped(ois)[ois[j].menu.id] == FromSaved(ois[j])
  {
    if j < |ois| - 1 {
      var init := ois[..|ois| - 1];
      assert init[j] == ois[j];
      MappedLastWins(init, j);
    }
  }

  /** When every saved quantity is missing or at least 1, the rebuilt cart
      satisfies the cart invariant. */
  lemma {:induction false} MappedValid(ois: seq<DetailItem>)
    requires forall i :: 0 <= i < |ois| ==> Coalesce(ois[i].quantity, 1) >= 1
    ensures Valid(Mapped(ois))
  {
    if ois != [] {
      var init, last := ois[..|ois| - 1], ois[|ois| - 1];
      assert forall i :: 0 <= i < |init| ==> init[i] == ois[i];
      MappedValid(init);
      var m0, e := Mapped(init), FromSaved(last);
      assert e.item.id == last.menu.id && e.quantity >= 1;
      var m := Mapped(ois);
      assert m == m0[last.menu.id := e];
      forall k | k in m ensures m[k].item.id == k && m[k].quantity >= 1 {
        if k != last.menu.id {
          assert k in m0 && m[k] == m0[k];
        }
      }
    }
  }

  /** The preload loop. */
  method MapOrderItems(ois: seq<DetailItem>) returns (mapped: Cart)
    ensures mapped == Mapped(ois)
  {
    mapped := map[];
    var i := 0;
    while i < |ois|
      invariant 0 <= i <= |ois|
      invariant mapped == Mapped(ois[..i])
    {
      var next := ois[..i + 1];
      assert next[..i] == ois[..i] && next[i] == ois[i] && next != [];
      assert Mapped(next) == Mapped(ois[..i])[ois[i].menu.id := FromSaved(ois[i])];
      mapped := mapped[ois[i].menu.id := FromSaved(ois[i])];
      i := i + 1;
    }
    assert ois[..|ois|] == ois;
  }

  // ---------------------------------------------------------------------
  // categories (EditUI.jsx:88-92)

  /** The truthy categories of the menu, in menu order, repeats included. */
  function TruthyCategories(menu: seq<MenuItem>): (cs: seq<string>)
    ensures forall i :: 0 <= i < |cs| ==> cs[i] != "" && Some(cs[i]) in CategoriesOf(menu)
    ensures forall j :: 0 <= j < |menu| && TruthyString(menu[j].category) ==> menu[j].category.value in cs
  {
    if menu == [] then []
    else
      var init := menu[..|menu| - 1];
      var c := menu[|menu| - 1].category;
      assert CategoriesOf(menu) == CategoriesOf(init) + [c];
      assert forall j :: 0 <= j < |init| ==> menu[j] == init[j];
      TruthyCategories(init) + (if TruthyString(c) then [c.value] else [])
  }

  /** The category bar: "all", then the distinct truthy categories. */
  function Categories(menu: seq<MenuItem>): (cats: seq<string>)
    ensures |cats| >= 1 && cats[0] == "all"
  {
    ["all"] + Distinct(TruthyCategories(menu))
  }

  /** After "all" come exactly the truthy categories of the menu, each once. */
  lemma CategoriesSpec(menu: seq<MenuItem>)
    ensures NoDuplicates(Categories(menu)[1..])
    ensures forall i :: 1 <= i < |Categories(menu)| ==>
      Categories(menu)[i] != "" && Some(Categories(menu)[i]) in CategoriesOf(menu)
    ensures forall j :: 0 <= j < |menu| && TruthyString(menu[j].category) ==> menu[j].category.value in Categories(menu)[1..]
  {
    var t := TruthyCategories(menu);
    var d := Distinct(t);
    DistinctSpec(t);
    assert Categories(menu)[1..] == d;
    forall i | 1 <= i < |Categories(menu)|
      ensures Categories(menu)[i] != "" && Some(Categories(menu)[i]) in CategoriesOf(menu)
    {
      assert Categories(menu)[i] == d[i - 1];
      var k :| 0 <= k < |t| && t[k] == d[i - 1];
    }
  }

  /** The categories after "all" come in the order of their first appearance. */
  lemma CategoriesFirstSeen(menu: seq<MenuItem>, i: nat, j: nat)
    requires 1 <= i < j < |Categories(menu)|
    ensures Categories(menu)[i] in TruthyCategories(menu) && Categories(menu)[j] in TruthyCategories(menu)
    ensures IndexOf(TruthyCategories(menu), Categories(menu)[i]) < IndexOf(TruthyCategories(menu), Categories(menu)[j])
  {
    var t := TruthyCategories(menu);
    var d := Distinct(t);
    assert Categories(menu)[i] == d[i - 1] && Categories(menu)[j] == d[j - 1];
    DistinctFirstSeenOrder(t, i - 1, j - 1);
  }

  /** The `useMemo` loop that fills the `Set`. */
  method CollectCategories(menuItems: Option<seq<MenuItem>>) returns (cats: seq<string>)
    ensures cats == Categories(OrNil(menuItems))
  {
    var menu := OrNil(menuItems);
    var seen: seq<string> := [];
    var i := 0;
    while i < |menu|
      invariant 0 <= i <= |menu|
      invariant seen == Distinct(TruthyCategories(menu[..i]))
    {
      var c := menu[i].category;
      var pre, now := menu[..i], menu[..i + 1];
      assert now[..i] == pre && now[i] == menu[i];
      var t := TruthyCategories(now);
      assert t == TruthyCategories(pre) + (if TruthyString(c) then [c.value] else []);
      if TruthyString(c) {
        assert t[..|t| - 1] == TruthyCategories(pre) && t[|t| - 1] == c.value;
        if c.value !in seen {
          seen := seen + [c.value];
        }
      } else {
        assert t == TruthyCategories(pre);
      }
      i := i + 1;
    }
    assert menu[..|menu|] == menu;
    cats := ["all"] + seen;
  }

  // ---------------------------------------------------------------------
  // filtered (EditUI.jsx:94-108)

  /** `!!selectedItems[i.id]`. */
  function InCart(cart: Cart): MenuItem -> bool
  {
    (i: MenuItem) => i.id in cart
  }

  /** The menu for the active category before sorting: the whole menu for
      "all", else the items of exactly that category, in menu order. */
  function Listed(menuItems: Option<seq<MenuItem>>, active: string): (list: seq<MenuItem>)
    ensures |list| <= |OrNil(menuItems)|
    ensures active == "all" ==> list == OrNil(menuItems)
    ensures active != "all" ==>
      forall x :: multiset(list)[x] == if x.category == Some(active) then multiset(OrNil(menuItems))[x] else 0
    ensures active != "all" ==> forall i :: 0 <= i < |list| ==> list[i].category == Some(active)
    ensures active != "all" ==>
      forall j :: 0 <= j < |OrNil(menuItems)| && OrNil(menuItems)[j].category == Some(active) ==> OrNil(menuItems)[j] in list
  {
    var menu := OrNil(menuItems);
    if active == "all" then menu
    else
      FilterCounts(menu, WithCategory(Some(active)));
      Filter(menu, WithCategory(Some(active)))
  }

  /** The listed menu with the items in the cart moved to the front. */
  function Filtered(menuItems: Option<seq<MenuItem>>, active: string, cart: Cart): (r: seq<MenuItem>)
    ensures |r| == |Listed(menuItems, active)|
  {
    SortTrueFirst(Listed(menuItems, active), InCart(cart))
  }

  /** The three guarantees of the view: a permutation of the listed menu,
      cart items before the others, and menu order kept within each group. */
  lemma FilteredSpec(menuItems: Option<seq<MenuItem>>, active: string, cart: Cart)
    ensures multiset(Filtered(menuItems, active, cart)) == multiset(Listed(menuItems, active))
    ensures forall i, j :: 0 <= i < j < |Filtered(menuItems, active, cart)| && Filtered(menuItems, active, cart)[j].id in cart
              ==> Filtered(menuItems, active, cart)[i].id in cart
    ensures Filter(Filtered(menuItems, active, cart), InCart(cart)) == Filter(Listed(menuItems, active), InCart(cart))
    ensures Filter(Filtered(menuItems, active, cart), Not(InCart(cart)))
            == Filter(Listed(menuItems, active), Not(InCart(cart)))
  {
    var list, p := Listed(menuItems, active), InCart(cart);
    SortTrueFirstPermutes(list, p);
    SortTrueFirstGroups(list, p);
    SortTrueFirstStable(list, p);
    var r := Filtered(menuItems, active, cart);
    forall i, j | 0 <= i < j < |r| && r[j].id in cart ensures r[i].id in cart {
      assert p(r[j]);
    }
  }

  /** With "all" and an empty cart the view is the menu as it came. */
  lemma FilteredAllEmptyCart(menuItems: Option<seq<MenuItem>>)
    ensures Filtered(menuItems, "all", map[]) == OrNil(menuItems)
  {
    var menu := OrNil(menuItems);
    FilterNone(menu, InCart(map[]));
    FilterAll(menu, Not(InCart(map[])));
  }

  // ---------------------------------------------------------------------
  // submitUpdate (EditUI.jsx:111-131)

  /** The `{orderId, updatedFields: {items, notes, total_price}}` argument. */
  datatype UpdateRequest = UpdateRequest(orderId: nat, items: seq<ItemPayload>, notes: string, totalPrice: int)

  /** The request `submitUpdate` sends, or nothing for an empty cart. */
  function RequestFor(cart: Cart, notes: string, orderId: nat): (r: Option<UpdateRequest>)
    ensures r.None? <==> cart == map[]
    ensures r.Some? ==> r.value.orderId == orderId && r.value.notes == notes
    ensures r.Some? ==> r.value.items == Payload(cart) && |r.value.items| == |cart| && r.value.totalPrice == Total(cart)
  {
    if cart == map[] then None else Some(UpdateRequest(orderId, Payload(cart), notes, Total(cart)))
  }

  /** The total sent agrees with the items sent. */
  lemma RequestTotalAgrees(cart: Cart, notes: string, orderId: nat)
    requires cart != map[]
    ensures OrdersApi.TotalPrice(RequestFor(cart, notes, orderId).value.items) == RequestFor(cart, notes, orderId).value.totalPrice
  {
    PayloadTotal(cart);
  }

  /** The columns of `orders` the request writes. The `items` key names no
      column of the row model and writes nothing here. */
  function PatchOf(req: UpdateRequest): OrderPatch
  {
    OrderPatch(None, Some(req.notes), Some(req.totalPrice))
  }

  /** The screen's state: the cart and the notes field. */
  class EditState {
    var selectedItems: Cart
    var notes: string

    /** `useState({})` and `useState(order?.notes || "")`. */
    constructor (order: Option<OrderDetails>)
      ensures selectedItems == map[]
      ensures notes == if order.Some? then OrEmpty(order.value.notes) else ""
    {
      selectedItems := map[];
      notes := if order.Some? then OrEmpty(order.value.notes) else "";
    }

    /** The effect that runs when the order arrives. */
    method Preload(order: Option<OrderDetails>)
      modifies this
      ensures order.None? ==> selectedItems == old(selectedItems) && notes == old(notes)
      ensures order.Some? ==> selectedItems == Mapped(OrNil(order.value.orderItems))
      ensures order.Some? ==> notes == OrEmpty(order.value.notes)
    {
      if order.None? {
        return;
      }
      selectedItems := MapOrderItems(OrNil(order.value.orderItems));
      notes := OrEmpty(order.value.notes);
    }

    method HandleAdd(item: MenuItem)
      modifies this`selectedItems
      ensures selectedItems == Added(old(selectedItems), item)
    {
      selectedItems := Added(selectedItems, item);
    }

    /** Called only for an id in the cart, or with delta -1. */
    method HandleQuantity(id: nat, delta: int)
      requires id in selectedItems || delta <= 0
      modifies this`selectedItems
      ensures selectedItems == Adjusted(old(selectedItems), id, delta)
    {
      selectedItems := Adjusted(selectedItems, id, delta);
    }

    method RemoveItem(id: nat)
      modifies this`selectedItems
      ensures selectedItems == Removed(old(selectedItems), id)
    {
      selectedItems := Removed(selectedItems, id);
    }

    /** `submitUpdate`: nothing is sent for an empty cart; otherwise the
        order's notes and total are written. The cart is left as it is. */
    method SubmitUpdate(db: Backend, orderId: nat, reply: Option<OrdersApi.PgError>)
      returns (outcome: Option<OrdersApi.UpdateOutcome>)
      requires db.Valid()
      modifies db
      ensures db.Valid()
      ensures outcome.None? <==> selectedItems == map[]
      ensures outcome.None? ==> unchanged(db)
      ensures outcome.Some? && reply.None? ==>
        db.orders == UpdatedOrders(old(db.orders), orderId, OrderPatch(None, Some(notes), Some(Total(selectedItems))))
      ensures outcome.Some? && reply.Some? ==> unchanged(db)
      ensures outcome.Some? ==> (outcome.value.Updated? <==> reply.None?)
      ensures outcome.Some? && reply.Some? ==> outcome.value == OrdersApi.UpdateThrown(reply.value.message)
      ensures outcome.Some? && reply.None? ==>
        var k := FirstWithId(db.orders, orderId);
        outcome.value == OrdersApi.Updated(if k < |db.orders| then Some(db.orders[k]) else None)
      ensures db.orderItems == old(db.orderItems) && db.tables == old(db.tables) && db.nextOrderId == old(db.nextOrderId)
    {
      var req := RequestFor(selectedItems, notes, orderId);
      if req.None? {
        return None;
      }
      var o := OrdersApi.UpdateOrder(db, req.value.orderId, PatchOf(req.value), reply);
      outcome := Some(o);
    }
  }
}
