/**
 * The cart both ordering screens keep (`selectedItems` in
 * src/components/EditUI.jsx and src/components/OrderUI.jsx): an object
 * keyed by menu-item id whose values are item snapshots with a quantity.
 * What the two screens do identically is defined here once: the quantity
 * adjustment, the total, and the `{menu_id, quantity, unit_price}` payload.
 */
module Cart {
  import opened Js
  import opened Store
  import OrdersApi

  /** A cart value: the item fields copied into it, plus `quantity`. */
  datatype CartEntry = CartEntry(item: MenuItem, quantity: int)

  /** `selectedItems`. Menu ids are integer-like keys. */
  type Cart = map<nat, CartEntry>

  /** `prev[id]?.quantity || 0`. */
  function Qty(cart: Cart, id: nat): int
  {
    if id in cart then cart[id].quantity else 0
  }

  /** The cart invariant: every entry lies under its own item's id and has a
      quantity of at least 1. */
  ghost predicate Valid(cart: Cart)
  {
    forall k :: k in cart ==> cart[k].item.id == k && cart[k].quantity >= 1
  }

  // ---------------------------------------------------------------------
  // handleQuantity (EditUI.jsx:62-73 and its copy OrderUI.jsx:31-41)

  /** `handleQuantity(id, delta)`'s state updater. The screens only call it
      for an id that is in the cart, or with a negative delta. */
  function Adjusted(prev: Cart, id: nat, delta: int): (next: Cart)
    requires id in prev || delta <= 0
    ensures next - {id} == prev - {id}
    ensures id in next <==> Qty(prev, id) + delta > 0
    ensures id in next ==> next[id] == CartEntry(prev[id].item, prev[id].quantity + delta)
    ensures id !in prev ==> next == prev
    ensures Valid(prev) ==> Valid(next)
  {
    var newQty := Qty(prev, id) + delta;
    if newQty <= 0 then prev - {id}
    else prev[id := CartEntry(prev[id].item, newQty)]
  }

  /** Decreasing an entry by its whole quantity removes it. */
  lemma AdjustedToZeroRemoves(prev: Cart, id: nat)
    requires id in prev
    ensures Adjusted(prev, id, -prev[id].quantity) == prev - {id}
  {
  }

  // ---------------------------------------------------------------------
  // Enumeration order of Object.values / Object.keys: integer-like keys come
  // in ascending numeric order.

  /** A least element of a non-empty set of ids, returned as a witness. */
  lemma {:induction false} LeastOf(s: set<nat>) returns (m: nat)
    requires s != {}
    ensures m in s && forall j :: j in s ==> m <= j
  {
    var x :| x in s;
    var rest := s - {x};
    if rest == {} {
      assert s == {x};
      m := x;
    } else {
      var least := LeastOf(rest);
      m := if x < least then x else least;
      forall j | j in s ensures m <= j {
        if j != x {
          assert j in rest;
        }
      }
    }
  }

  lemma MinExists(s: set<nat>)
    requires s != {}
    ensures exists k :: k in s && forall j :: j in s ==> k <= j
  {
    var m := LeastOf(s);
  }

  function MinKey(s: set<nat>): (k: nat)
    requires s != {}
    ensures k in s && forall j :: j in s ==> k <= j
  {
    MinExists(s);
    var k :| k in s && forall j :: j in s ==> k <= j;
    k
  }

  /** `Object.keys` of a cart: its ids, each once, ascending. */
  function SortedKeys(s: set<nat>): (ks: seq<nat>)
    ensures |ks| == |s|
    ensures forall i :: 0 <= i < |ks| ==> ks[i] in s
    ensures forall k :: k in s ==> k in ks
    decreases |s|
  {
    if s == {} then []
    else
      var k := MinKey(s);
      [k] + SortedKeys(s - {k})
  }

  /** The keys come in strictly ascending order. */
  lemma {:induction false} SortedKeysAscending(s: set<nat>)
    ensures forall i, j :: 0 <= i < j < |SortedKeys(s)| ==> SortedKeys(s)[i] < SortedKeys(s)[j]
    decreases |s|
  {
    if s != {} {
      var k := MinKey(s);
      var ks, rest := SortedKeys(s), SortedKeys(s - {k});
      SortedKeysAscending(s - {k});
      MinBelowRest(s);
      assert ks == [k] + rest;
      forall i, j | 0 <= i < j < |ks| ensures ks[i] < ks[j] {
        assert ks[j] == rest[j - 1];
        if i > 0 {
          assert ks[i] == rest[i - 1];
        }
      }
    }
  }

  /** The least key is below every key that follows it. */
  lemma MinBelowRest(s: set<nat>)
    requires s != {}
    ensures forall j :: 0 <= j < |SortedKeys(s - {MinKey(s)})| ==> MinKey(s) < SortedKeys(s - {MinKey(s)})[j]
  {
    var k := MinKey(s);
    var rest := SortedKeys(s - {k});
    forall j | 0 <= j < |rest| ensures k < rest[j] {
      assert rest[j] in s - {k};
    }
  }

  lemma RemoveKeyShrinks(cart: Cart, k: nat)
    requires k in cart
    ensures (cart - {k}).Keys == cart.Keys - {k} && |cart - {k}| == |cart| - 1
  {
  }

  /** `Object.values(cart)`: the entries by ascending id. */
  function Values(cart: Cart): (vs: seq<CartEntry>)
    ensures |vs| == |cart|
    decreases |cart|
  {
    if cart == map[] then []
    else
      var k := MinKey(cart.Keys);
      RemoveKeyShrinks(cart, k);
      [cart[k]] + Values(cart - {k})
  }

  /** The i-th value is the entry under the i-th smallest id. */
  lemma {:induction false} ValuesAt(cart: Cart, i: nat)
    requires i < |cart|
    ensures |SortedKeys(cart.Keys)| == |cart| && Values(cart)[i] == cart[SortedKeys(cart.Keys)[i]]
    decreases |cart|
  {
    var k, rest := ValuesCons(cart);
    if i > 0 {
      ValuesAt(rest, i - 1);
    }
  }

  /** Both enumerations start with the least key and go on with the rest. */
  lemma ValuesCons(cart: Cart) returns (k: nat, rest: Cart)
    requires cart != map[]
    ensures k in cart && rest == cart - {k} && |rest| == |cart| - 1
    ensures Values(cart) == [cart[k]] + Values(rest)
    ensures SortedKeys(cart.Keys) == [k] + SortedKeys(rest.Keys)
  {
    k := MinKey(cart.Keys);
    RemoveKeyShrinks(cart, k);
    rest := cart - {k};
  }

  // ---------------------------------------------------------------------
  // total (EditUI.jsx:83-86 and its copy OrderUI.jsx:44-47)

  /** `i.price * i.quantity`; a null price multiplies as 0. */
  function Line(e: CartEntry): int
  {
    ToNumber(e.item.price) * e.quantity
  }

  /** `vs.reduce((sum, i) => sum + i.price * i.quantity, 0)`. */
  function SumLines(vs: seq<CartEntry>): int
  {
    if vs == [] then 0 else SumLines(vs[..|vs| - 1]) + Line(vs[|vs| - 1])
  }

  lemma SumLinesCons(e: CartEntry, vs: seq<CartEntry>)
    ensures SumLines([e] + vs) == Line(e) + SumLines(vs)
  {
    SumLinesConcat([e], vs);
    assert [e][..0] == [];
  }

  lemma {:induction false} SumLinesConcat(a: seq<CartEntry>, b: seq<CartEntry>)
    ensures SumLines(a + b) == SumLines(a) + SumLines(b)
  {
    if b == [] {
      assert a + b == a;
    } else {
      assert (a + b)[..|a + b| - 1] == a + b[..|b| - 1];
      SumLinesConcat(a, b[..|b| - 1]);
    }
  }

  /** The cart total: 0 for the empty cart. */
  function Total(cart: Cart): (t: int)
    ensures cart == map[] ==> t == 0
  {
    SumLines(Values(cart))
  }

  /** The total is the sum of price × quantity over the entries, whatever
      order they are taken in: it is any entry's line plus the total of the rest. */
  lemma {:induction false} TotalRemove(cart: Cart, k: nat)
    requires k in cart
    ensures Total(cart) == Line(cart[k]) + Total(cart - {k})
    decreases |cart|
  {
    var m := MinKey(cart.Keys);
    RemoveKeyShrinks(cart, m);
    var rest := cart - {m};
    assert Values(cart) == [cart[m]] + Values(rest);
    SumLinesCons(cart[m], Values(rest));
    if k != m {
      TotalRemove(rest, k);
      var without := cart - {k};
      RemoveKeyShrinks(cart, k);
      assert m in without.Keys;
      assert MinKey(without.Keys) == m;
      assert without - {m} == rest - {k};
      assert Values(without) == [without[m]] + Values(rest - {k});
      SumLinesCons(without[m], Values(rest - {k}));
    }
  }

  /** The total after storing `e` under `k` (new or replaced). */
  lemma TotalStore(cart: Cart, k: nat, e: CartEntry)
    ensures Total(cart[k := e]) == Total(cart - {k}) + Line(e)
  {
    TotalRemove(cart[k := e], k);
    assert cart[k := e] - {k} == cart - {k};
  }

  /** Total of a cart that is valid and whose prices are non-negative is non-negative. */
  lemma {:induction false} TotalNonNegative(cart: Cart)
    requires forall k :: k in cart ==> ToNumber(cart[k].item.price) >= 0 && cart[k].quantity >= 0
    ensures Total(cart) >= 0
    decreases |cart|
  {
    if cart != map[] {
      var k := MinKey(cart.Keys);
      RemoveKeyShrinks(cart, k);
      TotalRemove(cart, k);
      TotalNonNegative(cart - {k});
    }
  }

  /** Adjusting by `delta` moves the total by `delta` times the entry's price,
      or takes the whole line off when the entry is removed. */
  lemma TotalAdjusted(prev: Cart, id: nat, delta: int)
    requires id in prev
    ensures Qty(prev, id) + delta <= 0 ==> Total(Adjusted(prev, id, delta)) == Total(prev) - Line(prev[id])
    ensures Qty(prev, id) + delta > 0 ==>
      Total(Adjusted(prev, id, delta)) == Total(prev) + delta * ToNumber(prev[id].item.price)
  {
    TotalRemove(prev, id);
    var next := Adjusted(prev, id, delta);
    if Qty(prev, id) + delta <= 0 {
      assert next == prev - {id};
    } else {
      var old_, e := prev[id], CartEntry(prev[id].item, prev[id].quantity + delta);
      assert next == prev[id := e];
      TotalStore(prev, id, e);
      LineAdd(old_.item, old_.quantity, delta);
    }
  }

  lemma LineAdd(item: MenuItem, q: int, delta: int)
    ensures Line(CartEntry(item, q + delta)) == Line(CartEntry(item, q)) + delta * ToNumber(item.price)
  {
    var pr := ToNumber(item.price);
    assert pr * (q + delta) == pr * q + delta * pr;
  }

  // ---------------------------------------------------------------------
  // The submit payload (EditUI.jsx:117-121 and OrderUI.jsx:60-64)

  /** `.map(i => ({menu_id: i.id, quantity: i.quantity, unit_price: i.price}))`. */
  function EntryPayloads(vs: seq<CartEntry>): (items: seq<ItemPayload>)
    ensures |items| == |vs|
    ensures forall i :: 0 <= i < |vs| ==> items[i] == ItemPayload(vs[i].item.id, vs[i].quantity, vs[i].item.price)
  {
    seq(|vs|, i requires 0 <= i < |vs| => ItemPayload(vs[i].item.id, vs[i].quantity, vs[i].item.price))
  }

  /** The payload's order total is the reduce over the entries it came from. */
  lemma {:induction false} EntryPayloadsTotal(vs: seq<CartEntry>)
    ensures OrdersApi.TotalPrice(EntryPayloads(vs)) == SumLines(vs)
  {
    if vs != [] {
      var n := |vs| - 1;
      assert EntryPayloads(vs)[..n] == EntryPayloads(vs[..n]);
      EntryPayloadsTotal(vs[..n]);
    }
  }

  /** `Object.values(cart).map(...)`: one payload per entry, by ascending key. */
  function Payload(cart: Cart): (items: seq<ItemPayload>)
    ensures |items| == |cart|
    ensures forall i :: 0 <= i < |items| ==>
      var e := cart[SortedKeys(cart.Keys)[i]];
      items[i] == ItemPayload(e.item.id, e.quantity, e.item.price)
  {
    var items := EntryPayloads(Values(cart));
    forall i | 0 <= i < |items|
      ensures items[i] == ItemPayload(cart[SortedKeys(cart.Keys)[i]].item.id, cart[SortedKeys(cart.Keys)[i]].quantity,
                                      cart[SortedKeys(cart.Keys)[i]].item.price)
    {
      ValuesAt(cart, i);
    }
    items
  }

  /** In a valid cart the payload lists every entry exactly once, by ascending
      id, with its quantity (at least 1) and price. */
  lemma PayloadOfValidCart(cart: Cart)
    requires Valid(cart)
    ensures forall i, j :: 0 <= i < j < |Payload(cart)| ==> Payload(cart)[i].menuId < Payload(cart)[j].menuId
    ensures forall i :: 0 <= i < |Payload(cart)| ==>
      var p := Payload(cart)[i];
      p.menuId in cart && p.quantity == cart[p.menuId].quantity >= 1 && p.unitPrice == cart[p.menuId].item.price
    ensures forall k :: k in cart ==> exists i :: 0 <= i < |Payload(cart)| && Payload(cart)[i].menuId == k
  {
    var ks := SortedKeys(cart.Keys);
    SortedKeysAscending(cart.Keys);
    var items := Payload(cart);
    forall i | 0 <= i < |items|
      ensures items[i].menuId == ks[i] && ks[i] in cart
      ensures items[i].quantity == cart[ks[i]].quantity && items[i].unitPrice == cart[ks[i]].item.price
    {
      var e := cart[ks[i]];
      assert items[i] == ItemPayload(e.item.id, e.quantity, e.item.price);
    }
    forall k | k in cart ensures exists i :: 0 <= i < |items| && items[i].menuId == k {
      assert k in ks;
      var i :| 0 <= i < |ks| && ks[i] == k;
      assert items[i].menuId == k;
    }
  }

  /** The order total computed from the payload is the cart total. */
  lemma PayloadTotal(cart: Cart)
    ensures OrdersApi.TotalPrice(Payload(cart)) == Total(cart)
  {
    EntryPayloadsTotal(Values(cart));
  }
}
