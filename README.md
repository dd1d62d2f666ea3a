# Restaurant ordering core, modelled in Dafny

The application is a table-side ordering front end for a restaurant. A diner
builds a cart from the menu and places an order. The order is written to a
backend as one `orders` row plus one `order_items` row per cart line, and the
table is marked active. While the order is new it can be edited. A tracker
shows a message for the order's status, offers Edit or Add, and enables
Checkout once the order is delivered. Checkout requests the bill.

This project models the logic under those screens:

- `js.dfy` (module `Js`): the JavaScript behaviour the code relies on.
  - `null` and `undefined` are both `None`.
  - `??`, `||` and truthiness.
  - `String.prototype.trim`.
  - `Array.prototype.filter`.
  - A stable sort by a boolean key.
  - The first-seen order of `new Set(...)`.
- `store.dfy` (module `Store`): the rows the core reads and writes, and the backend as a class `Backend`.
  - The class has `orders`, `orderItems` and `tables` fields.
  - Its insert and update methods.
  - A counter for the ids the database assigns.
- `orders_api.dfy` (module `OrdersApi`): `createOrder`, a method with every early exit, and `updateOrder`.
- `cart.dfy` (module `Cart`): what the two cart screens share.
  - The cart map keyed by menu id.
  - The quantity adjustment.
  - `Object.values` order.
  - The total.
  - The `{menu_id, quantity, unit_price}` payload.
- `edit_ui.dfy` (module `EditUI`): the edit screen.
  - Loading the cart from a saved order.
  - The add and remove handlers.
  - The category bar.
  - The menu list with cart items first.
  - The update request.
  - The screen state as a class.
- `order_ui.dfy` (module `OrderUI`): the ordering screen.
  - The raw add handler.
  - Categories that keep missing values.
  - The plain category filter.
  - `submitOrder`, with its effect on the screen state and on the table.
- `versions.dfy` (module `Versions`): where the two cart screens agree and where they differ.
- `supa_query.dfy` (module `SupaQuery`): `buildSelect`, the select-string serialiser.
- `track_content.dfy` (module `TrackContent`): the tracker.
  - The status messages.
  - The button and spinner gating.
  - The bill request.
  - The checkout lines and total.
- `badge.dfy` (module `Badge`): the status badge's colour and label.

Backend answers are parameters of the methods: an error, or none, for each
call. This makes every error path of `createOrder` and `updateOrder`
reachable. The current day is also a parameter, and each order row carries
the day on which it was created. Prices are integers.

## Model

| member | source | states |
|---|---|---|
| Js.Coalesce | src/components/EditUI.jsx:39-40 | `x ?? d`: a present value is kept, even a falsy one such as 0, and only a missing one is replaced by the default; EditUI.FromSaved states the defaults it gives |
| Js.OrEmpty | src/components/EditUI.jsx:28 | `s \|\| ""` on a nullable string: a missing string becomes `""` and a present one is kept; EditState.constructor and EditUI.Snapshot state where it is used |
| Js.Trim | src/components/EditUI.jsx:38 | `String.prototype.trim`; TrimSpec, TrimUnchanged and TrimIdempotent state what it keeps and what it drops |
| Js.TrimSpec | src/components/EditUI.jsx:38 | the trimmed string is a slice of the input; everything cut off at either end is white space; the result neither starts nor ends with white space |
| Js.TrimUnchanged | src/components/EditUI.jsx:55 | a string with no white space at either end is returned unchanged by trim |
| Js.TrimIdempotent | src/components/EditUI.jsx:55 | trimming twice is trimming once |
| Js.Filter | src/components/OrderUI.jsx:54 | the result holds only elements of the input that satisfy the predicate, and every element that satisfies it |
| Js.FilterConcat | src/components/OrderUI.jsx:54 | filtering distributes over concatenation, so input order is kept |
| Js.FilterCount | src/components/OrderUI.jsx:54 | each value occurs in the result as often as in the input if it satisfies the predicate, and not at all otherwise |
| Js.FilterCounts | src/components/EditUI.jsx:98 | for every value at once: it occurs in the filtered list as often as in the input if it satisfies the predicate, and not at all otherwise |
| Js.FilterSplit | src/components/EditUI.jsx:101-107 | the elements that satisfy a predicate and those that do not together make up the input as a multiset |
| Js.FilterAll | src/components/EditUI.jsx:97 | filtering by a predicate every element satisfies returns the input |
| Js.FilterNone | src/components/EditUI.jsx:101-107 | filtering by a predicate no element satisfies returns the empty list |
| Js.SortTrueFirst | src/components/EditUI.jsx:100-107 | the sort whose comparator puts elements with the key first; it keeps the length, and SortTrueFirstPermutes, SortTrueFirstGroups and SortTrueFirstStable state that it is the stable sort by that key |
| Js.SortTrueFirstPermutes | src/components/EditUI.jsx:101-107 | the stable sort by a boolean key is a permutation of its input |
| Js.SortTrueFirstGroups | src/components/EditUI.jsx:101-107 | after the sort, every element with the key comes before every element without it |
| Js.SortTrueFirstStable | src/components/EditUI.jsx:101-107 | within each of the two groups, the input order is kept |
| Js.Distinct | src/components/OrderUI.jsx:49 | `[...new Set(s)]` is no longer than `s` |
| Js.DistinctSpec | src/components/EditUI.jsx:89-91 | the set's contents are exactly the values of the input, each listed once |
| Js.DistinctConstant | src/components/OrderUI.jsx:49 | a non-empty list of one repeated value gives a one-element set |
| Js.IndexOf | src/ui/Badge.jsx:15 | the position found holds the value searched for |
| Js.IndexOfFirst | src/ui/Badge.jsx:15 | no earlier position holds that value |
| Js.IndexOfPrefix | src/components/EditUI.jsx:90 | appending elements does not move a value's first occurrence |
| Js.DistinctFirstSeenOrder | src/components/EditUI.jsx:89-91 | the set lists values in the order of their first occurrence |
| Store.CategoriesOf | src/components/OrderUI.jsx:49 | `menuItems.map(i => i.category)`: one category per item, in menu order |
| Store.WithCategory | src/components/EditUI.jsx:98 | the filter callback `i => i.category === c`; EditUI.Listed and OrderUI.FilteredSpec state what filtering by it keeps |
| Store.Patched | src/lib/ordersApi.js:89 | an update writes exactly the fields present in `updatedFields` and keeps every other column; an empty patch changes nothing |
| Store.PatchedIdempotent | src/lib/ordersApi.js:89 | applying the same update twice is applying it once |
| Store.HasId | src/lib/ordersApi.js:90 | the `.eq('id', orderId)` row filter; Store.UpdatedOrders and OrdersApi.FirstUpdatedRow state which rows it selects |
| Store.UpdatedOrders | src/lib/ordersApi.js:88-90 | `.update(...).eq('id', id)` patches the rows with that id, keeps all other rows, and keeps the order of rows |
| Store.FirstWithId | src/lib/ordersApi.js:98 | the first position with the given id: no earlier row has it, and it is the row count when no row has it |
| Store.UpdatedTables | src/components/OrderUI.jsx:74-77 | `.update(...).match({id})` on `tables` sets `is_active` and `active_order` on the rows with that id and keeps every other row |
| Store.Backend.constructor | src/lib/ordersApi.js:44-56 | the store starts with no orders and no items, its table rows as given, and the id counter at 1 |
| Store.Backend.InsertOrder | src/lib/ordersApi.js:44-56 | appends one order row with a fresh id and the status 'new', returns that row, and changes nothing else |
| Store.Backend.InsertOrderItems | src/lib/ordersApi.js:70-72 | appends the given item rows, in order |
| Store.Backend.UpdateOrders | src/lib/ordersApi.js:87-91 | patches the matching orders and returns the rows that match the id after the update |
| Store.Backend.UpdateTables | src/components/OrderUI.jsx:74-77 | the table update, which changes nothing but `tables` |
| OrdersApi.LatestOrder | src/lib/ordersApi.js:22-30 | the answer to the latest-order query: the reported error if there is one; else no row when the restaurant has no order that day; else the top order number among that day's orders, as TopNumber and NextOrderNumberIsMaxPlusOne state |
| OrdersApi.TopNumber | src/lib/ordersApi.js:28-30 | the first row of a descending sort on `order_number`: a number that occurs among the rows; NULL exactly when some row has NULL (NULL sorts first in a descending order); otherwise the largest number |
| OrdersApi.NextOrderNumber | src/lib/ordersApi.js:36 | `(latestOrder?.order_number \|\| 0) + 1`: 1 without a row or with a NULL number, else the number plus 1 |
| OrdersApi.NextOrderNumberIsMaxPlusOne | src/lib/ordersApi.js:21-36 | the next number is 1 when the restaurant has no order that day or one of them has a NULL number; otherwise it is the day's highest number plus 1, above every number used that day |
| OrdersApi.FetchThrows | src/lib/ordersApi.js:32 | the fetch throws exactly on an error whose code is not PGRST116, and a no-rows answer does not throw, as OnlyRealErrorsThrow states |
| OrdersApi.OnlyRealErrorsThrow | src/lib/ordersApi.js:32-34 | the fetch step throws exactly when the call reports an error whose code is not PGRST116 |
| OrdersApi.LinePrice | src/lib/ordersApi.js:40 | one item's `unit_price * quantity`, a NULL price counting as 0; TotalPriceConcat makes the total the sum of these |
| OrdersApi.TotalPrice | src/lib/ordersApi.js:39-41 | the total over no items is 0 |
| OrdersApi.TotalPriceConcat | src/lib/ordersApi.js:39-41 | the total of a concatenation of item lists is the sum of their totals, so the total is Σ unit_price × quantity |
| OrdersApi.TotalPriceNonNegative | src/lib/ordersApi.js:39-41 | with non-negative prices and quantities the total is non-negative |
| OrdersApi.PayloadOf | src/lib/ordersApi.js:63-68 | the `{menu_id, quantity, unit_price}` part of an `order_items` row; ItemRows states that it gives each input item back |
| OrdersApi.ItemRows | src/lib/ordersApi.js:63-68 | one order_items row per input item, in input order, each pointing at the new order and carrying that item's menu_id, quantity and unit_price |
| OrdersApi.HasIds | src/lib/ordersApi.js:12 | `!restaurant_id \|\| !table_id` is false: both ids are present and non-zero; CreateOrder and SubmitOrder state that the alert comes exactly when this fails |
| OrdersApi.CreateOrderEffect | src/lib/ordersApi.js:10-79 | one `createOrder` run, path by path: how it ends, and what it does to `orders` and `order_items`. A missing id gives the alert; no items throws; a fetch error other than PGRST116 throws; a failed order insert throws; none of these writes anything. Otherwise one order row is appended, with the next order number, the total, the notes and the next id. Then either the item insert fails and throws, leaving that row in place, or one item row per input item is appended and the order is returned. CreateOrder and OrderUI.OrderState.SubmitOrder both ensure it |
| OrdersApi.CreatedWhenAllSucceed | src/lib/ordersApi.js:10-79 | with both ids, some items and every backend call succeeding, the order is created with the next id, one order row is appended, and one item row per input item points at it |
| OrdersApi.MissingTableAlerts | src/lib/ordersApi.js:12 | with no table id, whatever the items and the backend answers, `createOrder` ends in the alert and reads and writes nothing; the order screen the tracker's Add button opens gets no table id |
| OrdersApi.CreateOrder | src/lib/ordersApi.js:10-79 | a missing or zero restaurant or table id gives the alert and no read or write; no items throws before any read; a fetch error other than PGRST116 throws and writes nothing; a failed order insert throws and writes nothing; otherwise one order row with the next order number, the computed total, the notes and status 'new' is appended, and then either the item insert fails and throws, or one `order_items` row per item is appended and the new row is returned; `tables` never changes; when no order row is written nothing is written |
| OrdersApi.FirstUpdatedRow | src/lib/ordersApi.js:98 | `data?.[0]` of the filtered rows is the row at the first position with that id, and there is none exactly when no row has it |
| OrdersApi.UpdateOrder | src/lib/ordersApi.js:86-99 | an error throws with its message and changes nothing; otherwise only the orders with that id change, only in the given fields, and the result is the first updated row (`undefined` when there is none) |
| Cart.Adjusted | src/components/EditUI.jsx:62-73 | `handleQuantity(id, delta)`: the entry is removed exactly when old quantity + delta ≤ 0, otherwise it gets that quantity; an absent id leaves the cart unchanged; every other key is kept; quantities stay at least 1 |
| Cart.AdjustedToZeroRemoves | src/components/OrderUI.jsx:33-38 | decreasing an entry by its whole quantity removes it |
| Cart.MinKey | src/components/EditUI.jsx:84 | the least key of a non-empty key set, which `Object.values` visits first |
| Cart.SortedKeys | src/components/EditUI.jsx:84 | `Object.keys` of the cart: each key once |
| Cart.SortedKeysAscending | src/components/EditUI.jsx:84 | the keys are enumerated in strictly ascending numeric order, as JavaScript enumerates integer-like keys |
| Cart.ValuesCons | src/components/EditUI.jsx:84 | `Object.values` and `Object.keys` both start with the least key and go on with the rest of the cart |
| Cart.ValuesAt | src/components/EditUI.jsx:84 | the i-th value of `Object.values(cart)` is the entry under the i-th key in ascending order |
| Cart.Values | src/components/EditUI.jsx:84 | `Object.values` of the cart: one entry per key, in ascending id order, as ValuesAt and ValuesCons state |
| Cart.Line | src/components/EditUI.jsx:84 | one entry's `i.price * i.quantity`, a NULL price counting as 0; TotalRemove and TotalStore state the total in terms of it |
| Cart.SumLines | src/components/EditUI.jsx:83-86 | the `reduce` from 0 over a list of entries; SumLinesConcat makes it additive over concatenation |
| Cart.SumLinesConcat | src/components/EditUI.jsx:84 | the reduce over a concatenation of entries is the sum of the two reduces |
| Cart.Total | src/components/EditUI.jsx:83-86 | the total of the empty cart is 0 |
| Cart.TotalRemove | src/components/OrderUI.jsx:44-47 | the total is the line price × quantity of any one entry plus the total of the rest, so it is the sum over all entries whatever their order |
| Cart.TotalStore | src/components/EditUI.jsx:83-86 | storing an entry under a key replaces that key's line in the total |
| Cart.TotalNonNegative | src/components/EditUI.jsx:83-86 | with non-negative prices and quantities the total is non-negative |
| Cart.TotalAdjusted | src/components/OrderUI.jsx:31-47 | adjusting a quantity to zero or below takes that entry's line out of the total; any other adjustment adds delta × price |
| Cart.LineAdd | src/components/OrderUI.jsx:45 | delta more units of an item add delta × its price to its line |
| Cart.EntryPayloads | src/components/OrderUI.jsx:60-64 | one `{menu_id, quantity, unit_price}` per entry, in order, copied from that entry |
| Cart.EntryPayloadsTotal | src/components/OrderUI.jsx:60-64 | the order total of those payloads is the reduce of price × quantity over the entries |
| Cart.Payload | src/components/OrderUI.jsx:60-64 | one `{menu_id, quantity, unit_price}` per entry, in ascending key order, copied from that entry |
| Cart.PayloadOfValidCart | src/components/EditUI.jsx:117-121 | in a valid cart the payload lists every entry exactly once, by ascending menu id, with its quantity (at least 1) and price |
| Cart.PayloadTotal | src/components/EditUI.jsx:117-130 | the order total computed from the payload equals the cart total |
| EditUI.Snapshot | src/components/EditUI.jsx:53-56 | the copied item keeps id, category and image, and always has a name and a price |
| EditUI.SnapshotIdempotent | src/components/EditUI.jsx:53-56 | copying an already copied item changes nothing |
| EditUI.Added | src/components/EditUI.jsx:50-60 | the entry under `item.id` becomes the trimmed copy with quantity old + 1 (1 if absent); every other key is kept; quantities stay at least 1 |
| EditUI.TotalAfterAdd | src/components/EditUI.jsx:50-60 | after an add, the item's line is its defaulted price × its new quantity; a new item raises the total by its defaulted price |
| EditUI.Removed | src/components/EditUI.jsx:75-81 | only the key `id` goes away; every other entry is kept; quantities stay at least 1 |
| EditUI.RemovedIdempotent | src/components/EditUI.jsx:75-81 | removing twice is removing once |
| EditUI.TotalAfterRemove | src/components/EditUI.jsx:75-86 | removing an entry takes its line out of the total; removing an absent id leaves the total unchanged |
| EditUI.FromSaved | src/components/EditUI.jsx:35-43 | an entry built from a saved item has its menu id; the price is `unit_price`, else the menu price, else 0; the quantity is the saved one, else 1 |
| EditUI.Mapped | src/components/EditUI.jsx:33-44 | after the loop, the last saved item's id is a key |
| EditUI.MenuIds | src/components/EditUI.jsx:36 | the menu ids of the saved items, in order |
| EditUI.MappedKeys | src/components/EditUI.jsx:33-44 | the keys of the loaded cart are exactly the menu ids of the saved items, so there is one entry per distinct id |
| EditUI.MappedLastWins | src/components/EditUI.jsx:36-43 | for each id, the entry is built from the last saved item with that id |
| EditUI.MappedValid | src/components/EditUI.jsx:40 | when every saved quantity is at least 1 or missing, the loaded cart satisfies the cart invariant |
| EditUI.MapOrderItems | src/components/EditUI.jsx:33-44 | the `forEach` loop builds exactly the cart above |
| EditUI.TruthyCategories | src/components/EditUI.jsx:90 | the truthy category values of the menu: each is non-empty and on the menu, and every truthy category on the menu is among them |
| EditUI.Categories | src/components/EditUI.jsx:88-92 | the category bar starts with "all" |
| EditUI.CategoriesSpec | src/components/EditUI.jsx:88-92 | after "all" come exactly the truthy menu categories, each once |
| EditUI.CategoriesFirstSeen | src/components/EditUI.jsx:89-91 | the categories after "all" come in the order of their first appearance on the menu |
| EditUI.CollectCategories | src/components/EditUI.jsx:88-92 | the loop that fills the `Set` produces exactly that bar; a missing menu gives `["all"]` |
| EditUI.InCart | src/components/EditUI.jsx:101-103 | the sort key `!!selectedItems[a.id]`: an item is in the cart exactly when its id is a key of it; FilteredSpec states the order it gives |
| EditUI.Listed | src/components/EditUI.jsx:95-98 | before sorting: the whole menu, unchanged, for "all"; else exactly the menu items of the active category, each as often as on the menu |
| EditUI.Filtered | src/components/EditUI.jsx:94-108 | the sorted list is as long as the listed menu |
| EditUI.FilteredSpec | src/components/EditUI.jsx:94-108 | the view is a permutation of the listed menu; cart items come before the others; menu order is kept within each group |
| EditUI.FilteredAllEmptyCart | src/components/EditUI.jsx:94-108 | with "all" and an empty cart the view is the menu as it came |
| EditUI.RequestFor | src/components/EditUI.jsx:111-131 | no request for an empty cart; otherwise a request for that order with the notes, the items being the cart's `{menu_id, quantity, unit_price}` payload (one per entry), and `total_price` equal to the cart total |
| EditUI.RequestTotalAgrees | src/components/EditUI.jsx:117-130 | the total sent equals Σ unit_price × quantity over the items sent |
| EditUI.PatchOf | src/components/EditUI.jsx:123-131 | the columns of `orders` the update request writes: notes and total, and not the status; EditState.SubmitUpdate states the resulting rows |
| EditUI.EditState.constructor | src/components/EditUI.jsx:24-28 | an empty cart, and notes from the order or "" |
| EditUI.EditState.Preload | src/components/EditUI.jsx:31-47 | without an order nothing changes; with one, the cart becomes the loaded cart (none when `order_items` is missing) and the notes become the order's notes or "" |
| EditUI.EditState.HandleAdd | src/components/EditUI.jsx:50-60 | the cart becomes the add updater's result |
| EditUI.EditState.HandleQuantity | src/components/EditUI.jsx:62-73 | the cart becomes the quantity updater's result |
| EditUI.EditState.RemoveItem | src/components/EditUI.jsx:75-81 | the cart becomes the remove updater's result |
| EditUI.EditState.SubmitUpdate | src/components/EditUI.jsx:111-131 | an empty cart sends nothing and changes nothing. Otherwise the outcome is an update exactly when the backend reports no error. On an update, the order's notes and total are written, and the outcome carries the first row with that id after the update, or none. A failed update throws with the backend message and changes nothing. Order items, tables and the id counter are never touched |
| OrderUI.Added | src/components/OrderUI.jsx:23-28 | the entry under `item.id` becomes the item as given, with quantity old + 1 (1 if absent); every other key is kept; quantities stay at least 1 |
| OrderUI.TotalAfterAdd | src/components/OrderUI.jsx:23-47 | adding an item not yet in the cart raises the total by its price (0 if missing) |
| OrderUI.TotalAfterAddAgain | src/components/OrderUI.jsx:23-47 | adding an item already in the cart, with the same fields, raises the total by its price once more |
| OrderUI.Categories | src/components/OrderUI.jsx:49 | the category bar starts with "all" |
| OrderUI.CategoriesSpec | src/components/OrderUI.jsx:49 | after "all" come exactly the categories on the menu, missing ones included, each once |
| OrderUI.CategoriesKeepMissing | src/components/OrderUI.jsx:49 | a menu whose items all lack a category gets a bar of "all" and one button for the missing category |
| OrderUI.Filtered | src/components/OrderUI.jsx:51-54 | there is a list exactly when the menu has arrived |
| OrderUI.FilteredSpec | src/components/OrderUI.jsx:51-54 | for "all" the list is the menu itself; otherwise it holds exactly the menu's items of that category, each as often as on the menu |
| OrderUI.CreateInputFor | src/components/OrderUI.jsx:60-67 | the createOrder argument carries the ids and notes as given and, as items, the cart's `{menu_id, quantity, unit_price}` payload, one per entry, whose total is the cart total |
| OrderUI.OrderState.constructor | src/components/OrderUI.jsx:16-20 | an empty cart and empty notes |
| OrderUI.OrderState.HandleAdd | src/components/OrderUI.jsx:23-28 | the cart becomes the add updater's result |
| OrderUI.OrderState.HandleQuantity | src/components/OrderUI.jsx:31-41 | the cart becomes the quantity updater's result |
| OrderUI.OrderState.SubmitOrder | src/components/OrderUI.jsx:57-81 | an empty cart sends nothing; otherwise createOrder runs on the cart's payload and notes, and its outcome and its writes to orders and order_items follow createOrder path by path (an alert exactly when an id is missing); when it throws, cart, notes and tables are kept; when it resolves, cart and notes are cleared; a created order has the cart's total and the notes, one order row and one item row per cart entry are appended, and its table is then marked active with that order unless the table update fails |
| Versions.AddedAgreeOnCleanItems | src/components/EditUI.jsx:50-60 | for an item with an already trimmed name and a present price, both screens' add handlers give the same cart (OrderUI.jsx:23-28) |
| Versions.AddedTotalsAgree | src/components/EditUI.jsx:83-86 | for any item, the two screens' carts after an add have the same total (OrderUI.jsx:44-47) |
| Versions.FilteredAgreeOnEmptyCart | src/components/EditUI.jsx:94-108 | with "all" and an empty cart both screens list the menu in menu order (OrderUI.jsx:51-54) |
| Versions.CategoriesPartOnMissing | src/components/EditUI.jsx:88-92 | for a menu item without a category, the edit screen's bar is just "all" while the ordering screen's also has the missing category (OrderUI.jsx:49) |
| SupaQuery.Join | src/lib/supaQuery.js:26 | joining no parts gives "", and joining one part gives that part |
| SupaQuery.JoinConcat | src/lib/supaQuery.js:26 | joining two non-empty lists of parts puts exactly one separator between them, so n parts carry n-1 separators |
| SupaQuery.BuildSelect | src/lib/supaQuery.js:12-27 | an empty relation list gives "" |
| SupaQuery.Segment | src/lib/supaQuery.js:14-25 | the `.map` callback for one entry: a string renders as `name(*)`; an object with a truthy `relation` renders as `relation:foreignKey(...)`; anything else throws; SegmentOk states what it accepts |
| SupaQuery.Segments | src/lib/supaQuery.js:13-25 | `relations.map(...)`: one segment per entry, in order, ended by the first entry that throws; SegmentsOk, FirstErrorWins and SegmentsConcat state this |
| SupaQuery.WellFormed | src/lib/supaQuery.js:15-24 | an entry `buildSelect` accepts: a string, or an object with a truthy `relation` whose nested entries, when present, are all accepted; BuildSelectOk states that exactly these render |
| SupaQuery.SegmentOk | src/lib/supaQuery.js:15-24 | one entry renders exactly when it is a string, or an object with a truthy `relation` whose nested entries all render |
| SupaQuery.SegmentsOk | src/lib/supaQuery.js:13-25 | the list renders exactly when every entry does, with one segment per entry |
| SupaQuery.BuildSelectOk | src/lib/supaQuery.js:12-27 | `buildSelect` returns a string exactly when every entry, at every depth, is accepted; otherwise it throws |
| SupaQuery.FirstErrorWins | src/lib/supaQuery.js:24 | when the list does not render, some entry does not render |
| SupaQuery.SegmentsConcat | src/lib/supaQuery.js:13-25 | the segments of a concatenation are the two lists of segments in input order |
| SupaQuery.BuildSelectConcat | src/lib/supaQuery.js:26 | the select string of a concatenation is the two select strings joined by ", " |
| SupaQuery.NamesRender | src/lib/supaQuery.js:15 | a list of plain names renders each name as `name(*)` |
| SupaQuery.FlatObjectExample | src/lib/supaQuery.js:21 | an object without `nested` renders as `r:fk(*)` |
| SupaQuery.EmptyNestedExample | src/lib/supaQuery.js:18-19 | an empty `nested` array is truthy and renders as `r:fk()` |
| SupaQuery.NestedExample | src/lib/supaQuery.js:18-19 | `{relation: 'order_items', foreignKey: 'order_id', nested: ['menu']}` renders as `order_items:order_id(menu(*))` |
| TrackContent.Message | src/components/TrackContent.jsx:85 | `STATUS_MESSAGES[order?.status] \|\| ...`; MessageKeys, MessageFallback and MessagesDistinct state which status gets which message |
| TrackContent.MessageKeys | src/components/TrackContent.jsx:16-24 | the message table has exactly the seven statuses as keys |
| TrackContent.MessageFallback | src/components/TrackContent.jsx:85 | the fallback message is shown exactly when the status is missing or not one of the seven |
| TrackContent.MessagesDistinct | src/components/TrackContent.jsx:16-24 | the seven messages differ from each other and from the fallback |
| TrackContent.ShowsSpinner | src/components/TrackContent.jsx:82 | the big spinner runs for every status but 'delivered'; GatingConsistent ties it to Checkout |
| TrackContent.OffersEdit | src/components/TrackContent.jsx:196 | the first button is Edit exactly when the status is 'new', and Add otherwise; GatingConsistent ties it to Checkout |
| TrackContent.CheckoutDisabled | src/components/TrackContent.jsx:214 | Checkout is disabled for every status but 'delivered'; GatingConsistent relates it to Edit and to the spinner |
| TrackContent.GatingConsistent | src/components/TrackContent.jsx:82-217 | while Edit is offered (status 'new') Checkout is disabled; Checkout is enabled exactly when the spinner stops; and then the delivered message is shown |
| TrackContent.CheckChangesOnlyStatus | src/components/TrackContent.jsx:60-66 | the bill request sets status 'billing-requested' on that one order and changes nothing else |
| TrackContent.HandleCheck | src/components/TrackContent.jsx:58-77 | `handleCheck` sets only the order's status and returns the first row with that id after the update; a failed update throws with the backend message and changes nothing; order items, tables and the id counter are never touched |
| TrackContent.CheckoutLines | src/components/TrackContent.jsx:157-167 | one line per saved item, each its unit_price × quantity, and no lines when `order_items` is missing |
| TrackContent.LinesAddUpToCreatedTotal | src/components/TrackContent.jsx:165-172 | for an order whose lines are those it was placed with, the lines add up to the total computed at creation |
| TrackContent.CheckoutTotal | src/components/TrackContent.jsx:172 | the total shown is the stored `total_price`; TotalNotRecomputed states that it can differ from the sum of the lines |
| TrackContent.TotalNotRecomputed | src/components/TrackContent.jsx:172 | the total shown is the stored `total_price`, which need not equal the sum of the lines |
| Badge.Color | src/ui/Badge.jsx:14 | `STATUS_COLORS[status] \|\| ...`: the table entry for a known status, else the gray fallback, as ColorSpec states |
| Badge.ColorSpec | src/ui/Badge.jsx:3-14 | a known status gets its entry of the colour table; any other status gets "bg-gray-100 text-gray-800", which no known status gets |
| Badge.SameStatuses | src/ui/Badge.jsx:3-11 | the badge's colour table and the tracker's message table have the same seven statuses |
| Badge.ReplaceFirstHyphen | src/ui/Badge.jsx:15 | the rewritten string has the length of the input |
| Badge.Label | src/ui/Badge.jsx:15 | a missing status raises a TypeError and nothing else does; a present status gets a label of its own length, which ReplaceFirstHyphenSpec describes |
| Badge.ReplaceFirstHyphenSpec | src/ui/Badge.jsx:15 | a string without a hyphen is unchanged; otherwise its first hyphen becomes a space and every other character, later hyphens included, stays |
| Badge.LabelInKitchen | src/ui/Badge.jsx:15 | "in-kitchen" is labelled "in kitchen" |
| Badge.LabelKeepsLaterHyphens | src/ui/Badge.jsx:15 | "a-b-c" is labelled "a b-c" |
| Badge.LabelUnfold | src/ui/Badge.jsx:15 | with the first hyphen at position k, the label is the status with position k turned into a space |

## Left out

- Rendering is not modelled: JSX markup, animations, class strings other than the badge colours, toasts, modals and `location.reload`.
- The Supabase client is an abstract store. `supaQuery`, `supaInsert`, `supaDelete` and `supaUpdate` (src/lib/supaQuery.js:31-81) are not modelled, and neither is `fetchOrderWithFullDetails`. Each call's answer is a method parameter.
- The react-query hooks are not modelled. Where they pass a mutation's outcome to `onSuccess` or `onError`, the method does that directly.
- The realtime subscription of the tracker (src/components/TrackContent.jsx:36-51) is event plumbing and is not modelled.
- Dates are not modelled. `startOfDay` and `endOfDay` and time zones become a day number on each order row and a `today` parameter.
- Concurrency is not modelled: every run is sequential. The read-then-write of the next order number can race across tabs. Nothing here claims that order numbers are unique when it does.
- Prices and totals are integers, not floating-point numbers.
- `null` and `undefined` are one value, `None`. The code treats them the same under `??`, `||` and optional chaining.
  - In arithmetic they differ: `null * q` is 0 but `undefined * q` is NaN. The model assumes every missing price or quantity is a database NULL, never `undefined`, and multiplies it as 0.
  - Under `===` they differ too: `null === undefined` is false. OrderUI.Categories keeps one button for a missing category, where a menu with both `null` and `undefined` categories would get two in JavaScript; the category filters likewise treat the two as one.
- OrdersApi.CreateOrder: the items argument is always a list. The `!Array.isArray(items)` throw for a non-list value and the `items = []` default for a missing one are not modelled separately; an empty list stands for both.
- OrdersApi.CreateOrder: database faults on the insert are one error per call. A partial insert is not modelled.
- Cart.Adjusted requires an id that is in the cart, or a delta of at most 0. The screens call `handleQuantity` only for ids in the cart. With an absent id and a positive delta the source would store `{quantity}` with no item fields, and that case is not modelled.
- EditUI.RequestFor sends the `items` list in the orders update. PostgREST rejects an update naming an unknown column, so either `orders` has a column for the `items` key, whose write this model drops, or the real update fails with an error. The model takes the first reading. Nothing deletes or re-inserts `order_items`, so saving an edit writes only notes and total here. This follows the code: the saved lines are not replaced.
- EditUI.Mapped assumes every saved line has its joined menu row. A line whose `menu` is `null` would throw a TypeError in the source and is not modelled.
- EditUI.Listed assumes no `null` entries in the menu list. The categories loop skips a `null` entry through `i?.category`, but the filter and the sort would throw on one.
- SupaQuery.Segment prints a missing `foreignKey` as "undefined", as a template literal does. A `null` key would print "null"; the two are not told apart.
- Cart.SortedKeys: `Object.values` visits the cart in ascending id order only because menu ids are integer-like keys. Keys that were not integer-like would be visited in insertion order, which the model does not capture.
- OrdersApi.UpdateOrder: the `console.error` logging before the throw is output only and is not modelled; so is the `console.log` of the screens.
- SupaQuery.BuildSelect: a missing argument defaults to `[]` in the source; the model always receives a list, and the empty list stands for the default.
- Store.Backend.InsertOrder: the new row gets the status 'new' from an assumed database column default. The insert sends no status, and the schema is not part of this model.
- OrderUI.OrderState.SubmitOrder: after the alert, `createOrder` resolves to `undefined`. `onSuccess` then clears the cart and the notes, and throws a TypeError on `order.id` before the table update. The model ends the call once the cart and notes are cleared, with the table unchanged, and does not report that throw.
- The tracker renders `TrackContent` without a `table_id` (src/components/TrackUI.jsx:21), so the order screen its Add button opens always submits without a table id. OrdersApi.MissingTableAlerts states that such a call always ends in the alert. TrackUI.jsx itself is not part of this model.
- Ids are modelled as the numbers TrackUI passes (`Number(...)` of the query parameter). The ordering screen gets `restaurant_id` as the raw query-parameter string (src/components/Main.jsx:10). There `!restaurant_id` is false for "0" or "abc", while OrdersApi.HasIds treats a numeric 0 as missing.
- The status and colour tables are finite maps. Prototype keys such as "toString" are not modelled.
- The Edit and Add modals and the checkout modal flags are presentational state and are not modelled.
- Routing and the small presentational components are not modelled: `Main.jsx`, `TrackUI.jsx` with its query-parameter parsing, `Modal`, `Button`, `Input`, `Image`, `Spinner`, `BigSpinner`, `Success`, `NoData` and `App`.
- Badge.Label: the `capitalize` CSS class, applied when the badge is drawn, is rendering and is not modelled.
