# DigiDine storage managers and sidebar, modelled in Dafny

This project models the browser-side data layer of the DigiDine food-ordering
UI: the managers in `js/utils.js` that keep the cart, the orders, the saved
addresses, the saved restaurants and the saved dishes in the browser's local
key-value store; the simulated `API.post` / `API.put` endpoints that also
write to that store; and the parts of `js/menu-sidebar.js` that are logic
rather than markup. That means the order status tracker, the active-order
badges, the sidebar toggle, the empty state of each section panel, and the
input guards of `addNewAddress`.

Layout, one module per file:

- `records.dfy` (`Records`): the stored JSON values (`Json`), plus the JavaScript
  idioms the managers share: property read (`Field`, with `None` for
  `undefined`), object spread (`Spread`), property assignment (`Assign`),
  `findIndex` on a property (`FindIndex`) and `filter` on a property (`Without`).
- `store.dfy` (`KeyValueStore`): class `Store` holding `data: map<string, seq<Json>>`.
  A missing key reads as the empty array, as `JSON.parse(getItem(key) || '[]')` does.
- `dom.dfy` (`Dom`): class `Page` with the DOM state the code changes. That is the
  sidebar and overlay `active` flags, the section-content slot (shown or not, and
  which panel it holds), and the three count badges. A missing element is `None`.
- `cart.dfy`, `orders.dfy`, `saved_addresses.dfy`, `saved_ids.dfy`, `api.dfy`: the
  managers. The read-only methods (`get`, `getAllOrders`, `getActiveOrders`,
  `getTotal`, `getCount`, `isSaved`) are Dafny functions over the stored array.
  The methods that change the store are Dafny methods. Each reads the store,
  computes the new array and, on the paths where the JavaScript writes, writes
  it back; its `ensures` ties the new store to a pure function of the old array.
  The exception is `Cart.Clear`, which reads nothing and removes the key.
  `Cart.UpdateQuantity` on an unknown id and `SavedIds.Add` of an id already saved
  write nothing, and their `ensures` say the store is unchanged. The properties
  are proved as lemmas about those functions.
- `sidebar.dfy` (`Sidebar`): the tracker, panels, toggle, badges and `addNewAddress`.

Conventions:

- Numbers are integers: prices and totals in paise, clock readings in milliseconds.
- The clock (`Date.now()`, `new Date().toISOString()`) is passed in as parameters,
  one per reading.
- `prompt` answers are passed in as `Option<string>`, with `None` for a cancelled prompt.
- The saved-restaurants and saved-dishes managers run identical code on different
  keys, so `SavedIds` models both. `IdList` selects the key.

## Model

| member | source | states |
|---|---|---|
| `Records.Assign` | js/utils.js:108 | assigning a property sets that property and leaves every other property as it was |
| `Records.FindIndex` | js/utils.js:82 | `findIndex` by a property: the result is -1 or the first position whose property equals the value, and no earlier position matches |
| `Records.Without` | js/utils.js:120 | `filter(x => x.k !== v)` is never longer than its input |
| `Records.WithoutMembers` | js/utils.js:120 | the filter keeps exactly the elements whose property is not the value |
| `Records.WithoutAppend` | js/utils.js:120 | the filter distributes over concatenation, so the survivors keep their relative order |
| `Records.WithoutNothing` | js/utils.js:120 | filtering an array in which nothing matches returns it unchanged |
| `Records.WithoutOnly` | js/utils.js:120 | when exactly one element matches, the filter splices out that element and nothing else |
| `KeyValueStore.Store.Read` | js/utils.js:100 | a key that was never written, or was removed, reads as the empty array (the same default is at js/utils.js:187, 227, 253 and 280), and a written key reads back what was written; proved by `Store.Delete`'s `Read(key) == []` and `Store.Write`'s `Read(key) == v` |
| `KeyValueStore.Store.Write` | js/utils.js:113 | `setItem` replaces the whole array under one key, reads back what was written, and leaves every other key as it was |
| `KeyValueStore.Store.Delete` | js/utils.js:143 | `removeItem` drops the key, which then reads as the empty array; other keys are unchanged |
| `Dom.BadgeFor` | js/utils.js:160-162 | a badge shows the count as its text and is displayed iff the count is > 0; proved for the cart by `Cart.BadgeShownIffNonEmpty` and for the order badges by `Sidebar.OrderBadgeShown` |
| `Dom.Refreshed` | js/utils.js:157-163 | a badge element that is on the page gets the new count and a missing one stays missing (the same guards are at js/menu-sidebar.js:188 and 193); stated by the `ensures` of `Cart.UpdateBadge`, `Cart.Add`, `Cart.Remove`, `Cart.Clear` and `Sidebar.RefreshOrderBadges` |
| `Cart.Get` | js/utils.js:99-101 | the cart is the array stored under "cart"; `Cart.Clear` ensures it is `[]` once the key is removed, and `Cart.Add`, `Cart.Remove` and `Cart.UpdateQuantity` ensure their results are computed from the cart it gave before the call |
| `Cart.Count` | js/utils.js:152-155 | `getCount` is the left fold adding each item's quantity to 0, so with no negative quantity it is never negative; its algebra is in `Cart.SumsConcat`, `Cart.CountUpdate` and `Cart.CountAtLeastSize` |
| `Cart.Total` | js/utils.js:147-150 | `getTotal` is the left fold adding each item's price × quantity to 0, so with no negative price or quantity it is never negative; its algebra is in `Cart.SumsConcat` and `Cart.TotalUpdate` |
| `Cart.AddItem` | js/utils.js:103-116 | on an existing id, only that item's quantity grows by 1 and every other item and property is unchanged; otherwise the item is appended with quantity 1, whatever quantity it carried |
| `Cart.RemoveItem` | js/utils.js:118-124 | the filtered cart holds exactly the items whose id differs from the removed one |
| `Cart.SetQuantity` | js/utils.js:134 | `item.quantity = quantity` changes only that item's quantity |
| `Cart.CountUpdate` | js/utils.js:152-155 | replacing one item changes `getCount` by the difference of the two quantities |
| `Cart.TotalUpdate` | js/utils.js:147-150 | replacing one item changes `getTotal` by the difference of the two price×quantity amounts |
| `Cart.SumsConcat` | js/utils.js:147-155 | `getCount` and `getTotal` are sums: they split over a concatenation |
| `Cart.CountAtLeastSize` | js/utils.js:152-155 | with every quantity ≥ 1, `getCount` is at least the number of items |
| `Cart.EmptySums` | js/utils.js:147-155 | `getTotal` and `getCount` of an empty cart are 0 |
| `Cart.AddCount` | js/utils.js:103-116 | every `add` grows `getCount` by exactly 1, whether it bumps or appends |
| `Cart.AddTotal` | js/utils.js:103-116 | `add` grows `getTotal` by the price of the item bumped, or by the new item's price; the new item needs a numeric price only when it is appended |
| `Cart.AddKeepsInvariant` | js/utils.js:103-116 | `add` keeps ids pairwise distinct and every quantity ≥ 1 |
| `Cart.AddAll` | js/utils.js:103-116 | a sequence of `add` calls keeps every stored quantity numeric |
| `Cart.AddAllCount` | js/utils.js:103-116 | after any sequence of `add` calls, repeated ids included, the count has grown by the number of calls and ids are still distinct |
| `Cart.RemoveAbsent` | js/utils.js:118-124 | removing an id not in the cart leaves the cart unchanged |
| `Cart.RemovePresent` | js/utils.js:118-124 | with distinct ids, `remove` splices out exactly the item with that id, keeps the others in order, and lowers count and total by that item's share |
| `Cart.RemoveKeepsInvariant` | js/utils.js:118-124 | `remove` keeps ids distinct and quantities ≥ 1 |
| `Cart.SetQuantityKeepsInvariant` | js/utils.js:126-140 | setting a quantity keeps ids distinct, and a positive quantity keeps every quantity ≥ 1 |
| `Cart.BadgeShownIffNonEmpty` | js/utils.js:157-163 | when every quantity is ≥ 1, the cart badge is shown iff the cart is non-empty |
| `Cart.PizzaScenario` | js/utils.js:103-155 | adding a 250-paise pizza to an empty cart gives total 250 and count 1; adding it again gives one line, count 2 and total 500 |
| `Cart.UpdateBadge` | js/utils.js:157-164 | an existing `.cart-badge` shows the current count; a missing one stays missing |
| `Cart.Add` | js/utils.js:103-116 | stores and returns the `add` result; only the `cart` key changes; the badge is refreshed |
| `Cart.Remove` | js/utils.js:118-124 | stores and returns the filtered cart; only the `cart` key changes; the badge is refreshed |
| `Cart.UpdateQuantity` | js/utils.js:126-140 | for an id in the cart, a quantity ≤ 0 gives exactly `remove(id)` and a positive quantity sets only that item's quantity; for an unknown id, even with a quantity ≤ 0, neither the store nor the badge changes |
| `Cart.Clear` | js/utils.js:142-145 | the cart key is removed, so `get` returns the empty array, and the badge shows 0, hidden |
| `Orders.Get` | js/utils.js:186-188 | the orders are the array stored under "orders", and `getAllOrders` (js/utils.js:219-221) returns it unfiltered; `Orders.Add` ensures it becomes the new order followed by the old list, and `Orders.UpdateStatus` ensures its result is found in the old list |
| `Orders.Placed` | js/utils.js:192-198 | the new order carries the clock id, status "cooking" whatever status the input had, and both time stamps; every other property comes from the input |
| `Orders.StatusSet` | js/utils.js:207-209 | only the order at the found position changes, and only in `status` and `updatedAt`; any status value is accepted |
| `Orders.Active` | js/utils.js:215-217 | `getActiveOrders` holds exactly the orders whose status is not "delivered", so it never holds a delivered order |
| `Orders.AddKeepsNewestFirst` | js/utils.js:190-202 | with a clock later than the newest order, prepending keeps the ids strictly decreasing, so the new id differs from every earlier one |
| `Orders.StatusSetKeepsNewestFirst` | js/utils.js:204-213 | a status update moves no id, so the list stays newest first |
| `Orders.ActiveAfterAdd` | js/utils.js:190-217 | a newly added order heads the active list, in front of the previously active orders |
| `Orders.ActiveConcat` | js/utils.js:215-217 | the active filter distributes over concatenation, so it is an order-preserving subsequence |
| `Orders.NoneDelivered` | js/utils.js:215-217 | with no delivered order, every order is active |
| `Orders.Add` | js/utils.js:190-202 | the new order is stored at index 0, the previous list is exactly the tail, the returned order is the stored head, and only `orders` changes |
| `Orders.UpdateStatus` | js/utils.js:204-213 | the first order with the id is updated and returned; with no match nothing is written and `None` (undefined) is returned |
| `SavedAddresses.Get` | js/utils.js:226-228 | the saved addresses are the array stored under "saved-addresses"; `SavedAddresses.Add` ensures it grows by exactly the stamped record, and `SavedAddresses.Remove` ensures its result is the old list without the id |
| `SavedAddresses.Stamped` | js/utils.js:232-236 | the saved record carries the clock id and creation time, and every other property of the input |
| `SavedAddresses.Add` | js/utils.js:230-240 | appends exactly one stamped record and returns it; only `saved-addresses` changes |
| `SavedAddresses.Remove` | js/utils.js:242-247 | keeps exactly the addresses with another id, in their order |
| `SavedIds.Get` | js/utils.js:252-254 | the saved ids are the array stored under the list's key (SavedDishes.get, js/utils.js:279-281, likewise); `SavedIds.Add` and `SavedIds.Remove` ensure their results are computed from the list it gave before the call |
| `SavedIds.IsSaved` | js/utils.js:272-274 | `isSaved(id)` is membership in the stored list (SavedDishes.isSaved, js/utils.js:299-301, likewise); `SavedIds.Add` ensures it holds afterwards, `SavedIds.Remove` that it fails, and `SavedIds.SavedAfterAddRemove` that other ids are unaffected |
| `SavedIds.Added` | js/utils.js:257-262 | the list `add` leaves keeps the old list as its prefix, grows by one exactly when the id was absent, and holds exactly the old ids and the new one |
| `SavedIds.Removed` | js/utils.js:265-270 | `remove` never lengthens the list |
| `SavedIds.RemovedMembers` | js/utils.js:265-270 | `remove` keeps exactly the other ids |
| `SavedIds.RemovedConcat` | js/utils.js:265-270 | `remove` keeps the surviving ids in their order |
| `SavedIds.AddIdempotent` | js/utils.js:256-263 | `add` of a present id changes nothing, so `add` is idempotent |
| `SavedIds.SavedAfterAddRemove` | js/utils.js:256-274 | `isSaved(x)` holds after `add(x)` and fails after `remove(x)`; membership of other ids is unchanged |
| `SavedIds.AddedNoDup` | js/utils.js:256-263 | `add` never introduces a duplicate |
| `SavedIds.RemovedNoDup` | js/utils.js:265-270 | `remove` never introduces a duplicate |
| `SavedIds.ReplayNoDup` | js/utils.js:256-270 | a list built from `add` and `remove` calls alone never holds a duplicate |
| `SavedIds.SaveTwiceScenario` | js/utils.js:256-263 | saving "r1" twice leaves exactly one "r1" |
| `SavedIds.Add` | js/utils.js:256-263 | a new id is appended and written; a present id causes no write; afterwards the id is saved (SavedDishes.add, js/utils.js:283-290, is the same code on `saved-dishes`) |
| `SavedIds.Remove` | js/utils.js:265-270 | writes back the list without the id; afterwards the id is not saved (SavedDishes.remove, js/utils.js:292-297, likewise) |
| `Api.Posted` | js/utils.js:67 | the posted record carries the clock id and every other property of the data |
| `Api.Merged` | js/utils.js:84 | shallow merge: each property comes from the supplied data when present there, else from the existing record |
| `Api.MergeIdempotent` | js/utils.js:84 | merging the same data twice equals merging it once |
| `Api.PutFindsSameRecord` | js/utils.js:82-86 | the merged record keeps its position as the first match, so a second `put` with the same id updates the same record |
| `Api.Post` | js/utils.js:62-76 | appends exactly one record under the URL key and returns it; no other key changes |
| `Api.Put` | js/utils.js:78-94 | replaces the first record with the matching id by the merge and returns it, all other records unchanged; with no match fails with "Item not found" and writes nothing |
| `Sidebar.CurrentStatusIndex` | js/menu-sidebar.js:32-37 | the status index is -1 or a position of the three-step list |
| `Sidebar.Tracker` | js/menu-sidebar.js:58-60 | a tracker has one view per step |
| `Sidebar.TrackerKnownStatus` | js/menu-sidebar.js:32-60 | for a status at index k of [cooking, shipped, delivered], step i is completed iff i < k and step k is the only active step |
| `Sidebar.TrackerUnknownStatus` | js/menu-sidebar.js:37 | an unrecognised status (index -1) leaves no step active and none completed |
| `Sidebar.TrackerDelivered` | js/menu-sidebar.js:32-60 | for "delivered", cooking and shipped are completed and delivered is active |
| `Sidebar.TrackerPlaced` | js/menu-sidebar.js:32-37 | a freshly added order shows cooking as active and nothing completed |
| `Sidebar.OrdersPanel` | js/menu-sidebar.js:18-31 | the orders panel shows the empty state iff there are no orders; otherwise one card per order, in stored order, each with its tracker |
| `Sidebar.ShowOrdersSection` | js/menu-sidebar.js:13-78 | the content slot is displayed; when every stored order has an `items` array without null entries and a numeric `total`, it holds the orders panel for the stored orders; otherwise the markup throws a `TypeError` (js/menu-sidebar.js:48, and `toFixed` at js/utils.js:169) and the slot keeps its old panel |
| `Sidebar.ShowSavedAddressesSection` | js/menu-sidebar.js:80-106 | the content slot is displayed; the empty state is shown iff no address is saved |
| `Sidebar.ShowSavedRestaurantsSection` | js/menu-sidebar.js:108-123 | the content slot is displayed; the empty state is shown iff no restaurant is saved |
| `Sidebar.ShowSavedDishesSection` | js/menu-sidebar.js:125-140 | the content slot is displayed; the empty state is shown iff no dish is saved |
| `Sidebar.ShowHelpSection` | js/menu-sidebar.js:142-159 | the content slot is displayed and holds the help panel |
| `Sidebar.ToggleMenuSidebar` | js/menu-sidebar.js:2-11 | flips the sidebar and overlay flags (two flags in step stay in step); when the sidebar ends inactive an existing content slot is hidden, otherwise it is unchanged |
| `Sidebar.ActiveCount` | js/menu-sidebar.js:185-189 | the badge count is at most the number of orders, and it is positive iff some order is not delivered |
| `Sidebar.OrderBadgeShown` | js/menu-sidebar.js:188-197 | the order badges are shown iff some order is not delivered |
| `Sidebar.RefreshOrderBadges` | js/menu-sidebar.js:184-198 | both order badges, when on the page, show the active-order count; a missing one stays missing |
| `Sidebar.Given` | js/menu-sidebar.js:171 | the `if (!answer) return` guard (also at line 174, and the phone's empty-string default at line 176); `Sidebar.AddNewAddress` ensures a cancelled or empty name or address changes nothing and any other answers save one address |
| `Sidebar.Entered` | js/menu-sidebar.js:176-178 | the entered address has exactly the properties name, address and phone: the name and address answers, and the phone answer or "" when it is cancelled or empty |
| `Sidebar.AddNewAddress` | js/menu-sidebar.js:169-181 | a cancelled or empty name or address saves nothing and changes no state; otherwise exactly one address is saved and the addresses panel, now not empty, is shown |

## Left out

- Toast notifications (js/utils.js:4-44) create DOM elements and remove them on timers. They are not modelled, so neither are the error toasts of `API.post`/`API.put` or the success toasts of `addNewAddress`.
- `API.get` (js/utils.js:48-60) is real network I/O through `fetch`.
- `API.post` and `API.put` are `async`. They are modelled as synchronous calls. Their `catch` blocks only log, toast and rethrow, and the only thrown error modelled is "Item not found".
- `formatCurrency` and `formatDate` format floats and dates for display, and the panels' HTML markup is not modelled. Panels record the data the markup is generated from.
- JSON text and `localStorage` strings are not modelled: the store holds values, so a write followed by a read returns the written array by construction. `JSON.parse` throws on a malformed stored value, and the code has no recovery to an empty array; that path is not modelled.
- Numbers are integers (prices in paise), so floating-point rounding in totals is not modelled.
- JavaScript `===` and `includes` are modelled as structural equality of JSON values. Object identity and `NaN` are not modelled. For an id that is an object or an array, `===` and `includes` never match after `JSON.parse`, so `Cart.add` appends a second line and `SavedRestaurants.add` a second entry. `Cart.AddKeepsInvariant`, `Cart.AddAllCount`, `SavedIds.AddedNoDup` and `SavedIds.ReplayNoDup` therefore hold in the program only for ids that are strings, numbers, booleans or `null`.
- Spreading a string or an array (`{..."ab"}`) is modelled as spreading nothing. Reading a property of `null` is modelled as `undefined`, not as a `TypeError`. Every record the code writes is an object, so neither case arises from the code's own writes.
- Cart.Add: requires every stored item to have a numeric `quantity`. So do `Cart.Remove`, `Cart.UpdateQuantity` and `Cart.UpdateBadge`, because `getCount` must be a number. JavaScript would produce `NaN` or string concatenation for other values. `getTotal` likewise needs numeric prices.
- Cart.Remove, Cart.UpdateQuantity, Orders.UpdateStatus, SavedAddresses.Remove: the id argument is a JSON value, never `undefined`. A JavaScript caller passing `undefined` would match the records that lack an `id`. The same holds for the id of `SavedIds.Add` and `SavedIds.Remove`: `SavedRestaurants.add(undefined)` pushes `undefined`, which `JSON.stringify` stores as `null`. The `status` argument of `Orders.UpdateStatus` is likewise never `undefined`: `updateStatus(id)` with no status stores the order without a `status` property, since `JSON.stringify` drops it, and that order then counts as active and shows no tracker step.
- Orders.Add: the three clock readings are independent parameters. Ids are not assumed unique, because two orders placed in the same millisecond get the same id; uniqueness is proved only for a clock later than the newest order (`Orders.AddKeepsNewestFirst`).
- `handleLogout` (js/menu-sidebar.js:161-167) is not modelled. It needs a `confirm` dialog and clears the `restaurant-auth` key, which another component owns.
- The `DOMContentLoaded` listeners are not modelled as events. What they run is modelled, as `Cart.UpdateBadge` and `Sidebar.RefreshOrderBadges`.
- Sidebar.AddNewAddress: the three prompt answers are taken together. The order of the dialogs, where a cancelled name prompt means the address prompt is never shown, is not modelled.
- Sidebar.ShowOrdersSection and the other `show…Section` methods require the content element to exist. On a page without it, the JavaScript throws a `TypeError`. A stored order that makes the orders markup throw is reported by `ShowOrdersSection`'s result; only its `items` and `total` are checked, since `formatDate` turns a missing `createdAt` into "Invalid Date" without throwing.
- Sidebar.ToggleMenuSidebar: the `Page` model assumes the `#menu-sidebar` and `#sidebar-overlay` elements exist. On a page without either, `classList.toggle` throws a `TypeError` (js/menu-sidebar.js:5-6).
- Several browser tabs writing the same key concurrently (last write wins) are outside this sequential model.
