/**
 * The menu sidebar: opening and closing it, the section panels it shows
 * (orders with their status trackers, saved addresses, saved restaurants,
 * saved dishes, help), the two active-order badges, and the dialog-driven
 * address entry.
 */
module Sidebar {
  import opened Wrappers
  import opened Records
  import opened KeyValueStore
  import opened Dom
  import Orders
  import SavedAddresses
  import SavedIds

  // ---------------------------------------------------------------------------
  // Status tracker

  function StatusStep(key: string, title: string): Json
  {
    Obj(map["key" := Str(key), "label" := Str(title)])
  }

  /** The `key` and the `label` of each status step, in tracker order. */
  const StepKeys: seq<string> := ["cooking", "shipped", "delivered"]
  const StepTitles: seq<string> := ["Cooking", "Shipped", "Delivered"]

  /** The fixed `statusSteps` list every order's tracker is drawn from, built from the two lists above. */
  const StatusSteps: seq<Json> :=
    [StatusStep(StepKeys[0], StepTitles[0]), StatusStep(StepKeys[1], StepTitles[1]), StatusStep(StepKeys[2], StepTitles[2])]

  /** `statusSteps.findIndex(s => s.key === order.status)`: -1 for a status outside the list. */
  function CurrentStatusIndex(order: Json): (k: int)
    ensures -1 <= k < |StatusSteps|
  {
    FindIndex(StatusSteps, "key", Field(order, "status"))
  }

  /** The tracker for one order: step i is active when i is the current index, completed when below it. */
  function Tracker(order: Json): (r: seq<StepView>)
    ensures |r| == |StatusSteps|
  {
    var k := CurrentStatusIndex(order);
    seq(|StatusSteps|, i requires 0 <= i < |StatusSteps| => StepView(StepTitles[i], i == k, i < k))
  }

  /** A status that is the key of step k puts the current index at k. */
  lemma IndexOfKnownStatus(order: Json, k: int)
    requires 0 <= k < |StepKeys| && Field(order, "status") == Some(Str(StepKeys[k]))
    ensures CurrentStatusIndex(order) == k
  {
    assert forall i | 0 <= i < |StatusSteps| :: Field(StatusSteps[i], "key") == Some(Str(StepKeys[i]));
    assert StepKeys[0] != StepKeys[1] && StepKeys[0] != StepKeys[2] && StepKeys[1] != StepKeys[2];
  }

  /**
   * For a status at index k of the step list, step i is completed exactly
   * when i < k, and step k is the one and only active step.
   */
  lemma TrackerKnownStatus(order: Json, k: int)
    requires 0 <= k < |StepKeys| && Field(order, "status") == Some(Str(StepKeys[k]))
    ensures forall i | 0 <= i < |StatusSteps| :: Tracker(order)[i].completed <==> i < k
    ensures forall i | 0 <= i < |StatusSteps| :: Tracker(order)[i].active <==> i == k
  {
    IndexOfKnownStatus(order, k);
  }

  /** A status that is none of the three keys leaves every step neither active nor completed. */
  lemma TrackerUnknownStatus(order: Json)
    requires forall k | 0 <= k < |StepKeys| :: Field(order, "status") != Some(Str(StepKeys[k]))
    ensures forall i | 0 <= i < |StatusSteps| :: !Tracker(order)[i].active && !Tracker(order)[i].completed
  {
    assert forall i | 0 <= i < |StatusSteps| :: Field(StatusSteps[i], "key") == Some(Str(StepKeys[i]));
    assert CurrentStatusIndex(order) == -1;
  }

  /** A delivered order: cooking and shipped are completed and delivered is active. */
  lemma TrackerDelivered(order: Json)
    requires Field(order, "status") == Some(Orders.Delivered)
    ensures Tracker(order) ==
      [StepView("Cooking", false, true), StepView("Shipped", false, true), StepView("Delivered", true, false)]
  {
    IndexOfKnownStatus(order, 2);
  }

  /** A freshly placed order shows cooking as active and nothing completed. */
  lemma TrackerPlaced(order: Json, now: int, createdAt: string, updatedAt: string)
    ensures Tracker(Orders.Placed(order, now, createdAt, updatedAt)) ==
      [StepView("Cooking", true, false), StepView("Shipped", false, false), StepView("Delivered", false, false)]
  {
    IndexOfKnownStatus(Orders.Placed(order, now, createdAt, updatedAt), 0);
  }

  // ---------------------------------------------------------------------------
  // Panels

  /** The orders panel: the empty state when there are no orders, else one card per order in stored order. */
  function OrdersPanel(orders: seq<Json>): (p: Panel)
    ensures p.OrdersEmpty? <==> orders == []
    ensures orders != [] ==> p.OrdersList? && |p.cards| == |orders|
    ensures orders != [] ==> forall i | 0 <= i < |orders| :: p.cards[i] == OrderCard(orders[i], Tracker(orders[i]))
  {
    if |orders| == 0 then OrdersEmpty
    else OrdersList(seq(|orders|, i requires 0 <= i < |orders| => OrderCard(orders[i], Tracker(orders[i]))))
  }

  /**
   * An order the card markup can be built from without a `TypeError`: its
   * `items` is an array (for `items.map`) of non-null entries (for
   * `item.name`), and its `total` is a number (for `toFixed`).
   */
  predicate Renderable(order: Json)
  {
    && Field(order, "items").Some? && Field(order, "items").value.Arr?
    && (forall item | item in Field(order, "items").value.elems :: item != Null)
    && Field(order, "total").Some? && Field(order, "total").value.Num?
  }

  /**
   * `showOrdersSection()`. The slot is displayed first; when some stored
   * order cannot be rendered, building the markup throws and the slot keeps
   * its old panel, which `rendered` reports as false.
   */
  method ShowOrdersSection(s: Store, d: Page) returns (rendered: bool)
    requires d.content.Some?
    modifies d`content
    ensures rendered <==> forall o | o in Orders.Get(s) :: Renderable(o)
    ensures rendered ==> d.content == Some(Section(true, OrdersPanel(Orders.Get(s))))
    ensures !rendered ==> d.content == Some(Section(true, old(d.content).value.panel))
  {
    d.content := Some(d.content.value.(shown := true));
    var orders := Orders.Get(s);
    if |orders| == 0 {
      d.content := Some(Section(true, OrdersEmpty));
      return true;
    }
    if exists o | o in orders :: !Renderable(o) {
      return false;
    }
    var cards := seq(|orders|, i requires 0 <= i < |orders| => OrderCard(orders[i], Tracker(orders[i])));
    d.content := Some(Section(true, OrdersList(cards)));
    return true;
  }

  /** `showSavedAddressesSection()`: the empty state exactly when no address is saved. */
  method ShowSavedAddressesSection(s: Store, d: Page)
    requires d.content.Some?
    modifies d`content
    ensures d.content == Some(Section(true, AddressesPanel(SavedAddresses.Get(s) == [], SavedAddresses.Get(s))))
  {
    var addresses := SavedAddresses.Get(s);
    d.content := Some(Section(true, AddressesPanel(|addresses| == 0, addresses)));
  }

  /** `showSavedRestaurantsSection()`: the empty state exactly when no restaurant is saved. */
  method ShowSavedRestaurantsSection(s: Store, d: Page)
    requires d.content.Some?
    modifies d`content
    ensures d.content == Some(Section(true, RestaurantsPanel(SavedIds.Get(s, SavedIds.Restaurants) == [])))
  {
    var savedIds := SavedIds.Get(s, SavedIds.Restaurants);
    d.content := Some(Section(true, RestaurantsPanel(|savedIds| == 0)));
  }

  /** `showSavedDishesSection()`: the empty state exactly when no dish is saved. */
  method ShowSavedDishesSection(s: Store, d: Page)
    requires d.content.Some?
    modifies d`content
    ensures d.content == Some(Section(true, DishesPanel(SavedIds.Get(s, SavedIds.Dishes) == [])))
  {
    var savedIds := SavedIds.Get(s, SavedIds.Dishes);
    d.content := Some(Section(true, DishesPanel(|savedIds| == 0)));
  }

  /** `showHelpSection()` */
  method ShowHelpSection(d: Page)
    requires d.content.Some?
    modifies d`content
    ensures d.content == Some(Section(true, HelpPanel))
  {
    d.content := Some(Section(true, HelpPanel));
  }

  // ---------------------------------------------------------------------------
  // Sidebar toggle

  /**
   * `toggleMenuSidebar()`: flip the sidebar's and the overlay's `active`
   * class, and hide the section content when the sidebar ends up closed.
   */
  method ToggleMenuSidebar(d: Page)
    modifies d`sidebarActive, d`overlayActive, d`content
    ensures d.sidebarActive == !old(d.sidebarActive)
    ensures d.overlayActive == !old(d.overlayActive)
    ensures !d.sidebarActive && old(d.content).Some? ==> d.content == Some(old(d.content).value.(shown := false))
    ensures d.sidebarActive || old(d.content).None? ==> d.content == old(d.content)
    ensures old(d.sidebarActive) == old(d.overlayActive) ==> d.sidebarActive == d.overlayActive
  {
    d.sidebarActive := !d.sidebarActive;
    d.overlayActive := !d.overlayActive;
    if !d.sidebarActive {
      if d.content.Some? {
        d.content := Some(d.content.value.(shown := false));
      }
    }
  }

  // ---------------------------------------------------------------------------
  // Active-order badges

  /** The number both order badges show: the orders not yet delivered. */
  function ActiveCount(orders: seq<Json>): (n: nat)
    ensures n <= |orders|
    ensures n > 0 <==> exists i | 0 <= i < |orders| :: Field(orders[i], "status") != Some(Orders.Delivered)
  {
    var active := Orders.Active(orders);
    assert |active| > 0 ==> active[0] in active;
    assert forall i | 0 <= i < |orders| :: orders[i] in orders;
    |active|
  }

  /** Both order badges are shown exactly when some order is not yet delivered. */
  lemma OrderBadgeShown(orders: seq<Json>)
    ensures BadgeFor(ActiveCount(orders)).shown <==>
      exists i | 0 <= i < |orders| :: Field(orders[i], "status") != Some(Orders.Delivered)
  {
  }

  /** The page-load handler: each order badge that is on the page shows the active count. */
  method RefreshOrderBadges(s: Store, d: Page)
    modifies d`orderBadge, d`ordersBadge
    ensures d.orderBadge == Refreshed(old(d.orderBadge), ActiveCount(Orders.Get(s)))
    ensures d.ordersBadge == Refreshed(old(d.ordersBadge), ActiveCount(Orders.Get(s)))
  {
    var activeOrders := Orders.Active(Orders.Get(s));
    if d.orderBadge.Some? {
      var count := |activeOrders|;
      d.orderBadge := Some(BadgeFor(count));
    }
    if d.ordersBadge.Some? {
      var count := |activeOrders|;
      d.ordersBadge := Some(BadgeFor(count));
    }
  }

  // ---------------------------------------------------------------------------
  // Adding an address through dialogs

  /** A `prompt` answer the `if (!answer)` guard lets through: not cancelled and not empty. */
  predicate Given(answer: Option<string>)
  {
    answer.Some? && answer.value != ""
  }

  /** The object `addNewAddress` passes on: `{ name, address, phone }`, phone defaulting to "". */
  function Entered(name: string, address: string, phone: Option<string>): (r: Json)
    ensures r.Obj? && r.fields.Keys == {"name", "address", "phone"}
    ensures Field(r, "name") == Some(Str(name))
    ensures Field(r, "address") == Some(Str(address))
    ensures Field(r, "phone") == Some(Str(if Given(phone) then phone.value else ""))
  {
    Obj(map["name" := Str(name), "address" := Str(address), "phone" := Str(if Given(phone) then phone.value else "")])
  }

  /**
   * `addNewAddress()`, with the three prompt answers passed in (None for a
   * cancelled prompt): a missing or empty name or address saves nothing;
   * otherwise exactly one address is saved and the addresses panel is shown.
   */
  method AddNewAddress(s: Store, d: Page, name: Option<string>, address: Option<string>, phone: Option<string>,
                       now: int, createdAt: string)
    requires Given(name) && Given(address) ==> d.content.Some?
    modifies s, d`content
    ensures !Given(name) || !Given(address) ==> s.data == old(s.data) && d.content == old(d.content)
    ensures Given(name) && Given(address) ==>
      && SavedAddresses.Get(s) ==
           old(SavedAddresses.Get(s)) + [SavedAddresses.Stamped(Entered(name.value, address.value, phone), now, createdAt)]
      && s.data == old(s.data)[SavedAddresses.Key := SavedAddresses.Get(s)]
      && d.content == Some(Section(true, AddressesPanel(false, SavedAddresses.Get(s))))
  {
    if !Given(name) {
      return;
    }
    if !Given(address) {
      return;
    }
    var entry := Entered(name.value, address.value, phone);
    var _ := SavedAddresses.Add(s, entry, now, createdAt);
    ShowSavedAddressesSection(s, d);
  }
}
