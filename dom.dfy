/**
 * The part of the page's DOM state that the model tracks: the sidebar and
 * overlay `active` classes, the section-content slot (whether it is displayed
 * and which panel it holds), and the three count badges. Markup itself is not
 * modelled; a panel records what the markup is generated from.
 */
module Dom {
  import opened Wrappers
  import opened Records

  /** A count badge: its text and whether its `display` is `flex` (shown) or `none`. */
  datatype Badge = Badge(text: int, shown: bool)

  /** What every badge update in the application writes for a count. */
  function BadgeFor(count: int): Badge
  {
    Badge(count, count > 0)
  }

  /** A badge update applies only when the element is on the page. */
  function Refreshed(b: Option<Badge>, count: int): Option<Badge>
  {
    if b.Some? then Some(BadgeFor(count)) else None
  }

  /** One step of an order's status tracker. */
  datatype StepView = StepView(title: string, active: bool, completed: bool)

  /** One order in the orders panel, with its status tracker. */
  datatype OrderCard = OrderCard(order: Json, steps: seq<StepView>)

  /** What the section-content slot shows. */
  datatype Panel =
    | Blank
    | OrdersEmpty
    | OrdersList(cards: seq<OrderCard>)
    | AddressesPanel(emptyState: bool, addresses: seq<Json>)
    | RestaurantsPanel(emptyState: bool)
    | DishesPanel(emptyState: bool)
    | HelpPanel

  /** The `sidebar-section-content` element: displayed or not, and its content. */
  datatype Section = Section(shown: bool, panel: Panel)

  class Page {
    /** `menu-sidebar` has class `active` */
    var sidebarActive: bool
    /** `sidebar-overlay` has class `active` */
    var overlayActive: bool
    /** `sidebar-section-content`; None when the element is not on the page */
    var content: Option<Section>
    /** `.cart-badge` */
    var cartBadge: Option<Badge>
    /** `order-badge` */
    var orderBadge: Option<Badge>
    /** `orders-badge` */
    var ordersBadge: Option<Badge>

    constructor (hasContent: bool, hasCartBadge: bool, hasOrderBadge: bool, hasOrdersBadge: bool)
      ensures !sidebarActive && !overlayActive
      ensures content == (if hasContent then Some(Section(false, Blank)) else None)
      ensures cartBadge == (if hasCartBadge then Some(Badge(0, false)) else None)
      ensures orderBadge == (if hasOrderBadge then Some(Badge(0, false)) else None)
      ensures ordersBadge == (if hasOrdersBadge then Some(Badge(0, false)) else None)
    {
      sidebarActive, overlayActive := false, false;
      content := if hasContent then Some(Section(false, Blank)) else None;
      cartBadge := if hasCartBadge then Some(Badge(0, false)) else None;
      orderBadge := if hasOrderBadge then Some(Badge(0, false)) else None;
      ordersBadge := if hasOrdersBadge then Some(Badge(0, false)) else None;
    }
  }
}
