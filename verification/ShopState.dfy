/** The database rows of the shop that the order, cart, promotion and subscription services share. */
module ShopState {
  import opened Wrappers
  import opened Sums

  /** Row identifiers are opaque: they are only compared for equality. */
  type Id = nat

  const DAY_MS: int := 24 * 60 * 60 * 1000
  const MIN_FREQUENCY_DAYS := 7
  const MAX_FREQUENCY_DAYS := 365
  const MAX_CART_QUANTITY := 99
  const RENEWAL_BATCH := 50

  // ── Catalogue and promotions ──────────────────────────────────────────────

  datatype Provider = StripeProvider | MercadoPagoProvider

  /** The part of a tenant row that pricing and checkout read. */
  datatype Tenant = Tenant(
    provider: Provider, mpConnected: bool,
    freeShippingThreshold: Option<int>, shippingFlat: Option<int>)

  datatype SubAvail = Yes | No | SubscriptionOnly

  /** A variant together with the status and availability of its product. */
  datatype Variant = Variant(
    tenant: Id, priceOneTime: int, priceSubscription: Option<int>,
    stock: int, active: bool, avail: SubAvail)

  datatype DiscountKind = Percentage | Fixed

  datatype DiscountCode = DiscountCode(
    kind: DiscountKind, value: int, minSubtotal: Option<int>, maxRedemptions: Option<int>,
    timesRedeemed: int, oneUse: bool, startsAt: Option<int>, endsAt: Option<int>, active: bool)

  /** Codes are unique per tenant. */
  datatype CodeKey = CodeKey(tenant: Id, code: Id)

  // ── Carts ─────────────────────────────────────────────────────────────────

  datatype CartItem = CartItem(variant: Id, quantity: int)

  /** Cart rows are unique per customer and variant. */
  datatype CartKey = CartKey(customer: Id, variant: Id)
  datatype CartRow = CartRow(tenant: Id, quantity: int)

  // ── Orders ────────────────────────────────────────────────────────────────

  datatype OrderStatus = Received | Preparing | Shipped | Delivered | Cancelled
  datatype PaymentStatus = Paid | Pending | Failed | Refunded

  /** The snapshot of a bought line. */
  datatype Line = Line(variant: Id, unitCents: int, quantity: int, lineCents: int)

  datatype Order = Order(
    tenant: Id, customer: Id, subscription: Option<Id>,
    status: OrderStatus, payment: PaymentStatus,
    subtotalCents: int, discountCents: int, shippingCents: int, totalCents: int,
    discountCode: Option<Id>, items: seq<Line>,
    stripeIntent: Option<Id>, mpPayment: Option<Id>)

  // ── Subscriptions ─────────────────────────────────────────────────────────

  datatype SubStatus = Active | Paused | SkippedNext | SubCancelled | PaymentFailed

  datatype Subscription = Subscription(
    tenant: Id, customer: Id, variant: Id, frequencyDays: int, status: SubStatus,
    lastShippedAt: Option<int>, nextShipAt: int, discountPct: int)

  // ── The whole database ────────────────────────────────────────────────────

  /** `now` is the server clock in milliseconds; the two event tables only hold ids. */
  datatype State = State(
    now: int,
    tenants: map<Id, Tenant>,
    variants: map<Id, Variant>,
    codes: map<CodeKey, DiscountCode>,
    carts: map<CartKey, CartRow>,
    orders: map<Id, Order>,
    subs: map<Id, Subscription>,
    stripeEvents: set<Id>,
    mpEvents: set<Id>)

  function Min(a: int, b: int): int { if a < b then a else b }

  function Max(a: int, b: int): int { if a < b then b else a }

  function LineCents(): Line -> int {
    (l: Line) => l.lineCents
  }

  /** The quantity of variant `v` on a line. */
  function QuantityOf(v: Id): Line -> int {
    (l: Line) => if l.variant == v then l.quantity else 0
  }

  /** The units of variant `v` on a list of lines. */
  function Demand(items: seq<Line>, v: Id): int {
    Sum(QuantityOf(v), items)
  }

  /** The tables that every service reaches through its Prisma client. */
  class Prisma {
    var now: int
    var tenants: map<Id, Tenant>
    var variants: map<Id, Variant>
    var codes: map<CodeKey, DiscountCode>
    var carts: map<CartKey, CartRow>
    var orders: map<Id, Order>
    var subs: map<Id, Subscription>
    var stripeEvents: set<Id>
    var mpEvents: set<Id>

    function Model(): State
      reads this
    {
      State(now, tenants, variants, codes, carts, orders, subs, stripeEvents, mpEvents)
    }
  }
}
