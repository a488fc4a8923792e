/** The shop as one state machine: the calls of the cart, promotion, checkout, order, payment and subscription
    services and the catalogue's price edits, in any order, with the clock running. */
module ShopRuns {
  import opened Wrappers
  import opened ShopState
  import opened Pricing
  import opened Carts
  import opened Promotions
  import opened Orders
  import opened Subscriptions

  /** A catalogue edit of prices and visibility; stock edits and deletions are not steps of a run. */
  datatype VariantChange = VariantChange(
    price: Option<int>, subscriptionPrice: Option<int>, active: Option<bool>, avail: Option<SubAvail>)

  datatype Step =
    | Tick(ms: nat)
    | EditVariant(tenant: Id, variant: Id, change: VariantChange)
    | PromoStep(tenant: Id, promo: PromoOp)
    | CartStep(tenant: Id, customer: Id, cart: CartOp)
    | OrderStep(op: OrderOp)
    | SubStep(sub: SubOp)

  /** The input rules that the validation pipe enforces before a service runs. */
  predicate StepOk(st: Step) {
    match st
    case Tick(_) => true
    case EditVariant(_, _, change) =>
      (change.price.Some? ==> change.price.value >= 0)
      && (change.subscriptionPrice.Some? ==> change.subscriptionPrice.value >= 0)
    case PromoStep(_, op) => PromoOpOk(op)
    case CartStep(_, _, op) => OpOk(op)
    case OrderStep(op) => OrderOpOk(op)
    case SubStep(op) => SubOpOk(op)
  }

  predicate RunOk(run: seq<Step>) {
    forall st :: st in run ==> StepOk(st)
  }

  function EditCatalogue(s: State, tenant: Id, variant: Id, change: VariantChange): Result<State> {
    if variant !in s.variants || s.variants[variant].tenant != tenant then Err(NotFound)
    else
      var v := s.variants[variant];
      var subscriptionPrice := if change.subscriptionPrice.Some? then change.subscriptionPrice else v.priceSubscription;
      Ok(s.(variants := s.variants[variant := v.(
        priceOneTime := OrElse(change.price, v.priceOneTime), priceSubscription := subscriptionPrice,
        active := OrElse(change.active, v.active), avail := OrElse(change.avail, v.avail))]))
  }

  /** A catalogue edit of a tenant's variant stores the values sent and keeps the others, the stock among them. */
  lemma EditEffect(s: State, tenant: Id, variant: Id, change: VariantChange)
    ensures var r := EditCatalogue(s, tenant, variant, change);
            var known := variant in s.variants && s.variants[variant].tenant == tenant;
            && (!known ==> r == Err(NotFound))
            && (known ==>
                  && r.Ok? && variant in r.value.variants
                  && var was, v := s.variants[variant], r.value.variants[variant];
                  && r.value == s.(variants := s.variants[variant := v])
                  && v.stock == was.stock && v.tenant == was.tenant
                  && v.priceOneTime == (if change.price.Some? then change.price.value else was.priceOneTime)
                  && v.active == (if change.active.Some? then change.active.value else was.active)
                  && v.avail == (if change.avail.Some? then change.avail.value else was.avail)
                  && (change.subscriptionPrice.Some? ==> v.priceSubscription == change.subscriptionPrice)
                  && (change.subscriptionPrice.None? ==> v.priceSubscription == was.priceSubscription))
  {}

  function Attempt(s: State, st: Step): Result<State> {
    match st
    case Tick(ms) => Ok(s.(now := s.now + ms))
    case EditVariant(tenant, variant, change) => EditCatalogue(s, tenant, variant, change)
    case PromoStep(tenant, op) => PromoAttempt(s, tenant, op)
    case CartStep(tenant, customer, op) => CartAttempt(s, tenant, customer, op)
    case OrderStep(op) => OrderAttempt(s, op)
    case SubStep(op) => SubAttempt(s, op)
  }

  function Apply(s: State, st: Step): State {
    After(s, Attempt(s, st))
  }

  function Run(s: State, run: seq<Step>): State {
    if run == [] then s else Apply(Run(s, run[..|run| - 1]), run[|run| - 1])
  }

  lemma {:induction false} RunConcat(s: State, a: seq<Step>, b: seq<Step>)
    ensures Run(s, a + b) == Run(Run(s, a), b)
  {
    if b == [] {
      assert a + b == a;
    } else {
      assert (a + b)[..|a + b| - 1] == a + b[..|b| - 1];
      RunConcat(s, a, b[..|b| - 1]);
    }
  }

  /** The daily batch is a run of its own: each pick lets time pass and renews one row. */
  function BatchRun(picks: seq<Pick>): seq<Step> {
    if picks == [] then []
    else
      var p := picks[|picks| - 1];
      BatchRun(picks[..|picks| - 1]) + [Tick(p.delay), SubStep(Renew(p.sub, p.order, p.outcome))]
  }

  lemma RunTwo(s: State, a: Step, b: Step)
    ensures Run(s, [a, b]) == Apply(Apply(s, a), b)
  {
    assert [a, b][..1] == [a] && [a][..0] == [];
    assert Run(s, [a]) == Apply(Run(s, []), a);
  }

  lemma PickIsTwoSteps(s: State, p: Pick)
    ensures Apply(Apply(s, Tick(p.delay)), SubStep(Renew(p.sub, p.order, p.outcome))) == RenewOne(s, p)
  {
    hide PromoAttempt, CartAttempt, OrderAttempt, RenewSub, EditCatalogue;
  }

  lemma {:induction false} BatchIsRun(s: State, picks: seq<Pick>)
    ensures Run(s, BatchRun(picks)) == RenewAll(s, picks)
  {
    if picks != [] {
      var init, p := picks[..|picks| - 1], picks[|picks| - 1];
      var tick, renew := Tick(p.delay), SubStep(Renew(p.sub, p.order, p.outcome));
      BatchIsRun(s, init);
      RunConcat(s, BatchRun(init), [tick, renew]);
      RunTwo(RenewAll(s, init), tick, renew);
      PickIsTwoSteps(RenewAll(s, init), p);
    }
  }

  // ── What every run keeps ──────────────────────────────────────────────────

  predicate ShopOk(s: State) {
    && VariantsOk(s.variants) && CodesOk(s.codes) && TenantsOk(s.tenants)
    && CartsOk(s.carts) && OrdersOk(s.orders)
    && SubsOk(s.subs, s.variants) && OneActiveEach(s.subs)
  }

  /** The order whose payment success the step records: a first delivery for an order that exists. */
  function SettledBy(s: State, st: Step): Option<Id> {
    match st
    case OrderStep(op) => (
      match op
      case StripeSucceeded(event, paid, _) =>
        if paid.Some? && event !in s.stripeEvents && paid.value in s.orders then paid else None
      case MpReport(order, payment, status) =>
        if order in s.orders && status == Approved && payment !in s.mpEvents then Some(order) else None
      case MpWebhook(payment, order, status) =>
        if order in s.orders && s.orders[order].mpPayment == Some(payment) && status == Approved
           && payment !in s.mpEvents then Some(order) else None
      case _ => None)
    case _ => None
  }

  /** The paid order that the step cancels, giving stock and coupon back. */
  function RestoredBy(s: State, st: Step): Option<Id> {
    match st
    case OrderStep(op) => (
      match op
      case SetStatus(tenant, order, status) =>
        if order in s.orders && s.orders[order].tenant == tenant && status == Cancelled
           && Cancelled in AllowedTransitions(s.orders[order].status) && s.orders[order].payment == Paid
           && VariantsPresent(s.variants, s.orders[order].items)
        then Some(order) else None
      case _ => None)
    case _ => None
  }

  /** The stock of `v` after a step, read off the order the step settles or restores. */
  function ExpectedStock(s: State, st: Step, v: Id): int
    requires v in s.variants
  {
    var stock := s.variants[v].stock;
    match SettledBy(s, st)
    case Some(o) => if o in s.orders then StockAfter(stock, s.orders[o].items, v) else stock
    case None =>
      match RestoredBy(s, st)
      case Some(o) => if o in s.orders then stock + Demand(s.orders[o].items, v) else stock
      case None => stock
  }

  ghost predicate VariantStep(s: State, st: Step, t: State, v: Id) {
    && (v in t.variants <==> v in s.variants)
    && (v in s.variants ==>
          && t.variants[v].stock == ExpectedStock(s, st, v)
          && (!st.EditVariant? ==> t.variants[v] == s.variants[v].(stock := ExpectedStock(s, st, v)))
          && (StepOk(st) && VariantOk(s.variants[v]) ==> VariantOk(t.variants[v])))
  }

  lemma StripeVariants(s: State, event: Id, order: Option<Id>, intent: Id, v: Id)
    ensures var op := StripeSucceeded(event, order, intent);
            VariantStep(s, OrderStep(op), After(s, OrderAttempt(s, op)), v)
  {
    hide Redeem, Place, ApplyMpStatus, ChangeStatus, StripeFailure, TakeLines;
    if order.Some? && order.value in s.orders {
      TakeLinesEffect(s.variants, s.orders[order.value].items, v);
    }
  }

  lemma MpVariants(s: State, order: Id, payment: Id, status: MpStatus, v: Id)
    requires order in s.orders
    ensures VariantStep(s, OrderStep(MpReport(order, payment, status)), After(s, ApplyMpStatus(s, order, payment, status)), v)
  {
    hide Redeem, TakeLines;
    TakeLinesEffect(s.variants, s.orders[order].items, v);
  }

  lemma StatusVariants(s: State, tenant: Id, order: Id, status: OrderStatus, v: Id)
    ensures VariantStep(s, OrderStep(SetStatus(tenant, order, status)), After(s, ChangeStatus(s, tenant, order, status)), v)
  {
    hide Unredeem, GiveLines;
    if order in s.orders {
      GiveLinesEffect(s.variants, s.orders[order].items, v);
    }
  }

  lemma OrderVariants(s: State, op: OrderOp, v: Id)
    ensures VariantStep(s, OrderStep(op), After(s, OrderAttempt(s, op)), v)
  {
    hide Place, ApplyMpStatus, ChangeStatus, StripeSuccess;
    match op {
      case PlaceOrder(tenant, customer, items, mode, code, order) =>
        PlaceFrame(s, tenant, customer, items, mode, code, order);
      case AttachIntent(_, _) =>
      case MpReport(order, payment, status) =>
        if order in s.orders { MpVariants(s, order, payment, status, v); }
      case MpWebhook(payment, order, status) =>
        if order in s.orders { MpVariants(s, order, payment, status, v); }
      case StripeSucceeded(event, order, intent) =>
        StripeVariants(s, event, order, intent, v);
      case StripeFailed(_, _) =>
      case SetStatus(tenant, order, status) =>
        StatusVariants(s, tenant, order, status, v);
      case EditPayment(_, _, _) =>
    }
  }

  /** The stock of a variant moves only when an order is settled or restored, and no step corrupts a price. */
  lemma VariantAfter(s: State, st: Step, v: Id)
    ensures VariantStep(s, st, Apply(s, st), v)
  {
    hide OrderAttempt, PromoAttempt, CartAttempt, SubAttempt;
    match st {
      case Tick(_) =>
      case EditVariant(_, _, _) =>
      case PromoStep(tenant, op) => PromoOpFrame(s, tenant, op);
      case CartStep(tenant, customer, op) => CartOpFrame(s, tenant, customer, op);
      case OrderStep(op) => OrderVariants(s, op, v);
      case SubStep(op) => SubOpFrame(s, op);
    }
  }

  lemma TenantsKept(s: State, st: Step)
    ensures Apply(s, st).tenants == s.tenants
  {
    hide OrderAttempt, PromoAttempt, CartAttempt, SubAttempt;
    match st {
      case Tick(_) =>
      case EditVariant(_, _, _) =>
      case PromoStep(tenant, op) => PromoOpFrame(s, tenant, op);
      case CartStep(tenant, customer, op) => CartOpFrame(s, tenant, customer, op);
      case OrderStep(op) => OrderOpFrame(s, op);
      case SubStep(op) => SubOpFrame(s, op);
    }
  }

  lemma PricesKept(s: State, st: Step)
    requires VariantsOk(s.variants) && StepOk(st)
    ensures VariantsOk(Apply(s, st).variants)
    ensures Apply(s, st).variants.Keys == s.variants.Keys
  {
    hide Apply;
    var t := Apply(s, st);
    forall v ensures v in t.variants <==> v in s.variants {
      VariantAfter(s, st, v);
    }
    forall v | v in t.variants ensures VariantOk(t.variants[v]) {
      VariantAfter(s, st, v);
    }
  }

  /** One step keeps every table consistent, whatever service makes it and whether or not it is rejected. */
  lemma StepKeepsShopOk(s: State, st: Step)
    requires ShopOk(s) && StepOk(st)
    ensures ShopOk(Apply(s, st))
  {
    hide OrderAttempt, PromoAttempt, CartAttempt, SubAttempt, EditCatalogue;
    hide VariantsOk, CodesOk, TenantsOk, CartsOk, OrdersOk, SubsOk, OneActiveEach;
    PricesKept(s, st);
    TenantsKept(s, st);
    match st {
      case Tick(_) =>
      case EditVariant(tenant, variant, change) => EditKeepsSubs(s, tenant, variant, change);
      case PromoStep(tenant, op) =>
        PromoOpFrame(s, tenant, op);
        PromoOpKeepsCodesOk(s, tenant, op);
      case CartStep(tenant, customer, op) =>
        CartOpFrame(s, tenant, customer, op);
        CartOpKeepsCartsOk(s, tenant, customer, op);
      case OrderStep(op) =>
        OrderOpFrame(s, op);
        OrderOpKeepsOrdersOk(s, op);
        OrderKeepsOthers(s, op);
      case SubStep(op) =>
        SubOpFrame(s, op);
        SubOpKeepsOrders(s, op);
        SubOpKeepsSubsOk(s, op);
        SubOpKeepsOneActive(s, op);
    }
  }

  /** Redemption counters after an order call: one more for a settled order carrying the code, one less for a
      restored one when the counter is positive; nothing else of a code changes. */
  function ExpectedRedemptions(s: State, st: Step, k: CodeKey): int
    requires k in s.codes
  {
    var n := s.codes[k].timesRedeemed;
    match SettledBy(s, st)
    case Some(o) => if o in s.orders && Carries(s.orders[o], k) then n + 1 else n
    case None =>
      match RestoredBy(s, st)
      case Some(o) => if o in s.orders && Carries(s.orders[o], k) && n > 0 then n - 1 else n
      case None => n
  }

  ghost predicate CodeStep(s: State, op: OrderOp, t: State, k: CodeKey) {
    && (k in t.codes <==> k in s.codes)
    && (k in s.codes ==> t.codes[k] == s.codes[k].(timesRedeemed := ExpectedRedemptions(s, OrderStep(op), k)))
  }

  lemma MpCodes(s: State, order: Id, payment: Id, status: MpStatus, k: CodeKey)
    requires order in s.orders
    ensures CodeStep(s, MpReport(order, payment, status), After(s, ApplyMpStatus(s, order, payment, status)), k)
  {
    hide TakeLines, Redeem;
    RedeemEffect(s.codes, s.orders[order].(payment := Paid, mpPayment := Some(payment)), k);
  }

  lemma StripeCodes(s: State, event: Id, order: Option<Id>, intent: Id, k: CodeKey)
    ensures var op := StripeSucceeded(event, order, intent);
            CodeStep(s, op, After(s, OrderAttempt(s, op)), k)
  {
    hide TakeLines, Redeem, Place, ApplyMpStatus, ChangeStatus, StripeFailure;
    if order.Some? && order.value in s.orders {
      RedeemEffect(s.codes, s.orders[order.value].(payment := Paid, stripeIntent := Some(intent)), k);
    }
  }

  lemma StatusCodes(s: State, tenant: Id, order: Id, status: OrderStatus, k: CodeKey)
    ensures CodeStep(s, SetStatus(tenant, order, status), After(s, ChangeStatus(s, tenant, order, status)), k)
  {
    hide GiveLines, Unredeem;
    if order in s.orders {
      UnredeemEffect(s.codes, s.orders[order], k);
    }
  }

  lemma OrderCodes(s: State, op: OrderOp, k: CodeKey)
    ensures CodeStep(s, op, After(s, OrderAttempt(s, op)), k)
  {
    hide Place, ApplyMpStatus, ChangeStatus, StripeSuccess;
    match op {
      case PlaceOrder(tenant, customer, items, mode, code, order) =>
        PlaceFrame(s, tenant, customer, items, mode, code, order);
      case AttachIntent(_, _) =>
      case MpReport(order, payment, status) =>
        if order in s.orders { MpCodes(s, order, payment, status, k); }
      case MpWebhook(payment, order, status) =>
        if order in s.orders { MpCodes(s, order, payment, status, k); }
      case StripeSucceeded(event, order, intent) =>
        StripeCodes(s, event, order, intent, k);
      case StripeFailed(_, _) =>
      case SetStatus(tenant, order, status) =>
        StatusCodes(s, tenant, order, status, k);
      case EditPayment(_, _, _) =>
    }
  }

  lemma EditKeepsSubs(s: State, tenant: Id, variant: Id, change: VariantChange)
    requires SubsOk(s.subs, s.variants)
    ensures var t := After(s, EditCatalogue(s, tenant, variant, change));
            && t == s.(variants := t.variants)
            && SubsOk(t.subs, t.variants)
  {
    var t := After(s, EditCatalogue(s, tenant, variant, change));
    forall id | id in t.subs ensures SubOk(t.subs[id], t.variants) {
      assert SubOk(s.subs[id], s.variants);
    }
  }

  lemma OrderKeepsOthers(s: State, op: OrderOp)
    requires ShopOk(s)
    ensures var t := After(s, OrderAttempt(s, op));
            CodesOk(t.codes) && CartsOk(t.carts) && SubsOk(t.subs, t.variants)
  {
    hide OrderAttempt, OrdersOk, OneActiveEach, VariantsOk;
    var t := After(s, OrderAttempt(s, op));
    OrderOpFrame(s, op);
    forall k | k in t.codes ensures CodeOk(t.codes[k]) {
      OrderCodes(s, op, k);
      assert CodeOk(s.codes[k]);
    }
    if op.PlaceOrder? {
      PlaceCarts(s, op);
    }
    forall id | id in t.subs ensures SubOk(t.subs[id], t.variants) {
      assert SubOk(s.subs[id], s.variants);
      OrderVariants(s, op, s.subs[id].variant);
    }
  }

  lemma PlaceCarts(s: State, op: OrderOp)
    requires op.PlaceOrder? && CartsOk(s.carts)
    ensures CartsOk(After(s, OrderAttempt(s, op)).carts)
  {
    hide PriceOf;
  }

  /** Every reachable database is consistent. In particular each order row has line = unit x quantity, subtotal =
      sum of lines, 0 <= discount <= subtotal and total = subtotal - discount + shipping; each cart row has between 1
      and 99 units; each percentage code stays within 1..100; no two active subscriptions share customer and variant. */
  lemma {:induction false} RunKeepsShopOk(s: State, run: seq<Step>)
    requires ShopOk(s) && RunOk(run)
    ensures ShopOk(Run(s, run))
  {
    hide Apply, ShopOk;
    if run != [] {
      assert forall st :: st in run[..|run| - 1] ==> st in run;
      RunKeepsShopOk(s, run[..|run| - 1]);
      StepKeepsShopOk(Run(s, run[..|run| - 1]), run[|run| - 1]);
    }
  }

  lemma StepKeepsSnapshots(s: State, st: Step)
    ensures SnapshotsKept(s.orders, Apply(s, st).orders)
  {
    hide OrderAttempt, PromoAttempt, CartAttempt, SubAttempt;
    match st {
      case Tick(_) =>
      case EditVariant(_, _, _) =>
      case PromoStep(tenant, op) => PromoOpFrame(s, tenant, op);
      case CartStep(tenant, customer, op) => CartOpFrame(s, tenant, customer, op);
      case OrderStep(op) => OrderOpKeepsSnapshots(s, op);
      case SubStep(op) => SubOpKeepsSnapshots(s, op);
    }
  }

  /** Orders are never deleted, and nothing that happens later - price edits, promotions, payments, cancellations -
      rewrites what an order bought or what it cost. */
  lemma {:induction false} RunKeepsSnapshots(s: State, run: seq<Step>)
    ensures SnapshotsKept(s.orders, Run(s, run).orders)
  {
    hide Apply;
    if run != [] {
      RunKeepsSnapshots(s, run[..|run| - 1]);
      StepKeepsSnapshots(Run(s, run[..|run| - 1]), run[|run| - 1]);
    }
  }
}
