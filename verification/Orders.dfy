/** Orders as rows: checkout, payment reports of both providers, and the fulfilment status machine. */
module Orders {
  import opened Wrappers
  import opened Sums
  import opened ShopState
  import opened Pricing
  import opened Carts

  type VariantTable = map<Id, Variant>
  type CodeTable = map<CodeKey, DiscountCode>

  // ── Stock and coupon effects ──────────────────────────────────────────────

  /** The gate of the success handlers: a line is taken from a positive stock, whole, or skipped. */
  function TakeLine(variants: VariantTable, l: Line): VariantTable {
    if l.variant in variants && variants[l.variant].stock > 0
    then variants[l.variant := variants[l.variant].(stock := variants[l.variant].stock - l.quantity)]
    else variants
  }

  function TakeLines(variants: VariantTable, items: seq<Line>): VariantTable {
    if items == [] then variants else TakeLine(TakeLines(variants, items[..|items| - 1]), items[|items| - 1])
  }

  function GiveLine(variants: VariantTable, l: Line): VariantTable {
    if l.variant in variants
    then variants[l.variant := variants[l.variant].(stock := variants[l.variant].stock + l.quantity)]
    else variants
  }

  function GiveLines(variants: VariantTable, items: seq<Line>): VariantTable {
    if items == [] then variants else GiveLine(GiveLines(variants, items[..|items| - 1]), items[|items| - 1])
  }

  /** The order was priced with the code. */
  predicate Carries(o: Order, k: CodeKey) {
    o.discountCode.Some? && k == CodeKey(o.tenant, o.discountCode.value)
  }

  function Redeem(codes: CodeTable, o: Order): CodeTable {
    if o.discountCode.None? then codes
    else
      var k := CodeKey(o.tenant, o.discountCode.value);
      if k in codes then codes[k := codes[k].(timesRedeemed := codes[k].timesRedeemed + 1)] else codes
  }

  function Unredeem(codes: CodeTable, o: Order): CodeTable {
    if o.discountCode.None? then codes
    else
      var k := CodeKey(o.tenant, o.discountCode.value);
      if k in codes && codes[k].timesRedeemed > 0
      then codes[k := codes[k].(timesRedeemed := codes[k].timesRedeemed - 1)] else codes
  }

  // ── Operations ────────────────────────────────────────────────────────────

  /** MercadoPago's payment states. */
  datatype MpStatus = Approved | MpPending | InProcess | Authorized | MpRejected | MpCancelled | MpRefunded | ChargedBack

  /** Any state that is neither approved, failed nor refunded counts as pending. */
  function PaymentFor(status: MpStatus): PaymentStatus {
    match status
    case Approved => Paid
    case MpRejected => Failed
    case MpCancelled => Failed
    case MpRefunded => Refunded
    case ChargedBack => Refunded
    case _ => Pending
  }

  datatype OrderOp =
      /** Prices the items and stores a pending order under a generated id. */
    | PlaceOrder(tenant: Id, customer: Id, items: seq<CartItem>, mode: Mode, code: Option<Id>, order: Id)
    | AttachIntent(order: Id, intent: Id)
      /** The synchronous answer to a MercadoPago payment. */
    | MpReport(order: Id, payment: Id, status: MpStatus)
      /** A MercadoPago notification; `order` is the order row found by payment id. */
    | MpWebhook(payment: Id, order: Id, status: MpStatus)
    | StripeSucceeded(event: Id, paidOrder: Option<Id>, intent: Id)
    | StripeFailed(event: Id, failedOrder: Option<Id>)
    | SetStatus(tenant: Id, order: Id, newStatus: OrderStatus)
      /** The manual edit of the payment column. */
    | EditPayment(tenant: Id, order: Id, newPayment: PaymentStatus)

  predicate OrderOpOk(op: OrderOp) {
    op.PlaceOrder? ==> op.items != [] && QuantitiesOk(op.items)
  }

  function BoughtVariants(lines: seq<Line>): set<Id> {
    set l | l in lines :: l.variant
  }

  function NewOrder(tenant: Id, customer: Id, p: Priced): Order {
    Order(tenant, customer, None, Received, Pending, p.subtotalCents, p.discountCents, p.shippingCents, p.totalCents,
          (match p.discount case Accepted(c, _) => Some(c) case _ => None), p.lines, None, None)
  }

  function Place(s: State, tenant: Id, customer: Id, items: seq<CartItem>, mode: Mode, code: Option<Id>, order: Id)
    : Result<State>
  {
    if tenant !in s.tenants then Err(NotFound)
    else
      match PriceOf(s, tenant, items, mode, code, Some(customer))
      case Err(e) => Err(e)
      case Ok(p) =>
        if p.hasStockIssues then Err(BadRequest)
        else if order in s.orders then Err(Conflict)
        else Ok(s.(carts := Without(s.carts, tenant, customer, BoughtVariants(p.lines)),
                   orders := s.orders[order := NewOrder(tenant, customer, p)]))
  }

  /** Everything a recorded success does: the paid row, the stock and the coupon counter. */
  function Settle(s: State, order: Id, paid: Order): State {
    s.(orders := s.orders[order := paid],
       variants := TakeLines(s.variants, paid.items),
       codes := Redeem(s.codes, paid))
  }

  /** A payment id is recorded once; an unknown order only leaves the record. */
  function MarkPaidByMp(s: State, order: Id, payment: Id): State {
    if payment in s.mpEvents then s
    else
      var t := s.(mpEvents := s.mpEvents + {payment});
      if order !in s.orders then t
      else Settle(t, order, s.orders[order].(payment := Paid, mpPayment := Some(payment)))
  }

  function ApplyMpStatus(s: State, order: Id, payment: Id, status: MpStatus): Result<State> {
    if status == Approved then Ok(MarkPaidByMp(s, order, payment))
    else if order !in s.orders then Err(NotFound)
    else Ok(s.(orders := s.orders[order := s.orders[order].(payment := PaymentFor(status), mpPayment := Some(payment))]))
  }

  function StripeSuccess(s: State, event: Id, order: Id, intent: Id): State {
    if event in s.stripeEvents then s
    else
      var t := s.(stripeEvents := s.stripeEvents + {event});
      if order !in s.orders then t
      else Settle(t, order, s.orders[order].(payment := Paid, stripeIntent := Some(intent)))
  }

  /** Failing to find the order rolls the event record back. */
  function StripeFailure(s: State, event: Id, order: Id): Result<State> {
    if event in s.stripeEvents then Ok(s)
    else if order !in s.orders then Err(NotFound)
    else Ok(s.(stripeEvents := s.stripeEvents + {event},
               orders := s.orders[order := s.orders[order].(payment := Failed)]))
  }

  function AllowedTransitions(status: OrderStatus): set<OrderStatus> {
    match status
    case Received => {Preparing, Cancelled}
    case Preparing => {Shipped, Cancelled}
    case Shipped => {Delivered, Cancelled}
    case Delivered => {}
    case Cancelled => {}
  }

  predicate VariantsPresent(variants: VariantTable, items: seq<Line>) {
    forall l :: l in items ==> l.variant in variants
  }

  /** Cancelling a paid order gives stock and coupon back; a vanished variant makes the whole call fail. */
  function ChangeStatus(s: State, tenant: Id, order: Id, status: OrderStatus): Result<State> {
    if order !in s.orders || s.orders[order].tenant != tenant then Err(NotFound)
    else
      var o := s.orders[order];
      if status != o.status && status !in AllowedTransitions(o.status) then Err(BadRequest)
      else if status == Cancelled && o.status != Cancelled && o.payment == Paid then
        if !VariantsPresent(s.variants, o.items) then Err(NotFound)
        else Ok(s.(orders := s.orders[order := o.(status := Cancelled)],
                   variants := GiveLines(s.variants, o.items),
                   codes := Unredeem(s.codes, o)))
      else Ok(s.(orders := s.orders[order := o.(status := status)]))
  }

  function OrderAttempt(s: State, op: OrderOp): Result<State> {
    match op
    case PlaceOrder(tenant, customer, items, mode, code, order) => Place(s, tenant, customer, items, mode, code, order)
    case AttachIntent(order, intent) =>
      if order !in s.orders then Err(NotFound)
      else Ok(s.(orders := s.orders[order := s.orders[order].(stripeIntent := Some(intent))]))
    case MpReport(order, payment, status) =>
      if order !in s.orders then Err(BadRequest) else ApplyMpStatus(s, order, payment, status)
    case MpWebhook(payment, order, status) =>
      if order in s.orders && s.orders[order].mpPayment == Some(payment) then ApplyMpStatus(s, order, payment, status)
      else Ok(s)
    case StripeSucceeded(event, order, intent) =>
      if order.None? then Ok(s) else Ok(StripeSuccess(s, event, order.value, intent))
    case StripeFailed(event, order) =>
      if order.None? then Ok(s) else StripeFailure(s, event, order.value)
    case SetStatus(tenant, order, status) => ChangeStatus(s, tenant, order, status)
    case EditPayment(tenant, order, payment) =>
      if order !in s.orders || s.orders[order].tenant != tenant then Err(NotFound)
      else Ok(s.(orders := s.orders[order := s.orders[order].(payment := payment)]))
  }

  lemma RedeemEffect(codes: CodeTable, o: Order, k: CodeKey)
    ensures k in Redeem(codes, o) <==> k in codes
    ensures k in codes ==>
      Redeem(codes, o)[k] == codes[k].(timesRedeemed := codes[k].timesRedeemed + if Carries(o, k) then 1 else 0)
  {}

  lemma UnredeemEffect(codes: CodeTable, o: Order, k: CodeKey)
    ensures k in Unredeem(codes, o) <==> k in codes
    ensures k in codes ==>
      Unredeem(codes, o)[k] == codes[k].(timesRedeemed :=
        codes[k].timesRedeemed - if Carries(o, k) && codes[k].timesRedeemed > 0 then 1 else 0)
  {}

  /** How far an order has come. */
  function Progress(status: OrderStatus): nat {
    match status
    case Received => 0
    case Preparing => 1
    case Shipped => 2
    case Delivered => 3
    case Cancelled => 4
  }

  /** A status change repeats the status or, while the order is neither delivered nor cancelled, takes the next
      one on the way to delivery or cancels - unless a paid order's variant is gone, which fails as a whole. */
  predicate StatusAccepted(s: State, tenant: Id, order: Id, status: OrderStatus) {
    && order in s.orders && s.orders[order].tenant == tenant
    && var o := s.orders[order];
    || status == o.status
    || (&& o.status !in {Delivered, Cancelled}
        && (status == Cancelled || Progress(status) == Progress(o.status) + 1)
        && (status == Cancelled && o.payment == Paid ==> VariantsPresent(s.variants, o.items)))
  }

  /** Exactly these changes are accepted, and an accepted one sets the status of its order alone. */
  lemma StatusAcceptedIff(s: State, tenant: Id, order: Id, status: OrderStatus)
    ensures var r := OrderAttempt(s, SetStatus(tenant, order, status));
            && (r.Ok? <==> StatusAccepted(s, tenant, order, status))
            && (r == Err(NotFound) <==>
                  || order !in s.orders || s.orders[order].tenant != tenant
                  || (status == Cancelled && s.orders[order].status !in {Delivered, Cancelled}
                      && s.orders[order].payment == Paid && !VariantsPresent(s.variants, s.orders[order].items)))
            && (r.Err? ==> r in {Err(NotFound), Err(BadRequest)})
            && (r.Ok? ==> r.value.orders == s.orders[order := s.orders[order].(status := status)])
  {
    hide GiveLines, Unredeem;
  }

  // ── What each report does to its order ────────────────────────────────────

  /** A synchronous answer of MercadoPago for an existing order. Approved: the payment is recorded once and settles the
      order. Any other state: only the order's payment status and payment id are stored - failed for a rejected or
      cancelled payment, refunded for a refunded or charged back one, pending for one still under way - so that the
      webhook finds the order later. */
  lemma MpReportEffect(s: State, order: Id, payment: Id, status: MpStatus)
    ensures var r := OrderAttempt(s, MpReport(order, payment, status));
            && (order !in s.orders ==> r == Err(BadRequest))
            && (order in s.orders && status != Approved ==>
                  && r.Ok? && order in r.value.orders
                  && var o := r.value.orders[order];
                  && r.value == s.(orders := s.orders[order := o])
                  && o == s.orders[order].(payment := o.payment, mpPayment := Some(payment))
                  && (o.payment == Failed <==> status in {MpRejected, MpCancelled})
                  && (o.payment == Refunded <==> status in {MpRefunded, ChargedBack})
                  && (o.payment == Pending <==> status in {MpPending, InProcess, Authorized}))
            && (order in s.orders && status == Approved && payment in s.mpEvents ==> r == Ok(s))
            && (order in s.orders && status == Approved && payment !in s.mpEvents ==>
                  r == Ok(s.(mpEvents := s.mpEvents + {payment},
                             orders := s.orders[order := s.orders[order].(payment := Paid, mpPayment := Some(payment))],
                             variants := TakeLines(s.variants, s.orders[order].items),
                             codes := Redeem(s.codes, s.orders[order]))))
  {
    hide TakeLines, PriceOf;
  }

  /** A notification does what the synchronous answer would, for the order that stores the payment; it does nothing
      for an order that does not. */
  lemma MpWebhookEffect(s: State, payment: Id, order: Id, status: MpStatus)
    ensures OrderAttempt(s, MpWebhook(payment, order, status))
         == if order in s.orders && s.orders[order].mpPayment == Some(payment)
            then OrderAttempt(s, MpReport(order, payment, status)) else Ok(s)
  {
    hide ApplyMpStatus;
  }

  /** A Stripe success is recorded once. It settles its order; for an unknown order only the record is left. */
  lemma StripeSucceededEffect(s: State, event: Id, order: Id, intent: Id)
    ensures OrderAttempt(s, StripeSucceeded(event, None, intent)) == Ok(s)
    ensures var r := OrderAttempt(s, StripeSucceeded(event, Some(order), intent));
            && (event in s.stripeEvents ==> r == Ok(s))
            && (event !in s.stripeEvents && order !in s.orders ==>
                  r == Ok(s.(stripeEvents := s.stripeEvents + {event})))
            && (event !in s.stripeEvents && order in s.orders ==>
                  r == Ok(s.(stripeEvents := s.stripeEvents + {event},
                             orders := s.orders[order := s.orders[order].(payment := Paid, stripeIntent := Some(intent))],
                             variants := TakeLines(s.variants, s.orders[order].items),
                             codes := Redeem(s.codes, s.orders[order]))))
  {
    hide TakeLines, PriceOf;
  }

  /** A Stripe failure is recorded once and marks its order failed; for an unknown order it is not even recorded, so
      that a later delivery is tried again. */
  lemma StripeFailedEffect(s: State, event: Id, order: Id)
    ensures OrderAttempt(s, StripeFailed(event, None)) == Ok(s)
    ensures var r := OrderAttempt(s, StripeFailed(event, Some(order)));
            && (event in s.stripeEvents ==> r == Ok(s))
            && (event !in s.stripeEvents && order !in s.orders ==> r == Err(NotFound))
            && (event !in s.stripeEvents && order in s.orders ==>
                  r == Ok(s.(stripeEvents := s.stripeEvents + {event},
                             orders := s.orders[order := s.orders[order].(payment := Failed)])))
  {
    hide Place, ApplyMpStatus, ChangeStatus, StripeSuccess;
  }

  /** Storing the intent and editing the payment column each change one column of one order. */
  lemma OneColumnEffect(s: State, order: Id, intent: Id, tenant: Id, payment: PaymentStatus)
    ensures OrderAttempt(s, AttachIntent(order, intent))
         == if order in s.orders then Ok(s.(orders := s.orders[order := s.orders[order].(stripeIntent := Some(intent))]))
            else Err(NotFound)
    ensures OrderAttempt(s, EditPayment(tenant, order, payment))
         == if order in s.orders && s.orders[order].tenant == tenant
            then Ok(s.(orders := s.orders[order := s.orders[order].(payment := payment)])) else Err(NotFound)
  {
    hide Place, ApplyMpStatus, ChangeStatus, StripeSuccess;
  }

  /** A checkout is accepted exactly in an existing tenant, for a cart that can be priced and of which no item alone
      exceeds its stock. */
  lemma PlaceAcceptedIff(
      s: State, tenant: Id, customer: Id, items: seq<CartItem>, mode: Mode, code: Option<Id>, order: Id)
    requires order !in s.orders
    ensures var r, p := Place(s, tenant, customer, items, mode, code, order),
                        PriceOf(s, tenant, items, mode, code, Some(customer));
            && (r.Ok? <==> tenant in s.tenants && p.Ok?
                           && forall i :: i in items ==> i.quantity <= s.variants[i.variant].stock)
            && (r == Err(NotFound) <==> tenant !in s.tenants)
            && (r.Err? ==> r in {Err(NotFound), Err(BadRequest)})
  {
    hide Subtotal, DiscountFor, ShippingFor, LinesFor;
  }

  // ── Stock arithmetic of one order ─────────────────────────────────────────

  /** Of the units of `v` ordered, those on lines that met a stock of zero or less, starting from `stock`. */
  function Skipped(stock: int, items: seq<Line>, v: Id): int {
    if items == [] then 0
    else
      var init, last := items[..|items| - 1], items[|items| - 1];
      var before := Skipped(stock, init, v);
      var left := stock - Demand(init, v) + before;
      before + (if last.variant == v && left <= 0 then last.quantity else 0)
  }

  /** The stock left after a success. */
  function StockAfter(stock: int, items: seq<Line>, v: Id): int {
    stock - Demand(items, v) + Skipped(stock, items, v)
  }

  predicate LinesPositive(items: seq<Line>) {
    forall l :: l in items ==> 1 <= l.quantity
  }

  lemma DemandStep(items: seq<Line>, v: Id)
    requires items != []
    ensures Demand(items, v)
         == Demand(items[..|items| - 1], v) + (if items[|items| - 1].variant == v then items[|items| - 1].quantity else 0)
  {}

  /** A success changes nothing of a variant but its stock, by the demand that was not skipped. */
  lemma {:induction false} TakeLinesEffect(variants: VariantTable, items: seq<Line>, v: Id)
    ensures v in TakeLines(variants, items) <==> v in variants
    ensures v in variants ==>
      TakeLines(variants, items)[v] == variants[v].(stock := StockAfter(variants[v].stock, items, v))
  {
    if items != [] {
      TakeLinesEffect(variants, items[..|items| - 1], v);
      DemandStep(items, v);
    }
  }

  lemma {:induction false} GiveLinesEffect(variants: VariantTable, items: seq<Line>, v: Id)
    ensures v in GiveLines(variants, items) <==> v in variants
    ensures v in variants ==>
      GiveLines(variants, items)[v] == variants[v].(stock := variants[v].stock + Demand(items, v))
  {
    if items != [] {
      GiveLinesEffect(variants, items[..|items| - 1], v);
      DemandStep(items, v);
    }
  }

  /** With positive quantities, once a variant is at or below zero nothing more is taken from it. */
  lemma {:induction false} SkippedBounds(stock: int, items: seq<Line>, v: Id)
    requires LinesPositive(items)
    ensures 0 <= Skipped(stock, items, v) <= Demand(items, v)
    ensures stock <= 0 ==> Skipped(stock, items, v) == Demand(items, v)
  {
    if items != [] {
      assert items[|items| - 1] in items;
      SkippedBounds(stock, items[..|items| - 1], v);
      DemandStep(items, v);
    }
  }

  /** How far below zero a success can push a stock: to 1 - Q when no line asks for more than Q. */
  lemma {:induction false} StockFloor(stock: int, items: seq<Line>, v: Id, q: int)
    requires 1 <= q && forall l :: l in items ==> 1 <= l.quantity <= q
    requires 1 - q <= stock
    ensures 1 - q <= StockAfter(stock, items, v)
  {
    if items != [] {
      assert items[|items| - 1] in items;
      StockFloor(stock, items[..|items| - 1], v, q);
      DemandStep(items, v);
    }
  }

  /** The demand of the first `k` lines uses the stock up exactly. */
  predicate ExactlyUsedUpAt(stock: int, items: seq<Line>, v: Id, k: nat) {
    k <= |items| && Demand(items[..k], v) == stock
  }

  lemma {:induction false} DemandMonotone(items: seq<Line>, v: Id, k: nat)
    requires LinesPositive(items) && k <= |items|
    ensures 0 <= Demand(items[..k], v) <= Demand(items, v)
  {
    var f := QuantityOf(v);
    assert items == items[..k] + items[k..];
    SumConcat(f, items[..k], items[k..]);
    forall l | l in items ensures 0 <= f(l) {}
    SumNonNegative(f, items[..k]);
    SumNonNegative(f, items[k..]);
  }

  /** "Without going negative" holds of a success exactly when the stock covers the whole demand or some first
      part of the lines uses it up to the unit; otherwise a line larger than what is left is taken whole. */
  lemma {:induction false} StaysNonNegativeIff(stock: int, items: seq<Line>, v: Id)
    requires LinesPositive(items) && 0 <= stock
    ensures 0 <= StockAfter(stock, items, v)
        <==> Demand(items, v) <= stock || exists k: nat :: ExactlyUsedUpAt(stock, items, v, k)
    ensures Demand(items, v) <= stock ==> Skipped(stock, items, v) == 0
    ensures StockAfter(stock, items, v) > 0 ==> Demand(items, v) < stock
  {
    if items != [] {
      var init, last := items[..|items| - 1], items[|items| - 1];
      assert last in items;
      StaysNonNegativeIff(stock, init, v);
      DemandStep(items, v);
      DemandMonotone(items, v, |init|);
      if k: nat :| ExactlyUsedUpAt(stock, init, v, k) {
        assert items[..k] == init[..k];
        DemandMonotone(init, v, k);
        assert ExactlyUsedUpAt(stock, items, v, k);
      }
      if k: nat :| ExactlyUsedUpAt(stock, items, v, k) {
        if k == |items| {
          assert items[..k] == items;
        } else {
          assert items[..k] == init[..k];
          DemandMonotone(init, v, k);
          assert ExactlyUsedUpAt(stock, init, v, k);
        }
      }
      if StockAfter(stock, init, v) == 0 && Demand(init, v) <= stock {
        assert ExactlyUsedUpAt(stock, items, v, |init|);
      }
    }
  }

  /** Every line of the variant finds something left: the demand of the lines before it is below the stock. */
  predicate NothingSkipped(stock: int, items: seq<Line>, v: Id) {
    forall i | 0 <= i < |items| && items[i].variant == v :: Demand(items[..i], v) < stock
  }

  lemma NothingSkippedLast(stock: int, items: seq<Line>, v: Id)
    requires items != []
    ensures var init, last := items[..|items| - 1], items[|items| - 1];
            NothingSkipped(stock, items, v) <==>
            NothingSkipped(stock, init, v) && (last.variant == v ==> Demand(init, v) < stock)
  {
    hide Demand;
    var init := items[..|items| - 1];
    assert forall i :: 0 <= i < |init| ==> items[i] == init[i] && items[..i] == init[..i];
    assert items[..|init|] == init;
  }

  /** The gate skips no unit exactly when every line of the variant finds something left. */
  lemma {:induction false} NothingSkippedIff(stock: int, items: seq<Line>, v: Id)
    requires LinesPositive(items)
    ensures Skipped(stock, items, v) == 0 <==> NothingSkipped(stock, items, v)
  {
    if items != [] {
      var init, last := items[..|items| - 1], items[|items| - 1];
      assert last in items;
      NothingSkippedIff(stock, init, v);
      SkippedBounds(stock, init, v);
      NothingSkippedLast(stock, items, v);
    }
  }

  /** What a checkout stores: a pending order of exactly the items asked for, each of them for sale and in stock on
      its own, at the priced amounts, carrying the code exactly when it was accepted; and a cart from which exactly
      the customer's bought variants are gone. */
  lemma PlaceEffect(
      s: State, tenant: Id, customer: Id, items: seq<CartItem>, mode: Mode, code: Option<Id>, order: Id, k: CartKey)
    requires Place(s, tenant, customer, items, mode, code, order).Ok?
    ensures var t := Place(s, tenant, customer, items, mode, code, order).value;
            && order !in s.orders && order in t.orders
            && t.orders[order].payment == Pending && t.orders[order].status == Received
            && t.orders[order].tenant == tenant && t.orders[order].customer == customer
            && t.orders[order].subscription.None?
            && PriceOf(s, tenant, items, mode, code, Some(customer)).Ok?
            && var p := PriceOf(s, tenant, items, mode, code, Some(customer)).value;
            && t.orders[order].totalCents == p.totalCents && t.orders[order].subtotalCents == p.subtotalCents
            && t.orders[order].discountCents == p.discountCents && t.orders[order].shippingCents == p.shippingCents
            && t.orders[order].discountCode == (if p.discount.Accepted? then code else None)
            && |t.orders[order].items| == |items|
            && (forall j :: 0 <= j < |items| ==>
                  && t.orders[order].items[j].variant == items[j].variant
                  && t.orders[order].items[j].quantity == items[j].quantity
                  && Visible(s.variants, tenant, items[j].variant)
                  && (mode == OneTime ==> s.variants[items[j].variant].avail != SubscriptionOnly)
                  && items[j].quantity <= s.variants[items[j].variant].stock)
            && (k in t.carts <==> (
                  k in s.carts && !(k.customer == customer && s.carts[k].tenant == tenant
                                    && exists i :: i in items && i.variant == k.variant)))
            && (k in t.carts ==> t.carts[k] == s.carts[k])
  {
    var p := PriceOf(s, tenant, items, mode, code, Some(customer)).value;
    forall j | 0 <= j < |items|
      ensures Visible(s.variants, tenant, items[j].variant)
              && (mode == OneTime ==> s.variants[items[j].variant].avail != SubscriptionOnly)
              && items[j].quantity <= s.variants[items[j].variant].stock
    {
      assert items[j] in items;
      assert Sellable(s.variants, tenant, mode, items[j]) && !Short(s.variants, items[j]);
    }
    assert k.variant in BoughtVariants(p.lines) <==> exists i :: i in items && i.variant == k.variant by {
      if k.variant in BoughtVariants(p.lines) {
        var l :| l in p.lines && l.variant == k.variant;
        var j :| 0 <= j < |p.lines| && p.lines[j] == l;
        assert items[j] in items;
      }
      if i :| i in items && i.variant == k.variant {
        var j :| 0 <= j < |items| && items[j] == i;
        assert p.lines[j] in p.lines;
      }
    }
  }

  lemma PlaceFrame(
      s: State, tenant: Id, customer: Id, items: seq<CartItem>, mode: Mode, code: Option<Id>, order: Id)
    ensures var t := After(s, Place(s, tenant, customer, items, mode, code, order));
            t == s.(carts := t.carts, orders := t.orders)
  {
    hide PriceOf, Without;
  }

  /** Nothing happened to the tables only other services write, and no recorded event was forgotten. */
  predicate SameElsewhere(s: State, t: State) {
    && t.now == s.now && t.tenants == s.tenants && t.subs == s.subs
    && s.stripeEvents <= t.stripeEvents && s.mpEvents <= t.mpEvents
  }

  lemma MpFrame(s: State, order: Id, payment: Id, status: MpStatus)
    ensures var t := After(s, ApplyMpStatus(s, order, payment, status));
            SameElsewhere(s, t) && t.carts == s.carts
  {
    hide TakeLines, Redeem;
  }

  lemma StatusFrame(s: State, tenant: Id, order: Id, status: OrderStatus)
    ensures var t := After(s, ChangeStatus(s, tenant, order, status));
            SameElsewhere(s, t) && t.carts == s.carts
  {
    hide GiveLines, Unredeem;
  }

  lemma StripeFrame(s: State, event: Id, order: Id, intent: Id)
    ensures var t := StripeSuccess(s, event, order, intent);
            SameElsewhere(s, t) && t.carts == s.carts
  {
    hide TakeLines, Redeem;
  }

  /** An order call never writes subscriptions, tenants or the clock, never forgets an event, and of the carts only a checkout does. */
  lemma OrderOpFrame(s: State, op: OrderOp)
    ensures var t := After(s, OrderAttempt(s, op));
            SameElsewhere(s, t) && (op.PlaceOrder? || t.carts == s.carts)
  {
    hide Place, ApplyMpStatus, ChangeStatus, StripeSuccess;
    match op {
      case PlaceOrder(tenant, customer, items, mode, code, order) =>
        PlaceFrame(s, tenant, customer, items, mode, code, order);
      case AttachIntent(_, _) =>
      case MpReport(order, payment, status) => MpFrame(s, order, payment, status);
      case MpWebhook(payment, order, status) => MpFrame(s, order, payment, status);
      case StripeSucceeded(event, order, intent) =>
        if order.Some? { StripeFrame(s, event, order.value, intent); }
      case StripeFailed(_, _) =>
      case SetStatus(tenant, order, status) => StatusFrame(s, tenant, order, status);
      case EditPayment(_, _, _) =>
    }
  }

  // ── Order rows ────────────────────────────────────────────────────────────

  /** The amounts of a row agree with its lines, and the total never needed clamping. */
  predicate OrderOk(o: Order) {
    && o.items != []
    && (forall l :: l in o.items ==> 1 <= l.quantity && 0 <= l.unitCents && l.lineCents == l.unitCents * l.quantity)
    && o.subtotalCents == Sum(LineCents(), o.items)
    && 0 <= o.discountCents <= o.subtotalCents
    && 0 <= o.shippingCents
    && o.totalCents == o.subtotalCents - o.discountCents + o.shippingCents
  }

  predicate OrdersOk(orders: map<Id, Order>) {
    forall o :: o in orders ==> OrderOk(orders[o])
  }

  /** The columns no later call rewrites: what was bought, by whom, for how much. */
  predicate SameSnapshot(a: Order, b: Order) {
    && a.tenant == b.tenant && a.customer == b.customer && a.subscription == b.subscription
    && a.subtotalCents == b.subtotalCents && a.discountCents == b.discountCents
    && a.shippingCents == b.shippingCents && a.totalCents == b.totalCents
    && a.discountCode == b.discountCode && a.items == b.items
  }

  /** Rows are only added, and the snapshot of an existing row never changes. */
  predicate SnapshotsKept(before: map<Id, Order>, after: map<Id, Order>) {
    forall o :: o in before ==> o in after && SameSnapshot(before[o], after[o])
  }

  lemma UpdateKeepsSnapshots(orders: map<Id, Order>, o: Id, row: Order)
    requires o in orders && SameSnapshot(orders[o], row)
    ensures SnapshotsKept(orders, orders[o := row])
  {}

  lemma SnapshotsReflexive(orders: map<Id, Order>)
    ensures SnapshotsKept(orders, orders)
  {}

  lemma PlaceKeepsSnapshots(
      s: State, tenant: Id, customer: Id, items: seq<CartItem>, mode: Mode, code: Option<Id>, order: Id)
    ensures SnapshotsKept(s.orders, After(s, Place(s, tenant, customer, items, mode, code, order)).orders)
  {
    hide PriceOf, Without;
  }

  lemma MpKeepsSnapshots(s: State, order: Id, payment: Id, status: MpStatus)
    ensures SnapshotsKept(s.orders, After(s, ApplyMpStatus(s, order, payment, status)).orders)
  {
    hide TakeLines, Redeem, SnapshotsKept, PriceOf;
    SnapshotsReflexive(s.orders);
    if order in s.orders {
      var o := s.orders[order];
      UpdateKeepsSnapshots(s.orders, order, o.(payment := Paid, mpPayment := Some(payment)));
      UpdateKeepsSnapshots(s.orders, order, o.(payment := PaymentFor(status), mpPayment := Some(payment)));
    }
  }

  lemma ChangeStatusKeepsSnapshots(s: State, tenant: Id, order: Id, status: OrderStatus)
    ensures SnapshotsKept(s.orders, After(s, ChangeStatus(s, tenant, order, status)).orders)
  {
    hide GiveLines, Unredeem, SnapshotsKept, PriceOf;
    SnapshotsReflexive(s.orders);
    if order in s.orders {
      UpdateKeepsSnapshots(s.orders, order, s.orders[order].(status := status));
    }
  }

  lemma StripeKeepsSnapshots(s: State, event: Id, order: Id, intent: Id)
    ensures SnapshotsKept(s.orders, StripeSuccess(s, event, order, intent).orders)
  {
    hide TakeLines, Redeem, SnapshotsKept, PriceOf;
    SnapshotsReflexive(s.orders);
    if order in s.orders {
      UpdateKeepsSnapshots(s.orders, order, s.orders[order].(payment := Paid, stripeIntent := Some(intent)));
    }
  }

  lemma FailureKeepsSnapshots(s: State, event: Id, order: Id)
    ensures SnapshotsKept(s.orders, After(s, StripeFailure(s, event, order)).orders)
  {}

  lemma OrderOpKeepsSnapshots(s: State, op: OrderOp)
    ensures SnapshotsKept(s.orders, After(s, OrderAttempt(s, op)).orders)
  {
    hide Place, ApplyMpStatus, ChangeStatus, StripeSuccess, StripeFailure;
    match op {
      case PlaceOrder(tenant, customer, items, mode, code, order) =>
        PlaceKeepsSnapshots(s, tenant, customer, items, mode, code, order);
      case AttachIntent(_, _) =>
      case MpReport(order, payment, status) =>
        MpKeepsSnapshots(s, order, payment, status);
      case MpWebhook(payment, order, status) =>
        MpKeepsSnapshots(s, order, payment, status);
      case StripeSucceeded(event, order, intent) =>
        if order.Some? { StripeKeepsSnapshots(s, event, order.value, intent); }
      case StripeFailed(event, order) =>
        if order.Some? { FailureKeepsSnapshots(s, event, order.value); }
      case SetStatus(tenant, order, status) =>
        ChangeStatusKeepsSnapshots(s, tenant, order, status);
      case EditPayment(_, _, _) =>
    }
  }

  lemma NewOrderOk(s: State, tenant: Id, customer: Id, items: seq<CartItem>, mode: Mode, code: Option<Id>)
    requires VariantsOk(s.variants) && CodesOk(s.codes) && TenantsOk(s.tenants)
    requires items != [] && QuantitiesOk(items)
    requires PriceOf(s, tenant, items, mode, code, Some(customer)).Ok?
    ensures OrderOk(NewOrder(tenant, customer, PriceOf(s, tenant, items, mode, code, Some(customer)).value))
  {
    TotalIsExact(s, tenant, items, mode, code, Some(customer));
    var p := PriceOf(s, tenant, items, mode, code, Some(customer)).value;
    forall l | l in p.lines
      ensures 1 <= l.quantity && 0 <= l.unitCents && l.lineCents == l.unitCents * l.quantity
    {
      var k :| 0 <= k < |p.lines| && p.lines[k] == l;
      assert items[k] in items;
    }
  }

  lemma PlaceKeepsOrdersOk(s: State, op: OrderOp)
    requires OrdersOk(s.orders) && VariantsOk(s.variants) && CodesOk(s.codes) && TenantsOk(s.tenants)
    requires op.PlaceOrder? && OrderOpOk(op)
    ensures OrdersOk(After(s, OrderAttempt(s, op)).orders)
  {
    hide PriceOf, Without;
    if PriceOf(s, op.tenant, op.items, op.mode, op.code, Some(op.customer)).Ok? {
      NewOrderOk(s, op.tenant, op.customer, op.items, op.mode, op.code);
    }
  }

  /** Without a checkout the order table keeps its keys. */
  lemma OnlyCheckoutAdds(s: State, op: OrderOp)
    requires !op.PlaceOrder?
    ensures After(s, OrderAttempt(s, op)).orders.Keys == s.orders.Keys
  {
    hide Place, ApplyMpStatus, ChangeStatus, TakeLines, Redeem;
    match op {
      case AttachIntent(_, _) =>
      case MpReport(order, payment, mp) => MpAddsNone(s, order, payment, mp);
      case MpWebhook(payment, order, mp) => MpAddsNone(s, order, payment, mp);
      case StripeSucceeded(_, _, _) =>
      case StripeFailed(_, _) =>
      case SetStatus(tenant, order, target) => StatusAddsNone(s, tenant, order, target);
      case EditPayment(_, _, _) =>
    }
  }

  lemma MpAddsNone(s: State, order: Id, payment: Id, mp: MpStatus)
    ensures After(s, ApplyMpStatus(s, order, payment, mp)).orders.Keys == s.orders.Keys
  {
    hide TakeLines, Redeem;
  }

  lemma StatusAddsNone(s: State, tenant: Id, order: Id, target: OrderStatus)
    ensures After(s, ChangeStatus(s, tenant, order, target)).orders.Keys == s.orders.Keys
  {
    hide GiveLines, Unredeem;
  }

  lemma OrderOpKeepsOrdersOk(s: State, op: OrderOp)
    requires OrdersOk(s.orders) && VariantsOk(s.variants) && CodesOk(s.codes) && TenantsOk(s.tenants)
    requires OrderOpOk(op)
    ensures OrdersOk(After(s, OrderAttempt(s, op)).orders)
  {
    hide OrderAttempt;
    if op.PlaceOrder? {
      PlaceKeepsOrdersOk(s, op);
    } else {
      OrderOpKeepsSnapshots(s, op);
      OnlyCheckoutAdds(s, op);
      var t := After(s, OrderAttempt(s, op));
      forall o | o in t.orders ensures OrderOk(t.orders[o]) {
        assert SameSnapshot(s.orders[o], t.orders[o]) && OrderOk(s.orders[o]);
      }
    }
  }
}
