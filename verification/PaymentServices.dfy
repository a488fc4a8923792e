/** The services that write orders, in the imperative form of the source, each proved against the operation of
    the same name on the whole database. */
module PaymentServices {
  import opened Wrappers
  import opened Rounding
  import opened ShopState
  import opened Pricing
  import opened Carts
  import opened Orders
  import opened Subscriptions

  class StripeService {
    const prisma: Prisma

    constructor (prisma: Prisma)
      ensures this.prisma == prisma
    {
      this.prisma := prisma;
    }

    /** payment_intent.succeeded: record the event, then pay, take stock line by line and count the coupon. */
    method OnPaymentSucceeded(event: Id, orderId: Option<Id>, intent: Id)
      modifies prisma
      ensures Ok(prisma.Model()) == OrderAttempt(old(prisma.Model()), StripeSucceeded(event, orderId, intent))
    {
      if orderId.None? {
        return;
      }
      var id := orderId.value;
      if event in prisma.stripeEvents {
        return;
      }
      prisma.stripeEvents := prisma.stripeEvents + {event};
      if id !in prisma.orders {
        return;
      }
      var order := prisma.orders[id];
      prisma.orders := prisma.orders[id := order.(payment := Paid, stripeIntent := Some(intent))];
      var i := 0;
      while i < |order.items|
        invariant 0 <= i <= |order.items|
        invariant prisma.Model() == old(prisma.Model()).(
          stripeEvents := old(prisma.stripeEvents) + {event},
          orders := old(prisma.orders)[id := order.(payment := Paid, stripeIntent := Some(intent))],
          variants := TakeLines(old(prisma.variants), order.items[..i]))
      {
        var item := order.items[i];
        assert order.items[..i + 1][..i] == order.items[..i];
        if item.variant in prisma.variants && prisma.variants[item.variant].stock > 0 {
          var v := prisma.variants[item.variant];
          prisma.variants := prisma.variants[item.variant := v.(stock := v.stock - item.quantity)];
        }
        i := i + 1;
      }
      assert order.items[..i] == order.items;
      if order.discountCode.Some? {
        var key := CodeKey(order.tenant, order.discountCode.value);
        if key in prisma.codes {
          var dc := prisma.codes[key];
          prisma.codes := prisma.codes[key := dc.(timesRedeemed := dc.timesRedeemed + 1)];
        }
      }
    }

    /** payment_intent.payment_failed: overwrites the payment status, whatever it was. */
    method OnPaymentFailed(event: Id, orderId: Option<Id>) returns (r: Result<()>)
      modifies prisma
      ensures var result := OrderAttempt(old(prisma.Model()), StripeFailed(event, orderId));
              prisma.Model() == After(old(prisma.Model()), result) && r == Outcome(result)
    {
      if orderId.None? || event in prisma.stripeEvents {
        return Ok(());
      }
      if orderId.value !in prisma.orders {
        return Err(NotFound);
      }
      prisma.stripeEvents := prisma.stripeEvents + {event};
      prisma.orders := prisma.orders[orderId.value := prisma.orders[orderId.value].(payment := Failed)];
      r := Ok(());
    }

    /** setup_intent.succeeded: activates the subscription, or fails on the one-active-row index. */
    method OnSetupIntentSucceeded(event: Id, subscriptionId: Option<Id>) returns (r: Result<()>)
      modifies prisma
      ensures var result := SubAttempt(old(prisma.Model()), SetupSucceeded(event, subscriptionId));
              prisma.Model() == After(old(prisma.Model()), result) && r == Outcome(result)
    {
      if subscriptionId.None? || event in prisma.stripeEvents {
        return Ok(());
      }
      var id := subscriptionId.value;
      if id !in prisma.subs {
        return Err(NotFound);
      }
      var row := prisma.subs[id].(status := Active);
      if ActiveClash(prisma.subs, id, row) {
        return Err(Conflict);
      }
      prisma.stripeEvents := prisma.stripeEvents + {event};
      prisma.subs := prisma.subs[id := row];
      r := Ok(());
    }
  }

  class MercadoPagoService {
    const prisma: Prisma

    constructor (prisma: Prisma)
      ensures this.prisma == prisma
    {
      this.prisma := prisma;
    }

    /** The amount and fee sent to MercadoPago: both within a rounding of the stored total and percentage. */
    method PaymentAmounts(order: Order, feePct: real) returns (amount: int, fee: int)
      requires 0 <= order.totalCents && 0.0 <= feePct <= 100.0
      ensures -50 < 100 * amount - order.totalCents <= 50
      ensures 0 <= fee <= amount
      ensures -50.0 < 100.0 * fee as real - amount as real * feePct <= 50.0
      ensures -5000.0 - 50.0 * feePct <= 10000.0 * fee as real - order.totalCents as real * feePct
              <= 5000.0 + 50.0 * feePct
    {
      amount := RoundHundredths(order.totalCents);
      fee := if feePct > 0.0 then MathRound(amount as real * feePct / 100.0) else 0;
      assert amount == ChargedPesos(order.totalCents) && fee == MarketplaceFee(amount, feePct);
      hide MarketplaceFee, ChargedPesos;
      FeeBounds(order.totalCents, feePct);
    }

    /** The answer of the payment call is applied to the order at once. */
    method CreatePayment(order: Id, payment: Id, status: MpStatus) returns (r: Result<()>)
      modifies prisma
      ensures var result := OrderAttempt(old(prisma.Model()), MpReport(order, payment, status));
              prisma.Model() == After(old(prisma.Model()), result) && r == Outcome(result)
    {
      if order !in prisma.orders {
        return Err(BadRequest);
      }
      r := ApplyPaymentStatus(order, payment, status);
    }

    /** `found` is the row the lookup by payment id returned, if any. */
    method HandleWebhook(payment: Id, found: Option<Id>, status: MpStatus) returns (r: Result<()>)
      requires match found
               case Some(o) => o in prisma.orders && prisma.orders[o].mpPayment == Some(payment)
               case None => forall o :: o in prisma.orders ==> prisma.orders[o].mpPayment != Some(payment)
      modifies prisma
      ensures forall o: Id :: found == Some(o) || found.None? ==>
                var result := OrderAttempt(old(prisma.Model()), MpWebhook(payment, o, status));
                prisma.Model() == After(old(prisma.Model()), result) && r == Outcome(result)
    {
      if found.None? {
        return Ok(());
      }
      r := ApplyPaymentStatus(found.value, payment, status);
    }

    method ApplyPaymentStatus(order: Id, payment: Id, status: MpStatus) returns (r: Result<()>)
      modifies prisma
      ensures var result := ApplyMpStatus(old(prisma.Model()), order, payment, status);
              prisma.Model() == After(old(prisma.Model()), result) && r == Outcome(result)
    {
      if status == Approved {
        MarkOrderPaid(order, payment);
        return Ok(());
      }
      if order !in prisma.orders {
        return Err(NotFound);
      }
      var paymentStatus;
      if status == MpRejected || status == MpCancelled {
        paymentStatus := Failed;
      } else if status == MpRefunded || status == ChargedBack {
        paymentStatus := Refunded;
      } else {
        paymentStatus := Pending;
      }
      prisma.orders := prisma.orders[order := prisma.orders[order].(payment := paymentStatus, mpPayment := Some(payment))];
      r := Ok(());
    }

    method MarkOrderPaid(orderId: Id, payment: Id)
      modifies prisma
      ensures prisma.Model() == MarkPaidByMp(old(prisma.Model()), orderId, payment)
    {
      if payment in prisma.mpEvents {
        return;
      }
      prisma.mpEvents := prisma.mpEvents + {payment};
      if orderId !in prisma.orders {
        return;
      }
      var order := prisma.orders[orderId];
      prisma.orders := prisma.orders[orderId := order.(payment := Paid, mpPayment := Some(payment))];
      var i := 0;
      while i < |order.items|
        invariant 0 <= i <= |order.items|
        invariant prisma.Model() == old(prisma.Model()).(
          mpEvents := old(prisma.mpEvents) + {payment},
          orders := old(prisma.orders)[orderId := order.(payment := Paid, mpPayment := Some(payment))],
          variants := TakeLines(old(prisma.variants), order.items[..i]))
      {
        var item := order.items[i];
        assert order.items[..i + 1][..i] == order.items[..i];
        if item.variant in prisma.variants && prisma.variants[item.variant].stock > 0 {
          var v := prisma.variants[item.variant];
          prisma.variants := prisma.variants[item.variant := v.(stock := v.stock - item.quantity)];
        }
        i := i + 1;
      }
      assert order.items[..i] == order.items;
      if order.discountCode.Some? {
        var key := CodeKey(order.tenant, order.discountCode.value);
        if key in prisma.codes {
          var dc := prisma.codes[key];
          prisma.codes := prisma.codes[key := dc.(timesRedeemed := dc.timesRedeemed + 1)];
        }
      }
    }
  }

  class AdminOrdersService {
    const prisma: Prisma

    constructor (prisma: Prisma)
      ensures this.prisma == prisma
    {
      this.prisma := prisma;
    }

    /** Validates the transition; cancelling a paid order restores its stock and coupon. */
    method UpdateStatus(tenant: Id, id: Id, status: OrderStatus) returns (r: Result<()>)
      modifies prisma
      ensures var result := OrderAttempt(old(prisma.Model()), SetStatus(tenant, id, status));
              prisma.Model() == After(old(prisma.Model()), result) && r == Outcome(result)
    {
      if id !in prisma.orders || prisma.orders[id].tenant != tenant {
        return Err(NotFound);
      }
      var order := prisma.orders[id];
      if status != order.status && status !in AllowedTransitions(order.status) {
        return Err(BadRequest);
      }
      if status == Cancelled && order.status != Cancelled {
        if order.payment == Paid {
          // the transaction rolls back as a whole when one variant row is gone
          if !VariantsPresent(prisma.variants, order.items) {
            return Err(NotFound);
          }
          RestoreStock(order.items);
          if order.discountCode.Some? {
            var key := CodeKey(order.tenant, order.discountCode.value);
            if key in prisma.codes && prisma.codes[key].timesRedeemed > 0 {
              var dc := prisma.codes[key];
              prisma.codes := prisma.codes[key := dc.(timesRedeemed := dc.timesRedeemed - 1)];
            }
          }
        }
        prisma.orders := prisma.orders[id := order.(status := Cancelled)];
        return Ok(());
      }
      prisma.orders := prisma.orders[id := order.(status := status)];
      r := Ok(());
    }

    method RestoreStock(items: seq<Line>)
      requires VariantsPresent(prisma.variants, items)
      modifies prisma
      ensures prisma.Model() == old(prisma.Model()).(variants := GiveLines(old(prisma.variants), items))
    {
      var i := 0;
      while i < |items|
        invariant 0 <= i <= |items|
        invariant prisma.Model() == old(prisma.Model()).(variants := GiveLines(old(prisma.variants), items[..i]))
        invariant prisma.variants.Keys == old(prisma.variants.Keys)
      {
        var item := items[i];
        assert item in items;
        assert items[..i + 1][..i] == items[..i];
        var v := prisma.variants[item.variant];
        prisma.variants := prisma.variants[item.variant := v.(stock := v.stock + item.quantity)];
        i := i + 1;
      }
      assert items[..i] == items;
    }

    method Update(tenant: Id, id: Id, payment: PaymentStatus) returns (r: Result<()>)
      modifies prisma
      ensures var result := OrderAttempt(old(prisma.Model()), EditPayment(tenant, id, payment));
              prisma.Model() == After(old(prisma.Model()), result) && r == Outcome(result)
    {
      if id !in prisma.orders || prisma.orders[id].tenant != tenant {
        return Err(NotFound);
      }
      prisma.orders := prisma.orders[id := prisma.orders[id].(payment := payment)];
      r := Ok(());
    }
  }

  /** What the provider answered: nothing usable, a Stripe intent, or a MercadoPago payment and its status. */
  datatype ProviderAnswer = ProviderThrows | IntentCreated(intent: Id) | PaymentCreated(payment: Id, status: MpStatus)

  /** The charge that follows a stored order, by the tenant's provider. The order stays when it fails. */
  function ChargePlaced(s: State, tenant: Tenant, order: Id, hasCard: bool, answer: ProviderAnswer): Result<State> {
    if tenant.provider == MercadoPagoProvider then
      if !tenant.mpConnected || !hasCard then Err(BadRequest)
      else if !answer.PaymentCreated? then Err(ServerError)
      else OrderAttempt(s, MpReport(order, answer.payment, answer.status))
    else if !answer.IntentCreated? then Err(ServerError)
    else OrderAttempt(s, AttachIntent(order, answer.intent))
  }

  /** The charge goes to the tenant's provider. MercadoPago needs a connected shop and a card, and its answer is applied
      to the order at once, so that an approved one settles it; Stripe's intent is stored for its webhook. */
  lemma ChargePlacedEffect(s: State, tenant: Tenant, order: Id, hasCard: bool, answer: ProviderAnswer)
    requires order in s.orders
    ensures var r, stripe := ChargePlaced(s, tenant, order, hasCard, answer), tenant.provider == StripeProvider;
            && (!stripe && !(tenant.mpConnected && hasCard) ==> r == Err(BadRequest))
            && (!stripe && tenant.mpConnected && hasCard && !answer.PaymentCreated? ==> r == Err(ServerError))
            && (!stripe && tenant.mpConnected && hasCard && answer.PaymentCreated? ==>
                  r == OrderAttempt(s, MpReport(order, answer.payment, answer.status)))
            && (stripe && !answer.IntentCreated? ==> r == Err(ServerError))
            && (stripe && answer.IntentCreated? ==>
                  r == Ok(s.(orders := s.orders[order := s.orders[order].(stripeIntent := Some(answer.intent))])))
  {
    if answer.IntentCreated? {
      OneColumnEffect(s, order, answer.intent, 0, Paid);
    }
  }

  class CheckoutService {
    const prisma: Prisma
    const cart: CartService
    const mercadopago: MercadoPagoService

    predicate Wired() {
      cart.prisma == prisma && mercadopago.prisma == prisma
    }

    constructor (prisma: Prisma, cart: CartService, mercadopago: MercadoPagoService)
      requires cart.prisma == prisma && mercadopago.prisma == prisma
      ensures this.prisma == prisma && Wired()
    {
      this.prisma := prisma;
      this.cart := cart;
      this.mercadopago := mercadopago;
    }

    /** Prices, refuses on missing stock, stores the pending order and clears what was bought from the cart,
        then charges. A failing charge leaves the stored order behind. */
    method Create(tenantId: Id, customer: Id, items: seq<CartItem>, mode: Mode, code: Option<Id>, orderId: Id,
                  hasCard: bool, answer: ProviderAnswer) returns (r: Result<()>)
      requires Wired()
      modifies prisma
      ensures var placed := OrderAttempt(old(prisma.Model()), PlaceOrder(tenantId, customer, items, mode, code, orderId));
              match placed
              case Err(e) => prisma.Model() == old(prisma.Model()) && r == Err(e)
              case Ok(t) =>
                var charged := ChargePlaced(t, t.tenants[tenantId], orderId, hasCard, answer);
                prisma.Model() == After(t, charged) && r == Outcome(charged)
    {
      if tenantId !in prisma.tenants {
        return Err(NotFound);
      }
      var tenant := prisma.tenants[tenantId];
      var pricing := cart.Price(tenantId, items, mode, code, Some(customer));
      if pricing.Err? {
        return Err(pricing.error);
      }
      var priced := pricing.value;
      if priced.hasStockIssues {
        return Err(BadRequest);
      }
      if orderId in prisma.orders {
        return Err(Conflict);
      }
      prisma.carts := Without(prisma.carts, tenantId, customer, BoughtVariants(priced.lines));
      prisma.orders := prisma.orders[orderId := NewOrder(tenantId, customer, priced)];
      if tenant.provider == MercadoPagoProvider {
        if !tenant.mpConnected || !hasCard {
          return Err(BadRequest);
        }
        match answer {
          case PaymentCreated(payment, status) =>
            r := mercadopago.CreatePayment(orderId, payment, status);
          case _ =>
            return Err(ServerError);
        }
      } else {
        match answer {
          case IntentCreated(intent) =>
            prisma.orders := prisma.orders[orderId := prisma.orders[orderId].(stripeIntent := Some(intent))];
            r := Ok(());
          case _ =>
            return Err(ServerError);
        }
      }
    }
  }
}
