/** The subscription services in the imperative form of the source. The admin and the customer service are
    written separately there, as here, and are proved to make the same transitions. */
module SubscriptionServices {
  import opened Wrappers
  import opened Rounding
  import opened ShopState
  import opened Subscriptions

  class AdminSubscriptionsService {
    const prisma: Prisma

    constructor (prisma: Prisma)
      ensures this.prisma == prisma
    {
      this.prisma := prisma;
    }

    method Pause(tenant: Id, id: Id) returns (r: Result<()>)
      modifies prisma
      ensures var result := SubAttempt(old(prisma.Model()), SubOp.Pause(Operator(tenant), id));
              prisma.Model() == After(old(prisma.Model()), result) && r == Outcome(result)
    {
      if id !in prisma.subs || prisma.subs[id].tenant != tenant {
        return Err(NotFound);
      }
      var sub := prisma.subs[id];
      if sub.status == SubCancelled {
        return Err(BadRequest);
      }
      if sub.status == Paused {
        return Err(BadRequest);
      }
      prisma.subs := prisma.subs[id := sub.(status := Paused)];
      r := Ok(());
    }

    method Resume(tenant: Id, id: Id) returns (r: Result<()>)
      modifies prisma
      ensures var result := SubAttempt(old(prisma.Model()), SubOp.Resume(Operator(tenant), id));
              prisma.Model() == After(old(prisma.Model()), result) && r == Outcome(result)
    {
      if id !in prisma.subs || prisma.subs[id].tenant != tenant {
        return Err(NotFound);
      }
      var sub := prisma.subs[id];
      if sub.status != Paused {
        return Err(BadRequest);
      }
      var data := sub.(status := Active);
      if sub.nextShipAt < prisma.now {
        data := data.(nextShipAt := prisma.now + sub.frequencyDays * DAY_MS);
      }
      if ActiveClash(prisma.subs, id, data) {
        return Err(Conflict);
      }
      prisma.subs := prisma.subs[id := data];
      r := Ok(());
    }

    method SkipNext(tenant: Id, id: Id) returns (r: Result<()>)
      modifies prisma
      ensures var result := SubAttempt(old(prisma.Model()), SubOp.SkipNext(Operator(tenant), id));
              prisma.Model() == After(old(prisma.Model()), result) && r == Outcome(result)
    {
      if id !in prisma.subs || prisma.subs[id].tenant != tenant {
        return Err(NotFound);
      }
      var sub := prisma.subs[id];
      if sub.status != Active {
        return Err(BadRequest);
      }
      prisma.subs := prisma.subs[id :=
        sub.(status := SkippedNext, nextShipAt := sub.nextShipAt + sub.frequencyDays * DAY_MS)];
      r := Ok(());
    }

    method Cancel(tenant: Id, id: Id) returns (r: Result<()>)
      modifies prisma
      ensures var result := SubAttempt(old(prisma.Model()), SubOp.Cancel(Operator(tenant), id));
              prisma.Model() == After(old(prisma.Model()), result) && r == Outcome(result)
    {
      if id !in prisma.subs || prisma.subs[id].tenant != tenant {
        return Err(NotFound);
      }
      if prisma.subs[id].status == SubCancelled {
        return Err(BadRequest);
      }
      prisma.subs := prisma.subs[id := prisma.subs[id].(status := SubCancelled)];
      r := Ok(());
    }

    /** Edits frequency and discount without touching the status or the next date. */
    method Update(tenant: Id, id: Id, frequencyDays: Option<int>, discountPct: Option<int>) returns (r: Result<()>)
      modifies prisma
      ensures var result := SubAttempt(old(prisma.Model()), EditSub(tenant, id, frequencyDays, discountPct));
              prisma.Model() == After(old(prisma.Model()), result) && r == Outcome(result)
    {
      if id !in prisma.subs || prisma.subs[id].tenant != tenant {
        return Err(NotFound);
      }
      var sub := prisma.subs[id];
      if sub.status == SubCancelled {
        return Err(BadRequest);
      }
      if frequencyDays.Some? {
        sub := sub.(frequencyDays := frequencyDays.value);
      }
      if discountPct.Some? {
        sub := sub.(discountPct := discountPct.value);
      }
      prisma.subs := prisma.subs[id := sub];
      r := Ok(());
    }
  }

  /** What else a new subscription meets: an address that is not the customer's, a failing customer record or setup
      intent at the provider, or an intent. */
  datatype SetupAnswer = AddressUnknown | CustomerFails | IntentFails | IntentReady

  class CustomerSubscriptionsService {
    const prisma: Prisma

    constructor (prisma: Prisma)
      ensures this.prisma == prisma
    {
      this.prisma := prisma;
    }

    /** Stores the paused row, then asks for a setup intent; the payment method is confirmed later by the setup
        webhook. A failing setup intent leaves the row behind, everything earlier leaves nothing. */
    method Create(customer: Id, tenant: Id, variant: Id, frequencyDays: int, id: Id, setup: SetupAnswer)
      returns (r: Result<()>)
      modifies prisma
      ensures var stored := SubAttempt(old(prisma.Model()), CreateSub(tenant, customer, variant, frequencyDays, id));
              if stored.Err? && stored.error != Conflict then
                prisma.Model() == old(prisma.Model()) && r == Outcome(stored)
              else if setup.AddressUnknown? || setup.CustomerFails? then
                prisma.Model() == old(prisma.Model()) && r == Err(if setup.AddressUnknown? then NotFound else ServerError)
              else
                && prisma.Model() == After(old(prisma.Model()), stored)
                && r == if stored.Ok? && setup.IntentFails? then Err(ServerError) else Outcome(stored)
    {
      if variant !in prisma.variants || prisma.variants[variant].tenant != tenant {
        return Err(NotFound);
      }
      if !prisma.variants[variant].active {
        return Err(BadRequest);
      }
      if prisma.variants[variant].avail == No {
        return Err(BadRequest);
      }
      if setup.AddressUnknown? {
        return Err(NotFound);
      }
      if setup.CustomerFails? {
        return Err(ServerError);
      }
      if id in prisma.subs {
        return Err(Conflict);
      }
      var nextShipAt := prisma.now + frequencyDays * DAY_MS;
      prisma.subs := prisma.subs[id :=
        Subscription(tenant, customer, variant, frequencyDays, Paused, None, nextShipAt, 0)];
      if setup.IntentFails? {
        return Err(ServerError);
      }
      r := Ok(());
    }

    method Pause(customer: Id, id: Id) returns (r: Result<()>)
      modifies prisma
      ensures var result := SubAttempt(old(prisma.Model()), SubOp.Pause(Owner(customer), id));
              prisma.Model() == After(old(prisma.Model()), result) && r == Outcome(result)
    {
      if id !in prisma.subs || prisma.subs[id].customer != customer {
        return Err(NotFound);
      }
      var sub := prisma.subs[id];
      if sub.status == SubCancelled || sub.status == Paused {
        return Err(BadRequest);
      }
      prisma.subs := prisma.subs[id := sub.(status := Paused)];
      r := Ok(());
    }

    method Resume(customer: Id, id: Id) returns (r: Result<()>)
      modifies prisma
      ensures var result := SubAttempt(old(prisma.Model()), SubOp.Resume(Owner(customer), id));
              prisma.Model() == After(old(prisma.Model()), result) && r == Outcome(result)
    {
      if id !in prisma.subs || prisma.subs[id].customer != customer {
        return Err(NotFound);
      }
      var sub := prisma.subs[id];
      if sub.status != Paused {
        return Err(BadRequest);
      }
      var nextShipAt := sub.nextShipAt;
      if sub.nextShipAt < prisma.now {
        nextShipAt := prisma.now + sub.frequencyDays * DAY_MS;
      }
      var data := sub.(status := Active, nextShipAt := nextShipAt);
      if ActiveClash(prisma.subs, id, data) {
        return Err(Conflict);
      }
      prisma.subs := prisma.subs[id := data];
      r := Ok(());
    }

    method SkipNext(customer: Id, id: Id) returns (r: Result<()>)
      modifies prisma
      ensures var result := SubAttempt(old(prisma.Model()), SubOp.SkipNext(Owner(customer), id));
              prisma.Model() == After(old(prisma.Model()), result) && r == Outcome(result)
    {
      if id !in prisma.subs || prisma.subs[id].customer != customer {
        return Err(NotFound);
      }
      var sub := prisma.subs[id];
      if sub.status != Active {
        return Err(BadRequest);
      }
      var nextShipAt := sub.nextShipAt + sub.frequencyDays * DAY_MS;
      prisma.subs := prisma.subs[id := sub.(status := SkippedNext, nextShipAt := nextShipAt)];
      r := Ok(());
    }

    method Cancel(customer: Id, id: Id) returns (r: Result<()>)
      modifies prisma
      ensures var result := SubAttempt(old(prisma.Model()), SubOp.Cancel(Owner(customer), id));
              prisma.Model() == After(old(prisma.Model()), result) && r == Outcome(result)
    {
      if id !in prisma.subs || prisma.subs[id].customer != customer {
        return Err(NotFound);
      }
      var sub := prisma.subs[id];
      if sub.status == SubCancelled {
        return Err(BadRequest);
      }
      prisma.subs := prisma.subs[id := sub.(status := SubCancelled)];
      r := Ok(());
    }
  }

  class SubscriptionRenewalService {
    const prisma: Prisma

    constructor (prisma: Prisma)
      ensures this.prisma == prisma
    {
      this.prisma := prisma;
    }

    /** The daily job over the rows the query returned, read once at the start; every row is renewed or counted
        as an error, and the loop never stops early. */
    method ProcessDueSubscriptions(picks: seq<Pick>) returns (processed: nat, errors: nat)
      requires SubsOk(prisma.subs, prisma.variants) && IsBatch(prisma.Model(), picks)
      modifies prisma
      ensures prisma.Model() == RenewAll(old(prisma.Model()), picks)
      ensures processed == CountCharged(picks)
      ensures processed + errors == Min(50, |DueSet(old(prisma.subs), old(prisma.now))|)
    {
      ghost var start := prisma.Model();
      var due := map p | p in picks :: prisma.subs[p.sub];
      processed, errors := 0, 0;
      var i := 0;
      while i < |picks|
        invariant 0 <= i <= |picks|
        invariant prisma.Model() == RenewAll(start, picks[..i])
        invariant processed == CountCharged(picks[..i]) && processed + errors == i
      {
        var p := picks[i];
        assert p in picks;
        assert picks[..i + 1][..i] == picks[..i];
        PrefixIsDue(start, picks, i);
        var ok := RenewOrMark(p, due[p]);
        if ok {
          processed := processed + 1;
        } else {
          errors := errors + 1;
        }
        i := i + 1;
      }
      assert picks[..i] == picks;
    }

    /** One pass of the loop: the failure of a renewal is caught, and stored on the row when that works. */
    method RenewOrMark(p: Pick, sub: Subscription) returns (ok: bool)
      requires p.sub in prisma.subs && prisma.subs[p.sub] == sub && Due(sub, prisma.now)
      requires sub.variant in prisma.variants && p.order !in prisma.orders
      modifies prisma
      ensures prisma.Model() == RenewOne(old(prisma.Model()), p) && ok == p.outcome.Charged?
    {
      prisma.now := prisma.now + p.delay;
      ok := RenewSubscription(p.sub, sub, p.order, p.outcome);
      if !ok && p.outcome.marked {
        prisma.subs := prisma.subs[p.sub := prisma.subs[p.sub].(status := PaymentFailed)];
      }
    }

    /** Stores the pending order, charges, and only then moves the date; a throw leaves what was stored so far. */
    method RenewSubscription(id: Id, sub: Subscription, order: Id, outcome: ChargeOutcome) returns (ok: bool)
      requires id in prisma.subs && prisma.subs[id] == sub
      requires sub.variant in prisma.variants && order !in prisma.orders
      modifies prisma
      ensures ok == outcome.Charged?
      ensures var row := RenewalOrder(id, sub, old(prisma.variants)[sub.variant]);
              prisma.Model() == match outcome
                case NoPaymentMethod(_) => old(prisma.Model())
                case ChargeRejected(_) => old(prisma.Model()).(orders := old(prisma.orders)[order := row])
                case StoreFailed(_) => old(prisma.Model()).(orders := old(prisma.orders)[order := row])
                case Charged(intent) =>
                  old(prisma.Model()).(
                    orders := old(prisma.orders)[order := row.(stripeIntent := Some(intent))],
                    subs := old(prisma.subs)[id := sub.(
                      lastShippedAt := Some(prisma.now),
                      nextShipAt := prisma.now + sub.frequencyDays * DAY_MS)])
    {
      if outcome.NoPaymentMethod? {
        return false;
      }
      var variant := prisma.variants[sub.variant];
      var unitCents := OrElse(variant.priceSubscription, variant.priceOneTime);
      var discountCents := if sub.discountPct > 0 then RoundHundredths(unitCents * sub.discountPct) else 0;
      var totalCents := Max(0, unitCents - discountCents);
      prisma.orders := prisma.orders[order := Order(
        sub.tenant, sub.customer, Some(id), Received, Pending, unitCents, discountCents, 0, totalCents,
        None, [Line(sub.variant, unitCents, 1, unitCents)], None, None)];
      if outcome.ChargeRejected? {
        return false;
      }
      if outcome.StoreFailed? {
        return false;
      }
      var nextShipAt := prisma.now + sub.frequencyDays * DAY_MS;
      prisma.orders := prisma.orders[order := prisma.orders[order].(stripeIntent := Some(outcome.intent))];
      prisma.subs := prisma.subs[id := prisma.subs[id].(lastShippedAt := Some(prisma.now), nextShipAt := nextShipAt)];
      return true;
    }
  }

  /** When the loop reaches a row, it is still as the query read it and its order id is still free. */
  lemma PrefixIsDue(s: State, picks: seq<Pick>, i: nat)
    requires SubsOk(s.subs, s.variants) && DuePicks(s, picks) && i < |picks|
    ensures var before, p := RenewAll(s, picks[..i]), picks[i];
            && p.sub in before.subs && before.subs[p.sub] == s.subs[p.sub]
            && Due(before.subs[p.sub], before.now)
            && before.variants == s.variants && p.order !in before.orders
  {
    var init, p := picks[..i], picks[i];
    assert p in picks && forall q :: q in init ==> q in picks;
    assert DuePicks(s, init);
    RenewAllEffect(s, init);
    assert BatchRow(s, init, RenewAll(s, init), p.sub);
  }
}
