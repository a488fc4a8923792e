/** Subscriptions: the transitions of a row, the renewal of one row, and the daily batch. */
module Subscriptions {
  import opened Wrappers
  import opened Sums
  import opened Rounding
  import opened ShopState
  import opened Pricing
  import opened Orders

  type SubTable = map<Id, Subscription>

  // ── Transitions of one row ────────────────────────────────────────────────

  function PauseRow(sub: Subscription): Result<Subscription> {
    if sub.status == SubCancelled || sub.status == Paused then Err(BadRequest)
    else Ok(sub.(status := Paused))
  }

  /** A date left in the past is moved one frequency after the present; any other date is kept. */
  function ResumeRow(sub: Subscription, now: int): Result<Subscription> {
    if sub.status != Paused then Err(BadRequest)
    else if sub.nextShipAt < now
    then Ok(sub.(status := Active, nextShipAt := now + sub.frequencyDays * DAY_MS))
    else Ok(sub.(status := Active))
  }

  function SkipRow(sub: Subscription): Result<Subscription> {
    if sub.status != Active then Err(BadRequest)
    else Ok(sub.(status := SkippedNext, nextShipAt := sub.nextShipAt + sub.frequencyDays * DAY_MS))
  }

  function CancelRow(sub: Subscription): Result<Subscription> {
    if sub.status == SubCancelled then Err(BadRequest) else Ok(sub.(status := SubCancelled))
  }

  function EditRow(sub: Subscription, frequencyDays: Option<int>, discountPct: Option<int>): Result<Subscription> {
    if sub.status == SubCancelled then Err(BadRequest)
    else Ok(sub.(frequencyDays := OrElse(frequencyDays, sub.frequencyDays),
                 discountPct := OrElse(discountPct, sub.discountPct)))
  }

  // ── Operations ────────────────────────────────────────────────────────────

  /** An operator acts within a tenant, a customer on their own rows. */
  datatype Actor = Operator(tenant: Id) | Owner(customer: Id)

  predicate Reaches(actor: Actor, sub: Subscription) {
    match actor
    case Operator(tenant) => sub.tenant == tenant
    case Owner(customer) => sub.customer == customer
  }

  /** The result of charging one renewal. `marked` tells whether storing PAYMENT_FAILED succeeded, since the
      batch swallows a failure of that update. */
  datatype ChargeOutcome =
    | NoPaymentMethod(marked: bool)
    | ChargeRejected(marked: bool)
      /** The charge succeeded but the transaction that stores the intent and the next date failed. */
    | StoreFailed(marked: bool)
    | Charged(intent: Id)

  datatype SubOp =
    | CreateSub(tenant: Id, customer: Id, variant: Id, frequencyDays: int, sub: Id)
    | Pause(actor: Actor, sub: Id)
    | Resume(actor: Actor, sub: Id)
    | SkipNext(actor: Actor, sub: Id)
    | Cancel(actor: Actor, sub: Id)
    | EditSub(tenant: Id, sub: Id, newFrequency: Option<int>, newDiscount: Option<int>)
    | SetupSucceeded(event: Id, activated: Option<Id>)
    | Renew(sub: Id, order: Id, outcome: ChargeOutcome)

  predicate FrequencyOk(days: int) {
    MIN_FREQUENCY_DAYS <= days <= MAX_FREQUENCY_DAYS
  }

  predicate SubOpOk(op: SubOp) {
    match op
    case CreateSub(_, _, _, days, _) => FrequencyOk(days)
    case EditSub(_, _, days, pct) =>
      (days.Some? ==> FrequencyOk(days.value)) && (pct.Some? ==> 0 <= pct.value <= 100)
    case _ => true
  }

  /** The partial unique index: at most one active row per customer and variant. */
  predicate ActiveClash(subs: SubTable, id: Id, row: Subscription) {
    row.status == Active
    && exists j :: j in subs && j != id && subs[j].status == Active
                   && subs[j].customer == row.customer && subs[j].variant == row.variant
  }

  function Store(s: State, id: Id, row: Subscription): Result<State> {
    if ActiveClash(s.subs, id, row) then Err(Conflict) else Ok(s.(subs := s.subs[id := row]))
  }

  function StoreResult(s: State, id: Id, r: Result<Subscription>): Result<State> {
    match r
    case Err(e) => Err(e)
    case Ok(row) => Store(s, id, row)
  }

  predicate Found(s: State, actor: Actor, id: Id) {
    id in s.subs && Reaches(actor, s.subs[id])
  }

  /** A new subscription waits, paused, for its payment method. */
  function CreateSubscription(s: State, tenant: Id, customer: Id, variant: Id, days: int, id: Id): Result<State> {
    if variant !in s.variants || s.variants[variant].tenant != tenant then Err(NotFound)
    else if !s.variants[variant].active || s.variants[variant].avail == No then Err(BadRequest)
    else if id in s.subs then Err(Conflict)
    else Ok(s.(subs := s.subs[id := Subscription(tenant, customer, variant, days, Paused, None,
                                                 s.now + days * DAY_MS, 0)]))
  }

  /** The webhook of a saved payment method activates whatever row it names, cancelled rows included. */
  function SetupSuccess(s: State, event: Id, id: Id): Result<State> {
    if event in s.stripeEvents then Ok(s)
    else if id !in s.subs then Err(NotFound)
    else Store(s.(stripeEvents := s.stripeEvents + {event}), id, s.subs[id].(status := Active))
  }

  // ── Renewal ───────────────────────────────────────────────────────────────

  predicate Due(sub: Subscription, at: int) {
    sub.status == Active && sub.nextShipAt <= at
  }

  function DueSet(subs: SubTable, at: int): set<Id> {
    set id | id in subs && Due(subs[id], at)
  }

  /** The order of a renewal: one unit at the subscription price, less the subscription's own percentage. */
  function RenewalOrder(id: Id, sub: Subscription, v: Variant): Order {
    var unit := UnitCents(v, SubscriptionMode);
    var discount := if sub.discountPct > 0 then PercentOf(unit, sub.discountPct) else 0;
    Order(sub.tenant, sub.customer, Some(id), Received, Pending, unit, discount, 0, Max(0, unit - discount),
          None, [Line(sub.variant, unit, 1, unit)], None, None)
  }

  function MarkFailed(subs: SubTable, id: Id, marked: bool): SubTable
    requires id in subs
  {
    if marked then subs[id := subs[id].(status := PaymentFailed)] else subs
  }

  /** A missing payment method stops before the order is stored; a rejected charge, or one whose
      result could not be stored, leaves its order pending. */
  function RenewSub(s: State, id: Id, order: Id, outcome: ChargeOutcome): Result<State> {
    if id !in s.subs || !Due(s.subs[id], s.now) || s.subs[id].variant !in s.variants then Err(NotFound)
    else
      var sub := s.subs[id];
      var row := RenewalOrder(id, sub, s.variants[sub.variant]);
      match outcome
      case NoPaymentMethod(marked) => Ok(s.(subs := MarkFailed(s.subs, id, marked)))
      case ChargeRejected(marked) =>
        if order in s.orders then Err(Conflict)
        else Ok(s.(orders := s.orders[order := row], subs := MarkFailed(s.subs, id, marked)))
      case StoreFailed(marked) =>
        if order in s.orders then Err(Conflict)
        else Ok(s.(orders := s.orders[order := row], subs := MarkFailed(s.subs, id, marked)))
      case Charged(intent) =>
        if order in s.orders then Err(Conflict)
        else Ok(s.(orders := s.orders[order := row.(stripeIntent := Some(intent))],
                   subs := s.subs[id := sub.(lastShippedAt := Some(s.now),
                                             nextShipAt := s.now + sub.frequencyDays * DAY_MS)]))
  }

  function SubAttempt(s: State, op: SubOp): Result<State> {
    match op
    case CreateSub(tenant, customer, variant, days, id) => CreateSubscription(s, tenant, customer, variant, days, id)
    case Pause(actor, id) =>
      if !Found(s, actor, id) then Err(NotFound) else StoreResult(s, id, PauseRow(s.subs[id]))
    case Resume(actor, id) =>
      if !Found(s, actor, id) then Err(NotFound) else StoreResult(s, id, ResumeRow(s.subs[id], s.now))
    case SkipNext(actor, id) =>
      if !Found(s, actor, id) then Err(NotFound) else StoreResult(s, id, SkipRow(s.subs[id]))
    case Cancel(actor, id) =>
      if !Found(s, actor, id) then Err(NotFound) else StoreResult(s, id, CancelRow(s.subs[id]))
    case EditSub(tenant, id, days, pct) =>
      if !Found(s, Operator(tenant), id) then Err(NotFound)
      else
        var edited := EditRow(s.subs[id], days, pct);
        if edited.Err? then Err(edited.error) else Ok(s.(subs := s.subs[id := edited.value]))
    case SetupSucceeded(event, id) => if id.None? then Ok(s) else SetupSuccess(s, event, id.value)
    case Renew(id, order, outcome) => RenewSub(s, id, order, outcome)
  }

  // ── Invariants ────────────────────────────────────────────────────────────

  predicate SubOk(sub: Subscription, variants: map<Id, Variant>) {
    FrequencyOk(sub.frequencyDays) && 0 <= sub.discountPct <= 100 && sub.variant in variants
  }

  predicate SubsOk(subs: SubTable, variants: map<Id, Variant>) {
    forall id :: id in subs ==> SubOk(subs[id], variants)
  }

  predicate OneActiveEach(subs: SubTable) {
    forall i, j :: i in subs && j in subs && i != j && subs[i].status == Active && subs[j].status == Active
                   ==> subs[i].customer != subs[j].customer || subs[i].variant != subs[j].variant
  }

  /** What one call can do to a row, given that it never changes another row's owner or variant. */
  predicate RowStep(before: Subscription, after: Subscription) {
    && before.nextShipAt <= after.nextShipAt
    && before.tenant == after.tenant && before.customer == after.customer && before.variant == after.variant
  }

  /** The call is the first delivery of a setup event naming the row. */
  predicate Reactivates(s: State, op: SubOp, id: Id) {
    op.SetupSucceeded? && op.activated == Some(id) && op.event !in s.stripeEvents
  }

  lemma StoreRow(s: State, id: Id, row: Subscription)
    ensures var t := After(s, Store(s, id, row));
            t == s || t == s.(subs := s.subs[id := row])
  {}

  lemma StoreResultRow(s: State, id: Id, r: Result<Subscription>)
    ensures var t := After(s, StoreResult(s, id, r));
            t == s || (r.Ok? && t == s.(subs := s.subs[id := r.value]))
  {}

  /** What a call can do to one row that exists. */
  ghost predicate RowKept(s: State, op: SubOp, t: State, id: Id)
    requires id in s.subs
  {
    && id in t.subs
    && RowStep(s.subs[id], t.subs[id])
    && SubOk(t.subs[id], s.variants)
    && (s.subs[id].status == SubCancelled && !Reactivates(s, op, id) ==> t.subs[id] == s.subs[id])
  }

  // ── What each call does to its row ────────────────────────────────────────

  /** The row is in reach of the operator's tenant or of its owner. */
  predicate InReach(s: State, actor: Actor, id: Id) {
    && id in s.subs
    && (actor.Operator? ==> s.subs[id].tenant == actor.tenant)
    && (actor.Owner? ==> s.subs[id].customer == actor.customer)
  }

  /** No other active subscription of the row's customer to its variant. */
  predicate OnlyActive(s: State, id: Id)
    requires id in s.subs
  {
    forall j :: j in s.subs && j != id && s.subs[j].status == Active && s.subs[j].customer == s.subs[id].customer
                ==> s.subs[j].variant != s.subs[id].variant
  }

  /** Cancelling a row in reach makes it cancelled and nothing else, unless it is so already. */
  lemma CancelEffect(s: State, actor: Actor, id: Id)
    ensures var r := SubAttempt(s, Cancel(actor, id));
            && (!InReach(s, actor, id) ==> r == Err(NotFound))
            && (InReach(s, actor, id) && s.subs[id].status == SubCancelled ==> r == Err(BadRequest))
            && (InReach(s, actor, id) && s.subs[id].status != SubCancelled ==>
                  r == Ok(s.(subs := s.subs[id := s.subs[id].(status := SubCancelled)])))
  {}

  /** Pausing works on every row in reach that is neither paused nor cancelled, and only pauses it. */
  lemma PauseEffect(s: State, actor: Actor, id: Id)
    ensures var r := SubAttempt(s, Pause(actor, id));
            && (!InReach(s, actor, id) ==> r == Err(NotFound))
            && (InReach(s, actor, id) && s.subs[id].status in {Paused, SubCancelled} ==> r == Err(BadRequest))
            && (InReach(s, actor, id) && s.subs[id].status in {Active, SkippedNext, PaymentFailed} ==>
                  r == Ok(s.(subs := s.subs[id := s.subs[id].(status := Paused)])))
  {}

  /** Resuming works on a paused row only, and without another active subscription of the customer to the variant. The
      row becomes active; a date in the past moves to one frequency from now, any other date stays. */
  lemma ResumeEffect(s: State, actor: Actor, id: Id)
    ensures var r := SubAttempt(s, Resume(actor, id));
            && (!InReach(s, actor, id) ==> r == Err(NotFound))
            && (InReach(s, actor, id) && s.subs[id].status != Paused ==> r == Err(BadRequest))
            && (InReach(s, actor, id) && s.subs[id].status == Paused && !OnlyActive(s, id) ==> r == Err(Conflict))
            && (InReach(s, actor, id) && s.subs[id].status == Paused && OnlyActive(s, id) ==>
                  && r.Ok? && id in r.value.subs
                  && var row := r.value.subs[id];
                  && r.value == s.(subs := s.subs[id := row])
                  && row == s.subs[id].(status := Active, nextShipAt := row.nextShipAt)
                  && (s.subs[id].nextShipAt >= s.now ==> row.nextShipAt == s.subs[id].nextShipAt)
                  && (s.subs[id].nextShipAt < s.now ==>
                        row.nextShipAt == s.now + s.subs[id].frequencyDays * 86_400_000))
  {
    assert DAY_MS == 86_400_000;
  }

  /** Skipping works on an active row only, and pushes its date by exactly one frequency. */
  lemma SkipEffect(s: State, actor: Actor, id: Id)
    ensures var r := SubAttempt(s, SkipNext(actor, id));
            && (!InReach(s, actor, id) ==> r == Err(NotFound))
            && (InReach(s, actor, id) && s.subs[id].status != Active ==> r == Err(BadRequest))
            && (InReach(s, actor, id) && s.subs[id].status == Active ==>
                  r == Ok(s.(subs := s.subs[id := s.subs[id].(
                    status := SkippedNext,
                    nextShipAt := s.subs[id].nextShipAt + s.subs[id].frequencyDays * 86_400_000)])))
  {
    assert DAY_MS == 86_400_000;
  }

  /** An edit stores exactly the values sent, on any row of the tenant that is not cancelled; status and dates stay. */
  lemma EditEffect(s: State, tenant: Id, id: Id, days: Option<int>, pct: Option<int>)
    ensures var r := SubAttempt(s, EditSub(tenant, id, days, pct));
            && (!InReach(s, Operator(tenant), id) ==> r == Err(NotFound))
            && (InReach(s, Operator(tenant), id) && s.subs[id].status == SubCancelled ==> r == Err(BadRequest))
            && (InReach(s, Operator(tenant), id) && s.subs[id].status != SubCancelled ==>
                  && r.Ok? && id in r.value.subs
                  && var row := r.value.subs[id];
                  && r.value == s.(subs := s.subs[id := row])
                  && row == s.subs[id].(frequencyDays := row.frequencyDays, discountPct := row.discountPct)
                  && (days.Some? ==> row.frequencyDays == days.value)
                  && (days.None? ==> row.frequencyDays == s.subs[id].frequencyDays)
                  && (pct.Some? ==> row.discountPct == pct.value)
                  && (pct.None? ==> row.discountPct == s.subs[id].discountPct))
  {}

  /** Creating is accepted for a published variant of the tenant that can be subscribed to, and stores a paused row, first
      due one frequency from now, without discount. */
  lemma CreateEffect(s: State, tenant: Id, customer: Id, variant: Id, days: int, id: Id)
    ensures var r := SubAttempt(s, CreateSub(tenant, customer, variant, days, id));
            var known := variant in s.variants && s.variants[variant].tenant == tenant;
            && (r == Err(NotFound) <==> !known)
            && (r == Err(BadRequest) <==> known && (!s.variants[variant].active || s.variants[variant].avail == No))
            && (r.Ok? ==>
                  && id !in s.subs && id in r.value.subs && r.value == s.(subs := s.subs[id := r.value.subs[id]])
                  && var row := r.value.subs[id];
                  && row.tenant == tenant && row.customer == customer && row.variant == variant
                  && row.frequencyDays == days && row.status == Paused && row.lastShippedAt.None?
                  && row.nextShipAt == s.now + days * 86_400_000 && row.discountPct == 0)
            && (id !in s.subs && r.Err? ==> r in {Err(NotFound), Err(BadRequest)})
  {
    assert DAY_MS == 86_400_000;
  }

  /** A setup event is recorded once and activates its row, whatever status it has, unless another active row clashes;
      for an unknown row or a clash it is not recorded. */
  lemma SetupEffect(s: State, event: Id, id: Id)
    ensures SubAttempt(s, SetupSucceeded(event, None)) == Ok(s)
    ensures var r := SubAttempt(s, SetupSucceeded(event, Some(id)));
            && (event in s.stripeEvents ==> r == Ok(s))
            && (event !in s.stripeEvents && id !in s.subs ==> r == Err(NotFound))
            && (event !in s.stripeEvents && id in s.subs && !OnlyActive(s, id) ==> r == Err(Conflict))
            && (event !in s.stripeEvents && id in s.subs && OnlyActive(s, id) ==>
                  r == Ok(s.(stripeEvents := s.stripeEvents + {event},
                             subs := s.subs[id := s.subs[id].(status := Active)])))
  {}

  /** A renewal takes a row that is active and due. Without a payment method nothing is stored but the mark; otherwise one
      new pending order is, and only a stored charge gives it the intent, the row its shipping date and the next date
      one frequency from now. A failure marks the row as failed exactly when the mark could be stored. */
  lemma RenewEffect(s: State, id: Id, order: Id, outcome: ChargeOutcome)
    requires order !in s.orders
    ensures var r := SubAttempt(s, Renew(id, order, outcome));
            && (r.Ok? <==> id in s.subs && s.subs[id].status == Active && s.subs[id].nextShipAt <= s.now
                           && s.subs[id].variant in s.variants)
            && (r.Err? ==> r == Err(NotFound))
            && (r.Ok? ==>
                  && id in r.value.subs && r.value.subs == s.subs[id := r.value.subs[id]]
                  && r.value == s.(orders := r.value.orders, subs := r.value.subs)
                  && (outcome.NoPaymentMethod? ==> r.value.orders == s.orders)
                  && (!outcome.NoPaymentMethod? ==>
                        && order in r.value.orders && r.value.orders == s.orders[order := r.value.orders[order]]
                        && r.value.orders[order].payment == Pending && r.value.orders[order].status == Received
                        && r.value.orders[order].subscription == Some(id)
                        && r.value.orders[order].stripeIntent
                           == (if outcome.Charged? then Some(outcome.intent) else None))
                  && (outcome.Charged? ==>
                        r.value.subs[id] == s.subs[id].(
                          lastShippedAt := Some(s.now),
                          nextShipAt := s.now + s.subs[id].frequencyDays * 86_400_000))
                  && (!outcome.Charged? ==>
                        r.value.subs[id]
                        == if outcome.marked then s.subs[id].(status := PaymentFailed) else s.subs[id]))
  {
    assert DAY_MS == 86_400_000;
  }

  lemma RenewKeepsRow(s: State, sub: Id, order: Id, outcome: ChargeOutcome, id: Id)
    requires SubsOk(s.subs, s.variants) && id in s.subs
    ensures RowKept(s, Renew(sub, order, outcome), After(s, RenewSub(s, sub, order, outcome)), id)
  {
    hide RenewalOrder, ActiveClash;
    assert SubOk(s.subs[id], s.variants);
  }

  lemma SetupKeepsRow(s: State, event: Id, activated: Option<Id>, id: Id)
    requires SubsOk(s.subs, s.variants) && id in s.subs
    ensures RowKept(s, SetupSucceeded(event, activated), After(s, SubAttempt(s, SetupSucceeded(event, activated))), id)
  {
    assert SubOk(s.subs[id], s.variants);
    if activated.Some? && activated.value in s.subs {
      StoreRow(s.(stripeEvents := s.stripeEvents + {event}), activated.value,
               s.subs[activated.value].(status := Active));
    }
  }

  /** Per row: rows are never removed, ship dates never move back, and a cancelled row stays exactly as it is
      unless a first setup event names it. */
  lemma SubOpRow(s: State, op: SubOp, id: Id)
    requires SubsOk(s.subs, s.variants) && SubOpOk(op) && id in s.subs
    ensures RowKept(s, op, After(s, SubAttempt(s, op)), id)
  {
    hide StoreResult, Store, ActiveClash, SetupSuccess, RenewSub;
    assert SubOk(s.subs[id], s.variants);
    match op {
      case CreateSub(_, _, _, _, _) =>
      case Pause(_, j) => if j in s.subs { StoreResultRow(s, j, PauseRow(s.subs[j])); }
      case Resume(_, j) => if j in s.subs { StoreResultRow(s, j, ResumeRow(s.subs[j], s.now)); }
      case SkipNext(_, j) => if j in s.subs { StoreResultRow(s, j, SkipRow(s.subs[j])); }
      case Cancel(_, j) => if j in s.subs { StoreResultRow(s, j, CancelRow(s.subs[j])); }
      case EditSub(_, _, _, _) =>
      case SetupSucceeded(event, activated) => SetupKeepsRow(s, event, activated, id);
      case Renew(sub, order, outcome) => RenewKeepsRow(s, sub, order, outcome, id);
    }
  }

  /** The tables a subscription call does not write. */
  lemma SubOpFrame(s: State, op: SubOp)
    ensures var t := After(s, SubAttempt(s, op));
            && t.now == s.now && t.tenants == s.tenants && t.variants == s.variants && t.codes == s.codes
            && t.carts == s.carts && t.mpEvents == s.mpEvents
            && s.stripeEvents <= t.stripeEvents
  {
    hide ActiveClash, RenewalOrder, MarkFailed, Due;
  }

  /** Only `create` adds a row. */
  lemma NewSubOk(s: State, op: SubOp, id: Id)
    requires SubOpOk(op) && id !in s.subs && id in After(s, SubAttempt(s, op)).subs
    ensures SubOk(After(s, SubAttempt(s, op)).subs[id], s.variants)
  {
    hide ActiveClash, RenewalOrder, Due;
  }

  lemma SubOpKeepsSubsOk(s: State, op: SubOp)
    requires SubsOk(s.subs, s.variants) && SubOpOk(op)
    ensures SubsOk(After(s, SubAttempt(s, op)).subs, After(s, SubAttempt(s, op)).variants)
  {
    hide SubAttempt;
    var t := After(s, SubAttempt(s, op));
    SubOpFrame(s, op);
    forall id | id in t.subs ensures SubOk(t.subs[id], t.variants) {
      if id in s.subs {
        SubOpRow(s, op, id);
      } else {
        NewSubOk(s, op, id);
      }
    }
  }

  lemma StoreKeepsOneActive(s: State, id: Id, r: Result<Subscription>)
    requires OneActiveEach(s.subs)
    ensures OneActiveEach(After(s, StoreResult(s, id, r)).subs)
  {}

  lemma RenewKeepsOneActive(s: State, id: Id, order: Id, outcome: ChargeOutcome)
    requires OneActiveEach(s.subs)
    ensures OneActiveEach(After(s, RenewSub(s, id, order, outcome)).subs)
  {
    hide RenewalOrder;
  }

  lemma SetupKeepsOneActive(s: State, event: Id, id: Id)
    requires OneActiveEach(s.subs)
    ensures OneActiveEach(After(s, SetupSuccess(s, event, id)).subs)
  {
    if id in s.subs {
      StoreKeepsOneActive(s.(stripeEvents := s.stripeEvents + {event}), id, Ok(s.subs[id].(status := Active)));
    }
  }

  /** Customer and variant never have two active rows: the index rejects what would break it. */
  lemma SubOpKeepsOneActive(s: State, op: SubOp)
    requires OneActiveEach(s.subs)
    ensures OneActiveEach(After(s, SubAttempt(s, op)).subs)
  {
    hide StoreResult, Store, ActiveClash, SetupSuccess, RenewSub;
    match op {
      case CreateSub(_, _, _, _, _) =>
      case Pause(_, id) => if id in s.subs { StoreKeepsOneActive(s, id, PauseRow(s.subs[id])); }
      case Resume(_, id) => if id in s.subs { StoreKeepsOneActive(s, id, ResumeRow(s.subs[id], s.now)); }
      case SkipNext(_, id) => if id in s.subs { StoreKeepsOneActive(s, id, SkipRow(s.subs[id])); }
      case Cancel(_, id) => if id in s.subs { StoreKeepsOneActive(s, id, CancelRow(s.subs[id])); }
      case EditSub(_, _, _, _) =>
      case SetupSucceeded(event, id) => if id.Some? { SetupKeepsOneActive(s, event, id.value); }
      case Renew(id, order, outcome) => RenewKeepsOneActive(s, id, order, outcome);
    }
  }

  /** A renewal's order has consistent amounts, and is a pending order of one unit for the subscription's owner. */
  lemma RenewalOrderOk(id: Id, sub: Subscription, v: Variant)
    requires 0 <= sub.discountPct <= 100
    requires VariantOk(v)
    ensures OrderOk(RenewalOrder(id, sub, v))
    ensures var o := RenewalOrder(id, sub, v);
            && o.tenant == sub.tenant && o.customer == sub.customer && o.subscription == Some(id)
            && o.payment == Pending && o.discountCode.None? && o.shippingCents == 0
            && o.subtotalCents == (if v.priceSubscription.Some? then v.priceSubscription.value else v.priceOneTime)
            && -50 < 100 * o.discountCents - o.subtotalCents * sub.discountPct <= 50
            && o.items == [Line(sub.variant, o.subtotalCents, 1, o.subtotalCents)]
            && Demand(o.items, sub.variant) == 1
  {
    var unit := UnitCents(v, SubscriptionMode);
    PercentBounds(unit, sub.discountPct);
    var line := Line(sub.variant, unit, 1, unit);
    assert [line][..0] == [];
    assert Sum(LineCents(), [line]) == unit;
    DemandStep([line], sub.variant);
    assert Demand([], sub.variant) == 0;
  }

  lemma RenewKeepsOrders(s: State, id: Id, order: Id, outcome: ChargeOutcome)
    requires OrdersOk(s.orders) && VariantsOk(s.variants) && SubsOk(s.subs, s.variants)
    ensures var t := After(s, RenewSub(s, id, order, outcome));
            OrdersOk(t.orders)
  {
    if id in s.subs {
      var sub := s.subs[id];
      assert SubOk(sub, s.variants);
      RenewalOrderOk(id, sub, s.variants[sub.variant]);
    }
  }

  lemma SubOpKeepsSnapshots(s: State, op: SubOp)
    ensures SnapshotsKept(s.orders, After(s, SubAttempt(s, op)).orders)
  {
    hide ActiveClash, RenewalOrder, MarkFailed, Due;
  }

  lemma SubOpKeepsOrders(s: State, op: SubOp)
    requires OrdersOk(s.orders) && VariantsOk(s.variants) && SubsOk(s.subs, s.variants)
    ensures var t := After(s, SubAttempt(s, op));
            OrdersOk(t.orders)
  {
    if op.Renew? {
      RenewKeepsOrders(s, op.sub, op.order, op.outcome);
    }
  }

  /** The two price computations agree: a renewal at p% costs what the cart asks, before shipping, for one
      unit in subscription mode with an accepted p% code. */
  lemma RenewalMatchesCart(s: State, id: Id, sub: Subscription, code: Id, customer: Option<Id>)
    requires Visible(s.variants, sub.tenant, sub.variant) && VariantsOk(s.variants)
    requires CodeKey(sub.tenant, code) in s.codes
    requires var dc := s.codes[CodeKey(sub.tenant, code)];
             dc.kind == Percentage && dc.value == sub.discountPct && 1 <= dc.value <= 100
    requires var p := PriceOf(s, sub.tenant, [CartItem(sub.variant, 1)], SubscriptionMode, Some(code), customer);
             p.Ok? ==> p.value.discount.Accepted?
    ensures var p := PriceOf(s, sub.tenant, [CartItem(sub.variant, 1)], SubscriptionMode, Some(code), customer);
            var o := RenewalOrder(id, sub, s.variants[sub.variant]);
            && p.Ok?
            && p.value.lines == o.items
            && p.value.subtotalCents == o.subtotalCents && p.value.discountCents == o.discountCents
            && (p.value.shippingCents >= 0 ==> p.value.totalCents - p.value.shippingCents == o.totalCents)
  {
    var items := [CartItem(sub.variant, 1)];
    assert forall i :: i in items ==> i == items[0];
    assert items[..0] == [];
    var unit := UnitCents(s.variants[sub.variant], SubscriptionMode);
    assert Subtotal(s.variants, SubscriptionMode, items) == Subtotal(s.variants, SubscriptionMode, []) + unit;
    PercentBounds(unit, sub.discountPct);
  }

  // ── The batch ─────────────────────────────────────────────────────────────

  /** One row of a batch: the id the query returned, the order id generated for it, the time that passes
      before its charge, and how the charge ends. */
  datatype Pick = Pick(sub: Id, order: Id, delay: nat, outcome: ChargeOutcome)

  function RenewOne(s: State, p: Pick): State {
    var t := s.(now := s.now + p.delay);
    After(t, RenewSub(t, p.sub, p.order, p.outcome))
  }

  function RenewAll(s: State, picks: seq<Pick>): State {
    if picks == [] then s else RenewOne(RenewAll(s, picks[..|picks| - 1]), picks[|picks| - 1])
  }

  predicate DistinctPicks(picks: seq<Pick>) {
    forall i, j :: 0 <= i < j < |picks| ==> picks[i].sub != picks[j].sub && picks[i].order != picks[j].order
  }

  /** The picks are rows the query can return, with fresh order ids. */
  predicate DuePicks(s: State, picks: seq<Pick>) {
    && DistinctPicks(picks)
    && (forall p :: p in picks ==>
          p.sub in s.subs && Due(s.subs[p.sub], s.now) && s.subs[p.sub].variant in s.variants && p.order !in s.orders)
  }

  /** The query takes the first 50 due rows in an unspecified order. */
  predicate IsBatch(s: State, picks: seq<Pick>) {
    DuePicks(s, picks) && |picks| == Min(RENEWAL_BATCH, |DueSet(s.subs, s.now)|)
  }

  /** The row stops being due: it was charged, or its failure was stored. */
  predicate Handled(outcome: ChargeOutcome) {
    match outcome
    case Charged(_) => true
    case NoPaymentMethod(marked) => marked
    case ChargeRejected(marked) => marked
    case StoreFailed(marked) => marked
  }

  function HandledIds(picks: seq<Pick>): set<Id> {
    set p | p in picks && Handled(p.outcome) :: p.sub
  }

  function CountCharged(picks: seq<Pick>): nat {
    if picks == [] then 0
    else CountCharged(picks[..|picks| - 1]) + (if picks[|picks| - 1].outcome.Charged? then 1 else 0)
  }

  /** One pick of a row that has been due since `at`: only that row changes, and it stays due at that instant
      exactly when a failure was not stored. */
  lemma RenewOneEffect(s: State, p: Pick, at: int)
    requires p.sub in s.subs && SubOk(s.subs[p.sub], s.variants) && p.order !in s.orders
    requires at <= s.now && Due(s.subs[p.sub], at)
    ensures var t := RenewOne(s, p);
            && p.sub in t.subs && t.subs == s.subs[p.sub := t.subs[p.sub]]
            && t.variants == s.variants && t.now == s.now + p.delay
            && (forall o :: o in t.orders ==> o in s.orders || o == p.order)
            && (Due(t.subs[p.sub], at) <==> !Handled(p.outcome))
            && SubOk(t.subs[p.sub], t.variants)
  {}

  /** A row after some picks of a batch. */
  ghost predicate BatchRow(s: State, picks: seq<Pick>, t: State, id: Id)
    requires id in s.subs && t.subs.Keys == s.subs.Keys
  {
    && SubOk(t.subs[id], t.variants)
    && ((forall p :: p in picks ==> p.sub != id) ==> t.subs[id] == s.subs[id])
    && (forall p :: p in picks && p.sub == id ==> (Due(t.subs[id], s.now) <==> !Handled(p.outcome)))
  }

  /** The state of a batch after some picks: every picked row got its own outcome, every other row and every
      variant is untouched, and the clock has not gone back. */
  lemma {:induction false} RenewAllEffect(s: State, picks: seq<Pick>)
    requires DuePicks(s, picks) && SubsOk(s.subs, s.variants)
    ensures var t := RenewAll(s, picks);
            && t.subs.Keys == s.subs.Keys && t.variants == s.variants && s.now <= t.now
            && (forall o :: o in t.orders ==> o in s.orders || exists p :: p in picks && p.order == o)
            && (forall id :: id in s.subs ==> BatchRow(s, picks, t, id))
  {
    hide RenewOne;
    if picks == [] {
      forall id | id in s.subs ensures BatchRow(s, picks, s, id) {
        assert SubOk(s.subs[id], s.variants);
      }
    } else {
      var init, last := picks[..|picks| - 1], picks[|picks| - 1];
      InitPicks(s, picks);
      RenewAllEffect(s, init);
      var before := RenewAll(s, init);
      assert BatchRow(s, init, before, last.sub);
      RenewOneEffect(before, last, s.now);
      var t := RenewAll(s, picks);
      forall id | id in s.subs ensures BatchRow(s, picks, t, id) {
        assert BatchRow(s, init, before, id);
      }
      forall o | o in t.orders ensures o in s.orders || exists p :: p in picks && p.order == o {
        if o !in s.orders && o != last.order {
          var p :| p in init && p.order == o;
          assert p in picks;
        }
      }
    }
  }

  lemma InitPicks(s: State, picks: seq<Pick>)
    requires DuePicks(s, picks) && picks != []
    ensures var init, last := picks[..|picks| - 1], picks[|picks| - 1];
            && DuePicks(s, init)
            && last in picks
            && (forall p :: p in picks <==> p in init || p == last)
            && (forall p :: p in init ==> p.sub != last.sub && p.order != last.order)
  {
    var init, last := picks[..|picks| - 1], picks[|picks| - 1];
    assert picks == init + [last];
  }

  /** A batch takes exactly the handled rows out of the due set of its starting instant, whichever rows the
      query returned and whatever the charges did, even while the clock runs. */
  lemma BatchLeaves(s: State, picks: seq<Pick>)
    requires DuePicks(s, picks) && SubsOk(s.subs, s.variants)
    ensures DueSet(RenewAll(s, picks).subs, s.now) == DueSet(s.subs, s.now) - HandledIds(picks)
  {
    RenewAllEffect(s, picks);
    var t := RenewAll(s, picks);
    forall id ensures id in DueSet(t.subs, s.now) <==> id in DueSet(s.subs, s.now) - HandledIds(picks) {
      if id in s.subs {
        assert BatchRow(s, picks, t, id);
        if p :| p in picks && p.sub == id {
          assert forall q :: q in picks && q.sub == id ==> q == p;
        }
      }
    }
  }

  lemma {:induction false} DistinctIds(picks: seq<Pick>)
    requires DistinctPicks(picks) && forall p :: p in picks ==> Handled(p.outcome)
    ensures |HandledIds(picks)| == |picks|
  {
    if picks != [] {
      var init, last := picks[..|picks| - 1], picks[|picks| - 1];
      assert forall p :: p in picks <==> p in init || p == last;
      DistinctIds(init);
      assert HandledIds(picks) == HandledIds(init) + {last.sub};
      assert last.sub !in HandledIds(init);
    }
  }

  /** A batch counts as processed exactly the rows that were charged and stored. */
  lemma {:induction false} CountIsCharged(picks: seq<Pick>)
    requires DistinctPicks(picks)
    ensures CountCharged(picks) == |set p | p in picks && p.outcome.Charged? :: p.sub|
  {
    if picks != [] {
      var init, last := picks[..|picks| - 1], picks[|picks| - 1];
      assert picks == init + [last];
      assert forall p :: p in picks <==> p in init || p == last;
      CountIsCharged(init);
      var before, after := set p | p in init && p.outcome.Charged? :: p.sub, set p | p in picks && p.outcome.Charged? :: p.sub;
      assert after == if last.outcome.Charged? then before + {last.sub} else before;
      assert last.sub !in before;
    }
  }

  /** When every failure is stored, a batch over n due rows leaves exactly max(0, n - 50) of them due. */
  lemma BatchDrains(s: State, picks: seq<Pick>)
    requires IsBatch(s, picks) && SubsOk(s.subs, s.variants)
    requires forall p :: p in picks ==> Handled(p.outcome)
    ensures |DueSet(RenewAll(s, picks).subs, s.now)| == Max(0, |DueSet(s.subs, s.now)| - 50)
  {
    BatchLeaves(s, picks);
    DistinctIds(picks);
    var n := |DueSet(s.subs, s.now)|;
    assert HandledIds(picks) <= DueSet(s.subs, s.now);
    assert |DueSet(s.subs, s.now) - HandledIds(picks)| == n - |picks|;
  }

  /** Batches one after the other. */
  function RenewBatches(s: State, batches: seq<seq<Pick>>): State {
    if batches == [] then s else RenewAll(RenewBatches(s, batches[..|batches| - 1]), batches[|batches| - 1])
  }

  /** Each batch is what the query returns when it starts, with the clock held and every failure stored. */
  predicate HeldBatches(s: State, batches: seq<seq<Pick>>) {
    if batches == [] then true
    else
      var init, last := batches[..|batches| - 1], batches[|batches| - 1];
      && HeldBatches(s, init)
      && IsBatch(RenewBatches(s, init), last)
      && forall p :: p in last ==> p.delay == 0 && Handled(p.outcome)
  }

  lemma RenewOneClock(s: State, p: Pick)
    ensures RenewOne(s, p).now == s.now + p.delay
  {
    hide RenewalOrder, MarkFailed, Due;
  }

  lemma {:induction false} HeldClock(s: State, picks: seq<Pick>)
    requires forall p :: p in picks ==> p.delay == 0
    ensures RenewAll(s, picks).now == s.now
  {
    hide RenewOne;
    if picks != [] {
      var init, last := picks[..|picks| - 1], picks[|picks| - 1];
      assert last in picks && forall p :: p in init ==> p in picks;
      HeldClock(s, init);
      RenewOneClock(RenewAll(s, init), last);
    }
  }

  /** With the clock held, k batches leave max(0, n - 50k) due rows: the queue of n rows is empty after
      ceil(n / 50) batches and not before. */
  lemma {:induction false} QueueDrains(s: State, batches: seq<seq<Pick>>)
    requires SubsOk(s.subs, s.variants) && HeldBatches(s, batches)
    ensures var n := |DueSet(s.subs, s.now)|;
            var t := RenewBatches(s, batches);
            && t.now == s.now && SubsOk(t.subs, t.variants)
            && |DueSet(t.subs, s.now)| == Max(0, n - 50 * |batches|)
            && (DueSet(t.subs, s.now) == {} <==> (n + 49) / 50 <= |batches|)
  {
    if batches != [] {
      var init, last := batches[..|batches| - 1], batches[|batches| - 1];
      QueueDrains(s, init);
      var before := RenewBatches(s, init);
      BatchDrains(before, last);
      HeldClock(before, last);
      RenewAllEffect(before, last);
      var t := RenewBatches(s, batches);
      forall id | id in t.subs ensures SubOk(t.subs[id], t.variants) {
        assert BatchRow(before, last, t, id);
      }
    }
  }
}
