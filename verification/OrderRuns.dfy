/** How orders are fulfilled, paid and unpaid over whole runs of the shop. */
module OrderRuns {
  import opened Wrappers
  import opened ShopState
  import opened Pricing
  import opened Carts
  import opened Promotions
  import opened Orders
  import opened Subscriptions
  import opened ShopRuns

  // ── One row, one step ─────────────────────────────────────────────────────

  predicate IsPaid(s: State, o: Id) {
    o in s.orders && s.orders[o].payment == Paid
  }

  /** The step records a success of the order, or an operator marks it paid. */
  predicate Pays(s: State, st: Step, o: Id) {
    || SettledBy(s, st) == Some(o)
    || (&& st.OrderStep? && st.op.EditPayment? && st.op.order == o
        && o in s.orders && s.orders[o].tenant == st.op.tenant && st.op.newPayment == Paid)
  }

  /** The step reports something else than a success of the order: a first failed event, an answer or notification
      of MercadoPago in any other state, or an operator's edit. */
  predicate Unpays(s: State, st: Step, o: Id) {
    && o in s.orders && st.OrderStep?
    && match st.op
       case StripeFailed(event, failed) => failed == Some(o) && event !in s.stripeEvents
       case MpReport(order, _, status) => order == o && PaymentFor(status) != Paid
       case MpWebhook(payment, order, status) =>
         order == o && s.orders[o].mpPayment == Some(payment) && PaymentFor(status) != Paid
       case EditPayment(tenant, order, newPayment) =>
         order == o && s.orders[o].tenant == tenant && newPayment != Paid
       case _ => false
  }

  /** The fulfilment status a step leaves. */
  function StatusAfter(s: State, st: Step, o: Id): OrderStatus
    requires o in s.orders
  {
    if st.OrderStep? && st.op.SetStatus? && st.op.order == o && StatusAccepted(s, st.op.tenant, o, st.op.newStatus)
    then st.op.newStatus else s.orders[o].status
  }

  /** The step is a synchronous answer of MercadoPago for the order, which may bring a payment id. */
  predicate Reports(st: Step, o: Id) {
    st.OrderStep? && st.op.MpReport? && st.op.order == o
  }

  /** What a step does to the row of an order. */
  ghost predicate OrderRowStep(s: State, st: Step, t: State, o: Id) {
    && (o in s.orders ==>
          && o in t.orders
          && t.orders[o].status == StatusAfter(s, st, o)
          && (!Reports(st, o) ==> t.orders[o].mpPayment == s.orders[o].mpPayment)
          && (t.orders[o].payment == Paid <==> Pays(s, st, o) || (s.orders[o].payment == Paid && !Unpays(s, st, o))))
    && (o !in s.orders && o in t.orders ==> t.orders[o].payment == Pending && t.orders[o].status == Received)
  }

  lemma MpRow(s: State, order: Id, payment: Id, status: MpStatus, o: Id)
    requires order in s.orders
    ensures OrderRowStep(s, OrderStep(MpReport(order, payment, status)),
                         After(s, ApplyMpStatus(s, order, payment, status)), o)
    ensures o in s.orders && (o != order || s.orders[o].mpPayment == Some(payment)) ==>
              After(s, ApplyMpStatus(s, order, payment, status)).orders[o].mpPayment == s.orders[o].mpPayment
  {
    hide TakeLines, Redeem;
  }

  lemma StripeRow(s: State, event: Id, order: Option<Id>, intent: Id, o: Id)
    ensures var op := StripeSucceeded(event, order, intent);
            OrderRowStep(s, OrderStep(op), After(s, OrderAttempt(s, op)), o)
  {
    hide TakeLines, Redeem, PriceOf;
  }

  lemma StatusRow(s: State, tenant: Id, order: Id, status: OrderStatus, o: Id)
    ensures var op := SetStatus(tenant, order, status);
            OrderRowStep(s, OrderStep(op), After(s, OrderAttempt(s, op)), o)
  {
    hide OrderAttempt;
    StatusAcceptedIff(s, tenant, order, status);
  }

  lemma PlaceRow(s: State, op: OrderOp, o: Id)
    requires op.PlaceOrder?
    ensures OrderRowStep(s, OrderStep(op), After(s, OrderAttempt(s, op)), o)
  {
    hide PriceOf, Without;
  }

  lemma WebhookRow(s: State, payment: Id, order: Id, status: MpStatus, o: Id)
    ensures var op := MpWebhook(payment, order, status);
            OrderRowStep(s, OrderStep(op), After(s, OrderAttempt(s, op)), o)
  {
    hide ApplyMpStatus;
    if order in s.orders { MpRow(s, order, payment, status, o); }
  }

  lemma ReportRow(s: State, order: Id, payment: Id, status: MpStatus, o: Id)
    ensures var op := MpReport(order, payment, status);
            OrderRowStep(s, OrderStep(op), After(s, OrderAttempt(s, op)), o)
  {
    hide ApplyMpStatus;
    if order in s.orders { MpRow(s, order, payment, status, o); }
  }

  lemma OneColumnRow(s: State, op: OrderOp, o: Id)
    requires op.AttachIntent? || op.StripeFailed? || op.EditPayment?
    ensures OrderRowStep(s, OrderStep(op), After(s, OrderAttempt(s, op)), o)
  {
    hide Place, ApplyMpStatus, ChangeStatus, StripeSuccess, StatusAccepted;
  }

  lemma OrderRow(s: State, op: OrderOp, o: Id)
    ensures OrderRowStep(s, OrderStep(op), After(s, OrderAttempt(s, op)), o)
  {
    hide OrderAttempt, OrderRowStep;
    match op {
      case PlaceOrder(_, _, _, _, _, _) => PlaceRow(s, op, o);
      case MpReport(order, payment, status) => ReportRow(s, order, payment, status, o);
      case MpWebhook(payment, order, status) => WebhookRow(s, payment, order, status, o);
      case StripeSucceeded(event, order, intent) => StripeRow(s, event, order, intent, o);
      case SetStatus(tenant, order, status) => StatusRow(s, tenant, order, status, o);
      case _ => OneColumnRow(s, op, o);
    }
  }

  lemma SubRow(s: State, op: SubOp, o: Id)
    ensures OrderRowStep(s, SubStep(op), After(s, SubAttempt(s, op)), o)
  {
    hide ActiveClash;
  }

  /** After a step an order is paid exactly when the step pays it, or it was paid and the step does not unpay it;
      its status is the accepted change's; and a new order is pending and received. */
  lemma OrderAfter(s: State, st: Step, o: Id)
    ensures OrderRowStep(s, st, Apply(s, st), o)
  {
    hide OrderAttempt, PromoAttempt, CartAttempt, SubAttempt;
    match st {
      case Tick(_) =>
      case EditVariant(_, _, _) =>
      case PromoStep(tenant, op) => PromoOpFrame(s, tenant, op);
      case CartStep(tenant, customer, op) => CartOpFrame(s, tenant, customer, op);
      case OrderStep(op) => OrderRow(s, op, o);
      case SubStep(op) => SubRow(s, op, o);
    }
  }

  // ── Paid, over runs ───────────────────────────────────────────────────────

  /** The first `i` steps of the run leave the order paid by their last step (or it was paid from the start), and
      no step after them unpays it. */
  predicate PaidSince(s: State, run: seq<Step>, i: nat, o: Id) {
    && i <= |run|
    && (if i == 0 then IsPaid(s, o) else Pays(Run(s, run[..i - 1]), run[i - 1], o))
    && forall j | i <= j < |run| :: !Unpays(Run(s, run[..j]), run[j], o)
  }

  lemma PaidSinceLast(s: State, run: seq<Step>, i: nat, o: Id)
    requires run != []
    ensures var init, last := run[..|run| - 1], run[|run| - 1];
            && (i < |run| ==> (PaidSince(s, run, i, o) <==> PaidSince(s, init, i, o) && !Unpays(Run(s, init), last, o)))
            && (i == |run| ==> (PaidSince(s, run, i, o) <==> Pays(Run(s, init), last, o)))
            && (i > |run| ==> !PaidSince(s, run, i, o))
  {
    hide Run, Pays, Unpays;
    var init := run[..|run| - 1];
    assert forall j :: 0 <= j <= |init| ==> run[..j] == init[..j];
    assert run[..|init|] == init && init[..|init|] == init;
  }

  /** An order is paid at the end of a run if and only if nothing unpaid it since it was last paid. */
  lemma {:induction false} PaidAtEndIff(s: State, run: seq<Step>, o: Id)
    ensures IsPaid(Run(s, run), o) <==> exists i: nat :: PaidSince(s, run, i, o)
  {
    if run == [] {
      assert IsPaid(s, o) <==> PaidSince(s, run, 0, o);
    } else {
      hide Apply, Pays, Unpays, PaidSince;
      var init, last := run[..|run| - 1], run[|run| - 1];
      PaidAtEndIff(s, init, o);
      OrderAfter(Run(s, init), last, o);
      PaysAnOrder(Run(s, init), last, o);
      forall i: nat {
        PaidSinceLast(s, run, i, o);
      }
      PaidSinceLast(s, run, |run|, o);
      if i: nat :| PaidSince(s, init, i, o) {
        PaidSinceLast(s, run, i, o);
        assert i < |run| by { SinceWithin(s, init, i, o); }
      }
    }
  }

  lemma SinceWithin(s: State, run: seq<Step>, i: nat, o: Id)
    requires PaidSince(s, run, i, o)
    ensures i <= |run|
  {}

  lemma PaysAnOrder(s: State, st: Step, o: Id)
    ensures Pays(s, st, o) ==> o in s.orders && !Unpays(s, st, o)
  {}

  predicate PaidThroughout(s: State, run: seq<Step>, o: Id) {
    forall i | 0 <= i <= |run| :: IsPaid(Run(s, run[..i]), o)
  }

  predicate NeverUnpaid(s: State, run: seq<Step>, o: Id) {
    forall i | 0 <= i < |run| :: !Unpays(Run(s, run[..i]), run[i], o)
  }

  lemma ThroughoutLast(s: State, run: seq<Step>, o: Id)
    requires run != []
    ensures var init, last := run[..|run| - 1], run[|run| - 1];
            && (PaidThroughout(s, run, o) <==> PaidThroughout(s, init, o) && IsPaid(Run(s, run), o))
            && (NeverUnpaid(s, run, o) <==> NeverUnpaid(s, init, o) && !Unpays(Run(s, init), last, o))
  {
    hide Run, IsPaid, Unpays;
    var init := run[..|run| - 1];
    assert forall i :: 0 <= i <= |init| ==> run[..i] == init[..i];
    assert run[..|init|] == init && init[..|init|] == init && run[..|run|] == run;
  }

  /** "Paid" lasts through a run exactly when none of its steps unpays the order. */
  lemma {:induction false} StaysPaidIff(s: State, run: seq<Step>, o: Id)
    requires IsPaid(s, o)
    ensures PaidThroughout(s, run, o) <==> NeverUnpaid(s, run, o)
  {
    hide Apply, Pays, Unpays, IsPaid, NeverUnpaid;
    if run == [] {
      assert run[..0] == [];
      assert NeverUnpaid(s, run, o) by { NothingUnpays(s, o); }
    } else {
      var init, last := run[..|run| - 1], run[|run| - 1];
      ThroughoutLast(s, run, o);
      StaysPaidIff(s, init, o);
      if PaidThroughout(s, init, o) {
        assert init[..|init|] == init;
        StepStaysPaidIff(Run(s, init), last, o);
      }
    }
  }

  lemma NothingUnpays(s: State, o: Id)
    ensures NeverUnpaid(s, [], o)
  {}

  /** One step leaves a paid order paid exactly when it does not unpay it. */
  lemma StepStaysPaidIff(s: State, st: Step, o: Id)
    requires IsPaid(s, o)
    ensures IsPaid(Apply(s, st), o) <==> !Unpays(s, st, o)
  {
    hide Apply, Pays, Unpays;
    OrderAfter(s, st, o);
    PaysAnOrder(s, st, o);
  }

  /** An accepted cancellation gives stock and coupon back exactly when the order is still paid at that moment;
      otherwise it changes neither. */
  lemma CancellationRestoresIff(s: State, run: seq<Step>, tenant: Id, o: Id)
    requires StatusAccepted(Run(s, run), tenant, o, Cancelled) && Run(s, run).orders[o].status != Cancelled
    ensures var before, cancel := Run(s, run), OrderStep(SetStatus(tenant, o, Cancelled));
            && (RestoredBy(before, cancel) == Some(o) <==> exists i: nat :: PaidSince(s, run, i, o))
            && (!(exists i: nat :: PaidSince(s, run, i, o)) ==>
                  Apply(before, cancel).variants == before.variants && Apply(before, cancel).codes == before.codes)
  {
    hide Run, PaidSince, GiveLines, Unredeem;
    PaidAtEndIff(s, run, o);
  }

  /** Paid is not final, and what was taken can be lost: a late failed event followed by a cancellation leaves a
      paid order cancelled with no stock and no coupon given back. */
  lemma FailedThenCancelled(s: State, event: Id, o: Id)
    requires IsPaid(s, o) && s.orders[o].status == Received && event !in s.stripeEvents
    ensures var fail := OrderStep(StripeFailed(event, Some(o)));
            var cancel := OrderStep(SetStatus(s.orders[o].tenant, o, Cancelled));
            var t := Run(s, [fail, cancel]);
            && Attempt(s, fail).Ok? && Attempt(Apply(s, fail), cancel).Ok?
            && t.orders == s.orders[o := s.orders[o].(payment := Failed, status := Cancelled)]
            && t.variants == s.variants && t.codes == s.codes
  {
    hide GiveLines, Unredeem, PriceOf, TakeLines;
    var fail := OrderStep(StripeFailed(event, Some(o)));
    RunTwo(s, fail, OrderStep(SetStatus(s.orders[o].tenant, o, Cancelled)));
  }

  // ── A payment approved later ──────────────────────────────────────────────

  /** The step reports no other MercadoPago payment for the order. */
  predicate NoOtherPayment(st: Step, o: Id, payment: Id) {
    Reports(st, o) ==> st.op.payment == payment
  }

  lemma StepKeepsPayment(s: State, st: Step, o: Id, payment: Id)
    requires o in s.orders && s.orders[o].mpPayment == Some(payment) && NoOtherPayment(st, o, payment)
    ensures o in Apply(s, st).orders && Apply(s, st).orders[o].mpPayment == Some(payment)
  {
    if Reports(st, o) {
      hide OrderAttempt;
      MpReportEffect(s, o, payment, st.op.status);
    } else {
      hide Apply;
      OrderAfter(s, st, o);
    }
  }

  lemma {:induction false} PaymentStays(s: State, run: seq<Step>, o: Id, payment: Id)
    requires o in s.orders && s.orders[o].mpPayment == Some(payment)
    requires forall st :: st in run ==> NoOtherPayment(st, o, payment)
    ensures o in Run(s, run).orders && Run(s, run).orders[o].mpPayment == Some(payment)
  {
    hide Apply, NoOtherPayment;
    if run != [] {
      var init, last := run[..|run| - 1], run[|run| - 1];
      assert last in run && forall st :: st in init ==> st in run;
      PaymentStays(s, init, o, payment);
      StepKeepsPayment(Run(s, init), last, o, payment);
    }
  }

  /** A payment that was not approved at once is found and settled by the webhook that approves it, through any run in
      which no other payment is reported for the order - unless that approval was already recorded in between. */
  lemma ApprovedLater(s: State, order: Id, payment: Id, status: MpStatus, run: seq<Step>)
    requires order in s.orders && status != Approved
    requires forall st :: st in run ==> NoOtherPayment(st, order, payment)
    ensures var report := OrderStep(MpReport(order, payment, status));
            var webhook := OrderStep(MpWebhook(payment, order, Approved));
            var t := Run(Apply(s, report), run);
            && order in t.orders && t.orders[order].mpPayment == Some(payment)
            && (payment !in t.mpEvents ==> SettledBy(t, webhook) == Some(order) && IsPaid(Apply(t, webhook), order))
            && (payment in t.mpEvents ==> Apply(t, webhook) == t)
  {
    hide OrderAttempt, Run;
    MpReportEffect(s, order, payment, status);
    var reported := Apply(s, OrderStep(MpReport(order, payment, status)));
    PaymentStays(reported, run, order, payment);
    var t := Run(reported, run);
    MpWebhookEffect(t, payment, order, Approved);
    MpReportEffect(t, order, payment, Approved);
  }

  /** And right after the report, when no other order had the payment recorded. */
  lemma ApprovedNext(s: State, order: Id, payment: Id, status: MpStatus)
    requires order in s.orders && status != Approved && payment !in s.mpEvents
    ensures SettledBy(Apply(s, OrderStep(MpReport(order, payment, status))),
                      OrderStep(MpWebhook(payment, order, Approved))) == Some(order)
  {
    hide OrderAttempt;
    MpReportEffect(s, order, payment, status);
  }

  // ── Fulfilment, over runs ─────────────────────────────────────────────────

  predicate IsTerminal(s: State, o: Id, status: OrderStatus) {
    o in s.orders && s.orders[o].status == status && status in {Delivered, Cancelled}
  }

  /** Delivered and cancelled orders stay so in every run. */
  lemma {:induction false} TerminalStays(s: State, run: seq<Step>, o: Id, status: OrderStatus)
    requires IsTerminal(s, o, status)
    ensures IsTerminal(Run(s, run), o, status)
  {
    hide Apply;
    if run != [] {
      TerminalStays(s, run[..|run| - 1], o, status);
      OrderAfter(Run(s, run[..|run| - 1]), run[|run| - 1], o);
    }
  }

  /** Fulfilment never moves back: along any run an order goes on through received, preparing, shipped and
      delivered, or to cancelled. */
  lemma {:induction false} FulfilmentMovesForward(s: State, run: seq<Step>, o: Id)
    requires o in s.orders
    ensures o in Run(s, run).orders && Progress(s.orders[o].status) <= Progress(Run(s, run).orders[o].status)
  {
    hide Apply;
    if run != [] {
      FulfilmentMovesForward(s, run[..|run| - 1], o);
      OrderAfter(Run(s, run[..|run| - 1]), run[|run| - 1], o);
    }
  }

  function Restorations(s: State, run: seq<Step>, o: Id): nat {
    if run == [] then 0
    else
      var init, last := run[..|run| - 1], run[|run| - 1];
      Restorations(s, init, o) + (if RestoredBy(Run(s, init), last) == Some(o) then 1 else 0)
  }

  lemma RestoringCancels(s: State, st: Step, o: Id)
    requires RestoredBy(s, st) == Some(o)
    ensures IsTerminal(Apply(s, st), o, Cancelled)
  {
    hide Apply;
    OrderAfter(s, st, o);
  }

  /** No order's stock and coupon are ever given back twice, manual payment edits and late payments included. */
  lemma {:induction false} RestoredAtMostOnce(s: State, run: seq<Step>, o: Id)
    ensures Restorations(s, run, o) <= 1
    ensures Restorations(s, run, o) == 1 ==> IsTerminal(Run(s, run), o, Cancelled)
  {
    hide Apply;
    if run != [] {
      var init, last := run[..|run| - 1], run[|run| - 1];
      var before := Run(s, init);
      RestoredAtMostOnce(s, init, o);
      OrderAfter(before, last, o);
      if RestoredBy(before, last) == Some(o) {
        RestoringCancels(before, last, o);
      }
    }
  }
}
