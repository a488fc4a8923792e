/** Whole-run accounting of coupons and stock, and what redelivered payment events can do: nothing. */
module LedgerRuns {
  import opened Wrappers
  import opened Sets
  import opened ShopState
  import opened Pricing
  import opened Carts
  import opened Promotions
  import opened Orders
  import opened Subscriptions
  import opened ShopRuns
  import opened OrderRuns

  // ── Coupons ───────────────────────────────────────────────────────────────

  /** The step neither deletes nor renames the code. */
  predicate KeepsName(st: Step, k: CodeKey) {
    match st
    case PromoStep(tenant, op) => (
      match op
      case RemoveCode(c) => CodeKey(tenant, c) != k
      case UpdateCode(c, change) => CodeKey(tenant, c) != k || change.code.Keep? || change.code.value == c
      case _ => true)
    case _ => true
  }

  /** Nor does it mark an order paid by hand. */
  predicate LedgerStep(st: Step, k: CodeKey) {
    KeepsName(st, k) && !(st.OrderStep? && st.op.EditPayment? && st.op.newPayment == Paid)
  }

  /** 1 when the step records a payment success of an order carrying the code. */
  function Settles(s: State, st: Step, k: CodeKey): nat {
    match SettledBy(s, st)
    case Some(o) => if o in s.orders && Carries(s.orders[o], k) then 1 else 0
    case None => 0
  }

  /** 1 when the step cancels a paid order carrying the code. */
  function Restores(s: State, st: Step, k: CodeKey): nat {
    match RestoredBy(s, st)
    case Some(o) => if o in s.orders && Carries(s.orders[o], k) then 1 else 0
    case None => 0
  }

  function Successes(s: State, run: seq<Step>, k: CodeKey): nat {
    if run == [] then 0
    else Successes(s, run[..|run| - 1], k) + Settles(Run(s, run[..|run| - 1]), run[|run| - 1], k)
  }

  function Cancellations(s: State, run: seq<Step>, k: CodeKey): nat {
    if run == [] then 0
    else Cancellations(s, run[..|run| - 1], k) + Restores(Run(s, run[..|run| - 1]), run[|run| - 1], k)
  }

  /** Paid, not cancelled, and carrying the code: the orders whose cancellation would give it back. */
  predicate LiveRow(o: Order, k: CodeKey) {
    o.payment == Paid && o.status != Cancelled && Carries(o, k)
  }

  function Live(s: State, k: CodeKey): set<Id> {
    set o | o in s.orders && LiveRow(s.orders[o], k)
  }

  /** A row becomes live only by a settlement, and stops being live when it is restored. */
  ghost predicate LiveStep(s: State, st: Step, t: State, k: CodeKey, o: Id) {
    && (o in Live(t, k) ==>
          o in Live(s, k) || (SettledBy(s, st) == Some(o) && o in s.orders && Carries(s.orders[o], k)))
    && (RestoredBy(s, st) == Some(o) ==> o !in Live(t, k))
  }

  lemma StepLive(s: State, st: Step, k: CodeKey, o: Id)
    requires LedgerStep(st, k)
    ensures LiveStep(s, st, Apply(s, st), k, o)
  {
    hide Apply;
    OrderAfter(s, st, o);
    StepKeepsSnapshots(s, st);
  }

  /** The live orders grow by at most the settlement and shrink by the restoration of the step. */
  lemma StepLiveCount(s: State, st: Step, k: CodeKey)
    requires LedgerStep(st, k)
    ensures |Live(Apply(s, st), k)| <= |Live(s, k)| + Settles(s, st, k) - Restores(s, st, k)
  {
    hide Apply;
    var before, after := Live(s, k), Live(Apply(s, st), k);
    var settled := if Settles(s, st, k) == 1 then {SettledBy(s, st).value} else {};
    var restored := if Restores(s, st, k) == 1 then {RestoredBy(s, st).value} else {};
    forall o | o in after ensures o in (before + settled) - restored {
      StepLive(s, st, k, o);
    }
    NotBoth(s, st);
    SubsetSize(after, (before + settled) - restored);
    if Restores(s, st, k) == 1 {
      RestoredWasLive(s, st, k);
      assert (before + settled) - restored == before - restored;
    }
  }

  lemma RestoredWasLive(s: State, st: Step, k: CodeKey)
    requires Restores(s, st, k) == 1
    ensures RestoredBy(s, st).value in Live(s, k) && 1 <= |Live(s, k)|
  {
    assert RestoredBy(s, st).value in Live(s, k);
  }

  /** 1 when the cancellation of a paid order carrying the code meets a counter of zero, which stays as it is. */
  function Swallows(s: State, st: Step, k: CodeKey): nat {
    if k in s.codes && s.codes[k].timesRedeemed <= 0 then Restores(s, st, k) else 0
  }

  function Swallowed(s: State, run: seq<Step>, k: CodeKey): nat {
    if run == [] then 0
    else Swallowed(s, run[..|run| - 1], k) + Swallows(Run(s, run[..|run| - 1]), run[|run| - 1], k)
  }

  lemma StepCounter(s: State, st: Step, k: CodeKey)
    requires k in s.codes && KeepsName(st, k)
    ensures var t := Apply(s, st);
            && k in t.codes
            && t.codes[k].timesRedeemed
               == s.codes[k].timesRedeemed + Settles(s, st, k) - Restores(s, st, k) + Swallows(s, st, k)
  {
    hide OrderAttempt, PromoAttempt, CartAttempt, SubAttempt;
    match st {
      case Tick(_) =>
      case EditVariant(_, _, _) =>
      case PromoStep(tenant, op) => PromoOpKeepsCounters(s, tenant, op, k);
      case CartStep(tenant, customer, op) => CartOpFrame(s, tenant, customer, op);
      case OrderStep(op) => OrderCodes(s, op, k);
      case SubStep(op) => SubOpFrame(s, op);
    }
  }

  /** The counter's account. In any run over which the code keeps its name, manual payment edits included, its counter
      is the initial value plus the recorded successes of orders carrying it, minus the cancellations of paid orders
      carrying it that the positive-counter guard let through. */
  lemma {:induction false} CounterAccount(s: State, run: seq<Step>, k: CodeKey)
    requires k in s.codes
    requires forall st :: st in run ==> KeepsName(st, k)
    ensures var t := Run(s, run);
            && k in t.codes
            && t.codes[k].timesRedeemed
               == s.codes[k].timesRedeemed + Successes(s, run, k) - (Cancellations(s, run, k) - Swallowed(s, run, k))
            && Swallowed(s, run, k) <= Cancellations(s, run, k)
  {
    hide Apply, Settles, Restores, KeepsName;
    if run != [] {
      var init, last := run[..|run| - 1], run[|run| - 1];
      assert last in run && forall st :: st in init ==> st in run;
      CounterAccount(s, init, k);
      StepCounter(Run(s, init), last, k);
    }
  }

  /** The coupon ledger: when besides no order is marked paid by hand, the cancellations never outnumber the successes
      and the orders live at the start; and when the counter starts no lower than the live orders, it stays so and
      the guard lets every cancellation through. */
  lemma {:induction false} CouponLedger(s: State, run: seq<Step>, k: CodeKey)
    requires k in s.codes
    requires forall st :: st in run ==> LedgerStep(st, k)
    ensures var t := Run(s, run);
            && k in t.codes
            && t.codes[k].timesRedeemed
               == s.codes[k].timesRedeemed + Successes(s, run, k) - (Cancellations(s, run, k) - Swallowed(s, run, k))
            && |Live(t, k)| <= |Live(s, k)| + Successes(s, run, k) - Cancellations(s, run, k)
            && Swallowed(s, run, k) <= Cancellations(s, run, k) <= Successes(s, run, k) + |Live(s, k)|
            && (|Live(s, k)| <= s.codes[k].timesRedeemed ==>
                  Swallowed(s, run, k) == 0 && |Live(t, k)| <= t.codes[k].timesRedeemed)
  {
    hide Apply, Live, Settles, Restores, KeepsName;
    CounterAccount(s, run, k);
    if run != [] {
      var init, last := run[..|run| - 1], run[|run| - 1];
      assert last in run && forall st :: st in init ==> st in run;
      CouponLedger(s, init, k);
      var before := Run(s, init);
      StepLiveCount(before, last, k);
      RestoresOne(before, last, k);
      if Restores(before, last, k) == 1 {
        RestoredWasLive(before, last, k);
      }
    }
  }

  lemma RestoresOne(s: State, st: Step, k: CodeKey)
    ensures Restores(s, st, k) <= 1 && Settles(s, st, k) <= 1
  {}

  // ── Stock ─────────────────────────────────────────────────────────────────

  /** Units of `v` that a step takes: the demand of the settled order less the skipped units. */
  function TakenBy(s: State, st: Step, v: Id): int
    requires v in s.variants
  {
    match SettledBy(s, st)
    case Some(o) =>
      if o in s.orders
      then Demand(s.orders[o].items, v) - Skipped(s.variants[v].stock, s.orders[o].items, v) else 0
    case None => 0
  }

  /** Units of `v` that a step gives back: the whole demand of the restored order. */
  function GivenBy(s: State, st: Step, v: Id): int {
    match RestoredBy(s, st)
    case Some(o) => if o in s.orders then Demand(s.orders[o].items, v) else 0
    case None => 0
  }

  function Taken(s: State, run: seq<Step>, v: Id): int
    requires v in s.variants
  {
    if run == [] then 0
    else
      var before := Run(s, run[..|run| - 1]);
      RunKeepsVariant(s, run[..|run| - 1], v);
      Taken(s, run[..|run| - 1], v) + TakenBy(before, run[|run| - 1], v)
  }

  function Given(s: State, run: seq<Step>, v: Id): int {
    if run == [] then 0
    else Given(s, run[..|run| - 1], v) + GivenBy(Run(s, run[..|run| - 1]), run[|run| - 1], v)
  }

  lemma {:induction false} RunKeepsVariant(s: State, run: seq<Step>, v: Id)
    ensures v in Run(s, run).variants <==> v in s.variants
  {
    hide Apply;
    if run != [] {
      RunKeepsVariant(s, run[..|run| - 1], v);
      VariantAfter(Run(s, run[..|run| - 1]), run[|run| - 1], v);
    }
  }

  /** The stock ledger: in any run a variant's stock is its initial stock minus what the recorded successes took
      plus what the cancellations of paid orders gave back. Nothing else moves stock. */
  lemma {:induction false} StockLedger(s: State, run: seq<Step>, v: Id)
    requires v in s.variants
    ensures var t := Run(s, run);
            v in t.variants && t.variants[v].stock == s.variants[v].stock - Taken(s, run, v) + Given(s, run, v)
  {
    hide Apply;
    if run != [] {
      var init, last := run[..|run| - 1], run[|run| - 1];
      StockLedger(s, init, v);
      VariantAfter(Run(s, init), last, v);
      NotBoth(Run(s, init), last);
    }
  }

  lemma NotBoth(s: State, st: Step)
    ensures SettledBy(s, st).None? || RestoredBy(s, st).None?
  {}

  // ── How low stock can go ──────────────────────────────────────────────────

  /** Every stored line asks for between 1 and `q` units. */
  predicate LinesWithin(orders: map<Id, Order>, q: int) {
    forall o :: o in orders ==> forall l :: l in orders[o].items ==> 1 <= l.quantity <= q
  }

  predicate AsksWithin(st: Step, q: int) {
    st.OrderStep? && st.op.PlaceOrder? ==> forall i :: i in st.op.items ==> i.quantity <= q
  }

  lemma PlaceKeepsLinesWithin(s: State, op: OrderOp, q: int)
    requires op.PlaceOrder? && OrderOpOk(op) && AsksWithin(OrderStep(op), q) && LinesWithin(s.orders, q)
    ensures LinesWithin(After(s, OrderAttempt(s, op)).orders, q)
  {
    var r := PriceOf(s, op.tenant, op.items, op.mode, op.code, Some(op.customer));
    if r.Ok? {
      forall l | l in r.value.lines ensures 1 <= l.quantity <= q {
        var j :| 0 <= j < |r.value.lines| && r.value.lines[j] == l;
        assert op.items[j] in op.items;
      }
    }
  }

  lemma StepKeepsLinesWithin(s: State, st: Step, q: int)
    requires 1 <= q && StepOk(st) && AsksWithin(st, q) && LinesWithin(s.orders, q)
    ensures LinesWithin(Apply(s, st).orders, q)
  {
    hide OrderAttempt, PromoAttempt, CartAttempt, SubAttempt;
    match st {
      case Tick(_) =>
      case EditVariant(_, _, _) =>
      case PromoStep(tenant, op) => PromoOpFrame(s, tenant, op);
      case CartStep(tenant, customer, op) => CartOpFrame(s, tenant, customer, op);
      case OrderStep(op) =>
        if op.PlaceOrder? {
          PlaceKeepsLinesWithin(s, op, q);
        } else {
          OrderOpKeepsSnapshots(s, op);
          OnlyCheckoutAdds(s, op);
        }
      case SubStep(op) =>
        SubOpKeepsSnapshots(s, op);
        RenewalsAreSingle(s, op);
    }
  }

  lemma RenewalsAreSingle(s: State, op: SubOp)
    ensures var t := After(s, SubAttempt(s, op));
            forall o :: o in t.orders && o !in s.orders ==> forall l :: l in t.orders[o].items ==> l.quantity == 1
  {
    hide ActiveClash;
  }

  /** How low stock can go: while no line asks for more than `q` units, no stock that starts at 1 - q or above
      ever falls below 1 - q; with single-unit lines it never goes negative. */
  lemma {:induction false} StockNeverBelow(s: State, run: seq<Step>, q: int, v: Id)
    requires 1 <= q && RunOk(run) && LinesWithin(s.orders, q)
    requires forall st :: st in run ==> AsksWithin(st, q)
    requires v in s.variants && 1 - q <= s.variants[v].stock
    ensures var t := Run(s, run);
            LinesWithin(t.orders, q) && v in t.variants && 1 - q <= t.variants[v].stock
  {
    hide Apply;
    if run != [] {
      var init, last := run[..|run| - 1], run[|run| - 1];
      assert last in run && forall st :: st in init ==> st in run;
      StockNeverBelow(s, init, q, v);
      var before := Run(s, init);
      StepKeepsLinesWithin(before, last, q);
      VariantAfter(before, last, v);
      if SettledBy(before, last).Some? {
        StockFloor(before.variants[v].stock, before.orders[SettledBy(before, last).value].items, v, q);
      } else if RestoredBy(before, last).Some? {
        var items := before.orders[RestoredBy(before, last).value].items;
        DemandMonotone(items, v, |items|);
        assert items[..|items|] == items;
      }
    }
  }

  // ── Redelivery ────────────────────────────────────────────────────────────

  datatype Event = StripeEvent(id: Id) | MpEvent(id: Id)

  /** The key under which a delivery is recorded. MercadoPago only records approved payments. */
  function EventOf(st: Step): Option<Event> {
    match st
    case OrderStep(op) => (
      match op
      case StripeSucceeded(event, order, _) => if order.Some? then Some(StripeEvent(event)) else None
      case StripeFailed(event, order) => if order.Some? then Some(StripeEvent(event)) else None
      case MpReport(_, payment, status) => if status == Approved then Some(MpEvent(payment)) else None
      case MpWebhook(payment, _, status) => if status == Approved then Some(MpEvent(payment)) else None
      case _ => None)
    case SubStep(op) => (
      match op
      case SetupSucceeded(event, sub) => if sub.Some? then Some(StripeEvent(event)) else None
      case _ => None)
    case _ => None
  }

  predicate Recorded(s: State, e: Event) {
    match e
    case StripeEvent(id) => id in s.stripeEvents
    case MpEvent(id) => id in s.mpEvents
  }

  predicate Redelivery(s: State, st: Step) {
    EventOf(st).Some? && Recorded(s, EventOf(st).value)
  }

  lemma RedeliveryDoesNothing(s: State, st: Step)
    requires Redelivery(s, st)
    ensures Apply(s, st) == s
  {
    hide PriceOf, TakeLines, GiveLines, ActiveClash;
  }

  lemma StepKeepsRecords(s: State, st: Step, e: Event)
    requires Recorded(s, e)
    ensures Recorded(Apply(s, st), e)
  {
    hide OrderAttempt, PromoAttempt, CartAttempt, SubAttempt;
    match st {
      case Tick(_) =>
      case EditVariant(_, _, _) =>
      case PromoStep(tenant, op) => PromoOpFrame(s, tenant, op);
      case CartStep(tenant, customer, op) => CartOpFrame(s, tenant, customer, op);
      case OrderStep(op) => OrderOpFrame(s, op);
      case SubStep(op) => SubOpFrame(s, op);
    }
  }

  lemma {:induction false} RunKeepsRecords(s: State, run: seq<Step>, e: Event)
    requires Recorded(s, e)
    ensures Recorded(Run(s, run), e)
  {
    hide Apply;
    if run != [] {
      RunKeepsRecords(s, run[..|run| - 1], e);
      StepKeepsRecords(Run(s, run[..|run| - 1]), run[|run| - 1], e);
    }
  }

  /** The run with every redelivery left out. */
  function WithoutRedeliveries(s: State, run: seq<Step>): seq<Step> {
    if run == [] then []
    else
      var init, last := run[..|run| - 1], run[|run| - 1];
      WithoutRedeliveries(s, init) + (if Redelivery(Run(s, init), last) then [] else [last])
  }

  predicate NoRedelivery(s: State, run: seq<Step>) {
    forall i :: 0 <= i < |run| ==> !Redelivery(Run(s, run[..i]), run[i])
  }

  /** At-least-once delivery is as good as exactly-once: leaving every redelivery out of a run gives a run without
      redeliveries that ends in the same orders, stock, coupons and subscriptions. */
  lemma {:induction false} RedeliveriesDoNotMatter(s: State, run: seq<Step>)
    ensures Run(s, WithoutRedeliveries(s, run)) == Run(s, run)
    ensures NoRedelivery(s, WithoutRedeliveries(s, run))
  {
    hide Apply, Redelivery;
    if run != [] {
      var init, last := run[..|run| - 1], run[|run| - 1];
      RedeliveriesDoNotMatter(s, init);
      var kept := WithoutRedeliveries(s, init);
      if Redelivery(Run(s, init), last) {
        RedeliveryDoesNothing(Run(s, init), last);
        assert WithoutRedeliveries(s, run) == kept;
      } else {
        var whole := kept + [last];
        assert WithoutRedeliveries(s, run) == whole && whole[..|whole| - 1] == kept;
        forall i | 0 <= i < |whole| ensures !Redelivery(Run(s, whole[..i]), whole[i]) {
          if i < |kept| {
            assert whole[..i] == kept[..i];
          }
        }
      }
    }
  }

  /** A delivery that was recorded can be repeated anywhere later, by the same or by the other channel that
      reports the same payment, without any effect on the rest of the run. */
  lemma DuplicateDelivery(s: State, a: seq<Step>, first: Step, b: seq<Step>, again: Step, c: seq<Step>)
    requires EventOf(first).Some? && EventOf(again) == EventOf(first)
    requires Recorded(Apply(Run(s, a), first), EventOf(first).value)
    ensures Run(s, a + [first] + b + [again] + c) == Run(s, a + [first] + b + c)
  {
    hide Apply, EventOf, Recorded;
    var ab := a + [first];
    assert ab[..|ab| - 1] == a && ab[|ab| - 1] == first;
    assert Run(s, ab) == Apply(Run(s, a), first);
    RunConcat(s, ab, b);
    var abb := ab + b;
    RunKeepsRecords(Run(s, ab), b, EventOf(first).value);
    RedeliveryDoesNothing(Run(s, abb), again);
    var repeated := abb + [again];
    assert repeated[..|repeated| - 1] == abb && repeated[|repeated| - 1] == again;
    assert Run(s, repeated) == Apply(Run(s, abb), again) == Run(s, abb);
    RunConcat(s, repeated, c);
    RunConcat(s, abb, c);
  }

  /** The synchronous answer of MercadoPago, once approved for an existing order, is recorded: the webhook that
      reports the same payment later changes nothing. */
  lemma SyncThenWebhook(s: State, a: seq<Step>, order: Id, payment: Id, b: seq<Step>, found: Id, c: seq<Step>)
    requires order in Run(s, a).orders
    ensures var sync := OrderStep(MpReport(order, payment, Approved));
            var webhook := OrderStep(MpWebhook(payment, found, Approved));
            Run(s, a + [sync] + b + [webhook] + c) == Run(s, a + [sync] + b + c)
  {
    hide PriceOf, TakeLines, GiveLines;
    var sync := OrderStep(MpReport(order, payment, Approved));
    var webhook := OrderStep(MpWebhook(payment, found, Approved));
    assert Recorded(Apply(Run(s, a), sync), MpEvent(payment));
    DuplicateDelivery(s, a, sync, b, webhook, c);
  }
}
