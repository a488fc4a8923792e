/** Redemption counters over whole runs: when a limit can be passed, and when a cancellation is not counted. */
module RedemptionRuns {
  import opened Wrappers
  import opened Sets
  import opened ShopState
  import opened Pricing
  import opened Promotions
  import opened Orders
  import opened ShopRuns
  import opened OrderRuns
  import opened LedgerRuns
  import opened Cancellations
  import opened OneUseRuns

  // ── Orders carrying a code ────────────────────────────────────────────────

  /** The orders carrying the code, paid or not. */
  function Carriers(s: State, k: CodeKey): set<Id> {
    set o | o in s.orders && Carries(s.orders[o], k)
  }

  /** The step is a checkout with the code. */
  predicate ChecksOutWith(st: Step, k: CodeKey) {
    st.OrderStep? && st.op.PlaceOrder? && st.op.tenant == k.tenant && st.op.code == Some(k.code)
  }

  /** A step without such a checkout leaves the carriers as they are; a checkout adds at most its own order. */
  lemma StepCarriers(s: State, st: Step, k: CodeKey)
    ensures var before, after := Carriers(s, k), Carriers(Apply(s, st), k);
            && before <= after
            && (if ChecksOutWith(st, k) then after <= before + {st.op.order} else after == before)
  {
    hide Apply;
    var t := Apply(s, st);
    StepKeepsSnapshots(s, st);
    forall o | o in Carriers(s, k) ensures o in Carriers(t, k) {
      assert SameSnapshot(s.orders[o], t.orders[o]);
    }
    forall o | o in Carriers(t, k) && o !in Carriers(s, k) ensures ChecksOutWith(st, k) && st.op.order == o {
      assert o in s.orders ==> SameSnapshot(s.orders[o], t.orders[o]);
      NewCarries(s, st, k, t.orders[o].customer, o);
    }
  }

  /** The orders settled by the end of a run, `done` being those settled before it. */
  function SettledIn(s: State, run: seq<Step>, done: set<Id>): set<Id> {
    if run == [] then done
    else
      var init, last := run[..|run| - 1], run[|run| - 1];
      SettledIn(s, init, done) + match SettledBy(Run(s, init), last) case Some(o) => {o} case None => {}
  }

  /** The run settles no order a second time: each success of an order is reported by one event. */
  predicate SettlesOnce(s: State, run: seq<Step>, done: set<Id>) {
    if run == [] then true
    else
      var init, last := run[..|run| - 1], run[|run| - 1];
      && SettlesOnce(s, init, done)
      && match SettledBy(Run(s, init), last) case Some(o) => o !in SettledIn(s, init, done) case None => true
  }

  predicate LedgerRun(run: seq<Step>, k: CodeKey) {
    forall st :: st in run ==> LedgerStep(st, k)
  }

  /** What may still be added to the counter when no further checkout takes place: the carriers not yet settled. */
  function Unsettled(s: State, run: seq<Step>, k: CodeKey, done: set<Id>): set<Id> {
    Carriers(Run(s, run), k) - SettledIn(s, run, done)
  }

  /** The counter together with the carriers still to be settled: one step does not raise the two together, except
      by the order of a checkout with the code. */
  lemma StepRoom(s: State, init: seq<Step>, last: Step, k: CodeKey, done: set<Id>)
    requires var run := init + [last];
             k in Run(s, init).codes && LedgerStep(last, k) && SettlesOnce(s, run, done)
    ensures var run := init + [last];
            var before, after := Run(s, init), Run(s, run);
            && k in after.codes
            && after.codes[k].timesRedeemed + |Unsettled(s, run, k, done)|
               <= before.codes[k].timesRedeemed + |Unsettled(s, init, k, done)| + if ChecksOutWith(last, k) then 1 else 0
  {
    hide Apply, Carriers;
    var run := init + [last];
    assert run[..|run| - 1] == init && run[|run| - 1] == last;
    var before := Run(s, init);
    StepCounter(before, last, k);
    StepCarriers(before, last, k);
    RestoresOne(before, last, k);
    var was, left := Unsettled(s, init, k, done), Unsettled(s, run, k, done);
    if Settles(before, last, k) == 1 {
      var o := SettledBy(before, last).value;
      SettlingIsNoCheckout(before, last, k);
      assert left == was - {o} && o in was by { SettledCarries(before, last, k); }
    } else {
      var added := if ChecksOutWith(last, k) then {last.op.order} else {};
      SubsetSize(left, was + added);
    }
  }

  lemma SettlingIsNoCheckout(s: State, st: Step, k: CodeKey)
    requires SettledBy(s, st).Some?
    ensures !ChecksOutWith(st, k)
  {}

  lemma SettledCarries(s: State, st: Step, k: CodeKey)
    requires Settles(s, st, k) == 1
    ensures SettledBy(s, st).value in Carriers(s, k)
  {}

  // ── Limits ────────────────────────────────────────────────────────────────

  predicate NoCheckouts(run: seq<Step>, k: CodeKey) {
    forall st :: st in run ==> !ChecksOutWith(st, k)
  }

  /** The run makes no further checkout with the code, keeps its name, marks nothing paid by hand, and ends with the
      counter past the limit. */
  predicate PassesAfter(s: State, run: seq<Step>, k: CodeKey, limit: int) {
    NoCheckouts(run, k) && LedgerRun(run, k) && k in Run(s, run).codes && Run(s, run).codes[k].timesRedeemed > limit
  }

  lemma {:induction false} RoomNeverGrows(s: State, run: seq<Step>, k: CodeKey, done: set<Id>)
    requires k in s.codes && NoCheckouts(run, k) && LedgerRun(run, k) && SettlesOnce(s, run, done)
    ensures var t := Run(s, run);
            k in t.codes
            && t.codes[k].timesRedeemed + |Unsettled(s, run, k, done)| <= s.codes[k].timesRedeemed + |Carriers(s, k) - done|
  {
    hide Apply, Carriers, KeepsName;
    if run == [] {
      assert Unsettled(s, run, k, done) == Carriers(s, k) - done;
    } else {
      var init, last := run[..|run| - 1], run[|run| - 1];
      assert run == init + [last];
      assert last in run && forall st :: st in init ==> st in run;
      RoomNeverGrows(s, init, k, done);
      StepRoom(s, init, last, k, done);
    }
  }

  /** The run settles each of some orders once, beside those settled before it, and counts every one of them. */
  predicate SettlesAll(s: State, run: seq<Step>, k: CodeKey, orders: set<Id>, done: set<Id>)
    requires k in s.codes
  {
    && NoCheckouts(run, k) && LedgerRun(run, k)
    && SettlesOnce(s, run, done) && SettledIn(s, run, done) == done + orders
    && k in Run(s, run).codes
    && Run(s, run).codes[k].timesRedeemed == s.codes[k].timesRedeemed + |orders|
  }

  lemma {:induction false} PayAll(s: State, k: CodeKey, orders: set<Id>, done: set<Id>) returns (run: seq<Step>)
    requires k in s.codes && orders <= Carriers(s, k) && orders !! done
    ensures SettlesAll(s, run, k, orders, done)
  {
    if orders == {} {
      run := [];
    } else {
      hide SettlesAll, Carriers;
      var x :| x in orders;
      var init := PayAll(s, k, orders - {x}, done);
      assert orders - {x} + {x} == orders;
      run := PayOneMore(s, init, k, orders - {x}, done, x);
    }
  }

  lemma PayOneMore(s: State, init: seq<Step>, k: CodeKey, orders: set<Id>, done: set<Id>, x: Id)
    returns (run: seq<Step>)
    requires k in s.codes && x in Carriers(s, k) && x !in orders && x !in done
    requires SettlesAll(s, init, k, orders, done)
    ensures SettlesAll(s, run, k, orders + {x}, done)
  {
    hide Run, Apply, Carriers, LedgerStep, ChecksOutWith, SettledBy, SettlesOnce, SettledIn, NoCheckouts, LedgerRun;
    CarriersStay(s, init, k);
    var last := PayOne(Run(s, init), k, x);
    SettleOneMore(s, init, last, x, done);
    QuietOneMore(init, last, k);
    RunSnoc(s, init, last);
    run := init + [last];
  }

  lemma QuietOneMore(init: seq<Step>, last: Step, k: CodeKey)
    requires NoCheckouts(init, k) && LedgerRun(init, k) && !ChecksOutWith(last, k) && LedgerStep(last, k)
    ensures NoCheckouts(init + [last], k) && LedgerRun(init + [last], k)
  {
    hide ChecksOutWith, LedgerStep;
  }

  lemma CarriersStay(s: State, run: seq<Step>, k: CodeKey)
    ensures Carriers(s, k) <= Carriers(Run(s, run), k)
  {
    hide Run;
    RunKeepsSnapshots(s, run);
    forall o | o in Carriers(s, k) ensures o in Carriers(Run(s, run), k) {
      assert SameSnapshot(s.orders[o], Run(s, run).orders[o]);
    }
  }

  lemma SettleOneMore(s: State, init: seq<Step>, last: Step, x: Id, done: set<Id>)
    requires SettlesOnce(s, init, done) && SettledBy(Run(s, init), last) == Some(x) && x !in SettledIn(s, init, done)
    ensures SettlesOnce(s, init + [last], done) && SettledIn(s, init + [last], done) == SettledIn(s, init, done) + {x}
  {
    hide Run, SettledBy;
    assert (init + [last])[..|init|] == init;
  }

  /** One delivery that settles a carrier. */
  lemma PayOne(s: State, k: CodeKey, x: Id) returns (st: Step)
    requires k in s.codes && x in Carriers(s, k)
    ensures !ChecksOutWith(st, k) && LedgerStep(st, k) && SettledBy(s, st) == Some(x)
    ensures x in Carriers(Apply(s, st), k) && k in Apply(s, st).codes
            && Apply(s, st).codes[k].timesRedeemed == s.codes[k].timesRedeemed + 1
  {
    hide Apply;
    var e := FreshId(s.stripeEvents);
    st := OrderStep(StripeSucceeded(e, Some(x), 0));
    StripePays(s, e, x, 0);
    RedeemEffect(s.codes, s.orders[x], k);
  }

  predicate PassesOnceAfter(s: State, run: seq<Step>, k: CodeKey, limit: int, done: set<Id>) {
    PassesAfter(s, run, k, limit) && SettlesOnce(s, run, done)
  }

  /** How far a counter can run past a limit that checkout enforced. With no further checkout, and each order settled
      at most once, `done` being the orders settled before, it can pass the limit if and only if the counter does
      together with the orders carrying the code that are still to be settled. */
  lemma LimitIff(s: State, k: CodeKey, limit: int, done: set<Id>)
    requires k in s.codes
    ensures (exists run :: PassesOnceAfter(s, run, k, limit, done))
       <==> s.codes[k].timesRedeemed + |Carriers(s, k) - done| > limit
  {
    hide Run, Carriers, SettlesOnce, SettledIn;
    if run :| PassesOnceAfter(s, run, k, limit, done) {
      RoomNeverGrows(s, run, k, done);
    }
    if s.codes[k].timesRedeemed + |Carriers(s, k) - done| > limit {
      var run := PayAll(s, k, Carriers(s, k) - done, done);
      assert PassesOnceAfter(s, run, k, limit, done);
    }
  }

  /** Nothing in the handlers stops further success events of a settled order from counting again: without the
      restriction to one event per order, every limit can be passed as soon as one order carries the code. */
  lemma LimitUnboundedIff(s: State, k: CodeKey, limit: int)
    requires k in s.codes
    ensures (exists run :: PassesAfter(s, run, k, limit))
       <==> s.codes[k].timesRedeemed > limit || Carriers(s, k) != {}
  {
    hide Run, Carriers;
    if run :| PassesAfter(s, run, k, limit) {
      if Carriers(s, k) == {} {
        NothingToSettle(s, run, k);
      }
    }
    if x :| x in Carriers(s, k) {
      var n := if limit < s.codes[k].timesRedeemed then 0 else limit + 1 - s.codes[k].timesRedeemed;
      var run := PayOften(s, k, x, n);
      assert PassesAfter(s, run, k, limit);
    } else if s.codes[k].timesRedeemed > limit {
      RunNone(s);
      assert PassesAfter(s, [], k, limit);
    }
  }

  lemma {:induction false} NothingToSettle(s: State, run: seq<Step>, k: CodeKey)
    requires k in s.codes && NoCheckouts(run, k) && LedgerRun(run, k) && Carriers(s, k) == {}
    ensures var t := Run(s, run);
            Carriers(t, k) == {} && k in t.codes && t.codes[k].timesRedeemed <= s.codes[k].timesRedeemed
  {
    hide Apply, Carriers, KeepsName;
    if run != [] {
      var init, last := run[..|run| - 1], run[|run| - 1];
      assert last in run && forall st :: st in init ==> st in run;
      NothingToSettle(s, init, k);
      var before := Run(s, init);
      StepCounter(before, last, k);
      StepCarriers(before, last, k);
      RestoresOne(before, last, k);
      if Settles(before, last, k) == 1 {
        SettledCarries(before, last, k);
      }
    }
  }

  lemma {:induction false} PayOften(s: State, k: CodeKey, x: Id, n: nat) returns (run: seq<Step>)
    requires k in s.codes && x in Carriers(s, k)
    ensures NoCheckouts(run, k) && LedgerRun(run, k)
    ensures x in Carriers(Run(s, run), k) && k in Run(s, run).codes
            && Run(s, run).codes[k].timesRedeemed == s.codes[k].timesRedeemed + n
  {
    run := [];
    if n > 0 {
      var init := PayOften(s, k, x, n - 1);
      var last := PayOne(Run(s, init), k, x);
      run := init + [last];
      RunSnoc(s, init, last);
    }
  }

  /** Every checkout of the run with the code finds the counter, and the carriers still to be settled, together below
      the limit. */
  predicate ChecksRoom(s: State, run: seq<Step>, k: CodeKey, limit: int, done: set<Id>) {
    if run == [] then true
    else
      var init, last := run[..|run| - 1], run[|run| - 1];
      var before := Run(s, init);
      && ChecksRoom(s, init, k, limit, done)
      && (ChecksOutWith(last, k) && k in before.codes ==>
            before.codes[k].timesRedeemed + |Unsettled(s, init, k, done)| < limit)
  }

  /** A limit holds in every run whose checkouts count the orders still to be settled too. */
  lemma {:induction false} LimitHolds(s: State, run: seq<Step>, k: CodeKey, limit: int, done: set<Id>)
    requires k in s.codes && s.codes[k].timesRedeemed + |Carriers(s, k) - done| <= limit
    requires LedgerRun(run, k) && SettlesOnce(s, run, done) && ChecksRoom(s, run, k, limit, done)
    ensures var t := Run(s, run);
            k in t.codes && t.codes[k].timesRedeemed + |Unsettled(s, run, k, done)| <= limit
  {
    hide Apply, Carriers, KeepsName;
    if run == [] {
      assert Unsettled(s, run, k, done) == Carriers(s, k) - done;
    } else {
      var init, last := run[..|run| - 1], run[|run| - 1];
      assert run == init + [last];
      assert last in run && forall st :: st in init ==> st in run;
      LimitHolds(s, init, k, limit, done);
      StepRoom(s, init, last, k, done);
    }
  }

  /** The limit that checkout checks is passed by two pending checkouts: one redemption is left, the customer checks
      out twice before paying, and both payments are counted. */
  lemma LimitPassed(
      s: State, tenant: Id, customer: Id, items: seq<CartItem>, mode: Mode, code: Id, x: Id, y: Id, e: Id, f: Id)
    requires tenant in s.tenants && x !in s.orders && y !in s.orders && x != y
    requires e !in s.stripeEvents && f !in s.stripeEvents && e != f
    requires var p := PriceOf(s, tenant, items, mode, Some(code), Some(customer));
             p.Ok? && !p.value.hasStockIssues && p.value.discount.Accepted?
    requires var k := CodeKey(tenant, code);
             k in s.codes && s.codes[k].maxRedemptions == Some(s.codes[k].timesRedeemed + 1)
    ensures var k := CodeKey(tenant, code);
            var t := Run(s, [
              OrderStep(PlaceOrder(tenant, customer, items, mode, Some(code), x)),
              OrderStep(PlaceOrder(tenant, customer, items, mode, Some(code), y)),
              OrderStep(StripeSucceeded(e, Some(x), 0)),
              OrderStep(StripeSucceeded(f, Some(y), 0))]);
            && k in t.codes && t.codes[k].maxRedemptions.Some?
            && t.codes[k].timesRedeemed == t.codes[k].maxRedemptions.value + 1
            && IsPaid(t, x) && Carries(t.orders[x], k) && IsPaid(t, y) && Carries(t.orders[y], k)
  {
    hide Run, PriceOf;
    OneUseTwice(s, tenant, customer, items, mode, code, x, y, e, f);
  }

  // ── Cancellations that are not counted ────────────────────────────────────

  predicate CancellableRow(s: State, o: Order, k: CodeKey) {
    LiveRow(o, k) && o.status != Delivered && VariantsPresent(s.variants, o.items)
  }

  /** The live orders that a status change can still cancel. */
  function Cancellable(s: State, k: CodeKey): set<Id> {
    set o | o in s.orders && CancellableRow(s, s.orders[o], k)
  }

  /** An order can become cancellable only by a settlement, and a cancelled one no longer is. */
  lemma StepCancellable(s: State, st: Step, k: CodeKey, o: Id)
    requires LedgerStep(st, k)
    ensures o in Cancellable(Apply(s, st), k) ==>
              o in Cancellable(s, k) || (Settles(s, st, k) == 1 && SettledBy(s, st) == Some(o))
    ensures RestoredBy(s, st) == Some(o) ==> o !in Cancellable(Apply(s, st), k)
  {
    hide Apply, KeepsName;
    var t := Apply(s, st);
    StepLive(s, st, k, o);
    if o in Cancellable(t, k) && o in Live(s, k) {
      OrderAfter(s, st, o);
      StepKeepsSnapshots(s, st);
      assert SameSnapshot(s.orders[o], t.orders[o]);
      forall l | l in s.orders[o].items ensures l.variant in s.variants {
        VariantAfter(s, st, l.variant);
      }
    }
  }

  lemma StepCancellableCount(s: State, st: Step, k: CodeKey)
    requires LedgerStep(st, k)
    ensures |Cancellable(Apply(s, st), k)| <= |Cancellable(s, k)| + Settles(s, st, k) - Restores(s, st, k)
    ensures Restores(s, st, k) == 1 ==> Cancellable(s, k) != {}
  {
    hide Apply, KeepsName, Cancellable, SettledBy, RestoredBy;
    var before, after := Cancellable(s, k), Cancellable(Apply(s, st), k);
    RestoresOne(s, st, k);
    var settled := if Settles(s, st, k) == 1 then {SettledBy(s, st).value} else {};
    forall o | o in after ensures o in before + settled {
      StepCancellable(s, st, k, o);
    }
    if Restores(s, st, k) == 1 {
      var o := RestoredBy(s, st).value;
      RestoredWasCancellable(s, st, k);
      StepCancellable(s, st, k, o);
      SubsetSize(after, before - {o});
    } else {
      SubsetSize(after, before + settled);
    }
  }

  lemma RestoredWasCancellable(s: State, st: Step, k: CodeKey)
    requires Restores(s, st, k) == 1
    ensures RestoredBy(s, st).value in Cancellable(s, k) && Settles(s, st, k) == 0
  {
    NotBoth(s, st);
  }

  /** A run that cancels some cancellable orders: each takes one off the counter while it is positive. */
  lemma {:induction false} CancelAll(s: State, k: CodeKey, orders: set<Id>) returns (run: seq<Step>)
    requires k in s.codes && 0 <= s.codes[k].timesRedeemed && orders <= Cancellable(s, k)
    ensures LedgerRun(run, k)
    ensures forall o :: o in Cancellable(s, k) && o !in orders ==> o in Cancellable(Run(s, run), k)
    ensures var t := Run(s, run);
            && k in t.codes && t.codes[k].timesRedeemed == Max(0, s.codes[k].timesRedeemed - |orders|)
            && (Swallowed(s, run, k) > 0 <==> |orders| > s.codes[k].timesRedeemed)
  {
    hide Apply, Cancellable;
    run := [];
    if orders != {} {
      var x :| x in orders;
      var init := CancelAll(s, k, orders - {x});
      var before := Run(s, init);
      var last := CancelOne(before, k, x);
      run := init + [last];
      assert run[..|run| - 1] == init && run[|run| - 1] == last;
    }
  }

  /** One status change that cancels. */
  lemma CancelOne(s: State, k: CodeKey, x: Id) returns (st: Step)
    requires k in s.codes && x in Cancellable(s, k)
    ensures LedgerStep(st, k) && Restores(s, st, k) == 1
    ensures forall o :: o in Cancellable(s, k) && o != x ==> o in Cancellable(Apply(s, st), k)
    ensures k in Apply(s, st).codes
            && Apply(s, st).codes[k].timesRedeemed
               == s.codes[k].timesRedeemed - if s.codes[k].timesRedeemed > 0 then 1 else 0
  {
    hide Apply;
    st := OrderStep(SetStatus(s.orders[x].tenant, x, Cancelled));
    StepCounter(s, st, k);
    NotBoth(s, st);
    var t := Apply(s, st);
    forall o | o in Cancellable(s, k) && o != x ensures o in Cancellable(t, k) {
      OrderAfter(s, st, o);
      StepKeepsSnapshots(s, st);
      assert SameSnapshot(s.orders[o], t.orders[o]);
      forall l | l in s.orders[o].items ensures l.variant in t.variants {
        VariantAfter(s, st, l.variant);
      }
    }
  }

  lemma {:induction false} NothingSwallowed(s: State, run: seq<Step>, k: CodeKey)
    requires k in s.codes && |Cancellable(s, k)| <= s.codes[k].timesRedeemed && LedgerRun(run, k)
    ensures var t := Run(s, run);
            k in t.codes && |Cancellable(t, k)| <= t.codes[k].timesRedeemed && Swallowed(s, run, k) == 0
  {
    hide Apply, Cancellable, KeepsName;
    if run != [] {
      var init, last := run[..|run| - 1], run[|run| - 1];
      assert last in run && forall st :: st in init ==> st in run;
      NothingSwallowed(s, init, k);
      var before := Run(s, init);
      StepCancellableCount(before, last, k);
      RestoresOne(before, last, k);
      StepCounter(before, last, k);
    }
  }

  predicate SwallowsAfter(s: State, run: seq<Step>, k: CodeKey) {
    LedgerRun(run, k) && Swallowed(s, run, k) > 0
  }

  /** The exact start condition of the coupon ledger: some ledger run loses a decrement to the positive-counter guard
      if and only if the orders that can still be cancelled outnumber the counter. */
  lemma SwallowsIff(s: State, k: CodeKey)
    requires k in s.codes && 0 <= s.codes[k].timesRedeemed
    ensures (exists run :: SwallowsAfter(s, run, k)) <==> |Cancellable(s, k)| > s.codes[k].timesRedeemed
  {
    hide Run, Cancellable, Swallowed, LedgerStep;
    if run :| SwallowsAfter(s, run, k) {
      if |Cancellable(s, k)| <= s.codes[k].timesRedeemed {
        NothingSwallowed(s, run, k);
      }
    }
    if |Cancellable(s, k)| > s.codes[k].timesRedeemed {
      var run := CancelAll(s, k, Cancellable(s, k));
      assert SwallowsAfter(s, run, k);
    }
  }

  /** A code deleted and created again under its name counts from zero, while paid orders still carry it as text:
      cancelling such an order gives nothing back to the new counter. */
  lemma RecreatedCode(s: State, k: CodeKey, o: Id, dto: NewCode)
    requires k in s.codes && o in Cancellable(s, k)
    requires ValueAccepted(dto.kind, dto.value) && WindowAccepted(dto.startsAt, dto.endsAt)
    ensures var remove, create := PromoStep(k.tenant, RemoveCode(k.code)), PromoStep(k.tenant, CreateCode(k.code, dto));
            var cancel := OrderStep(SetStatus(k.tenant, o, Cancelled));
            var t := Run(s, [remove, create]);
            && k in t.codes && t.codes[k].timesRedeemed == 0 && o in Cancellable(t, k)
            && RestoredBy(t, cancel) == Some(o) && Swallows(t, cancel, k) == 1
            && k in Apply(t, cancel).codes && Apply(t, cancel).codes[k].timesRedeemed == 0
  {
    hide OrderAttempt;
    var remove, create := PromoStep(k.tenant, RemoveCode(k.code)), PromoStep(k.tenant, CreateCode(k.code, dto));
    RunTwo(s, remove, create);
    var t := Run(s, [remove, create]);
    assert t == s.(codes := t.codes);
    StepCounter(t, OrderStep(SetStatus(k.tenant, o, Cancelled)), k);
    NotBoth(t, OrderStep(SetStatus(k.tenant, o, Cancelled)));
  }
}
