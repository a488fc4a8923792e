/** Timed claims about subscriptions over whole runs of the shop. */
module RenewalRuns {
  import opened Wrappers
  import opened Sets
  import opened ShopState
  import opened Orders
  import opened Carts
  import opened Promotions
  import opened Subscriptions
  import opened ShopRuns

  /** A successful renewal: its instant and the frequency in force then. */
  datatype Renewal = Renewal(at: int, frequencyDays: int)

  predicate RenewsAt(s: State, st: Step, id: Id) {
    st.SubStep? && st.sub.Renew? && st.sub.sub == id && st.sub.outcome.Charged? && Attempt(s, st).Ok?
  }

  /** The successful renewals of one subscription, in order. */
  function Renewals(s: State, run: seq<Step>, id: Id): seq<Renewal> {
    if run == [] then []
    else
      var init, last := run[..|run| - 1], run[|run| - 1];
      var before := Run(s, init);
      Renewals(s, init, id)
      + (if RenewsAt(before, last, id) && id in before.subs
         then [Renewal(before.now, before.subs[id].frequencyDays)] else [])
  }

  /** What a step can do to an existing subscription, its own service's steps included. */
  lemma StepRow(s: State, st: Step, id: Id)
    requires SubsOk(s.subs, s.variants) && StepOk(st) && id in s.subs
    ensures var t := Apply(s, st);
            && id in t.subs && SubsOk(t.subs, t.variants) && s.now <= t.now
            && RowStep(s.subs[id], t.subs[id])
            && (!st.SubStep? ==> t.subs == s.subs)
            && (st.SubStep? ==> RowKept(s, st.sub, t, id))
  {
    hide OrderAttempt, PromoAttempt, CartAttempt, SubAttempt, EditCatalogue;
    match st {
      case Tick(_) =>
      case EditVariant(tenant, variant, change) => EditKeepsSubs(s, tenant, variant, change);
      case PromoStep(tenant, op) => PromoOpFrame(s, tenant, op);
      case CartStep(tenant, customer, op) => CartOpFrame(s, tenant, customer, op);
      case OrderStep(op) =>
        OrderOpFrame(s, op);
        OrderKeepsSubs(s, op);
      case SubStep(op) =>
        SubOpRow(s, op, id);
        SubOpKeepsSubsOk(s, op);
        SubOpFrame(s, op);
    }
  }

  lemma OrderKeepsSubs(s: State, op: OrderOp)
    requires SubsOk(s.subs, s.variants)
    ensures var t := After(s, OrderAttempt(s, op));
            SubsOk(t.subs, t.variants)
  {
    hide OrderAttempt;
    var t := After(s, OrderAttempt(s, op));
    OrderOpFrame(s, op);
    forall j | j in t.subs ensures SubOk(t.subs[j], t.variants) {
      assert SubOk(s.subs[j], s.variants);
      OrderVariants(s, op, s.subs[j].variant);
    }
  }

  /** Rows are never removed and their ship dates never move backwards. */
  lemma {:induction false} ShipDateNeverMovesBack(s: State, run: seq<Step>, id: Id)
    requires SubsOk(s.subs, s.variants) && RunOk(run) && id in s.subs
    ensures var t := Run(s, run);
            && id in t.subs && SubsOk(t.subs, t.variants) && s.now <= t.now
            && s.subs[id].nextShipAt <= t.subs[id].nextShipAt
  {
    hide Apply;
    if run != [] {
      var init, last := run[..|run| - 1], run[|run| - 1];
      assert last in run && forall st :: st in init ==> st in run;
      ShipDateNeverMovesBack(s, init, id);
      StepRow(Run(s, init), last, id);
    }
  }

  /** A renewal happens no earlier than the ship date, and pushes it one frequency after its own instant. */
  lemma RenewalMovesDate(s: State, st: Step, id: Id)
    requires RenewsAt(s, st, id)
    ensures id in s.subs && s.subs[id].nextShipAt <= s.now
    ensures var t := Apply(s, st);
            id in t.subs && t.subs[id].nextShipAt == s.now + s.subs[id].frequencyDays * DAY_MS
  {
    hide RenewalOrder;
  }

  predicate Spaced(log: seq<Renewal>) {
    forall i, j :: 0 <= i < j < |log| ==> log[i].at + log[i].frequencyDays * DAY_MS <= log[j].at
  }

  /** Two successful renewals of one subscription are at least the frequency in force at the earlier one apart,
      whatever pauses, resumes, skips, frequency edits, failures and setup events happen between them. */
  lemma {:induction false} RenewalsAreSpaced(s: State, run: seq<Step>, id: Id)
    requires SubsOk(s.subs, s.variants) && RunOk(run) && id in s.subs
    ensures var log, t := Renewals(s, run, id), Run(s, run);
            && Spaced(log)
            && id in t.subs
            && (forall i :: 0 <= i < |log| ==>
                  FrequencyOk(log[i].frequencyDays)
                  && log[i].at + log[i].frequencyDays * DAY_MS <= t.subs[id].nextShipAt)
  {
    hide Apply, RenewsAt, SubsOk, Spaced, RowKept;
    if run == [] {
      assert Spaced([]) by { EmptyIsSpaced(); }
    } else {
      var init, last := run[..|run| - 1], run[|run| - 1];
      assert last in run && forall st :: st in init ==> st in run;
      RenewalsAreSpaced(s, init, id);
      ShipDateNeverMovesBack(s, init, id);
      var before := Run(s, init);
      StepRow(before, last, id);
      RowFrequency(before, id);
      if RenewsAt(before, last, id) {
        RenewalMovesDate(before, last, id);
        ExtendSpaced(Renewals(s, init, id), Renewal(before.now, before.subs[id].frequencyDays));
      } else {
        assert Renewals(s, run, id) == Renewals(s, init, id);
      }
    }
  }

  lemma EmptyIsSpaced()
    ensures Spaced([])
  {}

  lemma RowFrequency(s: State, id: Id)
    requires SubsOk(s.subs, s.variants) && id in s.subs
    ensures FrequencyOk(s.subs[id].frequencyDays)
  {
    assert SubOk(s.subs[id], s.variants);
  }

  lemma ExtendSpaced(log: seq<Renewal>, r: Renewal)
    requires Spaced(log)
    requires forall i :: 0 <= i < |log| ==> log[i].at + log[i].frequencyDays * DAY_MS <= r.at
    ensures Spaced(log + [r])
  {}

  lemma {:induction false} SpacedSpan(log: seq<Renewal>, i: nat, j: nat)
    requires Spaced(log) && i <= j < |log|
    requires forall k :: 0 <= k < |log| ==> FrequencyOk(log[k].frequencyDays)
    ensures (j - i) * (7 * DAY_MS) <= log[j].at - log[i].at
    decreases j
  {
    if i < j {
      SpacedSpan(log, i, j - 1);
    }
  }

  /** A window of length `t` holds at most floor(t / 7 days) + 1 successful renewals of a subscription. */
  lemma RenewalsInWindow(s: State, run: seq<Step>, id: Id, i: nat, j: nat, t: nat)
    requires SubsOk(s.subs, s.variants) && RunOk(run) && id in s.subs
    requires var log := Renewals(s, run, id);
             i <= j < |log| && log[j].at - log[i].at <= t
    ensures j - i + 1 <= t / (7 * DAY_MS) + 1
  {
    hide Run, Renewals, SubsOk, RunOk;
    var log := Renewals(s, run, id);
    RenewalsAreSpaced(s, run, id);
    SpacedSpan(log, i, j);
    CountFits(j - i, 7 * DAY_MS, t);
  }

  lemma CountFits(n: int, width: int, t: int)
    requires 0 < width && n * width <= t
    ensures n <= t / width
  {
    var q := t / width;
    assert t - q * width < width;
    assert (n - q) * width == n * width - q * width;
    BelowOne(n - q, width);
  }

  lemma BelowOne(x: int, width: int)
    requires x * width < width && 0 < width
    ensures x <= 0
  {}

  // ── Charges ───────────────────────────────────────────────────────────────

  /** The step charges the customer for a renewal, whether or not the result is stored. */
  predicate ChargesAt(s: State, st: Step, id: Id) {
    st.SubStep? && st.sub.Renew? && st.sub.sub == id && (st.sub.outcome.Charged? || st.sub.outcome.StoreFailed?)
    && Attempt(s, st).Ok?
  }

  /** The last step of the run charges the customer, before a given instant. */
  predicate ChargesEarly(s: State, run: seq<Step>, id: Id, until: int) {
    && run != [] && RunOk(run)
    && Run(s, run[..|run| - 1]).now < until
    && ChargesAt(Run(s, run[..|run| - 1]), run[|run| - 1], id)
  }

  lemma ChargeIsDue(s: State, st: Step, id: Id)
    requires ChargesAt(s, st, id)
    ensures id in s.subs && Due(s.subs[id], s.now) && s.subs[id].variant in s.variants
  {}

  /** What a charge leaves when its result is not stored: the same dates, and a row that is still active or marked. */
  lemma UnstoredCharge(s: State, st: Step, id: Id)
    requires ChargesAt(s, st, id) && st.sub.outcome.StoreFailed?
    ensures var t := Apply(s, st);
            && t.now == s.now && t.variants == s.variants && t.stripeEvents == s.stripeEvents
            && id in s.subs
            && t.subs == (if st.sub.outcome.marked then s.subs[id := s.subs[id].(status := PaymentFailed)] else s.subs)
  {
    hide RenewalOrder;
  }

  lemma DueCanBeCharged(s: State, id: Id, order: Id)
    requires id in s.subs && Due(s.subs[id], s.now) && s.subs[id].variant in s.variants && order !in s.orders
    ensures ChargesAt(s, SubStep(Renew(id, order, Charged(0))), id)
  {
    hide RenewalOrder;
  }

  /** A first setup event makes a row marked as failed due again, its date being past. */
  lemma SetupMakesDue(s: State, id: Id, event: Id)
    requires id in s.subs && event !in s.stripeEvents
    requires !ActiveClash(s.subs, id, s.subs[id].(status := Active))
    ensures var t := Apply(s, SubStep(SetupSucceeded(event, Some(id))));
            && t.subs == s.subs[id := s.subs[id].(status := Active)] && t.now == s.now
            && t.variants == s.variants && t.orders == s.orders
  {}

  lemma NoClash(subs: SubTable, id: Id)
    requires OneActiveEach(subs) && id in subs && subs[id].status == Active
    ensures forall row: Subscription ::
              row.customer == subs[id].customer && row.variant == subs[id].variant ==>
              !ActiveClash(subs[id := subs[id].(status := PaymentFailed)], id, row)
  {}

  /** A run that charges again at the instant of a charge whose result was not stored. */
  lemma ChargeAgain(s: State, st: Step, id: Id) returns (run: seq<Step>)
    requires ChargesAt(s, st, id) && st.sub.outcome.StoreFailed? && OneActiveEach(s.subs)
    ensures ChargesEarly(Apply(s, st), run, id, s.now + 1)
  {
    hide Apply, OneActiveEach, Attempt;
    var t := Apply(s, st);
    UnstoredCharge(s, st, id);
    ChargeIsDue(s, st, id);
    var order := FreshId(t.orders.Keys);
    var charge := SubStep(Renew(id, order, Charged(0)));
    assert [charge][..0] == [];
    assert Run(t, []) == t;
    if st.sub.outcome.marked {
      var event := FreshId(t.stripeEvents);
      var setup := SubStep(SetupSucceeded(event, Some(id)));
      NoClash(s.subs, id);
      SetupMakesDue(t, id, event);
      DueCanBeCharged(Apply(t, setup), id, order);
      run := [setup, charge];
      assert run[..1] == [setup] && [setup][..0] == [];
      assert Run(t, [setup]) == Apply(Run(t, []), setup);
    } else {
      DueCanBeCharged(t, id, order);
      run := [charge];
    }
  }

  /** After a charge, the run charges again before the frequency in force at the charge has passed. */
  predicate ChargedTooSoon(s: State, st: Step, run: seq<Step>, id: Id)
    requires id in s.subs
  {
    ChargesEarly(Apply(s, st), run, id, s.now + s.subs[id].frequencyDays * DAY_MS)
  }

  /** When a charge can be repeated too soon: some run charges the customer again before the frequency in force has
      passed if and only if the result of the first charge was not stored. */
  lemma ChargedEarlyIff(s: State, st: Step, id: Id)
    requires SubsOk(s.subs, s.variants) && OneActiveEach(s.subs) && StepOk(st) && ChargesAt(s, st, id)
    ensures id in s.subs
    ensures (exists run :: ChargedTooSoon(s, st, run, id)) <==> st.sub.outcome.StoreFailed?
  {
    hide Apply, Run, SubsOk, OneActiveEach, Attempt, RunOk;
    ChargeIsDue(s, st, id);
    RowFrequency(s, id);
    var until := s.now + s.subs[id].frequencyDays * DAY_MS;
    var t := Apply(s, st);
    if st.sub.outcome.StoreFailed? {
      var run := ChargeAgain(s, st, id);
      assert ChargedTooSoon(s, st, run, id);
    } else {
      StoredChargeMovesDate(s, st, id);
      StepRow(s, st, id);
      forall run ensures !ChargedTooSoon(s, st, run, id) {
        if ChargedTooSoon(s, st, run, id) {
          var init := run[..|run| - 1];
          InitOk(run);
          ShipDateNeverMovesBack(t, init, id);
          ChargeIsDue(Run(t, init), run[|run| - 1], id);
        }
      }
    }
  }

  lemma InitOk(run: seq<Step>)
    requires run != [] && RunOk(run)
    ensures RunOk(run[..|run| - 1])
  {}

  lemma StoredChargeMovesDate(s: State, st: Step, id: Id)
    requires ChargesAt(s, st, id) && !st.sub.outcome.StoreFailed?
    ensures var t := Apply(s, st);
            id in s.subs && id in t.subs && t.subs[id].nextShipAt == s.now + s.subs[id].frequencyDays * DAY_MS
  {
    RenewalMovesDate(s, st, id);
  }

  // ── Cancelled and active ──────────────────────────────────────────────────

  /** No step of the run is a first setup event for the subscription. */
  predicate NeverReactivated(s: State, run: seq<Step>, id: Id) {
    if run == [] then true
    else
      var init, last := run[..|run| - 1], run[|run| - 1];
      NeverReactivated(s, init, id) && !(last.SubStep? && Reactivates(Run(s, init), last.sub, id))
  }

  /** A cancelled subscription keeps its status, frequency, discount and dates through every run that has no
      first setup event for it. */
  lemma {:induction false} CancelledStaysFrozen(s: State, run: seq<Step>, id: Id)
    requires SubsOk(s.subs, s.variants) && RunOk(run)
    requires id in s.subs && s.subs[id].status == SubCancelled && NeverReactivated(s, run, id)
    ensures id in Run(s, run).subs && Run(s, run).subs[id] == s.subs[id]
  {
    hide Apply, Reactivates, SubsOk;
    if run != [] {
      var init, last := run[..|run| - 1], run[|run| - 1];
      assert last in run && forall st :: st in init ==> st in run;
      CancelledStaysFrozen(s, init, id);
      ShipDateNeverMovesBack(s, init, id);
      StepRow(Run(s, init), last, id);
    }
  }

  /** What cancelling is for: after an accepted cancellation, by an operator or the owner, no run without a first setup
      event for the subscription ends in a step that charges it. */
  lemma CancelledIsNotCharged(s: State, actor: Actor, id: Id, run: seq<Step>, st: Step)
    requires SubsOk(s.subs, s.variants) && InReach(s, actor, id) && s.subs[id].status != SubCancelled
    requires var t := Apply(s, SubStep(Cancel(actor, id)));
             RunOk(run) && NeverReactivated(t, run, id)
    ensures var t := Apply(s, SubStep(Cancel(actor, id)));
            && id in t.subs && t.subs[id].status == SubCancelled
            && id in Run(t, run).subs && Run(t, run).subs[id] == t.subs[id]
            && !ChargesAt(Run(t, run), st, id)
  {
    hide Run, SubAttempt, NeverReactivated, SubsOk;
    CancelEffect(s, actor, id);
    var t := Apply(s, SubStep(Cancel(actor, id)));
    StepRow(s, SubStep(Cancel(actor, id)), id);
    CancelledStaysFrozen(t, run, id);
    if ChargesAt(Run(t, run), st, id) {
      ChargeIsDue(Run(t, run), st, id);
    }
  }

  /** Cancelling is not final: exactly a first setup event naming the row, when the customer has no other active
      subscription to the variant, makes a cancelled subscription active again. */
  lemma CancelledChangesIff(s: State, st: Step, id: Id)
    requires SubsOk(s.subs, s.variants) && StepOk(st)
    requires id in s.subs && s.subs[id].status == SubCancelled
    ensures id in Apply(s, st).subs
    ensures Apply(s, st).subs[id] != s.subs[id] <==>
            st.SubStep? && Reactivates(s, st.sub, id) && !ActiveClash(s.subs, id, s.subs[id].(status := Active))
    ensures Apply(s, st).subs[id] != s.subs[id] ==>
            Apply(s, st).subs[id] == s.subs[id].(status := Active)
  {
    StepRow(s, st, id);
    if st.SubStep? && Reactivates(s, st.sub, id) {
      SetupOutcome(s, st.sub.event, id);
    }
  }

  /** The only two ways to become active: resuming a paused row, or a first setup event naming the row, in both
      cases without another active subscription of the customer to the variant. A skipped subscription therefore
      stays skipped until it is paused and resumed, or set up again. */
  lemma BecomesActiveIff(s: State, st: Step, id: Id)
    requires SubsOk(s.subs, s.variants) && StepOk(st)
    requires id in s.subs && s.subs[id].status != Active
    ensures id in Apply(s, st).subs
    ensures Apply(s, st).subs[id].status == Active <==>
            && st.SubStep?
            && !ActiveClash(s.subs, id, s.subs[id].(status := Active))
            && (Reactivates(s, st.sub, id)
                || (st.sub.Resume? && st.sub.sub == id && Reaches(st.sub.actor, s.subs[id]) && s.subs[id].status == Paused))
  {
    StepRow(s, st, id);
    if st.SubStep? {
      ActivationBySub(s, st.sub, id);
    }
  }

  lemma ActivationBySub(s: State, op: SubOp, id: Id)
    requires id in s.subs && s.subs[id].status != Active && id in After(s, SubAttempt(s, op)).subs
    ensures After(s, SubAttempt(s, op)).subs[id].status == Active <==>
            && !ActiveClash(s.subs, id, s.subs[id].(status := Active))
            && (Reactivates(s, op, id)
                || (op.Resume? && op.sub == id && Reaches(op.actor, s.subs[id]) && s.subs[id].status == Paused))
  {
    hide RenewalOrder;
  }

  lemma SetupOutcome(s: State, event: Id, id: Id)
    requires id in s.subs && event !in s.stripeEvents
    ensures var op := SetupSucceeded(event, Some(id));
            var active := s.subs[id].(status := Active);
            After(s, SubAttempt(s, op)).subs
            == if ActiveClash(s.subs, id, active) then s.subs else s.subs[id := active]
  {}
}
