/** What paying and then cancelling an order does to stock, and checkouts that sell more than there is. */
module Cancellations {
  import opened Wrappers
  import opened ShopState
  import opened Pricing
  import opened Carts
  import opened Orders
  import opened ShopRuns
  import opened OrderRuns
  import opened LedgerRuns

  // ── Paid, then cancelled ──────────────────────────────────────────────────

  lemma RunSnoc(s: State, run: seq<Step>, st: Step)
    ensures Run(s, run + [st]) == Apply(Run(s, run), st)
  {
    assert (run + [st])[..|run|] == run;
  }

  /** An order settled by any delivery of either provider and cancelled at any later point of any run: together
      the two leave each variant exactly the units the gate skipped when it settled, beside what the steps
      between them took and gave. With positive lines they undo each other exactly when every line of the variant
      found something left. */
  lemma PaidThenCancelled(s: State, a: seq<Step>, pay: Step, b: seq<Step>, cancel: Step, o: Id, v: Id)
    requires v in s.variants
    requires SettledBy(Run(s, a), pay) == Some(o)
    requires RestoredBy(Run(s, a + [pay] + b), cancel) == Some(o)
    ensures var before, paid := Run(s, a), Run(s, a + [pay]);
            var last, after := Run(s, a + [pay] + b), Run(s, a + [pay] + b + [cancel]);
            && o in before.orders && o in last.orders
            && v in before.variants && v in paid.variants && v in after.variants
            && var stock, items := before.variants[v].stock, before.orders[o].items;
            && GivenBy(last, cancel, v) - TakenBy(before, pay, v) == Skipped(stock, items, v)
            && after.variants[v].stock == stock + Skipped(stock, items, v) - Taken(paid, b, v) + Given(paid, b, v)
            && (LinesPositive(items) ==>
                  (GivenBy(last, cancel, v) == TakenBy(before, pay, v) <==> NothingSkipped(stock, items, v)))
  {
    hide Apply, Taken, Given;
    var before, paid := Run(s, a), Run(s, a + [pay]);
    var last := Run(s, a + [pay] + b);
    SettledExists(before, pay, o);
    RunSnoc(s, a, pay);
    RunSnoc(s, a + [pay] + b, cancel);
    RunConcat(s, a + [pay], b);
    RunKeepsVariant(s, a, v);
    StepKeepsSnapshots(before, pay);
    RunKeepsSnapshots(paid, b);
    assert SameSnapshot(before.orders[o], paid.orders[o]) && SameSnapshot(paid.orders[o], last.orders[o]);
    VariantAfter(before, pay, v);
    StockLedger(paid, b, v);
    VariantAfter(last, cancel, v);
    NotBoth(last, cancel);
    if LinesPositive(before.orders[o].items) {
      NothingSkippedIff(before.variants[v].stock, before.orders[o].items, v);
    }
  }

  lemma SettledExists(s: State, st: Step, o: Id)
    requires SettledBy(s, st) == Some(o)
    ensures o in s.orders
  {}

  lemma CancelRestores(s: State, pay: Step, o: Id)
    requires SettledBy(s, pay) == Some(o) && o in s.orders && s.orders[o].status !in {Delivered, Cancelled}
    requires VariantsPresent(s.variants, s.orders[o].items)
    ensures RestoredBy(Apply(s, pay), OrderStep(SetStatus(s.orders[o].tenant, o, Cancelled))) == Some(o)
  {
    hide Apply;
    var paid := Apply(s, pay);
    OrderAfter(s, pay, o);
    StepKeepsSnapshots(s, pay);
    assert SameSnapshot(s.orders[o], paid.orders[o]);
    forall l | l in s.orders[o].items ensures l.variant in paid.variants {
      VariantAfter(s, pay, l.variant);
    }
  }

  /** Until it is delivered or cancelled, a just settled order can be cancelled while its variants exist, and at
      once the two steps change nothing of a variant but add the skipped units to its stock. */
  lemma CancelledAtOnce(s: State, pay: Step, o: Id, v: Id)
    requires SettledBy(s, pay) == Some(o) && o in s.orders && s.orders[o].status !in {Delivered, Cancelled}
    requires VariantsPresent(s.variants, s.orders[o].items) && v in s.variants
    ensures var items := s.orders[o].items;
            var cancel := OrderStep(SetStatus(s.orders[o].tenant, o, Cancelled));
            var t := Run(s, [pay, cancel]);
            && RestoredBy(Apply(s, pay), cancel) == Some(o)
            && v in t.variants
            && t.variants[v] == s.variants[v].(stock := s.variants[v].stock + Skipped(s.variants[v].stock, items, v))
  {
    hide Apply;
    var cancel := OrderStep(SetStatus(s.orders[o].tenant, o, Cancelled));
    var paid := Apply(s, pay);
    RunTwo(s, pay, cancel);
    CancelRestores(s, pay, o);
    StepKeepsSnapshots(s, pay);
    assert SameSnapshot(s.orders[o], paid.orders[o]);
    VariantAfter(s, pay, v);
    VariantAfter(paid, cancel, v);
    NotBoth(paid, cancel);
  }

  // ── Paid too late ─────────────────────────────────────────────────────────

  /** Nothing can be given back for an order that is delivered or cancelled, or that has lost a variant. */
  predicate BeyondRestoring(s: State, o: Id) {
    o in s.orders && (s.orders[o].status in {Delivered, Cancelled} || !VariantsPresent(s.variants, s.orders[o].items))
  }

  lemma StepStaysBeyond(s: State, st: Step, o: Id)
    requires BeyondRestoring(s, o)
    ensures BeyondRestoring(Apply(s, st), o) && RestoredBy(s, st) != Some(o)
  {
    hide Apply;
    var t := Apply(s, st);
    OrderAfter(s, st, o);
    StepKeepsSnapshots(s, st);
    assert SameSnapshot(s.orders[o], t.orders[o]);
    if !VariantsPresent(s.variants, s.orders[o].items) {
      var l :| l in s.orders[o].items && l.variant !in s.variants;
      VariantAfter(s, st, l.variant);
    }
  }

  lemma {:induction false} NeverRestored(s: State, run: seq<Step>, o: Id)
    requires BeyondRestoring(s, o)
    ensures BeyondRestoring(Run(s, run), o) && Restorations(s, run, o) == 0
  {
    hide Apply, BeyondRestoring;
    if run != [] {
      NeverRestored(s, run[..|run| - 1], o);
      StepStaysBeyond(Run(s, run[..|run| - 1]), run[|run| - 1], o);
    }
  }

  predicate RestoredAfter(s: State, run: seq<Step>, o: Id) {
    Restorations(s, run, o) > 0
  }

  /** What a success takes can be given back in some later run if and only if the success finds the order neither
      delivered nor cancelled, and its variants in place. */
  lemma RestorableIff(s: State, pay: Step, o: Id)
    requires SettledBy(s, pay) == Some(o)
    ensures o in s.orders
    ensures (exists run :: RestoredAfter(Apply(s, pay), run, o)) <==> !BeyondRestoring(s, o)
  {
    hide Apply, Run;
    SettledExists(s, pay, o);
    var paid := Apply(s, pay);
    if BeyondRestoring(s, o) {
      StepStaysBeyond(s, pay, o);
      forall run ensures !RestoredAfter(paid, run, o) {
        NeverRestored(paid, run, o);
      }
    } else {
      var cancel := OrderStep(SetStatus(s.orders[o].tenant, o, Cancelled));
      CancelRestores(s, pay, o);
      assert [cancel][..0] == [];
      RunNone(paid);
      assert Restorations(paid, [cancel], o) == Restorations(paid, [], o) + 1;
      assert RestoredAfter(paid, [cancel], o);
    }
  }

  lemma RunNone(s: State)
    ensures Run(s, []) == s
  {}

  /** A success recorded after the cancellation: the order ends cancelled and paid, its stock is taken and its code
      counted, and no later step gives any of it back. */
  lemma PaidAfterCancelled(s: State, pay: Step, o: Id, v: Id, k: CodeKey, run: seq<Step>)
    requires SettledBy(s, pay) == Some(o) && IsTerminal(s, o, Cancelled)
    requires v in s.variants && k in s.codes
    ensures var t := Apply(s, pay);
            && IsPaid(t, o) && IsTerminal(t, o, Cancelled)
            && v in t.variants && t.variants[v].stock == StockAfter(s.variants[v].stock, s.orders[o].items, v)
            && k in t.codes && t.codes[k].timesRedeemed == s.codes[k].timesRedeemed + (if Carries(s.orders[o], k) then 1 else 0)
            && IsTerminal(Run(t, run), o, Cancelled) && Restorations(t, run, o) == 0
  {
    hide Apply, Run;
    var t := Apply(s, pay);
    OrderAfter(s, pay, o);
    VariantAfter(s, pay, v);
    SettlingKeepsName(s, pay, k);
    StepCounter(s, pay, k);
    NotBoth(s, pay);
    TerminalStays(t, run, o, Cancelled);
    NeverRestored(t, run, o);
  }

  lemma SettlingKeepsName(s: State, st: Step, k: CodeKey)
    requires SettledBy(s, st).Some?
    ensures KeepsName(st, k)
  {}

  // ── Runs that oversell ────────────────────────────────────────────────────

  /** A checkout of sellable items, each in stock on its own, is accepted and stores exactly those lines. */
  lemma PlaceAccepted(s: State, tenant: Id, customer: Id, items: seq<CartItem>, order: Id)
    requires tenant in s.tenants && order !in s.orders
    requires AllSellable(s.variants, tenant, OneTime, items) && !AnyShort(s.variants, items)
    ensures var st := OrderStep(PlaceOrder(tenant, customer, items, OneTime, None, order));
            var t := Apply(s, st);
            && Attempt(s, st).Ok? && order in t.orders
            && t == s.(carts := t.carts, orders := s.orders[order := t.orders[order]])
            && t.orders[order].items == LinesFor(s.variants, OneTime, items)
            && t.orders[order].status == Received && t.orders[order].tenant == tenant
            && t.orders[order].discountCode.None?
  {
    hide Without;
  }

  /** Items of one available variant, none of them above its stock, pass both checks of pricing. */
  lemma OneTimeItems(s: State, tenant: Id, v: Id, items: seq<CartItem>, most: int)
    requires v in s.variants && s.variants[v].tenant == tenant && s.variants[v].active && s.variants[v].avail == Yes
    requires most <= s.variants[v].stock
    requires forall i :: 0 <= i < |items| ==> items[i].variant == v && items[i].quantity <= most
    ensures AllSellable(s.variants, tenant, OneTime, items) && !AnyShort(s.variants, items)
  {}

  /** What a first Stripe success does to an order that exists. */
  lemma StripePays(s: State, event: Id, o: Id, intent: Id)
    requires event !in s.stripeEvents && o in s.orders
    ensures var t := Apply(s, OrderStep(StripeSucceeded(event, Some(o), intent)));
            && t.stripeEvents == s.stripeEvents + {event}
            && t.orders == s.orders[o := s.orders[o].(payment := Paid, stripeIntent := Some(intent))]
            && t.variants == TakeLines(s.variants, s.orders[o].items)
            && t.codes == Redeem(s.codes, s.orders[o])
            && t.tenants == s.tenants && t.now == s.now
  {
    hide TakeLines, PriceOf;
  }

  /** An accepted checkout that drives a stock below zero: stock is checked line by line, so one order can ask for
      two and three units of a stock of three, and its payment takes five. */
  lemma OversoldExample(s: State, tenant: Id, customer: Id, v: Id, order: Id, event: Id)
    requires tenant in s.tenants && order !in s.orders && event !in s.stripeEvents
    requires v in s.variants && s.variants[v].tenant == tenant && s.variants[v].active && s.variants[v].avail == Yes
    requires s.variants[v].stock == 3
    ensures var place := OrderStep(PlaceOrder(tenant, customer, [CartItem(v, 2), CartItem(v, 3)], OneTime, None, order));
            var pay := OrderStep(StripeSucceeded(event, Some(order), 0));
            var t := Run(s, [place, pay]);
            Attempt(s, place).Ok? && v in t.variants && t.variants[v].stock == -2
  {
    hide Apply, Attempt;
    var items := [CartItem(v, 2), CartItem(v, 3)];
    var place := OrderStep(PlaceOrder(tenant, customer, items, OneTime, None, order));
    OneTimeItems(s, tenant, v, items, 3);
    PlaceAccepted(s, tenant, customer, items, order);
    RunTwo(s, place, OrderStep(StripeSucceeded(event, Some(order), 0)));
    var placed := Apply(s, place);
    StripePays(placed, event, order, 0);
    var lines := placed.orders[order].items;
    TakeLinesEffect(s.variants, lines, v);
    assert lines[..1] == [lines[0]] && lines[..1][..0] == [];
    DemandStep(lines, v);
    DemandStep(lines[..1], v);
    assert Demand([], v) == 0;
    assert Skipped(3, lines[..1], v) == Skipped(3, [], v) + 0;
  }

  lemma TwoPlaced(s: State, tenant: Id, customer: Id, v: Id, x: Id, y: Id)
    requires tenant in s.tenants && x !in s.orders && y !in s.orders && x != y
    requires v in s.variants && s.variants[v].tenant == tenant && s.variants[v].active && s.variants[v].avail == Yes
    requires s.variants[v].stock >= 1
    ensures var items := [CartItem(v, 1)];
            var line := LineFor(s.variants, OneTime, items[0]);
            var t := Run(s, [
              OrderStep(PlaceOrder(tenant, customer, items, OneTime, None, x)),
              OrderStep(PlaceOrder(tenant, customer, items, OneTime, None, y))]);
            && t.variants == s.variants && t.stripeEvents == s.stripeEvents
            && x in t.orders && t.orders[x].items == [line] && t.orders[x].status == Received
            && y in t.orders && t.orders[y].items == [line] && t.orders[y].status == Received
            && t.orders[y].tenant == tenant
  {
    hide Apply, Attempt, Run;
    var items := [CartItem(v, 1)];
    var placeX := OrderStep(PlaceOrder(tenant, customer, items, OneTime, None, x));
    var placeY := OrderStep(PlaceOrder(tenant, customer, items, OneTime, None, y));
    OneTimeItems(s, tenant, v, items, 1);
    PlaceAccepted(s, tenant, customer, items, x);
    PlaceAccepted(Apply(s, placeX), tenant, customer, items, y);
    RunTwo(s, placeX, placeY);
    assert LinesFor(s.variants, OneTime, items) == [LineFor(s.variants, OneTime, items[0])];
  }

  /** Two paid one-unit orders at a stock of one, the second then cancelled. */
  lemma SecondSkipped(s: State, line: Line, v: Id, x: Id, y: Id, e: Id, f: Id)
    requires e !in s.stripeEvents && f !in s.stripeEvents && e != f && x != y
    requires v in s.variants && s.variants[v].stock == 1 && line.variant == v && line.quantity == 1
    requires x in s.orders && s.orders[x].items == [line] && s.orders[x].status == Received
    requires y in s.orders && s.orders[y].items == [line] && s.orders[y].status == Received
    ensures var t := Run(Apply(s, OrderStep(StripeSucceeded(e, Some(x), 0))), [
              OrderStep(StripeSucceeded(f, Some(y), 0)),
              OrderStep(SetStatus(s.orders[y].tenant, y, Cancelled))]);
            && IsPaid(t, x) && t.orders[x].status == Received && t.orders[x].items == [line]
            && v in t.variants && t.variants[v].stock == 1
  {
    hide Apply, Run;
    var payY := OrderStep(StripeSucceeded(f, Some(y), 0));
    var cancel := OrderStep(SetStatus(s.orders[y].tenant, y, Cancelled));
    StripePays(s, e, x, 0);
    var s3 := Apply(s, OrderStep(StripeSucceeded(e, Some(x), 0)));
    OneLine(1, line, v);
    TakeLinesEffect(s.variants, [line], v);
    OneLine(0, line, v);
    CancelledAtOnce(s3, payY, y, v);
    RunTwo(s3, payY, cancel);
    StripePays(s3, f, y, 0);
    OrderAfter(Apply(s3, payY), cancel, x);
    StepKeepsSnapshots(Apply(s3, payY), cancel);
  }

  /** A unit out of nowhere: two one-unit orders are accepted at a stock of one and both are paid; the second is
      skipped by the gate, and cancelling it puts one unit on the shelf while the first order has it too. */
  lemma PhantomUnit(s: State, tenant: Id, customer: Id, v: Id, x: Id, y: Id, e: Id, f: Id)
    requires tenant in s.tenants && x !in s.orders && y !in s.orders && x != y
    requires e !in s.stripeEvents && f !in s.stripeEvents && e != f
    requires v in s.variants && s.variants[v].tenant == tenant && s.variants[v].active && s.variants[v].avail == Yes
    requires s.variants[v].stock == 1
    ensures var items := [CartItem(v, 1)];
            var t := Run(s, [
              OrderStep(PlaceOrder(tenant, customer, items, OneTime, None, x)),
              OrderStep(PlaceOrder(tenant, customer, items, OneTime, None, y)),
              OrderStep(StripeSucceeded(e, Some(x), 0)),
              OrderStep(StripeSucceeded(f, Some(y), 0)),
              OrderStep(SetStatus(tenant, y, Cancelled))]);
            && IsPaid(t, x) && t.orders[x].status == Received && Demand(t.orders[x].items, v) == 1
            && v in t.variants && t.variants[v].stock == 1
  {
    hide Apply, Run, Demand;
    var items := [CartItem(v, 1)];
    var line := LineFor(s.variants, OneTime, items[0]);
    var placeX := OrderStep(PlaceOrder(tenant, customer, items, OneTime, None, x));
    var placeY := OrderStep(PlaceOrder(tenant, customer, items, OneTime, None, y));
    var payX, payY := OrderStep(StripeSucceeded(e, Some(x), 0)), OrderStep(StripeSucceeded(f, Some(y), 0));
    var cancel := OrderStep(SetStatus(tenant, y, Cancelled));
    TwoPlaced(s, tenant, customer, v, x, y);
    SecondSkipped(Run(s, [placeX, placeY]), line, v, x, y, e, f);
    RunConcat(s, [placeX, placeY, payX], [payY, cancel]);
    RunSnoc(s, [placeX, placeY], payX);
    assert [placeX, placeY] + [payX] == [placeX, placeY, payX];
    assert [placeX, placeY, payX] + [payY, cancel] == [placeX, placeY, payX, payY, cancel];
    OneLine(1, line, v);
  }

  lemma OneLine(stock: int, line: Line, v: Id)
    requires line.variant == v
    ensures Demand([line], v) == line.quantity
    ensures Skipped(stock, [line], v) == if stock <= 0 then line.quantity else 0
  {
    assert [line][..0] == [];
    DemandStep([line], v);
    assert Demand([], v) == 0;
  }
}
