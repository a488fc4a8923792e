/** Codes of one use per customer: what the check at pricing time does and does not guarantee. */
module OneUseRuns {
  import opened Wrappers
  import opened Sets
  import opened ShopState
  import opened Pricing
  import opened Carts
  import opened Promotions
  import opened Orders
  import opened Subscriptions
  import opened ShopRuns
  import opened Cancellations

  predicate CarryingRow(o: Order, k: CodeKey, customer: Id) {
    o.customer == customer && Carries(o, k)
  }

  /** The customer's orders carrying the code. */
  function Carrying(s: State, k: CodeKey, customer: Id): set<Id> {
    set o | o in s.orders && CarryingRow(s.orders[o], k, customer)
  }

  /** Those of them that are paid: the uses of the code. */
  function Uses(s: State, k: CodeKey, customer: Id): set<Id> {
    set o | o in s.orders && CarryingRow(s.orders[o], k, customer) && s.orders[o].payment == Paid
  }

  /** The step is a checkout of the customer with the code. */
  predicate Requests(st: Step, k: CodeKey, customer: Id) {
    st.OrderStep? && st.op.PlaceOrder? && st.op.tenant == k.tenant && st.op.customer == customer
    && st.op.code == Some(k.code)
  }

  lemma NewCarries(s: State, st: Step, k: CodeKey, customer: Id, o: Id)
    requires o !in s.orders
    ensures o in Carrying(Apply(s, st), k, customer) ==> Requests(st, k, customer) && st.op.order == o
  {
    hide OrderAttempt, PromoAttempt, CartAttempt, SubAttempt;
    match st {
      case Tick(_) =>
      case EditVariant(_, _, _) =>
      case PromoStep(tenant, op) => PromoOpFrame(s, tenant, op);
      case CartStep(tenant, customer, op) => CartOpFrame(s, tenant, customer, op);
      case OrderStep(op) =>
        if op.PlaceOrder? { NewOrderCarries(s, op, o); } else { OnlyCheckoutAdds(s, op); }
      case SubStep(op) => RenewalsCarryNothing(s, op);
    }
  }

  lemma NewOrderCarries(s: State, op: OrderOp, o: Id)
    requires op.PlaceOrder? && o !in s.orders
    ensures var t := After(s, OrderAttempt(s, op));
            o in t.orders ==>
            var row := t.orders[o];
            op.order == o && row.tenant == op.tenant && row.customer == op.customer
            && (row.discountCode.Some? ==> op.code == row.discountCode)
  {
    hide Without, Subtotal, AllSellable;
  }

  lemma RenewalsCarryNothing(s: State, op: SubOp)
    ensures var t := After(s, SubAttempt(s, op));
            forall o :: o in t.orders && o !in s.orders ==> t.orders[o].discountCode.None?
  {
    hide ActiveClash;
  }

  /** A step without such a checkout leaves the carrying orders as they are; a checkout adds at most its own. */
  lemma StepCarrying(s: State, st: Step, k: CodeKey, customer: Id)
    ensures var before, after := Carrying(s, k, customer), Carrying(Apply(s, st), k, customer);
            && before <= after
            && (if Requests(st, k, customer) then after <= before + {st.op.order} else after == before)
  {
    hide Apply;
    var before, after := Carrying(s, k, customer), Carrying(Apply(s, st), k, customer);
    StepKeepsSnapshots(s, st);
    assert forall o :: o in before ==> SameSnapshot(s.orders[o], Apply(s, st).orders[o]);
    forall o | o in after && o !in before ensures Requests(st, k, customer) && st.op.order == o {
      assert o in s.orders ==> SameSnapshot(s.orders[o], Apply(s, st).orders[o]);
      NewCarries(s, st, k, customer, o);
    }
  }

  predicate NoRequests(run: seq<Step>, k: CodeKey, customer: Id) {
    forall st :: st in run ==> !Requests(st, k, customer)
  }

  lemma {:induction false} CarryingKept(s: State, run: seq<Step>, k: CodeKey, customer: Id)
    requires NoRequests(run, k, customer)
    ensures Carrying(Run(s, run), k, customer) == Carrying(s, k, customer)
  {
    hide Apply, Carrying;
    if run != [] {
      var init, last := run[..|run| - 1], run[|run| - 1];
      assert last in run && forall st :: st in init ==> st in run;
      CarryingKept(s, init, k, customer);
      StepCarrying(Run(s, init), last, k, customer);
    }
  }

  /** The run makes no new checkout with the code and ends with two uses of it. */
  predicate UsedTwiceAfter(s: State, run: seq<Step>, k: CodeKey, customer: Id) {
    NoRequests(run, k, customer) && 2 <= |Uses(Run(s, run), k, customer)|
  }

  /** The exact reach of the one-use check: without any further checkout, a customer can come to two uses of a code
      if and only if two of their orders carry it already, paid or not. */
  lemma UsedTwiceIff(s: State, k: CodeKey, customer: Id)
    ensures (exists run :: UsedTwiceAfter(s, run, k, customer)) <==> 2 <= |Carrying(s, k, customer)|
  {
    hide Run, Carrying, Uses, NoRequests;
    if run :| UsedTwiceAfter(s, run, k, customer) {
      CarryingKept(s, run, k, customer);
      UsesCarry(Run(s, run), k, customer);
      SubsetSize(Uses(Run(s, run), k, customer), Carrying(s, k, customer));
    }
    if 2 <= |Carrying(s, k, customer)| {
      var carrying := Carrying(s, k, customer);
      var x :| x in carrying;
      assert |carrying - {x}| >= 1;
      var y :| y in carrying - {x};
      var run := PayBoth(s, k, customer, x, y);
      assert UsedTwiceAfter(s, run, k, customer);
    }
  }

  lemma UsesCarry(s: State, k: CodeKey, customer: Id)
    ensures Uses(s, k, customer) <= Carrying(s, k, customer)
  {}

  /** Two deliveries that pay two carrying orders. */
  lemma PayBoth(s: State, k: CodeKey, customer: Id, x: Id, y: Id) returns (run: seq<Step>)
    requires x in Carrying(s, k, customer) && y in Carrying(s, k, customer) && x != y
    ensures NoRequests(run, k, customer) && 2 <= |Uses(Run(s, run), k, customer)|
  {
    hide Apply, Run;
    var e := FreshId(s.stripeEvents);
    var f := FreshId(s.stripeEvents + {e});
    var payX, payY := OrderStep(StripeSucceeded(e, Some(x), 0)), OrderStep(StripeSucceeded(f, Some(y), 0));
    run := [payX, payY];
    StripePays(s, e, x, 0);
    StripePays(Apply(s, payX), f, y, 0);
    RunTwo(s, payX, payY);
    SubsetSize({x, y}, Uses(Run(s, run), k, customer));
  }

  /** Every checkout of the run with the code comes from a customer without an order carrying it, paid or not. */
  predicate RequestsOnce(s: State, run: seq<Step>, k: CodeKey, customer: Id) {
    if run == [] then true
    else
      var init, last := run[..|run| - 1], run[|run| - 1];
      && RequestsOnce(s, init, k, customer)
      && (Requests(last, k, customer) ==> Carrying(Run(s, init), k, customer) == {})
  }

  /** One use holds in every run whose checkouts also look at unpaid orders. */
  lemma {:induction false} OneUseHolds(s: State, run: seq<Step>, k: CodeKey, customer: Id)
    requires |Carrying(s, k, customer)| <= 1 && RequestsOnce(s, run, k, customer)
    ensures |Uses(Run(s, run), k, customer)| <= |Carrying(Run(s, run), k, customer)| <= 1
  {
    hide Apply, Carrying, Uses;
    if run != [] {
      var init, last := run[..|run| - 1], run[|run| - 1];
      var before := Run(s, init);
      OneUseHolds(s, init, k, customer);
      StepCarrying(before, last, k, customer);
      if Requests(last, k, customer) {
        SubsetSize(Carrying(Run(s, run), k, customer), {last.op.order});
      }
    }
    UsesCarry(Run(s, run), k, customer);
    SubsetSize(Uses(Run(s, run), k, customer), Carrying(Run(s, run), k, customer));
  }

  // ── Two uses of a one-use code ────────────────────────────────────────────

  /** Prices do not see a pending order or a changed cart. */
  lemma PendingIsInvisible(
      s: State, t: State, x: Id, tenant: Id, items: seq<CartItem>, mode: Mode, code: Option<Id>, customer: Option<Id>)
    requires x !in s.orders && x in t.orders && t.orders[x].payment == Pending
    requires t == s.(carts := t.carts, orders := s.orders[x := t.orders[x]])
    ensures PriceOf(t, tenant, items, mode, code, customer) == PriceOf(s, tenant, items, mode, code, customer)
  {
    if customer.Some? && code.Some? {
      var key := CodeKey(tenant, code.value);
      assert UsedBy(t, key, customer.value) <==> UsedBy(s, key, customer.value) by {
        if UsedBy(s, key, customer.value) {
          var o :| o in s.orders && s.orders[o].tenant == tenant && s.orders[o].customer == customer.value
                   && s.orders[o].discountCode == Some(code.value) && s.orders[o].payment == Paid;
          assert o in t.orders && t.orders[o] == s.orders[o];
        }
      }
    }
  }

  /** A checkout whose code pricing accepts stores a pending order carrying it, and otherwise only clears carts. */
  lemma PlaceCarrying(
      s: State, tenant: Id, customer: Id, items: seq<CartItem>, mode: Mode, code: Id, order: Id)
    requires tenant in s.tenants && order !in s.orders
    requires var p := PriceOf(s, tenant, items, mode, Some(code), Some(customer));
             p.Ok? && !p.value.hasStockIssues && p.value.discount.Accepted?
    ensures var t := Apply(s, OrderStep(PlaceOrder(tenant, customer, items, mode, Some(code), order)));
            && order in t.orders && t == s.(carts := t.carts, orders := s.orders[order := t.orders[order]])
            && t.orders[order].payment == Pending
            && CarryingRow(t.orders[order], CodeKey(tenant, code), customer)
  {
    hide Without, Subtotal, AllSellable, AnyShort, ShippingFor, LinesFor;
  }

  /** The check only sees paid orders: whoever can check out with a code once - a one-use code included - can check
      out with it twice before paying, and both orders can then be paid. The counter rises by two. */
  lemma OneUseTwice(
      s: State, tenant: Id, customer: Id, items: seq<CartItem>, mode: Mode, code: Id, x: Id, y: Id, e: Id, f: Id)
    requires tenant in s.tenants && x !in s.orders && y !in s.orders && x != y
    requires e !in s.stripeEvents && f !in s.stripeEvents && e != f
    requires var p := PriceOf(s, tenant, items, mode, Some(code), Some(customer));
             p.Ok? && !p.value.hasStockIssues && p.value.discount.Accepted?
    ensures var k := CodeKey(tenant, code);
            var t := Run(s, [
              OrderStep(PlaceOrder(tenant, customer, items, mode, Some(code), x)),
              OrderStep(PlaceOrder(tenant, customer, items, mode, Some(code), y)),
              OrderStep(StripeSucceeded(e, Some(x), 0)),
              OrderStep(StripeSucceeded(f, Some(y), 0))]);
            && {x, y} <= Uses(t, k, customer)
            && k in s.codes && k in t.codes
            && t.codes[k] == s.codes[k].(timesRedeemed := s.codes[k].timesRedeemed + 2)
  {
    hide Apply, Run, PriceOf;
    var k := CodeKey(tenant, code);
    var placeX := OrderStep(PlaceOrder(tenant, customer, items, mode, Some(code), x));
    var placeY := OrderStep(PlaceOrder(tenant, customer, items, mode, Some(code), y));
    var payX, payY := OrderStep(StripeSucceeded(e, Some(x), 0)), OrderStep(StripeSucceeded(f, Some(y), 0));
    AcceptedExists(s, tenant, items, mode, code, customer);
    PlaceCarrying(s, tenant, customer, items, mode, code, x);
    var s1 := Apply(s, placeX);
    PendingIsInvisible(s, s1, x, tenant, items, mode, Some(code), Some(customer));
    PlaceCarrying(s1, tenant, customer, items, mode, code, y);
    var s2 := Apply(s1, placeY);
    StripePays(s2, e, x, 0);
    var s3 := Apply(s2, payX);
    StripePays(s3, f, y, 0);
    RunTwo(s, placeX, placeY);
    RunTwo(s2, payX, payY);
    RunConcat(s, [placeX, placeY], [payX, payY]);
    assert [placeX, placeY] + [payX, payY] == [placeX, placeY, payX, payY];
  }

  lemma AcceptedExists(s: State, tenant: Id, items: seq<CartItem>, mode: Mode, code: Id, customer: Id)
    requires var p := PriceOf(s, tenant, items, mode, Some(code), Some(customer));
             p.Ok? && p.value.discount.Accepted?
    ensures CodeKey(tenant, code) in s.codes
  {}
}
