/** Carts that cannot be priced, over whole runs of the shop. */
module CartRuns {
  import opened Wrappers
  import opened ShopState
  import opened Pricing
  import opened Carts
  import opened ShopRuns

  /** The step is no edit that makes the variant's product available one-time again. */
  predicate StaysSubscriptionOnly(st: Step, v: Id) {
    st.EditVariant? && st.variant == v && st.change.avail.Some? ==> st.change.avail.value == SubscriptionOnly
  }

  lemma {:induction false} SubscriptionOnlyStays(s: State, run: seq<Step>, v: Id)
    requires v in s.variants && s.variants[v].avail == SubscriptionOnly
    requires forall st :: st in run ==> StaysSubscriptionOnly(st, v)
    ensures v in Run(s, run).variants && Run(s, run).variants[v].avail == SubscriptionOnly
  {
    hide Apply;
    if run != [] {
      var init, last := run[..|run| - 1], run[|run| - 1];
      assert last in run && forall st :: st in init ==> st in run;
      SubscriptionOnlyStays(s, init, v);
      AvailAfter(Run(s, init), last, v);
    }
  }

  lemma AvailAfter(s: State, st: Step, v: Id)
    requires v in s.variants && s.variants[v].avail == SubscriptionOnly && StaysSubscriptionOnly(st, v)
    ensures v in Apply(s, st).variants && Apply(s, st).variants[v].avail == SubscriptionOnly
  {
    if !st.EditVariant? {
      hide Apply;
      VariantAfter(s, st, v);
    }
  }

  /** While a product stays subscription-only, through any run, no add, update, removal or merge answers Ok that leaves
      a row of it in the customer's cart, although each of them writes. */
  lemma SubscriptionOnlySticks(s: State, run: seq<Step>, tenant: Id, customer: Id, op: CartOp, v: Id)
    requires v in s.variants && s.variants[v].avail == SubscriptionOnly
    requires forall st :: st in run ==> StaysSubscriptionOnly(st, v)
    ensures var t := Run(s, run);
            CartAnswer(t, tenant, customer, op).Ok? && !op.ClearCart? ==>
              CartKey(customer, v) !in RowKeys(After(t, CartAttempt(t, tenant, customer, op)).carts, tenant, customer)
  {
    hide Run, CartAttempt;
    SubscriptionOnlyStays(s, run, v);
    var t := Run(s, run);
    var key := CartKey(customer, v);
    var result := CartAttempt(t, tenant, customer, op);
    if result.Ok? && !op.ClearCart? && key in RowKeys(result.value.carts, tenant, customer) {
      UnsellableRowSticks(t, tenant, customer, op, key);
    }
  }
}
