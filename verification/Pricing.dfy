/** Authoritative cart pricing: lines, discount, shipping and total. */
module Pricing {
  import opened Wrappers
  import opened Sums
  import opened Rounding
  import opened ShopState

  const DEFAULT_FREE_SHIPPING_THRESHOLD: int := 150_000 * 100
  const DEFAULT_SHIPPING_FLAT: int := 12_000 * 100

  datatype Mode = OneTime | SubscriptionMode

  datatype RejectReason = Unknown | NotYetValid | Expired | Exhausted | BelowMinimum | LoginNeeded | AlreadyUsed

  datatype Discount = NoCode | Rejected(reason: RejectReason) | Accepted(code: Id, amountCents: int)

  /** `outOfStock` holds one flag per line. */
  datatype Priced = Priced(
    lines: seq<Line>, outOfStock: seq<bool>,
    subtotalCents: int, discountCents: int, shippingCents: int, totalCents: int,
    hasStockIssues: bool, discount: Discount)

  // ── Lines ─────────────────────────────────────────────────────────────────

  /** Prices of a subscription fall back to the one-time price. */
  function UnitCents(v: Variant, mode: Mode): int {
    match mode
    case OneTime => v.priceOneTime
    case SubscriptionMode => OrElse(v.priceSubscription, v.priceOneTime)
  }

  /** The variant exists in the tenant and its product is published. */
  predicate Visible(variants: map<Id, Variant>, tenant: Id, variant: Id) {
    variant in variants && variants[variant].tenant == tenant && variants[variant].active
  }

  predicate Sellable(variants: map<Id, Variant>, tenant: Id, mode: Mode, item: CartItem) {
    && Visible(variants, tenant, item.variant)
    && !(mode == OneTime && variants[item.variant].avail == SubscriptionOnly)
  }

  predicate AllSellable(variants: map<Id, Variant>, tenant: Id, mode: Mode, items: seq<CartItem>) {
    forall i :: i in items ==> Sellable(variants, tenant, mode, i)
  }

  function LineFor(variants: map<Id, Variant>, mode: Mode, item: CartItem): Line
    requires item.variant in variants
  {
    var unit := UnitCents(variants[item.variant], mode);
    Line(item.variant, unit, item.quantity, unit * item.quantity)
  }

  function LinesFor(variants: map<Id, Variant>, mode: Mode, items: seq<CartItem>): seq<Line>
    requires forall i :: i in items ==> i.variant in variants
  {
    seq(|items|, k requires 0 <= k < |items| => LineFor(variants, mode, items[k]))
  }

  predicate Short(variants: map<Id, Variant>, item: CartItem) {
    item.variant in variants && variants[item.variant].stock < item.quantity
  }

  predicate AnyShort(variants: map<Id, Variant>, items: seq<CartItem>) {
    exists i :: i in items && Short(variants, i)
  }

  /** What one item contributes to the subtotal. */
  function ItemCents(variants: map<Id, Variant>, mode: Mode): CartItem -> int {
    (i: CartItem) => if i.variant in variants then UnitCents(variants[i.variant], mode) * i.quantity else 0
  }

  function Subtotal(variants: map<Id, Variant>, mode: Mode, items: seq<CartItem>): int {
    Sum(ItemCents(variants, mode), items)
  }

  // ── Discount and shipping ─────────────────────────────────────────────────

  function DiscountAmount(dc: DiscountCode, subtotal: int): int {
    match dc.kind
    case Percentage => PercentOf(subtotal, dc.value)
    case Fixed => Min(dc.value, subtotal)
  }

  /** The customer already has a paid order with the code. */
  predicate UsedBy(s: State, key: CodeKey, customer: Id) {
    exists o :: o in s.orders
                && s.orders[o].tenant == key.tenant && s.orders[o].customer == customer
                && s.orders[o].discountCode == Some(key.code) && s.orders[o].payment == Paid
  }

  /** Checks in the service's order; zero limits count as absent, as in the source. */
  function ValidateDiscount(s: State, tenant: Id, code: Id, subtotal: int, customer: Option<Id>): Discount {
    var key := CodeKey(tenant, code);
    if key !in s.codes || !s.codes[key].active then Rejected(Unknown)
    else
      var dc := s.codes[key];
      if dc.startsAt.Some? && dc.startsAt.value > s.now then Rejected(NotYetValid)
      else if dc.endsAt.Some? && dc.endsAt.value < s.now then Rejected(Expired)
      else if dc.maxRedemptions.Some? && dc.maxRedemptions.value != 0
              && dc.timesRedeemed >= dc.maxRedemptions.value then Rejected(Exhausted)
      else if dc.minSubtotal.Some? && dc.minSubtotal.value != 0
              && subtotal < dc.minSubtotal.value then Rejected(BelowMinimum)
      else if dc.oneUse && customer.None? then Rejected(LoginNeeded)
      else if dc.oneUse && UsedBy(s, key, customer.value) then Rejected(AlreadyUsed)
      else Accepted(code, DiscountAmount(dc, subtotal))
  }

  function DiscountFor(s: State, tenant: Id, code: Option<Id>, subtotal: int, customer: Option<Id>): Discount {
    match code
    case None => NoCode
    case Some(c) => ValidateDiscount(s, tenant, c, subtotal, customer)
  }

  function DiscountCents(d: Discount): int {
    match d
    case Accepted(_, amount) => amount
    case _ => 0
  }

  function ShippingFor(s: State, tenant: Id, subtotal: int): int {
    var threshold := if tenant in s.tenants then s.tenants[tenant].freeShippingThreshold else None;
    var flat := if tenant in s.tenants then s.tenants[tenant].shippingFlat else None;
    if subtotal >= OrElse(threshold, DEFAULT_FREE_SHIPPING_THRESHOLD) then 0
    else OrElse(flat, DEFAULT_SHIPPING_FLAT)
  }

  // ── The priced cart ───────────────────────────────────────────────────────

  function PriceOf(s: State, tenant: Id, items: seq<CartItem>, mode: Mode, code: Option<Id>, customer: Option<Id>)
    : Result<Priced>
  {
    if !AllSellable(s.variants, tenant, mode, items) then Err(BadRequest)
    else
      var subtotal := Subtotal(s.variants, mode, items);
      var discount := DiscountFor(s, tenant, code, subtotal, customer);
      var shipping := ShippingFor(s, tenant, subtotal);
      Ok(Priced(
        LinesFor(s.variants, mode, items),
        seq(|items|, k requires 0 <= k < |items| => Short(s.variants, items[k])),
        subtotal, DiscountCents(discount), shipping,
        Max(0, subtotal - DiscountCents(discount) + shipping),
        AnyShort(s.variants, items), discount))
  }

  // ── What prices rest on ───────────────────────────────────────────────────

  /** Prices are never negative, as the catalogue's input rules demand. */
  predicate VariantOk(v: Variant) {
    v.priceOneTime >= 0 && (v.priceSubscription.Some? ==> v.priceSubscription.value >= 0)
  }

  predicate VariantsOk(variants: map<Id, Variant>) {
    forall v :: v in variants ==> VariantOk(variants[v])
  }

  /** A percentage stays within 1..100, a fixed amount is positive, and the validity window is not empty. */
  predicate CodeOk(dc: DiscountCode) {
    && 1 <= dc.value && (dc.kind == Percentage ==> dc.value <= 100)
    && (dc.startsAt.Some? && dc.endsAt.Some? ==> dc.startsAt.value <= dc.endsAt.value)
  }

  predicate CodesOk(codes: map<CodeKey, DiscountCode>) {
    forall k :: k in codes ==> CodeOk(codes[k])
  }

  predicate TenantsOk(tenants: map<Id, Tenant>) {
    forall t :: t in tenants ==> (tenants[t].shippingFlat.Some? ==> tenants[t].shippingFlat.value >= 0)
  }

  predicate QuantitiesOk(items: seq<CartItem>) {
    forall i :: i in items ==> 1 <= i.quantity
  }

  // ── Properties ────────────────────────────────────────────────────────────

  /** The subtotal is the sum of the priced lines. */
  lemma {:induction false} LinesSumToSubtotal(variants: map<Id, Variant>, mode: Mode, items: seq<CartItem>)
    requires forall i :: i in items ==> i.variant in variants
    ensures Sum(LineCents(), LinesFor(variants, mode, items)) == Subtotal(variants, mode, items)
  {
    if items != [] {
      var init := items[..|items| - 1];
      var lines := LinesFor(variants, mode, items);
      LinesSumToSubtotal(variants, mode, init);
      assert lines[..|lines| - 1] == LinesFor(variants, mode, init);
    }
  }

  lemma SubtotalNonNegative(variants: map<Id, Variant>, mode: Mode, items: seq<CartItem>)
    requires VariantsOk(variants) && QuantitiesOk(items)
    ensures 0 <= Subtotal(variants, mode, items)
  {
    forall i | i in items ensures 0 <= ItemCents(variants, mode)(i) {
      if i.variant in variants {
        assert 0 <= UnitCents(variants[i.variant], mode) && 0 <= i.quantity;
      }
    }
    SumNonNegative(ItemCents(variants, mode), items);
  }

  lemma DiscountAmountBounds(dc: DiscountCode, subtotal: int)
    requires CodeOk(dc) && 0 <= subtotal
    ensures 0 <= DiscountAmount(dc, subtotal) <= subtotal
  {
    if dc.kind == Percentage {
      PercentBounds(subtotal, dc.value);
    }
  }

  /** The reason a code is accepted: it exists and is active, now lies in its window, its limit is not used up,
      the subtotal reaches its minimum, and a one-use code comes from a known customer without a paid order of it.
      The amount is then a percentage to the nearest cent, or the fixed value up to the subtotal. */
  lemma AcceptedIff(s: State, tenant: Id, code: Id, subtotal: int, customer: Option<Id>)
    requires 0 <= subtotal && CodesOk(s.codes)
    ensures var d, key := ValidateDiscount(s, tenant, code, subtotal, customer), CodeKey(tenant, code);
            && (d.Accepted? <==>
                  && key in s.codes
                  && var dc := s.codes[key];
                  && dc.active
                  && OrElse(dc.startsAt, s.now) <= s.now <= OrElse(dc.endsAt, s.now)
                  && (OrElse(dc.maxRedemptions, 0) == 0 || dc.timesRedeemed < dc.maxRedemptions.value)
                  && (OrElse(dc.minSubtotal, 0) == 0 || dc.minSubtotal.value <= subtotal)
                  && (dc.oneUse ==> customer.Some?)
                  && (forall o | o in s.orders && s.orders[o].payment == Paid && s.orders[o].tenant == tenant ::
                        dc.oneUse && s.orders[o].customer == customer.value ==> s.orders[o].discountCode != Some(code)))
            && (d.Accepted? ==>
                  && d.code == code && 0 <= d.amountCents <= subtotal
                  && var dc := s.codes[key];
                  if dc.kind == Percentage then -50 < 100 * d.amountCents - subtotal * dc.value <= 50
                  else d.amountCents == dc.value || (d.amountCents == subtotal < dc.value))
  {
    var key := CodeKey(tenant, code);
    if key in s.codes {
      DiscountAmountBounds(s.codes[key], subtotal);
      if s.codes[key].kind == Percentage {
        PercentBounds(subtotal, s.codes[key].value);
      }
    }
  }

  /** Under the promotion rules a discount never exceeds the subtotal, so the clamp at zero never applies. */
  lemma TotalIsExact(
      s: State, tenant: Id, items: seq<CartItem>, mode: Mode, code: Option<Id>, customer: Option<Id>)
    requires VariantsOk(s.variants) && CodesOk(s.codes) && TenantsOk(s.tenants) && QuantitiesOk(items)
    requires PriceOf(s, tenant, items, mode, code, customer).Ok?
    ensures var p := PriceOf(s, tenant, items, mode, code, customer).value;
            && p.subtotalCents == Sum(LineCents(), p.lines)
            && 0 <= p.discountCents <= p.subtotalCents
            && 0 <= p.shippingCents
            && p.totalCents == p.subtotalCents - p.discountCents + p.shippingCents
            && |p.lines| == |items|
            && forall k :: 0 <= k < |p.lines| ==>
                 p.lines[k].variant == items[k].variant && p.lines[k].quantity == items[k].quantity
                 && 0 <= p.lines[k].unitCents && p.lines[k].lineCents == p.lines[k].unitCents * p.lines[k].quantity
  {
    LinesSumToSubtotal(s.variants, mode, items);
    SubtotalNonNegative(s.variants, mode, items);
    var subtotal := Subtotal(s.variants, mode, items);
    match DiscountFor(s, tenant, code, subtotal, customer) {
      case Accepted(c, _) => DiscountAmountBounds(s.codes[CodeKey(tenant, c)], subtotal);
      case _ =>
    }
  }

  /** A cart is priced exactly when every item is a published variant of the tenant that is for sale in the mode. Each
      line then has the price stored for its mode - one-time buyers never get the subscription price, subscribers
      fall back to the one-time price only without one - and its own stock verdict, and what is taken off is the
      amount of the accepted code, or nothing. */
  lemma PricedAsStored(
      s: State, tenant: Id, items: seq<CartItem>, mode: Mode, code: Option<Id>, customer: Option<Id>)
    ensures var r := PriceOf(s, tenant, items, mode, code, customer);
            && (r.Ok? <==> forall i :: i in items ==>
                  && i.variant in s.variants && s.variants[i.variant].tenant == tenant && s.variants[i.variant].active
                  && (s.variants[i.variant].avail == SubscriptionOnly ==> mode == SubscriptionMode))
            && (r.Err? ==> r == Err(BadRequest))
            && (r.Ok? ==>
                  && |r.value.lines| == |r.value.outOfStock| == |items|
                  && (forall k :: 0 <= k < |items| ==>
                        && items[k] in items
                        && var v := s.variants[items[k].variant];
                        && r.value.lines[k].unitCents
                           == (if mode == SubscriptionMode && v.priceSubscription.Some?
                               then v.priceSubscription.value else v.priceOneTime)
                        && (r.value.outOfStock[k] <==> v.stock < items[k].quantity))
                  && (r.value.hasStockIssues <==> exists k :: 0 <= k < |items| && r.value.outOfStock[k])
                  && (r.value.discount.NoCode? <==> code.None?)
                  && r.value.discountCents == (if r.value.discount.Accepted? then r.value.discount.amountCents else 0)
                  && (code.Some? ==>
                        r.value.discount == ValidateDiscount(s, tenant, code.value, r.value.subtotalCents, customer)))
  {
    var r := PriceOf(s, tenant, items, mode, code, customer);
    forall k | 0 <= k < |items| ensures items[k] in items {}
    if r.Ok? {
      if r.value.hasStockIssues {
        var i :| i in items && Short(s.variants, i);
        var k :| 0 <= k < |items| && items[k] == i;
        assert r.value.outOfStock[k];
      }
    }
  }

  /** Shipping is free from the tenant's threshold on, 150.000 pesos where none is set, and below it costs the flat fee,
      12.000 pesos where none is set. */
  lemma ShippingByThreshold(
      s: State, tenant: Id, items: seq<CartItem>, mode: Mode, code: Option<Id>, customer: Option<Id>)
    requires PriceOf(s, tenant, items, mode, code, customer).Ok?
    ensures var p := PriceOf(s, tenant, items, mode, code, customer).value;
            var threshold := if tenant in s.tenants then s.tenants[tenant].freeShippingThreshold else None;
            var flat := if tenant in s.tenants then s.tenants[tenant].shippingFlat else None;
            var free := p.subtotalCents >= (if threshold.Some? then threshold.value else 15_000_000);
            && (free ==> p.shippingCents == 0)
            && (!free ==> p.shippingCents == (if flat.Some? then flat.value else 1_200_000))
  {}

  /** Why a code is refused: the first of the checks, in their order, that fails. */
  lemma RefusedFor(s: State, tenant: Id, code: Id, subtotal: int, customer: Option<Id>)
    ensures var d, key := ValidateDiscount(s, tenant, code, subtotal, customer), CodeKey(tenant, code);
            d.Rejected? ==>
            match d.reason
            case Unknown => key !in s.codes || !s.codes[key].active
            case NotYetValid => key in s.codes && s.codes[key].active && s.now < OrElse(s.codes[key].startsAt, s.now)
            case Expired => key in s.codes && s.codes[key].active && OrElse(s.codes[key].endsAt, s.now) < s.now
            case Exhausted => key in s.codes && OrElse(s.codes[key].maxRedemptions, 0) != 0
                              && s.codes[key].timesRedeemed >= s.codes[key].maxRedemptions.value
            case BelowMinimum => key in s.codes && subtotal < OrElse(s.codes[key].minSubtotal, subtotal)
            case LoginNeeded => key in s.codes && s.codes[key].oneUse && customer.None?
            case AlreadyUsed =>
              && key in s.codes && s.codes[key].oneUse && customer.Some?
              && exists o :: o in s.orders && s.orders[o].payment == Paid && s.orders[o].tenant == tenant
                             && s.orders[o].customer == customer.value && s.orders[o].discountCode == Some(code)
  {}

  /** Same amounts and the same stock verdict: what a customer sees of a price, apart from the list of lines. */
  predicate SameAmounts(a: Result<Priced>, b: Result<Priced>) {
    match (a, b)
    case (Ok(p), Ok(q)) =>
      && p.subtotalCents == q.subtotalCents && p.discountCents == q.discountCents
      && p.shippingCents == q.shippingCents && p.totalCents == q.totalCents && p.discount == q.discount
    case (Err(e), Err(f)) => e == f
    case _ => false
  }

  /** Prices do not depend on the order of the items. */
  lemma PriceIgnoresOrder(
      s: State, tenant: Id, a: seq<CartItem>, b: seq<CartItem>, mode: Mode, code: Option<Id>, customer: Option<Id>)
    requires multiset(a) == multiset(b)
    ensures SameAmounts(PriceOf(s, tenant, a, mode, code, customer), PriceOf(s, tenant, b, mode, code, customer))
    ensures AnyShort(s.variants, a) == AnyShort(s.variants, b)
  {
    SumPermutation(ItemCents(s.variants, mode), a, b);
    SameElements(a, b);
    SameElements(b, a);
  }

  lemma SameElements(a: seq<CartItem>, b: seq<CartItem>)
    requires multiset(a) == multiset(b)
    ensures forall i :: i in a ==> i in b
  {
    forall i | i in a ensures i in b {
      assert i in multiset(a);
    }
  }

  /** Merging two lines of one variant keeps every amount, and can only reveal a shortage, never hide one:
      each merged line is out of stock exactly when the summed quantity exceeds the stock. */
  lemma MergeLines(
      s: State, tenant: Id, v: Id, q: int, r: int, rest: seq<CartItem>, mode: Mode, code: Option<Id>,
      customer: Option<Id>)
    requires 1 <= q && 1 <= r
    ensures var split := [CartItem(v, q), CartItem(v, r)] + rest;
            var merged := [CartItem(v, q + r)] + rest;
            && SameAmounts(PriceOf(s, tenant, split, mode, code, customer), PriceOf(s, tenant, merged, mode, code, customer))
            && (AnyShort(s.variants, split) ==> AnyShort(s.variants, merged))
            && (AnyShort(s.variants, merged) <==>
                AnyShort(s.variants, rest) || (v in s.variants && s.variants[v].stock < q + r))
  {
    var a, b, m := CartItem(v, q), CartItem(v, r), CartItem(v, q + r);
    MergedSubtotal(s.variants, mode, v, q, r, rest);
    var split, merged := [a, b] + rest, [m] + rest;
    assert forall i :: i in split <==> i == a || i == b || i in rest;
    assert forall i :: i in merged <==> i == m || i in rest;
    assert a in split && b in split && m in merged;
    assert AllSellable(s.variants, tenant, mode, split) <==> AllSellable(s.variants, tenant, mode, merged);
    assert AnyShort(s.variants, merged) <==> Short(s.variants, m) || AnyShort(s.variants, rest);
    assert AnyShort(s.variants, split) ==> Short(s.variants, m) || AnyShort(s.variants, rest);
  }

  lemma MergedSubtotal(variants: map<Id, Variant>, mode: Mode, v: Id, q: int, r: int, rest: seq<CartItem>)
    ensures Subtotal(variants, mode, [CartItem(v, q), CartItem(v, r)] + rest)
         == Subtotal(variants, mode, [CartItem(v, q + r)] + rest)
  {
    var f := ItemCents(variants, mode);
    var a, b, m := CartItem(v, q), CartItem(v, r), CartItem(v, q + r);
    SumConcat(f, [a, b], rest);
    SumConcat(f, [m], rest);
    assert [a, b][..1] == [a] && [a][..0] == [] && [m][..0] == [];
    if v in variants {
      var unit := UnitCents(variants[v], mode);
      assert unit * (q + r) == unit * q + unit * r;
    }
  }
}
