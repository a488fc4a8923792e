/** The persistent cart: one row per customer and variant, with quantities saturating at 99. */
module Carts {
  import opened Wrappers
  import opened Sums
  import opened ShopState
  import opened Pricing

  type CartTable = map<CartKey, CartRow>

  /** The quantity a customer has of a variant; no row means none. */
  function QuantityIn(carts: CartTable, customer: Id, variant: Id): int {
    var key := CartKey(customer, variant);
    if key in carts then carts[key].quantity else 0
  }

  function Saturate(quantity: int): int {
    Min(MAX_CART_QUANTITY, quantity)
  }

  /** Adds to the row of the item's variant, creating it when absent; an existing row keeps its tenant. */
  function Put(carts: CartTable, tenant: Id, customer: Id, item: CartItem): CartTable {
    var key := CartKey(customer, item.variant);
    var row := if key in carts
               then carts[key].(quantity := Saturate(carts[key].quantity + item.quantity))
               else CartRow(tenant, Saturate(item.quantity));
    carts[key := row]
  }

  /** The rows left when every row of the customer in the tenant that satisfies `gone` is deleted. */
  function Without(carts: CartTable, tenant: Id, customer: Id, gone: set<Id>): CartTable {
    map k | k in carts && !(k.customer == customer && carts[k].tenant == tenant && k.variant in gone) :: carts[k]
  }

  /** Merging a local cart item by item, skipping variants outside `valid`. */
  function MergeItems(carts: CartTable, tenant: Id, customer: Id, valid: set<Id>, items: seq<CartItem>): CartTable {
    if items == [] then carts
    else
      var before := MergeItems(carts, tenant, customer, valid, items[..|items| - 1]);
      var item := items[|items| - 1];
      if item.variant in valid then Put(before, tenant, customer, item) else before
  }

  // ── Operations ────────────────────────────────────────────────────────────

  datatype CartOp =
    | AddItem(item: CartItem)
    | UpdateItem(variant: Id, quantity: int)
    | RemoveItem(variant: Id)
    | ClearCart
    | MergeCart(items: seq<CartItem>)

  /** The input rules: 1..99 for an added item, 0..99 for a new quantity, at least 1 for merged items. */
  predicate OpOk(op: CartOp) {
    match op
    case AddItem(item) => 1 <= item.quantity <= MAX_CART_QUANTITY
    case UpdateItem(_, quantity) => 0 <= quantity <= MAX_CART_QUANTITY
    case MergeCart(items) => QuantitiesOk(items)
    case _ => true
  }

  function ValidVariants(variants: map<Id, Variant>, tenant: Id): set<Id> {
    set v | v in variants && Visible(variants, tenant, v)
  }

  function SetQuantity(carts: CartTable, tenant: Id, customer: Id, variant: Id, quantity: int): CartTable {
    var key := CartKey(customer, variant);
    if quantity <= 0 then Without(carts, tenant, customer, {variant})
    else if key in carts && carts[key].tenant == tenant then carts[key := carts[key].(quantity := Saturate(quantity))]
    else carts
  }

  function CartAttempt(s: State, tenant: Id, customer: Id, op: CartOp): Result<State> {
    match op
    case AddItem(item) =>
      if Visible(s.variants, tenant, item.variant) then Ok(s.(carts := Put(s.carts, tenant, customer, item)))
      else Err(BadRequest)
    case UpdateItem(variant, quantity) =>
      Ok(s.(carts := SetQuantity(s.carts, tenant, customer, variant, quantity)))
    case RemoveItem(variant) =>
      Ok(s.(carts := Without(s.carts, tenant, customer, {variant})))
    case ClearCart =>
      Ok(s.(carts := map k | k in s.carts && !(k.customer == customer && s.carts[k].tenant == tenant) :: s.carts[k]))
    case MergeCart(items) =>
      Ok(s.(carts := MergeItems(s.carts, tenant, customer, ValidVariants(s.variants, tenant), items)))
  }

  // ── Properties ────────────────────────────────────────────────────────────

  /** Every row holds between 1 and 99 units. */
  predicate CartsOk(carts: CartTable) {
    forall k :: k in carts ==> 1 <= carts[k].quantity <= MAX_CART_QUANTITY
  }

  function MergedUnits(v: Id): CartItem -> int {
    (i: CartItem) => if i.variant == v then i.quantity else 0
  }

  predicate Mentions(items: seq<CartItem>, v: Id) {
    exists i :: i in items && i.variant == v
  }

  /** The closed form of a merge: a valid variant in the list ends at min(99, old quantity + everything
      merged for it), creating a row of the tenant if there was none; every other row is untouched. */
  lemma {:induction false} MergeClosedForm(
      carts: CartTable, tenant: Id, customer: Id, valid: set<Id>, items: seq<CartItem>, k: CartKey)
    requires QuantitiesOk(items)
    ensures var merged := MergeItems(carts, tenant, customer, valid, items);
            if k.customer == customer && k.variant in valid && Mentions(items, k.variant) then
              && k in merged
              && merged[k].quantity
                 == Min(99, QuantityIn(carts, customer, k.variant) + Sum(MergedUnits(k.variant), items))
              && merged[k].tenant == (if k in carts then carts[k].tenant else tenant)
            else
              && (k in merged <==> k in carts)
              && (k in carts ==> merged[k] == carts[k])
  {
    if items != [] {
      var init, item := items[..|items| - 1], items[|items| - 1];
      MergeClosedForm(carts, tenant, customer, valid, init, k);
      assert items == init + [item];
      assert Mentions(items, k.variant) <==> Mentions(init, k.variant) || item.variant == k.variant by {
        if Mentions(init, k.variant) {
          var i :| i in init && i.variant == k.variant;
          assert i in items;
        }
        if item.variant == k.variant {
          assert item in items;
        }
      }
      assert 1 <= item.quantity by { assert item in items; }
      UnmentionedUnits(init, k.variant);
    }
  }

  lemma {:induction false} UnmentionedUnits(items: seq<CartItem>, v: Id)
    requires QuantitiesOk(items)
    ensures 0 <= Sum(MergedUnits(v), items)
    ensures !Mentions(items, v) ==> Sum(MergedUnits(v), items) == 0
  {
    if items != [] {
      var init := items[..|items| - 1];
      UnmentionedUnits(init, v);
      assert forall i :: i in init ==> i in items;
      assert items[|items| - 1] in items;
    }
  }

  /** The result of a merge does not depend on the order of the local cart. */
  lemma MergeIgnoresOrder(
      carts: CartTable, tenant: Id, customer: Id, valid: set<Id>, a: seq<CartItem>, b: seq<CartItem>)
    requires QuantitiesOk(a) && multiset(a) == multiset(b)
    ensures MergeItems(carts, tenant, customer, valid, a) == MergeItems(carts, tenant, customer, valid, b)
  {
    SameElements(a, b);
    SameElements(b, a);
    var x := MergeItems(carts, tenant, customer, valid, a);
    var y := MergeItems(carts, tenant, customer, valid, b);
    forall k: CartKey ensures (k in x <==> k in y) && (k in x ==> x[k] == y[k]) {
      MergeClosedForm(carts, tenant, customer, valid, a, k);
      MergeClosedForm(carts, tenant, customer, valid, b, k);
      SumPermutation(MergedUnits(k.variant), a, b);
    }
  }

  /** Merging two lists one after the other is merging their concatenation. */
  lemma {:induction false} MergeTwice(
      carts: CartTable, tenant: Id, customer: Id, valid: set<Id>, a: seq<CartItem>, b: seq<CartItem>)
    ensures MergeItems(MergeItems(carts, tenant, customer, valid, a), tenant, customer, valid, b)
         == MergeItems(carts, tenant, customer, valid, a + b)
  {
    if b == [] {
      assert a + b == a;
    } else {
      assert (a + b)[..|a + b| - 1] == a + b[..|b| - 1];
      MergeTwice(carts, tenant, customer, valid, a, b[..|b| - 1]);
    }
  }

  /** Adding the items of a list one call at a time; rejected calls leave the cart alone. */
  function AddAll(s: State, tenant: Id, customer: Id, items: seq<CartItem>): State {
    if items == [] then s
    else
      var before := AddAll(s, tenant, customer, items[..|items| - 1]);
      After(before, CartAttempt(before, tenant, customer, AddItem(items[|items| - 1])))
  }

  /** A merge equals one `addItem` call per item, the unavailable ones being rejected. */
  lemma {:induction false} MergeIsRepeatedAdd(s: State, tenant: Id, customer: Id, items: seq<CartItem>)
    ensures CartAttempt(s, tenant, customer, MergeCart(items)) == Ok(AddAll(s, tenant, customer, items))
  {
    if items != [] {
      MergeIsRepeatedAdd(s, tenant, customer, items[..|items| - 1]);
    }
  }

  lemma {:induction false} MergeKeepsCartsOk(
      carts: CartTable, tenant: Id, customer: Id, valid: set<Id>, items: seq<CartItem>)
    requires CartsOk(carts) && QuantitiesOk(items)
    ensures CartsOk(MergeItems(carts, tenant, customer, valid, items))
  {
    if items != [] {
      assert forall i :: i in items[..|items| - 1] ==> i in items;
      assert items[|items| - 1] in items;
      MergeKeepsCartsOk(carts, tenant, customer, valid, items[..|items| - 1]);
    }
  }

  /** A cart call only writes the cart table. */
  lemma CartOpFrame(s: State, tenant: Id, customer: Id, op: CartOp)
    ensures var t := After(s, CartAttempt(s, tenant, customer, op));
            t == s.(carts := t.carts)
  {}

  lemma CartOpKeepsCartsOk(s: State, tenant: Id, customer: Id, op: CartOp)
    requires CartsOk(s.carts) && OpOk(op)
    ensures CartsOk(After(s, CartAttempt(s, tenant, customer, op)).carts)
  {
    match op {
      case MergeCart(items) =>
        MergeKeepsCartsOk(s.carts, tenant, customer, ValidVariants(s.variants, tenant), items);
      case _ =>
    }
  }

  /** Where a merge or an addition creates or raises, `updateItem` overwrites: a row of the tenant ends at
      min(99, quantity), or disappears for 0; no row is created, and no other row changes. */
  lemma UpdateOverwrites(s: State, tenant: Id, customer: Id, variant: Id, quantity: int, k: CartKey)
    requires CartsOk(s.carts) && 0 <= quantity
    ensures var key := CartKey(customer, variant);
            var t := After(s, CartAttempt(s, tenant, customer, UpdateItem(variant, quantity)));
            && (key in s.carts && s.carts[key].tenant == tenant ==>
                  QuantityIn(t.carts, customer, variant) == Min(99, quantity)
                  && (key in t.carts <==> quantity > 0))
            && (key !in s.carts || s.carts[key].tenant != tenant ==> t.carts == s.carts)
            && (k != key ==> (k in t.carts <==> k in s.carts) && (k in s.carts ==> t.carts[k] == s.carts[k]))
  {
    var key := CartKey(customer, variant);
    if key !in s.carts || s.carts[key].tenant != tenant {
      assert Without(s.carts, tenant, customer, {variant}) == s.carts;
    }
  }

  /** Adding is accepted exactly for a published variant of the tenant, whatever its stock. The row then holds the old
      quantity, or none, plus the added one, at most 99, and no other row changes. */
  lemma AddItemEffect(s: State, tenant: Id, customer: Id, item: CartItem, k: CartKey)
    ensures var r, key := CartAttempt(s, tenant, customer, AddItem(item)), CartKey(customer, item.variant);
            && (r.Ok? <==> item.variant in s.variants && s.variants[item.variant].tenant == tenant
                           && s.variants[item.variant].active)
            && (r.Err? ==> r == Err(BadRequest))
            && (r.Ok? ==>
                  && r.value == s.(carts := r.value.carts) && key in r.value.carts
                  && r.value.carts[key].quantity == Min(99, QuantityIn(s.carts, customer, item.variant) + item.quantity)
                  && (key !in s.carts ==> r.value.carts[key].tenant == tenant)
                  && (k != key ==> (k in r.value.carts <==> k in s.carts)
                                   && (k in s.carts ==> r.value.carts[k] == s.carts[k])))
  {}

  /** Removing deletes exactly the customer's row of the variant in the tenant, clearing exactly all their rows there. */
  lemma RemovalEffect(s: State, tenant: Id, customer: Id, variant: Id, k: CartKey)
    ensures var removed := CartAttempt(s, tenant, customer, RemoveItem(variant));
            && removed.Ok? && removed.value == s.(carts := removed.value.carts)
            && (k in removed.value.carts <==>
                  k in s.carts && !(k == CartKey(customer, variant) && s.carts[k].tenant == tenant))
            && (k in removed.value.carts ==> removed.value.carts[k] == s.carts[k])
    ensures var cleared := CartAttempt(s, tenant, customer, ClearCart);
            && cleared.Ok? && cleared.value == s.(carts := cleared.value.carts)
            && (k in cleared.value.carts <==> k in s.carts && !(k.customer == customer && s.carts[k].tenant == tenant))
            && (k in cleared.value.carts ==> cleared.value.carts[k] == s.carts[k])
  {}

  /** No cart call of a customer touches a row of another customer. */
  lemma OtherCartsUntouched(s: State, tenant: Id, customer: Id, op: CartOp, k: CartKey)
    requires k.customer != customer && OpOk(op)
    ensures var t := After(s, CartAttempt(s, tenant, customer, op));
            (k in t.carts <==> k in s.carts) && (k in s.carts ==> t.carts[k] == s.carts[k])
  {
    if op.MergeCart? {
      MergeClosedForm(s.carts, tenant, customer, ValidVariants(s.variants, tenant), op.items, k);
    }
  }

  // ── The answer of a cart call ─────────────────────────────────────────────

  /** The cart rows of the customer in the tenant. */
  function RowKeys(carts: CartTable, tenant: Id, customer: Id): set<CartKey> {
    set k | k in carts && k.customer == customer && carts[k].tenant == tenant
  }

  /** What the query of the customer's rows may return: each row once. */
  predicate IsCartListing(carts: CartTable, tenant: Id, customer: Id, items: seq<CartItem>) {
    && (forall i, j :: 0 <= i < j < |items| ==> items[i].variant != items[j].variant)
    && (forall i :: i in items ==>
          var k := CartKey(customer, i.variant);
          k in RowKeys(carts, tenant, customer) && carts[k].quantity == i.quantity)
    && (forall k :: k in RowKeys(carts, tenant, customer) ==> CartItem(k.variant, carts[k].quantity) in items)
  }

  const EMPTY_CART := Priced([], [], 0, 0, 0, 0, false, NoCode)

  /** The response with a cart: an empty cart costs nothing, not even shipping; any other is priced one-time. */
  function CartPrice(s: State, tenant: Id, customer: Id, items: seq<CartItem>, code: Option<Id>): Result<Priced> {
    if items == [] then Ok(EMPTY_CART) else PriceOf(s, tenant, items, OneTime, code, Some(customer))
  }

  /** Every row the customer has in the tenant is for sale one-time. */
  predicate CartSellable(s: State, tenant: Id, customer: Id) {
    forall k :: k in RowKeys(s.carts, tenant, customer) ==>
      Sellable(s.variants, tenant, OneTime, CartItem(k.variant, s.carts[k].quantity))
  }

  /** The answer to a call. All but `clearCart` price the stored cart after writing, and a cart that cannot be
      priced turns a write that happened into an error. */
  function CartAnswer(s: State, tenant: Id, customer: Id, op: CartOp): Result<()> {
    match CartAttempt(s, tenant, customer, op)
    case Err(e) => Err(e)
    case Ok(t) => if op.ClearCart? || CartSellable(t, tenant, customer) then Ok(()) else Err(BadRequest)
  }

  /** Pricing a stored cart succeeds exactly when every row is for sale one-time, whatever order the rows come in. */
  lemma CartPriceOkIff(s: State, tenant: Id, customer: Id, items: seq<CartItem>, code: Option<Id>)
    requires IsCartListing(s.carts, tenant, customer, items)
    ensures CartPrice(s, tenant, customer, items, code).Ok? <==> CartSellable(s, tenant, customer)
    ensures CartPrice(s, tenant, customer, items, code).Err? ==>
              CartPrice(s, tenant, customer, items, code) == Err(BadRequest)
    ensures items == [] ==>
              var p := CartPrice(s, tenant, customer, items, code).value;
              p.lines == [] && p.subtotalCents == p.discountCents == p.shippingCents == p.totalCents == 0
              && !p.hasStockIssues && p.discount.NoCode?
    ensures items != [] && code.Some? && CartPrice(s, tenant, customer, items, code).Ok? ==>
              var p := CartPrice(s, tenant, customer, items, code).value;
              p.discount == ValidateDiscount(s, tenant, code.value, p.subtotalCents, Some(customer))
  {
    if CartSellable(s, tenant, customer) {
      forall i | i in items ensures Sellable(s.variants, tenant, OneTime, i) {
        assert CartKey(customer, i.variant) in RowKeys(s.carts, tenant, customer);
      }
    } else {
      var k :| k in RowKeys(s.carts, tenant, customer)
               && !Sellable(s.variants, tenant, OneTime, CartItem(k.variant, s.carts[k].quantity));
      assert CartItem(k.variant, s.carts[k].quantity) in items;
    }
  }

  /** The amounts of a stored cart do not depend on the order its rows come in. */
  lemma CartPriceIgnoresOrder(
      s: State, tenant: Id, customer: Id, a: seq<CartItem>, b: seq<CartItem>, code: Option<Id>)
    requires IsCartListing(s.carts, tenant, customer, a) && IsCartListing(s.carts, tenant, customer, b)
    ensures SameAmounts(CartPrice(s, tenant, customer, a, code), CartPrice(s, tenant, customer, b, code))
  {
    SameListing(s.carts, tenant, customer, a, b);
    SameListing(s.carts, tenant, customer, b, a);
    DistinctItems(a);
    DistinctItems(b);
    assert multiset(a) == multiset(b);
    assert a == [] <==> b == [] by {
      assert a != [] ==> a[0] in a;
      assert b != [] ==> b[0] in b;
    }
    PriceIgnoresOrder(s, tenant, a, b, OneTime, code, Some(customer));
  }

  lemma SameListing(carts: CartTable, tenant: Id, customer: Id, a: seq<CartItem>, b: seq<CartItem>)
    requires IsCartListing(carts, tenant, customer, a) && IsCartListing(carts, tenant, customer, b)
    ensures forall i :: i in a ==> i in b
  {
    forall i | i in a ensures i in b {
      var k := CartKey(customer, i.variant);
      assert k in RowKeys(carts, tenant, customer);
    }
  }

  lemma {:induction false} DistinctItems(items: seq<CartItem>)
    requires forall i, j :: 0 <= i < j < |items| ==> items[i].variant != items[j].variant
    ensures forall i :: multiset(items)[i] == if i in items then 1 else 0
  {
    if items != [] {
      var init, last := items[..|items| - 1], items[|items| - 1];
      assert items == init + [last];
      DistinctItems(init);
    }
  }

  /** A row that is not for sale one-time - its product hidden, or subscription-only - makes every cart call that
      leaves it in place answer an error, although the call writes. */
  lemma UnsellableRowSticks(s: State, tenant: Id, customer: Id, op: CartOp, k: CartKey)
    requires CartAttempt(s, tenant, customer, op).Ok? && !op.ClearCart?
    requires var t := CartAttempt(s, tenant, customer, op).value;
             k in RowKeys(t.carts, tenant, customer)
             && !Sellable(s.variants, tenant, OneTime, CartItem(k.variant, t.carts[k].quantity))
    ensures CartAnswer(s, tenant, customer, op) == Err(BadRequest)
  {
    CartOpFrame(s, tenant, customer, op);
  }

  /** A published subscription-only variant passes the check of `addItem`: the row is stored and the call answers an
      error; and of the cart calls that may come next, none that answers Ok leaves the row in place. */
  lemma SubscriptionOnlyAdded(s: State, tenant: Id, customer: Id, item: CartItem)
    requires Visible(s.variants, tenant, item.variant) && s.variants[item.variant].avail == SubscriptionOnly
    requires CartKey(customer, item.variant) !in s.carts
    ensures var key := CartKey(customer, item.variant);
            var t := After(s, CartAttempt(s, tenant, customer, AddItem(item)));
            && t.carts == s.carts[key := CartRow(tenant, Min(99, item.quantity))]
            && CartAnswer(s, tenant, customer, AddItem(item)) == Err(BadRequest)
            && (forall op | CartAnswer(t, tenant, customer, op).Ok? ::
                  key !in After(t, CartAttempt(t, tenant, customer, op)).carts)
  {
    var key := CartKey(customer, item.variant);
    var t := After(s, CartAttempt(s, tenant, customer, AddItem(item)));
    UnsellableRowSticks(s, tenant, customer, AddItem(item), key);
    forall op | CartAnswer(t, tenant, customer, op).Ok?
      ensures key !in After(t, CartAttempt(t, tenant, customer, op)).carts
    {
      KeptRowKeepsTenant(t, tenant, customer, op, key);
      var u := After(t, CartAttempt(t, tenant, customer, op));
      if key in u.carts && !op.ClearCart? {
        UnsellableRowSticks(t, tenant, customer, op, key);
      }
    }
  }

  /** A row that survives a call keeps its tenant, and clearing leaves none of the tenant's rows. */
  lemma KeptRowKeepsTenant(s: State, tenant: Id, customer: Id, op: CartOp, k: CartKey)
    requires k in RowKeys(s.carts, tenant, customer)
    ensures var t := After(s, CartAttempt(s, tenant, customer, op));
            k in t.carts ==> t.carts[k].tenant == tenant && !op.ClearCart?
  {
    if op.MergeCart? {
      MergeKeepsTenant(s.carts, tenant, customer, ValidVariants(s.variants, tenant), op.items, k);
    }
  }

  lemma {:induction false} MergeKeepsTenant(
      carts: CartTable, tenant: Id, customer: Id, valid: set<Id>, items: seq<CartItem>, k: CartKey)
    requires k in carts
    ensures var merged := MergeItems(carts, tenant, customer, valid, items);
            k in merged && merged[k].tenant == carts[k].tenant
  {
    if items != [] {
      MergeKeepsTenant(carts, tenant, customer, valid, items[..|items| - 1], k);
    }
  }

  // ── The service ───────────────────────────────────────────────────────────

  class CartService {
    const prisma: Prisma

    constructor (prisma: Prisma)
      ensures this.prisma == prisma
    {
      this.prisma := prisma;
    }

    /** Prices a list of items with the accumulating loop of the service. */
    method Price(tenant: Id, items: seq<CartItem>, mode: Mode, code: Option<Id>, customer: Option<Id>)
      returns (r: Result<Priced>)
      ensures r == PriceOf(prisma.Model(), tenant, items, mode, code, customer)
    {
      var variants := prisma.variants;
      var lines, flags := [], [];
      var subtotal, hasStockIssues := 0, false;
      var i := 0;
      while i < |items|
        invariant 0 <= i <= |items|
        invariant AllSellable(variants, tenant, mode, items[..i])
        invariant lines == LinesFor(variants, mode, items[..i])
        invariant flags == seq(i, k requires 0 <= k < i => Short(variants, items[k]))
        invariant subtotal == Subtotal(variants, mode, items[..i])
        invariant hasStockIssues == AnyShort(variants, items[..i])
      {
        var item := items[i];
        assert item in items;
        if !Visible(variants, tenant, item.variant) {
          return Err(BadRequest);
        }
        var v := variants[item.variant];
        if mode == OneTime && v.avail == SubscriptionOnly {
          return Err(BadRequest);
        }
        var unitCents := UnitCents(v, mode);
        var lineCents := unitCents * item.quantity;
        var outOfStock := v.stock < item.quantity;
        assert items[..i + 1] == items[..i] + [item];
        assert items[..i + 1][..i] == items[..i];
        if outOfStock {
          hasStockIssues := true;
          assert item in items[..i + 1];
        }
        subtotal := subtotal + lineCents;
        lines := lines + [Line(item.variant, unitCents, item.quantity, lineCents)];
        flags := flags + [outOfStock];
        i := i + 1;
      }
      assert items[..i] == items;
      var discount := DiscountFor(prisma.Model(), tenant, code, subtotal, customer);
      var discountCents := DiscountCents(discount);
      var shippingCents := ShippingFor(prisma.Model(), tenant, subtotal);
      var total := Max(0, subtotal - discountCents + shippingCents);
      r := Ok(Priced(lines, flags, subtotal, discountCents, shippingCents, total, hasStockIssues, discount));
    }

    /** The rows of the customer, in some order. */
    method FindRows(tenant: Id, customer: Id) returns (items: seq<CartItem>)
      ensures IsCartListing(prisma.carts, tenant, customer, items)
    {
      var rest := RowKeys(prisma.carts, tenant, customer);
      items := [];
      while rest != {}
        invariant rest <= RowKeys(prisma.carts, tenant, customer)
        invariant forall i, j :: 0 <= i < j < |items| ==> items[i].variant != items[j].variant
        invariant forall i :: i in items ==>
                    var k := CartKey(customer, i.variant);
                    k in RowKeys(prisma.carts, tenant, customer) && k !in rest && prisma.carts[k].quantity == i.quantity
        invariant forall k :: k in RowKeys(prisma.carts, tenant, customer) && k !in rest ==>
                    CartItem(k.variant, prisma.carts[k].quantity) in items
      {
        var k :| k in rest;
        assert k == CartKey(customer, k.variant);
        items := items + [CartItem(k.variant, prisma.carts[k].quantity)];
        rest := rest - {k};
      }
    }

    /** The stored cart with its price; an empty one is answered without pricing. */
    method GetCart(tenant: Id, customer: Id, code: Option<Id>) returns (r: Result<Priced>)
      ensures exists items :: IsCartListing(prisma.carts, tenant, customer, items)
                              && r == CartPrice(prisma.Model(), tenant, customer, items, code)
      ensures r.Ok? <==> CartSellable(prisma.Model(), tenant, customer)
      ensures r.Err? ==> r == Err(BadRequest)
    {
      var items := FindRows(tenant, customer);
      CartPriceOkIff(prisma.Model(), tenant, customer, items, code);
      if items == [] {
        return Ok(EMPTY_CART);
      }
      r := Price(tenant, items, OneTime, code, Some(customer));
    }

    method AddItem(tenant: Id, customer: Id, item: CartItem) returns (r: Result<()>)
      modifies prisma
      ensures prisma.Model() == After(old(prisma.Model()), CartAttempt(old(prisma.Model()), tenant, customer, CartOp.AddItem(item)))
      ensures r == CartAnswer(old(prisma.Model()), tenant, customer, CartOp.AddItem(item))
    {
      if !Visible(prisma.variants, tenant, item.variant) {
        return Err(BadRequest);
      }
      var key := CartKey(customer, item.variant);
      if key in prisma.carts {
        var existing := prisma.carts[key];
        prisma.carts := prisma.carts[key := existing.(quantity := Min(MAX_CART_QUANTITY, existing.quantity + item.quantity))];
      } else {
        prisma.carts := prisma.carts[key := CartRow(tenant, Min(MAX_CART_QUANTITY, item.quantity))];
      }
      var cart := GetCart(tenant, customer, None);
      r := Outcome(cart);
    }

    method UpdateItem(tenant: Id, customer: Id, variant: Id, quantity: int) returns (r: Result<()>)
      modifies prisma
      ensures prisma.Model() == After(old(prisma.Model()), CartAttempt(old(prisma.Model()), tenant, customer, CartOp.UpdateItem(variant, quantity)))
      ensures r == CartAnswer(old(prisma.Model()), tenant, customer, CartOp.UpdateItem(variant, quantity))
    {
      if quantity <= 0 {
        r := RemoveItem(tenant, customer, variant);
        return;
      }
      var key := CartKey(customer, variant);
      if key in prisma.carts && prisma.carts[key].tenant == tenant {
        prisma.carts := prisma.carts[key := prisma.carts[key].(quantity := Min(MAX_CART_QUANTITY, quantity))];
      }
      var cart := GetCart(tenant, customer, None);
      r := Outcome(cart);
    }

    method RemoveItem(tenant: Id, customer: Id, variant: Id) returns (r: Result<()>)
      modifies prisma
      ensures prisma.Model() == After(old(prisma.Model()), CartAttempt(old(prisma.Model()), tenant, customer, CartOp.RemoveItem(variant)))
      ensures r == CartAnswer(old(prisma.Model()), tenant, customer, CartOp.RemoveItem(variant))
    {
      prisma.carts := Without(prisma.carts, tenant, customer, {variant});
      var cart := GetCart(tenant, customer, None);
      r := Outcome(cart);
    }

    method ClearCart(tenant: Id, customer: Id) returns (r: Result<()>)
      modifies prisma
      ensures var result := CartAttempt(old(prisma.Model()), tenant, customer, CartOp.ClearCart);
              prisma.Model() == After(old(prisma.Model()), result) && r == Outcome(result)
    {
      prisma.carts := map k | k in prisma.carts && !(k.customer == customer && prisma.carts[k].tenant == tenant)
                        :: prisma.carts[k];
      r := Ok(());
    }

    method MergeCart(tenant: Id, customer: Id, items: seq<CartItem>) returns (r: Result<()>)
      modifies prisma
      ensures prisma.Model() == After(old(prisma.Model()), CartAttempt(old(prisma.Model()), tenant, customer, CartOp.MergeCart(items)))
      ensures r == CartAnswer(old(prisma.Model()), tenant, customer, CartOp.MergeCart(items))
    {
      var valid := ValidVariants(prisma.variants, tenant);
      var i := 0;
      while i < |items|
        invariant 0 <= i <= |items|
        invariant valid == ValidVariants(prisma.variants, tenant)
        invariant prisma.Model()
               == old(prisma.Model()).(carts := MergeItems(old(prisma.carts), tenant, customer, valid, items[..i]))
      {
        var item := items[i];
        assert items[..i + 1][..i] == items[..i];
        if item.variant in valid {
          var key := CartKey(customer, item.variant);
          if key in prisma.carts {
            var existing := prisma.carts[key];
            prisma.carts := prisma.carts[key := existing.(quantity := Min(MAX_CART_QUANTITY, existing.quantity + item.quantity))];
          } else {
            prisma.carts := prisma.carts[key := CartRow(tenant, Min(MAX_CART_QUANTITY, item.quantity))];
          }
        }
        i := i + 1;
      }
      assert items[..i] == items;
      var cart := GetCart(tenant, customer, None);
      r := Outcome(cart);
    }
  }
}
