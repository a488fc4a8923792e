# Shop backend: a verified model

This project models the stateful core of a multi-tenant coffee-shop backend: carts and pricing, discount codes,
orders and their payments through Stripe and MercadoPago, subscriptions and their daily renewal, manual product
collections, slugs, the audit log's pages, the login lockout and the commission agreement between the platform
and a tenant. It proves what these services promise together, over every run and every input.

`dafny verify dfyconfig.toml` checks the whole project.

## How it is built

Database tables are maps. `ShopState.State` is the whole shop database with the server clock in milliseconds;
`ShopState.Prisma` is the same thing as a class whose fields the services reassign, and `Prisma.Model()` ties the
two together. Each service of the original is a class (`Carts.CartService`, `PaymentServices.StripeService`,
`SubscriptionServices.SubscriptionRenewalService`, ...) whose methods keep the original's branches, loops and order
of writes. Each method is proved equal to an operation on `State`, including the error it answers. A rejected
operation changes nothing. Some calls answer an error after they have written, because a later part of them fails:
the four cart writes that end by pricing the stored cart, a checkout whose charge fails, a new subscription whose
setup intent fails, a renewal whose charge fails or cannot be stored. Their contracts state what is left. The
theorems are about those operations. For each of them one lemma, named after its effect, says when it is accepted
and everything it leaves, in terms of the stored values; the rest are about what the operations do together:

* `Rounding`, `Pricing`, `Carts`, `Promotions`: money arithmetic, the priced cart, the saturating cart, and the
  rules on discount codes that pricing rests on.
* `Orders`, `PaymentServices`: checkout, both providers' deliveries, the fulfilment machine with its refunds of
  stock and coupon.
* `Subscriptions`, `SubscriptionServices`: transitions of a subscription by operator, owner, webhook and batch.
* `ShopRuns`: all of these as one state machine. A step is a clock tick, a catalogue edit, a promotion call, a
  cart call, an order call or a subscription call; a run is any list of steps.
* `OrderRuns`, `LedgerRuns`, `Cancellations`, `OneUseRuns`, `RedemptionRuns`, `RenewalRuns`, `CartRuns`: theorems
  about whole runs.
* `Collections`, `Slugs`, `AuditPages`, `Lockout`, `Commission`: five self-contained cores.

Request validation (quantities from 1, percentages 0 to 100, frequencies 7 to 365 days, prices not negative)
appears as `OpOk`, `StepOk` and similar predicates. The uniqueness constraints of the schema are guards that make
a call fail without effect. Row ids, discount codes and event ids are natural numbers, compared for equality only,
except in the audit log, which breaks ties of its order by id. What the network answers (a charge, a payment status, a
stored failure) is a parameter, so every theorem holds for every answer.

## Where the code and its own words differ

The model follows the code. Each difference is stated as a theorem that says exactly when the words hold.

* The stock loop is described as decrementing "without going negative". It gates each line on a positive stock but
  takes the line whole, and checkout compares stock line by line. `Orders.StaysNonNegativeIff` gives the exact
  condition, `Cancellations.OversoldExample` an accepted checkout that ends at -2, and
  `LedgerRuns.StockNeverBelow` the bound that does hold in every run.
* Cancelling is meant to restore what the payment took, but a line the gate skipped is given back too.
  `Cancellations.PaidThenCancelled` says by how much, and exactly when the two undo each other;
  `Cancellations.PhantomUnit` is a run that creates a unit.
* Paid is not final: a later failed event overwrites it, and a cancellation after that gives nothing back.
  `OrderRuns.PaidAtEndIff` and `OrderRuns.StaysPaidIff` say exactly when an order is and stays paid,
  `OrderRuns.CancellationRestoresIff` what that means for a cancellation, and `OrderRuns.FailedThenCancelled` is
  the losing run.
* A code of one use per customer is checked when pricing, against paid orders only. `OneUseRuns.UsedTwiceIff` gives
  the exact condition for a second use, `OneUseRuns.OneUseTwice` the run, `OneUseRuns.OneUseHolds` what a checkout
  would have to look at.
* A redemption limit is checked when pricing as well. `RedemptionRuns.LimitIff` gives the exact condition for passing
  it, `RedemptionRuns.LimitPassed` the run at the last redemption, `RedemptionRuns.LimitHolds` the check that would
  keep it, and `RedemptionRuns.LimitUnboundedIff` what several events for one order do.
* Cancelling a paid order is meant to give the coupon back, but the guard on a positive counter can swallow that after
  a code was deleted and created again: `RedemptionRuns.RecreatedCode`, with the exact condition in
  `RedemptionRuns.SwallowsIff`.
* Adding to a cart is meant to admit what can be bought, but a subscription-only variant is stored and answered with
  an error: `Carts.SubscriptionOnlyAdded`. `Carts.CartPriceOkIff` says exactly when a cart call can answer, and
  `CartRuns.SubscriptionOnlySticks` that the error lasts while the row is there and the product stays so.
* A success recorded after the order was cancelled takes stock and counts the code for good:
  `Cancellations.PaidAfterCancelled`, with the exact condition in `Cancellations.RestorableIff`.
* Renewals are spaced by their frequency, but a charge whose result could not be stored can be repeated at once:
  `RenewalRuns.ChargedEarlyIff`.
* Cancelling a subscription is called terminal. A first setup event for it makes it active again, and nothing else
  does: `RenewalRuns.CancelledChangesIff`.
* Reordering a collection demands "exactly the linked products" but accepts a list with repetitions:
  `Collections.ReorderRefinesIff`, `Collections.ReorderDistinctIff`, `Collections.DuplicateReorderCollides`.
* A product name without letters or digits can get a slug that starts with a dash: `Slugs.ProductSlug`.

## Model

| member | source | states |
|---|---|---|
| Rounding.RoundHundredths | src/modules/stripe/stripe.service.ts:70-74 | rounding a number of hundredths, halves upwards, is floor division of n + 50, for negative n as well |
| Rounding.PercentBounds | src/modules/cart/cart.service.ts:377-380 | a rounded percentage of 0 to 100 lies between 0 and the amount and is the exact value to the nearest cent, halves upwards |
| Rounding.NetPriceMonotone | src/modules/subscriptions/subscription-renewal.service.ts:98-101 | for a fixed percentage a higher price never gives a lower net price |
| Rounding.ChargedWithinFiftyCents | src/modules/stripe/stripe.service.ts:164-166 | the whole pesos charged are within 50 hundredths of the stored total |
| Rounding.FeeBounds | src/modules/mercadopago/mercadopago.service.ts:199-203 | the twice rounded marketplace fee is between 0 and the payment, and within 5000 + 50·pct ten-thousandths of the exact share of the stored total |
| Pricing.LinesSumToSubtotal | src/modules/cart/cart.service.ts:52-93 | the subtotal is the sum of the line amounts |
| Pricing.DiscountAmountBounds | src/modules/cart/cart.service.ts:377-382 | under the promotion rules a discount is never negative and never more than the subtotal |
| Pricing.AcceptedIff | src/modules/cart/cart.service.ts:332-383 | a code is accepted if and only if it is active, in its window, below its limit, above its minimum and, when one-use, unused by a known customer; its amount is then exact to half a cent or the fixed value up to the subtotal |
| Pricing.TotalIsExact | src/modules/cart/cart.service.ts:52-119 | every priced cart has line = unit × quantity, subtotal = sum of lines, 0 ≤ discount ≤ subtotal and total = subtotal − discount + shipping: the clamp at zero never applies |
| Pricing.PricedAsStored | src/modules/cart/cart.service.ts:36-103 | a cart is priced if and only if every item is a published variant of the tenant for sale in the mode; each line has the stored price of its mode, its own stock verdict, and exactly the accepted code's amount is taken off |
| Pricing.ShippingByThreshold | src/modules/cart/cart.service.ts:385-400 | shipping is free from the threshold on and costs the flat fee below it, with 150.000 and 12.000 pesos where a tenant sets none |
| Pricing.RefusedFor | src/modules/cart/cart.service.ts:341-375 | a refused code really fails the check named as the reason |
| Pricing.PriceIgnoresOrder | src/modules/cart/cart.service.ts:56-119 | permuting the items changes no amount, no discount verdict and no stock verdict |
| Pricing.MergeLines | src/modules/cart/cart.service.ts:56-119 | merging two lines of a variant keeps every amount; the stock verdict can only turn from fine to short, and is short exactly when another line is or the summed quantity exceeds the stock |
| Carts.CartService.Price | src/modules/cart/cart.service.ts:28-120 | the accumulating loop computes the priced cart of the specification, with its errors |
| Carts.CartService.GetCart | src/modules/cart/cart.service.ts:127-172 | the stored rows, each once and in some order, priced one-time, an empty cart costing nothing; succeeds exactly when every row is for sale one-time |
| Carts.CartService.AddItem | src/modules/cart/cart.service.ts:177-224 | one row created or raised, saturating at 99; an unavailable variant is rejected without effect; otherwise answers Ok exactly when every row now stored is for sale one-time |
| Carts.CartService.UpdateItem | src/modules/cart/cart.service.ts:229-245 | overwrites a row of the tenant, or deletes it for 0; answers Ok exactly when every remaining row is for sale one-time |
| Carts.CartService.RemoveItem | src/modules/cart/cart.service.ts:250-260 | deletes exactly the customer's row of the variant in the tenant; answers Ok exactly when every remaining row is for sale one-time |
| Carts.CartService.ClearCart | src/modules/cart/cart.service.ts:265-274 | deletes exactly the customer's rows in the tenant |
| Carts.CartService.MergeCart | src/modules/cart/cart.service.ts:279-329 | the loop over local items computes the merge of the specification; answers Ok exactly when every row it leaves is for sale one-time |
| Carts.MergeClosedForm | src/modules/cart/cart.service.ts:299-326 | after merging any list each valid variant in it has min(99, old + sum of its merged quantities); every other row is untouched |
| Carts.MergeIgnoresOrder | src/modules/cart/cart.service.ts:299-326 | the order of the local cart does not matter |
| Carts.MergeTwice | src/modules/cart/cart.service.ts:299-326 | merging two lists in turn equals merging their concatenation |
| Carts.MergeIsRepeatedAdd | src/modules/cart/cart.service.ts:177-326 | a merge equals one addition per item, the unavailable ones being rejected |
| Carts.CartOpKeepsCartsOk | src/modules/cart/cart.service.ts:177-329 | every cart call keeps all quantities within 1..99 |
| Carts.UpdateOverwrites | src/modules/cart/cart.service.ts:229-260 | an update sets min(99, quantity) on an existing row, removes it for 0, never creates one and touches no other row |
| Carts.AddItemEffect | src/modules/cart/cart.service.ts:182-221 | adding is accepted if and only if the variant is published in the tenant; exactly its row changes, to min(99, old + added) |
| Carts.RemovalEffect | src/modules/cart/cart.service.ts:250-274 | a removal takes exactly the customer's row of the variant in the tenant, clearing exactly all their rows there |
| Carts.OtherCartsUntouched | src/modules/cart/cart.service.ts:177-329 | no cart call touches another customer's rows |
| Carts.CartPriceOkIff | src/modules/cart/cart.service.ts:132-165 | a stored cart can be priced if and only if every row is for sale one-time |
| Carts.CartPriceIgnoresOrder | src/modules/cart/cart.service.ts:132-165 | the order the rows come in changes no amount of the response |
| Carts.UnsellableRowSticks | src/modules/cart/cart.service.ts:223-328 | a row not for sale one-time makes every add, update, removal and merge that leaves it in place answer an error although it writes |
| Carts.SubscriptionOnlyAdded | src/modules/cart/cart.service.ts:182-223 | adding a published subscription-only variant stores the row and answers an error; of the cart calls that may come next none that answers Ok leaves the row in place |
| CartRuns.SubscriptionOnlySticks | src/modules/cart/cart.service.ts:223-328 | through any run in which the product stays subscription-only, no add, update, removal or merge answers Ok that leaves such a row in the cart |
| Promotions.AdminPromotionsService.Create | src/modules/promotions/admin-promotions.service.ts:35-54 | stores the new code with a zero counter, or rejects a bad value, window or taken code |
| Promotions.AdminPromotionsService.Update | src/modules/promotions/admin-promotions.service.ts:56-103 | applies a partial edit; the value is only re-checked when kind or value is sent |
| Promotions.AdminPromotionsService.Remove | src/modules/promotions/admin-promotions.service.ts:105-109 | deletes exactly the named code |
| Promotions.PromoOpKeepsCodesOk | src/modules/promotions/admin-promotions.service.ts:35-120 | every create, edit and delete keeps each percentage code within 1..100 and each window non-empty, although edits are checked partially |
| Promotions.PromoOpKeepsCounters | src/modules/promotions/admin-promotions.service.ts:56-103 | no call resets or forges a redemption counter unless the code is deleted or renamed |
| Promotions.CreateEffect | src/modules/promotions/admin-promotions.service.ts:35-54 | a code is created if and only if it is free and its value and window are admissible; every field is stored as sent, unused, by default active and not one-use |
| Promotions.UpdateEffect | src/modules/promotions/admin-promotions.service.ts:83-102 | an edit stores each sent field, keeps every other, the counter included, and touches no other code |
| Promotions.UpdateAndRemoveIff | src/modules/promotions/admin-promotions.service.ts:56-109 | exactly when an edit and a removal are accepted |
| Orders.TakeLinesEffect | src/modules/stripe/stripe.service.ts:203-209 | a success lowers a variant's stock by the ordered units less those on skipped lines, repeated variants included, and changes nothing else |
| Orders.SkippedBounds | src/modules/stripe/stripe.service.ts:205-207 | skipped units are between 0 and the demand, and all of it once the stock is at or below zero |
| Orders.StockFloor | src/modules/stripe/stripe.service.ts:205-207 | one success leaves at least 1 − Q when no line asks for more than Q |
| Orders.StaysNonNegativeIff | src/modules/stripe/stripe.service.ts:203-209 | a success leaves the stock non-negative if and only if it covers the whole demand or some first part of the lines uses it up to the unit |
| Orders.NothingSkippedIff | src/modules/stripe/stripe.service.ts:203-209 | the gate skips no unit of a variant if and only if before each of its lines the demand of the earlier lines is below the stock |
| Orders.GiveLinesEffect | src/modules/orders/admin-orders.service.ts:101-106 | a cancellation raises each variant's stock by the order's whole demand and changes nothing else |
| Orders.PlaceEffect | src/modules/orders/checkout.service.ts:35-85 | a checkout stores a pending order of exactly the asked items, each for sale and in stock, at the priced amounts and with the code exactly when accepted, and removes exactly the bought variants from the customer's cart |
| Orders.PlaceAcceptedIff | src/modules/orders/checkout.service.ts:19-41 | a checkout is accepted if and only if the tenant exists, the cart can be priced and no item alone exceeds its stock |
| Orders.MpReportEffect | src/modules/mercadopago/mercadopago.service.ts:315-383 | approved settles once; any other state stores failed, refunded or pending and the payment id on the order, and changes nothing else |
| Orders.StripeSucceededEffect | src/modules/stripe/stripe.service.ts:177-218 | a success is recorded once; it pays, takes stock and counts the code of a known order and only leaves the record for an unknown one |
| Orders.StripeFailedEffect | src/modules/stripe/stripe.service.ts:228-246 | a failure is recorded once and marks its order failed; for an unknown order nothing is recorded |
| Orders.StatusAcceptedIff | src/modules/orders/admin-orders.service.ts:76-141 | a status change is accepted if and only if it repeats the status or, before delivery or cancellation, takes the next one or cancels; it sets the status alone on the row |
| Orders.NewOrderOk | src/modules/orders/checkout.service.ts:54-84 | the stored row's amounts agree with its lines |
| Orders.OrderOpKeepsSnapshots | src/modules/orders/admin-orders.service.ts:76-159 | no order call deletes a row or rewrites its amounts, items, code or owner |
| Orders.OrderOpKeepsOrdersOk | src/modules/orders/checkout.service.ts:54-84 | every order call keeps the amounts of all order rows consistent |
| PaymentServices.StripeService.OnPaymentSucceeded | src/modules/stripe/stripe.service.ts:177-226 | the handler's writes and its gated loop make exactly the recorded success of the specification |
| PaymentServices.StripeService.OnPaymentFailed | src/modules/stripe/stripe.service.ts:228-246 | overwrites the payment status once per event; a missing order rolls the record back |
| PaymentServices.StripeService.OnSetupIntentSucceeded | src/modules/stripe/stripe.service.ts:248-266 | activates the named subscription once per event, or fails on the one-active index without effect |
| PaymentServices.MercadoPagoService.PaymentAmounts | src/modules/mercadopago/mercadopago.service.ts:199-203 | the amount and fee sent stay within the rounding bounds of the stored total and percentage |
| PaymentServices.MercadoPagoService.CreatePayment | src/modules/mercadopago/mercadopago.service.ts:178-230 | the synchronous answer is applied to the order; an unknown order is rejected |
| PaymentServices.MercadoPagoService.HandleWebhook | src/modules/mercadopago/mercadopago.service.ts:251-276 | the notification is applied to the order found by payment id, and ignored without one |
| PaymentServices.MercadoPagoService.ApplyPaymentStatus | src/modules/mercadopago/mercadopago.service.ts:315-336 | approved settles the order; every other state sets failed, refunded or pending |
| PaymentServices.MercadoPagoService.MarkOrderPaid | src/modules/mercadopago/mercadopago.service.ts:339-384 | a payment id is settled once: row, stock and counter |
| PaymentServices.AdminOrdersService.UpdateStatus | src/modules/orders/admin-orders.service.ts:76-141 | only allowed transitions; cancelling a paid order gives stock and coupon back, all or nothing |
| PaymentServices.AdminOrdersService.RestoreStock | src/modules/orders/admin-orders.service.ts:101-106 | the loop gives every line back |
| PaymentServices.AdminOrdersService.Update | src/modules/orders/admin-orders.service.ts:144-159 | the manual edit changes the payment column alone |
| PaymentServices.CheckoutService.Create | src/modules/orders/checkout.service.ts:18-138 | checkout is a stored order followed by the provider's charge, whose failure leaves the order behind |
| Subscriptions.SubOpRow | src/modules/subscriptions/admin-subscriptions.service.ts:76-146 | per row: never removed, ship date never back, owner and variant fixed, bounds kept, and frozen while cancelled unless a first setup event names it |
| Subscriptions.CancelEffect | src/modules/subscriptions/customer-subscriptions.service.ts:193-199 | cancelling makes exactly a row in reach that is not cancelled yet cancelled |
| Subscriptions.PauseEffect | src/modules/subscriptions/admin-subscriptions.service.ts:76-83 | pausing works on rows in reach that are neither paused nor cancelled, and only pauses |
| Subscriptions.ResumeEffect | src/modules/subscriptions/admin-subscriptions.service.ts:89-103 | resuming works on paused rows without an active twin; a past date becomes one frequency from now, any other stays |
| Subscriptions.SkipEffect | src/modules/subscriptions/admin-subscriptions.service.ts:106-123 | skipping works on active rows and pushes the date by exactly one frequency |
| Subscriptions.EditEffect | src/modules/subscriptions/admin-subscriptions.service.ts:133-146 | an edit stores exactly the sent frequency and discount on a row that is not cancelled |
| Subscriptions.CreateEffect | src/modules/subscriptions/customer-subscriptions.service.ts:72-134 | which variants can be subscribed to, and the paused row that is stored, first due one frequency from now |
| Subscriptions.SetupEffect | src/modules/stripe/stripe.service.ts:248-266 | a setup event activates its row once unless a twin is active; for an unknown row or a clash it is not recorded |
| Subscriptions.RenewEffect | src/modules/subscriptions/subscription-renewal.service.ts:75-159 | exactly which rows renew, and what each outcome of the charge leaves of order, dates and status |
| Subscriptions.SubOpKeepsOneActive | prisma/migrations/20260608143519_active_subscription_partial_unique/migration.sql:3-5 | no call leaves a customer with two active subscriptions to a variant |
| Subscriptions.RenewalOrderOk | src/modules/subscriptions/subscription-renewal.service.ts:98-133 | a renewal's order row is pending, for one unit and the subscription's owner, with consistent amounts and an unclamped total |
| Subscriptions.RenewalMatchesCart | src/modules/subscriptions/subscription-renewal.service.ts:98-101 | a renewal at p% costs the pre-shipping cart price of one unit in subscription mode with an accepted p% code, line by line |
| Subscriptions.RenewOneEffect | src/modules/subscriptions/subscription-renewal.service.ts:51-70 | one pass of the loop changes only its own row, which stays due exactly when a failure was not stored |
| Subscriptions.RenewAllEffect | src/modules/subscriptions/subscription-renewal.service.ts:51-70 | after any part of a batch each picked row has its own outcome and all others are untouched |
| Subscriptions.BatchLeaves | src/modules/subscriptions/subscription-renewal.service.ts:21-73 | a batch takes exactly the handled rows out of the due set, for any choice of rows and any charge failures |
| Subscriptions.BatchDrains | src/modules/subscriptions/subscription-renewal.service.ts:21-73 | over n due rows with failures stored, exactly max(0, n − 50) remain due |
| Subscriptions.CountIsCharged | src/modules/subscriptions/subscription-renewal.service.ts:48-56 | a batch counts as processed exactly the rows charged and stored |
| Subscriptions.QueueDrains | src/modules/subscriptions/subscription-renewal.service.ts:21-73 | with the clock held the queue is empty after k batches if and only if k is at least ceil(n / 50) |
| SubscriptionServices.AdminSubscriptionsService.Pause | src/modules/subscriptions/admin-subscriptions.service.ts:76-83 | the shared pause transition, for an operator of the tenant |
| SubscriptionServices.AdminSubscriptionsService.Resume | src/modules/subscriptions/admin-subscriptions.service.ts:89-103 | the shared resume transition: a past date moves one frequency after now |
| SubscriptionServices.AdminSubscriptionsService.SkipNext | src/modules/subscriptions/admin-subscriptions.service.ts:106-123 | the shared skip transition, from active only |
| SubscriptionServices.AdminSubscriptionsService.Cancel | src/modules/subscriptions/admin-subscriptions.service.ts:126-130 | the shared cancel transition |
| SubscriptionServices.AdminSubscriptionsService.Update | src/modules/subscriptions/admin-subscriptions.service.ts:133-146 | edits frequency and discount of a row that is not cancelled |
| SubscriptionServices.CustomerSubscriptionsService.Create | src/modules/subscriptions/customer-subscriptions.service.ts:67-143 | a paused row one frequency ahead; an unknown or unavailable variant, a foreign address or a failing customer record stores nothing, a failing setup intent leaves the row behind |
| SubscriptionServices.CustomerSubscriptionsService.Pause | src/modules/subscriptions/customer-subscriptions.service.ts:145-156 | the same transition as the operator's, for the owner |
| SubscriptionServices.CustomerSubscriptionsService.Resume | src/modules/subscriptions/customer-subscriptions.service.ts:158-172 | the same transition as the operator's, for the owner |
| SubscriptionServices.CustomerSubscriptionsService.SkipNext | src/modules/subscriptions/customer-subscriptions.service.ts:174-191 | the same transition as the operator's, for the owner |
| SubscriptionServices.CustomerSubscriptionsService.Cancel | src/modules/subscriptions/customer-subscriptions.service.ts:193-199 | the same transition as the operator's, for the owner |
| SubscriptionServices.SubscriptionRenewalService.ProcessDueSubscriptions | src/modules/subscriptions/subscription-renewal.service.ts:21-73 | the loop performs the batch, counts charged rows as processed, and processed + errors = min(50, n) |
| SubscriptionServices.SubscriptionRenewalService.RenewOrMark | src/modules/subscriptions/subscription-renewal.service.ts:51-70 | a failed renewal is caught and stored on the row when that works |
| SubscriptionServices.SubscriptionRenewalService.RenewSubscription | src/modules/subscriptions/subscription-renewal.service.ts:75-159 | no method: nothing stored; rejected, or charged without the result being stored: a pending order; charged: order with intent and a date one frequency ahead |
| ShopRuns.BatchIsRun | src/modules/subscriptions/subscription-renewal.service.ts:51-70 | the daily batch equals a run of clock ticks and single renewals, so run theorems cover it |
| ShopRuns.VariantAfter | src/modules/stripe/stripe.service.ts:203-209 | across all services a variant's stock moves only when an order is settled or restored |
| ShopRuns.OrderCodes | src/modules/orders/admin-orders.service.ts:108-117 | an order call changes a code's counter by one, exactly when it settles or restores an order carrying it, and nothing else of the code |
| ShopRuns.StepKeepsShopOk | src/modules/cart/cart.service.ts:56-109 | every step of every service keeps the consistency of the database |
| ShopRuns.RunKeepsShopOk | src/modules/cart/cart.service.ts:56-109 | in every run: consistent order amounts, cart rows within 1..99, percentage codes within 1..100, valid subscriptions, one active subscription per customer and variant |
| ShopRuns.RunKeepsSnapshots | prisma/schema.prisma:460-475 | in every run an order's items, amounts, code and owner never change and no order disappears |
| OrderRuns.OrderAfter | src/modules/stripe/stripe.service.ts:192-246 | for every step and order: paid afterwards if and only if the step pays it, or it was paid and the step does not unpay it; the status is the accepted change's; a new order is pending |
| OrderRuns.PaidAtEndIff | src/modules/stripe/stripe.service.ts:239-245 | an order is paid at the end of a run if and only if no failed event, other MercadoPago state or manual edit came since it was last paid |
| OrderRuns.StaysPaidIff | src/modules/mercadopago/mercadopago.service.ts:324-335 | a paid order stays paid throughout a run if and only if none of its steps unpays it |
| OrderRuns.CancellationRestoresIff | src/modules/orders/admin-orders.service.ts:88-118 | an accepted cancellation gives stock and coupon back if and only if the order is still paid since its last payment; otherwise it changes neither |
| OrderRuns.FailedThenCancelled | src/modules/stripe/stripe.service.ts:239-245 | a paid order that gets a late failed event and is then cancelled gives nothing back |
| OrderRuns.ApprovedLater | src/modules/mercadopago/mercadopago.service.ts:251-357 | a payment not approved at once stays on its order through any run in which no other payment is reported for it, and the approving webhook then finds and settles the order, once |
| OrderRuns.ApprovedNext | src/modules/mercadopago/mercadopago.service.ts:332-335 | the one-step case: the next webhook that approves the payment settles the order |
| OrderRuns.TerminalStays | src/modules/orders/admin-orders.service.ts:12-23 | delivered and cancelled are final in every run |
| OrderRuns.FulfilmentMovesForward | src/modules/orders/admin-orders.service.ts:12-23 | an order never goes back in received, preparing, shipped, delivered |
| OrderRuns.RestoredAtMostOnce | src/modules/orders/admin-orders.service.ts:90-118 | in every run no order is restored twice, and a restored order stays cancelled |
| LedgerRuns.CounterAccount | src/modules/orders/admin-orders.service.ts:108-117 | in every run over which a code keeps its name its counter is its initial value plus recorded successes minus the cancellations of paid orders carrying it that met a positive counter |
| LedgerRuns.CouponLedger | src/modules/orders/admin-orders.service.ts:76-131 | when besides nothing is marked paid by hand, cancellations never outnumber successes and the orders live at the start; from a counter no lower than the live orders every cancellation is counted, and that stays so |
| LedgerRuns.StockLedger | src/modules/stripe/stripe.service.ts:203-209 | in every run stock is initial − taken by recorded successes + given back by cancellations of paid orders |
| LedgerRuns.StockNeverBelow | src/modules/stripe/stripe.service.ts:203-209 | in every run stock stays at 1 − Q or above for Q the largest line quantity; never negative for single-unit lines |
| Cancellations.PaidThenCancelled | src/modules/orders/admin-orders.service.ts:94-130 | an order settled through either provider and cancelled anywhere later in any run: beside what the steps between took and gave, each variant ends exactly the skipped units above its stock before the settlement, and the two undo each other if and only if every line of the variant found something left |
| Cancellations.CancelledAtOnce | src/modules/orders/admin-orders.service.ts:94-130 | an undelivered order just settled can be cancelled while its variants exist, and the pair changes only stock, by the skipped units |
| Cancellations.RestorableIff | src/modules/orders/admin-orders.service.ts:79-106 | what a success takes can be given back in some later run if and only if it finds the order neither delivered nor cancelled and its variants in place |
| Cancellations.PaidAfterCancelled | src/modules/stripe/stripe.service.ts:192-217 | a success recorded after the cancellation leaves the order cancelled and paid, stock taken and a carried code counted, and no later run gives any of it back |
| Cancellations.OversoldExample | src/modules/cart/cart.service.ts:73-79 | checkout accepts one order of two and three units at a stock of three, and its payment leaves −2 |
| Cancellations.PhantomUnit | src/modules/stripe/stripe.service.ts:203-209 | two one-unit orders accepted at a stock of one and paid, the second cancelled: the first keeps its unit and the stock is one again |
| OneUseRuns.UsedTwiceIff | src/modules/cart/cart.service.ts:359-375 | without a further checkout a customer can reach two paid uses of a code if and only if two of their orders, paid or not, already carry it |
| OneUseRuns.OneUseHolds | src/modules/cart/cart.service.ts:359-375 | one use holds in every run whose checkouts with the code come from customers without an order carrying it |
| OneUseRuns.OneUseTwice | src/modules/cart/cart.service.ts:359-375 | any accepted checkout with a code, one-use included, can be made twice before paying; both orders can be paid and the counter rises by two |
| RedemptionRuns.LimitIff | src/modules/cart/cart.service.ts:352-354 | with no further checkout and no order settled a second time, given the orders settled before, the counter can pass a limit if and only if it does together with the carrying orders still to be settled |
| RedemptionRuns.LimitHolds | src/modules/cart/cart.service.ts:352-354 | a limit holds in every run whose checkouts with the code find the counter plus the carrying orders still to be settled below it, no order being settled a second time |
| RedemptionRuns.LimitPassed | src/modules/cart/cart.service.ts:352-354 | with one redemption left, two checkouts before paying end with the counter one past `maxRedemptions` |
| RedemptionRuns.LimitUnboundedIff | src/modules/stripe/stripe.service.ts:183-217 | when an order may be settled by several events, any limit can be passed if and only if it is passed already or some order carries the code |
| RedemptionRuns.SwallowsIff | src/modules/orders/admin-orders.service.ts:108-117 | some ledger run loses a decrement to the positive-counter guard if and only if the live orders that can still be cancelled outnumber the counter |
| RedemptionRuns.RecreatedCode | src/modules/promotions/admin-promotions.service.ts:105-109 | a code deleted and created again counts from zero while a paid order still carries it; cancelling that order is not counted |
| LedgerRuns.RedeliveryDoesNothing | src/modules/stripe/stripe.service.ts:183-190 | a step whose event is already recorded leaves the whole database as it was |
| LedgerRuns.RedeliveriesDoNotMatter | src/modules/mercadopago/mercadopago.service.ts:339-357 | leaving every redelivery out of any run gives a run without redeliveries that ends in the same database |
| LedgerRuns.DuplicateDelivery | src/modules/stripe/stripe.service.ts:183-190 | a recorded delivery repeated anywhere later, through either channel, has no effect on the rest of the run |
| LedgerRuns.SyncThenWebhook | src/modules/mercadopago/mercadopago.service.ts:223-276 | the webhook of a payment already approved synchronously changes nothing |
| RenewalRuns.ShipDateNeverMovesBack | src/modules/subscriptions/admin-subscriptions.service.ts:89-123 | in every run nextShipAt never decreases and rows are never removed |
| RenewalRuns.RenewalMovesDate | src/modules/subscriptions/subscription-renewal.service.ts:143-157 | a charged renewal happens at or after the ship date and moves it one frequency after its own instant |
| RenewalRuns.RenewalsAreSpaced | src/modules/subscriptions/subscription-renewal.service.ts:25-46 | in every run two successful renewals of a subscription are at least the frequency in force at the earlier one apart |
| RenewalRuns.RenewalsInWindow | src/modules/subscriptions/subscription-renewal.service.ts:25-46 | a window of length T holds at most floor(T / 7 days) + 1 of them |
| RenewalRuns.ChargedEarlyIff | src/modules/subscriptions/subscription-renewal.service.ts:135-158 | some run charges the customer again before the frequency in force has passed if and only if the result of the first charge was not stored |
| RenewalRuns.CancelledStaysFrozen | src/modules/subscriptions/admin-subscriptions.service.ts:125-146 | in every run without a first setup event for it a cancelled row is unchanged |
| RenewalRuns.CancelledIsNotCharged | src/modules/subscriptions/admin-subscriptions.service.ts:125-130 | after an accepted cancellation no run without a first setup event for the subscription ends in charging it |
| RenewalRuns.CancelledChangesIff | src/modules/stripe/stripe.service.ts:253-265 | a step changes a cancelled row if and only if it is a first setup event for it and no other active row clashes |
| RenewalRuns.BecomesActiveIff | src/modules/subscriptions/admin-subscriptions.service.ts:89-103 | a row becomes active if and only if it is resumed from paused or set up for the first time by an event, without a clash |
| Collections.AdminCollectionsService.AttachProducts | src/modules/collections/admin-collections.service.ts:125-152 | the upsert loop with its running counter is the attach of the specification |
| Collections.AdminCollectionsService.FirstFreePosition | src/modules/collections/admin-collections.service.ts:134-138 | one more than the greatest position, 0 when empty |
| Collections.AdminCollectionsService.ReorderProducts | src/modules/collections/admin-collections.service.ts:154-185 | the position updates are the reorder of the specification, with its check |
| Collections.AdminCollectionsService.DetachProduct | src/modules/collections/admin-collections.service.ts:187-206 | removes one link or answers not found |
| Collections.AttachRefines | src/modules/collections/admin-collections.service.ts:134-149 | attaching appends the first occurrences of the ids not yet linked, whatever gaps it leaves in the positions |
| Collections.AttemptIff | src/modules/collections/admin-collections.service.ts:125-236 | a call is accepted if and only if it is on a manual collection of the tenant and names products of the tenant, all linked ones, or a linked one; no other collection changes |
| Collections.RestrictRefines | src/modules/collections/admin-collections.service.ts:201-203 | dropping rows drops the same products from the sequence and keeps the order of the rest |
| Collections.ListingIsSequence | src/modules/collections/collections.service.ts:91-98 | an ordered query has one possible answer: the sequence |
| Collections.PublicView | src/modules/collections/collections.service.ts:90-100 | the storefront shows the sequence filtered to active products |
| Collections.ReorderRefinesIff | src/modules/collections/admin-collections.service.ts:166-182 | an accepted list becomes the order if and only if it repeats nothing, equivalently names every linked product |
| Collections.ReorderDistinctIff | src/modules/collections/admin-collections.service.ts:166-182 | positions stay distinct if and only if no left-out product sits on a place a listed one takes |
| Collections.DuplicateReorderCollides | src/modules/collections/admin-collections.service.ts:166-173 | an accepted list with a repetition puts two products on one position |
| Collections.RunRefines | src/modules/collections/admin-collections.service.ts:125-206 | in every run of attaches, detaches, repetition-free reorders and product deletions, with the tenant's products changing between calls, the rows stand for the sequence the same operations build on lists, with distinct positions |
| Slugs.BaseShape | src/modules/collections/admin-collections.service.ts:260-266 | a base is empty or letters and digits with single inner dashes |
| Slugs.BaseEmptyIff | src/modules/collections/admin-collections.service.ts:260-266 | a base is empty exactly when the name has no letter or digit |
| Slugs.BaseIsJoinedWords | src/modules/collections/admin-collections.service.ts:260-266 | a base is exactly the words of the name, its maximal runs of letters and digits, in order, joined by single dashes |
| Slugs.CandidateNames | src/modules/collections/admin-collections.service.ts:267-276 | the first candidate is bare, the n-th is the base, a dash and the numeral of n |
| Slugs.DecimalInjective | src/modules/collections/admin-collections.service.ts:275 | different numbers have different numerals |
| Slugs.CandidatesDistinct | src/modules/collections/admin-collections.service.ts:267-276 | no slug is tried twice |
| Slugs.FindFree | src/modules/collections/admin-collections.service.ts:267-277 | ends after at most taken + 1 lookups with the first free candidate |
| Slugs.CollectionSlug | src/modules/collections/admin-collections.service.ts:259-278 | a free slug, first of its candidates, always in kebab shape |
| Slugs.ProductSlug | src/modules/products/admin-products.service.ts:323-341 | a free slug, first of its candidates, in kebab shape if and only if the base is not empty or the fallback word is free |
| AuditPages.ListingUnique | src/modules/audit/audit.service.ts:38-43 | the order is total, so the query has one answer |
| AuditPages.FiltersSelect | src/modules/audit/audit.service.ts:24-36 | the listing holds exactly the tenant's rows that agree with each sent filter, both ends of the date range included |
| AuditPages.CursorContinues | src/modules/audit/audit.service.ts:38-43 | a cursor continues right after its row |
| AuditPages.AnyCursor | src/modules/audit/audit.service.ts:38-43 | a cursor of any log row, one the filters leave out included, starts at the first row not before it and skips that one; a cursor that names no row finds nothing |
| AuditPages.PageIsSlice | src/modules/audit/audit.service.ts:45-59 | a page is the next slice, with a cursor exactly when rows remain |
| AuditPages.FollowReadsAll | src/modules/audit/audit.service.ts:38-59 | following the cursors with any limits returns every matching row once, in order, and stops |
| Lockout.LockedFromFifth | src/modules/customers/customer-auth.service.ts:135-164 | in every run the lock is set exactly when five or more attempts failed |
| Lockout.LoginEffect | src/modules/customers/customer-auth.service.ts:113-164 | exactly when a login succeeds, is locked out or unverified; a success forgives every failed attempt, a wrong password counts one and from the fifth on locks for 15 minutes |
| Lockout.CounterIsWrongSinceSuccess | src/modules/customers/customer-auth.service.ts:135-164 | in every run the counter is the number of wrong passwords compared since the last success, and the lock is set exactly from five on |
| Lockout.WrongPasswordsAreSpaced | src/modules/customers/customer-auth.service.ts:118-147 | without a success the counter adds up, and from the fifth wrong password on consecutive ones are a lockout apart |
| Lockout.GuessesAreBounded | src/modules/customers/customer-auth.service.ts:118-164 | a stretch of length T without a success compares at most 5 + floor(T / 15 min) wrong passwords |
| Lockout.CustomerAuthService.LogIn | src/modules/customers/customer-auth.service.ts:108-175 | the new row and the answer of one login; other accounts are untouched |
| Commission.CreatedIsOk | src/modules/platform/platform-tenants.service.ts:61-90 | a new tenant meets the billing rules and has no proposal |
| Commission.CreatedEffect | src/modules/platform/platform-tenants.service.ts:61-90 | a tenant is refused exactly for commission on starter, and bills by commission exactly when enabled with a percentage, active at once |
| Commission.UpdateEffect | src/modules/platform/platform-tenants.service.ts:165-202 | the first percentage is active at once, a different one becomes the proposal, the same one or none changes nothing; commission billing only where enabled above starter |
| Commission.DecisionEffect | src/modules/tenants/admin-billing.service.ts:51-89 | accepting makes exactly the pending percentage active, rejecting keeps the active one; both need a proposal and end it |
| Commission.RunKeepsTenantOk | src/modules/platform/platform-tenants.service.ts:170-202 | in every run a pending percentage differs from an active one, and commission billing implies it is enabled above starter |
| Commission.PendingWasProposed | src/modules/platform/platform-tenants.service.ts:188-202 | a pending percentage is the latest proposal, outstanding ever since |
| Commission.ActiveChangesOnlyByConsent | src/modules/tenants/admin-billing.service.ts:50-71 | an active percentage changes if and only if a step accepts with a proposal outstanding, then to exactly that proposal, and never becomes null |
| Commission.ActiveStaysActive | src/modules/platform/platform-tenants.service.ts:191-202 | once a percentage is active some percentage stays active in every run |
| Commission.PlatformTenantsService.Create | src/modules/platform/platform-tenants.service.ts:53-90 | stores the new tenant row, or rejects a taken slug or commission on starter |
| Commission.PlatformTenantsService.Update | src/modules/platform/platform-tenants.service.ts:154-255 | applies the change to one row, and notifies exactly when an active percentage gets a different proposal |
| Commission.AdminBillingService.AcceptCommission | src/modules/tenants/admin-billing.service.ts:51-71 | the pending percentage becomes the active one |
| Commission.AdminBillingService.RejectCommission | src/modules/tenants/admin-billing.service.ts:74-89 | the proposal is dropped and the active percentage stays |

## Left out

- CouponLedger: its bounds exclude runs in which the code is deleted or renamed or an order is marked paid by hand, since those edits break the count by design; CounterAccount covers manual edits, and RecreatedCode shows what deletion does.
- LimitIff: is about runs over which the code keeps its name and nothing is marked paid by hand.
- GetCart: the original returns the rows by creation time, which is not modelled; CartPriceIgnoresOrder shows that no amount depends on it.
- LimitHolds: which orders were settled before the start is a parameter, since the database keeps no such mark once a payment is overwritten.
- StockLedger: stock edits, new variants and deleted variants of the catalogue are not steps of a run; edits set stock outright, and the service methods do handle a missing variant.
- RenewalMatchesCart: agrees before shipping only, because a renewal charges none, and for variants whose product is published, because a renewal does not check that.
- IsBatch: the rows a batch query returns are a parameter, any 50 due rows in any order; the query itself is not written out.
- IsListing: the database's ordered result is a parameter characterised by its order and contents; sorting is not written out. The actor names added to audit rows are left out.
- Interleavings inside one service call: each call is one atomic step. The batch is also shown to be a run of ticks and single renewals, but not interleaved with other calls between its query and its renewals.
- Gift redemption, which creates an active subscription directly, and edits of a tenant's shipping and payment settings are not steps of a run.
- Shipping settings are free-form JSON in the original; non-negative flat fees are assumed where totals are concerned.
- Slugs start from the lower-cased name without diacritics, and discount codes from their upper-case form; Unicode is not modelled.
- An order's tracking link, notes and address, and product names on lines are left out; of the response to a cart write only success or error is kept.
- The order list pages by creation time alone and has no total order; no pagination claim is made for it.
- Mail, background events, cache revalidation, webhook signatures, token refresh, OAuth, JWT and password hashing: a password comparison is a boolean parameter, and a provider call is its outcome.
- Automatic collections, reviews, blog, content, addresses, memberships, feature flags and dashboards: they would only add simple members.
