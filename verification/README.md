# Verified model of the marketplace's money and points core

The project models the parts of the marketplace in which money, loyalty points, coupon uses and
roles change hands, and proves what they promise.

- **Loyalty ledger** (`LoyaltyDomain`, `EarnBuckets`, `BucketGate`, `ExpiryPass`, `BucketLoops`,
  `LoyaltySpec`, `LoyaltyProofs`, `LoyaltyTheorems`, `LoyaltyOutcomes`, `LoyaltyServices`): the signed
  append-only ledger, the denormalised account counters, reservations with compare-and-set,
  cancellations and adjustments, and the expiration job, which replays a buyer's whole ledger into
  first-in-first-out earn buckets and then writes rows that the next replay has to read the same way.
- **Checkout** (`Discount`, `CheckoutPricing`, `CheckoutOutcomes`, `CheckoutServices`): grouping by
  seller, the proportional split of coupon and points with floors, a remainder and a cap, totals, commission and
  payout, and the release of reservations when a later step fails.
- **Coupons** (`CouponSpec`, `CouponProofs`, `CouponTheorems`, `CouponOutcomes`, `CouponServices`,
  `RefundClosure`): use counting over reserve, commit, release, expiry and refund, partial refunds that do not depend on the
  order or number of deliveries, and how the refunds of a cart fit the shares of its checkout.
- **Payment webhook** (`Webhook`, `WebhookTheorems`, `WebhookTransfers`, `WebhookProgress`,
  `WebhookServices`): a protocol over external calls that may fail, with concurrent handlers, crashes
  and guarded writes, as a state machine; the handler's own code is proved to walk it. `CouponWebhook`
  runs it together with the coupon service.
- **Cancellation workflow** (`Cancellation`, `CancellationTheorems`, `CancellationRefunds`,
  `CancellationHeld`, `CancellationRuns`, `CancellationProgress`, `CancellationServices`): requests,
  approvals with their Stripe calls, rejections and failures, in the same form.
- **Roles** (`Rbac`, `RbacOutcomes`, `RbacServices`): seller teams, platform administrators and their
  audit log.
- **Role cache** (`TtlCaches`): a bounded map with expiry and loop-based eviction.

Each store is a map or a sequence. A service that updates its tables is a class with those tables as
fields, and every method is proved equal to a function on values; runs, interleavings and invariants
are then stated about those functions. The modules named Outcomes and Progress say, without those
functions, what each operation answers and writes and when it succeeds. A read made before a lock is a
step of its own, so a handler may act on an outdated row. Ids are positions in their table, standing for fresh random ids. Infrastructure
failures roll a transaction back and are steps that change nothing. The clock, the claim queries' choice
of rows, the answers of Stripe, of the broker and of other services, and map iteration order are
parameters or arbitrary choices.

The constraints of the database belong to the model where behaviour depends on them: the ledger's
unique key, the account CHECKs `0 <= pending_redemption <= balance`
(`infra/db/migrations/loyalty/001_create_accounts_and_ledger.up.sql`), the coupon redemption and refund
event keys, the unique open cancellation request, and the unique user of a seller team row.

## Where the code does less than its comments say

The model follows the code. Each point is a lemma with the exact condition or a concrete run.

- The discount split does not always add up to the discount: the final cap can cut the remainder off the
  last bucket (`Discount.ShortfallExact`, `Discount.ShortfallTight`). It also hands a negative subtotal
  a negative share (`Discount.NegativeShareIff`).
- The expiration job's consistency check is not only a guard against misread rows: it refuses, for good,
  every buyer one of whose debits ever exceeded the buckets of its time
  (`BucketGate.GateMeaning`, `LoyaltyTheorems.RefusalIsPermanent`).
- A reversal that is cut to zero leaves no trace, so a redelivered cancellation can still act
  (`LoyaltyTheorems.RedeliveryInert`). A reversal that would eat into held points makes the whole
  cancellation fail on the account CHECK, refund included (`LoyaltyTheorems.CancelAborts`).
- A replayed point commit reports the redeemed points with the opposite sign
  (`LoyaltyTheorems.CommitTwice`).
- A coupon shared by two orders of a cart stalls the webhook. Every discounted order carries the
  reservation and commits it, although a comment says only the anchor's is used
  (`backend/services/order/internal/app/order_service.go:507-510`); the second commit is refused, so at
  most one of these orders is ever published (`CouponWebhook.SharedCouponStalls`).
- A repeated refund event, and a coupon commit that loses the race for its order, violate a unique key.
  That aborts the transaction, so both fail and change nothing where the comments promise an
  already-done answer (`CouponTheorems.RedeliveryRefused`, `CouponTheorems.CommittedIffRedeemed`).
- The webhook can pay an order twice: when deliveries overlap (`WebhookTransfers.OverlapPaysTwice`), and
  among deliveries that do not, exactly when the write that records a transfer is lost and another
  transfer follows, also where Stripe makes a transfer but answers with an error
  (`WebhookTransfers.PaidTwiceIff`, `WebhookTransfers.LostWritePaysTwice`).
- It can pay an order that is cancelled already, exactly when the cancellation came after the delivery
  had read the order (`WebhookTransfers.TransferReadLive`, `WebhookTransfers.TransferAfterCancellation`).
- The idempotency keys protect a request, not an order. An order is refunded again exactly when a call
  takes effect for a request without a refund while another of its requests has one
  (`CancellationRefunds.RefundedTwiceIff`). Each such refund needs a request that failed
  (`CancellationRuns.RetryRefundsAgain`), one that was rejected while its approval was at Stripe
  (`CancellationRuns.RejectedRefundsAgain`), or a seller's status update that took the order back out of
  the cancelled status (`CancellationRuns.ApprovalsAttained`, which also approves it again); without
  these there is at most one (`CancellationRefunds.RefundsBounded`).
- A refund may stand at Stripe for an order that is not cancelled, named by no row
  (`CancellationHeld.HeldRefundStates`), and a payout that completes after an approval has listed the
  payouts stays with the seller (`CancellationHeld.LeftUnreversed`).
- The event published after an approval is built from a row that was read back without its discount
  columns (`backend/services/order/internal/cancellation/repository.go:357-360`); the refund shares in
  `RefundClosure` are therefore those of the checkout.
- The last-owner and last-super-administrator checks cannot fire among serialised transactions
  (`Rbac.SafeguardsNeverFire`). Without serialisation they do not prevent the loss of every super
  administrator or a second owner; `Rbac.MutualDemotion` and `Rbac.DoubleTransfer` say exactly when.

## Model

| member | source | states |
|---|---|---|
| `ExpiryPass.ReplayCommutesWithExpiry` | backend/services/loyalty/internal/app/loyalty_service.go:876-1035 | Replaying any ledger of the service extended by one expiration pass gives the old buckets with exactly the due ones emptied and marked; the new ledger is again one the service may hold, and a second pass at the same time writes nothing |
| `ExpiryPass.ReplayAfterExpiry` | backend/services/loyalty/internal/app/loyalty_service.go:903-949 | The same after every single row of the pass: the handled buckets are settled, the others untouched |
| `ExpiryPass.ExpiryPassConserves` | backend/services/loyalty/internal/app/loyalty_service.go:876-972 | A pass that the gate lets through takes exactly the due remainders off the ledger total, never below zero, and the gate accepts the extended ledger too |
| `BucketGate.GateMeaning` | backend/services/loyalty/internal/app/loyalty_service.go:1082-1112 | The consistency check accepts exactly when no debit ever overran the buckets present when it was written |
| `BucketGate.BalanceDecomposition` | backend/services/loyalty/internal/app/loyalty_service.go:996-1112 | Bucket sum plus positive refunds and adjustments minus balance is exactly the total of what debits overran, and is never negative |
| `BucketGate.LostMeaning` | backend/services/loyalty/internal/app/loyalty_service.go:1043-1063 | That total is zero exactly when no row of the ledger overran its buckets |
| `BucketGate.LostGrows` | backend/services/loyalty/internal/app/loyalty_service.go:996-1063 | That total never falls as the ledger grows |
| `BucketGate.RefusedForever` | backend/services/loyalty/internal/app/loyalty_service.go:1082-1112 | Once the check rejects a ledger it rejects every extension of it |
| `EarnBuckets.ReplayableFacts` | backend/services/loyalty/internal/app/loyalty_service.go:996-1035 | Every rebuilt bucket stands for one earn row with its expiry and amount, holds between 0 and that amount, and is marked exactly when an expire row names it; every earn row has its bucket |
| `EarnBuckets.ExpireNeedsEarlierEarn` | backend/services/loyalty/internal/app/loyalty_service.go:919-931 | Every expire row of a ledger names an earn row written before it |
| `EarnBuckets.DrainClosedForm` | backend/services/loyalty/internal/app/loyalty_service.go:1043-1063 | A bucket keeps the positive part of its points minus what the buckets before it could not absorb; what is left over is the amount minus the bucket sum |
| `EarnBuckets.DrainComposes` | backend/services/loyalty/internal/app/loyalty_service.go:1043-1063 | Consuming a and then b is consuming a + b, in the buckets and in the overflow |
| `EarnBuckets.DrainConserves` | backend/services/loyalty/internal/app/loyalty_service.go:1043-1063 | Every consumed point leaves a bucket or overflows |
| `ExpiryPass.NothingDueAfterSettle` | backend/services/loyalty/internal/app/loyalty_service.go:903-918 | After a pass no bucket is due at that time |
| `BucketLoops.ConsumeFIFO` | backend/services/loyalty/internal/app/loyalty_service.go:1043-1063 | The in-place loop drains the first n buckets exactly as the recursive definition says, returns the overflow and touches nothing else |
| `BucketLoops.RebuildEarnBuckets` | backend/services/loyalty/internal/app/loyalty_service.go:996-1035 | The in-place replay with its index map computes the buckets of the ledger's recursive replay |
| `BucketLoops.ReplayRow` | backend/services/loyalty/internal/app/loyalty_service.go:1001-1032 | One row of the walk, by type, in place, with the index map kept exact |
| `BucketLoops.VerifyBucketInvariant` | backend/services/loyalty/internal/app/loyalty_service.go:1082-1112 | The two summing loops decide the gate |
| `LoyaltyDomain.ComputeEarnAmount` | backend/services/loyalty/internal/domain/ledger.go:105-111 | The earned points are the exact floor of subtotal times rate over 10000, zero for a subtotal or rate that is not positive |
| `LoyaltyTheorems.LedgerRefinement` | backend/services/loyalty/internal/app/loyalty_service.go:171-972 | After any run of all operations, with unlocked reads in between: balance is the ledger sum, every row carries its prefix sum, pending is the sum of the buyer's pending reservations, the lifetime counters are the ledger's, and 0 <= pending <= balance |
| `LoyaltyTheorems.AtMostOnce` | backend/services/loyalty/internal/app/loyalty_service.go:193-202 | Over every run: one earn per order, one redeem per reservation, one refund and one reversal per cancelled order, one expire row per earn |
| `LoyaltyTheorems.RedeemedIffCommitted` | backend/services/loyalty/internal/app/loyalty_service.go:343-414 | A redeem row exists exactly for the committed reservations, for exactly their amount and buyer |
| `LoyaltyTheorems.LeavesPendingOnce` | backend/services/loyalty/internal/app/loyalty_service.go:362-376 | A reservation that left the pending state keeps its outcome through every later run and never again counts as held |
| `LoyaltyTheorems.AwardTwice` | backend/services/loyalty/internal/app/loyalty_service.go:193-202 | A repeated award changes nothing |
| `LoyaltyTheorems.CommitTwice` | backend/services/loyalty/internal/app/loyalty_service.go:343-361 | A repeated commit changes nothing; its reply repeats the ledger amount, so the redeemed points come back with the opposite sign |
| `LoyaltyTheorems.CancelTwice` | backend/services/loyalty/internal/app/loyalty_service.go:547-618 | An immediately repeated cancellation changes nothing |
| `LoyaltyTheorems.CancelAborts` | backend/services/loyalty/internal/app/loyalty_service.go:547-618 | A cancellation is refused exactly when the reversal would eat into held points, and then its refund half is rolled back as well |
| `LoyaltyTheorems.RedeliveryInert` | backend/services/loyalty/internal/app/loyalty_service.go:577-592 | The exact condition under which a redelivered cancellation leaves the ledger alone |
| `LoyaltyTheorems.ZeroReversalActsLater` | backend/services/loyalty/internal/app/loyalty_service.go:586-592 | A concrete run in which a reversal cut to zero wrote no row and a redelivery takes later points |
| `LoyaltyTheorems.CandidateMeaning` | backend/services/loyalty/internal/adapter/postgres/transaction_repo.go:235-275 | The candidate query returns a buyer exactly when the replay has a due bucket |
| `LoyaltyTheorems.ExpireSucceeds` | backend/services/loyalty/internal/app/loyalty_service.go:876-972 | A pass over a reachable buyer succeeds exactly when no debit ever overran its buckets and no hold needs the due points |
| `LoyaltyTheorems.ExpireSettles` | backend/services/loyalty/internal/app/loyalty_service.go:876-972 | After a successful pass the replay is settled, the balance fell by exactly the due points and still covers every hold, the buyer is no candidate, and a second pass changes nothing |
| `LoyaltyTheorems.RefusalIsPermanent` | backend/services/loyalty/internal/app/loyalty_service.go:1082-1112 | Once some pass over a buyer is refused by the gate, every pass after any further run is refused |
| `LoyaltyTheorems.RefusedExample` | backend/services/loyalty/internal/app/loyalty_service.go:1082-1112 | An adjustment of 100 followed by a redemption of 50 is enough to get there |
| `LoyaltyTheorems.RunAppends` | backend/services/loyalty/internal/app/loyalty_service.go:171-972 | The ledger is append-only along every run |
| `LoyaltyTheorems.RunKeeps` | backend/services/loyalty/internal/app/loyalty_service.go:171-972 | Every run keeps the tables' invariant and every handler's stale snapshot consistent with them |
| `LoyaltyOutcomes.EarnDueLaw` | backend/services/loyalty/internal/app/loyalty_service.go:112-118 | Over every run: an accrual of a payment at time t is due at exactly the times later than t plus the configured lifetime until a pass has taken it, never without a lifetime; it carries the payer, the order and the whole points within the rate |
| `LoyaltyOutcomes.AwardOutcome` | backend/services/loyalty/internal/app/loyalty_service.go:171-252 | Points are awarded exactly once per paid order and only if at least one was earned; the row, the reply and the one account that changes |
| `LoyaltyOutcomes.ReserveOutcome` | backend/services/loyalty/internal/app/loyalty_service.go:258-303 | Granted exactly for a positive amount within balance minus pending; the reservation made, the two refusals |
| `LoyaltyOutcomes.HoldLifetime` | backend/services/loyalty/internal/app/loyalty_service.go:719-751 | A hold can be reaped at exactly the times later than its creation plus the lifetime |
| `LoyaltyOutcomes.CommitOutcome` | backend/services/loyalty/internal/app/loyalty_service.go:310-461 | Succeeds exactly on a pending or committed reservation, whatever was read; only the first commit writes: the redeem row, and the accrual unless the order has one or earns nothing |
| `LoyaltyOutcomes.ReleaseOutcome` | backend/services/loyalty/internal/app/loyalty_service.go:466-513 | Succeeds exactly on a reservation that is still pending and frees its points |
| `LoyaltyOutcomes.CancelOutcome` | backend/services/loyalty/internal/app/loyalty_service.go:527-631 | The points given back and taken back, each once and as far as the balance goes; refused exactly when the rest would not cover the holds |
| `LoyaltyOutcomes.AdjustOutcome` | backend/services/loyalty/internal/app/loyalty_service.go:640-703 | Made exactly when it changes something and takes no held points; its one row |
| `LoyaltyOutcomes.ReapOutcome` | backend/services/loyalty/internal/app/loyalty_service.go:719-751 | Exactly the claimed reservations expire and no ledger row is written |
| `LoyaltyProofs.CommitKeepsInv` | backend/services/loyalty/internal/app/loyalty_service.go:310-461 | A commit on a stale snapshot, with its burn and its earn, keeps the invariant |
| `LoyaltyProofs.CancelKeepsInv` | backend/services/loyalty/internal/app/loyalty_service.go:527-631 | A cancellation with either, both or none of its rows keeps the invariant |
| `LoyaltyProofs.ExpirePointsKeepsInv` | backend/services/loyalty/internal/app/loyalty_service.go:876-972 | An expiration pass keeps the invariant of every buyer |
| `LoyaltyProofs.ExpireKeepsLedgerOk` | backend/services/loyalty/internal/app/loyalty_service.go:919-944 | The keys of a pass are new, so the duplicate-key branch is dead |
| `LoyaltyProofs.ExpireHoldsKeepsInv` | backend/services/loyalty/internal/app/loyalty_service.go:719-751 | A reaper batch expires exactly the claimed reservations and keeps the invariant |
| `LoyaltyServices.LoyaltyService.LockForUpdate` | backend/services/loyalty/internal/adapter/postgres/account_repo.go:87-128 | Yields the account, inserting a zero row on first use |
| `LoyaltyServices.LoyaltyService.ApplyDelta` | backend/services/loyalty/internal/adapter/postgres/account_repo.go:130-155 | Adjusts all counters and the version together, or fails on a stale version or a violated CHECK |
| `LoyaltyServices.LoyaltyService.Insert` | backend/services/loyalty/internal/adapter/postgres/transaction_repo.go:31-53 | Appends a row unless its idempotency key is taken |
| `LoyaltyServices.LoyaltyService.UpdateStatus` | backend/services/loyalty/internal/adapter/postgres/reservation_repo.go:79-103 | Compare-and-set on a reservation's status |
| `LoyaltyServices.LoyaltyService.AwardEarn` | backend/services/loyalty/internal/app/loyalty_service.go:171-252 | Step by step equal to the award on values; no duplicate key or version conflict can occur |
| `LoyaltyServices.LoyaltyService.ReservePoints` | backend/services/loyalty/internal/app/loyalty_service.go:258-303 | Equal to the reservation on values, for all amounts and balances |
| `LoyaltyServices.LoyaltyService.CommitPointsReservation` | backend/services/loyalty/internal/app/loyalty_service.go:310-461 | Equal to the commit on values from any consistent stale read; neither delta, the second at version + 1, meets a conflict |
| `LoyaltyServices.LoyaltyService.ReleasePointsReservation` | backend/services/loyalty/internal/app/loyalty_service.go:466-513 | Equal to the release on values from any consistent stale read |
| `LoyaltyServices.LoyaltyService.ApplyCancellation` | backend/services/loyalty/internal/app/loyalty_service.go:527-631 | Equal to the cancellation on values; the table's CHECK is the only store failure left |
| `LoyaltyServices.LoyaltyService.AdjustPoints` | backend/services/loyalty/internal/app/loyalty_service.go:640-703 | Equal to the adjustment on values |
| `LoyaltyServices.LoyaltyService.ExpireStaleReservations` | backend/services/loyalty/internal/app/loyalty_service.go:719-751 | A batch, also with several rows of one buyer, expires and frees each claimed reservation without a version conflict |
| `LoyaltyServices.LoyaltyService.ExpirePointsForBuyer` | backend/services/loyalty/internal/app/loyalty_service.go:876-972 | Lock, replay, check, row loop and delta together are the expiration pass on values |
| `LoyaltyServices.LoyaltyService.WriteExpireRows` | backend/services/loyalty/internal/app/loyalty_service.go:903-949 | The row loop writes one row per due bucket, zero amounts included, with running balances and no duplicate key |
| `Discount.ShortfallBound` | backend/services/order/internal/domain/discount.go:19-65 | For 0 <= discount <= total the shares sum to the discount less at most P - 2 yen for P positive buckets, and exactly to it for a full discount |
| `Discount.ShortfallExact` | backend/services/order/internal/domain/discount.go:51-63 | The exact loss: what the cap cuts off the last positive bucket |
| `Discount.ExactIff` | backend/services/order/internal/domain/discount.go:48-63 | The split is exact if and only if the last positive subtotal has room for what the other floors leave |
| `Discount.ShortfallTight` | backend/services/order/internal/domain/discount.go:59-63 | For every number of sellers a cart that loses exactly P - 2 yen; with three it is 99 + 99 + 1 for a discount of 200 |
| `Discount.ShareBounds` | backend/services/order/internal/domain/discount.go:59-63 | Every share lies between 0 and its subtotal |
| `Discount.NeverOver` | backend/services/order/internal/domain/discount.go:19-65 | The shares never sum to more than the discount or the cart, whatever the discount |
| `Discount.ExactFloors` | backend/services/order/internal/domain/discount.go:35-58 | Every share but the last positive one is its exact floor; the last one takes the remainder up to its subtotal |
| `Discount.FloorsMeaning` | backend/services/order/internal/domain/discount.go:43-46 | Each floor is the proportional share rounded down |
| `Discount.FullDiscount` | backend/services/order/internal/domain/discount.go:19-65 | A discount of the cart total or more takes every subtotal exactly |
| `Discount.RemainderBounds` | backend/services/order/internal/domain/discount.go:48-50 | The remainder is not negative and smaller than the number of positive buckets |
| `Discount.NegativeShareIff` | backend/services/order/internal/domain/discount.go:59-63 | A share is negative exactly for a negative subtotal of a cart over which something is distributed, and is then that subtotal |
| `Discount.Int64Exact` | backend/services/order/internal/domain/discount.go:43 | Up to a cart total of 3037000499 the 64-bit product cannot wrap, so the machine's floor is exact |
| `Discount.Int64Limit` | backend/services/order/internal/domain/discount.go:43 | One yen more and a full discount of a single order wraps |
| `Discount.DistributeDiscount` | backend/services/order/internal/domain/discount.go:19-65 | The loops over the share array compute the split |
| `Discount.FillFloors` | backend/services/order/internal/domain/discount.go:34-47 | The first loop fills in the floors and their sum |
| `Discount.AddRemainder` | backend/services/order/internal/domain/discount.go:48-57 | The backward loop adds the remainder to the last positive bucket and changes nothing else |
| `Discount.CapAtSubtotals` | backend/services/order/internal/domain/discount.go:59-63 | The last loop caps every share at its subtotal |
| `Discount.DistributeSellerDiscount` | backend/services/order/internal/domain/discount.go:82-104 | Collecting one seller's slots, splitting and splicing back is the split over that seller's slots alone |
| `Discount.SellerConserves` | backend/services/order/internal/domain/discount.go:82-104 | Nothing leaks to other sellers and the shares sum to those of the target's own split |
| `Discount.SellerShareBounds` | backend/services/order/internal/domain/discount.go:82-104 | Every spliced share lies between 0 and its subtotal, mismatched lists included |
| `CheckoutPricing.GroupsPartition` | backend/services/order/internal/app/order_service.go:259-282 | Grouping puts every line into exactly one group |
| `CheckoutPricing.GroupingIsStable` | backend/services/order/internal/app/order_service.go:259-282 | Cutting the cart anywhere cuts every group and the seller list at the same place |
| `CheckoutPricing.SellersDistinct` | backend/services/order/internal/app/order_service.go:266-282 | One group per seller that appears, and no other |
| `CheckoutPricing.SubtotalsConserve` | backend/services/order/internal/app/order_service.go:294-359 | The group subtotals add up to the cart's |
| `CheckoutPricing.OrderKeeps` | backend/services/order/internal/app/order_service.go:468-496 | For non-negative prices, whatever the two reservations: the total is subtotal + shipping - both shares with the zero clamp never firing, and payout + commission (+ coupon share when the seller funds it) is the subtotal with neither negative for rates in 0..10000 |
| `CheckoutPricing.ClampFiresIff` | backend/services/order/internal/app/order_service.go:475-479 | For any prices and any kind of coupon: the clamp decides the total exactly for an order below zero that got no share of the coupon, always so for a seller's own coupon |
| `CheckoutPricing.ClampExample` | backend/services/order/internal/app/order_service.go:475-479 | A cart of one line of minus five yen, on which the clamp fires |
| `CheckoutPricing.CheckoutConserves` | backend/services/order/internal/app/order_service.go:259-496 | What the buyer pays plus both discounts is cart plus shipping, and what comes in is what goes out minus what the platform funds |
| `CheckoutPricing.PlatformCouponSpent` | backend/services/order/internal/app/order_service.go:441-450 | The orders carry the whole platform coupon except at most P - 2 yen |
| `CheckoutPricing.SellerCouponSpent` | backend/services/order/internal/app/order_service.go:441-448 | A seller's coupon lands whole on that seller's one order |
| `CheckoutPricing.PointsSpent` | backend/services/order/internal/app/order_service.go:401-426 | Of the points reserved after the clamp at most P - 2 burn without a discount |
| `CheckoutPricing.CommissionBounds` | backend/services/order/internal/app/order_service.go:315-329 | Commission is the exact floor and lies between 0 and its base |
| `CheckoutOutcomes.OrderOutcome` | backend/services/order/internal/app/order_service.go:315-359 | Each order is one seller's lines with its shares; the commission is the whole part of the rate on the subtotal, less the coupon share exactly when the seller funds the coupon, and none without a rule; which orders carry the coupon and the points |
| `CheckoutOutcomes.AcceptsMeaning` | backend/services/order/internal/app/order_service.go:237-646 | The conditions under which a checkout succeeds, in plain terms |
| `CheckoutOutcomes.AskedMeaning` | backend/services/order/internal/app/order_service.go:402-418 | Points are reserved as far as the coupon leaves something to pay |
| `CheckoutServices.GroupBySeller` | backend/services/order/internal/app/order_service.go:259-282 | The loop over the lines computes the groups in order of appearance, or refuses a quantity that is not positive |
| `CheckoutServices.BuildBatch` | backend/services/order/internal/app/order_service.go:288-359 | One undiscounted order per group, or the failed rule lookup |
| `CheckoutServices.ApplyDiscounts` | backend/services/order/internal/app/order_service.go:428-529 | The loops over the batch price it as defined on values |
| `CheckoutServices.PriceOrder` | backend/services/order/internal/app/order_service.go:468-529 | One order: shares, total with its clamp, recomputed commission and payout for a seller-funded coupon, references |
| `CheckoutServices.OrderService.CreateCheckout` | backend/services/order/internal/app/order_service.go:237-646 | Succeeds exactly when every step does; then charges the sum of the totals and stamps every order; when it fails it releases exactly the reservations it acquired, each once, and leaves nothing behind but unpaid orders after the insert |
| `CheckoutServices.OrderService.ReserveDiscounts` | backend/services/order/internal/app/order_service.go:390-426 | Coupon first, then the points the rest can absorb; which of the two is held when it stops |
| `CheckoutServices.OrderService.ChargeAndStamp` | backend/services/order/internal/app/order_service.go:567-593 | What is inserted, charged and stamped for every point of failure |
| `CouponTheorems.SeatAccounting` | backend/services/coupon/internal/app/coupon_service.go:301-602 | In every reachable state the use count is the number of pending reservations plus committed ones not fully refunded |
| `CouponTheorems.FloorNeverNeeded` | backend/services/coupon/internal/adapter/postgres/coupon_repo.go:177-190 | Every release and every completing refund takes exactly one use off one coupon that has one, so the floor is never reached |
| `CouponTheorems.LimitsHold` | backend/services/coupon/internal/adapter/postgres/coupon_repo.go:158-175 | While no update cuts a limit below the current use, no coupon exceeds its limit over any run |
| `CouponTheorems.StepWithinLimits` | backend/services/coupon/internal/app/coupon_service.go:148-201 | A step takes a store out of its limits exactly when it is such an update |
| `CouponTheorems.LeavesPendingOnce` | backend/services/coupon/internal/app/coupon_service.go:348-461 | A reservation that left the pending state keeps its outcome through every later run |
| `CouponTheorems.CommittedIffRedeemed` | backend/services/coupon/internal/app/coupon_service.go:348-423 | In every reachable state, also where commits to one order race: a reservation is committed exactly when it has a redemption, one row with its coupon, buyer and amount |
| `CouponTheorems.RefundLedger` | backend/services/coupon/internal/adapter/postgres/redemption_repo.go:221-279 | In every reachable state the refunded amount is the recorded shares up to the discount, each order is recorded once, and the stamp is set exactly at the discount |
| `CouponTheorems.RefundTotals` | backend/services/coupon/internal/app/coupon_service.go:510-559 | After any delivery sequence the refund is the sum of each order's first share up to the discount, and the coupon lost one use exactly if that reached it |
| `CouponTheorems.RefundConfluence` | backend/services/coupon/internal/app/coupon_service.go:483-574 | Two histories over the same orders, reordered and duplicated, end in the same refund and the same use counts |
| `CouponTheorems.RedeliveryRefused` | backend/services/coupon/internal/app/coupon_service.go:525-531 | A delivery after others is refused exactly when its share is negative or its order was already recorded, and then changes nothing |
| `CouponTheorems.ReserveMeaning` | backend/services/coupon/internal/app/coupon_service.go:611-702 | A platform code wins, then the first seller of the cart who issued it; the discount is positive and at most the subtotal it applies to |
| `CouponTheorems.PercentDiscount` | backend/services/coupon/internal/domain/coupon.go:142-171 | A percentage coupon gives the largest whole amount within its rate, its cap and the subtotal |
| `CouponOutcomes.DiscountMeaning` | backend/services/coupon/internal/domain/coupon.go:142-171 | For every kind of deal the discount is the largest whole amount that its terms afford on the subtotal, none without terms |
| `CouponOutcomes.FixedDiscount` | backend/services/coupon/internal/domain/coupon.go:148-167 | A fixed amount is given whole, as far as the subtotal goes |
| `CouponOutcomes.ReserveOutcome` | backend/services/coupon/internal/app/coupon_service.go:301-341 | The coupon a code stands for is reserved for that largest amount, with one more use and nothing else, unless it is revoked, out of its dates, in another currency, below its minimum, used up by the buyer or altogether, or worth nothing |
| `CouponOutcomes.NotFoundIff` | backend/services/coupon/internal/app/coupon_service.go:611-702 | A code is not found exactly when it is neither the platform's nor any seller's in the cart |
| `CouponOutcomes.CodesUnique` | backend/services/coupon/internal/app/coupon_service.go:77-122 | In every reachable state no issuer has two coupons with one code |
| `CouponOutcomes.CommitOutcome` | backend/services/coupon/internal/app/coupon_service.go:348-423 | The redemption that a commit writes, and exactly when it answers an existing one or fails |
| `CouponOutcomes.ReleaseOutcome` | backend/services/coupon/internal/app/coupon_service.go:429-461 | Succeeds exactly on a pending reservation and gives its use back |
| `CouponOutcomes.RefundOutcome` | backend/services/coupon/internal/app/coupon_service.go:483-574 | The credit, the completion and the reply of every share |
| `CouponOutcomes.ReapOutcome` | backend/services/coupon/internal/app/coupon_service.go:579-602 | Exactly the claimed reservations expire, at most 200, all past their lifetime |
| `CouponOutcomes.CreateOutcome` | backend/services/coupon/internal/app/coupon_service.go:737-782 | Which coupons can be created |
| `CouponOutcomes.EditOutcome` | backend/services/coupon/internal/app/coupon_service.go:148-225 | An update replaces exactly the editable terms, a revocation only its flag |
| `CouponSpec.Coupon.ComputeDiscount` | backend/services/coupon/internal/domain/coupon.go:142-171 | Never negative, never more than the subtotal, zero on a subtotal that is not positive |
| `CouponProofs.CommitKeepsInv` | backend/services/coupon/internal/app/coupon_service.go:348-423 | A commit on a stale snapshot, also one whose insert is refused and rolled back, keeps the seat accounting |
| `CouponProofs.CreditKeepsInv` | backend/services/coupon/internal/app/coupon_service.go:510-559 | One recorded share keeps the accounting and frees a seat exactly when it completes the redemption |
| `CouponServices.CouponService.ResolveCoupon` | backend/services/coupon/internal/app/coupon_service.go:611-702 | The issuer search loop and the validity gate compute the resolution on values, error by error |
| `CouponServices.CouponService.ReserveCoupon` | backend/services/coupon/internal/app/coupon_service.go:301-341 | Equal to the reservation on values |
| `CouponServices.CouponService.CommitReservation` | backend/services/coupon/internal/app/coupon_service.go:348-423 | Equal to the commit on values from any consistent stale read and any timing of the check; a lost insert rolls everything back |
| `CouponServices.CouponService.ReleaseReservation` | backend/services/coupon/internal/app/coupon_service.go:429-461 | Equal to the release on values |
| `CouponServices.CouponService.RefundRedemption` | backend/services/coupon/internal/app/coupon_service.go:483-574 | Equal to the refund on values; a repeated event fails and changes nothing |
| `CouponServices.CouponService.ExpireStaleReservations` | backend/services/coupon/internal/app/coupon_service.go:579-602 | A batch expires the claimed rows and frees one seat for each |
| `CouponServices.CouponService.ApplyPartialRefund` | backend/services/coupon/internal/adapter/postgres/redemption_repo.go:221-279 | One capped update; reports the amount added, the completing call and the replay |
| `CouponServices.CouponService.IncrementUsageIfBelowLimit` | backend/services/coupon/internal/adapter/postgres/coupon_repo.go:158-175 | Adds a use exactly while one is left |
| `CouponServices.CouponService.InsertRefundEvent` | backend/services/coupon/internal/adapter/postgres/redemption_repo.go:286-303 | One row per redemption and cancelled order |
| `RefundClosure.SplitThenRefund` | backend/services/coupon/internal/app/coupon_service.go:510-559 | Cancelling every order of a discounted cart with its checkout share leaves at most P - 2 yen unrefunded, and gives the use back exactly when nothing is left |
| `RefundClosure.SellerSplitThenRefund` | backend/services/order/internal/domain/discount.go:82-104 | A seller's own coupon always comes back whole and frees its seat |
| `WebhookTheorems.PublishedMeansSettled` | backend/services/order/internal/app/order_service.go:653-938 | Over every interleaving of deliveries, failures and crashes: a published stamp means both events were accepted after the payout completed and the required commits succeeded |
| `WebhookTheorems.NilMeansHandled` | backend/services/order/internal/app/order_service.go:653-938 | A handler that returned nil left every order settled, read as cancelled, without a payout, in a failed or reversed payout state, or with a transfer call that answered with an error in this run |
| `WebhookTheorems.NoOverlappingClaims` | backend/services/order/internal/adapter/postgres/order_repo.go:550-575 | At no instant do two unexpired publish claims of one order exist |
| `WebhookTransfers.TransfersAccounted` | backend/services/order/internal/app/order_service.go:755-812 | Over every run, overlapping or not, with calls that take effect but answer with an error: the transfers of an order are those whose record was written, those whose record was lost to a failed write or a crash, and those whose record is still to come |
| `WebhookTransfers.PaidTwiceIff` | backend/services/order/internal/app/order_service.go:755-812 | Deliveries that do not overlap pay an order more than once exactly when the record of a transfer was lost and a later transfer was made |
| `WebhookTransfers.LossPaysTwice` | backend/services/order/internal/app/order_service.go:755-812 | In any run a lost record followed by another transfer pays twice |
| `WebhookTransfers.AtMostOneTransfer` | backend/services/order/internal/app/order_service.go:755-812 | Without overlapping deliveries and without a lost record each order gets at most one transfer, whatever the calls answer |
| `WebhookTransfers.LostWritePaysTwice` | backend/services/order/internal/app/order_service.go:793-795 | One failed completion write, with nothing overlapping and no crash, makes the next delivery pay again |
| `WebhookTransfers.OverlapPaysTwice` | backend/services/order/internal/app/order_service.go:727-793 | Two overlapping deliveries pay the seller twice though no call fails |
| `WebhookTransfers.TransferReadLive` | backend/services/order/internal/app/order_service.go:678-700 | A transfer is made only by a delivery that read its order as not cancelled; the order is cancelled by then exactly when the last status update between that read and the transfer was a cancellation |
| `WebhookTransfers.NoTransferIfReadCancelled` | backend/services/order/internal/app/order_service.go:678-686 | An order that is cancelled whenever a delivery reads it is never paid out, over any run |
| `WebhookTransfers.TransferAfterCancellation` | backend/services/order/internal/app/order_service.go:678-700 | A run in which a cancellation between the first read and the paid write is overlooked |
| `CouponWebhook.OneOrderCommitted` | backend/services/order/internal/app/order_service.go:815-822 | With the answers of the coupon service itself, over every joint run: the reservation of a cart is committed for one of its orders at most |
| `CouponWebhook.SharedCouponStalls` | backend/services/order/internal/app/order_service.go:498-520 | When a coupon discounts two orders of a cart at most one of them is ever published, and a delivery that returns nil left one of them behind without settling it |
| `Webhook.StepKeepsInv` | backend/services/order/internal/app/order_service.go:653-938 | Every step of every handler, and every step of other services, keeps what all handlers know |
| `WebhookServices.PaymentWebhook.HandlePaymentSuccess` | backend/services/order/internal/app/order_service.go:653-938 | The loop is a walk of the state machine; when every call is accepted it returns nil exactly when no publish slot is taken, and then every order is served and exactly what was due was accepted |
| `WebhookProgress.DeliveryServes` | backend/services/order/internal/app/order_service.go:653-938 | Without interference and refusals: nil exactly when no publish slot is taken; then every live order is no longer pending, and every one with a pending or completed payout is paid out, committed, claimed and stamped as published, with exactly the events due, in order |
| `WebhookProgress.RefusalStops` | backend/services/order/internal/app/order_service.go:687-938 | A refused call ends the delivery and writes nothing, except a transfer, the mark of a failed payout and the stamp, after which it goes on |
| `WebhookServices.PaymentWebhook.MarkPaid` | backend/services/order/internal/adapter/postgres/order_repo.go:384-415 | The guarded paid write and the cancelled short-circuit |
| `WebhookServices.PaymentWebhook.ReadPayout` | backend/services/order/internal/app/order_service.go:727-753 | The allowlist of payout states |
| `WebhookServices.PaymentWebhook.MarkPayoutCompleted` | backend/services/order/internal/adapter/postgres/payout_repo.go:165-182 | The unguarded payout write after a transfer |
| `WebhookServices.PaymentWebhook.ClaimPublish` | backend/services/order/internal/app/order_service.go:863-894 | Claim, skip when published, error when another claim is fresh |
| `WebhookServices.WalkIsRun` | backend/services/order/internal/app/order_service.go:653-938 | A walk of one handler is a run of the machine, so the run theorems hold of it |
| `CancellationTheorems.OneOpenRequest` | backend/services/order/internal/cancellation/repository.go:50-73 | Over every run at most one request per order is open |
| `CancellationTheorems.ResolvedForever` | backend/services/order/internal/cancellation/repository.go:232-281 | A resolved request never changes again |
| `CancellationTheorems.OneRefundPerRequest` | backend/services/order/internal/adapter/stripe/client.go:103-137 | What the idempotency keys give, however many approvals run, crash or repeat: one refund per request and one reversal per request and payout |
| `CancellationTheorems.ApprovedIsRefunded` | backend/services/order/internal/cancellation/service.go:380-458 | An approved request carries the id of its own refund |
| `CancellationTheorems.ApprovalIsAtomic` | backend/services/order/internal/cancellation/repository.go:319-402 | An approval changes exactly its request, its order and the payouts it listed as completed with a transfer, each with the reversal held for it; or nothing |
| `CancellationTheorems.ListMeaning` | backend/services/order/internal/cancellation/service.go:386-408 | What is reversed is exactly the order's completed payouts with a transfer as listed |
| `CancellationProgress.ApprovalCarriedOut` | backend/services/order/internal/cancellation/service.go:380-458 | Without interference and refusals an approval of an open request for a cancellable order approves it under its refund, cancels the order and reverses exactly the payouts that went out |
| `CancellationProgress.RefusalOutcome` | backend/services/order/internal/cancellation/service.go:387-453 | A call that fails writes nothing; a failed refund or reversal has the request marked failed, if it is still open, and nothing else |
| `CancellationProgress.StatusesMeaning` | backend/services/order/internal/domain/order.go:209-219 | An order can be cancelled unless it was shipped, delivered, completed or cancelled |
| `CancellationProgress.LatestIsOpen` | backend/services/order/internal/cancellation/service.go:308-368 | In every reachable state only the latest request of an order can be open |
| `CancellationTheorems.ApprovalsBounded` | backend/services/order/internal/cancellation/repository.go:319-402 | An order has at most one approval more than it was taken back out of the cancelled status |
| `CancellationTheorems.AtMostOneApproval` | backend/services/order/internal/cancellation/repository.go:319-402 | Without such a revival at most one request of an order is ever approved |
| `CancellationRuns.ApprovalsAttained` | backend/services/order/internal/cancellation/repository.go:319-402 | The bound is attained for every n: a run with n revivals, in which no call fails and nothing crashes, approves and refunds one order n + 1 times |
| `CancellationRefunds.RefundsCounted` | backend/services/order/internal/cancellation/service.go:392-403 | Over every run the refunds of an order are one for each of its requests whose refund call ever took effect, whatever it answered |
| `CancellationRefunds.RefundedTwiceIff` | backend/services/order/internal/cancellation/service.go:392-403 | An order is refunded more than once exactly when some call takes effect for a request without a refund while another request of the order has one |
| `CancellationRefunds.RefundsBounded` | backend/services/order/internal/cancellation/service.go:380-458 | Over every run an order has at most one refund more than its rejected requests, its failed requests and its revivals together |
| `CancellationRefunds.RefundedOnce` | backend/services/order/internal/cancellation/service.go:380-458 | An order without a rejected or failed request and without a revival is refunded at most once |
| `CancellationHeld.SameRefund` | backend/services/order/internal/cancellation/service.go:392-437 | All approvals of one request, across retries and crashes, carry the same refund id, and the one recorded at approval is that one |
| `CancellationHeld.HeldRefundStates` | backend/services/order/internal/cancellation/service.go:392-453 | Which requests hold a refund while the order is not cancelled: failed, rejected, open with an approval at work or abandoned by a crash or a failed last write, and approved only after a revival; only the last is named by its row |
| `CancellationHeld.ResolvedInert` | backend/services/order/internal/cancellation/repository.go:331-345 | An approval that still runs when its request is resolved changes no table and marks nothing failed |
| `CancellationHeld.LeftUnreversed` | backend/services/order/internal/cancellation/service.go:386-424 | An approval leaves a payout of its order completed with its transfer exactly when the payout became so after the listing |
| `CancellationRuns.RejectedRefundsAgain` | backend/services/order/internal/cancellation/service.go:380-458 | A run in which nothing fails: a request rejected while its approval is at Stripe keeps its refund and a second request is refunded too |
| `CancellationRuns.CrashHoldsRefund` | backend/services/order/internal/cancellation/service.go:392-437 | A run that leaves a refunded request open on an order that is not cancelled |
| `CancellationRuns.RetryRefundsAgain` | backend/services/order/internal/cancellation/service.go:392-403 | A run in which a failed approval is retried through a new request, which refunds the order a second time |
| `Cancellation.StepKeepsInv` | backend/services/order/internal/cancellation/service.go:100-458 | Every step of every approval keeps requests, keys and what approvals know of Stripe |
| `CancellationServices.CancellationService.RequestCancellation` | backend/services/order/internal/cancellation/service.go:100-135 | Opens a request exactly for a cancellable order without an open one |
| `CancellationServices.CancellationService.RejectCancellation` | backend/services/order/internal/cancellation/service.go:211-232 | Rejects exactly an open request |
| `CancellationServices.CancellationService.ApproveCancellation` | backend/services/order/internal/cancellation/service.go:263-284 | Approves only an open request of a cancellable order; the rest is a walk of the machine |
| `CancellationServices.CancellationService.AdminForceCancel` | backend/services/order/internal/cancellation/service.go:308-368 | Resolves the order's open request or a new one, whatever its past |
| `CancellationServices.CancellationService.FinalizeApproval` | backend/services/order/internal/cancellation/service.go:380-458 | The Stripe calls, the reversal loop and the write phase are a walk of the state machine, which carries an open request out when every call is accepted |
| `CancellationServices.CancellationService.CommitApproval` | backend/services/order/internal/cancellation/repository.go:319-402 | The guarded updates and the payout loop are the write phase on values |
| `CancellationServices.CancellationService.Insert` | backend/services/order/internal/cancellation/repository.go:50-73 | Inserts unless the order has an open request |
| `Rbac.ExactlyOneOwner` | backend/services/auth/internal/app/rbac.go:88-340 | Over every run of serialised transactions each seller has exactly one owner |
| `Rbac.AuditReconstructs` | backend/services/auth/internal/app/rbac.go:88-595 | Replaying the audit log from the initial owners gives both role tables |
| `Rbac.ActorsWereEntitled` | backend/services/auth/internal/app/rbac.go:88-595 | At its point of the log every actor held the required role, and the target the role the row says it had |
| `Rbac.SuperAdminsNeverVanish` | backend/services/auth/internal/app/rbac.go:426-528 | Once there is a super administrator there always is one |
| `Rbac.SafeguardsNeverFire` | backend/services/auth/internal/app/rbac.go:180-193 | Among serialised transactions the last-owner and last-super-administrator answers never occur |
| `Rbac.MutualDemotion` | backend/services/auth/internal/app/rbac.go:434-463 | Two role changes or revocations that both read before either writes both pass and leave no super administrator exactly when the only two super administrators demote each other |
| `Rbac.DoubleTransfer` | backend/services/auth/internal/app/rbac.go:283-309 | Two transfers that both read before either writes leave two owners exactly when both pass for different targets, and one owner otherwise |
| `Rbac.StepKeepsInv` | backend/services/auth/internal/app/rbac.go:88-595 | Every operation keeps ownership, the log and both tables in agreement |
| `RbacOutcomes.CreateOutcome` | backend/services/auth/internal/app/identity.go:43-81 | Who can open a seller account, and the one row it makes |
| `RbacOutcomes.AddOutcome` | backend/services/auth/internal/app/rbac.go:88-146 | Exactly when a member is added; the row holds the role asked for, and so does the audit row |
| `RbacOutcomes.UpdateOutcome` | backend/services/auth/internal/app/rbac.go:152-214 | Exactly when a member's role changes, to the role asked for, with one audit row of the old and the new role |
| `RbacOutcomes.RemoveOutcome` | backend/services/auth/internal/app/rbac.go:220-269 | Exactly when a member is removed, with one audit row |
| `RbacOutcomes.TransferOutcome` | backend/services/auth/internal/app/rbac.go:275-340 | Exactly when ownership passes; both new roles and both audit rows |
| `RbacOutcomes.GrantOutcome` | backend/services/auth/internal/app/rbac.go:373-420 | Exactly when a platform role is granted; table and log hold the role asked for |
| `RbacOutcomes.UpdateAdminOutcome` | backend/services/auth/internal/app/rbac.go:426-480 | Exactly when a platform role changes, to the role asked for, with one audit row |
| `RbacOutcomes.RevokeOutcome` | backend/services/auth/internal/app/rbac.go:485-528 | Exactly when a platform role is taken away, with one audit row |
| `RbacOutcomes.BootstrapOutcome` | backend/services/auth/internal/app/rbac.go:561-595 | The bootstrap acts exactly while there is no super administrator |
| `RbacServices.RbacService.CreateSeller` | backend/services/auth/internal/app/identity.go:43-81 | The caller becomes the only owner, without an audit row |
| `RbacServices.RbacService.AddSellerUser` | backend/services/auth/internal/app/rbac.go:88-146 | Equal to the operation on values, check by check |
| `RbacServices.RbacService.UpdateSellerUserRole` | backend/services/auth/internal/app/rbac.go:152-214 | Equal to the operation on values, check by check |
| `RbacServices.RbacService.RemoveSellerUser` | backend/services/auth/internal/app/rbac.go:220-269 | Equal to the operation on values, check by check |
| `RbacServices.RbacService.TransferSellerOwnership` | backend/services/auth/internal/app/rbac.go:275-340 | Equal to the operation on values, with its two audit rows in order |
| `RbacServices.RbacService.GrantPlatformAdmin` | backend/services/auth/internal/app/rbac.go:373-420 | Equal to the operation on values |
| `RbacServices.RbacService.UpdatePlatformAdminRole` | backend/services/auth/internal/app/rbac.go:426-480 | Equal to the operation on values |
| `RbacServices.RbacService.RevokePlatformAdmin` | backend/services/auth/internal/app/rbac.go:485-528 | Equal to the operation on values |
| `RbacServices.RbacService.BootstrapSuperAdmin` | backend/services/auth/internal/app/rbac.go:561-595 | Grants a super administrator exactly when there is none |
| `TtlCaches.TTLCache.Set` | backend/pkg/authz/authz.go:226-237 | Stores the value; drops nothing below capacity, else exactly the expired entries, else exactly a batch of the soonest-expiring ones; the size never exceeds max(1, maxSize) |
| `TtlCaches.TTLCache.Get` | backend/pkg/authz/authz.go:209-223 | A hit is the value stored last, not deleted since and not expired; anything else is a miss |
| `TtlCaches.TTLCache.Delete` | backend/pkg/authz/authz.go:240-244 | Removes the key and nothing else |
| `TtlCaches.TTLCache.Sweep` | backend/pkg/authz/authz.go:246-253 | Keeps exactly the entries that have not expired, for every iteration order |
| `TtlCaches.LiveMeaning` | backend/pkg/authz/authz.go:246-253 | An entry is live up to and including its expiry |
| `TtlCaches.TTLCache.EvictOldest` | backend/pkg/authz/authz.go:255-283 | Removes exactly min(max(n, 1), size) entries, none of which expires later than one that stays, for every iteration order |
| `TtlCaches.TTLCache.PickOldest` | backend/pkg/authz/authz.go:263-279 | The one-pass selection with its replacement step finds such a set |
| `TtlCaches.SoonestUnique` | backend/pkg/authz/authz.go:255-283 | When no two entries expire together the evicted set does not depend on the iteration order |

## Left out

- LoyaltyDomain.ComputeEarnAmount: does not model the wrap-around of the 64-bit product; the 64-bit argument is made for the discount split only.
- CouponSpec.Coupon.ComputeDiscount: likewise over unbounded integers.
- CheckoutPricing.CheckoutConserves: sums and products of the checkout other than the split's products are unbounded integers.
- LoyaltyServices.LoyaltyService.ExpirePointsForBuyer: one buyer at a time; the sweep over candidate buyers is a sequence of such passes.
- LoyaltyServices.LoyaltyService.AwardEarn: the checks for empty buyer, order and currency arguments are not modelled, here and in the other loyalty operations.
- CouponServices.CouponService.CommitReservation: a unique violation aborts the transaction, as in Postgres; the branch that would look the winner's row up afterwards is therefore never reached and not modelled, and neither is the `coupon.redeemed` event.
- CouponServices.CouponService.RefundRedemption: likewise, the already-refunded answer to a repeated event is not reached.
- CouponServices.CouponService.ResolveCoupon: codes and currencies are compared as normalised values; trimming, case folding and the empty-argument checks are not modelled.
- WebhookTransfers.PaidTwiceIff: for overlapping deliveries the count is exact (`TransfersAccounted`), without a condition on the operations alone.
- WebhookServices.PaymentWebhook.HandlePaymentSuccess: without interference, and with calls that do what they answer; interleavings and transfers whose call fails after all are steps of the state machine only. A publish that is accepted but answers with an error counts as not accepted. The display-only points_earned column and the line item lookup of the event are not modelled.
- CancellationServices.CancellationService.FinalizeApproval: likewise; a Stripe call that takes effect but answers with an error is a step of the state machine only.
- CancellationTheorems.OneRefundPerRequest: refund and reversal amounts are not recorded; both are fixed by the order and the payout.
- Cancellation.StepKeepsInv: an approval may begin on any request of a cancellable order, which covers the status checks made on outdated reads; ownership checks by buyer and seller are not modelled.
- CheckoutServices.OrderService.CreateCheckout: order.created events, names and addresses are not modelled; currency is not compared; which error a failed checkout answers is not stated.
- Rbac.ExactlyOneOwner: rows are named by user instead of row id, which the unique user column allows; transactions are serialised.
- TtlCaches.TTLCache.Get: the lookup and the removal of an expired entry are one step; the removal alone is `Drop`, which may run at any later time and keeps the cache valid.
- HTTP and gRPC handlers, gateways, configuration, tracing and logging: plumbing.
- Pub/Sub, Redis, Stripe and Postgres internals: seen only through their answers and constraints.
- The legacy single-seller `CreateOrder`, coupon previews, listings and statistics: they add only easy members.
- Search, recommendation, inventory, shipping, inquiry, review, cart and catalog services, API tokens and token verification: not part of this model.
