/** What a checkout charges each order, in plain amounts. */
module CheckoutOutcomes {
  import opened Common
  import opened Discount
  import opened CheckoutPricing
  import opened CheckoutServices

  /** What the commission is taken from: a coupon that the seller funds lowers it, one that the
      platform funds does not. */
  function CommissionBase(o: Order, hold: Option<CouponHold>): int {
    if hold.Some? && hold.value.seller.Some? then o.subtotal - o.couponShare else o.subtotal
  }

  /** The commission is the rate's whole part of its base, none without a rule; the seller gets the
      rest. */
  predicate Splits(o: Order, base: int, rate: Option<int>) {
    && o.payout == base - o.commission
    && match rate
       case None => o.commission == 0
       case Some(bps) => 0 <= base * bps - 10000 * o.commission < 10000
  }

  /** Order i is the i-th seller's: their lines, their shares, their commission. It carries the coupon
      exactly when it got a share of it, and the points only when it is the first. */
  lemma OrderOutcome(lines: seq<Line>, shippingFee: int, rates: map<Seller, Option<int>>,
                     hold: Option<CouponHold>, points: Option<PointHold>, i: nat)
    requires Priceable(lines) && i < |Sellers(lines)|
    requires forall s | s in Sellers(lines) :: s in rates && (rates[s].Some? ==> 0 <= rates[s].value <= 10000)
    ensures var o, seller := Batch(lines, shippingFee, rates, hold, points)[i], Sellers(lines)[i];
            && o.seller == seller && o.lines == LinesOf(lines, seller) && o.subtotal == Subtotal(o.lines)
            && o.shippingFee == shippingFee && o.intent == None
            && (var coupons := CouponShares(hold, Sellers(lines), CartSubtotals(lines));
                o.couponShare == coupons[i] && o.pointShare == Shares(Points(points), Residuals(CartSubtotals(lines), coupons))[i])
            && Splits(o, CommissionBase(o, hold), rates[seller])
            && o.couponRef == (if o.couponShare > 0 then hold else None)
            && o.pointRef == (if i == 0 && points.Some? then Some(points.value.reservation) else None)
  {
    var o, seller := Batch(lines, shippingFee, rates, hold, points)[i], Sellers(lines)[i];
    var coupon := BaseCovers(lines, hold, i);
    PricedSplits(seller, LinesOf(lines, seller), shippingFee, rates[seller], i, hold, points, coupon, o.pointShare);
  }

  lemma BaseCovers(lines: seq<Line>, hold: Option<CouponHold>, i: nat) returns (coupon: int)
    requires Priceable(lines) && i < |Sellers(lines)|
    ensures coupon == CouponShares(hold, Sellers(lines), CartSubtotals(lines))[i]
    ensures 0 <= coupon <= Subtotal(LinesOf(lines, Sellers(lines)[i]))
  {
    CartSubtotalsNonNegative(lines);
    CouponSharesBounds(hold, Sellers(lines), CartSubtotals(lines));
    coupon := CouponShares(hold, Sellers(lines), CartSubtotals(lines))[i];
  }

  lemma PricedSplits(seller: Seller, lines: seq<Line>, shippingFee: int, rate: Option<int>, i: nat,
                     hold: Option<CouponHold>, points: Option<PointHold>, coupon: int, point: int)
    requires 0 <= coupon <= Subtotal(lines) && (rate.Some? ==> 0 <= rate.value <= 10000)
    ensures var o := Priced(seller, lines, shippingFee, rate, i, hold, points, coupon, point); Splits(o, CommissionBase(o, hold), rate)
  {
    var o := Priced(seller, lines, shippingFee, rate, i, hold, points, coupon, point);
    CommissionSplits(o, CommissionBase(o, hold), rate);
  }

  lemma CommissionSplits(o: Order, base: nat, rate: Option<int>)
    requires rate.Some? ==> 0 <= rate.value <= 10000
    requires o.commission == Commission(base, rate) && o.payout == base - Commission(base, rate)
    ensures Splits(o, base, rate)
  {
    CommissionBounds(base, rate);
  }

  // ----- What a checkout needs, in plain terms -----

  /** A checkout succeeds exactly when the cart has lines of positive quantity, a buyer, only features
      that are switched on, sellers with a known rule, sold products, the reservations it asks for, and
      then its orders are inserted, charged and stamped. */
  lemma AcceptsMeaning(svc: OrderService, req: Request, a: Answers)
    ensures svc.Accepts(req, a) <==>
              && req.lines != [] && req.buyer.Some? && (req.coupon ==> svc.enableCoupons) && (req.points > 0 ==> svc.enableLoyalty)
              && (forall k | 0 <= k < |req.lines| ::
                    req.lines[k].quantity > 0 && req.lines[k].seller in a.rates)
              && (req.coupon ==> a.coupon.Some?)
              && (req.points > 0 && Subtotal(req.lines) > (if req.coupon && a.coupon.Some? then a.coupon.value.discount else 0) ==> a.points.Some?)
              && a.names && a.products.Some? && (forall k | 0 <= k < |req.lines| :: req.lines[k].sku in a.products.value)
              && a.inserted && a.intent.Some? && |Sellers(req.lines)| <= a.stamps
  {
    RatesMeaning(req.lines, a);
    AskedMeaning(req, if req.coupon then a.coupon else None, 1);
  }

  lemma RatesMeaning(lines: seq<Line>, a: Answers)
    ensures RatesKnown(lines, a) <==> forall k | 0 <= k < |lines| :: lines[k].seller in a.rates
  {
    SellersDistinct(lines);
    forall k | 0 <= k < |lines|
      ensures lines[k].seller in Sellers(lines)
    {
    }
  }

  /** Points are asked for as far as the coupon leaves something to pay. */
  lemma AskedMeaning(req: Request, coupon: Option<CouponHold>, n: nat)
    requires n >= 1
    ensures n <= AskedOf(req, Sum(CartSubtotals(req.lines)), coupon) <==>
              n <= req.points && n <= Subtotal(req.lines) - (if coupon.Some? then coupon.value.discount else 0)
  {
    SubtotalsConserve(req.lines);
  }

  /** Every order ships at the default fee, or free of charge for a buyer who has that. */
  lemma ShippingMeaning(svc: OrderService, a: Answers)
    ensures svc.Shipping(a) == if a.freeShipping then 0 else svc.defaultShippingFee
  {
  }
}
