/** Splitting a coupon at checkout and refunding it order by order fit together. */
module RefundClosure {
  import opened Common
  import opened Discount
  import opened CheckoutPricing
  import CouponSpec
  import CouponProofs
  import CouponTheorems

  /** Deliveries of the orders of one cart, each with its checkout share: order ids[i] got
      shares[i]. Any order, any number of times. */
  predicate CartDeliveries(ds: seq<CouponTheorems.Delivery>, ids: seq<nat>, shares: seq<int>)
    requires |ids| == |shares|
  {
    forall k | 0 <= k < |ds| :: exists i :: 0 <= i < |ids| && ds[k].order == ids[i] && ds[k].share == shares[i]
  }

  predicate AllCancelled(ds: seq<CouponTheorems.Delivery>, ids: seq<nat>) {
    forall i | 0 <= i < |ids| :: ids[i] in CouponTheorems.Orders(ds)
  }

  function ShareMap(ids: seq<nat>, shares: seq<int>): (m: map<nat, int>)
    requires |ids| == |shares| && Distinct(ids)
    ensures forall o :: o in m <==> o in ids
    ensures forall i | 0 <= i < |ids| :: m[ids[i]] == shares[i]
  {
    if ids == [] then map[]
    else
      var n := |ids| - 1;
      ShareMap(ids[..n], shares[..n])[ids[n] := shares[n]]
  }

  function Set(ids: seq<nat>): set<nat> {
    set i | 0 <= i < |ids| :: ids[i]
  }

  lemma {:induction false} TotalOfCart(ids: seq<nat>, shares: seq<int>, m: map<nat, int>)
    requires |ids| == |shares| && Distinct(ids)
    requires forall i | 0 <= i < |ids| :: ids[i] in m && m[ids[i]] == shares[i]
    ensures Set(ids) <= m.Keys && CouponTheorems.Total(Set(ids), m) == Sum(shares)
  {
    if ids != [] {
      var n := |ids| - 1;
      TotalOfCart(ids[..n], shares[..n], m);
      assert Set(ids) - {ids[n]} == Set(ids[..n]);
      CouponTheorems.TotalWithout(Set(ids), m, ids[n]);
    }
  }

  lemma CartShares(ids: seq<nat>, shares: seq<int>, ds: seq<CouponTheorems.Delivery>)
    requires |ids| == |shares| && Distinct(ids) && forall i | 0 <= i < |shares| :: shares[i] >= 0
    requires CartDeliveries(ds, ids, shares) && AllCancelled(ds, ids)
    ensures CouponTheorems.FirstShares(ds) == Sum(shares)
  {
    var m := ShareMap(ids, shares);
    forall k | 0 <= k < |ds|
      ensures ds[k].order in ids && ds[k].order in m && ds[k].share == m[ds[k].order] && ds[k].share >= 0
    {
      var i :| 0 <= i < |ids| && ds[k].order == ids[i] && ds[k].share == shares[i];
      assert m[ids[i]] == shares[i];
    }
    assert CouponTheorems.Orders(ds) == Set(ids);
    TotalOfCart(ids, shares, m);
    CouponTheorems.FirstSharesTotal(ds, m);
  }

  /** Every order of a discounted cart is cancelled with its checkout share, in whatever order and
      however often: what stays unrefunded is what the split had lost, at most P - 2 yen, and the
      coupon's use comes back exactly when nothing stays. */
  lemma SplitThenRefund(lines: seq<Line>, hold: CouponHold, s: CouponSpec.Store, k: nat, ids: seq<nat>, shares: seq<int>,
                        ds: seq<CouponTheorems.Delivery>)
    requires Priceable(lines) && hold.seller == None && 0 < hold.discount <= Subtotal(lines)
    requires CouponProofs.Inv(s) && CouponTheorems.Unrefunded(s, hold.reservation, k) && s.redemptions[k].applied == hold.discount
    requires shares == CouponShares(Some(hold), Sellers(lines), CartSubtotals(lines)) && |ids| == |shares| && Distinct(ids)
    requires CartDeliveries(ds, ids, shares) && AllCancelled(ds, ids)
    ensures var s', positives := CouponTheorems.DeliverAll(s, hold.reservation, ds), Positives(CartSubtotals(lines));
            && k < |s'.redemptions| && s.redemptions[k].coupon < |s.coupons|
            && var left := hold.discount - s'.redemptions[k].refunded;
            && 0 <= left <= Pos(positives - 2)
            && s'.coupons == if left == 0 then CouponTheorems.OneFewer(s.coupons, s.redemptions[k].coupon) else s.coupons
  {
    CartSubtotalsNonNegative(lines);
    CouponSharesBounds(Some(hold), Sellers(lines), CartSubtotals(lines));
    CartShares(ids, shares, ds);
    PlatformCouponSpent(lines, hold);
    CouponTheorems.RefundTotals(s, hold.reservation, k, ds);
  }

  /** A seller's own coupon always comes back whole. */
  lemma SellerSplitThenRefund(lines: seq<Line>, hold: CouponHold, slot: nat, s: CouponSpec.Store, k: nat, ids: seq<nat>,
                              shares: seq<int>, ds: seq<CouponTheorems.Delivery>)
    requires Priceable(lines) && slot < |Sellers(lines)| && hold.seller == Some(Sellers(lines)[slot])
    requires 0 < hold.discount <= CartSubtotals(lines)[slot]
    requires CouponProofs.Inv(s) && CouponTheorems.Unrefunded(s, hold.reservation, k) && s.redemptions[k].applied == hold.discount
    requires shares == CouponShares(Some(hold), Sellers(lines), CartSubtotals(lines)) && |ids| == |shares| && Distinct(ids)
    requires CartDeliveries(ds, ids, shares) && AllCancelled(ds, ids)
    ensures var s' := CouponTheorems.DeliverAll(s, hold.reservation, ds);
            && k < |s'.redemptions| && s.redemptions[k].coupon < |s.coupons|
            && s'.redemptions[k].refunded == hold.discount && s'.redemptions[k].full
            && s'.coupons == CouponTheorems.OneFewer(s.coupons, s.redemptions[k].coupon)
  {
    CartSubtotalsNonNegative(lines);
    CouponSharesBounds(Some(hold), Sellers(lines), CartSubtotals(lines));
    CartShares(ids, shares, ds);
    SellerCouponSpent(lines, hold, slot);
    CouponTheorems.RefundTotals(s, hold.reservation, k, ds);
  }
}
