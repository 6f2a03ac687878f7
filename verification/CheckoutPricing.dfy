/** What a multi-seller checkout charges: grouping by seller, discount shares, totals, commission
    and payout, on values. */
module CheckoutPricing {
  import opened Common
  import opened Discount

  type Seller = nat

  datatype Line = Line(seller: Seller, sku: nat, quantity: int, unitPrice: int) {
    function Total(): int {
      unitPrice * quantity
    }
  }

  /** A coupon reservation; `seller` is set when a seller issued the coupon. */
  datatype CouponHold = CouponHold(reservation: nat, coupon: nat, discount: int, seller: Option<Seller>)

  datatype PointHold = PointHold(reservation: nat, amount: int)

  /** One order with its payout, as the checkout builds it. */
  datatype Order = Order(seller: Seller, lines: seq<Line>, subtotal: int, shippingFee: int,
                         couponShare: int, pointShare: int, total: int, commission: int, payout: int,
                         couponRef: Option<CouponHold>, pointRef: Option<nat>, intent: Option<nat>)

  // ----- Grouping -----

  /** The sellers of a cart in order of first appearance. */
  function Sellers(lines: seq<Line>): seq<Seller> {
    if lines == [] then []
    else
      var before, last := Sellers(lines[..|lines| - 1]), lines[|lines| - 1];
      if last.seller in before then before else before + [last.seller]
  }

  /** One seller's lines in cart order. */
  function LinesOf(lines: seq<Line>, s: Seller): seq<Line> {
    if lines == [] then []
    else LinesOf(lines[..|lines| - 1], s) + if lines[|lines| - 1].seller == s then [lines[|lines| - 1]] else []
  }

  function Subtotal(lines: seq<Line>): int {
    if lines == [] then 0 else Subtotal(lines[..|lines| - 1]) + lines[|lines| - 1].Total()
  }

  function Groups(lines: seq<Line>, sellers: seq<Seller>): (gs: seq<seq<Line>>)
    ensures |gs| == |sellers|
    ensures forall i | 0 <= i < |gs| :: gs[i] == LinesOf(lines, sellers[i])
  {
    if sellers == [] then [] else Groups(lines, sellers[..|sellers| - 1]) + [LinesOf(lines, sellers[|sellers| - 1])]
  }

  function CartGroups(lines: seq<Line>): seq<seq<Line>> {
    Groups(lines, Sellers(lines))
  }

  function Flatten(gs: seq<seq<Line>>): seq<Line> {
    if gs == [] then [] else Flatten(gs[..|gs| - 1]) + gs[|gs| - 1]
  }

  function Subtotals(gs: seq<seq<Line>>): (ts: seq<int>)
    ensures |ts| == |gs|
    ensures forall i | 0 <= i < |ts| :: ts[i] == Subtotal(gs[i])
  {
    if gs == [] then [] else Subtotals(gs[..|gs| - 1]) + [Subtotal(gs[|gs| - 1])]
  }

  function CartSubtotals(lines: seq<Line>): seq<int> {
    Subtotals(CartGroups(lines))
  }

  predicate Distinct(xs: seq<Seller>) {
    forall i, j | 0 <= i < j < |xs| :: xs[i] != xs[j]
  }

  /** One group per seller that appears, and no other. */
  lemma {:induction false} SellersDistinct(lines: seq<Line>)
    ensures Distinct(Sellers(lines))
    ensures forall s :: s in Sellers(lines) <==> exists k :: 0 <= k < |lines| && lines[k].seller == s
  {
    if lines != [] {
      var init, last := lines[..|lines| - 1], lines[|lines| - 1];
      SellersDistinct(init);
      forall s
        ensures s in Sellers(lines) <==> exists k :: 0 <= k < |lines| && lines[k].seller == s
      {
        if s in Sellers(init) {
          var k :| 0 <= k < |init| && init[k].seller == s;
          assert lines[k].seller == s;
        }
        if k :| 0 <= k < |lines| && lines[k].seller == s {
          if k < |init| {
            assert init[k].seller == s;
          }
        }
      }
    }
  }

  /** Grouping is stable: cutting the cart anywhere cuts every group at the same place. */
  lemma {:induction false} GroupingIsStable(a: seq<Line>, b: seq<Line>, s: Seller)
    ensures LinesOf(a + b, s) == LinesOf(a, s) + LinesOf(b, s)
    ensures Sellers(a) <= Sellers(a + b)
  {
    if b == [] {
      assert a + b == a;
    } else {
      var init := b[..|b| - 1];
      GroupingIsStable(a, init, s);
      assert (a + b)[..|a + b| - 1] == a + init;
    }
  }

  lemma LinesOfAppend(lines: seq<Line>, last: Line, s: Seller)
    ensures LinesOf(lines + [last], s) == LinesOf(lines, s) + if last.seller == s then [last] else []
  {
    assert (lines + [last])[..|lines|] == lines;
  }

  lemma GroupsWithout(lines: seq<Line>, last: Line, sellers: seq<Seller>)
    requires last.seller !in sellers
    ensures Groups(lines + [last], sellers) == Groups(lines, sellers)
  {
    forall i | 0 <= i < |sellers|
      ensures LinesOf(lines + [last], sellers[i]) == LinesOf(lines, sellers[i])
    {
      LinesOfAppend(lines, last, sellers[i]);
    }
  }

  /** A line of a known seller joins that seller's group. */
  lemma GroupsWith(lines: seq<Line>, last: Line, sellers: seq<Seller>, k: nat)
    requires Distinct(sellers) && k < |sellers| && sellers[k] == last.seller
    ensures var gs := Groups(lines, sellers);
            Groups(lines + [last], sellers) == gs[k := gs[k] + [last]]
  {
    var gs, gs' := Groups(lines, sellers), Groups(lines + [last], sellers);
    forall i | 0 <= i < |sellers|
      ensures gs'[i] == gs[k := gs[k] + [last]][i]
    {
      LinesOfAppend(lines, last, sellers[i]);
    }
  }

  /** A line of a new seller opens a group of its own, at the end. */
  lemma GroupsAppend(lines: seq<Line>, last: Line, sellers: seq<Seller>)
    requires last.seller !in sellers && (forall k | 0 <= k < |lines| :: lines[k].seller in sellers)
    ensures Groups(lines + [last], sellers + [last.seller]) == Groups(lines, sellers) + [[last]]
  {
    var all, s := lines + [last], last.seller;
    GroupsWithout(lines, last, sellers);
    LinesOfAppend(lines, last, s);
    NoLinesOf(lines, s);
    assert LinesOf(all, s) == [last];
    GroupsSnoc(all, sellers, s);
  }

  lemma GroupsSnoc(lines: seq<Line>, sellers: seq<Seller>, s: Seller)
    ensures Groups(lines, sellers + [s]) == Groups(lines, sellers) + [LinesOf(lines, s)]
  {
    assert (sellers + [s])[..|sellers|] == sellers;
  }

  /** One more line either joins group k or opens the last group. */
  lemma GroupsGrow(init: seq<Line>, last: Line, lines: seq<Line>) returns (gs: seq<seq<Line>>, k: nat)
    requires lines == init + [last]
    ensures gs == CartGroups(init) && k <= |gs|
    ensures CartGroups(lines) == if k < |gs| then gs[k := gs[k] + [last]] else gs + [[last]]
  {
    SellersDistinct(init);
    assert lines[..|init|] == init;
    var before := Sellers(init);
    gs := Groups(init, before);
    if last.seller in before {
      k :| 0 <= k < |before| && before[k] == last.seller;
      GroupsWith(init, last, before, k);
    } else {
      k := |gs|;
      GroupsAppend(init, last, before);
    }
  }

  /** Every line lands in exactly one group: the groups together are the cart. */
  lemma {:induction false} GroupsPartition(lines: seq<Line>)
    ensures multiset(Flatten(CartGroups(lines))) == multiset(lines)
  {
    if lines != [] {
      var init, last := lines[..|lines| - 1], lines[|lines| - 1];
      GroupsPartition(init);
      assert lines == init + [last];
      var gs, k := GroupsGrow(init, last, lines);
      if k < |gs| {
        FlattenUpdate(gs, k, last);
      } else {
        assert (gs + [[last]])[..|gs|] == gs;
      }
    }
  }

  lemma {:induction false} NoLinesOf(lines: seq<Line>, s: Seller)
    requires forall k | 0 <= k < |lines| :: lines[k].seller != s
    ensures LinesOf(lines, s) == []
  {
    if lines != [] {
      NoLinesOf(lines[..|lines| - 1], s);
    }
  }

  lemma {:induction false} FlattenUpdate(gs: seq<seq<Line>>, k: nat, last: Line)
    requires k < |gs|
    ensures multiset(Flatten(gs[k := gs[k] + [last]])) == multiset(Flatten(gs)) + multiset{last}
  {
    var init, gs' := gs[..|gs| - 1], gs[k := gs[k] + [last]];
    if k < |init| {
      FlattenUpdate(init, k, last);
      assert gs'[..|init|] == init[k := init[k] + [last]];
    } else {
      assert gs'[..|init|] == init;
    }
  }

  lemma SubtotalAppend(lines: seq<Line>, last: Line)
    ensures Subtotal(lines + [last]) == Subtotal(lines) + last.Total()
  {
    assert (lines + [last])[..|lines|] == lines;
  }

  /** The group subtotals add up to the cart's. */
  lemma {:induction false} SubtotalsConserve(lines: seq<Line>)
    ensures Sum(CartSubtotals(lines)) == Subtotal(lines)
  {
    if lines == [] {
      assert CartSubtotals(lines) == [];
    } else {
      var init, last := lines[..|lines| - 1], lines[|lines| - 1];
      SubtotalsConserve(init);
      assert lines == init + [last];
      CartSumGrows(init, last, lines);
      SubtotalAppend(init, last);
    }
  }

  lemma CartSumGrows(init: seq<Line>, last: Line, lines: seq<Line>)
    requires lines == init + [last]
    ensures Sum(CartSubtotals(lines)) == Sum(CartSubtotals(init)) + last.Total()
  {
    var gs, k := GroupsGrow(init, last, lines);
    if k < |gs| {
      SumOfJoined(gs, k, last);
    } else {
      SumOfOpened(gs, last);
    }
  }

  lemma SumOfJoined(gs: seq<seq<Line>>, k: nat, last: Line)
    requires k < |gs|
    ensures Sum(Subtotals(gs[k := gs[k] + [last]])) == Sum(Subtotals(gs)) + last.Total()
  {
    var v := Subtotal(gs[k]) + last.Total();
    SubtotalAppend(gs[k], last);
    assert Subtotals(gs[k := gs[k] + [last]]) == Subtotals(gs)[k := v];
    SumUpdate(Subtotals(gs), k, v);
  }

  lemma SumOfOpened(gs: seq<seq<Line>>, last: Line)
    ensures Sum(Subtotals(gs + [[last]])) == Sum(Subtotals(gs)) + last.Total()
  {
    assert (gs + [[last]])[..|gs|] == gs;
    SubtotalAppend([], last);
    assert [] + [last] == [last];
    SumAppend(Subtotals(gs), last.Total());
  }

  lemma {:induction false} SubtotalNonNegative(lines: seq<Line>)
    requires forall k | 0 <= k < |lines| :: lines[k].unitPrice >= 0 && lines[k].quantity > 0
    ensures Subtotal(lines) >= 0
  {
    if lines != [] {
      SubtotalNonNegative(lines[..|lines| - 1]);
      assert lines[|lines| - 1].Total() >= 0;
    }
  }

  lemma {:induction false} LinesOfIn(lines: seq<Line>, s: Seller)
    ensures forall l | l in LinesOf(lines, s) :: l in lines && l.seller == s
  {
    if lines != [] {
      LinesOfIn(lines[..|lines| - 1], s);
    }
  }

  predicate Priceable(lines: seq<Line>) {
    forall k | 0 <= k < |lines| :: lines[k].unitPrice >= 0 && lines[k].quantity > 0
  }

  lemma CartSubtotalsNonNegative(lines: seq<Line>)
    requires Priceable(lines)
    ensures NonNegative(CartSubtotals(lines))
  {
    var sellers := Sellers(lines);
    forall i | 0 <= i < |sellers|
      ensures Subtotal(LinesOf(lines, sellers[i])) >= 0
    {
      LinesOfIn(lines, sellers[i]);
      SubtotalNonNegative(LinesOf(lines, sellers[i]));
    }
  }

  // ----- Shares and prices -----

  function CouponShares(hold: Option<CouponHold>, sellers: seq<Seller>, subtotals: seq<int>): (shares: seq<int>)
    ensures |shares| == |subtotals|
  {
    match hold
    case None => Shares(0, subtotals)
    case Some(h) =>
      if h.seller.Some? then SellerShares(h.discount, sellers, subtotals, h.seller.value) else Shares(h.discount, subtotals)
  }

  /** What is left of each subtotal for points to pay. */
  function Residuals(subtotals: seq<int>, couponShares: seq<int>): (rs: seq<int>)
    requires |subtotals| == |couponShares|
    ensures |rs| == |subtotals|
    ensures forall i | 0 <= i < |rs| :: rs[i] == Pos(subtotals[i] - couponShares[i])
  {
    seq(|subtotals|, i requires 0 <= i < |subtotals| => Pos(subtotals[i] - couponShares[i]))
  }

  function Points(hold: Option<PointHold>): int {
    if hold.Some? then hold.value.amount else 0
  }

  function CouponAmount(hold: Option<CouponHold>): int {
    if hold.Some? then hold.value.discount else 0
  }

  /** The points actually asked for: what the cart can absorb after the coupon. */
  function EffectivePoints(requested: int, cartSubtotal: int, couponDiscount: int): int {
    Min(requested, Pos(cartSubtotal - couponDiscount))
  }

  /** No applicable rule means no commission. */
  function Commission(subtotal: int, rateBps: Option<int>): int {
    match rateBps
    case None => 0
    case Some(rate) => Trunc(subtotal * rate, 10000)
  }

  predicate SellerFunded(hold: Option<CouponHold>) {
    hold.Some? && hold.value.seller.Some?
  }

  /** Order i of a checkout, priced. */
  function Priced(seller: Seller, lines: seq<Line>, shippingFee: int, rateBps: Option<int>, i: nat,
                  hold: Option<CouponHold>, points: Option<PointHold>, coupon: int, point: int): Order
  {
    var subtotal := Subtotal(lines);
    var base := if SellerFunded(hold) && coupon > 0 then Pos(subtotal - coupon) else subtotal;
    Order(seller, lines, subtotal, shippingFee, coupon, point, Pos(subtotal + shippingFee - coupon - point),
          Commission(base, rateBps), base - Commission(base, rateBps),
          if coupon > 0 then hold else None,
          if i == 0 && points.Some? then Some(points.value.reservation) else None, None)
  }

  /** The whole batch. */
  function Batch(lines: seq<Line>, shippingFee: int, rates: map<Seller, Option<int>>,
                 hold: Option<CouponHold>, points: Option<PointHold>): (os: seq<Order>)
    requires forall s | s in Sellers(lines) :: s in rates
    ensures |os| == |Sellers(lines)|
  {
    var sellers, subtotals := Sellers(lines), CartSubtotals(lines);
    var coupons := CouponShares(hold, sellers, subtotals);
    var pointShares := Shares(Points(points), Residuals(subtotals, coupons));
    seq(|sellers|, i requires 0 <= i < |sellers| =>
      Priced(sellers[i], LinesOf(lines, sellers[i]), shippingFee, rates[sellers[i]], i, hold, points, coupons[i], pointShares[i]))
  }

  /** Column sums of a batch. */
  datatype Books = Books(subtotal: int, shipping: int, coupon: int, points: int, total: int, commission: int, payout: int)

  function BooksOf(os: seq<Order>): Books {
    if os == [] then Books(0, 0, 0, 0, 0, 0, 0)
    else
      var b, o := BooksOf(os[..|os| - 1]), os[|os| - 1];
      Books(b.subtotal + o.subtotal, b.shipping + o.shippingFee, b.coupon + o.couponShare, b.points + o.pointShare,
            b.total + o.total, b.commission + o.commission, b.payout + o.payout)
  }

  // ----- What a priced order keeps -----

  lemma CouponSharesBounds(hold: Option<CouponHold>, sellers: seq<Seller>, subtotals: seq<int>)
    requires NonNegative(subtotals)
    ensures forall i | 0 <= i < |subtotals| :: 0 <= CouponShares(hold, sellers, subtotals)[i] <= subtotals[i]
  {
    ShareBounds(CouponAmount(hold), subtotals);
    if SellerFunded(hold) {
      SellerShareBounds(hold.value.discount, sellers, subtotals, hold.value.seller.value);
    }
  }

  lemma CommissionBounds(subtotal: nat, rateBps: Option<int>)
    requires rateBps.Some? ==> 0 <= rateBps.value <= 10000
    ensures 0 <= Commission(subtotal, rateBps) <= subtotal
    ensures rateBps.Some? ==> 0 <= subtotal * rateBps.value - 10000 * Commission(subtotal, rateBps) < 10000
  {
    if rateBps.Some? {
      MulMonotone(subtotal, rateBps.value, 10000);
      MulMonotone(subtotal, 0, rateBps.value);
      QuotientAtMost(subtotal * rateBps.value, subtotal);
    }
  }

  lemma QuotientAtMost(x: int, s: nat)
    requires 0 <= x <= s * 10000
    ensures 0 <= Trunc(x, 10000) <= s && 0 <= x - 10000 * Trunc(x, 10000) < 10000
  {
  }

  /** One order of a checkout with prices that are not negative, whatever the size of the two
      reservations: the total is exact, so the zero clamp never fires; payout and commission
      split the subtotal, less the coupon share exactly when the seller funds the coupon; and
      neither is negative. */
  lemma OrderKeeps(lines: seq<Line>, shippingFee: nat, rates: map<Seller, Option<int>>,
                   hold: Option<CouponHold>, points: Option<PointHold>, i: nat)
    requires Priceable(lines) && i < |Sellers(lines)|
    requires forall s | s in Sellers(lines) :: s in rates && (rates[s].Some? ==> 0 <= rates[s].value <= 10000)
    ensures var o := Batch(lines, shippingFee, rates, hold, points)[i];
            && o.total == o.subtotal + o.shippingFee - o.couponShare - o.pointShare
            && o.total >= o.shippingFee == shippingFee
            && 0 <= o.couponShare && 0 <= o.pointShare
            && o.payout + o.commission + (if SellerFunded(hold) then o.couponShare else 0) == o.subtotal
            && 0 <= o.payout && 0 <= o.commission
  {
    var sellers, subtotals := Sellers(lines), CartSubtotals(lines);
    var coupons := CouponShares(hold, sellers, subtotals);
    var pointShares := Shares(Points(points), Residuals(subtotals, coupons));
    CartSubtotalsNonNegative(lines);
    CouponSharesBounds(hold, sellers, subtotals);
    ShareBounds(Points(points), Residuals(subtotals, coupons));
    PricedKeeps(sellers[i], LinesOf(lines, sellers[i]), shippingFee, rates[sellers[i]], i, hold, points, coupons[i], pointShares[i]);
  }

  lemma PricedKeeps(seller: Seller, lines: seq<Line>, shippingFee: nat, rate: Option<int>, i: nat,
                    hold: Option<CouponHold>, points: Option<PointHold>, coupon: int, point: int)
    requires 0 <= coupon <= Subtotal(lines) && 0 <= point <= Subtotal(lines) - coupon
    requires rate.Some? ==> 0 <= rate.value <= 10000
    ensures var o := Priced(seller, lines, shippingFee, rate, i, hold, points, coupon, point);
            && o.total == o.subtotal + o.shippingFee - o.couponShare - o.pointShare
            && o.total >= o.shippingFee
            && o.payout + o.commission + (if SellerFunded(hold) then o.couponShare else 0) == o.subtotal
            && 0 <= o.payout && 0 <= o.commission
  {
    var subtotal := Subtotal(lines);
    var base := if SellerFunded(hold) && coupon > 0 then Pos(subtotal - coupon) else subtotal;
    CommissionBounds(base, rate);
  }

  /** When prices may be negative the zero clamp decides the total exactly for an order that
      owes less than nothing and got no share of the coupon: always so for a seller's own coupon,
      which gives a negative subtotal nothing, and for a platform coupon when nothing is
      distributed at all. */
  lemma {:induction false} ClampFiresIff(lines: seq<Line>, shippingFee: nat, rates: map<Seller, Option<int>>,
                      hold: Option<CouponHold>, points: Option<PointHold>, i: nat)
    requires i < |Sellers(lines)|
    requires forall s | s in Sellers(lines) :: s in rates
    ensures var o := Batch(lines, shippingFee, rates, hold, points)[i];
            o.total != o.subtotal + o.shippingFee - o.couponShare - o.pointShare <==>
              && o.subtotal + shippingFee < 0
              && (SellerFunded(hold) || CouponAmount(hold) <= 0 || PositiveTotal(CartSubtotals(lines)) == 0)
  {
    var seller, taken := Sellers(lines)[i], PlatformShares(hold, CartSubtotals(lines));
    var coupon, point := SharesAtMost(lines, hold, points, i);
    PricedClamps(seller, LinesOf(lines, seller), shippingFee, rates[seller], i, hold, points, coupon, point, taken);
  }

  /** The two shares of order i. */
  lemma {:induction false} SharesAtMost(lines: seq<Line>, hold: Option<CouponHold>, points: Option<PointHold>, i: nat) returns (coupon: int, point: int)
    requires i < |Sellers(lines)|
    ensures var subtotals := CartSubtotals(lines);
            var coupons := CouponShares(hold, Sellers(lines), subtotals);
            coupon == coupons[i] && point == Shares(Points(points), Residuals(subtotals, coupons))[i]
    ensures Capped(Subtotal(LinesOf(lines, Sellers(lines)[i])), coupon, PlatformShares(hold, CartSubtotals(lines)))
    ensures Fits(point, Subtotal(LinesOf(lines, Sellers(lines)[i])), coupon)
  {
    var subtotals := CartSubtotals(lines);
    coupon := CouponShares(hold, Sellers(lines), subtotals)[i];
    point := PointShareAtMost(subtotals, CouponShares(hold, Sellers(lines), subtotals), points, i);
    CouponShareAtMost(lines, hold, i);
  }

  lemma {:induction false} PointShareAtMost(subtotals: seq<int>, coupons: seq<int>, points: Option<PointHold>, i: nat) returns (point: int)
    requires |subtotals| == |coupons| && i < |subtotals|
    ensures point == Shares(Points(points), Residuals(subtotals, coupons))[i] && Fits(point, subtotals[i], coupons[i])
  {
    ShareBounds(Points(points), Residuals(subtotals, coupons));
    point := Shares(Points(points), Residuals(subtotals, coupons))[i];
  }

  lemma PricedClamps(seller: Seller, lines: seq<Line>, shippingFee: nat, rate: Option<int>, i: nat,
                     hold: Option<CouponHold>, points: Option<PointHold>, coupon: int, point: int, taken: bool)
    requires Capped(Subtotal(lines), coupon, taken)
    requires Fits(point, Subtotal(lines), coupon)
    ensures var o := Priced(seller, lines, shippingFee, rate, i, hold, points, coupon, point);
            o.total != o.subtotal + o.shippingFee - o.couponShare - o.pointShare <==> o.subtotal + shippingFee < 0 && !taken
  {
  }

  /** A platform coupon is distributed at all. */
  predicate PlatformShares(hold: Option<CouponHold>, subtotals: seq<int>) {
    !SellerFunded(hold) && CouponAmount(hold) > 0 && PositiveTotal(subtotals) > 0
  }

  /** A point share is at most what the coupon left to pay. */
  predicate Fits(point: int, subtotal: int, coupon: int) {
    0 <= point <= Pos(subtotal - coupon)
  }

  /** A coupon share is at most a subtotal that is not negative; a negative one gets itself or
      nothing. */
  predicate Capped(subtotal: int, share: int, taken: bool) {
    if subtotal >= 0 then share <= subtotal else share == if taken then subtotal else 0
  }

  lemma {:induction false} CouponShareAtMost(lines: seq<Line>, hold: Option<CouponHold>, i: nat)
    requires i < |Sellers(lines)|
    ensures var subtotals := CartSubtotals(lines);
            Capped(subtotals[i], CouponShares(hold, Sellers(lines), subtotals)[i], PlatformShares(hold, subtotals))
  {
    var subtotals := CartSubtotals(lines);
    if SellerFunded(hold) {
      SellersDistinct(lines);
      SellerShareAtMost(hold.value.discount, Sellers(lines), subtotals, hold.value.seller.value, i);
    } else {
      assert CouponShares(hold, Sellers(lines), subtotals) == Shares(CouponAmount(hold), subtotals);
      ShareAtMost(CouponAmount(hold), subtotals, i);
    }
  }

  lemma {:induction false} SellerShareAtMost(discount: int, sellers: seq<Seller>, subtotals: seq<int>, target: Seller, i: nat)
    requires |sellers| == |subtotals| && i < |sellers| && Distinct(sellers)
    ensures subtotals[i] >= 0 ==> SellerShare(discount, sellers, subtotals, target, i) <= subtotals[i]
    ensures subtotals[i] < 0 ==> SellerShare(discount, sellers, subtotals, target, i) == 0
  {
    if sellers[i] == target {
      var own := [subtotals[i]];
      OneSlot(sellers, subtotals, i);
      RankAt(sellers, subtotals, target, i);
      ShareAtMost(discount, own, 0);
      assert own[..0] == [];
      assert PositiveTotal(own) == Pos(subtotals[i]);
    }
  }

  /** One line of minus five yen: the order owes minus five and is charged nothing. */
  lemma {:induction false} ClampExample()
    ensures var cart := [Line(0, 0, 1, -5)];
            var os := Batch(cart, 0, map[0 := None], None, None);
            Sellers(cart) == [0] && |os| == 1 && os[0].subtotal == -5 && os[0].total == 0
  {
    var line := Line(0, 0, 1, -5);
    var cart := [line];
    assert cart[..0] == [];
    assert Sellers(cart) == [0] && LinesOf(cart, 0) == [line];
    assert line.Total() == -5;
    assert Subtotal(cart) == -5;
    ClampFiresIff(cart, 0, map[0 := None], None, None, 0);
  }

  lemma {:induction false} ShareAtMost(discount: int, subtotals: seq<int>, i: nat)
    requires i < |subtotals|
    ensures subtotals[i] >= 0 ==> Share(discount, subtotals, i) <= subtotals[i]
    ensures subtotals[i] < 0 ==>
              Share(discount, subtotals, i) == (if discount > 0 && PositiveTotal(subtotals) > 0 then subtotals[i] else 0)
  {
    if discount > 0 && PositiveTotal(subtotals) > 0 {
      FloorNonNegative(discount, subtotals, PositiveTotal(subtotals), i);
      var floor := Floors(discount, subtotals, PositiveTotal(subtotals))[i];
      var extra := if i == LastPositive(subtotals) then Pos(Remainder(discount, subtotals)) else 0;
      assert Share(discount, subtotals, i) == Min(floor + extra, subtotals[i]);
    }
  }

  // ----- What the whole checkout keeps -----

  predicate OrderBalances(o: Order, funded: bool) {
    && o.total == o.subtotal + o.shippingFee - o.couponShare - o.pointShare
    && o.payout + o.commission + (if funded then o.couponShare else 0) == o.subtotal
  }

  lemma {:induction false} BooksBalance(os: seq<Order>, funded: bool)
    requires forall i | 0 <= i < |os| :: OrderBalances(os[i], funded)
    ensures var b := BooksOf(os);
            && b.total == b.subtotal + b.shipping - b.coupon - b.points
            && b.payout + b.commission + (if funded then b.coupon else 0) == b.subtotal
  {
    if os != [] {
      BooksBalance(os[..|os| - 1], funded);
    }
  }

  lemma {:induction false} BooksColumns(os: seq<Order>, subtotals: seq<int>, shippingFee: int, coupons: seq<int>, points: seq<int>)
    requires |os| == |subtotals| == |coupons| == |points|
    requires forall i | 0 <= i < |os| ::
               && os[i].subtotal == subtotals[i] && os[i].shippingFee == shippingFee
               && os[i].couponShare == coupons[i] && os[i].pointShare == points[i]
    ensures var b := BooksOf(os);
            && b.subtotal == Sum(subtotals) && b.shipping == |os| * shippingFee
            && b.coupon == Sum(coupons) && b.points == Sum(points)
  {
    if os != [] {
      var n := |os| - 1;
      BooksColumns(os[..n], subtotals[..n], shippingFee, coupons[..n], points[..n]);
      assert (n + 1) * shippingFee == n * shippingFee + shippingFee;
    }
  }

  lemma BatchColumns(lines: seq<Line>, shippingFee: nat, rates: map<Seller, Option<int>>,
                     hold: Option<CouponHold>, points: Option<PointHold>)
    requires forall s | s in Sellers(lines) :: s in rates
    ensures var subtotals, b := CartSubtotals(lines), BooksOf(Batch(lines, shippingFee, rates, hold, points));
            var coupons := CouponShares(hold, Sellers(lines), subtotals);
            && b.subtotal == Subtotal(lines) && b.shipping == |Sellers(lines)| * shippingFee
            && b.coupon == Sum(coupons)
            && b.points == Sum(Shares(Points(points), Residuals(subtotals, coupons)))
  {
    var subtotals := CartSubtotals(lines);
    var coupons := CouponShares(hold, Sellers(lines), subtotals);
    SubtotalsConserve(lines);
    BooksColumns(Batch(lines, shippingFee, rates, hold, points), subtotals, shippingFee, coupons,
                 Shares(Points(points), Residuals(subtotals, coupons)));
  }

  /** The checkout conserves money: what the buyer pays and what the two discounts pay cover the
      cart and its shipping exactly; and what comes in is what goes out to the sellers and the
      platform, minus what the platform funds itself. */
  lemma CheckoutConserves(lines: seq<Line>, shippingFee: nat, rates: map<Seller, Option<int>>,
                          hold: Option<CouponHold>, points: Option<PointHold>)
    requires Priceable(lines)
    requires forall s | s in Sellers(lines) :: s in rates && (rates[s].Some? ==> 0 <= rates[s].value <= 10000)
    ensures var b := BooksOf(Batch(lines, shippingFee, rates, hold, points));
            && b.total + b.coupon + b.points == Subtotal(lines) + |Sellers(lines)| * shippingFee
            && b.payout + b.commission + b.shipping == b.total + b.points + (if SellerFunded(hold) then 0 else b.coupon)
  {
    var os := Batch(lines, shippingFee, rates, hold, points);
    forall i | 0 <= i < |os|
      ensures OrderBalances(os[i], SellerFunded(hold))
    {
      OrderKeeps(lines, shippingFee, rates, hold, points, i);
    }
    BooksBalance(os, SellerFunded(hold));
    BatchColumns(lines, shippingFee, rates, hold, points);
  }

  /** A platform coupon of at most the cart: the orders carry all of it but P - 2 yen at most. */
  lemma PlatformCouponSpent(lines: seq<Line>, hold: CouponHold)
    requires Priceable(lines) && hold.seller == None && 0 <= hold.discount <= Subtotal(lines)
    ensures var subtotals := CartSubtotals(lines);
            0 <= hold.discount - Sum(CouponShares(Some(hold), Sellers(lines), subtotals)) <= Pos(Positives(subtotals) - 2)
  {
    var subtotals := CartSubtotals(lines);
    CartSubtotalsNonNegative(lines);
    SubtotalsConserve(lines);
    SumOfPositive(subtotals);
    ShortfallBound(hold.discount, subtotals);
  }

  lemma {:induction false} OneSlot(sellers: seq<Seller>, subtotals: seq<int>, k: nat)
    requires |sellers| == |subtotals| && k < |sellers| && Distinct(sellers)
    ensures Matching(sellers, subtotals, sellers[k]) == [subtotals[k]]
  {
    var n := |sellers| - 1;
    if k < n {
      OneSlot(sellers[..n], subtotals[..n], k);
    } else {
      NoSlot(sellers[..n], subtotals[..n], sellers[k]);
    }
  }

  lemma {:induction false} NoSlot(sellers: seq<Seller>, subtotals: seq<int>, s: Seller)
    requires |sellers| == |subtotals| && s !in sellers
    ensures Matching(sellers, subtotals, s) == []
  {
    if sellers != [] {
      var n := |sellers| - 1;
      NoSlot(sellers[..n], subtotals[..n], s);
    }
  }

  /** A seller's own coupon lands on that seller's one order, whole, when the order has room. */
  lemma SellerCouponSpent(lines: seq<Line>, hold: CouponHold, k: nat)
    requires Priceable(lines) && k < |Sellers(lines)| && hold.seller == Some(Sellers(lines)[k])
    requires 0 <= hold.discount <= CartSubtotals(lines)[k]
    ensures var shares := CouponShares(Some(hold), Sellers(lines), CartSubtotals(lines));
            && Sum(shares) == hold.discount && shares[k] == hold.discount
            && forall i | 0 <= i < |shares| && i != k :: shares[i] == 0
  {
    SellersDistinct(lines);
    OneSlotShares(Sellers(lines), CartSubtotals(lines), k, hold.discount);
  }

  lemma OneSlotShares(sellers: seq<Seller>, subtotals: seq<int>, k: nat, d: nat)
    requires |sellers| == |subtotals| && k < |sellers| && Distinct(sellers) && d <= subtotals[k]
    ensures var shares := SellerShares(d, sellers, subtotals, sellers[k]);
            && Sum(shares) == d && shares[k] == d
            && forall i | 0 <= i < |shares| && i != k :: shares[i] == 0
  {
    OneSlot(sellers, subtotals, k);
    SingleShare(d, subtotals[k]);
    SellerConserves(d, sellers, subtotals, sellers[k]);
    RankAt(sellers, subtotals, sellers[k], k);
    assert SellerShare(d, sellers, subtotals, sellers[k], k) == d;
  }

  lemma SingleShare(d: nat, s: nat)
    requires d <= s
    ensures Shares(d, [s]) == [d] && Sum([d]) == d
  {
    var one, shares := [s], Shares(d, [s]);
    assert one[..|one| - 1] == [];
    assert Positives(one[..|one| - 1]) == 0 && PositiveTotal(one[..|one| - 1]) == 0;
    ShortfallBound(d, one);
    assert shares == [shares[0]];
    SumOne(shares[0]);
    SumOne(d);
  }

  lemma SumOne(x: int)
    ensures Sum([x]) == x
  {
    SumAppend([], x);
    assert [] + [x] == [x];
  }

  /** The clamp keeps the buyer's points: of what is reserved, at most P - 2 are burned without
      a discount, for P orders with something left to pay after the coupon. */
  lemma PointsSpent(lines: seq<Line>, hold: Option<CouponHold>, requested: int, reserved: int, residuals: seq<int>)
    requires Priceable(lines) && CouponAmount(hold) >= 0
    requires residuals == Residuals(CartSubtotals(lines), CouponShares(hold, Sellers(lines), CartSubtotals(lines)))
    requires reserved == EffectivePoints(requested, Subtotal(lines), CouponAmount(hold)) && reserved > 0
    ensures 0 <= reserved - Sum(Shares(reserved, residuals)) <= Pos(Positives(residuals) - 2)
  {
    var _ := ResidualsCover(lines, hold);
    ShortfallBound(reserved, residuals);
  }

  /** What is left after the coupon is at least the cart less the coupon. */
  lemma ResidualsCover(lines: seq<Line>, hold: Option<CouponHold>) returns (residuals: seq<int>)
    requires Priceable(lines) && CouponAmount(hold) >= 0
    ensures residuals == Residuals(CartSubtotals(lines), CouponShares(hold, Sellers(lines), CartSubtotals(lines)))
    ensures NonNegative(residuals) && PositiveTotal(residuals) >= Subtotal(lines) - CouponAmount(hold)
  {
    var subtotals := CartSubtotals(lines);
    var coupons := CouponShares(hold, Sellers(lines), subtotals);
    residuals := Residuals(subtotals, coupons);
    CartSubtotalsNonNegative(lines);
    CouponSharesBounds(hold, Sellers(lines), subtotals);
    SubtotalsConserve(lines);
    SumDifference(subtotals, coupons, residuals);
    CouponSharesAtMost(hold, Sellers(lines), subtotals);
    SumOfPositive(residuals);
  }

  lemma {:induction false} SumDifference(xs: seq<int>, ys: seq<int>, zs: seq<int>)
    requires |xs| == |ys| == |zs| && forall i | 0 <= i < |xs| :: zs[i] == Pos(xs[i] - ys[i]) && ys[i] <= xs[i]
    ensures Sum(zs) == Sum(xs) - Sum(ys)
  {
    if xs != [] {
      var n := |xs| - 1;
      SumDifference(xs[..n], ys[..n], zs[..n]);
    }
  }

  lemma CouponSharesAtMost(hold: Option<CouponHold>, sellers: seq<Seller>, subtotals: seq<int>)
    requires NonNegative(subtotals) && |sellers| == |subtotals| && CouponAmount(hold) >= 0
    ensures Sum(CouponShares(hold, sellers, subtotals)) <= CouponAmount(hold)
  {
    NeverOver(CouponAmount(hold), subtotals);
    if SellerFunded(hold) {
      var target := hold.value.seller.value;
      SellerConserves(hold.value.discount, sellers, subtotals, target);
      MatchingNonNegative(sellers, subtotals, target);
      NeverOver(hold.value.discount, Matching(sellers, subtotals, target));
    }
  }
}
