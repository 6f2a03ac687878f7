/** The multi-seller checkout, step by step: grouping, reserving, pricing in place, inserting,
    charging, and giving the reservations back when any step fails. */
module CheckoutServices {
  import opened Common
  import opened Discount
  import opened CheckoutPricing

  datatype Failure = EmptyOrder | BuyerRequired | FeatureDisabled | InvalidQuantity | ReserveFailed | BadRequest | Internal

  datatype Result<+T> = Ok(value: T) | Err(error: Failure)

  datatype Request = Request(lines: seq<Line>, buyer: Option<nat>, coupon: bool, points: int)

  /** What the other services answer to this checkout. A seller missing from `rates` is a failed
      rule lookup; `stamps` is how many payment intent writes succeed before one fails. */
  datatype Answers = Answers(freeShipping: bool, rates: map<Seller, Option<int>>, coupon: Option<CouponHold>,
                             points: Option<PointHold>, names: bool, products: Option<set<nat>>,
                             inserted: bool, intent: Option<nat>, stamps: nat)

  /** The effects on other services that succeed, and the releases attempted. */
  datatype Effect =
    | ReservedCoupon(hold: CouponHold)
    | ReservedPoints(asked: int, points: PointHold)
    | ReleasedCoupon(reservation: nat)
    | ReleasedPoints(reservation: nat)
    | Charged(amount: int)

  function Acquired(coupon: Option<CouponHold>, asked: int, points: Option<PointHold>): seq<Effect> {
    (if coupon.Some? then [ReservedCoupon(coupon.value)] else []) +
    (if points.Some? then [ReservedPoints(asked, points.value)] else [])
  }

  function GivenBack(coupon: Option<CouponHold>, points: Option<PointHold>): seq<Effect> {
    (if coupon.Some? then [ReleasedCoupon(coupon.value.reservation)] else []) +
    (if points.Some? then [ReleasedPoints(points.value.reservation)] else [])
  }

  function StampFirst(os: seq<Order>, intent: nat, n: nat): (r: seq<Order>)
    requires n <= |os|
    ensures |r| == |os|
    ensures forall i | 0 <= i < |os| :: r[i] == if i < n then os[i].(intent := Some(intent)) else os[i]
  {
    seq(|os|, i requires 0 <= i < |os| => if i < n then os[i].(intent := Some(intent)) else os[i])
  }

  predicate RatesKnown(lines: seq<Line>, a: Answers) {
    forall s | s in Sellers(lines) :: s in a.rates
  }

  predicate Quantities(lines: seq<Line>) {
    forall k | 0 <= k < |lines| :: lines[k].quantity > 0
  }

  predicate SkusKnown(lines: seq<Line>, known: set<nat>) {
    forall k | 0 <= k < |lines| :: lines[k].sku in known
  }

  /** Orders without a paying buyer: all of them without a payment intent when there was none,
      or the first few of them stamped when a stamp failed after the charge was prepared. */
  predicate Stranded(batch: seq<Order>, a: Answers, charged: seq<Effect>, placed: seq<Order>) {
    || (charged == [] && a.intent == None && placed == batch)
    || (&& charged == [Charged(BooksOf(batch).total)] && a.intent.Some? && a.stamps < |batch|
        && placed == StampFirst(batch, a.intent.value, a.stamps))
  }

  function AskedOf(req: Request, cartSubtotal: int, coupon: Option<CouponHold>): int {
    if req.points > 0 then EffectivePoints(req.points, cartSubtotal, CouponAmount(coupon)) else 0
  }

  class OrderService {
    var orders: seq<Order>
    var effects: seq<Effect>
    const defaultShippingFee: int
    const enableCoupons: bool
    const enableLoyalty: bool

    constructor (defaultShippingFee: int, enableCoupons: bool, enableLoyalty: bool)
      ensures orders == [] && effects == []
    {
      this.defaultShippingFee, this.enableCoupons, this.enableLoyalty := defaultShippingFee, enableCoupons, enableLoyalty;
      orders, effects := [], [];
    }

    function Shipping(a: Answers): int {
      if a.freeShipping then 0 else defaultShippingFee
    }

    /** The points reservation a request needs after its coupon. */
    function Asked(req: Request, coupon: Option<CouponHold>): int {
      AskedOf(req, Sum(CartSubtotals(req.lines)), coupon)
    }

    /** Everything that must go well for a checkout to succeed. */
    predicate Accepts(req: Request, a: Answers) {
      Prices(req, a) && a.inserted && a.intent.Some? && |Sellers(req.lines)| <= a.stamps
    }

    predicate Prices(req: Request, a: Answers) {
      && req.lines != [] && req.buyer.Some? && Quantities(req.lines)
      && (req.coupon ==> enableCoupons && a.coupon.Some?)
      && (req.points > 0 ==> enableLoyalty)
      && RatesKnown(req.lines, a)
      && (Asked(req, if req.coupon then a.coupon else None) > 0 ==> a.points.Some?)
      && a.names && a.products.Some? && SkusKnown(req.lines, a.products.value)
    }

    /** A checkout that fails gives back exactly the reservations it acquired, each once; one
        that succeeds gives back nothing, charges the sum of its order totals and stamps every
        order with the payment intent. */
    method CreateCheckout(req: Request, a: Answers)
      returns (r: Result<seq<Order>>, coupon: Option<CouponHold>, points: Option<PointHold>)
      modifies this
      ensures r.Ok? <==> Accepts(req, a)
      ensures coupon.Some? ==> req.coupon && coupon == a.coupon
      ensures points.Some? ==> Asked(req, coupon) > 0 && points == a.points
      ensures r.Ok? ==>
                && coupon == (if req.coupon then a.coupon else None)
                && points == (if Asked(req, coupon) > 0 then a.points else None)
                && var batch := Batch(req.lines, Shipping(a), a.rates, coupon, points);
                && r.value == StampFirst(batch, a.intent.value, |batch|)
                && orders == old(orders) + r.value
                && effects == old(effects) + Acquired(coupon, Asked(req, coupon), points) + [Charged(BooksOf(batch).total)]
      ensures r.Err? ==>
                exists charged: seq<Effect>, placed: seq<Order> ::
                  && effects == old(effects) + Acquired(coupon, Asked(req, coupon), points) + charged + GivenBack(coupon, points)
                  && orders == old(orders) + placed
                  && FailedAfter(req, a, coupon, points, charged, placed)
    {
      ghost var charged, placed;
      r, coupon, points, charged, placed := PlaceCheckout(req, a);
      if r.Err? {
        if coupon.Some? {
          effects := effects + [ReleasedCoupon(coupon.value.reservation)];
        }
        if points.Some? {
          effects := effects + [ReleasedPoints(points.value.reservation)];
        }
        assert effects == old(effects) + Acquired(coupon, Asked(req, coupon), points) + charged + GivenBack(coupon, points);
      }
    }

    /** What a failed checkout leaves behind besides released reservations. */
    ghost predicate FailedAfter(req: Request, a: Answers, coupon: Option<CouponHold>, points: Option<PointHold>,
                                charged: seq<Effect>, placed: seq<Order>) {
      || (charged == [] && placed == [])
      || (RatesKnown(req.lines, a) && Stranded(Batch(req.lines, Shipping(a), a.rates, coupon, points), a, charged, placed))
    }

    /** The steps of a checkout up to its deferred cleanup. */
    method PlaceCheckout(req: Request, a: Answers)
      returns (r: Result<seq<Order>>, coupon: Option<CouponHold>, points: Option<PointHold>,
               ghost charged: seq<Effect>, ghost placed: seq<Order>)
      modifies this
      ensures r.Ok? <==> Accepts(req, a)
      ensures coupon.Some? ==> req.coupon && coupon == a.coupon
      ensures points.Some? ==> Asked(req, coupon) > 0 && points == a.points
      ensures r.Ok? ==>
                && coupon == (if req.coupon then a.coupon else None)
                && points == (if Asked(req, coupon) > 0 then a.points else None)
                && var batch := Batch(req.lines, Shipping(a), a.rates, coupon, points);
                && r.value == placed == StampFirst(batch, a.intent.value, |batch|)
                && charged == [Charged(BooksOf(batch).total)]
      ensures r.Err? ==> FailedAfter(req, a, coupon, points, charged, placed)
      ensures effects == old(effects) + Acquired(coupon, Asked(req, coupon), points) + charged
      ensures orders == old(orders) + placed
    {
      charged, placed := [], [];
      var priced;
      priced, coupon, points := PriceCheckout(req, a);
      if priced.Err? {
        return Err(priced.error), coupon, points, charged, placed;
      }
      r, charged, placed := ChargeAndStamp(priced.value, a);
    }

    /** Everything before the orders are inserted: checks, grouping, reservations, prices, names. */
    method PriceCheckout(req: Request, a: Answers)
      returns (r: Result<seq<Order>>, coupon: Option<CouponHold>, points: Option<PointHold>)
      modifies `effects
      ensures r.Ok? <==> Prices(req, a)
      ensures coupon.Some? ==> req.coupon && coupon == a.coupon
      ensures points.Some? ==> Asked(req, coupon) > 0 && points == a.points
      ensures r.Ok? ==>
                && coupon == (if req.coupon then a.coupon else None)
                && points == (if Asked(req, coupon) > 0 then a.points else None)
                && r.value == Batch(req.lines, Shipping(a), a.rates, coupon, points)
      ensures effects == old(effects) + Acquired(coupon, Asked(req, coupon), points)
    {
      coupon, points := None, None;
      if req.lines == [] {
        return Err(EmptyOrder), coupon, points;
      }
      if req.buyer == None {
        return Err(BuyerRequired), coupon, points;
      }
      if (req.coupon && !enableCoupons) || (req.points > 0 && !enableLoyalty) {
        return Err(FeatureDisabled), coupon, points;
      }
      var ok, groupOrder, groups := GroupBySeller(req.lines);
      if !ok {
        return Err(InvalidQuantity), coupon, points;
      }
      var built, batch, subtotals, rateBps, cartSubtotal := BuildBatch(req.lines, groupOrder, groups, Shipping(a), a.rates);
      if !built {
        return Err(Internal), coupon, points;
      }
      var reserved;
      reserved, coupon, points := ReserveDiscounts(req, a, cartSubtotal);
      if !reserved {
        return Err(ReserveFailed), coupon, points;
      }
      var discounted := ApplyDiscounts(req.lines, batch, subtotals, rateBps, Shipping(a), a.rates, coupon, points);
      if !a.names || a.products == None || !SkusKnown(req.lines, a.products.value) {
        return Err(if a.names && a.products.Some? then BadRequest else Internal), coupon, points;
      }
      r := Ok(discounted);
    }

    /** The coupon first, then the points the rest of the cart can absorb. */
    method ReserveDiscounts(req: Request, a: Answers, cartSubtotal: int)
      returns (ok: bool, coupon: Option<CouponHold>, points: Option<PointHold>)
      modifies `effects
      ensures ok <==> (req.coupon ==> a.coupon.Some?) && (AskedOf(req, cartSubtotal, if req.coupon then a.coupon else None) > 0 ==> a.points.Some?)
      ensures coupon == if req.coupon then a.coupon else None
      ensures points == if (req.coupon ==> a.coupon.Some?) && AskedOf(req, cartSubtotal, coupon) > 0 then a.points else None
      ensures effects == old(effects) + Acquired(coupon, AskedOf(req, cartSubtotal, coupon), points)
    {
      coupon, points := None, None;
      if req.coupon {
        if a.coupon == None {
          return false, coupon, points;
        }
        coupon := a.coupon;
        effects := effects + [ReservedCoupon(coupon.value)];
      }
      if req.points > 0 {
        var maxApplicable := cartSubtotal - CouponAmount(coupon);
        if maxApplicable < 0 {
          maxApplicable := 0;
        }
        var effective := req.points;
        if effective > maxApplicable {
          effective := maxApplicable;
        }
        if effective > 0 {
          if a.points == None {
            return false, coupon, points;
          }
          points := a.points;
          effects := effects + [ReservedPoints(effective, points.value)];
        }
      }
      ok := true;
    }

    /** Insert the batch, charge the cart total, stamp the orders one by one. */
    method ChargeAndStamp(batch: seq<Order>, a: Answers)
      returns (r: Result<seq<Order>>, ghost charged: seq<Effect>, ghost placed: seq<Order>)
      modifies this
      ensures r.Ok? <==> a.inserted && a.intent.Some? && |batch| <= a.stamps
      ensures r.Ok? ==> r.value == placed == StampFirst(batch, a.intent.value, |batch|)
      ensures r.Err? ==> (charged == [] && placed == []) || Stranded(batch, a, charged, placed)
      ensures charged == if a.inserted && a.intent.Some? then [Charged(BooksOf(batch).total)] else []
      ensures effects == old(effects) + charged && orders == old(orders) + placed
    {
      charged, placed := [], [];
      if !a.inserted {
        return Err(Internal), charged, placed;
      }
      var base := |orders|;
      orders, placed := orders + batch, batch;
      if a.intent == None {
        return Err(Internal), charged, placed;
      }
      var cartTotal := 0;
      for i := 0 to |batch|
        invariant cartTotal == BooksOf(batch[..i]).total
      {
        assert batch[..i + 1][..i] == batch[..i];
        cartTotal := cartTotal + batch[i].total;
      }
      assert batch[..|batch|] == batch;
      effects, charged := effects + [Charged(cartTotal)], [Charged(cartTotal)];
      for i := 0 to |batch|
        invariant i <= a.stamps && placed == StampFirst(batch, a.intent.value, i)
        invariant base == |old(orders)| && orders == old(orders) + placed
        invariant effects == old(effects) + charged && charged == [Charged(BooksOf(batch).total)]
      {
        if i == a.stamps {
          return Err(Internal), charged, placed;
        }
        orders := orders[base + i := orders[base + i].(intent := a.intent)];
        placed := placed[i := placed[i].(intent := a.intent)];
      }
      r := Ok(orders[base..]);
    }
  }

  lemma NoLinesOfNew(lines: seq<Line>, s: Seller)
    requires s !in Sellers(lines)
    ensures LinesOf(lines, s) == []
  {
    SellersDistinct(lines);
    NoLinesOf(lines, s);
  }

  lemma GroupStep(lines: seq<Line>, i: nat, done: seq<Line>) returns (done': seq<Line>)
    requires i < |lines| && done == lines[..i]
    ensures done' == lines[..i + 1]
    ensures Sellers(done') == if lines[i].seller in Sellers(done) then Sellers(done) else Sellers(done) + [lines[i].seller]
    ensures forall s :: LinesOf(done', s) == if s == lines[i].seller then LinesOf(done, s) + [lines[i]] else LinesOf(done, s)
  {
    done' := lines[..i + 1];
    assert done'[..i] == done;
  }

  /** Groups the lines by seller, keeping the input order. */
  method GroupBySeller(lines: seq<Line>) returns (ok: bool, groupOrder: seq<Seller>, groups: map<Seller, seq<Line>>)
    ensures ok <==> Quantities(lines)
    ensures ok ==> groupOrder == Sellers(lines)
    ensures ok ==> forall s :: s in groups <==> s in groupOrder
    ensures ok ==> forall s | s in groups :: groups[s] == LinesOf(lines, s)
  {
    groupOrder, groups := [], map[];
    ghost var done: seq<Line> := [];
    for i := 0 to |lines|
      invariant done == lines[..i] && forall k | 0 <= k < i :: lines[k].quantity > 0
      invariant groupOrder == Sellers(done)
      invariant forall s :: s in groups <==> s in groupOrder
      invariant forall s | s in groups :: groups[s] == LinesOf(done, s)
    {
      var line := lines[i];
      if line.quantity <= 0 {
        return false, groupOrder, groups;
      }
      assert forall k | 0 <= k < i + 1 :: lines[k].quantity > 0;
      if line.seller !in groups {
        NoLinesOfNew(done, line.seller);
        groups := groups[line.seller := []];
        groupOrder := groupOrder + [line.seller];
      }
      groups := groups[line.seller := groups[line.seller] + [line]];
      done := GroupStep(lines, i, done);
    }
    assert lines[..|lines|] == lines;
    ok := true;
  }

  /** An order as it is built before discounts. */
  function Undiscounted(seller: Seller, lines: seq<Line>, shippingFee: int, rate: Option<int>): Order {
    var subtotal := Subtotal(lines);
    Order(seller, lines, subtotal, shippingFee, 0, 0, 0, Commission(subtotal, rate), subtotal - Commission(subtotal, rate),
          None, None, None)
  }

  /** The batch before discounts. */
  function BaseBatch(lines: seq<Line>, sellers: seq<Seller>, shippingFee: int, rates: map<Seller, Option<int>>): (os: seq<Order>)
    requires forall s | s in sellers :: s in rates
    ensures |os| == |sellers|
  {
    if sellers == [] then []
    else
      var last := sellers[|sellers| - 1];
      BaseBatch(lines, sellers[..|sellers| - 1], shippingFee, rates) +
      [Undiscounted(last, LinesOf(lines, last), shippingFee, rates[last])]
  }

  lemma {:induction false} BaseAt(lines: seq<Line>, sellers: seq<Seller>, shippingFee: int, rates: map<Seller, Option<int>>, i: nat)
    requires i < |sellers| && forall s | s in sellers :: s in rates
    ensures BaseBatch(lines, sellers, shippingFee, rates)[i] ==
              Undiscounted(sellers[i], LinesOf(lines, sellers[i]), shippingFee, rates[sellers[i]])
  {
    if i < |sellers| - 1 {
      BaseAt(lines, sellers[..|sellers| - 1], shippingFee, rates, i);
    }
  }

  /** The first i + 1 sellers of a list, and what the batch, its subtotals and their sum become. */
  lemma BuildStep(lines: seq<Line>, all: seq<Seller>, i: nat, shippingFee: int, rates: map<Seller, Option<int>>, done: seq<Seller>)
    returns (done': seq<Seller>)
    requires i < |all| && done == all[..i] && (forall s | s in done :: s in rates) && all[i] in rates
    ensures done' == all[..i + 1] && forall s | s in done' :: s in rates
    ensures BaseBatch(lines, done', shippingFee, rates) ==
              BaseBatch(lines, done, shippingFee, rates) + [Undiscounted(all[i], LinesOf(lines, all[i]), shippingFee, rates[all[i]])]
    ensures Subtotals(Groups(lines, done')) == Subtotals(Groups(lines, done)) + [Subtotal(LinesOf(lines, all[i]))]
    ensures Sum(Subtotals(Groups(lines, done'))) == Sum(Subtotals(Groups(lines, done))) + Subtotal(LinesOf(lines, all[i]))
  {
    done' := all[..i + 1];
    assert done'[..i] == done;
    SubtotalsStep(lines, done, all[i], done');
    SumAppend(Subtotals(Groups(lines, done)), Subtotal(LinesOf(lines, all[i])));
  }

  lemma SubtotalsStep(lines: seq<Line>, sellers: seq<Seller>, s: Seller, sellers': seq<Seller>)
    requires sellers' == sellers + [s]
    ensures Subtotals(Groups(lines, sellers')) == Subtotals(Groups(lines, sellers)) + [Subtotal(LinesOf(lines, s))]
  {
    GroupsSnoc(lines, sellers, s);
    var gs := Groups(lines, sellers);
    assert (gs + [LinesOf(lines, s)])[..|gs|] == gs;
  }

  /** One order and payout per group, with its commission on the undiscounted subtotal. */
  method BuildBatch(lines: seq<Line>, groupOrder: seq<Seller>, groups: map<Seller, seq<Line>>, shippingFee: int,
                    rates: map<Seller, Option<int>>)
    returns (ok: bool, batch: seq<Order>, subtotals: seq<int>, rateBps: seq<Option<int>>, cartSubtotal: int)
    requires forall s | s in groupOrder :: s in groups && groups[s] == LinesOf(lines, s)
    ensures ok <==> forall s | s in groupOrder :: s in rates
    ensures ok ==> |rateBps| == |groupOrder| && forall i | 0 <= i < |groupOrder| :: rateBps[i] == rates[groupOrder[i]]
    ensures ok ==> batch == BaseBatch(lines, groupOrder, shippingFee, rates)
    ensures ok ==> subtotals == Subtotals(Groups(lines, groupOrder)) && cartSubtotal == Sum(subtotals)
  {
    batch, subtotals, rateBps, cartSubtotal := [], [], [], 0;
    ghost var done: seq<Seller> := [];
    for i := 0 to |groupOrder|
      invariant done == groupOrder[..i] && KnownRates(done, rates)
      invariant Built(lines, done, shippingFee, rates, batch, subtotals, rateBps, cartSubtotal)
    {
      var seller := groupOrder[i];
      if seller !in rates {
        return false, batch, subtotals, rateBps, cartSubtotal;
      }
      var order, subtotal := BuildOrder(seller, groups[seller], shippingFee, rates[seller]);
      ghost var next := BuiltStep(lines, groupOrder, i, done, shippingFee, rates, batch, subtotals, rateBps, cartSubtotal, order, subtotal);
      batch, subtotals, rateBps := batch + [order], subtotals + [subtotal], rateBps + [rates[seller]];
      cartSubtotal := cartSubtotal + subtotal;
      done := next;
    }
    assert done == groupOrder;
    ok := true;
  }

  predicate KnownRates(sellers: seq<Seller>, rates: map<Seller, Option<int>>) {
    forall s | s in sellers :: s in rates
  }

  /** The accumulators of the build loop after the sellers `done`. */
  ghost predicate Built(lines: seq<Line>, done: seq<Seller>, shippingFee: int, rates: map<Seller, Option<int>>,
                        batch: seq<Order>, subtotals: seq<int>, rateBps: seq<Option<int>>, cartSubtotal: int)
    requires KnownRates(done, rates)
  {
    && batch == BaseBatch(lines, done, shippingFee, rates)
    && subtotals == Subtotals(Groups(lines, done))
    && cartSubtotal == Sum(Subtotals(Groups(lines, done)))
    && |rateBps| == |done| && forall j | 0 <= j < |done| :: rateBps[j] == rates[done[j]]
  }

  lemma BuiltStep(lines: seq<Line>, all: seq<Seller>, i: nat, done: seq<Seller>, shippingFee: int, rates: map<Seller, Option<int>>,
                  batch: seq<Order>, subtotals: seq<int>, rateBps: seq<Option<int>>, cartSubtotal: int,
                  order: Order, subtotal: int)
    returns (next: seq<Seller>)
    requires i < |all| && done == all[..i] && KnownRates(done, rates) && all[i] in rates
    requires Built(lines, done, shippingFee, rates, batch, subtotals, rateBps, cartSubtotal)
    requires order == Undiscounted(all[i], LinesOf(lines, all[i]), shippingFee, rates[all[i]])
    requires subtotal == Subtotal(LinesOf(lines, all[i]))
    ensures next == all[..i + 1] && KnownRates(next, rates)
    ensures Built(lines, next, shippingFee, rates, batch + [order], subtotals + [subtotal], rateBps + [rates[all[i]]],
                  cartSubtotal + subtotal)
  {
    next := BuildStep(lines, all, i, shippingFee, rates, done);
  }

  method BuildOrder(seller: Seller, lines: seq<Line>, shippingFee: int, rate: Option<int>) returns (o: Order, subtotal: int)
    ensures subtotal == Subtotal(lines) && o == Undiscounted(seller, lines, shippingFee, rate)
  {
    subtotal := SumLines(lines);
    var commissionAmount := 0;
    if rate.Some? {
      commissionAmount := Trunc(subtotal * rate.value, 10000);
    }
    o := Order(seller, lines, subtotal, shippingFee, 0, 0, 0, commissionAmount, subtotal - commissionAmount, None, None, None);
  }

  method SumLines(lines: seq<Line>) returns (subtotal: int)
    ensures subtotal == Subtotal(lines)
  {
    subtotal := 0;
    for i := 0 to |lines|
      invariant subtotal == Subtotal(lines[..i])
    {
      assert lines[..i + 1][..i] == lines[..i];
      subtotal := subtotal + lines[i].unitPrice * lines[i].quantity;
    }
    assert lines[..|lines|] == lines;
  }

  /** Distributes both discounts and prices the batch. */
  method ApplyDiscounts(lines: seq<Line>, orders: seq<Order>, subtotals: seq<int>, rateBps: seq<Option<int>>, shippingFee: int,
                        ghost rates: map<Seller, Option<int>>, coupon: Option<CouponHold>, points: Option<PointHold>)
    returns (batch: seq<Order>)
    requires |rateBps| == |Sellers(lines)| && subtotals == CartSubtotals(lines)
    requires forall s | s in Sellers(lines) :: s in rates
    requires forall i | 0 <= i < |rateBps| :: rateBps[i] == rates[Sellers(lines)[i]]
    requires orders == BaseBatch(lines, Sellers(lines), shippingFee, rates)
    ensures batch == Batch(lines, shippingFee, rates, coupon, points)
  {
    ghost var sellers := Sellers(lines);
    forall i | 0 <= i < |sellers|
      ensures orders[i] == Undiscounted(sellers[i], LinesOf(lines, sellers[i]), shippingFee, rateBps[i])
    {
      BaseAt(lines, sellers, shippingFee, rates, i);
    }
    var couponShares := SplitCoupon(coupon, orders, subtotals, sellers);
    var residuals := ResidualsOf(subtotals, couponShares);
    var pointShares := DistributeDiscount(Points(points), residuals[..]);
    batch := PriceAll(orders, rateBps, couponShares[..], pointShares[..], coupon, points);
    BatchFromOrders(lines, shippingFee, rates, coupon, points, orders, rateBps, batch);
  }

  lemma BatchFromOrders(lines: seq<Line>, shippingFee: int, rates: map<Seller, Option<int>>, coupon: Option<CouponHold>,
                        points: Option<PointHold>, before: seq<Order>, rateBps: seq<Option<int>>, batch: seq<Order>)
    requires |before| == |rateBps| == |batch| == |Sellers(lines)| && forall s | s in Sellers(lines) :: s in rates
    requires forall i | 0 <= i < |before| :: rateBps[i] == rates[Sellers(lines)[i]]
    requires forall i | 0 <= i < |before| ::
               before[i] == Undiscounted(Sellers(lines)[i], LinesOf(lines, Sellers(lines)[i]), shippingFee, rateBps[i])
    requires var coupons := CouponShares(coupon, Sellers(lines), CartSubtotals(lines));
             var pointShares := Shares(Points(points), Residuals(CartSubtotals(lines), coupons));
             forall i | 0 <= i < |before| ::
               batch[i] == Priced(before[i].seller, before[i].lines, before[i].shippingFee, rateBps[i], i, coupon, points,
                                  coupons[i], pointShares[i])
    ensures batch == Batch(lines, shippingFee, rates, coupon, points)
  {
  }

  method SplitCoupon(coupon: Option<CouponHold>, batch: seq<Order>, subtotals: seq<int>, ghost expected: seq<Seller>)
    returns (shares: array<int>)
    requires |batch| == |subtotals| == |expected| && forall i | 0 <= i < |batch| :: batch[i].seller == expected[i]
    ensures fresh(shares) && shares[..] == CouponShares(coupon, expected, subtotals)
  {
    if SellerFunded(coupon) {
      var sellers: seq<Seller> := [];
      for i := 0 to |batch|
        invariant sellers == expected[..i]
      {
        sellers := sellers + [batch[i].seller];
      }
      assert sellers == expected;
      shares := DistributeSellerDiscount(coupon.value.discount, sellers, subtotals, coupon.value.seller.value);
    } else {
      shares := DistributeDiscount(CouponAmount(coupon), subtotals);
    }
  }

  method ResidualsOf(subtotals: seq<int>, couponShares: array<int>) returns (residuals: array<int>)
    requires couponShares.Length == |subtotals|
    ensures fresh(residuals) && residuals[..] == Residuals(subtotals, couponShares[..])
  {
    residuals := new int[|subtotals|](i => 0);
    for i := 0 to |subtotals|
      invariant forall j | 0 <= j < i :: residuals[j] == Pos(subtotals[j] - couponShares[j])
      invariant couponShares[..] == old(couponShares[..])
    {
      residuals[i] := subtotals[i] - couponShares[i];
      if residuals[i] < 0 {
        residuals[i] := 0;
      }
    }
  }

  method PriceAll(orders: seq<Order>, rateBps: seq<Option<int>>, couponShares: seq<int>, pointShares: seq<int>,
                  coupon: Option<CouponHold>, points: Option<PointHold>)
    returns (batch: seq<Order>)
    requires |orders| == |rateBps| == |couponShares| == |pointShares|
    requires forall i | 0 <= i < |orders| ::
               orders[i] == Undiscounted(orders[i].seller, orders[i].lines, orders[i].shippingFee, rateBps[i])
    ensures |batch| == |orders|
    ensures forall i | 0 <= i < |orders| ::
              batch[i] == Priced(orders[i].seller, orders[i].lines, orders[i].shippingFee, rateBps[i], i, coupon, points,
                                 couponShares[i], pointShares[i])
  {
    batch := orders;
    for i := 0 to |orders|
      invariant |batch| == |orders|
      invariant forall j | 0 <= j < i ::
                  batch[j] == Priced(orders[j].seller, orders[j].lines, orders[j].shippingFee, rateBps[j], j, coupon, points,
                                     couponShares[j], pointShares[j])
      invariant forall j | i <= j < |orders| :: batch[j] == orders[j]
    {
      var order := PriceOrder(batch[i], i, rateBps[i], couponShares[i], pointShares[i], coupon, points);
      batch := batch[i := order];
    }
  }

  /** Order i takes its shares; a seller-funded coupon also shrinks its commission and payout. */
  method PriceOrder(before: Order, i: nat, rate: Option<int>, couponShare: int, pointShare: int,
                    coupon: Option<CouponHold>, points: Option<PointHold>)
    returns (o: Order)
    requires before == Undiscounted(before.seller, before.lines, before.shippingFee, rate)
    ensures o == Priced(before.seller, before.lines, before.shippingFee, rate, i, coupon, points, couponShare, pointShare)
  {
    o := before;
    var orderTotal := o.subtotal + o.shippingFee - couponShare - pointShare;
    if orderTotal < 0 {
      orderTotal := 0;
    }
    o := o.(couponShare := couponShare, pointShare := pointShare, total := orderTotal);
    if SellerFunded(coupon) && couponShare > 0 {
      var effectiveSubtotal := o.subtotal - couponShare;
      if effectiveSubtotal < 0 {
        effectiveSubtotal := 0;
      }
      var newCommission := if rate.Some? then Trunc(effectiveSubtotal * rate.value, 10000) else 0;
      o := o.(commission := newCommission, payout := effectiveSubtotal - newCommission);
    }
    if coupon.Some? && couponShare > 0 {
      o := o.(couponRef := coupon);
    }
    if points.Some? && i == 0 {
      o := o.(pointRef := Some(points.value.reservation));
    }
  }
}
