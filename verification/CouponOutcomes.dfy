/** What every operation of the coupon service answers, when it succeeds, and exactly what it writes. */
module CouponOutcomes {
  import opened Common
  import opened CouponSpec
  import opened CouponProofs
  import opened CouponTheorems
  import Discount

  // ----- How much a coupon is worth -----

  /** n yen off this subtotal are within the deal. */
  predicate Affords(c: Coupon, subtotal: int, n: nat) {
    n <= subtotal &&
    match c.deal
    case Fixed(Some(amount)) => n <= amount
    case Percent(Some(bps)) => n * 10000 <= subtotal * bps && (c.maxDiscount.Some? ==> n <= c.maxDiscount.value)
    case _ => false
  }

  /** The discount is the largest whole amount that the deal affords, none for a deal without terms. */
  lemma DiscountMeaning(c: Coupon, subtotal: int, n: nat)
    requires n >= 1
    ensures n <= c.ComputeDiscount(subtotal) <==> Affords(c, subtotal, n)
  {
    if subtotal > 0 && c.deal.Percent? && c.deal.bps.Some? {
      PercentFloor(subtotal, c.deal.bps.value, n);
    }
  }

  lemma PercentFloor(subtotal: nat, bps: int, n: nat)
    requires n >= 1
    ensures n <= Discount.Trunc(subtotal * bps, 10000) <==> n * 10000 <= subtotal * bps
  {
    FloorAtLeast(subtotal * bps, n);
  }

  lemma FloorAtLeast(x: int, n: nat)
    requires n >= 1
    ensures n <= Discount.Trunc(x, 10000) <==> n * 10000 <= x
  {
  }

  /** A fixed amount is given whole, as far as the subtotal goes. */
  lemma FixedDiscount(c: Coupon, amount: nat, subtotal: nat)
    requires c.deal == Fixed(Some(amount))
    ensures c.ComputeDiscount(subtotal) == if amount <= subtotal then amount else subtotal
  {
  }

  /** The reservation's amount is the largest one the deal affords. */
  ghost predicate Grants(c: Coupon, subtotal: int, amount: int) {
    amount >= 1 && forall n: nat | n >= 1 :: n <= amount <==> Affords(c, subtotal, n)
  }

  // ----- Which coupon a code stands for -----

  predicate UniqueCodes(coupons: seq<Coupon>) {
    forall i, j | 0 <= i < j < |coupons| :: !(coupons[i].issuer == coupons[j].issuer && coupons[i].code == coupons[j].code)
  }

  predicate Issued(coupons: seq<Coupon>, issuer: Option<Seller>, code: nat) {
    exists i :: 0 <= i < |coupons| && coupons[i].issuer == issuer && coupons[i].code == code
  }

  /** The first seller of the cart who issued the code stands at position i. */
  predicate FirstIssuer(coupons: seq<Coupon>, subtotals: seq<SellerSubtotal>, code: nat, i: nat) {
    && i < |subtotals| && Issued(coupons, Some(subtotals[i].seller), code)
    && forall j | 0 <= j < i :: !Issued(coupons, Some(subtotals[j].seller), code)
  }

  /** The code stands for coupon `id`: the platform's, else that of the first seller of the cart who
      issued it. `subtotal` is what it applies to. */
  ghost predicate Chosen(s: Store, q: Request, id: nat, subtotal: int) {
    && id < |s.coupons| && s.coupons[id].code == q.code
    && match s.coupons[id].issuer
       case None => subtotal == SumOf(q.subtotals)
       case Some(seller) =>
         && !Issued(s.coupons, None, q.code)
         && exists i: nat :: FirstIssuer(s.coupons, q.subtotals, q.code, i) && q.subtotals[i].seller == seller && subtotal == q.subtotals[i].subtotal
  }

  function SumOf(subtotals: seq<SellerSubtotal>): int {
    Sum(seq(|subtotals|, i requires 0 <= i < |subtotals| => subtotals[i].subtotal))
  }

  lemma {:induction false} CartTotalIsSum(subtotals: seq<SellerSubtotal>)
    ensures CartTotal(subtotals) == SumOf(subtotals)
  {
    if subtotals != [] {
      var n := |subtotals| - 1;
      CartTotalIsSum(subtotals[..n]);
      var all := seq(|subtotals|, i requires 0 <= i < |subtotals| => subtotals[i].subtotal);
      assert all[..n] == seq(n, i requires 0 <= i < n => subtotals[..n][i].subtotal);
    }
  }

  lemma IssuedFound(coupons: seq<Coupon>, issuer: Option<Seller>, code: nat)
    ensures Issued(coupons, issuer, code) <==> FindCode(coupons, issuer, code).Some?
  {
  }

  lemma {:induction false} SellerFound(coupons: seq<Coupon>, subtotals: seq<SellerSubtotal>, code: nat) returns (i: nat)
    ensures FindSellerCode(coupons, subtotals, code) == None ==> forall j | 0 <= j < |subtotals| :: !Issued(coupons, Some(subtotals[j].seller), code)
    ensures FindSellerCode(coupons, subtotals, code).Some? ==>
              && FirstIssuer(coupons, subtotals, code, i)
              && FindSellerCode(coupons, subtotals, code).value.1 == subtotals[i].seller
              && Some(FindSellerCode(coupons, subtotals, code).value.0) == FindCode(coupons, Some(subtotals[i].seller), code)
              && SubtotalOf(subtotals, subtotals[i].seller) == subtotals[i].subtotal
  {
    i := 0;
    if subtotals != [] {
      IssuedFound(coupons, Some(subtotals[0].seller), code);
      if !Issued(coupons, Some(subtotals[0].seller), code) {
        var j := SellerFound(coupons, subtotals[1..], code);
        i := j + 1;
        assert forall k | 1 <= k < |subtotals| :: subtotals[1..][k - 1] == subtotals[k];
      }
    }
  }

  // ----- Reserving -----

  function Uses(rs: seq<Redemption>, buyer: Buyer, coupon: nat): set<nat> {
    set k | 0 <= k < |rs| && rs[k].buyer == buyer && rs[k].coupon == coupon
  }

  lemma {:induction false} UsesCounted(rs: seq<Redemption>, buyer: Buyer, coupon: nat)
    ensures UsesBy(rs, buyer, coupon) == |Uses(rs, buyer, coupon)|
  {
    if rs != [] {
      var n := |rs| - 1;
      UsesCounted(rs[..n], buyer, coupon);
      assert Uses(rs, buyer, coupon) - {n} == Uses(rs[..n], buyer, coupon);
      if rs[n].buyer == buyer && rs[n].coupon == coupon {
        assert Uses(rs, buyer, coupon) == Uses(rs[..n], buyer, coupon) + {n};
      } else {
        assert Uses(rs, buyer, coupon) == Uses(rs[..n], buyer, coupon);
      }
    }
  }

  /** Why this coupon cannot be reserved, if it cannot. */
  function Refusal(s: Store, q: Request, now: Time, c: Coupon, id: nat, subtotal: int): Option<Error> {
    if c.revoked then Some(CouponRevoked)
    else if c.expiresAt.Some? && c.expiresAt.value < now then Some(CouponExpired)
    else if c.validFrom.Some? && now < c.validFrom.value then Some(CouponNotStarted)
    else if c.currency != q.currency then Some(CurrencyMismatch)
    else if subtotal < c.minOrder then Some(MinOrderNotMet)
    else if c.perUser.Some? && c.perUser.value <= |Uses(s.redemptions, q.buyer, id)| then Some(PerUserLimit)
    else if !Affords(c, subtotal, 1) then Some(InvalidCouponInput)
    else if c.limit.Some? && c.limit.value <= c.usage then Some(UsageLimitHit)
    else None
  }

  /** The reservation that is made, and nothing else but one more use of the coupon. */
  ghost predicate Reserves(s: Store, s': Store, q: Request, id: nat, subtotal: int, until: Time, v: Reservation)
    requires id < |s.coupons|
  {
    && v == Reservation(|s.reservations|, id, q.buyer, v.amount, s.coupons[id].issuer, Pending, until)
    && Grants(s.coupons[id], subtotal, v.amount)
    && s' == s.(reservations := s.reservations + [v], coupons := s.coupons[id := s.coupons[id].(usage := s.coupons[id].usage + 1)])
  }

  /** The coupon a code stands for is reserved unless there is a reason against it, for the largest
      discount that its deal affords. */
  lemma ReserveOutcome(s: Store, q: Request, now: Time, ttl: int, id: nat, subtotal: int)
    requires UniqueCodes(s.coupons) && Chosen(s, q, id, subtotal)
    ensures var (s', reply) := Reserve(s, q, now, ttl);
            match Refusal(s, q, now, s.coupons[id], id, subtotal)
            case Some(e) => s' == s && reply == Err(e)
            case None => reply.Ok? && Reserves(s, s', q, id, subtotal, now + ttl, reply.value)
  {
    var found, seller := Resolution(s, q, id, subtotal);
    ReserveChosen(s, q, now, ttl, id, subtotal);
  }

  /** A code is not found exactly when it stands for no coupon. */
  lemma NotFoundIff(s: Store, q: Request, now: Time, ttl: int)
    requires UniqueCodes(s.coupons)
    ensures Reserve(s, q, now, ttl).1 == Err(CouponNotFound) <==> !exists id: nat, subtotal :: Chosen(s, q, id, subtotal)
    ensures Reserve(s, q, now, ttl).1 == Err(CouponNotFound) ==> Reserve(s, q, now, ttl).0 == s
  {
    if id: nat, subtotal :| Chosen(s, q, id, subtotal) {
      ReserveOutcome(s, q, now, ttl, id, subtotal);
    }
    if FindCode(s.coupons, None, q.code).Some? || FindSellerCode(s.coupons, q.subtotals, q.code).Some? {
      var id, subtotal := FoundIsChosen(s, q);
    }
  }

  lemma FoundIsChosen(s: Store, q: Request) returns (id: nat, subtotal: int)
    requires FindCode(s.coupons, None, q.code).Some? || FindSellerCode(s.coupons, q.subtotals, q.code).Some?
    ensures Chosen(s, q, id, subtotal)
  {
    var i := SellerFound(s.coupons, q.subtotals, q.code);
    IssuedFound(s.coupons, None, q.code);
    if FindCode(s.coupons, None, q.code).Some? {
      id, subtotal := FindCode(s.coupons, None, q.code).value, SumOf(q.subtotals);
    } else {
      id, subtotal := FindSellerCode(s.coupons, q.subtotals, q.code).value.0, q.subtotals[i].subtotal;
    }
  }

  /** What the lookup finds is the chosen coupon. */
  lemma Resolution(s: Store, q: Request, id: nat, subtotal: int) returns (found: nat, seller: Option<Seller>)
    requires UniqueCodes(s.coupons) && Chosen(s, q, id, subtotal)
    ensures found == id && seller == s.coupons[id].issuer
    ensures match seller
            case None => FindCode(s.coupons, None, q.code) == Some(id) && CartTotal(q.subtotals) == subtotal
            case Some(v) =>
              && FindCode(s.coupons, None, q.code) == None && FindSellerCode(s.coupons, q.subtotals, q.code) == Some((id, v))
              && SubtotalOf(q.subtotals, v) == subtotal
  {
    found, seller := id, s.coupons[id].issuer;
    IssuedFound(s.coupons, None, q.code);
    IssuedFound(s.coupons, seller, q.code);
    CartTotalIsSum(q.subtotals);
    if seller.Some? {
      var i := SellerFound(s.coupons, q.subtotals, q.code);
      var j: nat :| FirstIssuer(s.coupons, q.subtotals, q.code, j) && q.subtotals[j].seller == seller.value && subtotal == q.subtotals[j].subtotal;
      assert i == j;
    }
  }

  lemma ReserveChosen(s: Store, q: Request, now: Time, ttl: int, id: nat, subtotal: int)
    requires id < |s.coupons|
    requires match s.coupons[id].issuer
             case None => FindCode(s.coupons, None, q.code) == Some(id) && CartTotal(q.subtotals) == subtotal
             case Some(v) =>
               && FindCode(s.coupons, None, q.code) == None && FindSellerCode(s.coupons, q.subtotals, q.code) == Some((id, v))
               && SubtotalOf(q.subtotals, v) == subtotal
    ensures var (s', reply) := Reserve(s, q, now, ttl);
            match Refusal(s, q, now, s.coupons[id], id, subtotal)
            case Some(e) => s' == s && reply == Err(e)
            case None => reply.Ok? && Reserves(s, s', q, id, subtotal, now + ttl, reply.value)
  {
    var c := s.coupons[id];
    UsesCounted(s.redemptions, q.buyer, id);
    DiscountMeaning(c, subtotal, 1);
    forall n: nat | n >= 1
      ensures n <= c.ComputeDiscount(subtotal) <==> Affords(c, subtotal, n)
    {
      DiscountMeaning(c, subtotal, n);
    }
  }

  /** No two coupons of one issuer share a code, in every reachable state. */
  lemma StepKeepsCodes(y: System, op: Op)
    requires SystemOk(y) && UniqueCodes(y.store.coupons)
    ensures UniqueCodes(Step(y, op).store.coupons)
  {
    SameCodes(y, op);
  }

  /** An operation adds a coupon with a new code or leaves all codes as they are. */
  lemma SameCodes(y: System, op: Op)
    requires SystemOk(y)
    ensures var cs, cs' := y.store.coupons, Step(y, op).store.coupons;
            && |cs| <= |cs'| && (forall i | 0 <= i < |cs| :: cs'[i].issuer == cs[i].issuer && cs'[i].code == cs[i].code)
            && (cs' != cs && op.OpCreate? ==> cs' == cs + [op.coupon] && FindCode(cs, op.coupon.issuer, op.coupon.code) == None)
            && (!op.OpCreate? ==> |cs'| == |cs|)
  {
    if op.OpExpire? && Claimable(y.store.reservations, op.ids, op.now, BATCH_SIZE) {
      assert forall c | 0 <= c < |y.store.coupons| :: y.store.coupons[c].usage >= 0;
      ExpireOnlyFrees(y.store, op.ids);
    }
  }

  lemma {:induction false} CodesUnique(ops: seq<Op>)
    ensures UniqueCodes(Run(START, ops).store.coupons)
  {
    if ops != [] {
      CodesUnique(ops[..|ops| - 1]);
      RunKeeps(START, ops[..|ops| - 1]);
      StepKeepsCodes(Run(START, ops[..|ops| - 1]), ops[|ops| - 1]);
    }
  }

  // ----- Committing, releasing, refunding, reaping -----

  /** A commit makes the redemption of a pending reservation for an order that has none of this
      coupon, and nothing else; for an order that has one it answers that one, unless it looked too
      early, and changes nothing. */
  lemma CommitOutcome(s: Store, seen: Reservation, order: nat, early: bool)
    requires Inv(s) && SeenOk(s.reservations, seen)
    ensures var (s', reply) := Commit(s, seen, order, early);
            var v, n := s.reservations[seen.id], |s.redemptions|;
            if exists k :: 0 <= k < n && s.redemptions[k].coupon == v.coupon && s.redemptions[k].order == order then
              && s' == s && (reply.Ok? <==> !early)
              && (early ==> reply == Err(if v.status == Pending then Internal else AlreadyTerminal))
              && (reply.Ok? ==> reply.value.alreadyCommitted && reply.value.redemption < n
                                && s.redemptions[reply.value.redemption].coupon == v.coupon && s.redemptions[reply.value.redemption].order == order)
            else if v.status != Pending then s' == s && reply == Err(AlreadyTerminal)
            else
              && reply == Ok(CommitReply(n, false))
              && s' == s.(reservations := s.reservations[seen.id := v.(status := Committed)],
                          redemptions := s.redemptions + [Redemption(n, v.coupon, v.buyer, order, v.amount, 0, seen.id, false)])
  {
  }

  /** A release succeeds exactly on a reservation that is still pending, and gives its use back. */
  lemma ReleaseOutcome(s: Store, seen: Reservation)
    requires Inv(s) && SeenOk(s.reservations, seen)
    ensures var (s', reply) := Release(s, seen);
            var v := s.reservations[seen.id];
            && v.coupon < |s.coupons| && reply == Ok(v.status == Pending)
            && s' == if v.status == Pending then
                       s.(reservations := s.reservations[seen.id := v.(status := Released)], coupons := OneFewer(s.coupons, v.coupon))
                     else s
  {
    if s.reservations[seen.id].status == Pending {
      FreeKeepsInv(s, seen.id, Released);
    }
  }

  /** A share is skipped without a redemption, refused when negative or recorded already, and else
      credited up to what is left of the discount; the credit that fills it gives the use back. */
  lemma RefundOutcome(s: Store, reservation: nat, order: nat, share: int, k: nat)
    requires Inv(s) && k < |s.redemptions| && s.redemptions[k].reservation == reservation
    ensures var (s', reply) := Refund(s, reservation, order, share);
            var r := s.redemptions[k];
            var credit := if share < r.applied - r.refunded then share else r.applied - r.refunded;
            if share < 0 then s' == s && reply == Err(BadRequest)
            else if share == 0 then s' == s && reply == Ok(RefundReply(Some(k), false, false, 0, false))
            else if Recorded(s.events, k, order) then s' == s && reply == Err(Internal)
            else
              && reply == Ok(RefundReply(Some(k), false, r.refunded == r.applied, credit, credit > 0 && r.refunded + credit == r.applied))
              && r.coupon < |s.coupons|
              && s' == s.(events := s.events + [RefundEvent(k, order, share)],
                          redemptions := s.redemptions[k := r.(refunded := r.refunded + credit, full := r.refunded + credit == r.applied)],
                          coupons := if credit > 0 && r.refunded + credit == r.applied then OneFewer(s.coupons, r.coupon) else s.coupons)
  {
    assert RedemptionOk(s, k);
    TheRedemption(s, reservation, k);
    if share > 0 && !Recorded(s.events, k, order) {
      CreditKeepsInv(s, k, order, share);
    }
  }

  lemma TheRedemption(s: Store, reservation: nat, k: nat)
    requires RedemptionsOk(s) && k < |s.redemptions| && s.redemptions[k].reservation == reservation
    ensures RedemptionOf(s.redemptions, reservation) == Some(k)
  {
  }

  lemma NothingToRefund(s: Store, reservation: nat, order: nat, share: int)
    requires forall k | 0 <= k < |s.redemptions| :: s.redemptions[k].reservation != reservation
    ensures Refund(s, reservation, order, share) ==
              (s, if share < 0 then Err(BadRequest) else Ok(RefundReply(None, true, false, 0, false)))
  {
  }

  /** Reaping flips exactly the claimed reservations, at most 200 of them, all past their lifetime. */
  lemma ReapOutcome(s: Store, ids: seq<nat>, now: Time)
    requires Inv(s) && Claimable(s.reservations, ids, now, BATCH_SIZE)
    ensures var s' := ExpireAll(s, ids);
            && |ids| <= 200 && (forall k | 0 <= k < |ids| :: s.reservations[ids[k]].expiresAt < now)
            && s'.redemptions == s.redemptions && s'.events == s.events && |s'.reservations| == |s.reservations|
            && forall i | 0 <= i < |s.reservations| ::
                 s'.reservations[i] == if i in ids then s.reservations[i].(status := Expired) else s.reservations[i]
  {
    ExpireKeepsInv(s, ids, now);
    ExpireFrame(s, ids);
  }

  /** Any choice of at most 200 distinct pending reservations past their lifetime can be reaped. */
  lemma MayReap(rs: seq<Reservation>, ids: seq<nat>, now: Time)
    requires |ids| <= 200 && (forall j, k | 0 <= j < k < |ids| :: ids[j] != ids[k])
    requires forall k | 0 <= k < |ids| :: ids[k] < |rs| && rs[ids[k]].status == Pending && rs[ids[k]].expiresAt < now
    ensures Claimable(rs, ids, now, BATCH_SIZE)
  {
  }

  // ----- Managing coupons -----

  /** A coupon is created exactly with sensible terms, unused and under a new code. */
  lemma CreateOutcome(y: System, c: Coupon)
    ensures var cs, cs' := y.store.coupons, Step(y, OpCreate(c)).store.coupons;
            && (cs' == cs + [c] || cs' == cs)
            && (cs' == cs + [c] <==>
                  && (match c.deal
                      case Fixed(Some(amount)) => amount > 0
                      case Percent(Some(bps)) => 0 < bps <= 10000
                      case _ => false)
                  && c.minOrder >= 0 && (c.limit.Some? ==> c.limit.value > 0) && (c.perUser.Some? ==> c.perUser.value > 0)
                  && c.usage == 0 && !Issued(cs, c.issuer, c.code))
  {
    IssuedFound(y.store.coupons, c.issuer, c.code);
  }

  /** An update replaces exactly the editable terms of an existing coupon, a revocation only the
      revoked flag. */
  lemma EditOutcome(y: System, id: nat, p: Patch)
    requires id < |y.store.coupons|
    ensures var c := y.store.coupons[id];
            && Step(y, OpRevoke(id)).store == y.store.(coupons := y.store.coupons[id := c.(revoked := true)])
            && Step(y, OpUpdate(id, p)).store ==
                 if p.minOrder < 0 || (p.maxDiscount.Some? && p.maxDiscount.value < 0) || (p.limit.Some? && p.limit.value <= 0)
                    || (p.perUser.Some? && p.perUser.value <= 0) then y.store
                 else y.store.(coupons := y.store.coupons[id :=
                        Coupon(c.code, c.issuer, c.deal, c.currency, p.minOrder, if c.deal.Fixed? then None else p.maxDiscount,
                               c.validFrom, p.expiresAt, p.limit, p.perUser, c.usage, c.revoked)])
  {
  }
}
