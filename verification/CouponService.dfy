/** The coupon service over its four tables, step by step as it writes them. Every method is
    proved equal to the operation of CouponSpec. */
module CouponServices {
  import opened Common
  import opened CouponSpec
  import opened CouponProofs

  class CouponService {
    var coupons: seq<Coupon>
    var reservations: seq<Reservation>
    var redemptions: seq<Redemption>
    var events: seq<RefundEvent>
    const reservationTTL: int

    constructor (reservationTTL: int)
      ensures Db() == EMPTY && Inv(Db())
    {
      coupons, reservations, redemptions, events := [], [], [], [];
      this.reservationTTL := reservationTTL;
    }

    function Db(): Store
      reads this
    {
      Store(coupons, reservations, redemptions, events)
    }

    // ----- Stores -----

    /** Bumps the use count if it is still below the total limit. */
    method IncrementUsageIfBelowLimit(id: nat) returns (ok: bool)
      requires id < |coupons|
      modifies `coupons
      ensures ok == HasSeat(old(coupons)[id])
      ensures coupons == if ok then AddUse(old(coupons), id) else old(coupons)
    {
      var c := coupons[id];
      ok := c.limit == None || c.usage < c.limit.value;
      if ok {
        coupons := coupons[id := c.(usage := c.usage + 1)];
      }
    }

    method DecrementUsage(id: nat)
      modifies `coupons
      ensures coupons == FreeSeat(old(coupons), id)
    {
      if id < |coupons| {
        var usage := coupons[id].usage - 1;
        if usage < 0 {
          usage := 0;
        }
        coupons := coupons[id := coupons[id].(usage := usage)];
      }
    }

    /** Compare-and-set on a reservation's status. */
    method UpdateStatus(id: nat, from: Status, to: Status) returns (ok: bool)
      requires id < |reservations|
      modifies `reservations
      ensures ok == (old(reservations)[id].status == from)
      ensures reservations == if ok then SetStatus(old(reservations), id, to) else old(reservations)
    {
      ok := reservations[id].status == from;
      if ok {
        reservations := reservations[id := reservations[id].(status := to)];
      }
    }

    /** Unique in coupon and order. */
    method InsertRedemption(row: Redemption) returns (ok: bool)
      modifies `redemptions
      ensures ok == (RedemptionFor(old(redemptions), row.coupon, row.order) == None)
      ensures redemptions == if ok then old(redemptions) + [row] else old(redemptions)
    {
      ok := RedemptionFor(redemptions, row.coupon, row.order) == None;
      if ok {
        redemptions := redemptions + [row];
      }
    }

    /** Unique in redemption and cancelled order. */
    method InsertRefundEvent(redemption: nat, order: nat, share: int) returns (ok: bool)
      modifies `events
      ensures ok == !Recorded(old(events), redemption, order)
      ensures events == if ok then old(events) + [RefundEvent(redemption, order, share)] else old(events)
    {
      ok := true;
      for i := 0 to |events|
        invariant ok == forall j | 0 <= j < i :: !(events[j].redemption == redemption && events[j].order == order)
        invariant events == old(events)
      {
        if events[i].redemption == redemption && events[i].order == order {
          ok := false;
        }
      }
      if ok {
        events := events + [RefundEvent(redemption, order, share)];
      }
    }

    /** One capped, stamped update of the accumulator. */
    method ApplyPartialRefund(k: nat, share: int) returns (applied: int, fully: bool, alreadyFull: bool)
      requires k < |redemptions|
      modifies `redemptions
      ensures var r := old(redemptions)[k];
              if share <= 0 then redemptions == old(redemptions) && applied == 0 && !fully && !alreadyFull
              else
                && redemptions == old(redemptions)[k := Credit(r, share)]
                && applied == Credit(r, share).refunded - r.refunded
                && fully == (Credit(r, share).full && !r.full) && alreadyFull == r.full
    {
      if share <= 0 {
        return 0, false, false;
      }
      var r := redemptions[k];
      if r.full {
        return 0, false, true;
      }
      var refunded := Min(r.refunded + share, r.applied);
      var full := refunded >= r.applied;
      redemptions := redemptions[k := r.(refunded := refunded, full := full)];
      return refunded - r.refunded, full, false;
    }

    // ----- Operations -----

    /** The code across its possible issuers, then the validity gate. */
    method ResolveCoupon(q: Request, now: Time) returns (r: Result<Resolved>)
      ensures r == Resolve(Db(), q, now)
    {
      var found := FindCode(coupons, None, q.code);
      var applicableSeller: Option<Seller> := None;
      if found == None {
        var i := 0;
        while i < |q.subtotals| && found == None
          invariant 0 <= i <= |q.subtotals|
          invariant found == None ==> applicableSeller == None
          invariant found == None ==> FindSellerCode(coupons, q.subtotals, q.code) == FindSellerCode(coupons, q.subtotals[i..], q.code)
          invariant found.Some? ==> found.value < |coupons| && applicableSeller.Some?
          invariant found.Some? ==> FindSellerCode(coupons, q.subtotals, q.code) == Some((found.value, applicableSeller.value))
        {
          var seller := q.subtotals[i].seller;
          found := FindCode(coupons, Some(seller), q.code);
          if found.Some? {
            applicableSeller := Some(seller);
          }
          i := i + 1;
        }
      }
      if found == None {
        return Err(CouponNotFound);
      }
      var c := coupons[found.value];
      if c.revoked {
        return Err(CouponRevoked);
      }
      if !c.IsWithinValidity(now) {
        return Err(if c.expiresAt.Some? && now > c.expiresAt.value then CouponExpired else CouponNotStarted);
      }
      if c.currency != q.currency {
        return Err(CurrencyMismatch);
      }
      var subtotal := ApplicableSubtotal(q.subtotals, applicableSeller);
      if subtotal < c.minOrder {
        return Err(MinOrderNotMet);
      }
      if c.perUser.Some? && UsesBy(redemptions, q.buyer, found.value) >= c.perUser.value {
        return Err(PerUserLimit);
      }
      r := Ok(Resolved(found.value, applicableSeller, subtotal));
    }

    static method ApplicableSubtotal(subtotals: seq<SellerSubtotal>, seller: Option<Seller>) returns (subtotal: int)
      ensures subtotal == if seller.Some? then SubtotalOf(subtotals, seller.value) else CartTotal(subtotals)
    {
      subtotal := 0;
      if seller.Some? {
        for i := 0 to |subtotals|
          invariant SubtotalOf(subtotals, seller.value) == SubtotalOf(subtotals[i..], seller.value)
        {
          if subtotals[i].seller == seller.value {
            return subtotals[i].subtotal;
          }
          assert subtotals[i..][1..] == subtotals[i + 1..];
        }
        assert subtotals[|subtotals|..] == [];
      } else {
        for i := 0 to |subtotals|
          invariant subtotal == CartTotal(subtotals[..i])
        {
          assert subtotals[..i + 1][..i] == subtotals[..i];
          subtotal := subtotal + subtotals[i].subtotal;
        }
        assert subtotals[..|subtotals|] == subtotals;
      }
    }

    method ReserveCoupon(q: Request, now: Time) returns (r: Result<Reservation>)
      requires Inv(Db())
      modifies this
      ensures (Db(), r) == Reserve(old(Db()), q, now, reservationTTL)
      ensures Inv(Db())
    {
      ReserveKeepsInv(Db(), q, now, reservationTTL);
      var resolved := ResolveCoupon(q, now);
      if resolved.Err? {
        return Err(resolved.error);
      }
      var id := resolved.value.coupon;
      var discount := coupons[id].ComputeDiscount(resolved.value.subtotal);
      if discount <= 0 {
        return Err(InvalidCouponInput);
      }
      var ok := IncrementUsageIfBelowLimit(id);
      if !ok {
        return Err(UsageLimitHit);
      }
      var v := Reservation(|reservations|, id, q.buyer, discount, resolved.value.seller, Pending, now + reservationTTL);
      reservations := reservations + [v];
      r := Ok(v);
    }

    /** A failed transaction leaves the tables as they were. */
    method Rollback(before: Store)
      modifies this
      ensures Db() == before
    {
      coupons, reservations, redemptions, events := before.coupons, before.reservations, before.redemptions, before.events;
    }

    /** `seen` is the reservation as loaded; `early` says the redemption lookup ran before a
        concurrent commit to the same order became visible. */
    method CommitReservation(seen: Reservation, order: nat, early: bool) returns (r: Result<CommitReply>)
      requires Inv(Db()) && SeenOk(reservations, seen)
      modifies this
      ensures (Db(), r) == Commit(old(Db()), seen, order, early)
      ensures Inv(Db())
    {
      var before := Db();
      CommitKeepsInv(before, seen, order, early);
      var existing := if early then None else RedemptionFor(redemptions, seen.coupon, order);
      if existing.Some? {
        return Ok(CommitReply(existing.value, true));
      }
      if seen.status != Pending {
        return Err(AlreadyTerminal);
      }
      var ok := UpdateStatus(seen.id, Pending, Committed);
      if !ok {
        return Err(AlreadyTerminal);
      }
      var row := Redemption(|redemptions|, seen.coupon, seen.buyer, order, seen.amount, 0, seen.id, false);
      var inserted := InsertRedemption(row);
      if !inserted {
        // The aborted transaction answers neither the lookup of the winner nor the commit.
        Rollback(before);
        return Err(Internal);
      }
      r := Ok(CommitReply(row.id, false));
    }

    method ReleaseReservation(seen: Reservation) returns (r: Result<bool>)
      requires Inv(Db()) && SeenOk(reservations, seen)
      modifies this
      ensures (Db(), r) == Release(old(Db()), seen)
      ensures Inv(Db())
    {
      ReleaseKeepsInv(Db(), seen);
      if seen.status != Pending {
        return Ok(false);
      }
      var ok := UpdateStatus(seen.id, Pending, Released);
      if !ok {
        return Ok(false);
      }
      DecrementUsage(seen.coupon);
      r := Ok(true);
    }

    method RefundRedemption(reservation: nat, order: nat, share: int) returns (r: Result<RefundReply>)
      requires Inv(Db())
      modifies this
      ensures (Db(), r) == Refund(old(Db()), reservation, order, share)
      ensures Inv(Db())
    {
      RefundKeepsInv(Db(), reservation, order, share);
      if share < 0 {
        return Err(BadRequest);
      }
      var found := RedemptionOf(redemptions, reservation);
      if found == None {
        return Ok(RefundReply(None, true, false, 0, false));
      }
      var k := found.value;
      if share == 0 {
        return Ok(RefundReply(found, false, false, 0, false));
      }
      var inserted := InsertRefundEvent(k, order, share);
      if !inserted {
        return Err(Internal);
      }
      var coupon := redemptions[k].coupon;
      ghost var row := redemptions[k];
      var applied, fully, alreadyFull := ApplyPartialRefund(k, share);
      if alreadyFull {
        assert redemptions == old(redemptions)[k := row];
        return Ok(RefundReply(found, false, true, 0, false));
      }
      if fully {
        DecrementUsage(coupon);
      }
      r := Ok(RefundReply(found, false, false, applied, fully));
    }

    /** Flips the picked rows, which the claim query chose among the stale pending ones. */
    method ClaimExpired(picked: seq<nat>, now: Time)
      requires Claimable(reservations, picked, now, BATCH_SIZE)
      modifies `reservations
      ensures reservations == ExpireAll(old(Db()), picked).reservations
    {
      ghost var before := Db();
      for k := 0 to |picked|
        invariant |reservations| == |before.reservations|
        invariant reservations == ExpireAll(before, picked[..k]).reservations
      {
        assert picked[..k + 1][..k] == picked[..k];
        reservations := reservations[picked[k] := reservations[picked[k]].(status := Expired)];
      }
      assert picked[..|picked|] == picked;
    }

    /** The reaper's batch: statuses first, then one decrement per claimed row. */
    method ExpireStaleReservations(picked: seq<nat>, now: Time) returns (affected: nat)
      requires Inv(Db()) && Claimable(reservations, picked, now, BATCH_SIZE)
      modifies this
      ensures Db() == ExpireAll(old(Db()), picked) && affected == |picked|
      ensures Inv(Db())
    {
      ghost var before := Db();
      ExpireKeepsInv(before, picked, now);
      ClaimExpired(picked, now);
      for k := 0 to |picked|
        invariant coupons == ExpireAll(before, picked[..k]).coupons
        invariant reservations == ExpireAll(before, picked).reservations
        invariant redemptions == before.redemptions && events == before.events
      {
        ExpireStep(before, picked, k);
        DecrementUsage(reservations[picked[k]].coupon);
      }
      assert picked[..|picked|] == picked;
      ExpireFrame(before, picked);
      affected := |picked|;
    }
  }

  lemma ExpireStep(s: Store, ids: seq<nat>, k: nat)
    requires k < |ids| && forall i | 0 <= i < |ids| :: ids[i] < |s.reservations|
    ensures ExpireAll(s, ids[..k + 1]).coupons == FreeSeat(ExpireAll(s, ids[..k]).coupons, ExpireAll(s, ids).reservations[ids[k]].coupon)
  {
    assert ids[..k + 1][..k] == ids[..k];
    ExpireFrame(s, ids[..k]);
    ExpireFrame(s, ids);
  }
}
