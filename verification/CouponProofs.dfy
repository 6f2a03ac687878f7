/** The invariant of the coupon tables and its preservation by every operation. */
module CouponProofs {
  import opened Common
  import opened CouponSpec

  predicate FullyRefunded(reds: seq<Redemption>, reservation: nat) {
    exists k :: 0 <= k < |reds| && reds[k].reservation == reservation && reds[k].full
  }

  /** A reservation that takes one of the coupon's seats: pending, or committed and not yet
      fully refunded. */
  predicate Occupies(r: Reservation, reds: seq<Redemption>, coupon: nat) {
    r.coupon == coupon && (r.status == Pending || (r.status == Committed && !FullyRefunded(reds, r.id)))
  }

  function Seats(rs: seq<Reservation>, reds: seq<Redemption>, coupon: nat): nat {
    if rs == [] then 0
    else Seats(rs[..|rs| - 1], reds, coupon) + if Occupies(rs[|rs| - 1], reds, coupon) then 1 else 0
  }

  /** The shares recorded against one redemption. */
  function Shares(events: seq<RefundEvent>, redemption: nat): int {
    if events == [] then 0
    else
      var e := events[|events| - 1];
      Shares(events[..|events| - 1], redemption) + if e.redemption == redemption then e.share else 0
  }

  predicate UsageOk(s: Store) {
    forall c | 0 <= c < |s.coupons| :: s.coupons[c].usage == Seats(s.reservations, s.redemptions, c)
  }

  predicate ReservationsOk(s: Store) {
    forall i | 0 <= i < |s.reservations| ::
      s.reservations[i].id == i && s.reservations[i].coupon < |s.coupons| && s.reservations[i].amount > 0
  }

  predicate RedemptionOk(s: Store, k: nat)
    requires k < |s.redemptions|
  {
    var r := s.redemptions[k];
    && r.id == k && r.reservation < |s.reservations|
    && (var v := s.reservations[r.reservation];
        v.status == Committed && r.coupon == v.coupon && r.buyer == v.buyer && r.applied == v.amount && r.applied > 0)
    && r.refunded == Min(r.applied, Shares(s.events, k))
    && (r.full <==> r.refunded == r.applied)
  }

  predicate RedemptionsOk(s: Store) {
    && (forall k | 0 <= k < |s.redemptions| :: RedemptionOk(s, k))
    && (forall j, k | 0 <= j < k < |s.redemptions| :: s.redemptions[j].reservation != s.redemptions[k].reservation)
    && (forall j, k | 0 <= j < k < |s.redemptions| ::
          !(s.redemptions[j].coupon == s.redemptions[k].coupon && s.redemptions[j].order == s.redemptions[k].order))
  }

  predicate EventsOk(s: Store) {
    && (forall i | 0 <= i < |s.events| :: s.events[i].redemption < |s.redemptions| && s.events[i].share > 0)
    && (forall i, j | 0 <= i < j < |s.events| ::
          !(s.events[i].redemption == s.events[j].redemption && s.events[i].order == s.events[j].order))
  }

  ghost predicate Inv(s: Store) {
    UsageOk(s) && ReservationsOk(s) && RedemptionsOk(s) && EventsOk(s)
  }

  // ----- Counting seats -----

  lemma SeatsAppend(rs: seq<Reservation>, r: Reservation, reds: seq<Redemption>, coupon: nat)
    ensures Seats(rs + [r], reds, coupon) == Seats(rs, reds, coupon) + if Occupies(r, reds, coupon) then 1 else 0
  {
    assert (rs + [r])[..|rs|] == rs;
  }

  function Bit(b: bool): nat {
    if b then 1 else 0
  }

  /** At most the reservation `id` changes whether it takes a seat. */
  lemma {:induction false} SeatsChange(rs: seq<Reservation>, reds: seq<Redemption>, rs': seq<Reservation>, reds': seq<Redemption>,
                                       coupon: nat, id: nat)
    requires |rs| == |rs'| && id < |rs|
    requires forall i | 0 <= i < |rs| && i != id :: Occupies(rs[i], reds, coupon) == Occupies(rs'[i], reds', coupon)
    ensures Seats(rs', reds', coupon) ==
              Seats(rs, reds, coupon) - Bit(Occupies(rs[id], reds, coupon)) + Bit(Occupies(rs'[id], reds', coupon))
  {
    var n := |rs| - 1;
    if id < n {
      SeatsChange(rs[..n], reds, rs'[..n], reds', coupon, id);
    } else {
      SeatsSame(rs[..n], reds, rs'[..n], reds', coupon);
    }
  }

  lemma {:induction false} SeatsSame(rs: seq<Reservation>, reds: seq<Redemption>, rs': seq<Reservation>, reds': seq<Redemption>, coupon: nat)
    requires |rs| == |rs'|
    requires forall i | 0 <= i < |rs| :: Occupies(rs[i], reds, coupon) == Occupies(rs'[i], reds', coupon)
    ensures Seats(rs', reds', coupon) == Seats(rs, reds, coupon)
  {
    if rs != [] {
      var n := |rs| - 1;
      SeatsSame(rs[..n], reds, rs'[..n], reds', coupon);
    }
  }

  lemma {:induction false} SeatTaken(rs: seq<Reservation>, reds: seq<Redemption>, coupon: nat, id: nat)
    requires id < |rs| && Occupies(rs[id], reds, coupon)
    ensures Seats(rs, reds, coupon) >= 1
  {
    if id < |rs| - 1 {
      SeatTaken(rs[..|rs| - 1], reds, coupon, id);
    }
  }

  /** A pending reservation has no redemption. */
  lemma PendingNotRefunded(s: Store, id: nat)
    requires RedemptionsOk(s) && id < |s.reservations| && s.reservations[id].status != Committed
    ensures RedemptionOf(s.redemptions, id) == None
    ensures !FullyRefunded(s.redemptions, id)
  {
    forall k | 0 <= k < |s.redemptions|
      ensures s.redemptions[k].reservation != id
    {
      assert RedemptionOk(s, k);
    }
  }

  // ----- Operations -----

  lemma ReserveKeepsInv(s: Store, q: Request, now: Time, ttl: int)
    requires Inv(s)
    ensures Inv(Reserve(s, q, now, ttl).0)
  {
    var (s', reply) := Reserve(s, q, now, ttl);
    if reply.Ok? {
      var v := reply.value;
      var rs := s.reservations + [v];
      assert v.id == |s.reservations| && v.status == Pending && s'.reservations == rs && s'.redemptions == s.redemptions;
      forall c | 0 <= c < |s.coupons|
        ensures s'.coupons[c].usage == Seats(s'.reservations, s'.redemptions, c)
      {
        SeatsAppend(s.reservations, v, s.redemptions, c);
      }
      GrowReservations(s, s', v);
    }
  }

  lemma GrowReservations(s: Store, s': Store, v: Reservation)
    requires RedemptionsOk(s) && s'.redemptions == s.redemptions && s'.events == s.events
    requires s'.reservations == s.reservations + [v]
    ensures RedemptionsOk(s')
  {
    forall k | 0 <= k < |s.redemptions|
      ensures RedemptionOk(s', k)
    {
      assert RedemptionOk(s, k);
    }
  }

  /** A pending reservation changes status; redemptions of other reservations stand. */
  lemma SetStatusKeepsRedemptions(s: Store, s': Store, id: nat, status: Status)
    requires RedemptionsOk(s) && id < |s.reservations| && s.reservations[id].status == Pending
    requires s'.reservations == SetStatus(s.reservations, id, status)
    requires s'.redemptions == s.redemptions && s'.events == s.events
    ensures RedemptionsOk(s')
  {
    PendingNotRefunded(s, id);
    forall k | 0 <= k < |s.redemptions|
      ensures RedemptionOk(s', k)
    {
      assert RedemptionOk(s, k);
    }
  }

  /** A pending reservation gives its seat back. */
  lemma FreeKeepsInv(s: Store, id: nat, status: Status)
    requires Inv(s) && id < |s.reservations| && s.reservations[id].status == Pending
    requires status == Released || status == Expired
    ensures var coupon := s.reservations[id].coupon;
            && coupon < |s.coupons| && s.coupons[coupon].usage >= 1
            && Inv(s.(reservations := SetStatus(s.reservations, id, status), coupons := FreeSeat(s.coupons, coupon)))
  {
    var r := s.reservations[id];
    var s' := s.(reservations := SetStatus(s.reservations, id, status), coupons := FreeSeat(s.coupons, r.coupon));
    SeatTaken(s.reservations, s.redemptions, r.coupon, id);
    forall c | 0 <= c < |s.coupons|
      ensures s'.coupons[c].usage == Seats(s'.reservations, s'.redemptions, c)
    {
      SeatsChange(s.reservations, s.redemptions, s'.reservations, s'.redemptions, c, id);
    }
    SetStatusKeepsRedemptions(s, s', id, status);
  }

  predicate SeenOk(rs: seq<Reservation>, v: Reservation) {
    && v.id < |rs|
    && rs[v.id] == v.(status := rs[v.id].status)
    && (v.status != Pending ==> rs[v.id].status == v.status)
  }

  lemma ReleaseKeepsInv(s: Store, seen: Reservation)
    requires Inv(s) && SeenOk(s.reservations, seen)
    ensures Inv(Release(s, seen).0)
  {
    if seen.status == Pending && s.reservations[seen.id].status == Pending {
      FreeKeepsInv(s, seen.id, Released);
    }
  }

  /** Committing keeps the seat taken. */
  lemma CommitKeepsInv(s: Store, seen: Reservation, order: nat, early: bool)
    requires Inv(s) && SeenOk(s.reservations, seen)
    ensures Inv(Commit(s, seen, order, early).0)
  {
    var existing := RedemptionFor(s.redemptions, seen.coupon, order);
    if existing == None && seen.status == Pending && s.reservations[seen.id].status == Pending {
      var id := seen.id;
      var s1 := s.(reservations := SetStatus(s.reservations, id, Committed));
      PendingNotRefunded(s, id);
      SetStatusKeepsRedemptions(s, s1, id, Committed);
      forall c | 0 <= c < |s.coupons|
        ensures s1.coupons[c].usage == Seats(s1.reservations, s1.redemptions, c)
      {
        SeatsSame(s.reservations, s.redemptions, s1.reservations, s1.redemptions, c);
      }
      RedeemKeepsInv(s1, id, order);
    }
  }

  lemma RedeemKeepsInv(s: Store, id: nat, order: nat)
    requires Inv(s) && id < |s.reservations| && s.reservations[id].status == Committed
    requires RedemptionOf(s.redemptions, id) == None
    requires RedemptionFor(s.redemptions, s.reservations[id].coupon, order) == None
    ensures var v := s.reservations[id];
            Inv(s.(redemptions := s.redemptions + [Redemption(|s.redemptions|, v.coupon, v.buyer, order, v.amount, 0, id, false)]))
  {
    var v, n := s.reservations[id], |s.redemptions|;
    var row := Redemption(n, v.coupon, v.buyer, order, v.amount, 0, id, false);
    var s' := s.(redemptions := s.redemptions + [row]);
    NoShares(s.events, n);
    forall k | 0 <= k < |s'.redemptions|
      ensures RedemptionOk(s', k)
    {
      assert k < n ==> RedemptionOk(s, k);
    }
    forall i | 0 <= i < |s.reservations|
      ensures FullyRefunded(s'.redemptions, s.reservations[i].id) == FullyRefunded(s.redemptions, s.reservations[i].id)
    {
      RefundedAppend(s.redemptions, row, s.reservations[i].id);
    }
    forall c | 0 <= c < |s.coupons|
      ensures s'.coupons[c].usage == Seats(s'.reservations, s'.redemptions, c)
    {
      SeatsSame(s.reservations, s.redemptions, s'.reservations, s'.redemptions, c);
    }
  }

  lemma RefundedAppend(reds: seq<Redemption>, row: Redemption, reservation: nat)
    requires !row.full
    ensures FullyRefunded(reds + [row], reservation) == FullyRefunded(reds, reservation)
  {
    if FullyRefunded(reds, reservation) {
      var k :| 0 <= k < |reds| && reds[k].reservation == reservation && reds[k].full;
      assert (reds + [row])[k].full;
    }
  }

  lemma {:induction false} NoShares(events: seq<RefundEvent>, redemption: nat)
    requires forall i | 0 <= i < |events| :: events[i].redemption != redemption
    ensures Shares(events, redemption) == 0
  {
    if events != [] {
      NoShares(events[..|events| - 1], redemption);
    }
  }

  lemma SharesAppend(events: seq<RefundEvent>, e: RefundEvent, redemption: nat)
    ensures Shares(events + [e], redemption) == Shares(events, redemption) + if e.redemption == redemption then e.share else 0
  {
    assert (events + [e])[..|events|] == events;
  }

  /** One recorded share: the accumulator follows, and the seat goes exactly when it fills up. */
  lemma CreditKeepsInv(s: Store, k: nat, order: nat, share: int)
    requires Inv(s) && k < |s.redemptions| && share > 0 && !Recorded(s.events, k, order)
    ensures var r, r' := s.redemptions[k], Credit(s.redemptions[k], share);
            && Inv(s.(events := s.events + [RefundEvent(k, order, share)], redemptions := s.redemptions[k := r'],
                      coupons := if r'.full && !r.full then FreeSeat(s.coupons, r.coupon) else s.coupons))
            && (r'.full && !r.full ==> r.coupon < |s.coupons| && s.coupons[r.coupon].usage >= 1)
  {
    var r, r', e := s.redemptions[k], Credit(s.redemptions[k], share), RefundEvent(k, order, share);
    var id := r.reservation;
    var s' := s.(events := s.events + [e], redemptions := s.redemptions[k := r'],
                 coupons := if r'.full && !r.full then FreeSeat(s.coupons, r.coupon) else s.coupons);
    assert RedemptionOk(s, k);
    CreditKeepsRedemptions(s, s', k, e, r');
    OnlyFullHere(s.redemptions, k, r');
    if !r.full {
      assert !FullyRefunded(s.redemptions, id) by {
        assert forall j | 0 <= j < |s.redemptions| && j != k :: s.redemptions[j].reservation != id;
      }
      SeatTaken(s.reservations, s.redemptions, r.coupon, id);
    }
    forall c | 0 <= c < |s.coupons|
      ensures s'.coupons[c].usage == Seats(s'.reservations, s'.redemptions, c)
    {
      SeatsChange(s.reservations, s.redemptions, s'.reservations, s'.redemptions, c, id);
    }
  }

  lemma OnlyFullHere(reds: seq<Redemption>, k: nat, r': Redemption)
    requires k < |reds| && r'.reservation == reds[k].reservation && (reds[k].full ==> r'.full)
    ensures forall v: nat | v != r'.reservation :: FullyRefunded(reds[k := r'], v) == FullyRefunded(reds, v)
    ensures r'.full ==> FullyRefunded(reds[k := r'], r'.reservation)
    ensures r'.full == reds[k].full ==> FullyRefunded(reds[k := r'], r'.reservation) == FullyRefunded(reds, r'.reservation)
  {
    var reds' := reds[k := r'];
    assert reds'[k] == r';
    forall v: nat
      ensures v != r'.reservation || r'.full == reds[k].full ==> FullyRefunded(reds', v) == FullyRefunded(reds, v)
    {
      if v != r'.reservation || r'.full == reds[k].full {
        if FullyRefunded(reds, v) {
          var j :| 0 <= j < |reds| && reds[j].reservation == v && reds[j].full;
          assert reds'[j].reservation == v && reds'[j].full;
        }
        if FullyRefunded(reds', v) {
          var j :| 0 <= j < |reds'| && reds'[j].reservation == v && reds'[j].full;
          assert reds[j].reservation == v && reds[j].full;
        }
      }
    }
  }

  lemma CreditKeepsRedemptions(s: Store, s': Store, k: nat, e: RefundEvent, r': Redemption)
    requires RedemptionsOk(s) && EventsOk(s) && k < |s.redemptions| && e.redemption == k && e.share > 0
    requires r' == Credit(s.redemptions[k], e.share) && !Recorded(s.events, k, e.order)
    requires s'.reservations == s.reservations && s'.redemptions == s.redemptions[k := r'] && s'.events == s.events + [e]
    ensures RedemptionsOk(s') && EventsOk(s')
  {
    forall j | 0 <= j < |s.redemptions|
      ensures RedemptionOk(s', j)
    {
      assert RedemptionOk(s, j);
      SharesAppend(s.events, e, j);
    }
    forall i | 0 <= i < |s.events|
      ensures !(s.events[i].redemption == e.redemption && s.events[i].order == e.order)
    {
    }
  }

  lemma RefundKeepsInv(s: Store, reservation: nat, order: nat, share: int)
    requires Inv(s)
    ensures Inv(Refund(s, reservation, order, share).0)
  {
    var k := RedemptionOf(s.redemptions, reservation);
    if share > 0 && k.Some? && !Recorded(s.events, k.value, order) {
      CreditKeepsInv(s, k.value, order, share);
    }
  }

  lemma {:induction false} ExpireKeepsInv(s: Store, ids: seq<nat>, now: Time)
    requires Inv(s) && Claimable(s.reservations, ids, now, |ids|)
    ensures Inv(ExpireAll(s, ids))
    ensures forall i | 0 <= i < |s.reservations| ::
              ExpireAll(s, ids).reservations[i] == if i in ids then s.reservations[i].(status := Expired) else s.reservations[i]
  {
    if ids != [] {
      var init, last := ids[..|ids| - 1], ids[|ids| - 1];
      ExpireKeepsInv(s, init, now);
      LastNotBefore(ids);
      FreeKeepsInv(ExpireAll(s, init), last, Expired);
    }
  }

  lemma LastNotBefore(ids: seq<nat>)
    requires ids != [] && forall j, k | 0 <= j < k < |ids| :: ids[j] != ids[k]
    ensures ids[|ids| - 1] !in ids[..|ids| - 1]
    ensures forall i :: i in ids <==> i in ids[..|ids| - 1] || i == ids[|ids| - 1]
  {
    assert ids == ids[..|ids| - 1] + [ids[|ids| - 1]];
  }

  lemma {:induction false} ExpireFrame(s: Store, ids: seq<nat>)
    requires forall k | 0 <= k < |ids| :: ids[k] < |s.reservations|
    ensures ExpireAll(s, ids).redemptions == s.redemptions && ExpireAll(s, ids).events == s.events
    ensures forall i | 0 <= i < |s.reservations| :: ExpireAll(s, ids).reservations[i].coupon == s.reservations[i].coupon
  {
    if ids != [] {
      ExpireFrame(s, ids[..|ids| - 1]);
    }
  }

  /** Edits of a coupon row that leave its usage count alone. */
  lemma EditKeepsInv(s: Store, id: nat, c: Coupon)
    requires Inv(s) && id < |s.coupons| && c.usage == s.coupons[id].usage
    ensures Inv(s.(coupons := s.coupons[id := c]))
  {
    var s' := s.(coupons := s.coupons[id := c]);
    forall k | 0 <= k < |s.redemptions|
      ensures RedemptionOk(s', k)
    {
      assert RedemptionOk(s, k);
    }
  }

  lemma CreateKeepsInv(s: Store, c: Coupon)
    requires Inv(s) && c.usage == 0
    ensures Inv(s.(coupons := s.coupons + [c]))
  {
    var s' := s.(coupons := s.coupons + [c]);
    NoSeats(s.reservations, s.redemptions, |s.coupons|);
    forall k | 0 <= k < |s.redemptions|
      ensures RedemptionOk(s', k)
    {
      assert RedemptionOk(s, k);
    }
  }

  lemma {:induction false} NoSeats(rs: seq<Reservation>, reds: seq<Redemption>, coupon: nat)
    requires forall i | 0 <= i < |rs| :: rs[i].coupon != coupon
    ensures Seats(rs, reds, coupon) == 0
  {
    if rs != [] {
      NoSeats(rs[..|rs| - 1], reds, coupon);
    }
  }
}
