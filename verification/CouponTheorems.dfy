/** The promises of the coupon service over every run, from an empty database. */
module CouponTheorems {
  import opened Common
  import opened CouponSpec
  import opened CouponProofs
  import Discount

  ghost predicate SystemOk(y: System) {
    Inv(y.store) && forall h | h in y.seen :: SeenOk(y.store.reservations, y.seen[h])
  }

  /** Reservations only ever leave the pending state, and never change otherwise. */
  predicate Evolves(rs: seq<Reservation>, rs': seq<Reservation>) {
    && |rs| <= |rs'|
    && forall i | 0 <= i < |rs| ::
         && rs'[i] == rs[i].(status := rs'[i].status)
         && (rs[i].status != Pending ==> rs'[i].status == rs[i].status)
  }

  lemma StepKeepsInv(y: System, op: Op)
    requires SystemOk(y)
    ensures Inv(Step(y, op).store)
  {
    var s := y.store;
    match op
    case OpCreate(c) =>
      if Creatable(s.coupons, c) {
        CreateKeepsInv(s, c);
      }
    case OpUpdate(id, p) =>
      if id < |s.coupons| {
        EditKeepsInv(s, id, Patched(s.coupons[id], p));
      }
    case OpRevoke(id) =>
      if id < |s.coupons| {
        EditKeepsInv(s, id, s.coupons[id].(revoked := true));
      }
    case OpReserve(q, now, ttl) => ReserveKeepsInv(s, q, now, ttl);
    case OpRead(_, _) =>
    case OpCommit(h, order, early) =>
      if h in y.seen {
        CommitKeepsInv(s, y.seen[h], order, early);
      }
    case OpRelease(h) =>
      if h in y.seen {
        ReleaseKeepsInv(s, y.seen[h]);
      }
    case OpRefund(reservation, order, share) => RefundKeepsInv(s, reservation, order, share);
    case OpExpire(ids, now) =>
      if Claimable(s.reservations, ids, now, BATCH_SIZE) {
        ExpireKeepsInv(s, ids, now);
      }
  }

  lemma StepEvolves(y: System, op: Op)
    requires SystemOk(y)
    ensures Evolves(y.store.reservations, Step(y, op).store.reservations)
  {
    if op.OpExpire? && Claimable(y.store.reservations, op.ids, op.now, BATCH_SIZE) {
      ExpireKeepsInv(y.store, op.ids, op.now);
    }
  }

  lemma StepKeeps(y: System, op: Op)
    requires SystemOk(y)
    ensures SystemOk(Step(y, op))
  {
    StepKeepsInv(y, op);
    StepEvolves(y, op);
  }

  lemma {:induction false} RunKeeps(y: System, ops: seq<Op>)
    requires SystemOk(y)
    ensures SystemOk(Run(y, ops))
  {
    if ops != [] {
      RunKeeps(y, ops[..|ops| - 1]);
      StepKeeps(Run(y, ops[..|ops| - 1]), ops[|ops| - 1]);
    }
  }

  const START := System(EMPTY, map[])

  lemma Reachable(ops: seq<Op>) returns (s: Store)
    ensures s == Run(START, ops).store && Inv(s)
  {
    RunKeeps(START, ops);
    s := Run(START, ops).store;
  }

  lemma {:induction false} RunEvolves(y: System, ops: seq<Op>)
    requires SystemOk(y)
    ensures Evolves(y.store.reservations, Run(y, ops).store.reservations)
  {
    if ops != [] {
      var init := ops[..|ops| - 1];
      RunEvolves(y, init);
      RunKeeps(y, init);
      StepEvolves(Run(y, init), ops[|ops| - 1]);
    }
  }

  /** Whatever interleaves later, a reservation that left the pending state keeps its outcome. */
  lemma LeavesPendingOnce(ops: seq<Op>, later: seq<Op>, id: nat)
    requires id < |Run(START, ops).store.reservations| && Run(START, ops).store.reservations[id].status != Pending
    ensures id < |Run(Run(START, ops), later).store.reservations|
    ensures Run(Run(START, ops), later).store.reservations[id] == Run(START, ops).store.reservations[id]
  {
    RunKeeps(START, ops);
    RunEvolves(Run(START, ops), later);
  }

  // ----- Seats -----

  /** In every reachable state a coupon's usage count is the number of reservations that hold a
      seat: the pending ones and the committed ones not fully refunded. */
  lemma SeatAccounting(ops: seq<Op>, c: nat)
    requires c < |Run(START, ops).store.coupons|
    ensures var s := Run(START, ops).store;
            s.coupons[c].usage == Seats(s.reservations, s.redemptions, c)
  {
    var s := Reachable(ops);
  }

  /** Whenever the code frees a seat there is one to free, so the floor in the decrement is
      never reached: a release, and the refund that completes a redemption, take exactly one
      use off exactly one coupon. */
  lemma FloorNeverNeeded(s: Store, seen: Reservation, reservation: nat, order: nat, share: int)
    requires Inv(s) && SeenOk(s.reservations, seen)
    ensures var (s', reply) := Release(s, seen);
            reply == Ok(true) ==> seen.coupon < |s.coupons| && s.coupons[seen.coupon].usage >= 1 && s'.coupons == OneFewer(s.coupons, seen.coupon)
    ensures var (s', reply) := Refund(s, reservation, order, share);
            reply.Ok? && reply.value.fully ==>
              var c := s.redemptions[RedemptionOf(s.redemptions, reservation).value].coupon;
              c < |s.coupons| && s.coupons[c].usage >= 1 && s'.coupons == OneFewer(s.coupons, c)
    ensures var (s', reply) := Refund(s, reservation, order, share);
            !(reply.Ok? && reply.value.fully) ==> s'.coupons == s.coupons
  {
    if seen.status == Pending && s.reservations[seen.id].status == Pending {
      FreeKeepsInv(s, seen.id, Released);
    }
    var k := RedemptionOf(s.redemptions, reservation);
    if share > 0 && k.Some? && !Recorded(s.events, k.value, order) {
      CreditKeepsInv(s, k.value, order, share);
    }
  }

  function OneFewer(coupons: seq<Coupon>, c: nat): seq<Coupon>
    requires c < |coupons|
  {
    coupons[c := coupons[c].(usage := coupons[c].usage - 1)]
  }

  predicate WithinLimit(c: Coupon) {
    c.limit.Some? ==> c.usage <= c.limit.value
  }

  predicate AllWithinLimits(s: Store) {
    forall c | 0 <= c < |s.coupons| :: WithinLimit(s.coupons[c])
  }

  /** An update that does not cut the limit below what is already used. */
  predicate KeepsLimit(s: Store, op: Op) {
    op.OpUpdate? && op.id < |s.coupons| && op.patch.limit.Some? ==> s.coupons[op.id].usage <= op.patch.limit.value
  }

  lemma StepWithinLimits(y: System, op: Op)
    requires SystemOk(y) && AllWithinLimits(y.store)
    ensures AllWithinLimits(Step(y, op).store) <==> (op.OpUpdate? && Acceptable(op.patch) ==> KeepsLimit(y.store, op))
  {
    var s, s' := y.store, Step(y, op).store;
    if op.OpExpire? && Claimable(s.reservations, op.ids, op.now, BATCH_SIZE) {
      assert forall c | 0 <= c < |s.coupons| :: s.coupons[c].usage >= 0;
      ExpireOnlyFrees(s, op.ids);
    }
    if op.OpUpdate? && op.id < |s.coupons| && Acceptable(op.patch) {
      assert s'.coupons[op.id] == Patched(s.coupons[op.id], op.patch);
    }
    if op.OpRefund? || op.OpRelease? || op.OpCommit? {
      SeatsOnlyFreed(y, op);
    }
  }

  lemma SeatsOnlyFreed(y: System, op: Op)
    requires SystemOk(y) && (op.OpRefund? || op.OpRelease? || op.OpCommit?)
    ensures var s, s' := y.store, Step(y, op).store;
            |s'.coupons| == |s.coupons| && forall c | 0 <= c < |s.coupons| ::
              s'.coupons[c] == s.coupons[c].(usage := s'.coupons[c].usage) && s'.coupons[c].usage <= s.coupons[c].usage
  {
    var s := y.store;
    assert forall c | 0 <= c < |s.coupons| :: s.coupons[c].usage >= 0;
  }

  /** Only use counts move, and only down. */
  predicate OnlyFreed(coupons: seq<Coupon>, coupons': seq<Coupon>) {
    |coupons'| == |coupons| && forall c | 0 <= c < |coupons| ::
      coupons'[c] == coupons[c].(usage := coupons'[c].usage) && 0 <= coupons'[c].usage <= coupons[c].usage
  }

  lemma FreeSeatOnlyFrees(coupons: seq<Coupon>, before: seq<Coupon>, id: nat)
    requires OnlyFreed(coupons, before)
    ensures OnlyFreed(coupons, FreeSeat(before, id))
  {
  }

  lemma {:induction false} ExpireOnlyFrees(s: Store, ids: seq<nat>)
    requires forall c | 0 <= c < |s.coupons| :: s.coupons[c].usage >= 0
    requires forall k | 0 <= k < |ids| :: ids[k] < |s.reservations|
    ensures OnlyFreed(s.coupons, ExpireAll(s, ids).coupons)
  {
    if ids != [] {
      var init, id := ids[..|ids| - 1], ids[|ids| - 1];
      ExpireOnlyFrees(s, init);
      var t := ExpireAll(s, init);
      FreeSeatOnlyFrees(s.coupons, t.coupons, t.reservations[id].coupon);
    }
  }

  /** While no update cuts a limit below the current use, no coupon is ever used more often than
      its limit. */
  lemma {:induction false} LimitsHold(ops: seq<Op>)
    requires forall k | 0 <= k < |ops| :: KeepsLimit(Run(START, ops[..k]).store, ops[k])
    ensures AllWithinLimits(Run(START, ops).store)
  {
    if ops != [] {
      var init, last := ops[..|ops| - 1], ops[|ops| - 1];
      forall k | 0 <= k < |init|
        ensures KeepsLimit(Run(START, init[..k]).store, init[k])
      {
        assert init[..k] == ops[..k];
      }
      LimitsHold(init);
      RunKeeps(START, init);
      StepWithinLimits(Run(START, init), last);
    }
  }

  // ----- Commits -----

  /** Exactly the committed reservations have a redemption. */
  predicate CommitsRedeemed(s: Store) {
    forall i | 0 <= i < |s.reservations| :: s.reservations[i].status == Committed <==> RedemptionOf(s.redemptions, i).Some?
  }

  lemma RedemptionOfAppend(reds: seq<Redemption>, row: Redemption, reservation: nat)
    ensures RedemptionOf(reds + [row], reservation) ==
              if row.reservation == reservation then Some(|reds|) else RedemptionOf(reds, reservation)
  {
    assert (reds + [row])[..|reds|] == reds;
  }

  lemma CommitKeepsRedeemed(s: Store, seen: Reservation, order: nat, early: bool)
    requires Inv(s) && CommitsRedeemed(s) && SeenOk(s.reservations, seen)
    ensures CommitsRedeemed(Commit(s, seen, order, early).0)
  {
    var s' := Commit(s, seen, order, early).0;
    if s' != s {
      var row := s'.redemptions[|s.redemptions|];
      forall i | 0 <= i < |s.reservations|
        ensures s'.reservations[i].status == Committed <==> RedemptionOf(s'.redemptions, i).Some?
      {
        RedemptionOfAppend(s.redemptions, row, i);
      }
    }
  }

  lemma RefundKeepsRedeemed(s: Store, reservation: nat, order: nat, share: int)
    requires Inv(s) && CommitsRedeemed(s)
    ensures CommitsRedeemed(Refund(s, reservation, order, share).0)
  {
    var k := RedemptionOf(s.redemptions, reservation);
    if share > 0 && k.Some? && !Recorded(s.events, k.value, order) {
      forall i | 0 <= i < |s.reservations|
        ensures RedemptionOf(s.redemptions[k.value := Credit(s.redemptions[k.value], share)], i) == RedemptionOf(s.redemptions, i)
      {
        RedemptionOfUpdate(s.redemptions, k.value, Credit(s.redemptions[k.value], share), i);
      }
    }
  }

  lemma ExpireKeepsRedeemed(s: Store, ids: seq<nat>, now: Time)
    requires Inv(s) && CommitsRedeemed(s) && Claimable(s.reservations, ids, now, |ids|)
    ensures CommitsRedeemed(ExpireAll(s, ids))
  {
    ExpireKeepsInv(s, ids, now);
    ExpireFrame(s, ids);
  }

  lemma StepKeepsRedeemed(y: System, op: Op)
    requires SystemOk(y) && CommitsRedeemed(y.store)
    ensures CommitsRedeemed(Step(y, op).store)
  {
    var s := y.store;
    match op
    case OpReserve(q, now, ttl) => PendingHasNone(s, |s.reservations|);
    case OpCommit(h, order, early) =>
      if h in y.seen {
        CommitKeepsRedeemed(s, y.seen[h], order, early);
      }
    case OpRelease(h) =>
    case OpRefund(reservation, order, share) => RefundKeepsRedeemed(s, reservation, order, share);
    case OpExpire(ids, now) =>
      if Claimable(s.reservations, ids, now, BATCH_SIZE) {
        ExpireKeepsRedeemed(s, ids, now);
      }
    case _ =>
  }

  /** A reservation that does not exist yet has no redemption. */
  lemma PendingHasNone(s: Store, id: nat)
    requires RedemptionsOk(s) && id >= |s.reservations|
    ensures RedemptionOf(s.redemptions, id) == None
  {
    forall k | 0 <= k < |s.redemptions|
      ensures s.redemptions[k].reservation < |s.reservations|
    {
      assert RedemptionOk(s, k);
    }
  }

  lemma {:induction false} RunKeepsRedeemed(ops: seq<Op>)
    ensures CommitsRedeemed(Run(START, ops).store)
  {
    if ops != [] {
      RunKeepsRedeemed(ops[..|ops| - 1]);
      RunKeeps(START, ops[..|ops| - 1]);
      StepKeepsRedeemed(Run(START, ops[..|ops| - 1]), ops[|ops| - 1]);
    }
  }

  /** In every reachable state, also where commits to one order race: a reservation is committed
      exactly when it has a redemption, and there is one such row, with its coupon, buyer and
      amount. */
  lemma CommittedIffRedeemed(ops: seq<Op>, id: nat)
    requires id < |Run(START, ops).store.reservations|
    ensures var s := Run(START, ops).store;
            var v := s.reservations[id];
            && (v.status == Committed <==> exists k :: 0 <= k < |s.redemptions| && s.redemptions[k].reservation == id)
            && forall k | 0 <= k < |s.redemptions| && s.redemptions[k].reservation == id ::
                 && s.redemptions[k].coupon == v.coupon && s.redemptions[k].buyer == v.buyer && s.redemptions[k].applied == v.amount
                 && forall j | 0 <= j < |s.redemptions| && s.redemptions[j].reservation == id :: j == k
  {
    var s := Reachable(ops);
    RunKeepsRedeemed(ops);
    forall k | 0 <= k < |s.redemptions| && s.redemptions[k].reservation == id
      ensures RedemptionOk(s, k)
    {
    }
  }

  // ----- Refunds -----

  /** In every reachable state, over whatever interleaving: a redemption is refunded by the
      recorded shares up to its discount, each order is recorded at most once, and the row is
      stamped full exactly when it reaches the discount. */
  lemma RefundLedger(ops: seq<Op>, k: nat)
    requires k < |Run(START, ops).store.redemptions|
    ensures var s := Run(START, ops).store;
            && s.redemptions[k].refunded == Min(s.redemptions[k].applied, Shares(s.events, k))
            && (s.redemptions[k].full <==> s.redemptions[k].refunded == s.redemptions[k].applied)
            && forall i, j | 0 <= i < j < |s.events| && s.events[i].redemption == s.events[j].redemption ::
                 s.events[i].order != s.events[j].order
  {
    var s := Reachable(ops);
    assert RedemptionOk(s, k);
  }

  /** One delivered order.cancelled event. */
  datatype Delivery = Delivery(order: nat, share: int)

  function DeliverAll(s: Store, reservation: nat, ds: seq<Delivery>): Store {
    if ds == [] then s
    else
      var last := ds[|ds| - 1];
      Refund(DeliverAll(s, reservation, ds[..|ds| - 1]), reservation, last.order, last.share).0
  }

  predicate Delivered(ds: seq<Delivery>, order: nat) {
    exists i :: 0 <= i < |ds| && ds[i].order == order && ds[i].share > 0
  }

  /** The first positive share of every order, added up. */
  function FirstShares(ds: seq<Delivery>): nat {
    if ds == [] then 0
    else
      var init, last := ds[..|ds| - 1], ds[|ds| - 1];
      FirstShares(init) + if last.share > 0 && !Delivered(init, last.order) then last.share else 0
  }

  /** A redemption whose cart has not seen any cancellation yet. */
  predicate Unrefunded(s: Store, reservation: nat, k: nat) {
    && k < |s.redemptions| && RedemptionOf(s.redemptions, reservation) == Some(k)
    && forall i | 0 <= i < |s.events| :: s.events[i].redemption != k
  }

  /** The redemption and its coupon's use after some deliveries. */
  ghost predicate AfterDeliveries(s: Store, s': Store, reservation: nat, k: nat, ds: seq<Delivery>)
    requires Inv(s) && Unrefunded(s, reservation, k)
  {
    && Inv(s') && |s'.redemptions| == |s.redemptions| && |s'.coupons| == |s.coupons|
    && RedemptionOf(s'.redemptions, reservation) == Some(k)
    && s'.redemptions[k].coupon == s.redemptions[k].coupon && s'.redemptions[k].applied == s.redemptions[k].applied
    && Shares(s'.events, k) == FirstShares(ds)
    && (forall order: nat :: Recorded(s'.events, k, order) <==> Delivered(ds, order))
    && s.redemptions[k].coupon < |s.coupons|
    && s'.coupons == if s'.redemptions[k].full then OneFewer(s.coupons, s.redemptions[k].coupon) else s.coupons
  }

  lemma DeliveredAppend(ds: seq<Delivery>, init: seq<Delivery>, last: Delivery, order: nat)
    requires ds == init + [last]
    ensures Delivered(ds, order) <==> Delivered(init, order) || (last.order == order && last.share > 0)
  {
    if Delivered(init, order) {
      var i :| 0 <= i < |init| && init[i].order == order && init[i].share > 0;
      assert ds[i].order == order;
    }
    if last.order == order && last.share > 0 {
      assert ds[|init|].order == order;
    }
  }

  lemma RecordedAppend(events: seq<RefundEvent>, e: RefundEvent, k: nat, order: nat)
    ensures Recorded(events + [e], k, order) <==> Recorded(events, k, order) || (e.redemption == k && e.order == order)
  {
    if Recorded(events, k, order) {
      var i :| 0 <= i < |events| && events[i].redemption == k && events[i].order == order;
      assert (events + [e])[i] == events[i];
    }
    if e.redemption == k && e.order == order {
      assert (events + [e])[|events|] == e;
    }
  }

  lemma RedemptionOfUpdate(reds: seq<Redemption>, k: nat, r: Redemption, reservation: nat)
    requires k < |reds| && r.reservation == reds[k].reservation
    ensures RedemptionOf(reds[k := r], reservation) == RedemptionOf(reds, reservation)
  {
    if reds != [] {
      var n := |reds| - 1;
      if k < n {
        RedemptionOfUpdate(reds[..n], k, r, reservation);
        assert reds[k := r][..n] == reds[..n][k := r];
      } else {
        assert reds[k := r][..n] == reds[..n];
      }
    }
  }

  lemma DeliverStep(s: Store, mid: Store, reservation: nat, k: nat, init: seq<Delivery>, last: Delivery, ds: seq<Delivery>)
    requires Inv(s) && Unrefunded(s, reservation, k) && ds == init + [last]
    requires AfterDeliveries(s, mid, reservation, k, init)
    ensures AfterDeliveries(s, Refund(mid, reservation, last.order, last.share).0, reservation, k, ds)
  {
    assert ds[..|init|] == init;
    forall order: nat
      ensures Delivered(ds, order) <==> Delivered(init, order) || (last.order == order && last.share > 0)
    {
      DeliveredAppend(ds, init, last, order);
    }
    if last.share > 0 && !Recorded(mid.events, k, last.order) {
      var s' := RecordShare(mid, reservation, k, last);
    }
  }

  /** A delivery that is recorded. */
  lemma RecordShare(mid: Store, reservation: nat, k: nat, d: Delivery) returns (s': Store)
    requires Inv(mid) && RedemptionOf(mid.redemptions, reservation) == Some(k)
    requires d.share > 0 && !Recorded(mid.events, k, d.order)
    ensures s' == Refund(mid, reservation, d.order, d.share).0 && Inv(s')
    ensures s'.redemptions == mid.redemptions[k := Credit(mid.redemptions[k], d.share)]
    ensures RedemptionOf(s'.redemptions, reservation) == Some(k)
    ensures Shares(s'.events, k) == Shares(mid.events, k) + d.share
    ensures forall order: nat :: Recorded(s'.events, k, order) <==> Recorded(mid.events, k, order) || d.order == order
    ensures mid.redemptions[k].full ==> s'.coupons == mid.coupons
    ensures !mid.redemptions[k].full ==> mid.redemptions[k].coupon < |mid.coupons|
    ensures !mid.redemptions[k].full ==>
              s'.coupons == if s'.redemptions[k].full then OneFewer(mid.coupons, mid.redemptions[k].coupon) else mid.coupons
  {
    var r, e := mid.redemptions[k], RefundEvent(k, d.order, d.share);
    s' := Refund(mid, reservation, d.order, d.share).0;
    CreditKeepsInv(mid, k, d.order, d.share);
    RedemptionOfUpdate(mid.redemptions, k, Credit(r, d.share), reservation);
    SharesAppend(mid.events, e, k);
    RecordedGrows(mid.events, e, s'.events);
    assert RedemptionOk(mid, k);
  }

  lemma RecordedGrows(events: seq<RefundEvent>, e: RefundEvent, events': seq<RefundEvent>)
    requires events' == events + [e]
    ensures forall order: nat :: Recorded(events', e.redemption, order) <==> Recorded(events, e.redemption, order) || e.order == order
  {
    forall order: nat
      ensures Recorded(events', e.redemption, order) <==> Recorded(events, e.redemption, order) || e.order == order
    {
      RecordedAppend(events, e, e.redemption, order);
    }
  }

  lemma {:induction false} DeliveriesKeep(s: Store, reservation: nat, k: nat, ds: seq<Delivery>)
    requires Inv(s) && Unrefunded(s, reservation, k)
    ensures AfterDeliveries(s, DeliverAll(s, reservation, ds), reservation, k, ds)
  {
    if ds == [] {
      assert RedemptionOk(s, k);
      NoShares(s.events, k);
    } else {
      var init, last := ds[..|ds| - 1], ds[|ds| - 1];
      DeliveriesKeep(s, reservation, k, init);
      assert ds == init + [last];
      DeliverStep(s, DeliverAll(s, reservation, init), reservation, k, init, last, ds);
    }
  }

  /** After any sequence of deliveries, duplicated and reordered as it may be, the refund is the
      sum of the first share of every order, up to the discount; and the coupon has lost exactly
      one use if that reached the discount, none otherwise. */
  lemma RefundTotals(s: Store, reservation: nat, k: nat, ds: seq<Delivery>)
    requires Inv(s) && Unrefunded(s, reservation, k)
    ensures var s' := DeliverAll(s, reservation, ds);
            var r := s.redemptions[k];
            && k < |s'.redemptions| && r.coupon < |s.coupons| == |s'.coupons|
            && s'.redemptions[k].refunded == Min(r.applied, FirstShares(ds))
            && (s'.redemptions[k].full <==> FirstShares(ds) >= r.applied)
            && s'.coupons == if FirstShares(ds) >= r.applied then OneFewer(s.coupons, r.coupon) else s.coupons
  {
    DeliveriesKeep(s, reservation, k, ds);
    assert RedemptionOk(DeliverAll(s, reservation, ds), k);
  }

  /** A delivery after others is refused exactly when its share is negative or its order has
      already been recorded; it then changes nothing. */
  lemma RedeliveryRefused(s: Store, reservation: nat, k: nat, ds: seq<Delivery>, d: Delivery)
    requires Inv(s) && Unrefunded(s, reservation, k)
    ensures var (s', reply) := Refund(DeliverAll(s, reservation, ds), reservation, d.order, d.share);
            && (reply.Err? <==> d.share < 0 || (d.share > 0 && Delivered(ds, d.order)))
            && (reply.Err? ==> s' == DeliverAll(s, reservation, ds))
  {
    DeliveriesKeep(s, reservation, k, ds);
  }

  function Orders(ds: seq<Delivery>): set<nat> {
    set i | 0 <= i < |ds| :: ds[i].order
  }

  /** Every delivery carries its order's share. */
  predicate Consistent(ds: seq<Delivery>, share: map<nat, int>) {
    forall i | 0 <= i < |ds| :: ds[i].order in share && ds[i].share == share[ds[i].order] && ds[i].share >= 0
  }

  ghost function Total(orders: set<nat>, share: map<nat, int>): int
    requires orders <= share.Keys
  {
    if orders == {} then 0
    else
      var o :| o in orders;
      Total(orders - {o}, share) + share[o]
  }

  lemma {:induction false} TotalWithout(orders: set<nat>, share: map<nat, int>, o: nat)
    requires orders <= share.Keys && o in orders
    ensures Total(orders, share) == Total(orders - {o}, share) + share[o]
    decreases |orders|
  {
    var p :| p in orders && Total(orders, share) == Total(orders - {p}, share) + share[p];
    if p != o {
      TotalWithout(orders - {p}, share, o);
      TotalWithout(orders - {o}, share, p);
      assert orders - {p} - {o} == orders - {o} - {p};
    }
  }

  lemma {:induction false} FirstSharesTotal(ds: seq<Delivery>, share: map<nat, int>)
    requires Consistent(ds, share)
    ensures FirstShares(ds) == Total(Orders(ds), share)
  {
    if ds != [] {
      var init, last := ds[..|ds| - 1], ds[|ds| - 1];
      FirstSharesTotal(init, share);
      assert ds == init + [last];
      assert Orders(ds) == Orders(init) + {last.order};
      if last.order in Orders(init) {
        assert Orders(ds) == Orders(init);
        var i :| 0 <= i < |init| && init[i].order == last.order;
        assert init[i].share == last.share;
        assert last.share > 0 ==> Delivered(init, last.order);
      } else {
        assert Orders(ds) - {last.order} == Orders(init);
        TotalWithout(Orders(ds), share, last.order);
        assert !Delivered(init, last.order);
      }
    }
  }

  /** Confluence: two delivery histories over the same orders, in any order and with any
      duplicates, leave the same refund and the same use counts. */
  lemma RefundConfluence(s: Store, reservation: nat, k: nat, ds: seq<Delivery>, es: seq<Delivery>, share: map<nat, int>)
    requires Inv(s) && Unrefunded(s, reservation, k)
    requires Consistent(ds, share) && Consistent(es, share) && Orders(ds) == Orders(es)
    ensures DeliverAll(s, reservation, ds).coupons == DeliverAll(s, reservation, es).coupons
    ensures k < |DeliverAll(s, reservation, ds).redemptions| && k < |DeliverAll(s, reservation, es).redemptions|
    ensures DeliverAll(s, reservation, ds).redemptions[k].refunded == DeliverAll(s, reservation, es).redemptions[k].refunded
  {
    RefundTotals(s, reservation, k, ds);
    RefundTotals(s, reservation, k, es);
    FirstSharesTotal(ds, share);
    FirstSharesTotal(es, share);
  }

  // ----- Reserving -----

  /** The coupon a request resolves to: a platform code wins, then the first seller of the cart
      who issued it; its discount is positive and at most the subtotal it applies to. */
  lemma ReserveMeaning(s: Store, q: Request, now: Time, ttl: int)
    ensures Reserve(s, q, now, ttl).1.Ok? ==>
              var v := Reserve(s, q, now, ttl).1.value;
              && v.coupon < |s.coupons| && s.coupons[v.coupon].code == q.code && s.coupons[v.coupon].issuer == v.seller
              && HasSeat(s.coupons[v.coupon])
              && 0 < v.amount <= (if v.seller.Some? then SubtotalOf(q.subtotals, v.seller.value) else CartTotal(q.subtotals))
              && (v.seller.Some? ==> FindCode(s.coupons, None, q.code) == None)
  {
    SellerCodeMeaning(s.coupons, q.subtotals, q.code);
  }

  lemma {:induction false} SellerCodeMeaning(coupons: seq<Coupon>, subtotals: seq<SellerSubtotal>, code: nat)
    ensures FindSellerCode(coupons, subtotals, code).Some? ==>
              var (c, seller) := FindSellerCode(coupons, subtotals, code).value;
              && coupons[c].code == code
              && exists i :: 0 <= i < |subtotals| && subtotals[i].seller == seller
                             && forall j | 0 <= j < i :: FindCode(coupons, Some(subtotals[j].seller), code) == None
  {
    if subtotals != [] && FindCode(coupons, Some(subtotals[0].seller), code) == None {
      SellerCodeMeaning(coupons, subtotals[1..], code);
      if FindSellerCode(coupons, subtotals, code).Some? {
        var (c, seller) := FindSellerCode(coupons, subtotals, code).value;
        var i :| 0 <= i < |subtotals[1..]| && subtotals[1..][i].seller == seller
                 && forall j | 0 <= j < i :: FindCode(coupons, Some(subtotals[1..][j].seller), code) == None;
        assert subtotals[i + 1].seller == seller;
        forall j | 0 <= j < i + 1
          ensures FindCode(coupons, Some(subtotals[j].seller), code) == None
        {
          assert j > 0 ==> subtotals[1..][j - 1] == subtotals[j];
        }
      }
    }
  }

  /** A percentage coupon gives the largest whole amount within its rate, its cap and the subtotal. */
  lemma PercentDiscount(c: Coupon, subtotal: nat, n: nat)
    requires subtotal > 0 && c.deal.Percent? && c.deal.bps.Some? && c.deal.bps.value >= 0
    requires c.maxDiscount.Some? ==> c.maxDiscount.value >= 0
    ensures n <= c.ComputeDiscount(subtotal) <==>
              && n * 10000 <= subtotal * c.deal.bps.value
              && (c.maxDiscount.Some? ==> n <= c.maxDiscount.value)
              && n <= subtotal
  {
    var bps := c.deal.bps.value;
    Discount.MulMonotone(subtotal, 0, bps);
    FloorIff(subtotal * bps, n);
  }

  lemma FloorIff(x: nat, n: nat)
    ensures n <= Discount.Trunc(x, 10000) <==> n * 10000 <= x
  {
  }
}
