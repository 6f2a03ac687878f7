/** What every operation of the loyalty service answers, when it succeeds, and exactly which rows it
    writes. */
module LoyaltyOutcomes {
  import opened Common
  import opened LoyaltyDomain
  import opened EarnBuckets
  import opened ExpiryPass
  import opened LoyaltySpec
  import opened LoyaltyProofs
  import opened LoyaltyTheorems

  // ----- Words of the statements -----

  /** The largest whole number of points within the rate, none on nothing paid. */
  predicate EarnsOn(paidSubtotal: int, earnRateBps: int, points: nat) {
    if paidSubtotal <= 0 || earnRateBps <= 0 then points == 0
    else 10000 * points <= paidSubtotal * earnRateBps < 10000 * (points + 1)
  }

  /** The row of `kind` under this source. */
  predicate Has(ledger: seq<Row>, kind: Kind, source: Source) {
    exists r :: r in ledger && r.kind == kind && r.source == source
  }

  predicate IsRow(r: Row, b: Buyer, kind: Kind, amount: int, source: Source) {
    r.buyer == b && r.kind == kind && r.amount == amount && r.source == source
  }

  /** An accrual stamped to expire `cfg.earnExpiration` after `now`, or never. */
  predicate IsEarn(r: Row, cfg: Config, b: Buyer, order: nat, points: nat, now: Time) {
    && IsRow(r, b, Earn, points, OrderPaid(order))
    && (if cfg.earnExpiration <= 0 then r.expiresAt == None else r.expiresAt == Some(now + cfg.earnExpiration))
  }

  /** Nobody's account changes except b's, which sees `deltas` updates. */
  ghost predicate OnlyAccountOf(s: Store, s': Store, b: Buyer, deltas: nat) {
    && (forall c: Buyer | c != b :: Acct(s', c) == Acct(s, c))
    && Acct(s', b).version == Acct(s, b).version + deltas
    && (deltas == 0 ==> Acct(s', b) == Acct(s, b))
  }

  lemma HasFound(ledger: seq<Row>, kind: Kind, source: Source)
    ensures Has(ledger, kind, source) <==> Find(ledger, source, kind).Some?
  {
  }

  // ----- Earning -----

  /** Points are awarded exactly once per paid order, and only if at least one was earned. */
  lemma {:induction false} AwardOutcome(s: Store, cfg: Config, b: Buyer, order: nat, paidSubtotal: int, now: Time, points: nat)
    requires EarnsOn(paidSubtotal, cfg.earnRateBps, points)
    ensures var (s', reply) := AwardEarn(s, cfg, b, order, paidSubtotal, now);
            && reply.Ok? && s'.reservations == s.reservations
            && (if points == 0 then s' == s && reply.value == None
                else if Has(s.ledger, Earn, OrderPaid(order)) then
                  && s'.ledger == s.ledger && OnlyAccountOf(s, s', b, 0)
                  && reply.value.Some? && reply.value.value in s.ledger
                  && reply.value.value.kind == Earn && reply.value.value.source == OrderPaid(order)
                else
                  && reply.value.Some? && s'.ledger == s.ledger + [reply.value.value]
                  && IsEarn(reply.value.value, cfg, b, order, points, now) && OnlyAccountOf(s, s', b, 1))
  {
    PointsAre(paidSubtotal, cfg.earnRateBps, points);
    HasFound(s.ledger, Earn, OrderPaid(order));
  }

  lemma PointsAre(paidSubtotal: int, earnRateBps: int, points: nat)
    requires EarnsOn(paidSubtotal, earnRateBps, points)
    ensures ComputeEarnAmount(paidSubtotal, earnRateBps) == points
  {
  }

  // ----- Reserving -----

  /** A reservation is granted exactly for a positive amount that the balance covers on top of what
      is held already. */
  lemma {:induction false} ReserveOutcome(s: Store, cfg: Config, b: Buyer, amount: int, now: Time)
    ensures var (s', reply) := Reserve(s, cfg, b, amount, now);
            && (reply.Ok? <==> 0 < amount <= Acct(s, b).balance - Acct(s, b).pending)
            && (reply.Err? ==> s' == s && reply.error == if amount <= 0 then InvalidAmount else InsufficientPoints)
            && (reply.Ok? ==>
                  && reply.value == Reservation(|s.reservations|, b, amount, Pending, now + cfg.reservationTTL)
                  && s'.reservations == s.reservations + [reply.value] && s'.ledger == s.ledger
                  && Acct(s', b).pending == Acct(s, b).pending + amount && Acct(s', b).balance == Acct(s, b).balance
                  && OnlyAccountOf(s, s', b, 1))
  {
  }

  /** A hold can be reaped from the moment its lifetime is over, at most 200 at a time, and not
      before. */
  lemma HoldLifetime(s: Store, cfg: Config, b: Buyer, amount: int, now: Time, at: Time)
    requires Reserve(s, cfg, b, amount, now).1.Ok?
    ensures Claimable(Reserve(s, cfg, b, amount, now).0.reservations, [|s.reservations|], at, BATCH_SIZE) <==> now + cfg.reservationTTL < at
  {
    var rs, ids := Reserve(s, cfg, b, amount, now).0.reservations, [|s.reservations|];
    assert ids[0] == |s.reservations| && rs[ids[0]] == Reservation(|s.reservations|, b, amount, Pending, now + cfg.reservationTTL);
  }

  lemma ReaperBatch(rs: seq<Reservation>, ids: seq<nat>, now: Time)
    ensures Claimable(rs, ids, now, BATCH_SIZE) ==> |ids| <= 200
    ensures |ids| <= 200 && Claimable(rs, ids, now, |ids|) ==> Claimable(rs, ids, now, BATCH_SIZE)
  {
  }

  // ----- Releasing -----

  /** A release succeeds exactly on a reservation that is still pending, and frees its points. */
  lemma {:induction false} ReleaseOutcome(s: Store, seen: Reservation)
    requires Inv(s) && SeenOk(s.reservations, seen)
    ensures var (s', reply) := Release(s, seen);
            var v := s.reservations[seen.id];
            && reply == Ok(v.status == Pending) && s'.ledger == s.ledger
            && (if v.status == Pending then
                  && s'.reservations == s.reservations[seen.id := v.(status := Released)]
                  && Acct(s', v.buyer).pending == Acct(s, v.buyer).pending - v.amount
                  && Acct(s', v.buyer).balance == Acct(s, v.buyer).balance && OnlyAccountOf(s, s', v.buyer, 1)
                else s'.reservations == s.reservations && OnlyAccountOf(s, s', v.buyer, 0))
  {
  }

  // ----- Committing -----

  /** What a first commit writes: the redeem row, and the accrual unless the order has one or earns
      nothing. */
  ghost predicate Burns(s: Store, s': Store, cfg: Config, v: Reservation, order: nat, points: nat, now: Time) {
    var accrues := points > 0 && !Has(s.ledger, Earn, OrderPaid(order));
    var n := |s.ledger|;
    && |s'.ledger| == n + (if accrues then 2 else 1) && s'.ledger[..n] == s.ledger
    && IsRow(s'.ledger[n], v.buyer, Redeem, -v.amount, ReservationCommit(v.id)) && s'.ledger[n].expiresAt == None
    && (accrues ==> IsEarn(s'.ledger[n + 1], cfg, v.buyer, order, points, now))
    && OnlyAccountOf(s, s', v.buyer, if accrues then 2 else 1)
  }

  /** The points of the order's accrual. */
  ghost predicate EarnedOn(ledger: seq<Row>, order: nat, earned: int) {
    if Has(ledger, Earn, OrderPaid(order)) then exists r :: r in ledger && r.kind == Earn && r.source == OrderPaid(order) && r.amount == earned
    else earned == 0
  }

  /** A commit succeeds exactly on a reservation that is pending or committed already, however
      outdated the read was; only the first one writes anything. */
  lemma {:induction false} CommitOutcome(s: Store, cfg: Config, seen: Reservation, order: nat, paidSubtotal: int, now: Time, points: nat)
    requires Inv(s) && SeenOk(s.reservations, seen) && EarnsOn(paidSubtotal, cfg.earnRateBps, points)
    ensures var (s', reply) := Commit(s, cfg, seen, order, paidSubtotal, now);
            var v := s.reservations[seen.id];
            && (reply.Ok? <==> v.status == Pending || v.status == Committed)
            && (reply.Err? ==> s' == s && reply.error == AlreadyTerminal)
            && (reply.Ok? ==> reply.value.newBalance == Acct(s', v.buyer).balance && reply.value.alreadyCommitted == (v.status == Committed))
            && (v.status == Committed ==>
                  && s'.ledger == s.ledger && s'.reservations == s.reservations && OnlyAccountOf(s, s', v.buyer, 0)
                  && reply.value.redeemed == -v.amount && EarnedOn(s.ledger, order, reply.value.earned))
            && (v.status == Pending ==>
                  && s'.reservations == s.reservations[seen.id := v.(status := Committed)] && Burns(s, s', cfg, v, order, points, now)
                  && reply.value.redeemed == v.amount
                  && (if points == 0 then reply.value.earned == 0 else EarnedOn(s'.ledger, order, reply.value.earned)))
  {
    var v := s.reservations[seen.id];
    PointsAre(paidSubtotal, cfg.earnRateBps, points);
    HasFound(s.ledger, Earn, OrderPaid(order));
    RedeemRow(s, seen.id);
    if v.status == Pending {
      FirstCommit(s, cfg, seen, order, paidSubtotal, now, points);
    }
  }

  lemma RedeemRow(s: Store, id: nat)
    requires Inv(s) && id < |s.reservations|
    ensures var row := Find(s.ledger, ReservationCommit(id), Redeem);
            && (row.Some? <==> s.reservations[id].status == Committed)
            && (row.Some? ==> row.value.amount == -s.reservations[id].amount)
            && s.reservations[id].id == id
  {
    assert ReservationOk(s.ledger, s.reservations, id);
    var row := Find(s.ledger, ReservationCommit(id), Redeem);
    if row.Some? {
      var i :| 0 <= i < |s.ledger| && s.ledger[i] == row.value;
      assert SourceOk(s.reservations, s.ledger[i]);
    }
  }

  lemma {:induction false} FirstCommit(s: Store, cfg: Config, seen: Reservation, order: nat, paidSubtotal: int, now: Time, points: nat)
    requires Inv(s) && SeenOk(s.reservations, seen) && s.reservations[seen.id].status == Pending
    requires Find(s.ledger, ReservationCommit(seen.id), Redeem) == None && s.reservations[seen.id].id == seen.id
    requires ComputeEarnAmount(paidSubtotal, cfg.earnRateBps) == points
    ensures var (s', reply) := Commit(s, cfg, seen, order, paidSubtotal, now);
            && reply.Ok? && Burns(s, s', cfg, s.reservations[seen.id], order, points, now)
            && reply.value.newBalance == Acct(s', seen.buyer).balance
            && (points > 0 ==> EarnedOn(s'.ledger, order, reply.value.earned))
  {
    var (s', reply) := Commit(s, cfg, seen, order, paidSubtotal, now);
    HasFound(s.ledger, Earn, OrderPaid(order));
    var earned := Find(s.ledger, OrderPaid(order), Earn);
    if points > 0 {
      if earned.Some? {
        assert earned.value in s'.ledger;
      } else {
        assert s'.ledger[|s.ledger| + 1] in s'.ledger;
      }
    }
  }

  // ----- Cancelling and adjusting -----

  /** A cancellation returns the points spent on the order and takes back the points earned on it, as
      far as the balance goes, each once; it is refused when what is left would not cover the holds. */
  lemma {:induction false} CancelOutcome(s: Store, b: Buyer, order: nat, pointDiscount: int, pointsEarned: int, refund: nat, reversal: nat)
    requires Inv(s)
    requires refund == if pointDiscount > 0 && !Has(s.ledger, Refund, OrderCancelled(order)) then pointDiscount else 0
    requires var left := Acct(s, b).balance + refund;
             reversal == if pointsEarned <= 0 || Has(s.ledger, ReverseEarn, OrderCancelled(order)) then 0
                         else if pointsEarned < left then pointsEarned else left
    ensures var (s', reply) := Cancel(s, b, order, pointDiscount, pointsEarned);
            if pointDiscount < 0 || pointsEarned < 0 then s' == s && reply == Err(BadRequest)
            else if pointDiscount == 0 && pointsEarned == 0 then s' == s && reply == Ok(CancelReply(0, 0, 0))
            else if Acct(s, b).balance + refund - reversal < Acct(s, b).pending then s' == s && reply == Err(Internal)
            else
              && reply == Ok(CancelReply(refund, reversal, Acct(s, b).balance + refund - reversal))
              && SettlesCancellation(s, s', b, order, refund, reversal)
  {
    AccountBounds(s, b);
    if pointDiscount >= 0 && pointsEarned >= 0 && (pointDiscount != 0 || pointsEarned != 0) {
      var s2 := BothHalves(s, b, order, pointDiscount, pointsEarned, refund, reversal);
    }
  }

  ghost predicate SettlesCancellation(s: Store, s': Store, b: Buyer, order: nat, refund: nat, reversal: nat) {
    && s'.reservations == s.reservations && Acct(s', b).balance == Acct(s, b).balance + refund - reversal
    && OnlyAccountOf(s, s', b, (if refund > 0 then 1 else 0) + (if reversal > 0 then 1 else 0))
    && GivesBack(s, s', b, order, refund, reversal)
  }

  lemma {:induction false} BothHalves(s: Store, b: Buyer, order: nat, pointDiscount: nat, pointsEarned: nat, refund: nat, reversal: nat) returns (s2: Store)
    requires Inv(s) && (pointDiscount != 0 || pointsEarned != 0)
    requires refund == if !Has(s.ledger, Refund, OrderCancelled(order)) then pointDiscount else 0
    requires var left := Acct(s, b).balance + refund;
             reversal == if Has(s.ledger, ReverseEarn, OrderCancelled(order)) then 0 else if pointsEarned < left then pointsEarned else left
    ensures Cancel(s, b, order, pointDiscount, pointsEarned) ==
              if Acct(s, b).balance + refund - reversal < Acct(s, b).pending then (s, Err(Internal))
              else (s2, Ok(CancelReply(refund, reversal, Acct(s, b).balance + refund - reversal)))
    ensures SettlesCancellation(s, s2, b, order, refund, reversal)
  {
    AccountBounds(s, b);
    var s1 := RefundHalf(s, b, order, pointDiscount, refund);
    HasFound(s.ledger, ReverseEarn, OrderCancelled(order));
    RefundKeepsInv(s, b, order, pointDiscount);
    s2 := ReversalHalf(s1, b, order, pointsEarned, reversal);
    CancelReplies(s, s1, s2, b, order, pointDiscount, pointsEarned, refund, reversal);
    HalvesSettle(s, s1, s2, b, order, refund, reversal);
  }

  lemma {:induction false} CancelReplies(s: Store, s1: Store, s2: Store, b: Buyer, order: nat, pointDiscount: nat, pointsEarned: nat, refund: nat, reversal: nat)
    requires 0 <= Acct(s, b).pending <= Acct(s, b).balance && (pointDiscount != 0 || pointsEarned != 0)
    requires Find(s1.ledger, OrderCancelled(order), ReverseEarn) == Find(s.ledger, OrderCancelled(order), ReverseEarn)
    requires s1 == AfterRefund(s, b, order, pointDiscount) && s2 == AfterReversal(s1, b, order, pointsEarned)
    requires Acct(s1, b).balance == Acct(s, b).balance + refund && Acct(s2, b).balance == Acct(s1, b).balance - reversal
    requires Acct(s2, b).pending == Acct(s, b).pending
    ensures Cancel(s, b, order, pointDiscount, pointsEarned) ==
              if Acct(s, b).balance + refund - reversal < Acct(s, b).pending then (s, Err(Internal))
              else (s2, Ok(CancelReply(refund, reversal, Acct(s, b).balance + refund - reversal)))
  {
    CancelHalves(s, b, order, pointDiscount, pointsEarned);
    var left := Acct(s, b).balance + refund - reversal;
    assert Acct(s2, b).balance == left && Acct(s1, b).balance - Acct(s, b).balance == refund && Acct(s1, b).balance - Acct(s2, b).balance == reversal;
  }

  /** One half: a row with its account update, or nothing. */
  ghost predicate Half(s: Store, s': Store, b: Buyer, kind: Kind, amount: int, source: Source) {
    && s'.reservations == s.reservations && Acct(s', b).balance == Acct(s, b).balance + amount && Acct(s', b).pending == Acct(s, b).pending
    && OnlyAccountOf(s, s', b, if amount == 0 then 0 else 1)
    && (if amount == 0 then s'.ledger == s.ledger
        else exists r :: s'.ledger == s.ledger + [r] && IsRow(r, b, kind, amount, source) && r.expiresAt == None)
  }

  lemma RefundHalf(s: Store, b: Buyer, order: nat, pointDiscount: nat, refund: int) returns (s1: Store)
    requires refund == if !Has(s.ledger, Refund, OrderCancelled(order)) then pointDiscount else 0
    ensures s1 == AfterRefund(s, b, order, pointDiscount) && Half(s, s1, b, Refund, refund, OrderCancelled(order))
  {
    HasFound(s.ledger, Refund, OrderCancelled(order));
    s1 := AfterRefund(s, b, order, pointDiscount);
    if refund > 0 {
      assert s1.ledger == s.ledger + [NextRow(s, b, Refund, refund, OrderCancelled(order), None)];
    }
  }

  lemma ReversalHalf(s: Store, b: Buyer, order: nat, pointsEarned: nat, reversal: int) returns (s2: Store)
    requires 0 <= Acct(s, b).balance
    requires reversal == if Find(s.ledger, OrderCancelled(order), ReverseEarn).Some? then 0
                         else if pointsEarned < Acct(s, b).balance then pointsEarned else Acct(s, b).balance
    ensures s2 == AfterReversal(s, b, order, pointsEarned) && Half(s, s2, b, ReverseEarn, -reversal, OrderCancelled(order))
  {
    s2 := AfterReversal(s, b, order, pointsEarned);
    if reversal > 0 {
      assert s2.ledger == s.ledger + [NextRow(s, b, ReverseEarn, -reversal, OrderCancelled(order), None)];
    }
  }

  lemma HalvesSettle(s: Store, s1: Store, s2: Store, b: Buyer, order: nat, refund: nat, reversal: nat)
    requires Half(s, s1, b, Refund, refund, OrderCancelled(order)) && Half(s1, s2, b, ReverseEarn, 0 - reversal, OrderCancelled(order))
    ensures SettlesCancellation(s, s2, b, order, refund, reversal)
  {
  }

  /** The refund row and the reversal row, as far as there is something to give or take. */
  predicate GivesBack(s: Store, s': Store, b: Buyer, order: nat, refund: int, reversal: int) {
    var n, k := |s.ledger|, if refund > 0 then 1 else 0;
    && |s'.ledger| == n + k + (if reversal > 0 then 1 else 0) && s'.ledger[..n] == s.ledger
    && (refund > 0 ==> IsRow(s'.ledger[n], b, Refund, refund, OrderCancelled(order)) && s'.ledger[n].expiresAt == None)
    && (reversal > 0 ==> IsRow(s'.ledger[n + k], b, ReverseEarn, -reversal, OrderCancelled(order)) && s'.ledger[n + k].expiresAt == None)
  }

  /** An adjustment is made exactly when it changes something and takes no held points away. */
  lemma {:induction false} AdjustOutcome(s: Store, b: Buyer, amount: int)
    requires Inv(s)
    ensures var (s', reply) := AdjustBy(s, b, amount);
            if amount == 0 then s' == s && reply == Err(InvalidAmount)
            else if Acct(s, b).balance + amount < Acct(s, b).pending then s' == s && reply == Err(InsufficientPoints)
            else reply.Ok? && Adjusts(s, s', b, amount, reply.value)
  {
    AccountBounds(s, b);
    AdjustWrites(s, b, amount);
  }

  ghost predicate Adjusts(s: Store, s': Store, b: Buyer, amount: int, row: Row) {
    && s'.ledger == s.ledger + [row] && s'.reservations == s.reservations && OnlyAccountOf(s, s', b, 1)
    && IsRow(row, b, Adjust, amount, AdminAdjust(|s.ledger|)) && row.expiresAt == None
  }

  lemma {:induction false} AdjustWrites(s: Store, b: Buyer, amount: int)
    requires 0 <= Acct(s, b).pending <= Acct(s, b).balance
    ensures var (s', reply) := AdjustBy(s, b, amount);
            if amount == 0 then s' == s && reply == Err(InvalidAmount)
            else if Acct(s, b).balance + amount < Acct(s, b).pending then s' == s && reply == Err(InsufficientPoints)
            else reply.Ok? && Adjusts(s, s', b, amount, reply.value)
  {
    PostWrites(s, b, Adjust, amount, AdminAdjust(|s.ledger|), None);
  }

  lemma PostWrites(s: Store, b: Buyer, kind: Kind, amount: int, source: Source, expiresAt: Option<Time>)
    ensures var s' := Post(s, b, kind, amount, source, expiresAt);
            && OnlyAccountOf(s, s', b, 1) && s'.reservations == s.reservations
            && s'.ledger == s.ledger + [NextRow(s, b, kind, amount, source, expiresAt)]
  {
  }

  /** Reaping flips exactly the claimed reservations and writes no ledger row. */
  lemma ReapOutcome(s: Store, ids: seq<nat>, now: Time)
    requires Inv(s) && Claimable(s.reservations, ids, now, BATCH_SIZE)
    ensures var s' := ExpireHolds(s, ids);
            && s'.ledger == s.ledger && |s'.reservations| == |s.reservations|
            && forall i | 0 <= i < |s.reservations| ::
                 s'.reservations[i] == if i in ids then s.reservations[i].(status := Expired) else s.reservations[i]
  {
    ExpireHoldsKeepsInv(s, ids, now);
    ExpireHoldsLedger(s, ids);
  }

  // ----- When earned points expire -----

  /** An expiration pass at time `at` would take the points of accrual `id`. */
  ghost predicate DueAt(s: Store, b: Buyer, id: nat, at: Time) {
    exists i :: 0 <= i < |Rebuild(Of(s.ledger, b))| && Rebuild(Of(s.ledger, b))[i].earn == id && Due(Rebuild(Of(s.ledger, b))[i], at)
  }

  /** The operation is the payment of `order` by b, with or without points of theirs in it. */
  predicate PaysOrder(y: System, op: Op, b: Buyer, order: nat, paidSubtotal: int, now: Time) {
    || op == OpAward(b, order, paidSubtotal, now)
    || (op.OpCommit? && op.h in y.seen && y.seen[op.h].buyer == b && op == OpCommit(op.h, order, paidSubtotal, now))
  }

  /** Row `id` is written by the step, and is an accrual. */
  predicate EarnedBy(y: System, cfg: Config, op: Op, id: nat) {
    |y.store.ledger| <= id < |Step(y, cfg, op).store.ledger| && Step(y, cfg, op).store.ledger[id].kind == Earn
  }

  /** Where an accrual comes from. */
  lemma EarnSource(y: System, cfg: Config, op: Op, id: nat)
    returns (b: Buyer, order: nat, paidSubtotal: int, now: Time, points: nat)
    requires SystemOk(y) && EarnedBy(y, cfg, op, id)
    ensures PaysOrder(y, op, b, order, paidSubtotal, now) && EarnsOn(paidSubtotal, cfg.earnRateBps, points) && points > 0
    ensures IsEarn(Step(y, cfg, op).store.ledger[id], cfg, b, order, points, now)
  {
    var s := y.store;
    match op
    case OpAward(_, _, _, _) =>
      b, order, paidSubtotal, now := op.b, op.order, op.paidSubtotal, op.now;
      points := AwardSource(s, cfg, b, order, paidSubtotal, now, id);
    case OpCommit(_, _, _, _) =>
      b, order, paidSubtotal, now := y.seen[op.h].buyer, op.order, op.paidSubtotal, op.now;
      points := CommitSource(s, cfg, y.seen[op.h], order, paidSubtotal, now, id);
    case _ =>
      OthersEarnNothing(y, cfg, op, id);
      assert false;
  }

  lemma AwardSource(s: Store, cfg: Config, b: Buyer, order: nat, paidSubtotal: int, now: Time, id: nat) returns (points: nat)
    requires var s' := AwardEarn(s, cfg, b, order, paidSubtotal, now).0; |s.ledger| <= id < |s'.ledger| && s'.ledger[id].kind == Earn
    ensures EarnsOn(paidSubtotal, cfg.earnRateBps, points) && points > 0
    ensures IsEarn(AwardEarn(s, cfg, b, order, paidSubtotal, now).0.ledger[id], cfg, b, order, points, now)
  {
    points := ComputeEarnAmount(paidSubtotal, cfg.earnRateBps);
    AwardOutcome(s, cfg, b, order, paidSubtotal, now, points);
  }

  lemma CommitSource(s: Store, cfg: Config, seen: Reservation, order: nat, paidSubtotal: int, now: Time, id: nat) returns (points: nat)
    requires Inv(s) && SeenOk(s.reservations, seen)
    requires var s' := Commit(s, cfg, seen, order, paidSubtotal, now).0; |s.ledger| <= id < |s'.ledger| && s'.ledger[id].kind == Earn
    ensures EarnsOn(paidSubtotal, cfg.earnRateBps, points) && points > 0
    ensures IsEarn(Commit(s, cfg, seen, order, paidSubtotal, now).0.ledger[id], cfg, seen.buyer, order, points, now)
  {
    points := ComputeEarnAmount(paidSubtotal, cfg.earnRateBps);
    CommitOutcome(s, cfg, seen, order, paidSubtotal, now, points);
  }

  lemma OthersEarnNothing(y: System, cfg: Config, op: Op, id: nat)
    requires SystemOk(y) && !op.OpAward? && !op.OpCommit?
    requires |y.store.ledger| <= id < |Step(y, cfg, op).store.ledger|
    ensures Step(y, cfg, op).store.ledger[id].kind != Earn
  {
    var s := y.store;
    match op
    case OpCancel(b, order, pointDiscount, pointsEarned) => CancelEarnsNothing(s, b, order, pointDiscount, pointsEarned, id);
    case OpAdjust(b, amount) => AdjustOutcome(s, b, amount);
    case OpExpireHolds(ids, at) =>
      if Claimable(s.reservations, ids, at, BATCH_SIZE) {
        ExpireHoldsLedger(s, ids);
      }
    case OpExpirePoints(b, at) => PassRows(s, b, at);
    case _ =>
  }

  lemma CancelEarnsNothing(s: Store, b: Buyer, order: nat, pointDiscount: int, pointsEarned: int, id: nat)
    requires Inv(s) && |s.ledger| <= id < |Cancel(s, b, order, pointDiscount, pointsEarned).0.ledger|
    ensures Cancel(s, b, order, pointDiscount, pointsEarned).0.ledger[id].kind != Earn
  {
  }

  /** An expiration pass answers how many rows it wrote, all of them expire rows of its buyer. */
  lemma PassRows(s: Store, b: Buyer, now: Time)
    ensures var (s', reply) := ExpirePoints(s, b, now);
            && s.ledger <= s'.ledger && |s'.ledger| == |s.ledger| + (if reply.Ok? then reply.value else 0)
            && forall i | |s.ledger| <= i < |s'.ledger| :: s'.ledger[i].kind == Expire && s'.ledger[i].buyer == b
  {
    RowsAreExpire(Rebuild(Of(s.ledger, b)), now, b, |s.ledger|, Acct(s, b).balance);
  }

  lemma {:induction false} RowsAreExpire(bs: seq<Bucket>, now: Time, b: Buyer, id: nat, balance: int)
    ensures forall i | 0 <= i < |ExpireRows(bs, now, b, id, balance)| ::
              ExpireRows(bs, now, b, id, balance)[i].kind == Expire && ExpireRows(bs, now, b, id, balance)[i].buyer == b
  {
    if bs != [] {
      RowsAreExpire(bs[..|bs| - 1], now, b, id, balance);
    }
  }

  /** From the moment it is written and whatever happens later: an accrual is due at exactly the
      times later than its payment plus the configured lifetime, until a pass has taken it; never if
      no lifetime is configured. */
  lemma EarnDueLaw(y: System, cfg: Config, op: Op, id: nat, later: seq<Op>, at: Time)
    returns (b: Buyer, order: nat, paidSubtotal: int, now: Time, points: nat)
    requires SystemOk(y) && EarnedBy(y, cfg, op, id)
    ensures PaysOrder(y, op, b, order, paidSubtotal, now) && EarnsOn(paidSubtotal, cfg.earnRateBps, points) && points > 0
    ensures IsRow(Step(y, cfg, op).store.ledger[id], b, Earn, points, OrderPaid(order))
    ensures var z := Run(Step(y, cfg, op), cfg, later).store;
            DueAt(z, b, id, at) <==> cfg.earnExpiration > 0 && now + cfg.earnExpiration < at && !Has(z.ledger, Expire, ExpirationJob(id))
  {
    b, order, paidSubtotal, now, points := EarnSource(y, cfg, op, id);
    var y1 := Step(y, cfg, op);
    var z := Run(y1, cfg, later).store;
    StepKeeps(y, cfg, op);
    RunKeeps(y1, cfg, later);
    RunAppends(y1, cfg, later);
    assert z.ledger[id] == y1.store.ledger[id];
    DueMeaning(z, b, id, at);
    HasFound(z.ledger, Expire, ExpirationJob(id));
  }

  lemma DueMeaning(s: Store, b: Buyer, id: nat, at: Time)
    requires Inv(s) && id < |s.ledger| && s.ledger[id].kind == Earn && s.ledger[id].buyer == b
    ensures DueAt(s, b, id, at) <==>
              && s.ledger[id].expiresAt.Some? && s.ledger[id].expiresAt.value < at
              && Find(s.ledger, ExpirationJob(id), Expire) == None
  {
    var i := BucketOf(s, b, id);
    DueBucket(Rebuild(Of(s.ledger, b)), i, id, at);
  }

  /** The one bucket of an accrual. */
  lemma BucketOf(s: Store, b: Buyer, id: nat) returns (i: nat)
    requires Inv(s) && id < |s.ledger| && s.ledger[id].kind == Earn && s.ledger[id].buyer == b
    ensures i < |Rebuild(Of(s.ledger, b))| && Rebuild(Of(s.ledger, b))[i].earn == id && Increasing(Rebuild(Of(s.ledger, b)))
    ensures Rebuild(Of(s.ledger, b))[i].expiresAt == s.ledger[id].expiresAt
    ensures Rebuild(Of(s.ledger, b))[i].marked <==> Find(s.ledger, ExpirationJob(id), Expire).Some?
  {
    assert Refined(s, b);
    OfFacts(s.ledger, b);
    ReplayableFacts(Of(s.ledger, b));
    assert s.ledger[id] in Of(s.ledger, b) && s.ledger[id].id == id;
    i :| 0 <= i < |Rebuild(Of(s.ledger, b))| && Rebuild(Of(s.ledger, b))[i].earn == id;
    EarnOfBucket(s, b, i, s.ledger[id]);
  }

  lemma DueBucket(bs: seq<Bucket>, i: nat, id: nat, at: Time)
    requires i < |bs| && bs[i].earn == id && Increasing(bs)
    ensures (exists j :: 0 <= j < |bs| && bs[j].earn == id && Due(bs[j], at)) <==>
              bs[i].expiresAt.Some? && bs[i].expiresAt.value < at && !bs[i].marked
  {
    forall j | 0 <= j < |bs| && bs[j].earn == id
      ensures j == i
    {
    }
  }
}
