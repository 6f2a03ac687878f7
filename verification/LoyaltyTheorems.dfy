/** The promises of the loyalty service over every run, from an empty database. */
module LoyaltyTheorems {
  import opened Common
  import opened LoyaltyDomain
  import opened EarnBuckets
  import opened BucketGate
  import opened ExpiryPass
  import opened LoyaltySpec
  import opened LoyaltyProofs

  ghost predicate SystemOk(y: System) {
    && Inv(y.store)
    && forall h | h in y.seen :: SeenOk(y.store.reservations, y.seen[h])
  }

  lemma EvolvesRefl(rs: seq<Reservation>)
    ensures Evolves(rs, rs)
  {
  }

  lemma SeenSurvives(rs: seq<Reservation>, rs': seq<Reservation>, v: Reservation)
    requires SeenOk(rs, v) && Evolves(rs, rs')
    ensures SeenOk(rs', v)
  {
  }

  lemma StepKeepsInv(y: System, cfg: Config, op: Op)
    requires SystemOk(y)
    ensures Inv(Step(y, cfg, op).store)
  {
    var s := y.store;
    match op
    case OpAward(b, order, paidSubtotal, now) => AwardKeepsInv(s, cfg, b, order, paidSubtotal, now);
    case OpReserve(b, amount, now) => ReserveKeepsInv(s, cfg, b, amount, now);
    case OpRead(_, _) =>
    case OpCommit(h, order, paidSubtotal, now) =>
      if h in y.seen {
        CommitKeepsInv(s, cfg, y.seen[h], order, paidSubtotal, now);
      }
    case OpRelease(h) =>
      if h in y.seen {
        ReleaseKeepsInv(s, y.seen[h]);
      }
    case OpCancel(b, order, pointDiscount, pointsEarned) => CancelKeepsInv(s, b, order, pointDiscount, pointsEarned);
    case OpAdjust(b, amount) => AdjustKeepsInv(s, b, amount);
    case OpExpireHolds(ids, now) =>
      if Claimable(s.reservations, ids, now, BATCH_SIZE) {
        ExpireHoldsKeepsInv(s, ids, now);
      }
    case OpExpirePoints(b, now) => ExpirePointsKeepsInv(s, b, now);
  }

  /** Reservations only leave the pending state; a terminal one never changes again. */
  lemma StepEvolves(y: System, cfg: Config, op: Op)
    requires SystemOk(y)
    ensures Evolves(y.store.reservations, Step(y, cfg, op).store.reservations)
  {
    if op.OpExpireHolds? && Claimable(y.store.reservations, op.ids, op.now, BATCH_SIZE) {
      ExpireHoldsKeepsInv(y.store, op.ids, op.now);
    }
  }

  lemma StepKeeps(y: System, cfg: Config, op: Op)
    requires SystemOk(y)
    ensures SystemOk(Step(y, cfg, op))
  {
    var y' := Step(y, cfg, op);
    StepKeepsInv(y, cfg, op);
    StepEvolves(y, cfg, op);
    forall h | h in y'.seen
      ensures SeenOk(y'.store.reservations, y'.seen[h])
    {
      if op.OpRead? && op.h == h && op.id < |y.store.reservations| {
        assert ReservationOk(y.store.ledger, y.store.reservations, op.id);
      } else {
        SeenSurvives(y.store.reservations, y'.store.reservations, y.seen[h]);
      }
    }
  }

  lemma {:induction false} RunKeeps(y: System, cfg: Config, ops: seq<Op>)
    requires SystemOk(y)
    ensures SystemOk(Run(y, cfg, ops))
    ensures Evolves(y.store.reservations, Run(y, cfg, ops).store.reservations)
  {
    if ops == [] {
      EvolvesRefl(y.store.reservations);
    } else {
      var init, last := ops[..|ops| - 1], ops[|ops| - 1];
      RunKeeps(y, cfg, init);
      StepKeeps(Run(y, cfg, init), cfg, last);
      StepEvolves(Run(y, cfg, init), cfg, last);
    }
  }

  const START := System(EMPTY, map[])

  lemma StartOk()
    ensures SystemOk(START)
  {
  }

  lemma Reachable(cfg: Config, ops: seq<Op>) returns (s: Store)
    ensures s == Run(START, cfg, ops).store && Inv(s)
  {
    StartOk();
    RunKeeps(START, cfg, ops);
    s := Run(START, cfg, ops).store;
  }

  /** The fast counters refine the ledger, whatever ran and however it interleaved. */
  lemma LedgerRefinement(cfg: Config, ops: seq<Op>, b: Buyer)
    ensures var s := Run(START, cfg, ops).store;
            var a, rows := Acct(s, b), Of(s.ledger, b);
            && a.balance == Total(rows)
            && a.pending == Held(s.reservations, b)
            && a.earned == EarnedTotal(rows)
            && a.redeemed == RedeemedTotal(rows)
            && 0 <= a.pending <= a.balance
            && forall k | 0 <= k < |rows| :: rows[k].balanceAfter == Total(rows[..k + 1])
  {
    var s := Reachable(cfg, ops);
    assert Refined(s, b);
    forall k | 0 <= k < |Of(s.ledger, b)|
      ensures Of(s.ledger, b)[k].balanceAfter == Total(Of(s.ledger, b)[..k + 1])
    {
      StampedAt(Of(s.ledger, b), k);
    }
  }

  lemma {:induction false} StampedAt(rows: seq<Row>, k: nat)
    requires Stamped(rows) && k < |rows|
    ensures rows[k].balanceAfter == Total(rows[..k + 1])
  {
    if k == |rows| - 1 {
      assert rows[..k + 1] == rows;
    } else {
      StampedAt(rows[..|rows| - 1], k);
      assert rows[..|rows| - 1][..k + 1] == rows[..k + 1];
    }
  }

  function Count(ledger: seq<Row>, source: Source, kind: Kind): nat {
    if ledger == [] then 0
    else
      var last := ledger[|ledger| - 1];
      Count(ledger[..|ledger| - 1], source, kind) + if last.source == source && last.kind == kind then 1 else 0
  }

  lemma {:induction false} UniqueCount(ledger: seq<Row>, source: Source, kind: Kind)
    requires UniqueKeys(ledger)
    ensures Count(ledger, source, kind) == if Find(ledger, source, kind).Some? then 1 else 0
  {
    if ledger != [] {
      var init, last := ledger[..|ledger| - 1], ledger[|ledger| - 1];
      UniqueCount(init, source, kind);
      forall i | 0 <= i < |init|
        ensures !SameKey(init[i], last)
      {
        assert init[i] == ledger[i];
      }
    }
  }

  /** Every effect happens at most once: one earn per paid order, one redeem per reservation,
      one refund and one reversal per cancelled order, one expire row per earn row. And every
      row of those kinds carries such a key. */
  lemma AtMostOnce(cfg: Config, ops: seq<Op>, id: nat)
    ensures var ledger := Run(START, cfg, ops).store.ledger;
            && Count(ledger, OrderPaid(id), Earn) <= 1
            && Count(ledger, ReservationCommit(id), Redeem) <= 1
            && Count(ledger, OrderCancelled(id), Refund) <= 1
            && Count(ledger, OrderCancelled(id), ReverseEarn) <= 1
            && Count(ledger, ExpirationJob(id), Expire) <= 1
    ensures forall r | r in Run(START, cfg, ops).store.ledger :: SourceOk(Run(START, cfg, ops).store.reservations, r)
  {
    var s := Reachable(cfg, ops);
    UniqueCount(s.ledger, OrderPaid(id), Earn);
    UniqueCount(s.ledger, ReservationCommit(id), Redeem);
    UniqueCount(s.ledger, OrderCancelled(id), Refund);
    UniqueCount(s.ledger, OrderCancelled(id), ReverseEarn);
    UniqueCount(s.ledger, ExpirationJob(id), Expire);
  }

  /** A redeem row exists exactly for the committed reservations, for exactly their amount. */
  lemma RedeemedIffCommitted(cfg: Config, ops: seq<Op>, id: nat)
    requires id < |Run(START, cfg, ops).store.reservations|
    ensures var s := Run(START, cfg, ops).store;
            var row := Find(s.ledger, ReservationCommit(id), Redeem);
            && (row.Some? <==> s.reservations[id].status == Committed)
            && (row.Some? ==> row.value.amount == -s.reservations[id].amount && row.value.buyer == s.reservations[id].buyer)
  {
    var s := Reachable(cfg, ops);
    assert ReservationOk(s.ledger, s.reservations, id);
    var row := Find(s.ledger, ReservationCommit(id), Redeem);
    if row.Some? {
      var i :| 0 <= i < |s.ledger| && s.ledger[i] == row.value;
      assert SourceOk(s.reservations, s.ledger[i]);
    }
  }

  /** Whatever happens later, a reservation that left the pending state keeps its outcome,
      and its points have left pending_redemption for good. */
  lemma LeavesPendingOnce(cfg: Config, before: seq<Op>, after: seq<Op>, id: nat)
    requires id < |Run(START, cfg, before).store.reservations|
    requires Run(START, cfg, before).store.reservations[id].status != Pending
    ensures id < |Run(START, cfg, before + after).store.reservations|
    ensures Run(START, cfg, before + after).store.reservations[id] == Run(START, cfg, before).store.reservations[id]
    ensures forall b: Buyer :: Hold(Run(START, cfg, before + after).store.reservations[id], b) == 0
  {
    StartOk();
    RunKeeps(START, cfg, before);
    RunSplit(START, cfg, before, after);
    RunKeeps(Run(START, cfg, before), cfg, after);
  }

  lemma {:induction false} RunSplit(y: System, cfg: Config, a: seq<Op>, b: seq<Op>)
    ensures Run(y, cfg, a + b) == Run(Run(y, cfg, a), cfg, b)
  {
    if b == [] {
      assert a + b == a;
    } else {
      RunSplit(y, cfg, a, b[..|b| - 1]);
      assert (a + b)[..|a + b| - 1] == a + b[..|b| - 1];
    }
  }

  // ----- Repeats -----

  lemma EnsureTwice(s: Store, b: Buyer)
    requires b in s.accounts
    ensures Ensure(s, b) == s
  {
    assert s.accounts[b := s.accounts[b]] == s.accounts;
  }

  /** Delivering order.paid again changes nothing. */
  lemma AwardTwice(s: Store, cfg: Config, b: Buyer, order: nat, paidSubtotal: int, now: Time, later: Time)
    ensures var s' := AwardEarn(s, cfg, b, order, paidSubtotal, now).0;
            AwardEarn(s', cfg, b, order, paidSubtotal, later).0 == s'
  {
    var s' := AwardEarn(s, cfg, b, order, paidSubtotal, now).0;
    var amount := ComputeEarnAmount(paidSubtotal, cfg.earnRateBps);
    if amount > 0 {
      if Find(s.ledger, OrderPaid(order), Earn) == None {
        FindAppend(s.ledger, NextRow(s, b, Earn, amount, OrderPaid(order), ExpirationFor(cfg, now)), OrderPaid(order), Earn);
      }
      EnsureTwice(s', b);
    }
  }

  /** A commit's redeem row is found by every later commit of the same reservation. */
  lemma CommitLeavesRedeem(s: Store, cfg: Config, seen: Reservation, order: nat, paidSubtotal: int, now: Time)
    requires seen.id < |s.reservations|
    requires Commit(s, cfg, seen, order, paidSubtotal, now).1.Ok?
    ensures var s' := Commit(s, cfg, seen, order, paidSubtotal, now).0;
            && Find(s'.ledger, ReservationCommit(seen.id), Redeem).Some?
            && seen.buyer in s'.accounts
  {
    if Find(s.ledger, ReservationCommit(seen.id), Redeem) == None {
      var row := NextRow(s, seen.buyer, Redeem, -seen.amount, ReservationCommit(seen.id), None);
      FindAppend(s.ledger, row, ReservationCommit(seen.id), Redeem);
      var s1 := Post(s.(reservations := SetStatus(s.reservations, seen.id, Committed)), seen.buyer, Redeem,
                     -seen.amount, ReservationCommit(seen.id), None);
      var earn := NextRow(s1, seen.buyer, Earn, ComputeEarnAmount(paidSubtotal, cfg.earnRateBps),
                          OrderPaid(order), ExpirationFor(cfg, now));
      FindAppend(s1.ledger, earn, ReservationCommit(seen.id), Redeem);
    }
  }

  /** Repeating a commit changes nothing, and the replay reports the redeemed points with the
      opposite sign of the first reply. */
  lemma CommitTwice(s: Store, cfg: Config, seen: Reservation, order: nat, paidSubtotal: int, now: Time, later: Time)
    requires Inv(s) && SeenOk(s.reservations, seen)
    ensures var (s', reply) := Commit(s, cfg, seen, order, paidSubtotal, now);
            var (s'', replay) := Commit(s', cfg, seen, order, paidSubtotal, later);
            && s'' == s'
            && (reply.Ok? && !reply.value.alreadyCommitted ==>
                  replay.Ok? && replay.value.alreadyCommitted && replay.value.redeemed == -reply.value.redeemed)
  {
    var (s', reply) := Commit(s, cfg, seen, order, paidSubtotal, now);
    if reply.Ok? {
      CommitLeavesRedeem(s, cfg, seen, order, paidSubtotal, now);
      EnsureTwice(s', seen.buyer);
      CommitKeepsInv(s, cfg, seen, order, paidSubtotal, now);
      var row := Find(s'.ledger, ReservationCommit(seen.id), Redeem).value;
      var i :| 0 <= i < |s'.ledger| && s'.ledger[i] == row;
      assert SourceOk(s'.reservations, s'.ledger[i]);
    }
  }

  /** An immediately repeated cancellation changes nothing. */
  lemma CancelTwice(s: Store, b: Buyer, order: nat, pointDiscount: int, pointsEarned: int)
    ensures var s' := Cancel(s, b, order, pointDiscount, pointsEarned).0;
            Cancel(s', b, order, pointDiscount, pointsEarned).0 == s'
  {
    var (s', reply) := Cancel(s, b, order, pointDiscount, pointsEarned);
    if reply.Ok? && (pointDiscount != 0 || pointsEarned != 0) {
      CancelLeavesRows(s, b, order, pointDiscount, pointsEarned, s');
      EnsureTwice(s', b);
    }
  }

  /** After a cancellation either the refund row is there or none is due, and likewise the
      reversal row, unless there was nothing left to take back. */
  lemma CancelLeavesRows(s: Store, b: Buyer, order: nat, pointDiscount: int, pointsEarned: int, s': Store)
    requires Cancel(s, b, order, pointDiscount, pointsEarned).1.Ok? && (pointDiscount != 0 || pointsEarned != 0)
    requires s' == Cancel(s, b, order, pointDiscount, pointsEarned).0
    ensures b in s'.accounts && Acct(s', b).pending <= Acct(s', b).balance
    ensures pointDiscount == 0 || Find(s'.ledger, OrderCancelled(order), Refund).Some?
    ensures Find(s'.ledger, OrderCancelled(order), ReverseEarn).Some? || Min(pointsEarned, Acct(s', b).balance) <= 0
  {
    var source := OrderCancelled(order);
    var s1 := AfterRefund(s, b, order, pointDiscount);
    var refund := NextRow(s, b, Refund, pointDiscount, source, None);
    FindAppend(s.ledger, refund, source, Refund);
    FindAppend(s.ledger, refund, source, ReverseEarn);
    var reversal := NextRow(s1, b, ReverseEarn, -Min(pointsEarned, Acct(s1, b).balance), source, None);
    FindAppend(s1.ledger, reversal, source, ReverseEarn);
    FindAppend(s1.ledger, reversal, source, Refund);
  }

  // ----- Where the code does less than its comments say -----

  /** A cancellation is refused by the table's CHECK exactly when the earn it takes back would
      eat into points another checkout holds; the refund half is rolled back with it. */
  lemma CancelAborts(s: Store, b: Buyer, order: nat, pointDiscount: nat, pointsEarned: nat)
    requires Inv(s)
    ensures var refund := if Find(s.ledger, OrderCancelled(order), Refund) == None then pointDiscount else 0;
            var (s', reply) := Cancel(s, b, order, pointDiscount, pointsEarned);
            && (reply == Err(Internal) <==>
                  && Find(s.ledger, OrderCancelled(order), ReverseEarn) == None
                  && pointsEarned > Acct(s, b).Spendable() + refund
                  && Acct(s, b).pending > 0)
            && (reply.Err? ==> s' == s && reply == Err(Internal))
  {
    AccountBounds(s, b);
  }

  /** When a redelivered order.cancelled leaves the ledger as it is. A reversal that was cut to
      zero wrote no row, so the third case is the only thing that stops it. */
  lemma RedeliveryInert(s: Store, b: Buyer, order: nat, pointDiscount: nat, pointsEarned: nat)
    requires Inv(s)
    requires Cancel(s, b, order, pointDiscount, pointsEarned).1.Ok?
    ensures Cancel(s, b, order, pointDiscount, pointsEarned).0.ledger == s.ledger <==>
              && (pointDiscount == 0 || Find(s.ledger, OrderCancelled(order), Refund).Some?)
              && (pointsEarned == 0 || Find(s.ledger, OrderCancelled(order), ReverseEarn).Some? || Acct(s, b).balance == 0)
  {
    AccountBounds(s, b);
    if pointDiscount > 0 && Find(s.ledger, OrderCancelled(order), Refund) == None {
      assert |Cancel(s, b, order, pointDiscount, pointsEarned).0.ledger| > |s.ledger|;
    }
  }

  /** Such a redelivery can still act: the order's earn was spent when it was first cancelled,
      a later adjustment is what the redelivery takes away. */
  lemma ZeroReversalActsLater()
    ensures var s1 := Cancel(EMPTY, 0, 7, 0, 10).0;
            var s2 := AdjustBy(s1, 0, 10).0;
            s1.ledger == [] && Acct(s2, 0).balance == 10 && Acct(Cancel(s2, 0, 7, 0, 10).0, 0).balance == 0
  {
  }

  // ----- Expiration -----

  /** The candidate query asks exactly whether a bucket is due. */
  lemma CandidateMeaning(s: Store, b: Buyer, now: Time)
    requires Inv(s)
    ensures Candidate(s.ledger, b, now) <==>
              exists i :: 0 <= i < |Rebuild(Of(s.ledger, b))| && Due(Rebuild(Of(s.ledger, b))[i], now)
  {
    var rows := Of(s.ledger, b);
    var bs := Rebuild(rows);
    assert Refined(s, b);
    OfFacts(s.ledger, b);
    ReplayableFacts(rows);
    if Candidate(s.ledger, b, now) {
      var e :| e in s.ledger && e.buyer == b && e.kind == Earn && e.expiresAt.Some? && e.expiresAt.value < now
               && Find(s.ledger, ExpirationJob(e.id), Expire) == None;
      var i :| 0 <= i < |bs| && bs[i].earn == e.id;
      EarnOfBucket(s, b, i, e);
      assert Due(bs[i], now);
    }
    if i :| 0 <= i < |bs| && Due(bs[i], now) {
      assert BucketOk(rows, bs[i]);
      var e :| e in rows && e.kind == Earn && e.id == bs[i].earn && e.expiresAt == bs[i].expiresAt && e.amount == bs[i].original;
      EarnOfBucket(s, b, i, e);
    }
  }

  lemma EarnOfBucket(s: Store, b: Buyer, i: nat, e: Row)
    requires Inv(s) && i < |Rebuild(Of(s.ledger, b))|
    requires e in s.ledger && e.buyer == b && e.kind == Earn && e.id == Rebuild(Of(s.ledger, b))[i].earn
    ensures e.expiresAt == Rebuild(Of(s.ledger, b))[i].expiresAt
    ensures Rebuild(Of(s.ledger, b))[i].marked <==> Find(s.ledger, ExpirationJob(e.id), Expire).Some?
  {
    var rows := Of(s.ledger, b);
    var bucket := Rebuild(rows)[i];
    assert Refined(s, b);
    OfFacts(s.ledger, b);
    ReplayableFacts(rows);
    assert BucketOk(rows, bucket);
    var e' :| e' in rows && e'.kind == Earn && e'.id == bucket.earn && e'.expiresAt == bucket.expiresAt && e'.amount == bucket.original;
    assert e == s.ledger[e.id] == e';
    var row := Find(s.ledger, ExpirationJob(e.id), Expire);
    if row.Some? {
      ExpireRowMarks(s, b, i, row.value);
    }
  }

  /** No debit of this ledger ever overran the buckets present at its time. */
  predicate NeverOverran(rows: seq<Row>) {
    forall k | 0 <= k < |rows| :: !Overruns(rows, k)
  }

  lemma GateOfBuyer(s: Store, b: Buyer)
    requires Inv(s)
    ensures GateAccepts(Rebuild(Of(s.ledger, b)), Of(s.ledger, b), Acct(s, b).balance) <==> NeverOverran(Of(s.ledger, b))
  {
    assert Refined(s, b);
    GateMeaning(Of(s.ledger, b));
  }

  lemma ExpireOutcome(s: Store, b: Buyer, now: Time)
    requires 0 <= Acct(s, b).pending <= Acct(s, b).balance
    ensures ExpirePoints(s, b, now).1.Ok? <==>
              && GateAccepts(Rebuild(Of(s.ledger, b)), Of(s.ledger, b), Acct(s, b).balance)
              && DueTotal(Rebuild(Of(s.ledger, b)), now) <= Acct(s, b).Spendable()
  {
  }

  /** The pass over a buyer of a reachable database: it succeeds exactly when no debit ever
      overran the buckets of its time and the due points are not held by a checkout. */
  lemma ExpireSucceeds(s: Store, b: Buyer, now: Time)
    requires Inv(s)
    ensures ExpirePoints(s, b, now).1.Ok? <==>
              && NeverOverran(Of(s.ledger, b))
              && DueTotal(Rebuild(Of(s.ledger, b)), now) <= Acct(s, b).Spendable()
  {
    AccountBounds(s, b);
    ExpireOutcome(s, b, now);
    GateOfBuyer(s, b);
  }

  /** After a successful pass: the replay of the new ledger is the old buckets with the due ones
      emptied and marked, the balance fell by exactly their points and covers every hold, the
      candidate query no longer returns the buyer, and a second pass at the same time writes
      nothing and changes nothing. */
  lemma ExpireSettles(s: Store, b: Buyer, now: Time)
    requires Inv(s) && ExpirePoints(s, b, now).1.Ok?
    ensures var s' := ExpirePoints(s, b, now).0;
            && Rebuild(Of(s'.ledger, b)) == Settle(Rebuild(Of(s.ledger, b)), now)
            && Acct(s', b).balance == Acct(s, b).balance - DueTotal(Rebuild(Of(s.ledger, b)), now)
            && 0 <= Acct(s', b).pending <= Acct(s', b).balance
            && !Candidate(s'.ledger, b, now)
            && ExpirePoints(s', b, now) == (s', Ok(0))
  {
    var s' := ExpirePoints(s, b, now).0;
    ExpireReplay(s, b, now);
    ExpirePointsKeepsInv(s, b, now);
    AccountBounds(s', b);
    CandidateMeaning(s', b, now);
    NothingDueAfterSettle(Rebuild(Of(s.ledger, b)), now, b, |s'.ledger|, Acct(s', b).balance);
    assert s'.ledger + [] == s'.ledger;
    EnsureTwice(s', b);
  }

  lemma ExpireReplay(s: Store, b: Buyer, now: Time)
    requires Inv(s) && ExpirePoints(s, b, now).1.Ok?
    ensures var s' := ExpirePoints(s, b, now).0;
            && Rebuild(Of(s'.ledger, b)) == Settle(Rebuild(Of(s.ledger, b)), now)
            && GateAccepts(Rebuild(Of(s'.ledger, b)), Of(s'.ledger, b), Acct(s', b).balance)
            && b in s'.accounts
  {
    var rows := Of(s.ledger, b);
    var written := ExpireRows(Rebuild(rows), now, b, |s.ledger|, Acct(s, b).balance);
    assert Refined(s, b);
    OfFacts(s.ledger, b);
    ExpireRowsTotal(Rebuild(rows), now, b, |s.ledger|, Acct(s, b).balance);
    OfSplit(s.ledger, written, b);
    ReplayCommutesWithExpiry(rows, now, b, |s.ledger|, Acct(s, b).balance, 0, 0);
    ExpiryPassConserves(rows, now, b, |s.ledger|);
  }

  /** Along every run the points that debits overran only grow, so a buyer the gate refuses
      once is refused by every later pass. */
  lemma RefusedBuyerStaysRefused(s: Store, s': Store, b: Buyer)
    requires Inv(s) && Inv(s') && Of(s.ledger, b) <= Of(s'.ledger, b)
    requires !GateAccepts(Rebuild(Of(s.ledger, b)), Of(s.ledger, b), Acct(s, b).balance)
    ensures forall now :: ExpirePoints(s', b, now) == (s', Err(Internal))
  {
    assert Refined(s, b) && Refined(s', b);
    RefusedForever(Of(s.ledger, b), Of(s'.ledger, b));
  }

  /** The ledger is append-only along every run. */
  lemma StepAppends(y: System, cfg: Config, op: Op)
    ensures y.store.ledger <= Step(y, cfg, op).store.ledger
  {
    var s := y.store;
    match op
    case OpAward(b, order, paidSubtotal, now) => AwardAppends(s, cfg, b, order, paidSubtotal, now);
    case OpReserve(b, amount, now) => ReserveAppends(s, cfg, b, amount, now);
    case OpRead(_, _) =>
    case OpCommit(h, order, paidSubtotal, now) =>
      if h in y.seen && y.seen[h].id < |s.reservations| {
        CommitAppends(s, cfg, y.seen[h], order, paidSubtotal, now);
      }
    case OpRelease(h) =>
    case OpCancel(b, order, pointDiscount, pointsEarned) => CancelAppends(s, b, order, pointDiscount, pointsEarned);
    case OpAdjust(b, amount) => AdjustAppends(s, b, amount);
    case OpExpireHolds(ids, now) =>
      if Claimable(s.reservations, ids, now, BATCH_SIZE) {
        ExpireHoldsLedger(s, ids);
      }
    case OpExpirePoints(b, now) => ExpireAppends(s, b, now);
  }

  lemma ReserveAppends(s: Store, cfg: Config, b: Buyer, amount: int, now: Time)
    ensures s.ledger == Reserve(s, cfg, b, amount, now).0.ledger
  {
  }

  lemma AdjustAppends(s: Store, b: Buyer, amount: int)
    ensures s.ledger <= AdjustBy(s, b, amount).0.ledger
  {
  }

  lemma ExpireAppends(s: Store, b: Buyer, now: Time)
    ensures s.ledger <= ExpirePoints(s, b, now).0.ledger
  {
  }

  lemma AwardAppends(s: Store, cfg: Config, b: Buyer, order: nat, paidSubtotal: int, now: Time)
    ensures s.ledger <= AwardEarn(s, cfg, b, order, paidSubtotal, now).0.ledger
  {
  }

  lemma CommitAppends(s: Store, cfg: Config, seen: Reservation, order: nat, paidSubtotal: int, now: Time)
    requires seen.id < |s.reservations|
    ensures s.ledger <= Commit(s, cfg, seen, order, paidSubtotal, now).0.ledger
  {
  }

  lemma CancelAppends(s: Store, b: Buyer, order: nat, pointDiscount: int, pointsEarned: int)
    ensures s.ledger <= Cancel(s, b, order, pointDiscount, pointsEarned).0.ledger
  {
    assert s.ledger <= AfterRefund(s, b, order, pointDiscount).ledger;
  }

  lemma {:induction false} OfPrefix(ledger: seq<Row>, later: seq<Row>, b: Buyer)
    requires ledger <= later
    ensures Of(ledger, b) <= Of(later, b)
  {
    if |ledger| < |later| {
      OfPrefix(ledger, later[..|later| - 1], b);
    } else {
      assert ledger == later;
    }
  }

  lemma {:induction false} RunAppends(y: System, cfg: Config, ops: seq<Op>)
    ensures y.store.ledger <= Run(y, cfg, ops).store.ledger
  {
    if ops != [] {
      RunAppends(y, cfg, ops[..|ops| - 1]);
      StepAppends(Run(y, cfg, ops[..|ops| - 1]), cfg, ops[|ops| - 1]);
    }
  }

  /** Over whole runs: once some pass over b would be refused by the gate, every pass over b
      after any further operations is refused too. */
  lemma RefusalIsPermanent(cfg: Config, before: seq<Op>, after: seq<Op>, b: Buyer)
    requires var s := Run(START, cfg, before).store;
             !GateAccepts(Rebuild(Of(s.ledger, b)), Of(s.ledger, b), Acct(s, b).balance)
    ensures forall now :: ExpirePoints(Run(START, cfg, before + after).store, b, now).1 == Err(Internal)
  {
    var s := Reachable(cfg, before);
    var s' := Reachable(cfg, before + after);
    RunSplit(START, cfg, before, after);
    RunAppends(Run(START, cfg, before), cfg, after);
    OfPrefix(s.ledger, s'.ledger, b);
    RefusedBuyerStaysRefused(s, s', b);
  }

  /** It takes two ordinary steps to get there: points granted by an administrator, then spent. */
  lemma RefusedExample(cfg: Config)
    ensures var s1 := AdjustBy(EMPTY, 0, 100).0;
            var s2 := Reserve(s1, cfg, 0, 50, 0).0;
            && |s2.reservations| == 1
            && var s3 := Commit(s2, cfg, s2.reservations[0], 7, 0, 0).0;
            && Acct(s3, 0).balance == 50
            && !GateAccepts(Rebuild(Of(s3.ledger, 0)), Of(s3.ledger, 0), Acct(s3, 0).balance)
  {
    var s1 := AdjustBy(EMPTY, 0, 100).0;
    var s2 := Reserve(s1, cfg, 0, 50, 0).0;
    var s3 := Commit(s2, cfg, s2.reservations[0], 7, 0, 0).0;
    var adjust := Row(0, 0, Adjust, 100, 100, AdminAdjust(0), None);
    var redeem := Row(1, 0, Redeem, -50, 50, ReservationCommit(0), None);
    assert s3.ledger == [adjust, redeem];
    assert [adjust, redeem][..1] == [adjust];
    assert Of([adjust], 0) == [adjust];
    assert Of([adjust, redeem], 0) == [adjust, redeem];
    assert Rebuild([adjust]) == [];
    assert Rebuild([adjust, redeem]) == [];
    assert Credits([adjust]) == 100;
    assert Credits([adjust, redeem]) == 100;
  }
}
