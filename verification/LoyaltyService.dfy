/** The loyalty service over its three tables, step by step as it writes them.
    Every method is proved equal to the operation of LoyaltySpec; on the way the proofs show
    which store failures cannot happen while the account lock is held. */
module LoyaltyServices {
  import opened Common
  import opened LoyaltyDomain
  import opened EarnBuckets
  import opened BucketGate
  import opened ExpiryPass
  import opened BucketLoops
  import opened LoyaltySpec
  import opened LoyaltyProofs

  datatype DeltaOutcome = Applied | VersionConflict | CheckViolated

  /** Locking first does not change what posting does. */
  lemma PostAfterEnsure(s: Store, b: Buyer, kind: Kind, amount: int, source: Source, expiresAt: Option<Time>)
    ensures Post(Ensure(s, b), b, kind, amount, source, expiresAt) == Post(s, b, kind, amount, source, expiresAt)
  {
    var a := Bump(Acct(s, b), kind, amount);
    assert s.accounts[b := Acct(s, b)][b := a] == s.accounts[b := a];
  }

  lemma EnsurePresent(s: Store, b: Buyer)
    ensures b in s.accounts ==> Ensure(s, b) == s
    ensures Ensure(Ensure(s, b), b) == Ensure(s, b)
  {
    if b in s.accounts {
      assert s.accounts[b := s.accounts[b]] == s.accounts;
    }
    assert s.accounts[b := Acct(s, b)][b := Acct(s, b)] == s.accounts[b := Acct(s, b)];
  }

  lemma RefundAfterEnsure(s: Store, b: Buyer, order: nat, pointDiscount: nat)
    ensures AfterRefund(Ensure(s, b), b, order, pointDiscount) == AfterRefund(s, b, order, pointDiscount)
  {
    PostAfterEnsure(s, b, Refund, pointDiscount, OrderCancelled(order), None);
    EnsurePresent(s, b);
  }

  lemma MapTwice(m: map<Buyer, Account>, b: Buyer, x: Account, y: Account)
    ensures m[b := x][b := y] == m[b := y]
  {
  }

  class LoyaltyService {
    var accounts: map<Buyer, Account>
    var ledger: seq<Row>
    var reservations: seq<Reservation>
    const cfg: Config

    constructor (earnRateBps: int, reservationTTL: int, earnExpiration: int)
      ensures Db() == EMPTY && Inv(Db())
      ensures cfg == Config(earnRateBps, earnExpiration, if reservationTTL <= 0 then 30 * 60 else reservationTTL)
    {
      var ttl := reservationTTL;
      if ttl <= 0 {
        ttl := 30 * 60;
      }
      accounts, ledger, reservations := map[], [], [];
      cfg := Config(earnRateBps, earnExpiration, ttl);
    }

    function Db(): Store
      reads this
    {
      Store(accounts, ledger, reservations)
    }

    // ----- Stores -----

    /** Upserts the account row, holds its lock and returns the snapshot. */
    method LockForUpdate(b: Buyer) returns (acct: Account)
      modifies `accounts
      ensures Db() == Ensure(old(Db()), b) && acct == Acct(old(Db()), b) == Acct(Db(), b) && b in accounts
    {
      if b !in accounts {
        accounts := accounts[b := ZERO_ACCOUNT];
      }
      acct := accounts[b];
      assert accounts == old(accounts)[b := acct];
    }

    /** Adjusts the counters when the version is the expected one and the table's CHECKs hold. */
    method ApplyDelta(b: Buyer, balance: int, pending: int, earned: int, redeemed: int, expectedVersion: nat)
      returns (r: DeltaOutcome)
      modifies `accounts
      ensures r == VersionConflict <==> b !in old(accounts) || old(accounts)[b].version != expectedVersion
      ensures r != Applied ==> accounts == old(accounts)
      ensures r != VersionConflict ==>
                var a := old(accounts)[b];
                var a' := Account(a.balance + balance, a.pending + pending, a.earned + earned, a.redeemed + redeemed, a.version + 1);
                if 0 <= a'.pending <= a'.balance then r == Applied && accounts == old(accounts)[b := a'] else r == CheckViolated
    {
      if b !in accounts || accounts[b].version != expectedVersion {
        return VersionConflict;
      }
      var a := accounts[b];
      a := Account(a.balance + balance, a.pending + pending, a.earned + earned, a.redeemed + redeemed, a.version + 1);
      if a.balance < 0 || a.pending < 0 || a.pending > a.balance {
        return CheckViolated;
      }
      accounts := accounts[b := a];
      return Applied;
    }

    /** Appends a ledger row unless its idempotency key is taken. */
    method Insert(row: Row) returns (ok: bool)
      modifies `ledger
      ensures ok == (Find(old(ledger), row.source, row.kind) == None)
      ensures ledger == if ok then old(ledger) + [row] else old(ledger)
    {
      ok := Find(ledger, row.source, row.kind) == None;
      if ok {
        ledger := ledger + [row];
      }
    }

    /** Compare-and-set on a reservation's status. */
    method UpdateStatus(id: nat, from: Status, to: Status) returns (ok: bool)
      modifies `reservations
      ensures ok == (id < |old(reservations)| && old(reservations)[id].status == from)
      ensures reservations == if ok then SetStatus(old(reservations), id, to) else old(reservations)
    {
      ok := id < |reservations| && reservations[id].status == from;
      if ok {
        reservations := reservations[id := reservations[id].(status := to)];
      }
    }

    method Rollback(s: Store)
      modifies this
      ensures Db() == s
    {
      accounts, ledger, reservations := s.accounts, s.ledger, s.reservations;
    }

    // ----- Use cases -----

    method AwardEarn(b: Buyer, order: nat, paidSubtotal: int, now: Time) returns (r: Result<Option<Row>>)
      requires Inv(Db())
      modifies this
      ensures (Db(), r) == LoyaltySpec.AwardEarn(old(Db()), cfg, b, order, paidSubtotal, now)
      ensures Inv(Db())
    {
      AwardKeepsInv(Db(), cfg, b, order, paidSubtotal, now);
      AccountBounds(Db(), b);
      var amount := ComputeEarnAmount(paidSubtotal, cfg.earnRateBps);
      if amount <= 0 {
        return Ok(None);
      }
      ghost var before := Db();
      var acct := LockForUpdate(b);
      var existing := Find(ledger, OrderPaid(order), Earn);
      if existing.Some? {
        return Ok(existing);
      }
      var newBalance := acct.balance + amount;
      var delta := ApplyDelta(b, amount, 0, amount, 0, acct.version);
      assert delta == Applied;
      var row := Row(|ledger|, b, Earn, amount, newBalance, OrderPaid(order), ExpirationFor(cfg, now));
      var inserted := Insert(row);
      assert inserted;
      assert accounts == before.accounts[b := accounts[b]];
      r := Ok(Some(row));
    }

    method ReservePoints(b: Buyer, amount: int, now: Time) returns (r: Result<Reservation>)
      requires Inv(Db())
      modifies this
      ensures (Db(), r) == LoyaltySpec.Reserve(old(Db()), cfg, b, amount, now)
      ensures Inv(Db())
    {
      ReserveKeepsInv(Db(), cfg, b, amount, now);
      AccountBounds(Db(), b);
      if amount <= 0 {
        return Err(InvalidAmount);
      }
      var before := Db();
      var acct := LockForUpdate(b);
      if acct.Spendable() < amount {
        Rollback(before);
        return Err(InsufficientPoints);
      }
      var delta := ApplyDelta(b, 0, amount, 0, 0, acct.version);
      assert delta == Applied;
      var v := Reservation(|reservations|, b, amount, Pending, now + cfg.reservationTTL);
      reservations := reservations + [v];
      assert accounts == before.accounts[b := accounts[b]];
      r := Ok(v);
    }

    /** The unlocked read with which commit and release begin. */
    method GetReservation(id: nat) returns (r: Result<Reservation>)
      requires Inv(Db())
      ensures r == if id < |reservations| then Ok(reservations[id]) else Err(ReservationNotFound)
      ensures r.Ok? ==> r.value.id == id && SeenOk(reservations, r.value)
    {
      if id >= |reservations| {
        return Err(ReservationNotFound);
      }
      assert ReservationOk(ledger, reservations, id);
      r := Ok(reservations[id]);
    }

    /** ApplyDelta followed by Insert, under the lock. The callers prove that the version they
        carry is the row's and that the key is free, so only the CHECK can stop it. */
    method Write(b: Buyer, balance: int, pending: int, earned: int, redeemed: int, version: nat, row: Row)
      returns (r: DeltaOutcome)
      requires b in accounts && accounts[b].version == version
      requires Find(ledger, row.source, row.kind) == None
      modifies `accounts, `ledger
      ensures var a := old(accounts)[b];
              var a' := Account(a.balance + balance, a.pending + pending, a.earned + earned, a.redeemed + redeemed, version + 1);
              if 0 <= a'.pending <= a'.balance
              then r == Applied && accounts == old(accounts)[b := a'] && ledger == old(ledger) + [row]
              else r == CheckViolated && accounts == old(accounts) && ledger == old(ledger)
    {
      r := ApplyDelta(b, balance, pending, earned, redeemed, version);
      if r == Applied {
        var inserted := Insert(row);
        assert inserted;
      }
    }

    /** The burn and the accrual of a commit, on a locked account. */
    method BurnAndAccrue(seen: Reservation, acct: Account, order: nat, paidSubtotal: int, now: Time) returns (r: CommitReply)
      requires seen.buyer in accounts && acct == accounts[seen.buyer]
      requires 0 < seen.amount <= acct.pending <= acct.balance
      requires Find(ledger, ReservationCommit(seen.id), Redeem) == None
      modifies `accounts, `ledger
      ensures var s1 := Post(old(Db()), seen.buyer, Redeem, -seen.amount, ReservationCommit(seen.id), None);
              var earn := ComputeEarnAmount(paidSubtotal, cfg.earnRateBps);
              var earned := Find(old(ledger), OrderPaid(order), Earn);
              var s2 := if earn > 0 && earned == None
                        then Post(s1, seen.buyer, Earn, earn, OrderPaid(order), ExpirationFor(cfg, now)) else s1;
              && Db() == s2
              && r == CommitReply(seen.amount, if earn <= 0 then 0 else if earned.Some? then earned.value.amount else earn,
                                  Acct(s2, seen.buyer).balance, false)
    {
      var b := seen.buyer;
      ghost var before := Db();
      var burnBalanceAfter := acct.balance - seen.amount;
      var redeemRow := Row(|ledger|, b, Redeem, -seen.amount, burnBalanceAfter, ReservationCommit(seen.id), None);
      var burn := Write(b, -seen.amount, -seen.amount, 0, seen.amount, acct.version, redeemRow);
      assert burn == Applied;
      FindAppend(before.ledger, redeemRow, OrderPaid(order), Earn);
      ghost var s1 := Post(before, b, Redeem, -seen.amount, ReservationCommit(seen.id), None);
      assert Db() == s1;
      var earned, balanceAfter := 0, burnBalanceAfter;
      var earnAmount := ComputeEarnAmount(paidSubtotal, cfg.earnRateBps);
      if earnAmount > 0 {
        var existingEarn := Find(ledger, OrderPaid(order), Earn);
        if existingEarn == None {
          balanceAfter := burnBalanceAfter + earnAmount;
          var earnRow := Row(|ledger|, b, Earn, earnAmount, balanceAfter, OrderPaid(order), ExpirationFor(cfg, now));
          var accrual := Write(b, earnAmount, 0, earnAmount, 0, acct.version + 1, earnRow);
          assert accrual == Applied;
          earned := earnAmount;
        } else {
          earned := existingEarn.value.amount;
        }
      }
      r := CommitReply(seen.amount, earned, balanceAfter, false);
    }

    /** A commit from the account lock on. Any number of other transactions may have run since
        `seen` was read; neither of its two deltas can meet a version conflict. */
    method CommitPointsReservation(seen: Reservation, order: nat, paidSubtotal: int, now: Time) returns (r: Result<CommitReply>)
      requires Inv(Db()) && SeenOk(reservations, seen)
      modifies this
      ensures (Db(), r) == LoyaltySpec.Commit(old(Db()), cfg, seen, order, paidSubtotal, now)
      ensures Inv(Db())
    {
      var b, before := seen.buyer, Db();
      CommitKeepsInv(before, cfg, seen, order, paidSubtotal, now);
      var acct := LockForUpdate(b);
      var existing := Find(ledger, ReservationCommit(seen.id), Redeem);
      if existing.Some? {
        var earnRow := Find(ledger, OrderPaid(order), Earn);
        return Ok(CommitReply(existing.value.amount, if earnRow.Some? then earnRow.value.amount else 0, acct.balance, true));
      }
      if seen.status != Pending {
        Rollback(before);
        return Err(AlreadyTerminal);
      }
      var ok := UpdateStatus(seen.id, Pending, Committed);
      if !ok {
        Rollback(before);
        return Err(AlreadyTerminal);
      }
      ReservationFacts(before, seen.id, Committed);
      var reply := BurnAndAccrue(seen, acct, order, paidSubtotal, now);
      PostAfterEnsure(before.(reservations := reservations), b, Redeem, -seen.amount, ReservationCommit(seen.id), None);
      r := Ok(reply);
    }

    /** A release from the status check on; the reply says whether this call released it. */
    method ReleasePointsReservation(seen: Reservation) returns (r: Result<bool>)
      requires Inv(Db()) && SeenOk(reservations, seen)
      modifies this
      ensures (Db(), r) == LoyaltySpec.Release(old(Db()), seen)
      ensures Inv(Db())
    {
      ReleaseKeepsInv(Db(), seen);
      if seen.status != Pending {
        return Ok(false);
      }
      ghost var before := Db();
      var acct := LockForUpdate(seen.buyer);
      var ok := UpdateStatus(seen.id, Pending, Released);
      if !ok {
        return Ok(false);
      }
      ReservationFacts(before, seen.id, Released);
      var delta := ApplyDelta(seen.buyer, 0, -seen.amount, 0, 0, acct.version);
      assert delta == Applied;
      assert accounts == before.accounts[seen.buyer := accounts[seen.buyer]];
      r := Ok(true);
    }

    /** The refund half, under the lock, on the running version and balance. */
    method RefundPoints(b: Buyer, order: nat, pointDiscount: nat, version: nat, balance: int)
      returns (refunded: int, version': nat, balance': int)
      requires b in accounts && accounts[b].version == version && accounts[b].balance == balance
      requires 0 <= accounts[b].pending <= accounts[b].balance
      modifies `accounts, `ledger
      ensures Db() == AfterRefund(old(Db()), b, order, pointDiscount)
      ensures b in accounts && accounts[b].version == version' && accounts[b].balance == balance' == balance + refunded
    {
      EnsurePresent(Db(), b);
      refunded, version', balance' := 0, version, balance;
      if pointDiscount > 0 {
        var existing := Find(ledger, OrderCancelled(order), Refund);
        if existing == None {
          balance' := balance + pointDiscount;
          var row := Row(|ledger|, b, Refund, pointDiscount, balance', OrderCancelled(order), None);
          var credit := Write(b, pointDiscount, 0, 0, 0, version, row);
          assert credit == Applied;
          version' := version + 1;
          refunded := pointDiscount;
        }
      }
    }

    /** The reversal half, capped at the running balance. */
    method ReverseEarned(b: Buyer, order: nat, pointsEarned: nat, version: nat, balance: int)
      returns (reversed: int, ok: bool)
      requires b in accounts && accounts[b].version == version && accounts[b].balance == balance
      requires 0 <= accounts[b].pending <= accounts[b].balance
      modifies `accounts, `ledger
      ensures var s2 := AfterReversal(old(Db()), b, order, pointsEarned);
              && ok == (Acct(s2, b).pending <= Acct(s2, b).balance)
              && (ok ==> Db() == s2 && Acct(s2, b).balance == balance - reversed)
    {
      if pointsEarned > 0 {
        var existing := Find(ledger, OrderCancelled(order), ReverseEarn);
        if existing == None {
          var reversal := pointsEarned;
          if reversal > balance {
            reversal := balance;
          }
          if reversal > 0 {
            var row := Row(|ledger|, b, ReverseEarn, -reversal, balance - reversal, OrderCancelled(order), None);
            var debit := Write(b, -reversal, 0, -reversal, 0, version, row);
            return reversal, debit != CheckViolated;
          }
        }
      }
      return 0, true;
    }

    /** The two rows of a cancellation under one lock, with one running version and balance. */
    method RefundAndReverse(b: Buyer, acct: Account, order: nat, pointDiscount: nat, pointsEarned: nat)
      returns (r: Option<CancelReply>)
      requires b in accounts && acct == accounts[b] && 0 <= acct.pending <= acct.balance
      modifies `accounts, `ledger
      ensures var s1 := AfterRefund(old(Db()), b, order, pointDiscount);
              var s2 := AfterReversal(s1, b, order, pointsEarned);
              if Acct(s2, b).pending > Acct(s2, b).balance then r == None
              else && Db() == s2
                   && r == Some(CancelReply(Acct(s1, b).balance - acct.balance, Acct(s1, b).balance - Acct(s2, b).balance, Acct(s2, b).balance))
    {
      ghost var before := Db();
      var refunded, version, running := RefundPoints(b, order, pointDiscount, acct.version, acct.balance);
      ghost var s1 := AfterRefund(before, b, order, pointDiscount);
      assert Acct(s1, b).pending == acct.pending;
      var reversed, ok := ReverseEarned(b, order, pointsEarned, version, running);
      r := if ok then Some(CancelReply(refunded, reversed, running - reversed)) else None;
    }

    /** The only store failure left to a cancellation is the table's CHECK. */
    method ApplyCancellation(b: Buyer, order: nat, pointDiscount: int, pointsEarned: int) returns (r: Result<CancelReply>)
      requires Inv(Db())
      modifies this
      ensures (Db(), r) == LoyaltySpec.Cancel(old(Db()), b, order, pointDiscount, pointsEarned)
      ensures Inv(Db())
    {
      var before := Db();
      CancelKeepsInv(before, b, order, pointDiscount, pointsEarned);
      if pointDiscount < 0 || pointsEarned < 0 {
        return Err(BadRequest);
      }
      if pointDiscount == 0 && pointsEarned == 0 {
        return Ok(CancelReply(0, 0, 0));
      }
      AccountBounds(before, b);
      RefundKeepsInv(before, b, order, pointDiscount);
      var acct := LockForUpdate(b);
      var reply := RefundAndReverse(b, acct, order, pointDiscount, pointsEarned);
      RefundAfterEnsure(before, b, order, pointDiscount);
      CancelHalves(before, b, order, pointDiscount, pointsEarned);
      if reply == None {
        Rollback(before);
        return Err(Internal);
      }
      r := Ok(reply.value);
    }

    method AdjustPoints(b: Buyer, amount: int) returns (r: Result<Row>)
      requires Inv(Db())
      modifies this
      ensures (Db(), r) == LoyaltySpec.AdjustBy(old(Db()), b, amount)
      ensures Inv(Db())
    {
      AdjustKeepsInv(Db(), b, amount);
      AccountBounds(Db(), b);
      AdjustKeyFresh(Db());
      if amount == 0 {
        return Err(InvalidAmount);
      }
      var before := Db();
      var acct := LockForUpdate(b);
      if amount < 0 && acct.Spendable() + amount < 0 {
        Rollback(before);
        return Err(InsufficientPoints);
      }
      var newBalance := acct.balance + amount;
      var delta := ApplyDelta(b, amount, 0, 0, 0, acct.version);
      assert delta == Applied;
      var row := Row(|ledger|, b, Adjust, amount, newBalance, AdminAdjust(|ledger|), None);
      var inserted := Insert(row);
      assert inserted;
      assert accounts == before.accounts[b := accounts[b]];
      r := Ok(row);
    }

    /** Flips the picked rows, which the claim query chose among the stale pending ones. */
    method ClaimExpired(picked: seq<nat>, now: Time)
      requires Inv(Db()) && Claimable(reservations, picked, now, BATCH_SIZE)
      modifies `reservations
      ensures reservations == ExpireHolds(old(Db()), picked).reservations
    {
      ghost var before := Db();
      for k := 0 to |picked|
        invariant |reservations| == |before.reservations|
        invariant reservations == ExpireHolds(before, picked[..k]).reservations
      {
        assert picked[..k + 1][..k] == picked[..k];
        reservations := reservations[picked[k] := reservations[picked[k]].(status := Expired)];
      }
      assert picked[..|picked|] == picked;
    }

    /** The delta of one claimed row; it meets neither a version conflict nor the CHECKs. */
    method ReturnHold(r: Reservation)
      requires 0 <= Acct(Db(), r.buyer).pending - r.amount <= Acct(Db(), r.buyer).balance
      modifies `accounts
      ensures var a := Acct(old(Db()), r.buyer);
              accounts == old(accounts)[r.buyer := a.(pending := a.pending - r.amount, version := a.version + 1)]
    {
      ghost var was := accounts;
      var acct := LockForUpdate(r.buyer);
      var delta := ApplyDelta(r.buyer, 0, -r.amount, 0, 0, acct.version);
      assert delta == Applied;
      MapTwice(was, r.buyer, acct, accounts[r.buyer]);
    }

    /** The reaper's batch: statuses first, then one delta per claimed row. Several rows of one
        buyer each find the version their predecessor left. */
    method ExpireStaleReservations(picked: seq<nat>, now: Time) returns (affected: nat)
      requires Inv(Db()) && Claimable(reservations, picked, now, BATCH_SIZE)
      modifies this
      ensures Db() == ExpireHolds(old(Db()), picked) && affected == |picked|
      ensures Inv(Db())
    {
      ghost var before := Db();
      ClaimExpired(picked, now);
      for k := 0 to |picked|
        invariant accounts == ExpireHolds(before, picked[..k]).accounts && ledger == before.ledger
        invariant reservations == ExpireHolds(before, picked).reservations
      {
        ghost var held, a := BatchStep(before, picked, k, now);
        assert Acct(Db(), held.buyer) == a;
        ReturnHold(reservations[picked[k]]);
      }
      assert picked[..|picked|] == picked;
      ExpireHoldsKeepsInv(before, picked, now);
      ExpireHoldsLedger(before, picked);
      affected := |picked|;
    }

    /** One buyer's pass: lock, replay, check, write one row per due bucket, apply one delta.
        No insert meets a duplicate key and the delta meets no version conflict. */
    method ExpirePointsForBuyer(b: Buyer, now: Time) returns (r: Result<nat>)
      requires Inv(Db())
      modifies this
      ensures (Db(), r) == LoyaltySpec.ExpirePoints(old(Db()), b, now)
      ensures Inv(Db())
    {
      var before := Db();
      ExpirePointsKeepsInv(before, b, now);
      EnsureKeepsInv(before, b);
      var acct := LockForUpdate(b);
      var txns := Of(ledger, b);
      OfFacts(ledger, b);
      var buckets, n := RebuildEarnBuckets(txns);
      var consistent := VerifyBucketInvariant(buckets, n, txns, acct.balance);
      if !consistent {
        Rollback(before);
        return Err(Internal);
      }
      ExpireKeepsLedgerOk(before, b, now, ExpireRows(buckets[..n], now, b, |ledger|, acct.balance));
      var writtenBuckets, totalExpired := WriteExpireRows(b, buckets, n, acct.balance, now);
      ghost var written := ExpireRows(buckets[..n], now, b, |before.ledger|, acct.balance);
      ghost var goal := ExpirePointsCases(before, b, now, acct, totalExpired, written);
      AccountBounds(before, b);
      if totalExpired == 0 {
        return Ok(writtenBuckets);
      }
      var ok := ApplyExpired(b, acct, totalExpired);
      if !ok {
        Rollback(before);
        return Err(Internal);
      }
      ghost var settled := acct.(balance := acct.balance - totalExpired, version := acct.version + 1);
      MapTwice(before.accounts, b, acct, settled);
      r := Ok(writtenBuckets);
    }

    /** The one delta of a pass; the table's CHECK refuses it when checkouts hold too much. */
    method ApplyExpired(b: Buyer, acct: Account, totalExpired: int) returns (ok: bool)
      requires b in accounts && acct == accounts[b] && 0 <= acct.pending
      modifies `accounts
      ensures ok == (acct.pending <= acct.balance - totalExpired)
      ensures accounts == if ok then old(accounts)[b := acct.(balance := acct.balance - totalExpired, version := acct.version + 1)]
                          else old(accounts)
    {
      var delta := ApplyDelta(b, -totalExpired, 0, 0, 0, acct.version);
      ok := delta == Applied;
    }

    /** The loop over the buckets of a pass. */
    method WriteExpireRows(b: Buyer, buckets: array<Bucket>, n: nat, balance: int, now: Time)
      returns (writtenBuckets: nat, totalExpired: int)
      requires n <= buckets.Length
      requires UniqueKeys(ledger + ExpireRows(buckets[..n], now, b, |ledger|, balance))
      modifies `ledger
      ensures var written := ExpireRows(buckets[..n], now, b, |old(ledger)|, balance);
              ledger == old(ledger) + written && writtenBuckets == |written|
      ensures totalExpired == DueTotal(buckets[..n], now)
    {
      ghost var bs, before := buckets[..n], ledger;
      writtenBuckets, totalExpired := 0, 0;
      var runningBalance := balance;
      for i := 0 to n
        invariant ledger == before + ExpireRows(bs[..i], now, b, |before|, balance)
        invariant writtenBuckets == |ExpireRows(bs[..i], now, b, |before|, balance)|
        invariant totalExpired == DueTotal(bs[..i], now) && runningBalance == balance - totalExpired
      {
        ExpireRowsStep(bs, i, now, b, |before|, balance);
        var bucket := buckets[i];
        assert bucket == bs[i];
        if bucket.expiresAt == None || !(bucket.expiresAt.value < now) || bucket.marked {
          continue;
        }
        var expireAmount := bucket.remaining;
        runningBalance := runningBalance - expireAmount;
        var row := Row(|ledger|, b, Expire, -expireAmount, runningBalance, ExpirationJob(bucket.earn), None);
        NextExpireRow(bs, i, now, b, before, balance, row);
        var inserted := Insert(row);
        assert inserted;
        writtenBuckets := writtenBuckets + 1;
        totalExpired := totalExpired + expireAmount;
      }
      assert bs[..n] == bs;
    }
  }

  /** The amount of the k-th claimed row is still held when its turn comes. */
  lemma BatchBounds(s: Store, ids: seq<nat>, k: nat, now: Time)
    requires Inv(s) && k < |ids| && Claimable(s.reservations, ids, now, |ids|)
    ensures var mid, r := ExpireHolds(s, ids[..k]), s.reservations[ids[k]];
            && mid.reservations[ids[k]] == r
            && 0 <= Acct(mid, r.buyer).pending - r.amount <= Acct(mid, r.buyer).balance
  {
    var mid := ExpireHolds(s, ids[..k]);
    ExpireHoldsKeepsInv(s, ids[..k], now);
    assert ids[k] !in ids[..k];
    ReservationFacts(mid, ids[k], Expired);
  }

  /** What the k-th delta of the reaper's batch does. */
  lemma BatchStep(s: Store, ids: seq<nat>, k: nat, now: Time) returns (r: Reservation, a: Account)
    requires Inv(s) && k < |ids| && Claimable(s.reservations, ids, now, |ids|)
    ensures r == s.reservations[ids[k]] && ExpireHolds(s, ids).reservations[ids[k]] == r.(status := Expired)
    ensures a == Acct(ExpireHolds(s, ids[..k]), r.buyer) && 0 <= a.pending - r.amount <= a.balance
    ensures ExpireHolds(s, ids[..k + 1]).accounts ==
              ExpireHolds(s, ids[..k]).accounts[r.buyer := a.(pending := a.pending - r.amount, version := a.version + 1)]
  {
    var mid := ExpireHolds(s, ids[..k]);
    r := s.reservations[ids[k]];
    a := Acct(mid, r.buyer);
    BatchBounds(s, ids, k, now);
    BatchRow(s, ids, k, now);
    ExpireHoldsStep(s, ids, k);
  }

  lemma BatchRow(s: Store, ids: seq<nat>, k: nat, now: Time)
    requires Inv(s) && k < |ids| && Claimable(s.reservations, ids, now, |ids|)
    ensures ExpireHolds(s, ids).reservations[ids[k]] == s.reservations[ids[k]].(status := Expired)
  {
    ExpireHoldsKeepsInv(s, ids, now);
  }

  lemma ExpireHoldsStep(s: Store, ids: seq<nat>, k: nat)
    requires k < |ids| && forall i | 0 <= i < |ids| :: ids[i] < |s.reservations|
    ensures ExpireHolds(s, ids[..k + 1]) == Free(ExpireHolds(s, ids[..k]), ids[k], Expired)
  {
    assert ids[..k + 1][..k] == ids[..k];
  }

  lemma ExpirePointsCases(s: Store, b: Buyer, now: Time, a: Account, due: int, written: seq<Row>)
    returns (out: (Store, Result<nat>))
    requires var bs := Rebuild(Of(s.ledger, b));
             && a == Acct(s, b) && GateAccepts(bs, Of(s.ledger, b), a.balance)
             && due == DueTotal(bs, now) && written == ExpireRows(bs, now, b, |s.ledger|, a.balance)
    ensures out == ExpirePoints(s, b, now)
    ensures due == 0 ==> out == (Ensure(s, b).(ledger := s.ledger + written), Ok(|written|))
    ensures due != 0 && a.pending > a.balance - due ==> out == (s, Err(Internal))
    ensures due != 0 && a.pending <= a.balance - due ==>
              var settled := a.(balance := a.balance - due, version := a.version + 1);
              out == (Store(s.accounts[b := settled], s.ledger + written, s.reservations), Ok(|written|))
  {
    out := ExpirePoints(s, b, now);
  }

  lemma {:induction false} ExpireRowsPrefix(bs: seq<Bucket>, k: nat, now: Time, b: Buyer, id: nat, balance: int)
    requires k <= |bs|
    ensures ExpireRows(bs[..k], now, b, id, balance) <= ExpireRows(bs, now, b, id, balance)
    decreases |bs| - k
  {
    if k == |bs| {
      assert bs[..k] == bs;
    } else {
      ExpireRowsStep(bs, k, now, b, id, balance);
      ExpireRowsPrefix(bs, k + 1, now, b, id, balance);
    }
  }

  /** The next row of a pass meets no row of its key, and extends what was written so far. */
  lemma NextExpireRow(bs: seq<Bucket>, k: nat, now: Time, b: Buyer, before: seq<Row>, balance: int, row: Row)
    requires k < |bs| && Due(bs[k], now)
    requires UniqueKeys(before + ExpireRows(bs, now, b, |before|, balance))
    requires var soFar := ExpireRows(bs[..k], now, b, |before|, balance);
             row == Row(|before + soFar|, b, Expire, -bs[k].remaining,
                        balance - DueTotal(bs[..k], now) - bs[k].remaining, ExpirationJob(bs[k].earn), None)
    ensures var soFar := ExpireRows(bs[..k], now, b, |before|, balance);
            var next := ExpireRows(bs[..k + 1], now, b, |before|, balance);
            && Find(before + soFar, row.source, row.kind) == None
            && before + next == before + soFar + [row] && |next| == |soFar| + 1
  {
    var soFar := ExpireRows(bs[..k], now, b, |before|, balance);
    ExtendsByRow(bs, k, now, b, |before|, balance, row);
    PrefixKeyFresh(before, ExpireRows(bs, now, b, |before|, balance), soFar, row);
    assert before + (soFar + [row]) == before + soFar + [row];
  }

  lemma ExtendsByRow(bs: seq<Bucket>, k: nat, now: Time, b: Buyer, id: nat, balance: int, row: Row)
    requires k < |bs| && Due(bs[k], now)
    requires row == Row(id + |ExpireRows(bs[..k], now, b, id, balance)|, b, Expire, -bs[k].remaining,
                        balance - DueTotal(bs[..k], now) - bs[k].remaining, ExpirationJob(bs[k].earn), None)
    ensures ExpireRows(bs[..k + 1], now, b, id, balance) == ExpireRows(bs[..k], now, b, id, balance) + [row]
    ensures ExpireRows(bs[..k], now, b, id, balance) + [row] <= ExpireRows(bs, now, b, id, balance)
  {
    ExpireRowsStep(bs, k, now, b, id, balance);
    ExpireRowsPrefix(bs, k + 1, now, b, id, balance);
  }

  /** The key of the next row of a pass is not taken yet. */
  lemma PrefixKeyFresh(ledger: seq<Row>, written: seq<Row>, soFar: seq<Row>, row: Row)
    requires UniqueKeys(ledger + written) && soFar + [row] <= written
    ensures Find(ledger + soFar, row.source, row.kind) == None
  {
    var all := ledger + written;
    forall r | r in ledger + soFar
      ensures !SameKey(r, row)
    {
      var i :| 0 <= i < |ledger + soFar| && (ledger + soFar)[i] == r;
      assert (soFar + [row])[|soFar|] == row;
      assert i >= |ledger| ==> (soFar + [row])[i - |ledger|] == r;
      assert all[i] == r && all[|ledger + soFar|] == row;
    }
  }
}
