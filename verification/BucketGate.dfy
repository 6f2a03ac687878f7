/** What the consistency check of the expiration job means: bucket sums against the balance. */
module BucketGate {
  import opened Common
  import opened LoyaltyDomain
  import opened EarnBuckets

  /** What verifyBucketInvariant compares. */
  predicate GateAccepts(bs: seq<Bucket>, rows: seq<Row>, lockedBalance: int) {
    Remaining(bs) + Credits(rows) == lockedBalance
  }

  lemma {:induction false} RemainingAt(bs: seq<Bucket>, bs': seq<Bucket>, k: nat)
    requires k < |bs| == |bs'| && forall i | 0 <= i < |bs| && i != k :: bs'[i] == bs[i]
    ensures Remaining(bs') == Remaining(bs) - bs[k].remaining + bs'[k].remaining
  {
    var init, init' := bs[..|bs| - 1], bs'[..|bs| - 1];
    if k < |init| {
      RemainingAt(init, init', k);
    } else {
      assert init == init';
    }
  }

  lemma RebuildShape(rows: seq<Row>)
    requires Replayable(rows)
    ensures NonNegative(Rebuild(rows)) && Increasing(Rebuild(rows))
  {
    ReplayableFacts(rows);
    forall i | 0 <= i < |Rebuild(rows)|
      ensures 0 <= Rebuild(rows)[i].remaining
    {
      assert BucketOk(rows, Rebuild(rows)[i]);
    }
  }

  lemma ReplayBalance(bs: seq<Bucket>, rows: seq<Row>, r: Row)
    requires bs == Rebuild(rows) && RowFits(rows, r) && Increasing(bs)
    ensures Remaining(Replay(bs, r)) + Credit(r) - r.amount == Remaining(bs) + Overrun(bs, r)
    ensures 0 <= Overrun(bs, r)
  {
    if Debits(r) {
      DrainConserves(bs, -r.amount);
    } else if r.kind == Earn {
      ReplayEarnBalance(bs, r);
    } else if r.kind == Expire {
      var k :| 0 <= k < |bs| && Expires(bs[k], r);
      var bs' := ReplayExpireBalance(bs, r, k);
    }
  }

  lemma ReplayEarnBalance(bs: seq<Bucket>, r: Row)
    requires r.kind == Earn
    ensures Remaining(Replay(bs, r)) == Remaining(bs) + r.amount
  {
    assert Replay(bs, r)[..|bs|] == bs;
  }

  lemma ReplayExpireBalance(bs: seq<Bucket>, r: Row, k: nat) returns (bs': seq<Bucket>)
    requires r.kind == Expire && Increasing(bs) && k < |bs| && Expires(bs[k], r)
    ensures bs' == Replay(bs, r)
    ensures Remaining(bs') - r.amount == Remaining(bs)
  {
    bs' := Mark(bs, bs[k].earn, -r.amount);
    MarkBalance(bs, k, -r.amount);
  }

  lemma MarkAt(bs: seq<Bucket>, k: nat, amount: int) returns (bs': seq<Bucket>)
    requires k < |bs| && Increasing(bs) && bs[k].remaining == amount
    ensures bs' == Mark(bs, bs[k].earn, amount)
    ensures bs'[k].remaining == 0 && forall i | 0 <= i < |bs| && i != k :: bs'[i] == bs[i]
  {
    bs' := Mark(bs, bs[k].earn, amount);
  }

  lemma MarkBalance(bs: seq<Bucket>, k: nat, amount: int)
    requires k < |bs| && Increasing(bs) && bs[k].remaining == amount
    ensures Remaining(Mark(bs, bs[k].earn, amount)) == Remaining(bs) - amount
  {
    var bs' := MarkAt(bs, k, amount);
    RemainingAt(bs, bs', k);
  }

  /** Bucket points plus platform credits exceed the balance by exactly what debits overran. */
  lemma {:induction false} BalanceDecomposition(rows: seq<Row>)
    requires Replayable(rows)
    ensures Remaining(Rebuild(rows)) + Credits(rows) - Total(rows) == Lost(rows)
    ensures 0 <= Lost(rows) && 0 <= Credits(rows) && 0 <= Remaining(Rebuild(rows))
  {
    RebuildShape(rows);
    RemainingNonNegative(Rebuild(rows));
    if rows != [] {
      var init, last := rows[..|rows| - 1], rows[|rows| - 1];
      BalanceDecomposition(init);
      RebuildShape(init);
      ReplayBalance(Rebuild(init), init, last);
    }
  }

  lemma {:induction false} LostGrows(rows: seq<Row>, k: nat)
    requires Replayable(rows) && k <= |rows|
    ensures Replayable(rows[..k]) && Lost(rows[..k]) <= Lost(rows)
  {
    if k < |rows| {
      var init, last := rows[..|rows| - 1], rows[|rows| - 1];
      LostGrows(init, k);
      assert init[..k] == rows[..k];
      if Debits(last) {
        DrainConserves(Rebuild(init), -last.amount);
      }
    } else {
      assert rows[..k] == rows;
    }
  }

  /** A debit that the buckets present at its time could not cover. */
  predicate Overruns(rows: seq<Row>, k: nat)
    requires k < |rows|
  {
    Debits(rows[k]) && -rows[k].amount > Remaining(Rebuild(rows[..k]))
  }

  lemma OverrunMeaning(bs: seq<Bucket>, r: Row)
    requires NonNegative(bs)
    ensures 0 <= Overrun(bs, r) && (0 < Overrun(bs, r) <==> Debits(r) && -r.amount > Remaining(bs))
  {
    RemainingNonNegative(bs);
    LeftoverClosedForm(bs, -r.amount);
  }

  lemma {:induction false} LostMeaning(rows: seq<Row>)
    requires Replayable(rows)
    ensures Lost(rows) == 0 <==> forall k | 0 <= k < |rows| :: !Overruns(rows, k)
  {
    if rows != [] {
      var n := |rows| - 1;
      var init, last := rows[..n], rows[n];
      LostMeaning(init);
      BalanceDecomposition(init);
      RebuildShape(init);
      OverrunMeaning(Rebuild(init), last);
      forall k | 0 <= k < n
        ensures Overruns(rows, k) == Overruns(init, k)
      {
        assert rows[..k] == init[..k];
      }
      assert Lost(rows) == 0 <==> Lost(init) == 0 && !Overruns(rows, n);
    }
  }

  /** On a ledger the service wrote, the gate accepts the true balance exactly when no debit
      ever overran the buckets present at its time. */
  lemma GateMeaning(rows: seq<Row>)
    requires Replayable(rows)
    ensures GateAccepts(Rebuild(rows), rows, Total(rows)) <==> forall k | 0 <= k < |rows| :: !Overruns(rows, k)
  {
    BalanceDecomposition(rows);
    LostMeaning(rows);
  }

  /** A buyer the gate refused once is refused on every later ledger. */
  lemma RefusedForever(rows: seq<Row>, later: seq<Row>)
    requires Replayable(later) && rows <= later
    requires !GateAccepts(Rebuild(rows), rows, Total(rows))
    ensures !GateAccepts(Rebuild(later), later, Total(later))
  {
    assert rows == later[..|rows|];
    LostGrows(later, |rows|);
    BalanceDecomposition(rows);
    BalanceDecomposition(later);
  }
}
