/** One expiration pass: the rows it writes, and how the next replay reads them. */
module ExpiryPass {
  import opened Common
  import opened LoyaltyDomain
  import opened EarnBuckets
  import opened BucketGate

  predicate Due(b: Bucket, now: Time) {
    b.expiresAt.Some? && b.expiresAt.value < now && !b.marked
  }

  /** Points the pass takes out of these buckets. */
  function DueTotal(bs: seq<Bucket>, now: Time): int {
    if bs == [] then 0
    else
      var b := bs[|bs| - 1];
      DueTotal(bs[..|bs| - 1], now) + if Due(b, now) then b.remaining else 0
  }

  /** The rows the pass appends: one per due bucket, in bucket order, zero amounts included.
      `id` is the first free row id and `balance` the locked balance. */
  function ExpireRows(bs: seq<Bucket>, now: Time, buyer: Buyer, id: nat, balance: int): seq<Row> {
    if bs == [] then []
    else
      var init, b := bs[..|bs| - 1], bs[|bs| - 1];
      var rows := ExpireRows(init, now, buyer, id, balance);
      if Due(b, now) then
        rows + [Row(id + |rows|, buyer, Expire, -b.remaining,
                    balance - DueTotal(init, now) - b.remaining, ExpirationJob(b.earn), None)]
      else rows
  }

  /** The buckets the next replay should see after the pass. */
  function Settle(bs: seq<Bucket>, now: Time): (r: seq<Bucket>)
    ensures |r| == |bs|
  {
    seq(|bs|, i requires 0 <= i < |bs| => if Due(bs[i], now) then bs[i].(remaining := 0, marked := true) else bs[i])
  }

  ghost predicate IdsBelow(rows: seq<Row>, id: nat) {
    rows != [] ==> rows[|rows| - 1].id < id
  }

  lemma MarkSettles(out: seq<Row>, r: Row, k: nat, mid: seq<Bucket>, after: seq<Bucket>)
    requires Replayable(out) && mid == Rebuild(out) && r.kind == Expire
    requires k < |mid| == |after| && Expires(mid[k], r)
    requires after == mid[k := mid[k].(remaining := 0, marked := true)]
    requires IdsBelow(out, r.id)
    ensures Replayable(out + [r]) && Rebuild(out + [r]) == after
  {
    RebuildShape(out);
    assert (out + [r])[..|out|] == out;
    assert Mark(mid, r.source.earn, -r.amount) == after;
  }

  /** The state of the buckets after the pass has handled the first k of them. */
  function SettledUpTo(bs: seq<Bucket>, k: nat, now: Time): (r: seq<Bucket>)
    requires k <= |bs|
    ensures |r| == |bs|
  {
    Settle(bs[..k], now) + bs[k..]
  }

  lemma SettleStep(bs: seq<Bucket>, k: nat, now: Time)
    requires k < |bs|
    ensures var mid := SettledUpTo(bs, k, now);
            && mid[k] == bs[k]
            && SettledUpTo(bs, k + 1, now) == if Due(bs[k], now) then mid[k := bs[k].(remaining := 0, marked := true)] else mid
  {
    assert bs[..k + 1][..k] == bs[..k];
  }

  lemma ExpireRowsStep(bs: seq<Bucket>, k: nat, now: Time, buyer: Buyer, id: nat, balance: int)
    requires k < |bs|
    ensures var before := ExpireRows(bs[..k], now, buyer, id, balance);
            ExpireRows(bs[..k + 1], now, buyer, id, balance) ==
              if Due(bs[k], now) then
                before + [Row(id + |before|, buyer, Expire, -bs[k].remaining,
                              balance - DueTotal(bs[..k], now) - bs[k].remaining, ExpirationJob(bs[k].earn), None)]
              else before
    ensures DueTotal(bs[..k + 1], now) == DueTotal(bs[..k], now) + if Due(bs[k], now) then bs[k].remaining else 0
  {
    assert bs[..k + 1][..k] == bs[..k];
  }

  lemma ExpireRowsNext(bs: seq<Bucket>, k: nat, now: Time, buyer: Buyer, id: nat, balance: int)
    returns (before: seq<Row>, r: Row)
    requires k < |bs| && Due(bs[k], now)
    ensures before == ExpireRows(bs[..k], now, buyer, id, balance)
    ensures ExpireRows(bs[..k + 1], now, buyer, id, balance) == before + [r]
    ensures r.id == id + |before| && r.kind == Expire && r.source == ExpirationJob(bs[k].earn) && r.amount == -bs[k].remaining
    ensures r.balanceAfter == balance - DueTotal(bs[..k], now) + r.amount && DueTotal(bs[..k + 1], now) == DueTotal(bs[..k], now) - r.amount
  {
    ExpireRowsStep(bs, k, now, buyer, id, balance);
    before := ExpireRows(bs[..k], now, buyer, id, balance);
    r := Row(id + |before|, buyer, Expire, -bs[k].remaining,
             balance - DueTotal(bs[..k], now) - bs[k].remaining, ExpirationJob(bs[k].earn), None);
  }

  lemma ExpireOne(out: seq<Row>, r: Row, bs: seq<Bucket>, k: nat, now: Time)
    requires k < |bs| && Replayable(out) && Rebuild(out) == SettledUpTo(bs, k, now) && IdsBelow(out, r.id)
    requires Due(bs[k], now) && r.kind == Expire && r.source == ExpirationJob(bs[k].earn) && r.amount == -bs[k].remaining
    ensures Replayable(out + [r]) && Rebuild(out + [r]) == SettledUpTo(bs, k + 1, now)
  {
    SettleStep(bs, k, now);
    MarkSettles(out, r, k, SettledUpTo(bs, k, now), SettledUpTo(bs, k + 1, now));
  }

  /** The ledger after a pass over `rows` has handled the first k buckets. */
  ghost predicate PassState(rows: seq<Row>, bs: seq<Bucket>, k: nat, now: Time, buyer: Buyer, id: nat, balance: int,
                            out: seq<Row>)
    requires k <= |bs|
  {
    && out == rows + ExpireRows(bs[..k], now, buyer, id, balance)
    && Rebuild(out) == SettledUpTo(bs, k, now)
    && Replayable(out)
    && IdsBelow(out, id + |out| - |rows|)
  }

  lemma PassStep(rows: seq<Row>, bs: seq<Bucket>, k: nat, now: Time, buyer: Buyer, id: nat, balance: int, out: seq<Row>)
    returns (out': seq<Row>)
    requires k < |bs| && PassState(rows, bs, k, now, buyer, id, balance, out)
    ensures PassState(rows, bs, k + 1, now, buyer, id, balance, out')
  {
    if Due(bs[k], now) {
      var before, r := ExpireRowsNext(bs, k, now, buyer, id, balance);
      ExpireOne(out, r, bs, k, now);
      out' := out + [r];
      assert out' == rows + (before + [r]);
    } else {
      ExpireRowsStep(bs, k, now, buyer, id, balance);
      SettleStep(bs, k, now);
      out' := out;
    }
  }

  /** Replay commutes with expiry: after the pass has handled the first k buckets, replaying
      the extended ledger gives those k buckets settled and the rest untouched, and every
      row written so far removed exactly what its bucket held. */
  lemma {:induction false} ReplayAfterExpiry(rows: seq<Row>, k: nat, now: Time, buyer: Buyer, id: nat, balance: int)
    returns (out: seq<Row>)
    requires Replayable(rows) && k <= |Rebuild(rows)| && IdsBelow(rows, id)
    ensures PassState(rows, Rebuild(rows), k, now, buyer, id, balance, out)
    decreases k
  {
    var bs := Rebuild(rows);
    if k == 0 {
      out := rows;
      assert bs[..0] == [];
    } else {
      var init := ReplayAfterExpiry(rows, k - 1, now, buyer, id, balance);
      out := PassStep(rows, bs, k - 1, now, buyer, id, balance, init);
    }
  }

  /** A second pass at the same time finds nothing due. */
  lemma {:induction false} NothingDueAfterSettle(bs: seq<Bucket>, now: Time, buyer: Buyer, id: nat, balance: int)
    ensures ExpireRows(Settle(bs, now), now, buyer, id, balance) == []
    ensures DueTotal(Settle(bs, now), now) == 0
  {
    if bs != [] {
      assert Settle(bs, now)[..|bs| - 1] == Settle(bs[..|bs| - 1], now);
      NothingDueAfterSettle(bs[..|bs| - 1], now, buyer, id, balance);
    }
  }

  lemma {:induction false} DueTotalBound(bs: seq<Bucket>, now: Time)
    requires NonNegative(bs)
    ensures 0 <= DueTotal(bs, now) <= Remaining(bs)
  {
    if bs != [] {
      DueTotalBound(bs[..|bs| - 1], now);
    }
  }

  lemma {:induction false} ExpireRowsTotal(bs: seq<Bucket>, now: Time, buyer: Buyer, id: nat, balance: int)
    ensures Total(ExpireRows(bs, now, buyer, id, balance)) == -DueTotal(bs, now)
    ensures forall r | r in ExpireRows(bs, now, buyer, id, balance) :: r.kind == Expire && r.buyer == buyer
  {
    if bs != [] {
      var init := bs[..|bs| - 1];
      ExpireRowsTotal(init, now, buyer, id, balance);
      var before := ExpireRows(init, now, buyer, id, balance);
      if Due(bs[|bs| - 1], now) {
        assert ExpireRows(bs, now, buyer, id, balance)[..|before|] == before;
      }
    }
  }

  /** Expiry and replay agree: the next replay sees the old buckets with exactly the due ones
      emptied and marked, and a second pass at the same time has nothing left to write. */
  lemma ReplayCommutesWithExpiry(rows: seq<Row>, now: Time, buyer: Buyer, id: nat, balance: int, id2: nat, balance2: int)
    requires Replayable(rows) && IdsBelow(rows, id)
    ensures var out := rows + ExpireRows(Rebuild(rows), now, buyer, id, balance);
            && Replayable(out)
            && Rebuild(out) == Settle(Rebuild(rows), now)
            && ExpireRows(Rebuild(out), now, buyer, id2, balance2) == []
  {
    var bs := Rebuild(rows);
    assert bs[..|bs|] == bs;
    var out := ReplayAfterExpiry(rows, |bs|, now, buyer, id, balance);
    assert SettledUpTo(bs, |bs|, now) == Settle(bs, now);
    NothingDueAfterSettle(bs, now, buyer, id2, balance2);
  }

  /** The pass removes exactly what the due buckets held, which the gate's balance covers,
      and the gate accepts the new ledger as well. */
  lemma ExpiryPassConserves(rows: seq<Row>, now: Time, buyer: Buyer, id: nat)
    requires Replayable(rows) && IdsBelow(rows, id)
    requires GateAccepts(Rebuild(rows), rows, Total(rows))
    ensures var out := rows + ExpireRows(Rebuild(rows), now, buyer, id, Total(rows));
            && Total(out) == Total(rows) - DueTotal(Rebuild(rows), now)
            && 0 <= DueTotal(Rebuild(rows), now) <= Total(rows)
            && GateAccepts(Rebuild(out), out, Total(out))
  {
    var bs := Rebuild(rows);
    var written := ExpireRows(bs, now, buyer, id, Total(rows));
    ReplayCommutesWithExpiry(rows, now, buyer, id, Total(rows), id, 0);
    ExpiryAccounting(rows, bs, written, now, buyer, id);
  }

  lemma ExpiryAccounting(rows: seq<Row>, bs: seq<Bucket>, written: seq<Row>, now: Time, buyer: Buyer, id: nat)
    requires Replayable(rows) && bs == Rebuild(rows)
    requires written == ExpireRows(bs, now, buyer, id, Total(rows))
    requires GateAccepts(bs, rows, Total(rows))
    ensures Total(rows + written) == Total(rows) - DueTotal(bs, now)
    ensures Credits(rows + written) == Credits(rows)
    ensures Remaining(Settle(bs, now)) == Remaining(bs) - DueTotal(bs, now)
    ensures 0 <= DueTotal(bs, now) <= Total(rows)
  {
    RebuildShape(rows);
    DueTotalBound(bs, now);
    BalanceDecomposition(rows);
    TotalSplit(rows, written);
    ExpireRowsTotal(bs, now, buyer, id, Total(rows));
    SettleRemaining(bs, now);
  }

  lemma {:induction false} TotalSplit(a: seq<Row>, b: seq<Row>)
    ensures Total(a + b) == Total(a) + Total(b)
    ensures (forall r | r in b :: r.kind == Expire) ==> Credits(a + b) == Credits(a)
  {
    if b == [] {
      assert a + b == a;
    } else {
      TotalSplit(a, b[..|b| - 1]);
      assert (a + b)[..|a + b| - 1] == a + b[..|b| - 1];
      assert b[|b| - 1] in b;
    }
  }

  lemma {:induction false} SettleRemaining(bs: seq<Bucket>, now: Time)
    ensures Remaining(Settle(bs, now)) == Remaining(bs) - DueTotal(bs, now)
  {
    if bs != [] {
      SettleRemaining(bs[..|bs| - 1], now);
      assert Settle(bs, now)[..|bs| - 1] == Settle(bs[..|bs| - 1], now);
    }
  }
}
