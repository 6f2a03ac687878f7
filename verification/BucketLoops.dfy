/** The in-place loops over the bucket array, tied to the recursive definitions. */
module BucketLoops {
  import opened Common
  import opened LoyaltyDomain
  import opened EarnBuckets
  import opened BucketGate

  /** Drains `amount` from buckets[..n], oldest first, in place. */
  method ConsumeFIFO(buckets: array<Bucket>, n: nat, amount: int) returns (left: int)
    requires n <= buckets.Length
    modifies buckets
    ensures buckets[..n] == Drain(old(buckets[..n]), amount)
    ensures buckets[n..] == old(buckets[n..])
    ensures left == Leftover(old(buckets[..n]), amount)
  {
    ghost var was := buckets[..n];
    ghost var want := Drain(was, amount);
    if amount <= 0 {
      DrainNothing(was, amount);
      return 0;
    }
    var remaining := amount;
    for i := 0 to n
      invariant 0 < remaining
      invariant forall j | 0 <= j < i :: buckets[j] == want[j]
      invariant forall j | i <= j < buckets.Length :: buckets[j] == old(buckets[j])
      invariant Drain(was[i..], remaining) == want[i..]
      invariant Leftover(was[i..], remaining) == Leftover(was, amount)
    {
      DrainStep(was, i, remaining);
      assert want[i] == want[i..][0];
      if buckets[i].remaining <= 0 {
        continue;
      }
      var take := buckets[i].remaining;
      if take > remaining {
        take := remaining;
      }
      buckets[i] := buckets[i].(remaining := buckets[i].remaining - take);
      remaining := remaining - take;
      if remaining == 0 {
        DrainNothing(was[i + 1..], 0);
        assert forall j | i < j < n :: want[j] == want[i..][1..][j - i - 1] == was[i + 1..][j - i - 1];
        return 0;
      }
    }
    return remaining;
  }

  lemma DrainStep(bs: seq<Bucket>, i: nat, amount: int)
    requires i < |bs|
    ensures var take := Take(bs[i], amount);
            && Drain(bs[i..], amount)[0] == bs[i].(remaining := bs[i].remaining - take)
            && Drain(bs[i..], amount)[1..] == Drain(bs[i + 1..], amount - take)
            && Leftover(bs[i..], amount) == Leftover(bs[i + 1..], amount - take)
  {
    assert bs[i..][1..] == bs[i + 1..];
  }

  lemma {:induction false} DrainNothing(bs: seq<Bucket>, amount: int)
    requires amount <= 0
    ensures Drain(bs, amount) == bs && Leftover(bs, amount) == 0
  {
    if bs != [] {
      assert bs[0].(remaining := bs[0].remaining - 0) == bs[0];
      DrainNothing(bs[1..], amount);
    }
  }

  lemma RebuildStep(txns: seq<Row>, k: nat)
    requires k < |txns|
    ensures Rebuild(txns[..k + 1]) == Replay(Rebuild(txns[..k]), txns[k])
  {
    assert txns[..k + 1][..k] == txns[..k];
  }

  lemma ReplayKeepsEarns(bs: seq<Bucket>, r: Row)
    ensures forall i | 0 <= i < |bs| :: Replay(bs, r)[i].earn == bs[i].earn
  {
    DrainShape(bs, -r.amount);
  }

  lemma {:induction false} RebuildSources(txns: seq<Row>)
    ensures |Rebuild(txns)| <= |txns|
    ensures forall i | 0 <= i < |Rebuild(txns)| :: exists k :: 0 <= k < |txns| && txns[k].id == Rebuild(txns)[i].earn
  {
    if txns != [] {
      var init, last := txns[..|txns| - 1], txns[|txns| - 1];
      RebuildSources(init);
      ReplayKeepsEarns(Rebuild(init), last);
      forall i | 0 <= i < |Rebuild(txns)|
        ensures exists k :: 0 <= k < |txns| && txns[k].id == Rebuild(txns)[i].earn
      {
        if i < |Rebuild(init)| {
          var k :| 0 <= k < |init| && init[k].id == Rebuild(init)[i].earn;
          assert txns[k].id == Rebuild(txns)[i].earn;
        } else {
          assert last.id == Rebuild(txns)[i].earn;
        }
      }
    }
  }

  ghost predicate Indexes(idx: map<nat, nat>, bs: seq<Bucket>) {
    && (forall e | e in idx :: idx[e] < |bs| && bs[idx[e]].earn == e)
    && (forall i | 0 <= i < |bs| :: bs[i].earn in idx && idx[bs[i].earn] == i)
  }

  lemma IndexesKept(idx: map<nat, nat>, bs: seq<Bucket>, bs': seq<Bucket>)
    requires Indexes(idx, bs) && |bs'| == |bs| && forall i | 0 <= i < |bs| :: bs'[i].earn == bs[i].earn
    ensures Indexes(idx, bs')
  {
  }

  lemma IndexesPush(idx: map<nat, nat>, bs: seq<Bucket>, b: Bucket)
    requires Indexes(idx, bs) && b.earn !in idx
    ensures Indexes(idx[b.earn := |bs|], bs + [b])
  {
  }

  /** One step of the walk: the switch over the row's type. */
  method ReplayRow(buckets: array<Bucket>, n: nat, idx: map<nat, nat>, tx: Row) returns (n': nat, idx': map<nat, nat>)
    requires n < buckets.Length && Indexes(idx, buckets[..n]) && tx.id !in idx
    modifies buckets
    ensures n' <= n + 1 && buckets[..n'] == Replay(old(buckets[..n]), tx)
    ensures Indexes(idx', buckets[..n'])
  {
    n', idx' := n, idx;
    ghost var bs := buckets[..n];
    DrainShape(bs, -tx.amount);
    match tx.kind {
      case Earn =>
        buckets[n] := Bucket(tx.id, tx.expiresAt, tx.amount, tx.amount, false);
        n', idx' := n + 1, idx[tx.id := n];
        IndexesPush(idx, bs, buckets[n]);
      case Redeem =>
        var _ := ConsumeFIFO(buckets, n, -tx.amount);
      case ReverseEarn =>
        var _ := ConsumeFIFO(buckets, n, -tx.amount);
      case Refund =>
        if tx.amount < 0 {
          var _ := ConsumeFIFO(buckets, n, -tx.amount);
        }
      case Adjust =>
        if tx.amount < 0 {
          var _ := ConsumeFIFO(buckets, n, -tx.amount);
        }
      case Expire =>
        if tx.source.ExpirationJob? && tx.source.earn in idx {
          var i := idx[tx.source.earn];
          var left := buckets[i].remaining + tx.amount;
          if left < 0 {
            left := 0;
          }
          buckets[i] := buckets[i].(remaining := left, marked := true);
        }
        assert tx.source.ExpirationJob? ==> buckets[..n] == Mark(bs, tx.source.earn, -tx.amount);
    }
    assert buckets[..n'] == Replay(bs, tx);
    if tx.kind != Earn {
      IndexesKept(idx, bs, buckets[..n]);
    }
  }

  /** Replays a chronological ledger into a fresh array of buckets, in place.
      Row ids are the primary key of the ledger table, hence distinct. */
  method RebuildEarnBuckets(txns: seq<Row>) returns (buckets: array<Bucket>, n: nat)
    requires forall i, j | 0 <= i < j < |txns| :: txns[i].id != txns[j].id
    ensures fresh(buckets) && n <= buckets.Length && buckets[..n] == Rebuild(txns)
  {
    buckets, n := new Bucket[|txns|], 0;
    var idx: map<nat, nat> := map[];
    for k := 0 to |txns|
      invariant n <= k && buckets[..n] == Rebuild(txns[..k])
      invariant Indexes(idx, buckets[..n])
    {
      RebuildStep(txns, k);
      RebuildSources(txns[..k]);
      n, idx := ReplayRow(buckets, n, idx, txns[k]);
    }
    assert txns[..|txns|] == txns;
  }

  /** Re-derives the balance from the buckets and the positive refunds and adjustments. */
  method VerifyBucketInvariant(buckets: array<Bucket>, n: nat, txns: seq<Row>, lockedBalance: int) returns (ok: bool)
    requires n <= buckets.Length
    ensures ok == GateAccepts(buckets[..n], txns, lockedBalance)
  {
    var bucketSum := 0;
    for i := 0 to n
      invariant bucketSum == Remaining(buckets[..i])
    {
      assert buckets[..i + 1][..i] == buckets[..i];
      bucketSum := bucketSum + buckets[i].remaining;
    }
    var platformCredits := 0;
    for k := 0 to |txns|
      invariant platformCredits == Credits(txns[..k])
    {
      assert txns[..k + 1][..k] == txns[..k];
      var tx := txns[k];
      if tx.kind != Refund && tx.kind != Adjust {
        continue;
      }
      if tx.amount > 0 {
        platformCredits := platformCredits + tx.amount;
      }
    }
    assert txns[..|txns|] == txns;
    ok := bucketSum + platformCredits == lockedBalance;
  }
}
