/** The FIFO replay of a buyer's ledger into earn buckets, as functions on values: what
    consuming points does to the buckets, and what every rebuilt bucket stands for. */
module EarnBuckets {
  import opened Common
  import opened LoyaltyDomain

  datatype Bucket = Bucket(earn: nat, expiresAt: Option<Time>, original: int, remaining: int, marked: bool)

  // ----- FIFO consumption -----

  /** Points still in the buckets. */
  function Remaining(bs: seq<Bucket>): int {
    if bs == [] then 0 else Remaining(bs[..|bs| - 1]) + bs[|bs| - 1].remaining
  }

  function Take(b: Bucket, amount: int): int {
    Min(Pos(b.remaining), Pos(amount))
  }

  /** The buckets after `amount` points are drained from the oldest ones. */
  function Drain(bs: seq<Bucket>, amount: int): (r: seq<Bucket>)
    ensures |r| == |bs|
  {
    if bs == [] then []
    else
      var take := Take(bs[0], amount);
      [bs[0].(remaining := bs[0].remaining - take)] + Drain(bs[1..], amount - take)
  }

  /** The part of `amount` that no bucket could cover. */
  function Leftover(bs: seq<Bucket>, amount: int): int {
    if bs == [] then Pos(amount) else Leftover(bs[1..], amount - Take(bs[0], amount))
  }

  predicate NonNegative(bs: seq<Bucket>) {
    forall i | 0 <= i < |bs| :: 0 <= bs[i].remaining
  }

  lemma {:induction false} RemainingSplit(bs: seq<Bucket>, cs: seq<Bucket>)
    ensures Remaining(bs + cs) == Remaining(bs) + Remaining(cs)
  {
    if cs == [] {
      assert bs + cs == bs;
    } else {
      var init := cs[..|cs| - 1];
      assert (bs + cs)[..|bs + cs| - 1] == bs + init;
      RemainingSplit(bs, init);
    }
  }

  lemma RemainingHead(bs: seq<Bucket>)
    requires bs != []
    ensures Remaining(bs) == bs[0].remaining + Remaining(bs[1..])
  {
    assert bs == bs[..1] + bs[1..];
    RemainingSplit(bs[..1], bs[1..]);
    assert bs[..1][..0] == [];
  }

  lemma {:induction false} RemainingNonNegative(bs: seq<Bucket>)
    requires NonNegative(bs)
    ensures 0 <= Remaining(bs)
  {
    if bs != [] {
      RemainingNonNegative(bs[..|bs| - 1]);
    }
  }

  /** Closed form: a bucket loses exactly what the buckets before it could not absorb,
      and what overflows all of them is the amount minus their sum. */
  lemma {:induction false} DrainClosedForm(bs: seq<Bucket>, amount: int, i: nat)
    requires NonNegative(bs) && i < |bs|
    ensures Drain(bs, amount)[i] == bs[i].(remaining := Pos(bs[i].remaining - Pos(amount - Remaining(bs[..i]))))
    ensures Leftover(bs, amount) == Pos(amount - Remaining(bs))
  {
    LeftoverClosedForm(bs, amount);
    if i == 0 {
      DrainFirst(bs, amount);
    } else {
      DrainClosedForm(bs[1..], amount - Take(bs[0], amount), i - 1);
      TakenBefore(bs, amount, i);
    }
  }

  lemma DrainFirst(bs: seq<Bucket>, amount: int)
    requires bs != [] && 0 <= bs[0].remaining
    ensures Drain(bs, amount)[0] == bs[0].(remaining := Pos(bs[0].remaining - Pos(amount)))
    ensures Remaining(bs[..0]) == 0
  {
  }

  lemma TakenBefore(bs: seq<Bucket>, amount: int, i: nat)
    requires NonNegative(bs) && 0 < i < |bs|
    ensures Pos(amount - Remaining(bs[..i])) == Pos(amount - Take(bs[0], amount) - Remaining(bs[1..][..i - 1]))
  {
    assert bs[..i][1..] == bs[1..][..i - 1];
    RemainingHead(bs[..i]);
    RemainingNonNegative(bs[1..][..i - 1]);
  }

  lemma {:induction false} LeftoverClosedForm(bs: seq<Bucket>, amount: int)
    requires NonNegative(bs)
    ensures Leftover(bs, amount) == Pos(amount - Remaining(bs))
  {
    if bs != [] {
      RemainingHead(bs);
      RemainingNonNegative(bs[1..]);
      LeftoverClosedForm(bs[1..], amount - Take(bs[0], amount));
    }
  }

  lemma DrainHead(bs: seq<Bucket>, head: Bucket, tail: seq<Bucket>, amount: int)
    requires bs == [head] + tail
    ensures var take := Take(head, amount);
            && Drain(bs, amount) == [head.(remaining := head.remaining - take)] + Drain(tail, amount - take)
            && Leftover(bs, amount) == Leftover(tail, amount - take)
  {
    assert bs[1..] == tail;
  }

  /** Draining a and then b is draining a + b, in the buckets and in the overflow. */
  lemma {:induction false} DrainComposes(bs: seq<Bucket>, a: nat, b: nat)
    ensures Drain(Drain(bs, a), b) == Drain(bs, a + b)
    ensures Leftover(bs, a) + Leftover(Drain(bs, a), b) == Leftover(bs, a + b)
  {
    DrainBucketsCompose(bs, a, b);
    LeftoverComposes(bs, a, b);
  }

  lemma TakeComposes(b0: Bucket, a: nat, b: nat)
    ensures var ta := Take(b0, a);
            Take(b0, a + b) == ta + Take(b0.(remaining := b0.remaining - ta), b)
  {
  }

  lemma {:induction false} DrainBucketsCompose(bs: seq<Bucket>, a: nat, b: nat)
    ensures Drain(Drain(bs, a), b) == Drain(bs, a + b)
  {
    if bs != [] {
      var once := Drain(bs, a);
      DrainParts(bs, a);
      DrainParts(once, b);
      DrainParts(bs, a + b);
      TakeComposes(bs[0], a, b);
      DrainBucketsCompose(bs[1..], a - Take(bs[0], a), b - Take(once[0], b));
      SameParts(Drain(once, b), Drain(bs, a + b));
    }
  }

  lemma DrainParts(bs: seq<Bucket>, amount: int)
    requires bs != []
    ensures var take := Take(bs[0], amount);
            && Drain(bs, amount)[0] == bs[0].(remaining := bs[0].remaining - take)
            && Drain(bs, amount)[1..] == Drain(bs[1..], amount - take)
  {
  }

  lemma SameParts(x: seq<Bucket>, y: seq<Bucket>)
    requires x != [] && y != [] && x[0] == y[0] && x[1..] == y[1..]
    ensures x == y
  {
    assert x == [x[0]] + x[1..];
  }

  lemma {:induction false} LeftoverComposes(bs: seq<Bucket>, a: nat, b: nat)
    ensures Leftover(bs, a) + Leftover(Drain(bs, a), b) == Leftover(bs, a + b)
  {
    if bs != [] {
      var ta := Take(bs[0], a);
      var head := bs[0].(remaining := bs[0].remaining - ta);
      var tb := Take(head, b);
      DrainHead(Drain(bs, a), head, Drain(bs[1..], a - ta), b);
      TakeComposes(bs[0], a, b);
      LeftoverComposes(bs[1..], a - ta, b - tb);
    }
  }

  /** Every drained point leaves the buckets or overflows. */
  lemma {:induction false} DrainConserves(bs: seq<Bucket>, amount: nat)
    ensures Remaining(Drain(bs, amount)) == Remaining(bs) - (amount - Leftover(bs, amount))
    ensures 0 <= Leftover(bs, amount) <= amount
  {
    if bs != [] {
      DrainConserves(bs[1..], amount - Take(bs[0], amount));
      RemainingHead(bs);
      RemainingHead(Drain(bs, amount));
    }
  }

  lemma {:induction false} DrainShape(bs: seq<Bucket>, amount: int)
    ensures forall i | 0 <= i < |bs| ::
              && Drain(bs, amount)[i] == bs[i].(remaining := Drain(bs, amount)[i].remaining)
              && (0 <= bs[i].remaining ==> 0 <= Drain(bs, amount)[i].remaining <= bs[i].remaining)
  {
    if bs != [] {
      DrainShape(bs[1..], amount - Take(bs[0], amount));
    }
  }

  // ----- Replay -----

  /** The buckets after an expire row of `amount` points against earn row `earn`. */
  function Mark(bs: seq<Bucket>, earn: nat, amount: int): (r: seq<Bucket>)
    ensures |r| == |bs|
  {
    seq(|bs|, i requires 0 <= i < |bs| =>
      if bs[i].earn == earn then bs[i].(remaining := Pos(bs[i].remaining - amount), marked := true) else bs[i])
  }

  function Replay(bs: seq<Bucket>, r: Row): (bs': seq<Bucket>)
    ensures |bs'| >= |bs|
  {
    match r.kind
    case Earn => bs + [Bucket(r.id, r.expiresAt, r.amount, r.amount, false)]
    case Redeem => Drain(bs, -r.amount)
    case ReverseEarn => Drain(bs, -r.amount)
    case Refund => if r.amount < 0 then Drain(bs, -r.amount) else bs
    case Adjust => if r.amount < 0 then Drain(bs, -r.amount) else bs
    case Expire => if r.source.ExpirationJob? then Mark(bs, r.source.earn, -r.amount) else bs
  }

  /** The buckets of a chronological ledger. */
  function Rebuild(rows: seq<Row>): seq<Bucket> {
    if rows == [] then [] else Replay(Rebuild(rows[..|rows| - 1]), rows[|rows| - 1])
  }

  function Total(rows: seq<Row>): int {
    if rows == [] then 0 else Total(rows[..|rows| - 1]) + rows[|rows| - 1].amount
  }

  function Credit(r: Row): int {
    if (r.kind == Refund || r.kind == Adjust) && r.amount > 0 then r.amount else 0
  }

  /** Positive refunds and adjustments: points that never had a bucket. */
  function Credits(rows: seq<Row>): int {
    if rows == [] then 0 else Credits(rows[..|rows| - 1]) + Credit(rows[|rows| - 1])
  }

  predicate Debits(r: Row) {
    r.amount < 0 && r.kind != Earn && r.kind != Expire
  }

  /** How far a debit overran the buckets present when it was written. */
  function Overrun(bs: seq<Bucket>, r: Row): int {
    if Debits(r) then Leftover(bs, -r.amount) else 0
  }

  function Lost(rows: seq<Row>): int {
    if rows == [] then 0
    else Lost(rows[..|rows| - 1]) + Overrun(Rebuild(rows[..|rows| - 1]), rows[|rows| - 1])
  }

  /** A row the service may append to this ledger: signs by kind, and an expire row
      removes exactly what its still unmarked bucket holds. */
  predicate RowFits(rows: seq<Row>, r: Row) {
    match r.kind
    case Earn => r.amount > 0
    case Redeem => r.amount < 0
    case ReverseEarn => r.amount < 0
    case Refund => r.amount > 0
    case Adjust => r.amount != 0
    case Expire =>
      && r.source.ExpirationJob?
      && exists i :: 0 <= i < |Rebuild(rows)| && Expires(Rebuild(rows)[i], r)
  }

  predicate Expires(b: Bucket, r: Row) {
    r.source.ExpirationJob? && b.earn == r.source.earn && !b.marked && b.remaining == -r.amount
  }

  /** A ledger written by the service, row by row. */
  predicate Replayable(rows: seq<Row>) {
    rows == [] ||
    var init, last := rows[..|rows| - 1], rows[|rows| - 1];
    && Replayable(init)
    && RowFits(init, last)
    && (init != [] ==> init[|init| - 1].id < last.id)
  }

  predicate MarkedIn(rows: seq<Row>, earn: nat) {
    exists r :: r in rows && r.kind == Expire && r.source == ExpirationJob(earn)
  }

  predicate EarnedIn(rows: seq<Row>, b: Bucket) {
    exists r :: r in rows && r.kind == Earn && r.id == b.earn && r.expiresAt == b.expiresAt && r.amount == b.original
  }

  predicate BucketOk(rows: seq<Row>, b: Bucket) {
    && 0 <= b.remaining <= b.original
    && (b.marked ==> b.remaining == 0)
    && (b.marked <==> MarkedIn(rows, b.earn))
    && EarnedIn(rows, b)
  }

  predicate Increasing(bs: seq<Bucket>) {
    forall i, j | 0 <= i < j < |bs| :: bs[i].earn < bs[j].earn
  }

  predicate HasBucket(bs: seq<Bucket>, earn: nat) {
    exists i :: 0 <= i < |bs| && bs[i].earn == earn
  }

  ghost predicate BucketFacts(rows: seq<Row>, bs: seq<Bucket>) {
    && (forall i | 0 <= i < |bs| :: BucketOk(rows, bs[i]))
    && Increasing(bs)
    && (forall r | r in rows && r.kind == Earn :: HasBucket(bs, r.id))
  }

  lemma BucketOkStep(init: seq<Row>, last: Row, b: Bucket, b': Bucket)
    requires BucketOk(init, b)
    requires b' == b.(remaining := b'.remaining, marked := b'.marked) && 0 <= b'.remaining <= b.remaining
    requires b'.marked == (b.marked || (last.kind == Expire && last.source == ExpirationJob(b.earn)))
    requires b'.marked ==> b'.remaining == 0
    ensures BucketOk(init + [last], b')
  {
    assert forall r :: r in init + [last] <==> r in init || r == last;
    var e :| e in init && e.kind == Earn && e.id == b.earn && e.expiresAt == b.expiresAt && e.amount == b.original;
    assert e in init + [last];
    if b.marked {
      var m :| m in init && m.kind == Expire && m.source == ExpirationJob(b.earn);
      assert m in init + [last];
    }
  }

  lemma {:induction false} IdsBelowLast(rows: seq<Row>, i: nat, j: nat)
    requires Replayable(rows) && i < j < |rows|
    ensures rows[i].id < rows[j].id
  {
    if j == |rows| - 1 {
      if i < j - 1 {
        IdsBelowLast(rows[..|rows| - 1], i, j - 1);
      }
    } else {
      IdsBelowLast(rows[..|rows| - 1], i, j);
    }
  }

  lemma ReplayStep(init: seq<Row>, last: Row, i: nat)
    requires RowFits(init, last) && BucketFacts(init, Rebuild(init)) && i < |Rebuild(init)|
    ensures BucketOk(init + [last], Replay(Rebuild(init), last)[i])
    ensures Replay(Rebuild(init), last)[i].earn == Rebuild(init)[i].earn
  {
    var bs := Rebuild(init);
    assert BucketOk(init, bs[i]);
    if Debits(last) {
      DrainShape(bs, -last.amount);
    } else if last.kind == Expire {
      var k :| 0 <= k < |bs| && Expires(bs[k], last);
      assert bs[i].earn == bs[k].earn ==> i == k;
    }
    BucketOkStep(init, last, bs[i], Replay(bs, last)[i]);
  }

  lemma {:induction false} ReplayableFacts(rows: seq<Row>)
    requires Replayable(rows)
    ensures BucketFacts(rows, Rebuild(rows))
    decreases |rows|, 2
  {
    if rows != [] {
      var init, last := rows[..|rows| - 1], rows[|rows| - 1];
      ReplayableFacts(init);
      assert rows == init + [last];
      var bs, bs' := Rebuild(init), Rebuild(rows);
      forall i | 0 <= i < |bs|
        ensures BucketOk(rows, bs'[i]) && bs'[i].earn == bs[i].earn
      {
        ReplayStep(init, last, i);
      }
      if last.kind == Earn {
        NewBucket(init, last);
      }
      forall r | r in rows && r.kind == Earn
        ensures HasBucket(bs', r.id)
      {
        if r in init {
          var i :| 0 <= i < |bs| && bs[i].earn == r.id;
          assert bs'[i].earn == r.id;
        } else {
          assert bs'[|bs|].earn == r.id;
        }
      }
    }
  }

  lemma NewBucket(init: seq<Row>, last: Row)
    requires Replayable(init + [last]) && BucketFacts(init, Rebuild(init)) && last.kind == Earn
    ensures Increasing(Rebuild(init + [last]))
    ensures BucketOk(init + [last], Bucket(last.id, last.expiresAt, last.amount, last.amount, false))
    decreases |init| + 1, 1
  {
    var bs := Rebuild(init);
    assert (init + [last])[..|init|] == init;
    assert last in init + [last];
    forall i | 0 <= i < |bs|
      ensures bs[i].earn < last.id
    {
      assert BucketOk(init, bs[i]);
      EarlierEarn(init, last, bs[i]);
    }
    NotMarkedYet(init, last);
  }

  lemma EarlierEarn(init: seq<Row>, last: Row, b: Bucket)
    requires Replayable(init + [last]) && EarnedIn(init, b)
    ensures b.earn < last.id
  {
    var rows := init + [last];
    var e :| e in init && e.kind == Earn && e.id == b.earn && e.expiresAt == b.expiresAt && e.amount == b.original;
    var k :| 0 <= k < |init| && init[k] == e;
    assert rows[k] == e;
    IdsBelowLast(rows, k, |init|);
  }

  lemma NotMarkedYet(init: seq<Row>, last: Row)
    requires Replayable(init + [last]) && last.kind == Earn
    ensures !MarkedIn(init + [last], last.id)
    decreases |init| + 1, 0
  {
    var rows := init + [last];
    assert rows[..|init|] == init;
    if MarkedIn(rows, last.id) {
      var m :| m in rows && m.kind == Expire && m.source == ExpirationJob(last.id);
      var k :| 0 <= k < |init| && init[k] == m;
      ExpireNeedsEarlierEarn(init, k);
    }
  }

  lemma {:induction false} ExpireNeedsEarlierEarn(rows: seq<Row>, k: nat)
    requires Replayable(rows) && k < |rows| && rows[k].kind == Expire
    ensures rows[k].source.ExpirationJob? && rows[k].source.earn <= rows[|rows| - 1].id
    ensures exists e :: e in rows && e.kind == Earn && e.id == rows[k].source.earn
    decreases |rows|, 3
  {
    var init := rows[..|rows| - 1];
    if k < |init| {
      ExpireNeedsEarlierEarn(init, k);
      var e :| e in init && e.kind == Earn && e.id == init[k].source.earn;
      assert e in rows;
    } else {
      ReplayableFacts(init);
      var i :| 0 <= i < |Rebuild(init)| && Expires(Rebuild(init)[i], rows[k]);
      assert BucketOk(init, Rebuild(init)[i]);
      var e :| e in init && e.kind == Earn && e.id == Rebuild(init)[i].earn
               && e.expiresAt == Rebuild(init)[i].expiresAt && e.amount == Rebuild(init)[i].original;
      assert e in rows;
      var j :| 0 <= j < |init| && init[j] == e;
      IdsBelowLast(rows, j, |init|);
    }
  }
}
