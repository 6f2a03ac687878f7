/** Runs of the cancellation workflow in which the code does less than its comments say. */
module CancellationRuns {
  import opened Common
  import opened Cancellation
  import opened CancellationTheorems
  import opened CancellationRefunds
  import opened CancellationHeld

  lemma RunOne(y: System, ops: seq<Op>, mid: System, op: Op) returns (all: seq<Op>, z: System)
    requires mid == Run(y, ops)
    ensures all == ops + [op] && z == Run(y, all) && z == Step(mid, op)
  {
    all := ops + [op];
    assert all[..|ops|] == ops;
    z := Step(mid, op);
  }

  lemma CountedOne(y: System, ops: seq<Op>, mid: System, op: Op) returns (all: seq<Op>, z: System)
    requires mid == Run(y, ops)
    ensures all == ops + [op] && z == Run(y, all) && z == Step(mid, op)
    ensures Revivals(y, all, 0) == Revivals(y, ops, 0) + Bit(Revives(mid, op, 0))
  {
    all, z := RunOne(y, ops, mid, op);
    assert all[..|ops|] == ops;
  }

  lemma StepAct(y: System, h: nat, v: Approval, ok: bool) returns (v': Approval)
    requires h in y.approvals && y.approvals[h] == v
    ensures v' == Act(y.t, y.stripe, v, ok).2
    ensures Step(y, OpAct(h, ok)) == System(Act(y.t, y.stripe, v, ok).0, Act(y.t, y.stripe, v, ok).1, y.approvals[h := v'])
  {
    v' := Act(y.t, y.stripe, v, ok).2;
  }

  /** Every call is accepted and nothing crashes. */
  predicate Smooth(ops: seq<Op>) {
    forall op | op in ops :: !op.OpCrash? && !op.OpTimeout? && (op.OpAct? ==> op.ok)
  }

  // ----- An order without payouts -----

  const BARE := System(Tables([Paid], [], []), Stripe([], []), map[])

  /** A request is opened. */
  lemma Opened(ops: seq<Op>, y: System) returns (ops': seq<Op>, y': System)
    requires y == Run(BARE, ops) && |y.t.orders| == 1 && !HasOpen(y.t.requests, 0)
    ensures ops' == ops + [OpRequest(0)] && y' == Run(BARE, ops') && Revivals(BARE, ops', 0) == Revivals(BARE, ops, 0)
    ensures y' == y.(t := y.t.(requests := y.t.requests + [Request(0, Open, None)]))
  {
    ops', y' := CountedOne(BARE, ops, y, OpRequest(0));
  }

  /** An approval begins and gets as far as its refund. */
  lemma Refunded(ops: seq<Op>, y: System, h: nat, r: nat) returns (ops': seq<Op>, y': System)
    requires y == Run(BARE, ops) && y.t.orders == [Paid] && y.t.payouts == []
    requires r < |y.t.requests| && y.t.requests[r].order == 0 && h !in y.approvals && r !in y.stripe.refunds
    ensures ops' == ops + [OpBegin(h, r), OpAct(h, true), OpAct(h, true)] && y' == Run(BARE, ops')
    ensures Revivals(BARE, ops', 0) == Revivals(BARE, ops, 0)
    ensures y' == System(y.t, y.stripe.(refunds := y.stripe.refunds + [r]),
                         y.approvals[h := Approval(r, 0, [], 0, |y.stripe.refunds|, [], AtReverse)])
  {
    var v := Approval(r, 0, [], 0, 0, [], AtList);
    ops', y' := CountedOne(BARE, ops, y, OpBegin(h, r));
    assert y' == y.(approvals := y.approvals[h := v]);
    v := StepAct(y', h, v, true);
    assert v == Approval(r, 0, [], 0, 0, [], AtRefund);
    ops', y' := CountedOne(BARE, ops', y', OpAct(h, true));
    assert y' == y.(approvals := y.approvals[h := v]);
    v := StepAct(y', h, v, true);
    assert v == Approval(r, 0, [], 0, |y.stripe.refunds|, [], AtReverse);
    ops', y' := CountedOne(BARE, ops', y', OpAct(h, true));
    assert ops' == ops + [OpBegin(h, r), OpAct(h, true), OpAct(h, true)];
  }

  /** The approval goes through. */
  lemma WentThrough(ops: seq<Op>, y: System, h: nat, r: nat, refund: nat) returns (ops': seq<Op>, y': System)
    requires y == Run(BARE, ops) && y.t.orders == [Paid] && y.t.payouts == []
    requires r < |y.t.requests| && y.t.requests[r] == Request(0, Open, None)
    requires h in y.approvals && y.approvals[h] == Approval(r, 0, [], 0, refund, [], AtReverse)
    ensures ops' == ops + [OpAct(h, true), OpAct(h, true)] && y' == Run(BARE, ops') && Revivals(BARE, ops', 0) == Revivals(BARE, ops, 0)
    ensures y'.t == Tables([Cancelled], [], y.t.requests[r := Request(0, Approved, Some(refund))])
    ensures y'.stripe == y.stripe && y'.approvals.Keys == y.approvals.Keys
  {
    ops', y' := CountedOne(BARE, ops, y, OpAct(h, true));
    assert y' == y.(approvals := y.approvals[h := y.approvals[h].(pc := AtApprove)]);
    ops', y' := CountedOne(BARE, ops', y', OpAct(h, true));
    assert ops' == ops + [OpAct(h, true), OpAct(h, true)];
  }

  lemma {:induction false} AllApproved(requests: seq<Request>)
    requires forall r | 0 <= r < |requests| :: requests[r].order == 0 && requests[r].status == Approved
    ensures Approvals(requests, 0) == |requests| && !HasOpen(requests, 0)
  {
    if requests != [] {
      AllApproved(requests[..|requests| - 1]);
    }
  }

  /** The first n requests were refunded, in order. */
  predicate Numbered(refunds: seq<nat>, n: nat) {
    |refunds| == n && forall i | 0 <= i < n :: refunds[i] == i
  }

  /** The state after n + 1 approvals of the one order. */
  predicate ApprovedOften(y: System, n: nat) {
    && y.t.orders == [Cancelled] && y.t.payouts == [] && |y.t.requests| == n + 1
    && (forall r | 0 <= r <= n :: y.t.requests[r].order == 0 && y.t.requests[r].status == Approved)
    && Numbered(y.stripe.refunds, n + 1) && (forall h | h in y.approvals :: h <= n)
  }

  /** The bound on approvals is attained for every number of revivals: a seller's status update
      takes the order back out of the cancelled status n times, and it is approved and refunded
      n + 1 times, though no call fails and nothing crashes. */
  lemma {:induction false} ApprovalsAttained(n: nat) returns (ops: seq<Op>)
    ensures Fresh(BARE) && Smooth(ops) && Revivals(BARE, ops, 0) == n
    ensures ApprovedOften(Run(BARE, ops), n) && Approvals(Run(BARE, ops).t.requests, 0) == n + 1
  {
    var y: System;
    if n == 0 {
      ops, y := Opened([], BARE);
    } else {
      ops := ApprovalsAttained(n - 1);
      y := Run(BARE, ops);
      AllApproved(y.t.requests);
      ops, y := CountedOne(BARE, ops, y, OpStatus(0, Paid));
      ops, y := Opened(ops, y);
    }
    ops, y := ApproveLast(ops, y, n);
    AllApproved(y.t.requests);
  }

  /** The request opened last is approved. */
  lemma ApproveLast(ops: seq<Op>, y: System, n: nat) returns (ops': seq<Op>, y': System)
    requires y == Run(BARE, ops) && Smooth(ops) && y.t.orders == [Paid] && y.t.payouts == []
    requires |y.t.requests| == n + 1 && y.t.requests[n] == Request(0, Open, None)
    requires forall r | 0 <= r < n :: y.t.requests[r].order == 0 && y.t.requests[r].status == Approved
    requires Numbered(y.stripe.refunds, n) && forall h | h in y.approvals :: h < n
    ensures y' == Run(BARE, ops') && Smooth(ops') && ApprovedOften(y', n) && Revivals(BARE, ops', 0) == Revivals(BARE, ops, 0)
  {
    var mid;
    ops', mid := Refunded(ops, y, n, n);
    assert Smooth(ops') && Numbered(mid.stripe.refunds, n + 1);
    ops', y' := WentThrough(ops', mid, n, n, n);
  }

  /** Nothing has to fail for a second refund: a request is rejected while its approval is at
      Stripe, the buyer opens another, and that one is refunded too. The rejected one keeps its
      refund, which no row names. */
  lemma RejectedRefundsAgain() returns (ops: seq<Op>)
    ensures Fresh(BARE) && Smooth(ops)
    ensures var z := Run(BARE, ops);
            && z.t == Tables([Paid], [], [Request(0, Rejected, None), Request(0, Open, None)])
            && z.stripe.refunds == [0, 1] && RefundsOf(z, 0) == 2
  {
    var y;
    ops, y := RejectedWhileRefunding();
    ops, y := Opened(ops, y);
    ops, y := Refunded(ops, y, 1, 1);
    TwoRefunds(y.t.requests);
  }

  lemma RejectedWhileRefunding() returns (ops: seq<Op>, y: System)
    ensures Smooth(ops) && y == Run(BARE, ops) && y.t == Tables([Paid], [], [Request(0, Rejected, None)])
    ensures y.stripe.refunds == [0] && y.approvals.Keys == {0}
  {
    ops, y := Opened([], BARE);
    ops, y := Refunded(ops, y, 0, 0);
    ops, y := RunOne(BARE, ops, y, OpReject(0));
  }

  lemma TwoRefunds(requests: seq<Request>)
    requires |requests| == 2 && requests[0].order == requests[1].order == 0
    ensures OrderRefunds([0, 1], requests, 0) == 2
  {
    var two, one := [0, 1], [0];
    assert two[..1] == one && one[..0] == [];
    assert OrderRefunds(one, requests, 0) == 1;
  }

  /** A crash leaves a refunded request open on an order that is not cancelled. */
  lemma CrashHoldsRefund() returns (ops: seq<Op>)
    ensures Fresh(BARE)
    ensures var z := Run(BARE, ops);
            && z.t == Tables([Paid], [], [Request(0, Open, None)]) && z.stripe.refunds == [0] && LeftOpen(z, 0)
  {
    var y;
    ops, y := Opened([], BARE);
    ops, y := Refunded(ops, y, 0, 0);
    ops, y := RunOne(BARE, ops, y, OpCrash(0));
    assert y == System(Tables([Paid], [], [Request(0, Open, None)]), Stripe([0], []), map[]);
  }

  // ----- An order whose payout went out -----

  const PAID_OUT := System(Tables([Paid], [Payout(0, PayoutCompleted, true, None)], []), Stripe([], []), map[])

  lemma FirstAttempt() returns (ops: seq<Op>, y: System)
    ensures y == Run(PAID_OUT, ops) && Fresh(PAID_OUT)
    ensures y.t == Tables([Paid], PAID_OUT.t.payouts, [Request(0, Failed, None)]) && y.stripe == Stripe([0], [])
    ensures y.approvals.Keys == {0}
  {
    var v := Approval(0, 0, [], 0, 0, [], AtList);
    var listed := [Listed(0, PAID_OUT.t.payouts[0])];
    ListOne();
    ops, y := RunOne(PAID_OUT, [], PAID_OUT, OpRequest(0));
    ops, y := RunOne(PAID_OUT, ops, y, OpBegin(0, 0));
    assert y.approvals == map[0 := v];
    ops, y := RunOne(PAID_OUT, ops, y, OpAct(0, true));
    assert y.approvals == map[0 := v.(listed := listed, pc := AtRefund)];
    ops, y := RunOne(PAID_OUT, ops, y, OpAct(0, true));
    assert y.approvals == map[0 := v.(listed := listed, pc := AtReverse)] && y.stripe == Stripe([0], []);
    ops, y := RunOne(PAID_OUT, ops, y, OpAct(0, false));
    assert y.approvals == map[0 := v.(listed := listed, pc := AtMarkFailed)];
    ops, y := RunOne(PAID_OUT, ops, y, OpAct(0, true));
  }

  lemma ListOne()
    ensures ListPayouts(PAID_OUT.t.payouts, 0) == [Listed(0, PAID_OUT.t.payouts[0])]
  {
    assert PAID_OUT.t.payouts[..0] == [];
  }

  /** The idempotency keys make a failed approval safe to repeat only for the same request. A failed
      request stays failed, so a retry is a new request with new keys: here the first approval
      refunds the buyer and then fails to reverse the transfer, and the second refunds the same
      order again. */
  lemma RetryRefundsAgain() returns (ops: seq<Op>)
    ensures Fresh(PAID_OUT)
    ensures var z := Run(PAID_OUT, ops);
            && z.stripe.refunds == [0, 1] && RefundsOf(z, 0) == 2
            && |z.t.requests| == 2 && z.t.requests[0] == Request(0, Failed, None) && z.t.requests[1].order == 0
  {
    var y;
    ops, y := FirstAttempt();
    var v := Approval(1, 0, [], 0, 0, [], AtList);
    ops, y := RunOne(PAID_OUT, ops, y, OpRequest(0));
    ops, y := RunOne(PAID_OUT, ops, y, OpBegin(1, 1));
    assert y.approvals[1] == v;
    ops, y := RunOne(PAID_OUT, ops, y, OpAct(1, true));
    ops, y := RunOne(PAID_OUT, ops, y, OpAct(1, true));
    TwoRefunds(y.t.requests);
  }
}
