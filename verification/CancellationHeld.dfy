/** Where a refund may be held without a cancelled order, and which payouts a cancellation leaves
    with the seller, over every run of the cancellation workflow. */
module CancellationHeld {
  import opened Common
  import opened Cancellation
  import opened CancellationTheorems
  import opened CancellationRefunds

  // ----- One refund id per request -----

  /** An approval whose refund call was accepted and which has not given up. */
  predicate PastRefund(v: Approval) {
    v.pc == AtReverse || v.pc == AtApprove
  }

  lemma OneId(s: Stripe, i: nat, j: nat)
    requires Keyed(s) && i < |s.refunds| && j < |s.refunds| && s.refunds[i] == s.refunds[j]
    ensures i == j
  {
  }

  /** Whatever lies between them, retries and crashes included: all approvals of one request carry
      the same refund, and it is the one that is recorded when the request is approved. */
  lemma SameRefund(y: System, ops: seq<Op>, later: seq<Op>, g: nat, h: nat)
    requires Fresh(y) && g in Run(y, ops).approvals && PastRefund(Run(y, ops).approvals[g])
    ensures var v, z := Run(y, ops).approvals[g], Run(Run(y, ops), later);
            && (h in z.approvals && PastRefund(z.approvals[h]) && z.approvals[h].request == v.request ==> z.approvals[h].refund == v.refund)
            && v.request < |z.t.requests|
            && (z.t.requests[v.request].status == Approved ==> z.t.requests[v.request].refund == Some(v.refund))
  {
    RunKeepsInv(y, ops);
    RunKeepsInv(Run(y, ops), later);
    IdStands(Run(y, ops), Run(Run(y, ops), later), Run(y, ops).approvals[g], h);
  }

  lemma IdStands(mid: System, z: System, v: Approval, h: nat)
    requires ApprovalOk(mid, v) && PastRefund(v) && Extends(mid, z) && Inv(z)
    ensures h in z.approvals && PastRefund(z.approvals[h]) && z.approvals[h].request == v.request ==> z.approvals[h].refund == v.refund
    ensures v.request < |z.t.requests|
    ensures z.t.requests[v.request].status == Approved ==> z.t.requests[v.request].refund == Some(v.refund)
  {
    assert z.stripe.refunds[v.refund] == v.request;
    assert RequestOk(z, v.request);
    if h in z.approvals && PastRefund(z.approvals[h]) && z.approvals[h].request == v.request {
      assert ApprovalOk(z, z.approvals[h]);
      OneId(z.stripe, z.approvals[h].refund, v.refund);
    }
    if z.t.requests[v.request].status == Approved {
      OneId(z.stripe, z.t.requests[v.request].refund.value, v.refund);
    }
  }

  /** The row names its refund exactly when it is approved. */
  predicate Recorded(y: System) {
    forall r | 0 <= r < |y.t.requests| :: y.t.requests[r].refund.Some? <==> y.t.requests[r].status == Approved
  }

  lemma StepRecorded(y: System, op: Op)
    requires Recorded(y)
    ensures Recorded(Step(y, op))
  {
  }

  lemma {:induction false} RunRecorded(y: System, ops: seq<Op>)
    requires Fresh(y)
    ensures Recorded(Run(y, ops))
  {
    if ops != [] {
      RunRecorded(y, ops[..|ops| - 1]);
      StepRecorded(Run(y, ops[..|ops| - 1]), ops[|ops| - 1]);
    }
  }

  /** An approval that still runs when its request is resolved changes no table: its write phase
      answers that the request was processed already and nothing is marked failed. */
  lemma ResolvedInert(y: System, h: nat, ok: bool)
    requires Inv(y) && h in y.approvals && y.t.requests[y.approvals[h].request].status != Open
    ensures Step(y, OpAct(h, ok)).t == y.t
    ensures y.approvals[h].pc == AtApprove ==> Step(y, OpAct(h, ok)).approvals[h].pc == Done(false)
  {
    assert ApprovalOk(y, y.approvals[h]);
  }

  // ----- Refunds without a cancelled order -----

  /** Some approval of r is past its refund call and has a step to make. */
  predicate Carries(v: Approval, r: nat) {
    v.request == r && (v.pc == AtReverse || v.pc == AtApprove || v.pc == AtMarkFailed)
  }

  predicate Carried(y: System, r: nat) {
    exists h :: h in y.approvals && Carries(y.approvals[h], r)
  }

  /** Such an approval crashes, or its last write fails. */
  predicate Abandons(y: System, op: Op, r: nat) {
    (op.OpCrash? || op.OpAct?) && op.h in y.approvals && Carries(y.approvals[op.h], r)
    && (op.OpAct? ==> !op.ok && y.approvals[op.h].pc != AtReverse)
  }

  /** Refunded, open, and nobody at work on it. */
  predicate LeftOpen(y: System, r: nat) {
    r in y.stripe.refunds && r < |y.t.requests| && y.t.requests[r].status == Open && !Carried(y, r)
  }

  lemma NewRefundCarried(y: System, op: Op, r: nat)
    requires Inv(y) && RefundsKnown(y) && r !in y.stripe.refunds && r in Step(y, op).stripe.refunds
    ensures Carried(Step(y, op), r)
  {
    StepStripe(y, op);
    assert Carries(Step(y, op).approvals[op.h], r);
  }

  lemma StillCarried(y: System, op: Op, r: nat, h: nat)
    requires Inv(y) && h in y.approvals && Carries(y.approvals[h], r) && !Abandons(y, op, r)
    requires r < |Step(y, op).t.requests| && Step(y, op).t.requests[r].status == Open
    ensures Carried(Step(y, op), r)
  {
    assert ApprovalOk(y, y.approvals[h]);
    StepExtends(y, op);
    assert Carries(Step(y, op).approvals[h], r);
  }

  lemma StepLeavesOpen(y: System, op: Op, r: nat)
    requires Inv(y) && RefundsKnown(y) && LeftOpen(Step(y, op), r)
    ensures LeftOpen(y, r) || Abandons(y, op, r)
  {
    StepExtends(y, op);
    if r !in y.stripe.refunds {
      NewRefundCarried(y, op, r);
    } else if !Abandons(y, op, r) {
      if h :| h in y.approvals && Carries(y.approvals[h], r) {
        StillCarried(y, op, r, h);
      }
    }
  }

  ghost predicate AbandonsAt(y: System, ops: seq<Op>, r: nat, k: nat) {
    k < |ops| && Abandons(Run(y, ops[..k]), ops[k], r)
  }

  lemma {:induction false} LeftOpenWasAbandoned(y: System, ops: seq<Op>, r: nat)
    requires Fresh(y) && LeftOpen(Run(y, ops), r)
    ensures exists k: nat :: AbandonsAt(y, ops, r, k)
  {
    var n := |ops| - 1;
    var init := ops[..n];
    RunKnown(y, init);
    StepLeavesOpen(Run(y, init), ops[n], r);
    if LeftOpen(Run(y, init), r) {
      LeftOpenWasAbandoned(y, init, r);
      var k: nat :| AbandonsAt(y, init, r, k);
      assert init[..k] == ops[..k];
      assert AbandonsAt(y, ops, r, k);
    } else {
      assert AbandonsAt(y, ops, r, n);
    }
  }

  lemma {:induction false} SomeApproval(requests: seq<Request>, o: nat, r: nat)
    requires r < |requests| && requests[r].order == o && requests[r].status == Approved
    ensures Approvals(requests, o) >= 1
  {
    if r < |requests| - 1 {
      SomeApproval(requests[..|requests| - 1], o, r);
    }
  }

  /** Which requests can hold a refund at Stripe while their order is not cancelled: failed and
      rejected ones, whose row does not name the refund; an open one on which an approval is at
      work, or was until it crashed or its last write failed; and an approved one only of an order
      that was taken back out of the cancelled status. */
  lemma HeldRefundStates(y: System, ops: seq<Op>, r: nat)
    requires Fresh(y) && r in Run(y, ops).stripe.refunds
    ensures var z := Run(y, ops);
            && r < |z.t.requests| && z.t.requests[r].order < |z.t.orders|
            && (z.t.orders[z.t.requests[r].order] != Cancelled ==>
                  match z.t.requests[r].status
                  case Approved => z.t.requests[r].refund.Some? && Revivals(y, ops, z.t.requests[r].order) > 0
                  case Open => z.t.requests[r].refund == None && (Carried(z, r) || exists k: nat :: AbandonsAt(y, ops, r, k))
                  case _ => z.t.requests[r].refund == None)
  {
    var z := Run(y, ops);
    RunKnown(y, ops);
    RunRecorded(y, ops);
    assert RequestOk(z, r);
    var o := z.t.requests[r].order;
    OrdersStand(y, ops);
    ApprovalsBounded(y, ops, o);
    if z.t.requests[r].status == Approved {
      SomeApproval(z.t.requests, o, r);
    }
    if LeftOpen(z, r) {
      LeftOpenWasAbandoned(y, ops, r);
    }
  }

  lemma {:induction false} OrdersStand(y: System, ops: seq<Op>)
    ensures |Run(y, ops).t.orders| == |y.t.orders| && |Run(y, ops).t.payouts| == |y.t.payouts|
  {
    if ops != [] {
      OrdersStand(y, ops[..|ops| - 1]);
      StepExtends(Run(y, ops[..|ops| - 1]), ops[|ops| - 1]);
    }
  }

  // ----- Payouts left alone -----

  lemma StepPayoutOrder(y: System, op: Op, p: nat)
    requires p < |y.t.payouts|
    ensures |Step(y, op).t.payouts| == |y.t.payouts| && Step(y, op).t.payouts[p].order == y.t.payouts[p].order
  {
    StepExtends(y, op);
    if op.OpAct? && op.h in y.approvals && y.approvals[op.h].pc == AtApprove {
      MarkReversedAt(y.t.payouts, y.approvals[op.h].reversed, p);
    }
  }

  /** Step j of the run is the listing of approval h. */
  ghost predicate ListsAt(y: System, ops: seq<Op>, h: nat, j: nat) {
    && j < |ops| && ops[j] == OpAct(h, true)
    && h in Run(y, ops[..j]).approvals && Run(y, ops[..j]).approvals[h].pc == AtList
  }

  /** What approval h works on is the listing of step j. */
  ghost predicate Listing(y: System, ops: seq<Op>, h: nat, j: nat)
    requires h in Run(y, ops).approvals
  {
    ListsAt(y, ops, h, j) && Run(y, ops).approvals[h].listed == ListPayouts(Run(y, ops[..j]).t.payouts, Run(y, ops).approvals[h].order)
  }

  lemma {:induction false} WasListed(y: System, ops: seq<Op>, h: nat) returns (j: nat)
    requires Fresh(y) && h in Run(y, ops).approvals
    requires var pc := Run(y, ops).approvals[h].pc; pc == AtRefund || pc == AtReverse || pc == AtApprove
    ensures Listing(y, ops, h, j)
  {
    var n := |ops| - 1;
    var init := ops[..n];
    var mid := Run(y, init);
    assert h in mid.approvals;
    j := n;
    if mid.approvals[h].pc != AtList {
      j := WasListed(y, init, h);
      assert init[..j] == ops[..j];
    }
  }

  lemma {:induction false} PayoutOrders(y: System, ops: seq<Op>, p: nat)
    requires p < |y.t.payouts|
    ensures |Run(y, ops).t.payouts| == |y.t.payouts| && Run(y, ops).t.payouts[p].order == y.t.payouts[p].order
  {
    if ops != [] {
      PayoutOrders(y, ops[..|ops| - 1], p);
      StepPayoutOrder(Run(y, ops[..|ops| - 1]), ops[|ops| - 1], p);
    }
  }

  /** An approval that goes through leaves a payout of its order completed with its transfer
      exactly when the payout became so after the approval had listed the payouts, at step j. The
      order is cancelled and refunded, and the seller keeps that transfer. */
  lemma LeftUnreversed(y: System, ops: seq<Op>, h: nat, p: nat) returns (j: nat)
    requires Fresh(y) && p < |y.t.payouts| && h in Run(y, ops).approvals && Run(y, ops).approvals[h].pc == AtApprove
    requires Step(Run(y, ops), OpAct(h, true)).approvals[h].pc == Done(true)
    requires y.t.payouts[p].order == Run(y, ops).approvals[h].order
    ensures ListsAt(y, ops, h, j) && |Run(y, ops[..j]).t.payouts| == |Run(y, ops).t.payouts| == |y.t.payouts|
    ensures var z, z' := Run(y, ops), Step(Run(y, ops), OpAct(h, true));
            && |z'.t.payouts| == |y.t.payouts|
            && (z'.t.payouts[p].Reversible() <==> z.t.payouts[p].Reversible() && !Run(y, ops[..j]).t.payouts[p].Reversible())
  {
    j := WasListed(y, ops, h);
    RunKeepsInv(y, ops);
    PayoutOrders(y, ops, p);
    PayoutOrders(y, ops[..j], p);
    ApprovalIsAtomic(Run(y, ops), h, p);
    ListMeaning(Run(y, ops[..j]).t.payouts, Run(y, ops).approvals[h].order, p);
  }
}
