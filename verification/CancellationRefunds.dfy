/** How often a buyer is refunded for one order, which requests hold a refund, and which payouts an
    approval leaves alone, over every run of the cancellation workflow. */
module CancellationRefunds {
  import opened Common
  import opened Cancellation
  import opened CancellationTheorems

  // ----- Counting the refunds of an order -----

  predicate Concerns(requests: seq<Request>, r: nat, o: nat) {
    r < |requests| && requests[r].order == o
  }

  /** The refunds Stripe made for requests of order o. */
  function OrderRefunds(refunds: seq<nat>, requests: seq<Request>, o: nat): nat {
    if refunds == [] then 0
    else OrderRefunds(refunds[..|refunds| - 1], requests, o) + Bit(Concerns(requests, refunds[|refunds| - 1], o))
  }

  function RefundsOf(y: System, o: nat): nat {
    OrderRefunds(y.stripe.refunds, y.t.requests, o)
  }

  /** Stripe knows no request that the table does not. */
  predicate RefundsKnown(y: System) {
    forall i | 0 <= i < |y.stripe.refunds| :: y.stripe.refunds[i] < |y.t.requests|
  }

  /** Stripe accepts a refund call of an approval of order o, for request r, whatever it answers. */
  predicate RefundAccepted(y: System, op: Op, r: nat, o: nat) {
    ((op.OpAct? && op.ok) || op.OpTimeout?) && op.h in y.approvals &&
    var v := y.approvals[op.h];
    v.pc == AtRefund && v.request == r && v.order == o
  }

  /** The operation is a step of an approval that exists. */
  predicate Moves(y: System, op: Op) {
    (op.OpAct? || op.OpTimeout?) && op.h in y.approvals
  }

  /** The request, if any, whose refund this step gets accepted. */
  function AcceptedNow(y: System, op: Op, o: nat): set<nat> {
    if Moves(y, op) && RefundAccepted(y, op, y.approvals[op.h].request, o) then {y.approvals[op.h].request} else {}
  }

  /** The requests of order o whose refund call was accepted, once or more often. */
  function Accepted(y: System, ops: seq<Op>, o: nat): set<nat> {
    if ops == [] then {}
    else
      var init := ops[..|ops| - 1];
      Accepted(y, init, o) + AcceptedNow(Run(y, init), ops[|ops| - 1], o)
  }

  /** An accepted call that makes Stripe pay: no refund under this request's key yet. */
  predicate NewRefund(y: System, op: Op, o: nat) {
    Moves(y, op) && y.approvals[op.h].request !in y.stripe.refunds
    && RefundAccepted(y, op, y.approvals[op.h].request, o)
  }

  lemma {:induction false} RefundsSame(refunds: seq<nat>, requests: seq<Request>, requests': seq<Request>, o: nat)
    requires |requests| <= |requests'| && forall i | 0 <= i < |refunds| :: refunds[i] < |requests|
    requires forall r | 0 <= r < |requests| :: requests'[r].order == requests[r].order
    ensures OrderRefunds(refunds, requests', o) == OrderRefunds(refunds, requests, o)
  {
    if refunds != [] {
      RefundsSame(refunds[..|refunds| - 1], requests, requests', o);
    }
  }

  /** What one step does to the refunds. */
  lemma StepStripe(y: System, op: Op)
    requires Inv(y) && RefundsKnown(y)
    ensures var y' := Step(y, op);
            && RefundsKnown(y')
            && y'.stripe.refunds == y.stripe.refunds +
                 if Moves(y, op) && NewRefund(y, op, y.approvals[op.h].order)
                 then [y.approvals[op.h].request] else []
  {
    StepExtends(y, op);
    if Moves(y, op) {
      var v := y.approvals[op.h];
      assert ApprovalOk(y, v);
      if v.pc == AtRefund {
        assert RefundOf(y.stripe.refunds, v.request) == None <==> v.request !in y.stripe.refunds;
      }
    }
  }

  lemma StepRefunds(y: System, op: Op, o: nat)
    requires Inv(y) && RefundsKnown(y)
    ensures RefundsOf(Step(y, op), o) == RefundsOf(y, o) + Bit(NewRefund(y, op, o))
  {
    var y' := Step(y, op);
    StepExtends(y, op);
    StepStripe(y, op);
    RefundsSame(y.stripe.refunds, y.t.requests, y'.t.requests, o);
    if Moves(y, op) && NewRefund(y, op, y.approvals[op.h].order) {
      assert ApprovalOk(y, y.approvals[op.h]);
      assert y'.stripe.refunds[..|y.stripe.refunds|] == y.stripe.refunds;
    } else {
      assert y'.stripe.refunds == y.stripe.refunds;
    }
  }

  lemma {:induction false} RunKnown(y: System, ops: seq<Op>)
    requires Fresh(y)
    ensures Inv(Run(y, ops)) && RefundsKnown(Run(y, ops))
  {
    RunKeepsInv(y, ops);
    if ops != [] {
      RunKnown(y, ops[..|ops| - 1]);
      StepStripe(Run(y, ops[..|ops| - 1]), ops[|ops| - 1]);
    }
  }

  /** `rs` are the requests of order o that hold a refund. */
  ghost predicate Holding(y: System, o: nat, rs: set<nat>) {
    forall r :: r in rs <==> r in y.stripe.refunds && Concerns(y.t.requests, r, o)
  }

  lemma StepHolding(y: System, op: Op, o: nat, rs: set<nat>)
    requires Inv(y) && RefundsKnown(y) && Holding(y, o, rs)
    ensures Holding(Step(y, op), o, rs + AcceptedNow(y, op, o))
    ensures |rs + AcceptedNow(y, op, o)| == |rs| + Bit(NewRefund(y, op, o))
  {
    var now := AcceptedNow(y, op, o);
    forall r
      ensures r in rs + now <==> r in Step(y, op).stripe.refunds && Concerns(Step(y, op).t.requests, r, o)
    {
      StepHeld(y, op, o, r);
    }
    if Moves(y, op) {
      assert ApprovalOk(y, y.approvals[op.h]);
      OneMore(rs, now, y.approvals[op.h].request);
    }
  }

  lemma OneMore(rs: set<nat>, now: set<nat>, r: nat)
    requires now == {} || now == {r}
    ensures |rs + now| == |rs| + Bit(now == {r} && r !in rs)
  {
    if now == {} || r in rs {
      assert rs + now == rs;
    }
  }

  lemma StepHeld(y: System, op: Op, o: nat, r: nat)
    requires Inv(y) && RefundsKnown(y)
    ensures r in Step(y, op).stripe.refunds && Concerns(Step(y, op).t.requests, r, o) <==>
              (r in y.stripe.refunds && Concerns(y.t.requests, r, o)) || r in AcceptedNow(y, op, o)
  {
    StepExtends(y, op);
    StepStripe(y, op);
    if Moves(y, op) {
      assert ApprovalOk(y, y.approvals[op.h]);
    }
  }

  /** Over every run, Stripe's refunds of an order are one for each of its requests whose refund
      call was ever accepted, however often it was. */
  lemma {:induction false} RefundsCounted(y: System, ops: seq<Op>, o: nat)
    requires Fresh(y)
    ensures RefundsOf(Run(y, ops), o) == |Accepted(y, ops, o)|
    ensures Holding(Run(y, ops), o, Accepted(y, ops, o))
  {
    if ops != [] {
      var init, last := ops[..|ops| - 1], ops[|ops| - 1];
      RefundsCounted(y, init, o);
      RunKnown(y, init);
      StepRefunds(Run(y, init), last, o);
      StepHolding(Run(y, init), last, o, Accepted(y, init, o));
    }
  }

  /** A new refund while another request of the same order already holds one. */
  predicate SecondRefund(y: System, op: Op, o: nat) {
    NewRefund(y, op, o) && exists r :: r in y.stripe.refunds && Concerns(y.t.requests, r, o)
  }

  lemma {:induction false} SomeRefund(refunds: seq<nat>, requests: seq<Request>, o: nat)
    ensures OrderRefunds(refunds, requests, o) > 0 <==> exists r :: r in refunds && Concerns(requests, r, o)
  {
    if refunds != [] {
      var n := |refunds| - 1;
      SomeRefund(refunds[..n], requests, o);
      assert refunds == refunds[..n] + [refunds[n]];
    }
  }

  ghost predicate SecondRefundAt(y: System, ops: seq<Op>, o: nat, k: nat) {
    k < |ops| && SecondRefund(Run(y, ops[..k]), ops[k], o)
  }

  lemma SecondRefundEarlier(y: System, ops: seq<Op>, o: nat, k: nat)
    requires ops != []
    ensures SecondRefundAt(y, ops, o, k) <==>
              SecondRefundAt(y, ops[..|ops| - 1], o, k) || (k == |ops| - 1 && SecondRefund(Run(y, ops[..|ops| - 1]), ops[|ops| - 1], o))
  {
    if k < |ops| {
      assert k < |ops| - 1 ==> ops[..|ops| - 1][..k] == ops[..k];
    }
  }

  /** An order is refunded more than once exactly when some step gets a refund accepted for a
      request that has none while another request of the order has one. */
  lemma {:induction false} RefundedTwiceIff(y: System, ops: seq<Op>, o: nat)
    requires Fresh(y)
    ensures RefundsOf(Run(y, ops), o) >= 2 <==> exists k: nat :: SecondRefundAt(y, ops, o, k)
  {
    if ops != [] {
      var init, last := ops[..|ops| - 1], ops[|ops| - 1];
      RefundedTwiceIff(y, init, o);
      LastRefund(y, init, last, o);
      if k: nat :| SecondRefundAt(y, ops, o, k) {
        SecondRefundEarlier(y, ops, o, k);
      }
      if RefundsOf(Run(y, init), o) >= 2 {
        var k: nat :| SecondRefundAt(y, init, o, k);
        SecondRefundEarlier(y, ops, o, k);
      } else {
        SecondRefundEarlier(y, ops, o, |init|);
      }
    }
  }

  lemma LastRefund(y: System, init: seq<Op>, last: Op, o: nat)
    requires Fresh(y)
    ensures var mid := Run(y, init);
            && RefundsOf(Step(mid, last), o) == RefundsOf(mid, o) + Bit(NewRefund(mid, last, o))
            && (SecondRefund(mid, last, o) <==> NewRefund(mid, last, o) && RefundsOf(mid, o) > 0)
  {
    RunKnown(y, init);
    StepRefunds(Run(y, init), last, o);
    SomeRefund(Run(y, init).stripe.refunds, Run(y, init).t.requests, o);
  }

  // ----- A bound from the resolutions -----

  /** A request that holds a refund or is being approved. */
  predicate Live(y: System, r: nat) {
    r in y.stripe.refunds || exists h :: h in y.approvals && y.approvals[h].request == r
  }

  predicate LiveOpenAt(y: System, o: nat, r: nat) {
    Concerns(y.t.requests, r, o) && y.t.requests[r].status == Open && Live(y, r)
  }

  ghost predicate LiveOpen(y: System, o: nat) {
    exists r: nat :: LiveOpenAt(y, o, r)
  }

  /** The order is cancelled and no open request of it is at work. */
  ghost predicate AtRest(y: System, o: nat) {
    o < |y.t.orders| && y.t.orders[o] == Cancelled && !LiveOpen(y, o)
  }

  lemma ApprovalFrom(y: System, op: Op, h: nat)
    requires h in Step(y, op).approvals
    ensures if h in y.approvals then Step(y, op).approvals[h].request == y.approvals[h].request && Step(y, op).approvals[h].order == y.approvals[h].order
            else op.OpBegin? && op.h == h && Step(y, op).approvals[h].request == op.request && Begins(y, op.request)
  {
  }

  /** An approval may begin on r: its order can be cancelled. */
  predicate Begins(y: System, r: nat) {
    r < |y.t.requests| && y.t.requests[r].order < |y.t.orders| && CanBeCancelled(y.t.orders[y.t.requests[r].order])
  }

  /** Only the beginning of an approval makes a request live. */
  lemma LiveFrom(y: System, op: Op, r: nat)
    requires Inv(y) && RefundsKnown(y) && Live(Step(y, op), r)
    ensures Live(y, r) || (op.OpBegin? && op.request == r && Begins(y, r))
  {
    StepStripe(y, op);
    if h :| h in Step(y, op).approvals && Step(y, op).approvals[h].request == r {
      ApprovalFrom(y, op, h);
    }
  }

  /** A request that is live and open after a step was so before, unless its approval begins. */
  lemma LiveBefore(y: System, op: Op, o: nat, r: nat)
    requires Inv(y) && RefundsKnown(y) && LiveOpenAt(Step(y, op), o, r)
    ensures LiveOpenAt(y, o, r) || (op.OpBegin? && op.request == r && o < |y.t.orders| && CanBeCancelled(y.t.orders[o]))
  {
    StepExtends(y, op);
    LiveFrom(y, op, r);
    if Live(y, r) {
      LiveIsKnown(y, r);
    }
  }

  lemma LiveIsKnown(y: System, r: nat)
    requires Inv(y) && RefundsKnown(y) && Live(y, r)
    ensures r < |y.t.requests|
  {
    if h :| h in y.approvals && y.approvals[h].request == r {
      assert ApprovalOk(y, y.approvals[h]);
    }
  }

  lemma StepRests(y: System, op: Op, o: nat)
    requires Inv(y) && RefundsKnown(y) && o < |y.t.orders|
    ensures var y' := Step(y, op);
            Approvals(y'.t.requests, o) + Bit(AtRest(y, o)) <=
              Approvals(y.t.requests, o) + Bit(AtRest(y', o)) + Bit(Revives(y, op, o))
  {
    var y' := Step(y, op);
    StepApprovals(y, op, o);
    StepExtends(y, op);
    if r: nat :| LiveOpenAt(y', o, r) {
      LiveBefore(y, op, o, r);
      if y.t.orders[o] != Cancelled && y'.t.orders[o] == Cancelled && op.OpAct? && op.h in y.approvals {
        CommitLeavesNoneOpen(y, op.h, op.ok, o, r);
      }
    }
  }

  /** The write phase that cancels an order resolves its only open request. */
  lemma CommitLeavesNoneOpen(y: System, h: nat, ok: bool, o: nat, r: nat)
    requires Inv(y) && h in y.approvals && o < |y.t.orders| && y.t.orders[o] != Cancelled
    requires Step(y, OpAct(h, ok)).t.orders[o] == Cancelled
    ensures !LiveOpenAt(Step(y, OpAct(h, ok)), o, r)
  {
    assert ApprovalOk(y, y.approvals[h]);
  }

  /** Over every run, approvals and live open requests of a cancelled order are paid for by
      revivals: while nothing is in progress on a cancelled order, one approval is free. */
  lemma {:induction false} RestsBounded(y: System, ops: seq<Op>, o: nat)
    requires Fresh(y) && o < |y.t.orders|
    ensures |Run(y, ops).t.orders| == |y.t.orders|
    ensures Approvals(Run(y, ops).t.requests, o) <= Revivals(y, ops, o) + Bit(AtRest(Run(y, ops), o))
  {
    if ops != [] {
      var init, last := ops[..|ops| - 1], ops[|ops| - 1];
      RestsBounded(y, init, o);
      RunKnown(y, init);
      StepExtends(Run(y, init), last);
      StepRests(Run(y, init), last, o);
    }
  }

  predicate OpenAmong(requests: seq<Request>, rs: set<nat>) {
    exists r :: r in rs && r < |requests| && requests[r].status == Open
  }

  /** Distinct requests of one order, at most one of them open. */
  lemma {:induction false} ByStatus(requests: seq<Request>, rs: set<nat>, o: nat)
    requires OneOpen(requests) && forall r | r in rs :: Concerns(requests, r, o)
    ensures |rs| <= WithStatus(requests, o, Rejected) + WithStatus(requests, o, Failed) + Approvals(requests, o)
                    + Bit(OpenAmong(requests, rs))
  {
    if requests == [] {
      assert rs == {};
    } else {
      var n := |requests| - 1;
      var init, rest := requests[..n], rs - {n};
      forall r | r in rest
        ensures Concerns(init, r, o) && init[r] == requests[r]
      {
        assert Concerns(requests, r, o);
      }
      ByStatus(init, rest, o);
      if n in rs {
        assert rs == rest + {n};
      } else {
        assert rs == rest;
      }
    }
  }

  /** Over every run, an order is refunded at most once more than its requests were rejected or
      failed and it was taken back out of the cancelled status. */
  lemma RefundsBounded(y: System, ops: seq<Op>, o: nat)
    requires Fresh(y) && o < |y.t.orders|
    ensures var z := Run(y, ops);
            RefundsOf(z, o) <= WithStatus(z.t.requests, o, Rejected) + WithStatus(z.t.requests, o, Failed) + Revivals(y, ops, o) + 1
  {
    var z, rs := Run(y, ops), Accepted(y, ops, o);
    RunKnown(y, ops);
    RefundsCounted(y, ops, o);
    RestsBounded(y, ops, o);
    ByStatus(z.t.requests, rs, o);
    if r :| r in rs && r < |z.t.requests| && z.t.requests[r].status == Open {
      assert LiveOpenAt(z, o, r);
    }
  }

  /** An order none of whose requests was rejected or failed, and which was never taken back out
      of the cancelled status, is refunded at most once. */
  lemma RefundedOnce(y: System, ops: seq<Op>, o: nat)
    requires Fresh(y) && o < |y.t.orders|
    requires forall r | 0 <= r < |Run(y, ops).t.requests| && Run(y, ops).t.requests[r].order == o ::
               Run(y, ops).t.requests[r].status != Rejected && Run(y, ops).t.requests[r].status != Failed
    requires forall k: nat | k < |ops| :: !Revives(Run(y, ops[..k]), ops[k], o)
    ensures RefundsOf(Run(y, ops), o) <= 1
  {
    RefundsBounded(y, ops, o);
    NoRevivals(y, ops, o);
    NoneWithStatus(Run(y, ops).t.requests, o, Rejected);
    NoneWithStatus(Run(y, ops).t.requests, o, Failed);
  }

  lemma {:induction false} NoneWithStatus(requests: seq<Request>, o: nat, status: RequestStatus)
    requires forall r | 0 <= r < |requests| && requests[r].order == o :: requests[r].status != status
    ensures WithStatus(requests, o, status) == 0
  {
    if requests != [] {
      NoneWithStatus(requests[..|requests| - 1], o, status);
    }
  }
}
