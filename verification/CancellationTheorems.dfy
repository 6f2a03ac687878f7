/** What holds along every run of the cancellation workflow, and where the code promises more. */
module CancellationTheorems {
  import opened Common
  import opened Cancellation

  /** At most one request per order is open at any time, over every run. */
  lemma OneOpenRequest(y: System, ops: seq<Op>, i: nat, j: nat)
    requires Fresh(y)
    requires var z := Run(y, ops); i < j < |z.t.requests| && z.t.requests[i].order == z.t.requests[j].order
    ensures var z := Run(y, ops); !(z.t.requests[i].status == Open && z.t.requests[j].status == Open)
  {
    RunKeepsInv(y, ops);
  }

  /** A resolved request never changes again. */
  lemma ResolvedForever(y: System, ops: seq<Op>, later: seq<Op>, r: nat)
    requires Fresh(y) && r < |Run(y, ops).t.requests| && Run(y, ops).t.requests[r].status != Open
    ensures var z := Run(Run(y, ops), later);
            r < |z.t.requests| && z.t.requests[r] == Run(y, ops).t.requests[r]
  {
    RunKeepsInv(y, ops);
    RunKeepsInv(Run(y, ops), later);
  }

  /** However many approvals of the same request run at once, crash or are repeated: one refund per
      request and one reversal per request and payout. */
  lemma OneRefundPerRequest(y: System, ops: seq<Op>)
    requires Fresh(y)
    ensures var s := Run(y, ops).stripe;
            && (forall i, j | 0 <= i < j < |s.refunds| :: s.refunds[i] != s.refunds[j])
            && (forall i, j | 0 <= i < j < |s.reversals| :: s.reversals[i] != s.reversals[j])
  {
    RunKeepsInv(y, ops);
  }

  /** An approved request carries the id of its own refund at Stripe. */
  lemma ApprovedIsRefunded(y: System, ops: seq<Op>, r: nat)
    requires Fresh(y) && r < |Run(y, ops).t.requests| && Run(y, ops).t.requests[r].status == Approved
    ensures var z := Run(y, ops);
            var refund := z.t.requests[r].refund;
            refund.Some? && refund.value < |z.stripe.refunds| && z.stripe.refunds[refund.value] == r
  {
    RunKeepsInv(y, ops);
    assert RequestOk(Run(y, ops), r);
  }

  lemma {:induction false} ListedAre(payouts: seq<Payout>, order: nat)
    ensures forall i | 0 <= i < |ListPayouts(payouts, order)| ::
              var l := ListPayouts(payouts, order)[i];
              l.id < |payouts| && l.payout == payouts[l.id] && l.payout.order == order
    ensures forall i, j | 0 <= i < j < |ListPayouts(payouts, order)| :: ListPayouts(payouts, order)[i].id < ListPayouts(payouts, order)[j].id
    ensures forall p | 0 <= p < |payouts| && payouts[p].order == order :: Listed(p, payouts[p]) in ListPayouts(payouts, order)
  {
    if payouts != [] {
      ListedAre(payouts[..|payouts| - 1], order);
    }
  }

  lemma {:induction false} MarkReversedAt(payouts: seq<Payout>, rs: seq<Reversed>, p: nat)
    requires p < |payouts|
    ensures (forall j | 0 <= j < |rs| :: rs[j].payout != p) ==> MarkReversed(payouts, rs)[p] == payouts[p]
    ensures (exists j :: 0 <= j < |rs| && rs[j].payout == p) ==>
              exists j :: 0 <= j < |rs| && rs[j].payout == p
                          && MarkReversed(payouts, rs)[p] == payouts[p].(status := PayoutReversed, reversal := Some(rs[j].reversal))
  {
    if rs != [] {
      var init, last := rs[..|rs| - 1], rs[|rs| - 1];
      MarkReversedAt(payouts, init, p);
      if last.payout == p {
        assert rs[|rs| - 1].payout == p;
      } else if j :| 0 <= j < |rs| && rs[j].payout == p {
        assert init[j].payout == p;
        var i :| 0 <= i < |init| && init[i].payout == p
                 && MarkReversed(payouts, init)[p] == payouts[p].(status := PayoutReversed, reversal := Some(init[i].reversal));
        assert rs[i] == init[i];
      }
    }
  }

  lemma {:induction false} ReversibleIn(listed: seq<Listed>, p: nat)
    ensures p in ReversibleIds(listed) <==> exists i :: 0 <= i < |listed| && listed[i].id == p && listed[i].payout.Reversible()
  {
    if listed != [] {
      var n := |listed| - 1;
      ReversibleIn(listed[..n], p);
      if i :| 0 <= i < |listed| && listed[i].id == p && listed[i].payout.Reversible() {
        if i < n {
          assert listed[..n][i].id == p;
        }
      }
      if p in ReversibleIds(listed[..n]) {
        var i :| 0 <= i < n && listed[..n][i].id == p && listed[..n][i].payout.Reversible();
        assert listed[i].id == p;
      }
    }
  }

  /** An approval that goes through changes, in one transaction, exactly its request, its order and
      the payouts it listed as completed with a transfer; each of those carries the reversal that
      Stripe holds for this request and payout. One that does not go through changes nothing. */
  lemma ApprovalIsAtomic(y: System, h: nat, p: nat)
    requires Inv(y) && h in y.approvals && y.approvals[h].pc == AtApprove && p < |y.t.payouts|
    ensures var v, y' := y.approvals[h], Step(y, OpAct(h, true));
            if y'.approvals[h].pc == Done(true) then
              && y.t.requests[v.request].status == Open && CanBeCancelled(y.t.orders[v.order])
              && y'.t.orders == y.t.orders[v.order := Cancelled]
              && y'.t.requests == y.t.requests[v.request := y.t.requests[v.request].(status := Approved, refund := Some(v.refund))]
              && |y'.t.payouts| == |y.t.payouts|
              && (if p in ReversibleIds(v.listed)
                  then && y'.t.payouts[p].status == PayoutReversed && y'.t.payouts[p].reversal.Some?
                       && y'.t.payouts[p].reversal.value < |y.stripe.reversals|
                       && y.stripe.reversals[y'.t.payouts[p].reversal.value] == ReversalKey(v.request, p)
                  else y'.t.payouts[p] == y.t.payouts[p])
            else y'.t == y.t
  {
    var v, y' := y.approvals[h], Step(y, OpAct(h, true));
    assert ApprovalOk(y, v);
    assert v.listed[..|v.listed|] == v.listed;
    MarkReversedAt(y.t.payouts, v.reversed, p);
    if p in ReversibleIds(v.listed) {
      var j :| 0 <= j < |ReversibleIds(v.listed)| && ReversibleIds(v.listed)[j] == p;
      assert v.reversed[j].payout == p;
    } else {
      assert forall j | 0 <= j < |v.reversed| :: v.reversed[j].payout == ReversibleIds(v.listed)[j];
    }
  }

  /** What an approval lists is exactly its order's payouts, as they were then. */
  lemma ListMeaning(payouts: seq<Payout>, order: nat, p: nat)
    ensures p in ReversibleIds(ListPayouts(payouts, order)) <==> p < |payouts| && payouts[p].order == order && payouts[p].Reversible()
  {
    ListedAre(payouts, order);
    var ls := ListPayouts(payouts, order);
    ReversibleIn(ls, p);
    if p < |payouts| && payouts[p].order == order && payouts[p].Reversible() {
      var i :| 0 <= i < |ls| && ls[i] == Listed(p, payouts[p]);
      assert ls[i].id == p;
    }
  }

  // ----- How many approvals an order can get -----

  /** How many requests of order o have this status. */
  function WithStatus(requests: seq<Request>, o: nat, status: RequestStatus): nat {
    if requests == [] then 0
    else
      var last := requests[|requests| - 1];
      WithStatus(requests[..|requests| - 1], o, status) + Bit(last.order == o && last.status == status)
  }

  function Approvals(requests: seq<Request>, o: nat): nat {
    WithStatus(requests, o, Approved)
  }

  /** A status update that takes order o out of the cancelled status. */
  predicate Revives(y: System, op: Op, o: nat) {
    o < |y.t.orders| && y.t.orders[o] == Cancelled && Step(y, op).t.orders != y.t.orders && op.OpStatus? && op.order == o
  }

  function Revivals(y: System, ops: seq<Op>, o: nat): nat {
    if ops == [] then 0
    else
      var init := ops[..|ops| - 1];
      Revivals(y, init, o) + if Revives(Run(y, init), ops[|ops| - 1], o) then 1 else 0
  }

  function Bit(b: bool): nat {
    if b then 1 else 0
  }

  lemma {:induction false} ApprovalsUpdate(requests: seq<Request>, r: nat, q: Request, o: nat)
    requires r < |requests| && q.order == requests[r].order
    ensures Approvals(requests[r := q], o) ==
              Approvals(requests, o) - Bit(requests[r].order == o && requests[r].status == Approved)
                                     + Bit(q.order == o && q.status == Approved)
  {
    var n := |requests| - 1;
    if r < n {
      ApprovalsUpdate(requests[..n], r, q, o);
      assert requests[r := q][..n] == requests[..n][r := q];
    } else {
      assert requests[r := q][..n] == requests[..n];
    }
  }

  lemma ResolveApprovals(t: Tables, r: nat, status: RequestStatus, o: nat)
    requires status != Approved
    ensures Approvals(Resolve(t, r, status).requests, o) == Approvals(t.requests, o)
  {
    if r < |t.requests| && t.requests[r].status == Open {
      ApprovalsUpdate(t.requests, r, t.requests[r].(status := status), o);
    }
  }

  lemma ApproveTxApprovals(t: Tables, v: Approval, o: nat)
    requires v.request < |t.requests| && t.requests[v.request].order == v.order && o < |t.orders|
    ensures var (t', outcome) := ApproveTx(t, v);
            && |t'.orders| == |t.orders|
            && Approvals(t'.requests, o) + Bit(t.orders[o] == Cancelled) == Approvals(t.requests, o) + Bit(t'.orders[o] == Cancelled)
  {
    if ApproveTx(t, v).1 == Committed {
      ApprovalsUpdate(t.requests, v.request, t.requests[v.request].(status := Approved, refund := Some(v.refund)), o);
    }
  }

  /** One step: an approval needs an order that is not cancelled and leaves it cancelled. */
  lemma StepApprovals(y: System, op: Op, o: nat)
    requires Inv(y) && o < |y.t.orders|
    ensures var y' := Step(y, op);
            && |y'.t.orders| == |y.t.orders|
            && Approvals(y'.t.requests, o) + Bit(y.t.orders[o] == Cancelled) <=
                 Approvals(y.t.requests, o) + Bit(y'.t.orders[o] == Cancelled) + Bit(Revives(y, op, o))
  {
    var y' := Step(y, op);
    match op
    case OpRequest(_) =>
      if y'.t.requests != y.t.requests {
        assert y'.t.requests[..|y.t.requests|] == y.t.requests;
      }
    case OpReject(r) => ResolveApprovals(y.t, r, Rejected, o);
    case OpAct(h, ok) =>
      if h in y.approvals {
        assert ApprovalOk(y, y.approvals[h]);
        ActApprovals(y.t, y.stripe, y.approvals[h], ok, o);
      }
    case _ =>
  }

  lemma ActApprovals(t: Tables, s: Stripe, v: Approval, ok: bool, o: nat)
    requires v.request < |t.requests| && t.requests[v.request].order == v.order && o < |t.orders|
    ensures var t' := Act(t, s, v, ok).0;
            && |t'.orders| == |t.orders|
            && Approvals(t'.requests, o) + Bit(t.orders[o] == Cancelled) == Approvals(t.requests, o) + Bit(t'.orders[o] == Cancelled)
  {
    ApproveTxApprovals(t, v, o);
    ResolveApprovals(t, v.request, Failed, o);
  }

  /** Over every run, an order has at most one approved request more than it was taken back out of
      the cancelled status; without such a revival it has at most one. */
  lemma {:induction false} ApprovalsBounded(y: System, ops: seq<Op>, o: nat)
    requires Fresh(y) && o < |y.t.orders|
    ensures var z := Run(y, ops);
            |z.t.orders| == |y.t.orders| && Approvals(z.t.requests, o) <= Revivals(y, ops, o) + Bit(z.t.orders[o] == Cancelled)
  {
    if ops != [] {
      var init, last := ops[..|ops| - 1], ops[|ops| - 1];
      ApprovalsBounded(y, init, o);
      RunKeepsInv(y, init);
      StepApprovals(Run(y, init), last, o);
    }
  }

  /** Cancellation, payment and guarded status steps alone never approve twice. */
  lemma AtMostOneApproval(y: System, ops: seq<Op>, o: nat)
    requires Fresh(y) && o < |y.t.orders|
    requires forall k: nat | k < |ops| :: !Revives(Run(y, ops[..k]), ops[k], o)
    ensures Approvals(Run(y, ops).t.requests, o) <= 1
  {
    ApprovalsBounded(y, ops, o);
    NoRevivals(y, ops, o);
  }

  lemma {:induction false} NoRevivals(y: System, ops: seq<Op>, o: nat)
    requires forall k: nat | k < |ops| :: !Revives(Run(y, ops[..k]), ops[k], o)
    ensures Revivals(y, ops, o) == 0
  {
    if ops != [] {
      var init := ops[..|ops| - 1];
      forall k: nat | k < |init|
        ensures !Revives(Run(y, init[..k]), init[k], o)
      {
        assert init[..k] == ops[..k];
      }
      NoRevivals(y, init, o);
      assert ops[..|init|] == init;
    }
  }
}
