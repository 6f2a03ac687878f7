/** What an approval gets done when nothing interferes and every call is accepted, and where a refused
    call stops it. */
module CancellationProgress {
  import opened Common
  import opened Cancellation
  import opened CancellationTheorems

  /** n steps of one approval, answered by answers[0 .. n). */
  function Walk(t: Tables, s: Stripe, v: Approval, answers: nat -> bool, n: nat): (Tables, Stripe, Approval) {
    if n == 0 then (t, s, v)
    else
      var (t', s', v') := Walk(t, s, v, answers, n - 1);
      Act(t', s', v', answers(n - 1))
  }

  function Begun(request: nat, order: nat): Approval {
    Approval(request, order, [], 0, 0, [], AtList)
  }

  /** An order that has been shipped, delivered, completed or cancelled cannot be cancelled any more;
      every other one can. */
  lemma StatusesMeaning(s: OrderStatus)
    ensures CanBeCancelled(s) <==> !(s == Shipped || s == Delivered || s == Completed || s == Cancelled)
  {
  }

  predicate IsOpen(t: Tables, request: nat) {
    request < |t.requests| && t.requests[request].status == Open
  }

  /** A request is opened, open and without a refund, exactly for a known order that has none open; a
      resolution touches an open request's status and nothing else. */
  lemma TableOutcome(t: Tables, order: nat, request: nat, status: RequestStatus)
    ensures Create(t, order) ==
              if order < |t.orders| && (forall i | 0 <= i < |t.requests| && t.requests[i].order == order :: t.requests[i].status != Open)
              then Tables(t.orders, t.payouts, t.requests + [Request(order, Open, None)]) else t
    ensures Resolve(t, request, status) ==
              if IsOpen(t, request)
              then Tables(t.orders, t.payouts, t.requests[request := Request(t.requests[request].order, status, t.requests[request].refund)]) else t
  {
  }

  /** With at most one open request per order, and none opened while another was, the open request of an
      order is its latest. */
  lemma LatestIsOpen(y: System, ops: seq<Op>, i: nat, j: nat)
    requires Fresh(y) && i < j < |Run(y, ops).t.requests|
    requires Run(y, ops).t.requests[i].order == Run(y, ops).t.requests[j].order
    ensures Run(y, ops).t.requests[i].status != Open
  {
    OlderResolved(y, ops);
  }

  lemma {:induction false} OlderResolved(y: System, ops: seq<Op>)
    requires Fresh(y)
    ensures forall i, j | 0 <= i < j < |Run(y, ops).t.requests| && Run(y, ops).t.requests[i].order == Run(y, ops).t.requests[j].order ::
              Run(y, ops).t.requests[i].status != Open
  {
    if ops != [] {
      OlderResolved(y, ops[..|ops| - 1]);
      StepOlder(Run(y, ops[..|ops| - 1]), ops[|ops| - 1]);
    }
  }

  lemma StepOlder(y: System, op: Op)
    requires forall i, j | 0 <= i < j < |y.t.requests| && y.t.requests[i].order == y.t.requests[j].order :: y.t.requests[i].status != Open
    ensures var rs := Step(y, op).t.requests;
            forall i, j | 0 <= i < j < |rs| && rs[i].order == rs[j].order :: rs[i].status != Open
  {
    StepExtends(y, op);
    StepOpens(y, op);
  }

  /** A step opens at most one request, and only for an order that has none open. */
  lemma StepOpens(y: System, op: Op)
    ensures var rs, rs' := y.t.requests, Step(y, op).t.requests;
            |rs'| <= |rs| + 1 && (|rs'| == |rs| + 1 ==> !HasOpen(rs, rs'[|rs|].order))
  {
  }

  // ----- What an approval should do -----

  /** The payout is of this order and went out with a transfer. */
  predicate WentOut(payouts: seq<Payout>, p: nat, order: nat) {
    p < |payouts| && payouts[p].order == order && payouts[p].status == PayoutCompleted && payouts[p].transfer
  }

  /** The request is approved under its refund, the order cancelled, and exactly the payouts of the order
      that went out are reversed, each under its own reversal; Stripe holds that refund and those
      reversals, and nothing it held before is lost. */
  ghost predicate CarriedOut(t: Tables, s: Stripe, t': Tables, s': Stripe, request: nat, order: nat) {
    && request < |t.requests| && order < |t.orders| && |t'.payouts| == |t.payouts|
    && (exists id: nat :: id < |s'.refunds| && s'.refunds[id] == request
          && t'.requests == t.requests[request := t.requests[request].(status := Approved, refund := Some(id))])
    && t'.orders == t.orders[order := Cancelled]
    && (forall p: nat | p < |t.payouts| ::
          if WentOut(t.payouts, p, order) then TakenBack(s', t.payouts[p], t'.payouts[p], request, p) else t'.payouts[p] == t.payouts[p])
    && s'.refunds == (if request in s.refunds then s.refunds else s.refunds + [request])
    && s.reversals <= s'.reversals
  }

  predicate TakenBack(s: Stripe, payout: Payout, payout': Payout, request: nat, p: nat) {
    && payout'.reversal.Some? && payout'.reversal.value < |s.reversals| && s.reversals[payout'.reversal.value] == ReversalKey(request, p)
    && payout' == payout.(status := PayoutReversed, reversal := payout'.reversal)
  }

  // ----- Its walk -----

  /** Where a walk without a refusal may stand. */
  ghost predicate Underway(t0: Tables, s0: Stripe, z: (Tables, Stripe, Approval), request: nat, order: nat) {
    var (t, s, v) := z;
    && v.request == request && v.order == order
    && match v.pc
       case AtList => z == (t0, s0, Begun(request, order))
       case AtRefund => t == t0 && s == s0 && v == Begun(request, order).(listed := ListPayouts(t0.payouts, order), pc := AtRefund)
       case AtReverse => t == t0 && Reversing(t0, s0, s, v)
       case AtApprove => t == t0 && Reversing(t0, s0, s, v) && v.k == |v.listed|
       case Done(ok) => ok && CarriedOut(t0, s0, t, s, request, order)
       case AtMarkFailed => false
  }

  ghost predicate Reversing(t0: Tables, s0: Stripe, s: Stripe, v: Approval) {
    && v.refund < |s.refunds| && s.refunds[v.refund] == v.request
    && s.refunds == (if v.request in s0.refunds then s0.refunds else s0.refunds + [v.request])
    && s0.reversals <= s.reversals
    && v.listed == ListPayouts(t0.payouts, v.order) && v.k <= |v.listed|
    && ReversalsHeld(s.reversals, v.request, v.reversed, ReversibleIds(v.listed[..v.k]))
  }

  lemma StepUnderway(t0: Tables, s0: Stripe, z: (Tables, Stripe, Approval), request: nat, order: nat)
    requires Underway(t0, s0, z, request, order)
    requires request < |t0.requests| && t0.requests[request].status == Open && order < |t0.orders| && CanBeCancelled(t0.orders[order])
    ensures Underway(t0, s0, Act(z.0, z.1, z.2, true), request, order)
  {
    var (t, s, v) := z;
    match v.pc
    case AtRefund =>
      assert v.listed[..0] == [];
      RefundUnderway(s0, request);
    case AtReverse => ReverseUnderway(t0, s0, s, v);
    case AtApprove => ApproveUnderway(t0, s0, s, v);
    case _ =>
  }

  lemma RefundUnderway(s0: Stripe, request: nat)
    ensures CreateRefund(s0, request).0.refunds == (if request in s0.refunds then s0.refunds else s0.refunds + [request])
  {
  }

  lemma ReverseUnderway(t0: Tables, s0: Stripe, s: Stripe, v: Approval)
    requires v.pc == AtReverse && Reversing(t0, s0, s, v)
    ensures var (t', s', v') := Act(t0, s, v, true);
            && t' == t0 && v'.request == v.request && v'.order == v.order && Reversing(t0, s0, s', v')
            && (v'.pc == AtReverse || (v'.pc == AtApprove && v'.k == |v'.listed|))
  {
    if v.k < |v.listed| {
      ReversibleStep(v.listed, v.k);
    }
  }

  lemma ApproveUnderway(t0: Tables, s0: Stripe, s: Stripe, v: Approval)
    requires v.pc == AtApprove && Reversing(t0, s0, s, v) && v.k == |v.listed|
    requires v.request < |t0.requests| && t0.requests[v.request].status == Open && v.order < |t0.orders| && CanBeCancelled(t0.orders[v.order])
    ensures var (t', s', v') := Act(t0, s, v, true);
            v'.request == v.request && v'.order == v.order && v'.pc == Done(true) && CarriedOut(t0, s0, t', s', v.request, v.order)
  {
    var t' := Act(t0, s, v, true).0;
    assert v.listed[..v.k] == v.listed;
    forall p: nat | p < |t0.payouts|
      ensures if WentOut(t0.payouts, p, v.order) then TakenBack(s, t0.payouts[p], t'.payouts[p], v.request, p) else t'.payouts[p] == t0.payouts[p]
    {
      PayoutOutcome(t0, s, v, p);
    }
  }

  lemma PayoutOutcome(t0: Tables, s: Stripe, v: Approval, p: nat)
    requires p < |t0.payouts| && v.listed == ListPayouts(t0.payouts, v.order)
    requires ReversalsHeld(s.reversals, v.request, v.reversed, ReversibleIds(v.listed))
    ensures var ps := MarkReversed(t0.payouts, v.reversed);
            if WentOut(t0.payouts, p, v.order) then TakenBack(s, t0.payouts[p], ps[p], v.request, p) else ps[p] == t0.payouts[p]
  {
    ListMeaning(t0.payouts, v.order, p);
    MarkReversedAt(t0.payouts, v.reversed, p);
    if p in ReversibleIds(v.listed) {
      var j :| 0 <= j < |ReversibleIds(v.listed)| && ReversibleIds(v.listed)[j] == p;
      assert v.reversed[j].payout == p;
    } else {
      assert forall j | 0 <= j < |v.reversed| :: v.reversed[j].payout == ReversibleIds(v.listed)[j];
    }
  }

  lemma {:induction false} WalkUnderway(t: Tables, s: Stripe, request: nat, order: nat, answers: nat -> bool, n: nat)
    requires request < |t.requests| && t.requests[request].status == Open && order < |t.orders| && CanBeCancelled(t.orders[order])
    requires forall k | 0 <= k < n :: answers(k)
    ensures Underway(t, s, Walk(t, s, Begun(request, order), answers, n), request, order)
  {
    if n > 0 {
      WalkUnderway(t, s, request, order, answers, n - 1);
      StepUnderway(t, s, Walk(t, s, Begun(request, order), answers, n - 1), request, order);
    }
  }

  /** An approval of an open request for an order that can be cancelled is carried out when every call
      is accepted and nothing interferes. */
  lemma ApprovalCarriedOut(t: Tables, s: Stripe, request: nat, order: nat, answers: nat -> bool, n: nat)
    requires request < |t.requests| && t.requests[request].status == Open && order < |t.orders| && CanBeCancelled(t.orders[order])
    requires (forall k | 0 <= k < n :: answers(k)) && Walk(t, s, Begun(request, order), answers, n).2.pc.Done?
    ensures var z := Walk(t, s, Begun(request, order), answers, n);
            z.2.pc == Done(true) && CarriedOut(t, s, z.0, z.1, request, order)
  {
    WalkUnderway(t, s, request, order, answers, n);
  }

  // ----- Refused calls -----

  /** A call that fails writes nothing. Before the refund it ends the approval; a failed refund or
      reversal has the request marked failed next, if it is still open, and nothing else; a failed
      write leaves everything as it is. */
  lemma RefusalOutcome(t: Tables, s: Stripe, v: Approval)
    requires !v.pc.Done?
    requires v.pc == AtReverse ==> v.k < |v.listed| && v.listed[v.k].payout.status == PayoutCompleted && v.listed[v.k].payout.transfer
    ensures var (t', s', v') := Act(t, s, v, false);
            && t' == t && s' == s
            && v'.pc == if v.pc == AtRefund || v.pc == AtReverse then AtMarkFailed else Done(false)
    ensures v.pc == AtMarkFailed ==>
              var (t', s', v') := Act(t, s, v, true);
              && s' == s && v'.pc == Done(false)
              && t' == if v.request < |t.requests| && t.requests[v.request].status == Open
                       then t.(requests := t.requests[v.request := t.requests[v.request].(status := RequestStatus.Failed)]) else t
  {
  }
}
