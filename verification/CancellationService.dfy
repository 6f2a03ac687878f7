/** The cancellation service and its repository as step-by-step code. An approval that runs without
    interference is proved to be a walk of the state machine. */
module CancellationServices {
  import opened Common
  import opened Cancellation
  import opened CancellationProgress

  /** The most recent request of an order. */
  function LatestOf(requests: seq<Request>, order: nat): (r: Option<nat>)
    ensures r.Some? ==> r.value < |requests| && requests[r.value].order == order
    ensures r == None ==> forall i | 0 <= i < |requests| :: requests[i].order != order
  {
    if requests == [] then None
    else
      var n := |requests| - 1;
      if requests[n].order == order then Some(n) else LatestOf(requests[..n], order)
  }

  datatype Failure = NotCancellable | AlreadyExists | AlreadyResolved | NotFound

  datatype Result<+T> = Ok(value: T) | Err(error: Failure)

  class CancellationService {
    var orders: seq<OrderStatus>
    var payouts: seq<Payout>
    var requests: seq<Request>
    var refunds: seq<nat>
    var reversals: seq<ReversalKey>

    constructor (orders: seq<OrderStatus>, payouts: seq<Payout>)
      ensures Db() == Tables(orders, payouts, []) && External() == Stripe([], [])
    {
      this.orders, this.payouts, requests, refunds, reversals := orders, payouts, [], [], [];
    }

    function Db(): Tables
      reads this
    {
      Tables(orders, payouts, requests)
    }

    function External(): Stripe
      reads this
    {
      Stripe(refunds, reversals)
    }

    // ----- Repository -----

    method Insert(order: nat) returns (ok: bool)
      requires order < |orders|
      modifies `requests
      ensures ok == !HasOpen(old(requests), order) && Db() == Create(old(Db()), order)
    {
      ok := true;
      for i := 0 to |requests|
        invariant ok == forall j | 0 <= j < i :: !(requests[j].order == order && requests[j].status == Open)
        invariant requests == old(requests)
      {
        if requests[i].order == order && requests[i].status == Open {
          ok := false;
        }
      }
      if ok {
        requests := requests + [Request(order, Open, None)];
      }
    }

    /** Reject and MarkFailed: a transition guarded on the open status. */
    method MoveFromOpen(r: nat, status: RequestStatus) returns (ok: bool)
      modifies `requests
      ensures ok == (r < |old(requests)| && old(requests)[r].status == Open) && Db() == Resolve(old(Db()), r, status)
    {
      ok := r < |requests| && requests[r].status == Open;
      if ok {
        requests := requests[r := requests[r].(status := status)];
      }
    }

    method CommitApproval(v: Approval) returns (outcome: ApproveOutcome)
      modifies `orders, `payouts, `requests
      ensures (Db(), outcome) == ApproveTx(old(Db()), v)
    {
      if !(v.request < |requests| && requests[v.request].status == Open) {
        return AlreadyProcessed;
      }
      var before := requests;
      requests := requests[v.request := requests[v.request].(status := Approved, refund := Some(v.refund))];
      if !(v.order < |orders| && CanBeCancelled(orders[v.order])) {
        requests := before;
        return OrderStatusChanged;
      }
      orders := orders[v.order := Cancelled];
      ghost var os, rs := orders, requests;
      for j := 0 to |v.reversed|
        invariant payouts == MarkReversed(old(payouts), v.reversed[..j]) && orders == os && requests == rs
      {
        assert v.reversed[..j + 1][..j] == v.reversed[..j];
        var r := v.reversed[j];
        if r.payout < |payouts| {
          payouts := payouts[r.payout := payouts[r.payout].(status := PayoutReversed, reversal := Some(r.reversal))];
        }
      }
      assert v.reversed[..|v.reversed|] == v.reversed;
      outcome := Committed;
    }

    // ----- Service -----

    /** Opens a request for an order that can be cancelled and has none open. */
    method RequestCancellation(order: nat) returns (r: Result<nat>)
      modifies `requests
      ensures order >= |orders| ==> r == Err(NotFound)
      ensures order < |orders| && !CanBeCancelled(orders[order]) ==> r == Err(NotCancellable)
      ensures order < |orders| && CanBeCancelled(orders[order]) ==>
                if HasOpen(old(requests), order) then r == Err(AlreadyExists) else r == Ok(|old(requests)|)
      ensures Db() == if r.Ok? then Create(old(Db()), order) else old(Db())
    {
      if order >= |orders| {
        return Err(NotFound);
      }
      if !CanBeCancelled(orders[order]) {
        return Err(NotCancellable);
      }
      var ok := Insert(order);
      r := if ok then Ok(|requests| - 1) else Err(AlreadyExists);
    }

    method RejectCancellation(request: nat) returns (r: Result<()>)
      modifies `requests
      ensures Db() == Resolve(old(Db()), request, Rejected)
      ensures r.Ok? <==> request < |old(requests)| && old(requests)[request].status == Open
    {
      if request >= |requests| {
        return Err(NotFound);
      }
      var ok := MoveFromOpen(request, Rejected);
      r := if ok then Ok(()) else Err(AlreadyResolved);
    }

    /** A seller's approval: only an open request of an order that can still be cancelled. */
    method ApproveCancellation(request: nat, answers: nat -> bool) returns (r: Result<bool>, n: nat)
      modifies this
      ensures r.Ok? <==> request < |old(requests)| && old(requests)[request].status == Open
                         && old(requests)[request].order < |old(orders)| && CanBeCancelled(old(orders)[old(requests)[request].order])
      ensures r.Err? ==> unchanged(this)
      ensures r.Ok? ==>
                var v := Approval(request, old(requests)[request].order, [], 0, 0, [], AtList);
                var z := Walk(old(Db()), old(External()), v, answers, n);
                z.0 == Db() && z.1 == External() && z.2.pc == Done(r.value)
      ensures r.Ok? && (forall k | 0 <= k < n :: answers(k)) ==>
                r.value && CarriedOut(old(Db()), old(External()), Db(), External(), request, old(requests)[request].order)
    {
      n := 0;
      if request >= |requests| || requests[request].order >= |orders| {
        return Err(NotFound), n;
      }
      if requests[request].status != Open {
        return Err(AlreadyResolved), n;
      }
      if !CanBeCancelled(orders[requests[request].order]) {
        return Err(NotCancellable), n;
      }
      var ok;
      ok, n := FinalizeApproval(request, requests[request].order, answers);
      r := Ok(ok);
    }

    /** An administrator's approval: resolves the open request of the order, or opens one first. */
    method AdminForceCancel(order: nat, answers: nat -> bool) returns (r: Result<bool>, request: nat, n: nat)
      modifies this
      ensures r.Ok? <==> order < |old(orders)| && CanBeCancelled(old(orders)[order])
      ensures r.Err? ==> unchanged(this)
      ensures r.Ok? ==>
                var t := old(Db());
                var prepared := Create(t, order);
                && request < |prepared.requests| && prepared.requests[request].order == order
                && (HasOpen(t.requests, order) ==> prepared == t && LatestOf(t.requests, order) == Some(request))
                && (!HasOpen(t.requests, order) ==> request == |t.requests|)
                && var z := Walk(prepared, old(External()), Approval(request, order, [], 0, 0, [], AtList), answers, n);
                z.0 == Db() && z.1 == External() && z.2.pc == Done(r.value)
      ensures r.Ok? && IsOpen(Create(old(Db()), order), request) && (forall k | 0 <= k < n :: answers(k)) ==>
                r.value && CarriedOut(Create(old(Db()), order), old(External()), Db(), External(), request, order)
    {
      request, n := 0, 0;
      if order >= |orders| {
        return Err(NotFound), request, n;
      }
      if !CanBeCancelled(orders[order]) {
        return Err(NotCancellable), request, n;
      }
      var latest := LatestOf(requests, order);
      if latest.Some? && requests[latest.value].status == Open {
        request := latest.value;
      } else {
        var inserted := Insert(order);
        // When someone else holds the open slot, what they wrote is approved instead.
        request := if inserted then |requests| - 1 else latest.value;
      }
      var ok;
      ok, n := FinalizeApproval(request, order, answers);
      r := Ok(ok);
    }

    /** The Stripe calls and the final write. `n` is the number of steps it took. An open request of
        an order that can be cancelled is carried out when every call is accepted. */
    method FinalizeApproval(request: nat, order: nat, answers: nat -> bool) returns (ok: bool, n: nat)
      modifies this
      ensures var v := Approval(request, order, [], 0, 0, [], AtList);
              var z := Walk(old(Db()), old(External()), v, answers, n);
              z.0 == Db() && z.1 == External() && z.2.pc == Done(ok)
      ensures request < |old(requests)| && old(requests)[request].status == Open && order < |old(orders)| && CanBeCancelled(old(orders)[order])
              && (forall k | 0 <= k < n :: answers(k)) ==>
                ok && CarriedOut(old(Db()), old(External()), Db(), External(), request, order)
    {
      ok, n := RunApproval(request, order, answers);
      if request < |old(requests)| && old(requests)[request].status == Open && order < |old(orders)| && CanBeCancelled(old(orders)[order])
         && forall k | 0 <= k < n :: answers(k)
      {
        ApprovalCarriedOut(old(Db()), old(External()), request, order, answers, n);
      }
    }

    method RunApproval(request: nat, order: nat, answers: nat -> bool) returns (ok: bool, n: nat)
      modifies this
      ensures var v := Approval(request, order, [], 0, 0, [], AtList);
              var z := Walk(old(Db()), old(External()), v, answers, n);
              z.0 == Db() && z.1 == External() && z.2.pc == Done(ok)
    {
      ghost var t, s, start := Db(), External(), Approval(request, order, [], 0, 0, [], AtList);
      var v := Approval(request, order, [], 0, 0, [], AtList);
      n := 1;
      assert Walk(t, s, start, answers, 0) == (t, s, start);
      if !answers(0) {
        return false, n;
      }
      v := v.(listed := ListPayouts(payouts, order), pc := AtRefund);
      assert At(v, answers, n, t, s, start);
      n := 2;
      if !answers(1) {
        v := v.(pc := AtMarkFailed);
        n := Give(v, answers, n, t, s, start);
        return false, n;
      }
      v := Refund(v);
      var reversed;
      reversed, n, v := ReverseAll(v, answers, n, t, s, start);
      if !reversed {
        n := Give(v, answers, n, t, s, start);
        return false, n;
      }
      n := n + 1;
      if !answers(n - 1) {
        return false, n;
      }
      var outcome := CommitApproval(v);
      if outcome == OrderStatusChanged {
        n := Give(v.(pc := AtMarkFailed), answers, n, t, s, start);
        return false, n;
      }
      ok := outcome == Committed;
    }

    /** The walk stands at v over these tables after n steps. */
    ghost predicate At(v: Approval, answers: nat -> bool, n: nat, t: Tables, s: Stripe, start: Approval)
      reads this
    {
      Walk(t, s, start, answers, n) == (Db(), External(), v)
    }

    /** Stripe refunds under the request's key. */
    method Refund(v: Approval) returns (v': Approval)
      requires v.pc == AtRefund
      modifies `refunds
      ensures (Db(), External(), v') == Act(old(Db()), old(External()), v, true)
      ensures v'.pc == AtReverse && v'.k == v.k && v'.listed == v.listed
    {
      var known := RefundOf(refunds, v.request);
      if known.Some? {
        return v.(refund := known.value, pc := AtReverse);
      }
      refunds := refunds + [v.request];
      v' := v.(refund := |refunds| - 1, pc := AtReverse);
    }

    /** One reversal for each listed payout that is completed with a transfer. */
    method ReverseAll(v0: Approval, answers: nat -> bool, n0: nat, ghost t: Tables, ghost s: Stripe, ghost start: Approval)
      returns (ok: bool, n: nat, v: Approval)
      requires At(v0, answers, n0, t, s, start) && v0.pc == AtReverse && v0.k == 0
      modifies `reversals
      ensures At(v, answers, n, t, s, start) && v.pc == if ok then AtApprove else AtMarkFailed
    {
      v, n := v0, n0;
      for k := 0 to |v0.listed|
        invariant At(v, answers, n, t, s, start) && v.pc == AtReverse && v.k == k && v.listed == v0.listed
      {
        n := n + 1;
        var p := v.listed[k];
        if p.payout.status != PayoutCompleted || !p.payout.transfer {
          v := v.(k := k + 1);
          continue;
        }
        if !answers(n - 1) {
          v := v.(pc := AtMarkFailed);
          return false, n, v;
        }
        var id := Reverse(ReversalKey(v.request, p.id));
        v := v.(k := k + 1, reversed := v.reversed + [Reversed(p.id, id)]);
      }
      n := n + 1;
      v := v.(pc := AtApprove);
      ok := true;
    }

    method Reverse(key: ReversalKey) returns (id: nat)
      modifies `reversals
      ensures (External(), id) == ReverseTransfer(old(External()), key)
    {
      var known := ReversalOf(reversals, key);
      if known.Some? {
        return known.value;
      }
      reversals := reversals + [key];
      id := |reversals| - 1;
    }

    /** The last step of an approval that gives up: mark the request failed if it is still open. */
    method Give(v: Approval, answers: nat -> bool, n0: nat, ghost t: Tables, ghost s: Stripe, ghost start: Approval) returns (n: nat)
      requires At(v, answers, n0, t, s, start) && v.pc == AtMarkFailed
      modifies `requests
      ensures At(v.(pc := Done(false)), answers, n, t, s, start)
    {
      n := n0 + 1;
      if answers(n - 1) {
        var _ := MoveFromOpen(v.request, Failed);
      }
    }
  }
}
