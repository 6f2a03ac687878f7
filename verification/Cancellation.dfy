/** The cancellation workflow as a state machine over its atomic steps: requests, approvals with
    their Stripe calls, rejections and failures, interleaved with each other, with payments, with
    payouts and with status changes by sellers. Ids are table positions. */
module Cancellation {
  import opened Common

  datatype OrderStatus = Pending | Paid | Processing | Shipped | Delivered | Completed | Cancelled

  /** The statuses from which an order may still be cancelled. */
  predicate CanBeCancelled(s: OrderStatus) {
    s == Pending || s == Paid || s == Processing
  }

  datatype PayoutStatus = PayoutPending | PayoutCompleted | PayoutFailed | PayoutReversed

  /** `transfer` says that a Stripe transfer id is on the row. */
  datatype Payout = Payout(order: nat, status: PayoutStatus, transfer: bool, reversal: Option<nat>) {
    predicate Reversible() {
      status == PayoutCompleted && transfer
    }
  }

  datatype RequestStatus = Open | Approved | Rejected | Failed

  datatype Request = Request(order: nat, status: RequestStatus, refund: Option<nat>)

  /** A payout as an approval listed it, and one it has reversed. */
  datatype Listed = Listed(id: nat, payout: Payout)
  datatype Reversed = Reversed(payout: nat, reversal: nat)

  datatype ReversalKey = ReversalKey(request: nat, payout: nat)

  datatype Pc = AtList | AtRefund | AtReverse | AtMarkFailed | AtApprove | Done(ok: bool)

  /** One approval in progress: the payouts it listed, how many it has looked at, and what Stripe
      answered. */
  datatype Approval = Approval(request: nat, order: nat, listed: seq<Listed>, k: nat, refund: nat,
                               reversed: seq<Reversed>, pc: Pc)

  datatype Tables = Tables(orders: seq<OrderStatus>, payouts: seq<Payout>, requests: seq<Request>)

  /** Stripe remembers each refund by its request and each reversal by its request and payout, as
      the idempotency keys do. */
  datatype Stripe = Stripe(refunds: seq<nat>, reversals: seq<ReversalKey>)

  datatype System = System(t: Tables, stripe: Stripe, approvals: map<nat, Approval>)

  // ----- Tables -----

  predicate HasOpen(requests: seq<Request>, order: nat) {
    exists i :: 0 <= i < |requests| && requests[i].order == order && requests[i].status == Open
  }

  /** The insert, under the unique index on open requests. */
  function Create(t: Tables, order: nat): Tables {
    if order < |t.orders| && !HasOpen(t.requests, order) then t.(requests := t.requests + [Request(order, Open, None)]) else t
  }

  /** A guarded transition out of the open status. */
  function Resolve(t: Tables, r: nat, status: RequestStatus): Tables {
    if r < |t.requests| && t.requests[r].status == Open then t.(requests := t.requests[r := t.requests[r].(status := status)]) else t
  }

  function ListPayouts(payouts: seq<Payout>, order: nat): seq<Listed> {
    if payouts == [] then []
    else
      var n := |payouts| - 1;
      ListPayouts(payouts[..n], order) + if payouts[n].order == order then [Listed(n, payouts[n])] else []
  }

  function MarkReversed(payouts: seq<Payout>, rs: seq<Reversed>): (ps: seq<Payout>)
    ensures |ps| == |payouts|
  {
    if rs == [] then payouts
    else
      var before, r := MarkReversed(payouts, rs[..|rs| - 1]), rs[|rs| - 1];
      if r.payout < |before| then before[r.payout := before[r.payout].(status := PayoutReversed, reversal := Some(r.reversal))]
      else before
  }

  datatype ApproveOutcome = Committed | AlreadyProcessed | OrderStatusChanged

  /** The write phase of an approval: all of it, or nothing. */
  function ApproveTx(t: Tables, v: Approval): (Tables, ApproveOutcome) {
    if !(v.request < |t.requests| && t.requests[v.request].status == Open) then (t, AlreadyProcessed)
    else if !(v.order < |t.orders| && CanBeCancelled(t.orders[v.order])) then (t, OrderStatusChanged)
    else
      (Tables(t.orders[v.order := Cancelled], MarkReversed(t.payouts, v.reversed),
              t.requests[v.request := t.requests[v.request].(status := Approved, refund := Some(v.refund))]),
       Committed)
  }

  // ----- Stripe -----

  function RefundOf(refunds: seq<nat>, request: nat): (r: Option<nat>)
    ensures r.Some? ==> r.value < |refunds| && refunds[r.value] == request
    ensures r == None ==> request !in refunds
  {
    if refunds == [] then None
    else
      var n := |refunds| - 1;
      if refunds[n] == request then Some(n) else RefundOf(refunds[..n], request)
  }

  function ReversalOf(reversals: seq<ReversalKey>, key: ReversalKey): (r: Option<nat>)
    ensures r.Some? ==> r.value < |reversals| && reversals[r.value] == key
    ensures r == None ==> key !in reversals
  {
    if reversals == [] then None
    else
      var n := |reversals| - 1;
      if reversals[n] == key then Some(n) else ReversalOf(reversals[..n], key)
  }

  /** An accepted refund call: the old refund under the same key, else a new one. */
  function CreateRefund(s: Stripe, request: nat): (r: (Stripe, nat))
    ensures r.1 < |r.0.refunds| && r.0.refunds[r.1] == request && s.refunds <= r.0.refunds && r.0.reversals == s.reversals
  {
    var known := RefundOf(s.refunds, request);
    if known.Some? then (s, known.value) else (s.(refunds := s.refunds + [request]), |s.refunds|)
  }

  function ReverseTransfer(s: Stripe, key: ReversalKey): (r: (Stripe, nat))
    ensures r.1 < |r.0.reversals| && r.0.reversals[r.1] == key && s.reversals <= r.0.reversals && r.0.refunds == s.refunds
  {
    var known := ReversalOf(s.reversals, key);
    if known.Some? then (s, known.value) else (s.(reversals := s.reversals + [key]), |s.reversals|)
  }

  // ----- Steps -----

  /** The next step of an approval; `ok` is what its call answers. */
  function Act(t: Tables, s: Stripe, v: Approval, ok: bool): (Tables, Stripe, Approval) {
    match v.pc
    case AtList =>
      if !ok then (t, s, v.(pc := Done(false))) else (t, s, v.(listed := ListPayouts(t.payouts, v.order), pc := AtRefund))
    case AtRefund =>
      if !ok then (t, s, v.(pc := AtMarkFailed))
      else
        var (s', id) := CreateRefund(s, v.request);
        (t, s', v.(refund := id, pc := AtReverse))
    case AtReverse =>
      if v.k >= |v.listed| then (t, s, v.(pc := AtApprove))
      else if !v.listed[v.k].payout.Reversible() then (t, s, v.(k := v.k + 1))
      else if !ok then (t, s, v.(pc := AtMarkFailed))
      else
        var (s', id) := ReverseTransfer(s, ReversalKey(v.request, v.listed[v.k].id));
        (t, s', v.(k := v.k + 1, reversed := v.reversed + [Reversed(v.listed[v.k].id, id)]))
    case AtMarkFailed => (if ok then Resolve(t, v.request, Failed) else t, s, v.(pc := Done(false)))
    case AtApprove =>
      if !ok then (t, s, v.(pc := Done(false)))
      else
        var (t', outcome) := ApproveTx(t, v);
        (t', s, v.(pc := match outcome
                         case Committed => Done(true)
                         case AlreadyProcessed => Done(false)
                         case OrderStatusChanged => AtMarkFailed))
    case Done(_) => (t, s, v)
  }

  /** A Stripe call that takes effect yet answers with an error, as from a timeout. */
  function TimeOut(s: Stripe, v: Approval): (Stripe, Approval) {
    match v.pc
    case AtRefund => (CreateRefund(s, v.request).0, v.(pc := AtMarkFailed))
    case AtReverse =>
      if v.k < |v.listed| && v.listed[v.k].payout.Reversible()
      then (ReverseTransfer(s, ReversalKey(v.request, v.listed[v.k].id)).0, v.(pc := AtMarkFailed))
      else (s, v)
    case _ => (s, v)
  }

  datatype Op =
    | OpRequest(order: nat)
    | OpReject(request: nat)
    | OpBegin(h: nat, request: nat)                // a seller or administrator starts to approve
    | OpAct(h: nat, ok: bool)
    | OpTimeout(h: nat)
    | OpCrash(h: nat)
    | OpPaid(order: nat)                           // the webhook's guarded SetPaid
    | OpStatus(order: nat, status: OrderStatus)    // the seller's unguarded status update
    | OpPayout(payout: nat, state: PayoutStatus, transfer: bool)

  function Step(y: System, op: Op): System {
    var t := y.t;
    match op
    case OpRequest(o) => y.(t := Create(t, o))
    case OpReject(r) => y.(t := Resolve(t, r, Rejected))
    case OpBegin(h, r) =>
      if r < |t.requests| && t.requests[r].order < |t.orders| && CanBeCancelled(t.orders[t.requests[r].order]) && h !in y.approvals
      then y.(approvals := y.approvals[h := Approval(r, t.requests[r].order, [], 0, 0, [], AtList)])
      else y
    case OpAct(h, ok) =>
      if h in y.approvals then
        var (t', s', v') := Act(t, y.stripe, y.approvals[h], ok);
        System(t', s', y.approvals[h := v'])
      else y
    case OpTimeout(h) =>
      if h in y.approvals then
        var (s', v') := TimeOut(y.stripe, y.approvals[h]);
        System(t, s', y.approvals[h := v'])
      else y
    case OpCrash(h) => y.(approvals := y.approvals - {h})
    case OpPaid(o) => if o < |t.orders| && t.orders[o] == Pending then y.(t := t.(orders := t.orders[o := Paid])) else y
    case OpStatus(o, status) => if o < |t.orders| then y.(t := t.(orders := t.orders[o := status])) else y
    case OpPayout(p, state, transfer) =>
      if p < |t.payouts| then y.(t := t.(payouts := t.payouts[p := t.payouts[p].(status := state, transfer := transfer)])) else y
  }

  function Run(y: System, ops: seq<Op>): System {
    if ops == [] then y else Step(Run(y, ops[..|ops| - 1]), ops[|ops| - 1])
  }

  // ----- The invariant -----

  predicate OneOpen(requests: seq<Request>) {
    forall i, j | 0 <= i < j < |requests| && requests[i].status == Open && requests[j].status == Open ::
      requests[i].order != requests[j].order
  }

  predicate Keyed(s: Stripe) {
    && (forall i, j | 0 <= i < j < |s.refunds| :: s.refunds[i] != s.refunds[j])
    && (forall i, j | 0 <= i < j < |s.reversals| :: s.reversals[i] != s.reversals[j])
  }

  /** The ids of the listed payouts that are completed with a transfer, in order. */
  function ReversibleIds(listed: seq<Listed>): seq<nat> {
    if listed == [] then []
    else
      var last := listed[|listed| - 1];
      ReversibleIds(listed[..|listed| - 1]) + if last.payout.Reversible() then [last.id] else []
  }

  /** What Stripe holds for the payouts an approval has reversed so far. */
  predicate ReversalsHeld(reversals: seq<ReversalKey>, request: nat, reversed: seq<Reversed>, ids: seq<nat>) {
    && |reversed| == |ids|
    && forall j | 0 <= j < |reversed| ::
         && reversed[j].payout == ids[j] && reversed[j].reversal < |reversals|
         && reversals[reversed[j].reversal] == ReversalKey(request, ids[j])
  }

  predicate ApprovalOk(y: System, v: Approval) {
    && v.request < |y.t.requests| && y.t.requests[v.request].order == v.order && v.order < |y.t.orders|
    && (v.pc == AtList || v.pc == AtRefund ==> v.k == 0 && v.reversed == [])
    && (v.pc == AtReverse || v.pc == AtApprove ==>
          && v.k <= |v.listed|
          && v.refund < |y.stripe.refunds| && y.stripe.refunds[v.refund] == v.request
          && ReversalsHeld(y.stripe.reversals, v.request, v.reversed, ReversibleIds(v.listed[..v.k])))
    && (v.pc == AtApprove ==> v.k == |v.listed|)
  }

  predicate RequestOk(y: System, r: nat)
    requires r < |y.t.requests|
  {
    && y.t.requests[r].order < |y.t.orders|
    && (y.t.requests[r].status == Approved ==>
          y.t.requests[r].refund.Some? && y.t.requests[r].refund.value < |y.stripe.refunds|
          && y.stripe.refunds[y.t.requests[r].refund.value] == r)
  }

  ghost predicate Inv(y: System) {
    && OneOpen(y.t.requests) && Keyed(y.stripe)
    && (forall r | 0 <= r < |y.t.requests| :: RequestOk(y, r))
    && (forall h | h in y.approvals :: ApprovalOk(y, y.approvals[h]))
  }

  /** Requests keep their order and are never deleted, resolved ones never change; Stripe forgets
      nothing; the number of orders and payouts is fixed. */
  predicate Extends(y: System, y': System) {
    && |y'.t.orders| == |y.t.orders| && |y'.t.payouts| == |y.t.payouts| && |y.t.requests| <= |y'.t.requests|
    && y.stripe.refunds <= y'.stripe.refunds && y.stripe.reversals <= y'.stripe.reversals
    && forall r | 0 <= r < |y.t.requests| ::
         && y'.t.requests[r].order == y.t.requests[r].order
         && (y.t.requests[r].status != Open ==> y'.t.requests[r] == y.t.requests[r])
  }

  lemma ActExtends(y: System, h: nat, ok: bool)
    requires h in y.approvals
    ensures Extends(y, Step(y, OpAct(h, ok)))
  {
  }

  lemma StepExtends(y: System, op: Op)
    ensures Extends(y, Step(y, op))
  {
    if op.OpAct? && op.h in y.approvals {
      ActExtends(y, op.h, op.ok);
    }
  }

  lemma ApprovalSurvives(y: System, y': System, v: Approval)
    requires ApprovalOk(y, v) && Extends(y, y')
    ensures ApprovalOk(y', v)
  {
  }

  /** What an approval knows after its own step. */
  lemma ActKeepsApproval(y: System, h: nat, ok: bool)
    requires Inv(y) && h in y.approvals
    ensures ApprovalOk(Step(y, OpAct(h, ok)), Step(y, OpAct(h, ok)).approvals[h])
  {
    var y', v := Step(y, OpAct(h, ok)), y.approvals[h];
    ActExtends(y, h, ok);
    ApprovalSurvives(y, y', v);
    if v.pc == AtRefund && ok {
      assert v.listed[..0] == [];
    }
    if v.pc == AtReverse && v.k < |v.listed| {
      ReversibleStep(v.listed, v.k);
    }
  }

  lemma ReversibleStep(listed: seq<Listed>, k: nat)
    requires k < |listed|
    ensures ReversibleIds(listed[..k + 1]) ==
              ReversibleIds(listed[..k]) + if listed[k].payout.Reversible() then [listed[k].id] else []
  {
    assert listed[..k + 1][..k] == listed[..k];
  }

  lemma ActKeepsKeys(s: Stripe, v: Approval, t: Tables, ok: bool)
    requires Keyed(s)
    ensures Keyed(Act(t, s, v, ok).1)
  {
  }

  lemma TimeOutKeepsKeys(s: Stripe, v: Approval)
    requires Keyed(s)
    ensures Keyed(TimeOut(s, v).0)
  {
  }

  lemma ActKeepsRequests(y: System, h: nat, ok: bool)
    requires Inv(y) && h in y.approvals
    ensures var y' := Step(y, OpAct(h, ok));
            && OneOpen(y'.t.requests) && forall r | 0 <= r < |y'.t.requests| :: RequestOk(y', r)
  {
    var y', v := Step(y, OpAct(h, ok)), y.approvals[h];
    ActExtends(y, h, ok);
    assert ApprovalOk(y, v);
    forall r | 0 <= r < |y'.t.requests|
      ensures RequestOk(y', r)
    {
      assert RequestOk(y, r);
    }
  }

  lemma StepKeepsInv(y: System, op: Op)
    requires Inv(y)
    ensures Inv(Step(y, op))
  {
    var y' := Step(y, op);
    StepExtends(y, op);
    forall g | g in y'.approvals
      ensures ApprovalOk(y', y'.approvals[g])
    {
      if op.OpAct? && op.h == g {
        ActKeepsApproval(y, g, op.ok);
      } else if op.OpTimeout? && op.h == g {
        ApprovalSurvives(y, y', y.approvals[g]);
      } else if g in y.approvals {
        ApprovalSurvives(y, y', y.approvals[g]);
      } else {
        assert RequestOk(y, op.request);
      }
    }
    if op.OpAct? && op.h in y.approvals {
      ActKeepsKeys(y.stripe, y.approvals[op.h], y.t, op.ok);
      ActKeepsRequests(y, op.h, op.ok);
    } else {
      PlainKeepsRequests(y, op);
      if op.OpTimeout? && op.h in y.approvals {
        TimeOutKeepsKeys(y.stripe, y.approvals[op.h]);
      }
    }
  }

  lemma PlainKeepsRequests(y: System, op: Op)
    requires Inv(y) && !(op.OpAct? && op.h in y.approvals)
    ensures var y' := Step(y, op);
            && OneOpen(y'.t.requests) && forall r | 0 <= r < |y'.t.requests| :: RequestOk(y', r)
  {
    var y' := Step(y, op);
    forall r | 0 <= r < |y'.t.requests|
      ensures RequestOk(y', r)
    {
      assert r < |y.t.requests| ==> RequestOk(y, r);
    }
    if op.OpRequest? && op.order < |y.t.orders| && !HasOpen(y.t.requests, op.order) {
      assert forall i | 0 <= i < |y.t.requests| && y.t.requests[i].status == Open :: y.t.requests[i].order != op.order;
    }
  }

  lemma {:induction false} RunKeepsInv(y: System, ops: seq<Op>)
    requires Inv(y)
    ensures Inv(Run(y, ops)) && Extends(y, Run(y, ops))
  {
    if ops != [] {
      var init := ops[..|ops| - 1];
      RunKeepsInv(y, init);
      StepKeepsInv(Run(y, init), ops[|ops| - 1]);
      StepExtends(Run(y, init), ops[|ops| - 1]);
    }
  }

  /** No request, no approval and no Stripe call yet. */
  predicate Fresh(y: System) {
    y.t.requests == [] && y.stripe == Stripe([], []) && y.approvals == map[]
  }
}
