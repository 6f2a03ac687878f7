/** The webhook handler as straight-line code over the orders of a payment intent. Run without
    interference it is proved to be a walk of the state machine, step for step, so everything
    proved of the machine's runs holds of it. */
module WebhookServices {
  import opened Common
  import opened Webhook
  import opened WebhookProgress

  /** A walk is a run. */
  lemma {:induction false} WalkIsRun(y: System, cfg: Config, h: nat, answers: nat -> bool, n: nat) returns (ops: seq<Op>)
    requires Shaped(y) && h in y.handlers
    ensures Walk(y, cfg, h, answers, n) == Run(y, cfg, ops)
    ensures |ops| == n && forall k | 0 <= k < n :: ops[k] == OpAct(h, answers(k))
  {
    if n == 0 {
      ops := [];
    } else {
      var before := WalkIsRun(y, cfg, h, answers, n - 1);
      assert |before| == n - 1;
      ops := WalkStep(y, cfg, h, answers, before, Walk(y, cfg, h, answers, n - 1));
      assert forall k | 0 <= k < n - 1 :: ops[k] == before[k];
    }
  }

  lemma WalkStep(y: System, cfg: Config, h: nat, answers: nat -> bool, before: seq<Op>, mid: System) returns (ops: seq<Op>)
    requires Shaped(y) && Shaped(mid) && h in mid.handlers && mid == Run(y, cfg, before)
    ensures ops == before + [OpAct(h, answers(|before|))]
    ensures Run(y, cfg, ops) == StepOf(mid, cfg, h, answers(|before|))
  {
    var last;
    ops, last := RunOne(y, cfg, before, mid, OpAct(h, answers(|before|)));
  }

  /** One step of a handler that is alone, on the tables themselves. */
  lemma StepTables(y: System, cfg: Config, h: nat, v: Handler, ok: bool) returns (d: Decision, v': Handler)
    requires Shaped(y) && y.handlers == map[h := v] && !v.pc.Done? && HandlerShaped(v, |y.orders|)
    ensures d == Decide(cfg, v.at, v.snapshot[v.at], y.orders[v.at], y.payouts[v.at], y.now, v.pc, ok)
    ensures v' == Moved(v, d.next) && HandlerShaped(v', |y.orders|)
    ensures StepOf(y, cfg, h, ok) == Wrote(y, h, v, d, v')
  {
    d := DecisionOf(y, cfg, h, ok);
    v' := Moved(v, d.next);
    DecisionsSound(cfg, v.at, v.snapshot[v.at], y.orders[v.at], y.payouts[v.at], y.now, v.pc, ok);
    assert y.handlers[h := v'] == map[h := v'];
    assert y.log + [] == y.log && y.claims + [] == y.claims;
  }

  function Wrote(y: System, h: nat, v: Handler, d: Decision, v': Handler): System
    requires v.at < |y.orders| == |y.payouts|
  {
    System(if d.row.Some? then y.orders[v.at := d.row.value] else y.orders,
           if d.payout.Some? && y.payouts[v.at].Some? then y.payouts[v.at := d.payout] else y.payouts,
           map[h := v'], y.now,
           if d.event.Some? then y.log + [d.event.value] else y.log,
           if d.claims then y.claims + [Claim(v.at, h, y.now)] else y.claims)
  }

  /** Where the code of one order goes next: on with this order, to the next one, or out with an
      error. */
  datatype Flow = Proceed | Continue | Return

  class PaymentWebhook {
    var orders: seq<Row>
    var payouts: seq<Option<PayoutStatus>>
    var log: seq<Event>
    var claims: seq<Claim>
    var now: Time
    const cfg: Config

    constructor (orders: seq<Row>, payouts: seq<Option<PayoutStatus>>, now: Time, cfg: Config)
      ensures this.orders == orders && this.payouts == payouts && log == [] && claims == []
    {
      this.orders, this.payouts, this.now, this.cfg := orders, payouts, now, cfg;
      log, claims := [], [];
    }

    /** The machine's state with handler h at `v`. */
    function World(h: nat, v: Handler): System
      reads this
    {
      System(orders, payouts, map[h := v], now, log, claims)
    }

    /** Accept a payment_intent.succeeded delivery. `n` is the number of steps it took. When every
        call was accepted it succeeds exactly when no order's publish slot is taken; then every order
        is served and other systems accepted exactly what was due. */
    method HandlePaymentSuccess(h: nat, answers: nat -> bool) returns (ok: bool, n: nat)
      requires |orders| == |payouts|
      modifies `orders, `payouts, `log, `claims
      ensures old(orders) == [] ==> !ok && unchanged(this)
      ensures old(orders) != [] ==>
                var z := Walk(old(World(h, Handler(orders, 0, AtOrder, []))), cfg, h, answers, n);
                z.handlers[h].pc == Done(ok) && World(h, z.handlers[h]) == z
      ensures old(orders) != [] && (forall k | 0 <= k < n :: answers(k)) ==>
                && (ok <==> !Blocked(old(orders), old(payouts), now))
                && (ok ==> AllServed(old(orders), old(payouts), orders, payouts, now)
                           && log == old(log) + AllEvents(cfg, old(orders), old(payouts), |old(orders)|))
    {
      if orders == [] {
        return false, 0;
      }
      ok, n := ServeOrders(h, answers);
      if forall k | 0 <= k < n :: answers(k) {
        DeliveryServes(old(World(h, Handler(orders, 0, AtOrder, []))), cfg, h, answers, n, ok);
      }
    }

    /** The loop over the orders. */
    method ServeOrders(h: nat, answers: nat -> bool) returns (ok: bool, n: nat)
      requires |orders| == |payouts| && orders != []
      modifies `orders, `payouts, `log, `claims
      ensures var z := Walk(old(World(h, Handler(orders, 0, AtOrder, []))), cfg, h, answers, n);
              z.handlers[h].pc == Done(ok) && World(h, z.handlers[h]) == z
    {
      var snapshot := orders;
      ghost var start := World(h, Handler(snapshot, 0, AtOrder, []));
      ghost var v := Handler(snapshot, 0, AtOrder, []);
      n := 0;
      for i := 0 to |snapshot|
        invariant Tracks(start, h, answers, n, v)
        invariant v.snapshot == snapshot && v.at == i && v.pc == if i == |snapshot| then Done(true) else AtOrder
      {
        var flow;
        flow, n, v := Transfer(snapshot[i], i, h, answers, n, start, v);
        if flow == Proceed {
          flow, n, v := Commit(snapshot[i], i, h, answers, n, start, v);
        }
        if flow == Proceed {
          flow, n, v := Publish(snapshot[i], i, h, answers, n, start, v);
        }
        if flow == Return {
          return false, n;
        }
      }
      ok := true;
    }

    /** The tables are those of the walk's state after n steps. */
    ghost predicate Tracks(start: System, h: nat, answers: nat -> bool, n: nat, v: Handler)
      reads this
    {
      && Shaped(start) && h in start.handlers && |orders| == |payouts| == |start.orders|
      && World(h, v) == Walk(start, cfg, h, answers, n)
    }

    /** The order is being worked on by h. */
    ghost predicate Working(v: Handler, seen: Row, i: nat, pc: Pc)
      reads this
    {
      i < |orders| == |payouts| && v.at == i < |v.snapshot| && v.snapshot[i] == seen && v.pc == pc && HandlerShaped(v, |orders|)
    }

    ghost predicate Left(v: Handler, v': Handler, i: nat, flow: Flow)
    {
      && v'.snapshot == v.snapshot
      && (flow == Continue ==> v'.at == i + 1 && v'.pc == if i + 1 == |v.snapshot| then Done(true) else AtOrder)
      && (flow == Return ==> v'.pc == Done(false))
    }

    /** The machine's next step, from the tables as they are. */
    lemma Follow(start: System, h: nat, answers: nat -> bool, n: nat, v: Handler) returns (d: Decision, v': Handler)
      requires Tracks(start, h, answers, n, v) && !v.pc.Done? && HandlerShaped(v, |orders|)
      ensures d == Decide(cfg, v.at, v.snapshot[v.at], orders[v.at], payouts[v.at], now, v.pc, answers(n))
      ensures v' == Moved(v, d.next) && HandlerShaped(v', |orders|)
      ensures Walk(start, cfg, h, answers, n + 1) == Wrote(World(h, v), h, v, d, v')
    {
      d, v' := StepTables(World(h, v), cfg, h, v, answers(n));
    }

    // ----- The calls, one method each -----

    /** SetPaid, guarded on a pending row; a row past pending is no obstacle. */
    method MarkPaid(seen: Row, i: nat, h: nat, answers: nat -> bool, n: nat, ghost start: System, ghost v: Handler)
      returns (flow: Flow, ghost v': Handler)
      requires Working(v, seen, i, AtOrder) && Tracks(start, h, answers, n, v)
      modifies `orders
      ensures Tracks(start, h, answers, n + 1, v') && Left(v, v', i, flow)
      ensures flow == Proceed ==> Working(v', seen, i, AtPayout)
    {
      ghost var d;
      d, v' := Follow(start, h, answers, n, v);
      if seen.status == Cancelled {
        return Continue, v';
      }
      if !answers(n) {
        return Return, v';
      }
      if orders[i].status == Pending {
        orders := orders[i := orders[i].(status := Paid)];
      }
      flow := Proceed;
    }

    /** The payout row and the allowlist of its states. */
    method ReadPayout(seen: Row, i: nat, h: nat, answers: nat -> bool, n: nat, ghost start: System, ghost v: Handler)
      returns (flow: Flow, pending: bool, ghost v': Handler)
      requires Working(v, seen, i, AtPayout) && Tracks(start, h, answers, n, v)
      ensures Tracks(start, h, answers, n + 1, v') && Left(v, v', i, flow)
      ensures flow == Proceed ==> Working(v', seen, i, if pending then AtTransfer else AtCoupon)
    {
      ghost var d;
      d, v' := Follow(start, h, answers, n, v);
      pending := false;
      if !answers(n) {
        return Return, pending, v';
      }
      match payouts[i] {
        case None => flow := Continue;
        case Some(PayoutPending) => flow, pending := Proceed, true;
        case Some(PayoutCompleted) => flow := Proceed;
        case Some(_) => flow := Continue;
      }
    }

    method CreateTransfer(seen: Row, i: nat, h: nat, answers: nat -> bool, n: nat, ghost start: System, ghost v: Handler)
      returns (ok: bool, ghost v': Handler)
      requires Working(v, seen, i, AtTransfer) && Tracks(start, h, answers, n, v)
      modifies `log
      ensures Tracks(start, h, answers, n + 1, v') && v'.snapshot == v.snapshot
      ensures Working(v', seen, i, if ok then AtComplete else AtFail(false))
    {
      ghost var d;
      d, v' := Follow(start, h, answers, n, v);
      ok := answers(n);
      log := log + [if ok then Transferred(i) else TransferRefused(i)];
    }

    method MarkPayoutFailed(seen: Row, i: nat, h: nat, answers: nat -> bool, n: nat, ghost start: System, ghost v: Handler)
      returns (ghost v': Handler)
      requires Working(v, seen, i, AtFail(false)) && Tracks(start, h, answers, n, v)
      modifies `payouts
      ensures Tracks(start, h, answers, n + 1, v') && Left(v, v', i, Continue)
    {
      ghost var d;
      d, v' := Follow(start, h, answers, n, v);
      if answers(n) && payouts[i].Some? {
        payouts := payouts[i := Some(PayoutFailed)];
      }
    }

    method MarkPayoutCompleted(seen: Row, i: nat, h: nat, answers: nat -> bool, n: nat, ghost start: System, ghost v: Handler)
      returns (flow: Flow, ghost v': Handler)
      requires Working(v, seen, i, AtComplete) && Tracks(start, h, answers, n, v)
      modifies `payouts, `log
      ensures Tracks(start, h, answers, n + 1, v') && Left(v, v', i, flow) && flow != Continue
      ensures flow == Proceed ==> Working(v', seen, i, AtCoupon)
    {
      ghost var d;
      d, v' := Follow(start, h, answers, n, v);
      if !answers(n) {
        return Return, v';
      }
      if payouts[i].Some? {
        payouts := payouts[i := Some(PayoutCompleted)];
      }
      log := log + [Completed(i)];
      flow := Proceed;
    }

    method CommitCoupon(seen: Row, i: nat, h: nat, answers: nat -> bool, n: nat, ghost start: System, ghost v: Handler)
      returns (flow: Flow, ghost v': Handler)
      requires Working(v, seen, i, AtCoupon) && Tracks(start, h, answers, n, v)
      modifies `log
      ensures Tracks(start, h, answers, n + 1, v') && Left(v, v', i, flow) && flow != Continue
      ensures flow == Proceed ==> Working(v', seen, i, AtLoyalty)
    {
      ghost var d;
      d, v' := Follow(start, h, answers, n, v);
      flow := Proceed;
      if cfg.coupons && seen.coupon {
        if !answers(n) {
          return Return, v';
        }
        log := log + [CouponCommitted(i)];
      }
    }

    method CommitLoyalty(seen: Row, i: nat, h: nat, answers: nat -> bool, n: nat, ghost start: System, ghost v: Handler)
      returns (flow: Flow, ghost v': Handler)
      requires Working(v, seen, i, AtLoyalty) && Tracks(start, h, answers, n, v)
      modifies `log
      ensures Tracks(start, h, answers, n + 1, v') && Left(v, v', i, flow) && flow != Continue
      ensures flow == Proceed ==> Working(v', seen, i, AtClaim)
    {
      ghost var d;
      d, v' := Follow(start, h, answers, n, v);
      flow := Proceed;
      if cfg.loyalty {
        if !answers(n) {
          return Return, v';
        }
        log := log + [LoyaltyCommitted(i)];
      }
    }

    /** Skips what is already published; a claim held by another handler is a retryable error. */
    method ClaimPublish(seen: Row, i: nat, h: nat, answers: nat -> bool, n: nat, ghost start: System, ghost v: Handler)
      returns (flow: Flow, ghost v': Handler)
      requires Working(v, seen, i, AtClaim) && Tracks(start, h, answers, n, v)
      modifies `orders, `claims
      ensures Tracks(start, h, answers, n + 1, v') && Left(v, v', i, flow)
      ensures flow == Proceed ==> Working(v', seen, i, AtPublishPaid)
    {
      ghost var d;
      d, v' := Follow(start, h, answers, n, v);
      if seen.published {
        return Continue, v';
      }
      if !answers(n) {
        return Return, v';
      }
      if !ClaimFree(orders[i], now) {
        return if orders[i].published then Continue else Return, v';
      }
      orders := orders[i := orders[i].(claimAt := Some(now))];
      claims := claims + [Claim(i, h, now)];
      flow := Proceed;
    }

    /** One of the two events. */
    method PublishEvent(seen: Row, i: nat, h: nat, answers: nat -> bool, n: nat, paid: bool, ghost start: System, ghost v: Handler)
      returns (flow: Flow, ghost v': Handler)
      requires Working(v, seen, i, if paid then AtPublishPaid else AtPublishPayout) && Tracks(start, h, answers, n, v)
      modifies `log
      ensures Tracks(start, h, answers, n + 1, v') && Left(v, v', i, flow) && flow != Continue
      ensures flow == Proceed ==> Working(v', seen, i, if paid then AtPublishPayout else AtMark)
    {
      ghost var d;
      d, v' := Follow(start, h, answers, n, v);
      if !answers(n) {
        return Return, v';
      }
      log := log + [if paid then PaidAccepted(i) else PayoutAccepted(i)];
      flow := Proceed;
    }

    method MarkPublished(seen: Row, i: nat, h: nat, answers: nat -> bool, n: nat, ghost start: System, ghost v: Handler)
      returns (ghost v': Handler)
      requires Working(v, seen, i, AtMark) && Tracks(start, h, answers, n, v)
      modifies `orders
      ensures Tracks(start, h, answers, n + 1, v') && Left(v, v', i, Continue)
    {
      ghost var d;
      d, v' := Follow(start, h, answers, n, v);
      if answers(n) {
        orders := orders[i := orders[i].(published := true)];
      }
    }

    // ----- The three sections of the handler -----

    /** (A) Mark the order paid and pay its seller out. */
    method Transfer(seen: Row, i: nat, h: nat, answers: nat -> bool, n: nat, ghost start: System, ghost v: Handler)
      returns (flow: Flow, n': nat, ghost v': Handler)
      requires Working(v, seen, i, AtOrder) && Tracks(start, h, answers, n, v)
      modifies `orders, `payouts, `log
      ensures Tracks(start, h, answers, n', v') && Left(v, v', i, flow)
      ensures flow == Proceed ==> Working(v', seen, i, AtCoupon)
    {
      n' := n + 1;
      flow, v' := MarkPaid(seen, i, h, answers, n, start, v);
      if flow != Proceed {
        return;
      }
      var pending;
      flow, pending, v' := ReadPayout(seen, i, h, answers, n', start, v');
      n' := n' + 1;
      if flow != Proceed || !pending {
        return;
      }
      var ok;
      ok, v' := CreateTransfer(seen, i, h, answers, n', start, v');
      n' := n' + 1;
      if ok {
        flow, v' := MarkPayoutCompleted(seen, i, h, answers, n', start, v');
      } else {
        v' := MarkPayoutFailed(seen, i, h, answers, n', start, v');
        flow := Continue;
      }
      n' := n' + 1;
    }

    /** (B) The two idempotent commits. */
    method Commit(seen: Row, i: nat, h: nat, answers: nat -> bool, n: nat, ghost start: System, ghost v: Handler)
      returns (flow: Flow, n': nat, ghost v': Handler)
      requires Working(v, seen, i, AtCoupon) && Tracks(start, h, answers, n, v)
      modifies `log
      ensures Tracks(start, h, answers, n', v') && Left(v, v', i, flow) && flow != Continue
      ensures flow == Proceed ==> Working(v', seen, i, AtClaim)
    {
      n' := n + 1;
      flow, v' := CommitCoupon(seen, i, h, answers, n, start, v);
      if flow == Proceed {
        flow, v' := CommitLoyalty(seen, i, h, answers, n', start, v');
        n' := n' + 1;
      }
    }

    /** (C) Claim, publish, mark. */
    method Publish(seen: Row, i: nat, h: nat, answers: nat -> bool, n: nat, ghost start: System, ghost v: Handler)
      returns (flow: Flow, n': nat, ghost v': Handler)
      requires Working(v, seen, i, AtClaim) && Tracks(start, h, answers, n, v)
      modifies `orders, `log, `claims
      ensures Tracks(start, h, answers, n', v') && Left(v, v', i, flow) && flow != Proceed
    {
      n' := n + 1;
      flow, v' := ClaimPublish(seen, i, h, answers, n, start, v);
      if flow != Proceed {
        return;
      }
      flow, v' := PublishEvent(seen, i, h, answers, n', true, start, v');
      n' := n' + 1;
      if flow != Proceed {
        return;
      }
      flow, v' := PublishEvent(seen, i, h, answers, n', false, start, v');
      n' := n' + 1;
      if flow != Proceed {
        return;
      }
      v' := MarkPublished(seen, i, h, answers, n', start, v');
      n', flow := n' + 1, Continue;
    }
  }
}
