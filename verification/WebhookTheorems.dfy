/** What holds along every run of the payment webhook, and where the code promises more. */
module WebhookTheorems {
  import opened Common
  import opened Webhook

  /** Whatever interleaves, fails or crashes: an order stamped as published had both of its events
      accepted after its payout completed and its required commits succeeded. */
  lemma PublishedMeansSettled(y: System, cfg: Config, ops: seq<Op>, o: nat)
    requires Fresh(y) && o < |y.orders|
    ensures var z := Run(y, cfg, ops); z.orders[o].published ==> Settled(z.log, cfg, o, z.orders[o].coupon)
  {
    RunKeepsInv(y, cfg, ops);
  }

  /** What a handler that returned nil guarantees about every order of the payment intent: it was
      settled, or read as cancelled, or has no payout, or its payout was in a failed or reversed
      state, or its transfer call answered with an error. */
  lemma NilMeansHandled(y: System, cfg: Config, ops: seq<Op>, h: nat, o: nat)
    requires Fresh(y) && o < |y.orders|
    requires h in Run(y, cfg, ops).handlers && Run(y, cfg, ops).handlers[h].pc == Done(true)
    ensures var z := Run(y, cfg, ops);
            var v := z.handlers[h];
            && |v.outcomes| == |v.snapshot| == |z.orders| == |z.payouts|
            && (|| Settled(z.log, cfg, o, z.orders[o].coupon)
                || v.snapshot[o].status == Cancelled
                || z.payouts[o] == None
                || v.outcomes[o] == StuckPayout(PayoutFailed) || v.outcomes[o] == StuckPayout(PayoutReversed)
                || (v.outcomes[o] == TransferFailed && TransferErred(z.log, o)))
  {
    RunKeepsInv(y, cfg, ops);
    var z := Run(y, cfg, ops);
    var v := z.handlers[h];
    assert HandlerOk(z, cfg, v);
    assert OutcomeOk(z, cfg, v, o);
  }

  /** Claims of one order are more than a TTL apart. */
  ghost predicate ClaimsOk(y: System) {
    && (forall i | 0 <= i < |y.claims| ::
          && y.claims[i].order < |y.orders| && y.claims[i].at <= y.now
          && y.orders[y.claims[i].order].claimAt.Some?
          && y.claims[i].at <= y.orders[y.claims[i].order].claimAt.value)
    && (forall i, j | 0 <= i < j < |y.claims| && y.claims[i].order == y.claims[j].order ::
          y.claims[i].at + PUBLISH_CLAIM_TTL < y.claims[j].at)
  }

  lemma ActKeepsClaims(y: System, cfg: Config, h: nat, d: Decision)
    requires Shaped(y) && ClaimsOk(y) && h in y.handlers && !y.handlers[h].pc.Done?
    requires var v := y.handlers[h]; Sound(d, cfg, v.at, v.snapshot[v.at], y.orders[v.at], y.payouts[v.at], y.now, v.pc)
    ensures ClaimsOk(Apply(y, h, d))
  {
  }

  lemma StepKeepsClaims(y: System, cfg: Config, op: Op)
    requires Shaped(y) && ClaimsOk(y)
    ensures ClaimsOk(Step(y, cfg, op))
  {
    if op.OpAct? && op.h in y.handlers && !y.handlers[op.h].pc.Done? {
      var v := y.handlers[op.h];
      DecisionsSound(cfg, v.at, v.snapshot[v.at], y.orders[v.at], y.payouts[v.at], y.now, v.pc, op.ok);
      ActKeepsClaims(y, cfg, op.h, DecisionOf(y, cfg, op.h, op.ok));
    } else if op.OpTimeout? && op.h in y.handlers && y.handlers[op.h].pc == AtTransfer {
      ActKeepsClaims(y, cfg, op.h, Unanswered(y.handlers[op.h].at));
    }
  }

  lemma {:induction false} RunKeepsClaims(y: System, cfg: Config, ops: seq<Op>)
    requires Shaped(y) && ClaimsOk(y)
    ensures ClaimsOk(Run(y, cfg, ops))
  {
    if ops != [] {
      RunKeepsClaims(y, cfg, ops[..|ops| - 1]);
      StepKeepsClaims(Run(y, cfg, ops[..|ops| - 1]), cfg, ops[|ops| - 1]);
    }
  }

  predicate Unexpired(c: Claim, t: Time) {
    c.at <= t <= c.at + PUBLISH_CLAIM_TTL
  }

  /** At no instant do two claims on one order's publish slot run at once. */
  lemma NoOverlappingClaims(y: System, cfg: Config, ops: seq<Op>, i: nat, j: nat, t: Time)
    requires Fresh(y) && i < |Run(y, cfg, ops).claims| && j < |Run(y, cfg, ops).claims|
    requires Run(y, cfg, ops).claims[i].order == Run(y, cfg, ops).claims[j].order
    requires Unexpired(Run(y, cfg, ops).claims[i], t) && Unexpired(Run(y, cfg, ops).claims[j], t)
    ensures i == j
  {
    RunKeepsClaims(y, cfg, ops);
  }
}
