/** The payment webhook and the coupon service together: one payment intent whose discounted orders
    all carry the cart's one coupon reservation. A commit call of the webhook is answered by the
    coupon service's own tables. */
module CouponWebhook {
  import opened Common
  import Webhook
  import WebhookTheorems
  import CouponSpec
  import CouponProofs
  import CouponTheorems

  /** Order i of the payment intent is ids[i] at the coupon service. */
  datatype Cart = Cart(ids: seq<nat>, reservation: nat)

  datatype System = System(web: Webhook.System, coupons: CouponSpec.System)

  /** OpCall: handler h of the webhook commits the coupon of its order, served by handler g of the
      coupon service. A call that gets no answer is an OpCoupon commit, or none, and a failed OpWeb. */
  datatype Op =
    | OpWeb(web: Webhook.Op)
    | OpCall(h: nat, g: nat, early: bool)
    | OpCoupon(coupon: CouponSpec.Op)

  /** The webhook's handler h is about to commit a coupon. */
  predicate AtCommit(w: Webhook.System, cfg: Webhook.Config, h: nat) {
    h in w.handlers && w.handlers[h].pc == Webhook.AtCoupon && cfg.coupons
    && w.handlers[h].at < |w.handlers[h].snapshot| && w.handlers[h].snapshot[w.handlers[h].at].coupon
  }

  /** The cart's orders are committed under the cart's reservation only. */
  predicate OwnCommit(cart: Cart, c: CouponSpec.System, op: CouponSpec.Op) {
    op.OpCommit? && op.order in cart.ids && op.h in c.seen ==> c.seen[op.h].id == cart.reservation
  }

  /** The answer of the coupon service. */
  predicate Accepts(c: CouponSpec.System, g: nat, order: nat, early: bool) {
    && g in c.seen && c.seen[g].id < |c.store.reservations|
    && CouponSpec.Commit(c.store, c.seen[g], order, early).1.Ok?
  }

  ghost function Step(y: System, cfg: Webhook.Config, cart: Cart, op: Op): System
    requires Webhook.Shaped(y.web) && |cart.ids| == |y.web.orders|
  {
    match op
    case OpWeb(o) => if o.OpAct? && o.ok && AtCommit(y.web, cfg, o.h) then y else y.(web := Webhook.Step(y.web, cfg, o))
    case OpCall(h, g, early) =>
      if AtCommit(y.web, cfg, h) && y.web.handlers[h].at < |cart.ids| && g in y.coupons.seen && y.coupons.seen[g].id == cart.reservation then
        var order := cart.ids[y.web.handlers[h].at];
        System(Webhook.Step(y.web, cfg, Webhook.OpAct(h, Accepts(y.coupons, g, order, early))),
               CouponSpec.Step(y.coupons, CouponSpec.OpCommit(g, order, early)))
      else y
    case OpCoupon(o) => if OwnCommit(cart, y.coupons, o) then y.(coupons := CouponSpec.Step(y.coupons, o)) else y
  }

  lemma StepShaped(y: System, cfg: Webhook.Config, cart: Cart, op: Op)
    requires Webhook.Shaped(y.web) && |cart.ids| == |y.web.orders|
    ensures var y' := Step(y, cfg, cart, op); Webhook.Shaped(y'.web) && |y'.web.orders| == |y.web.orders|
  {
    if op.OpWeb? {
      Webhook.StepShaped(y.web, cfg, op.web);
    } else if op.OpCall? {
      Webhook.StepShaped(y.web, cfg, Webhook.OpAct(op.h, true));
      Webhook.StepShaped(y.web, cfg, Webhook.OpAct(op.h, false));
    }
  }

  ghost function Run(y: System, cfg: Webhook.Config, cart: Cart, ops: seq<Op>): (z: System)
    requires Webhook.Shaped(y.web) && |cart.ids| == |y.web.orders|
    ensures Webhook.Shaped(z.web) && |z.web.orders| == |y.web.orders|
  {
    if ops == [] then y
    else
      var mid := Run(y, cfg, cart, ops[..|ops| - 1]);
      StepShaped(mid, cfg, cart, ops[|ops| - 1]);
      Step(mid, cfg, cart, ops[|ops| - 1])
  }

  // ----- Redemptions behind the commits the webhook saw -----

  predicate Redeemed(s: CouponSpec.Store, order: nat) {
    exists k :: 0 <= k < |s.redemptions| && s.redemptions[k].order == order
  }

  predicate OwnRedemptions(s: CouponSpec.Store, cart: Cart) {
    forall k | 0 <= k < |s.redemptions| && s.redemptions[k].order in cart.ids :: s.redemptions[k].reservation == cart.reservation
  }

  ghost predicate Backed(y: System, cart: Cart) {
    && Webhook.Shaped(y.web) && |cart.ids| == |y.web.orders| && CouponTheorems.SystemOk(y.coupons)
    && OwnRedemptions(y.coupons.store, cart)
    && forall o: nat :: Webhook.CouponCommitted(o) in y.web.log ==> o < |cart.ids| && Redeemed(y.coupons.store, cart.ids[o])
  }

  /** Redemptions are never deleted and keep their order and reservation; only a commit adds one. */
  lemma RowsStand(c: CouponSpec.System, op: CouponSpec.Op)
    requires CouponTheorems.SystemOk(c)
    ensures var reds, reds' := c.store.redemptions, CouponSpec.Step(c, op).store.redemptions;
            && |reds| <= |reds'|
            && (forall k | 0 <= k < |reds| :: reds'[k].order == reds[k].order && reds'[k].reservation == reds[k].reservation)
            && (forall k | |reds| <= k < |reds'| ::
                  op.OpCommit? && op.h in c.seen && reds'[k].order == op.order && reds'[k].reservation == c.seen[op.h].id)
  {
    if op.OpExpire? && CouponSpec.Claimable(c.store.reservations, op.ids, op.now, CouponSpec.BATCH_SIZE) {
      CouponProofs.ExpireFrame(c.store, op.ids);
    }
  }

  lemma CouponStepBacked(c: CouponSpec.System, op: CouponSpec.Op, cart: Cart)
    requires CouponTheorems.SystemOk(c) && OwnRedemptions(c.store, cart) && OwnCommit(cart, c, op)
    ensures var c' := CouponSpec.Step(c, op);
            && CouponTheorems.SystemOk(c') && OwnRedemptions(c'.store, cart)
            && forall order: nat :: Redeemed(c.store, order) ==> Redeemed(c'.store, order)
  {
    CouponTheorems.StepKeeps(c, op);
    RowsStand(c, op);
    var s, s' := c.store, CouponSpec.Step(c, op).store;
    forall order: nat | Redeemed(s, order)
      ensures Redeemed(s', order)
    {
      var k :| 0 <= k < |s.redemptions| && s.redemptions[k].order == order;
      assert s'.redemptions[k].order == order;
    }
  }

  /** An accepted commit leaves a redemption of its order. */
  lemma AcceptedIsRedeemed(c: CouponSpec.System, g: nat, order: nat, early: bool)
    requires Accepts(c, g, order, early)
    ensures Redeemed(CouponSpec.Step(c, CouponSpec.OpCommit(g, order, early)).store, order)
  {
    var s, s' := c.store, CouponSpec.Commit(c.store, c.seen[g], order, early).0;
    var existing := CouponSpec.RedemptionFor(s.redemptions, c.seen[g].coupon, order);
    if existing.Some? {
      assert s'.redemptions[existing.value].order == order;
    } else {
      assert s'.redemptions[|s.redemptions|].order == order;
    }
  }

  /** The webhook notes a coupon commit only for an accepted call. */
  lemma WebEvents(w: Webhook.System, cfg: Webhook.Config, op: Webhook.Op, o: nat)
    requires Webhook.Shaped(w)
    ensures Webhook.CouponCommitted(o) in Webhook.Step(w, cfg, op).log ==>
              Webhook.CouponCommitted(o) in w.log || (op.OpAct? && op.ok && AtCommit(w, cfg, op.h) && w.handlers[op.h].at == o)
  {
  }

  lemma StepBacked(y: System, cfg: Webhook.Config, cart: Cart, op: Op)
    requires Backed(y, cart)
    ensures Backed(Step(y, cfg, cart, op), cart)
  {
    StepShaped(y, cfg, cart, op);
    match op
    case OpWeb(w) => WebStepBacked(y, cfg, cart, w);
    case OpCall(h, g, early) =>
      if AtCommit(y.web, cfg, h) && y.web.handlers[h].at < |cart.ids| && g in y.coupons.seen && y.coupons.seen[g].id == cart.reservation {
        CallBacked(y, cfg, cart, h, g, early);
      }
    case OpCoupon(c) =>
      if OwnCommit(cart, y.coupons, c) {
        CouponStepBacked(y.coupons, c, cart);
      }
  }

  lemma WebStepBacked(y: System, cfg: Webhook.Config, cart: Cart, w: Webhook.Op)
    requires Backed(y, cart)
    ensures Backed(Step(y, cfg, cart, OpWeb(w)), cart)
  {
    StepShaped(y, cfg, cart, OpWeb(w));
    forall o: nat | Webhook.CouponCommitted(o) in Step(y, cfg, cart, OpWeb(w)).web.log
      ensures Webhook.CouponCommitted(o) in y.web.log
    {
      WebEvents(y.web, cfg, w, o);
    }
  }

  lemma CallBacked(y: System, cfg: Webhook.Config, cart: Cart, h: nat, g: nat, early: bool)
    requires Backed(y, cart) && AtCommit(y.web, cfg, h) && y.web.handlers[h].at < |cart.ids|
    requires g in y.coupons.seen && y.coupons.seen[g].id == cart.reservation
    ensures Backed(Step(y, cfg, cart, OpCall(h, g, early)), cart)
  {
    var at := y.web.handlers[h].at;
    var order := cart.ids[at];
    var ok := Accepts(y.coupons, g, order, early);
    StepShaped(y, cfg, cart, OpCall(h, g, early));
    CouponStepBacked(y.coupons, CouponSpec.OpCommit(g, order, early), cart);
    if ok {
      AcceptedIsRedeemed(y.coupons, g, order, early);
    }
    forall o: nat | Webhook.CouponCommitted(o) in Step(y, cfg, cart, OpCall(h, g, early)).web.log
      ensures Webhook.CouponCommitted(o) in y.web.log || (ok && o == at)
    {
      WebEvents(y.web, cfg, Webhook.OpAct(h, ok), o);
    }
  }

  lemma {:induction false} RunBacked(y: System, cfg: Webhook.Config, cart: Cart, ops: seq<Op>)
    requires Backed(y, cart)
    ensures Backed(Run(y, cfg, cart, ops), cart)
  {
    if ops != [] {
      RunBacked(y, cfg, cart, ops[..|ops| - 1]);
      StepBacked(Run(y, cfg, cart, ops[..|ops| - 1]), cfg, cart, ops[|ops| - 1]);
    }
  }

  /** Seen by the webhook alone, a joint run is a run of the webhook. */
  lemma {:induction false} WebRun(y: System, cfg: Webhook.Config, cart: Cart, ops: seq<Op>) returns (web: seq<Webhook.Op>)
    requires Webhook.Shaped(y.web) && |cart.ids| == |y.web.orders|
    ensures Run(y, cfg, cart, ops).web == Webhook.Run(y.web, cfg, web)
  {
    web := [];
    if ops != [] {
      var init, last := ops[..|ops| - 1], ops[|ops| - 1];
      var mid := Run(y, cfg, cart, init);
      web := WebRun(y, cfg, cart, init);
      if Step(mid, cfg, cart, last).web != mid.web {
        var o := if last.OpWeb? then last.web
                 else Webhook.OpAct(last.h, Accepts(mid.coupons, last.g, cart.ids[mid.web.handlers[last.h].at], last.early));
        var z;
        web, z := Webhook.RunOne(y.web, cfg, web, mid.web, o);
      }
    }
  }

  /** Right after the checkout: no delivery yet, and no redemption of the cart's new orders. */
  ghost predicate Start(y: System, cart: Cart) {
    && Webhook.Fresh(y.web) && |cart.ids| == |y.web.orders| && CouponTheorems.SystemOk(y.coupons)
    && (forall i, j | 0 <= i < j < |cart.ids| :: cart.ids[i] != cart.ids[j])
    && forall k | 0 <= k < |y.coupons.store.redemptions| :: y.coupons.store.redemptions[k].order !in cart.ids
  }

  /** Over every run, the coupon is committed for one order of the cart at most. */
  lemma OneOrderCommitted(y: System, cfg: Webhook.Config, cart: Cart, ops: seq<Op>, a: nat, b: nat)
    requires Start(y, cart)
    requires Webhook.CouponCommitted(a) in Run(y, cfg, cart, ops).web.log && Webhook.CouponCommitted(b) in Run(y, cfg, cart, ops).web.log
    ensures a == b
  {
    RunBacked(y, cfg, cart, ops);
    var z := Run(y, cfg, cart, ops);
    var s := z.coupons.store;
    var j :| 0 <= j < |s.redemptions| && s.redemptions[j].order == cart.ids[a];
    var k :| 0 <= k < |s.redemptions| && s.redemptions[k].order == cart.ids[b];
    assert s.redemptions[j].reservation == s.redemptions[k].reservation == cart.reservation;
    assert j == k;
  }

  /** When the coupon discounts two orders of the cart, at most one of them is ever published,
      however often the webhook is delivered; and a delivery that returns nil left at least one of
      the two behind: cancelled, without a payout, with a failed or reversed one, or with a transfer
      call that answered with an error. */
  lemma SharedCouponStalls(y: System, cfg: Webhook.Config, cart: Cart, ops: seq<Op>, a: nat, b: nat)
    requires Start(y, cart) && a < |y.web.orders| && b < |y.web.orders| && a != b
    requires cfg.coupons && y.web.orders[a].coupon && y.web.orders[b].coupon
    ensures var z := Run(y, cfg, cart, ops).web;
            && !(z.orders[a].published && z.orders[b].published)
            && forall h | h in z.handlers && z.handlers[h].pc == Webhook.Done(true) ::
                 LeftBehind(z, z.handlers[h], a) || LeftBehind(z, z.handlers[h], b)
  {
    var z := Run(y, cfg, cart, ops).web;
    var web := WebRun(y, cfg, cart, ops);
    NotBothSettled(y, cfg, cart, ops, a, b);
    CouponFlags(y.web, cfg, web);
    WebhookTheorems.PublishedMeansSettled(y.web, cfg, web, a);
    WebhookTheorems.PublishedMeansSettled(y.web, cfg, web, b);
    forall h | h in z.handlers && z.handlers[h].pc == Webhook.Done(true)
      ensures LeftBehind(z, z.handlers[h], a) || LeftBehind(z, z.handlers[h], b)
    {
      WebhookTheorems.NilMeansHandled(y.web, cfg, web, h, a);
      WebhookTheorems.NilMeansHandled(y.web, cfg, web, h, b);
    }
  }

  /** A handler that returned nil did not get order o published. */
  ghost predicate LeftBehind(z: Webhook.System, v: Webhook.Handler, o: nat) {
    && |v.outcomes| == |v.snapshot| == |z.orders| == |z.payouts| && o < |z.orders|
    && (|| v.snapshot[o].status == Webhook.Cancelled
        || z.payouts[o] == None
        || v.outcomes[o] == Webhook.StuckPayout(Webhook.PayoutFailed) || v.outcomes[o] == Webhook.StuckPayout(Webhook.PayoutReversed)
        || (v.outcomes[o] == Webhook.TransferFailed && Webhook.TransferErred(z.log, o)))
  }

  lemma NotBothSettled(y: System, cfg: Webhook.Config, cart: Cart, ops: seq<Op>, a: nat, b: nat)
    requires Start(y, cart) && a != b && cfg.coupons
    ensures var log := Run(y, cfg, cart, ops).web.log;
            !(Webhook.Settled(log, cfg, a, true) && Webhook.Settled(log, cfg, b, true))
  {
    var log := Run(y, cfg, cart, ops).web.log;
    if Webhook.Settled(log, cfg, a, true) && Webhook.Settled(log, cfg, b, true) {
      SettledIsCommitted(log, cfg, a);
      SettledIsCommitted(log, cfg, b);
      OneOrderCommitted(y, cfg, cart, ops, a, b);
    }
  }

  lemma SettledIsCommitted(log: seq<Webhook.Event>, cfg: Webhook.Config, o: nat)
    requires cfg.coupons && Webhook.Settled(log, cfg, o, true)
    ensures Webhook.CouponCommitted(o) in log
  {
    var p: nat, q: nat :| Webhook.PaidAt(log, cfg, o, true, p) && p < q < |log| && log[q] == Webhook.PayoutAccepted(o);
    Webhook.InGrows(log[..p], log, Webhook.CouponCommitted(o));
  }

  /** Which orders carry the coupon never changes. */
  lemma {:induction false} CouponFlags(w: Webhook.System, cfg: Webhook.Config, ops: seq<Webhook.Op>)
    requires Webhook.Shaped(w)
    ensures forall o | 0 <= o < |w.orders| :: Webhook.Run(w, cfg, ops).orders[o].coupon == w.orders[o].coupon
  {
    if ops != [] {
      CouponFlags(w, cfg, ops[..|ops| - 1]);
      CouponFlagsStep(Webhook.Run(w, cfg, ops[..|ops| - 1]), cfg, ops[|ops| - 1]);
    }
  }

  lemma CouponFlagsStep(w: Webhook.System, cfg: Webhook.Config, op: Webhook.Op)
    requires Webhook.Shaped(w)
    ensures |Webhook.Step(w, cfg, op).orders| == |w.orders|
    ensures forall o | 0 <= o < |w.orders| :: Webhook.Step(w, cfg, op).orders[o].coupon == w.orders[o].coupon
  {
    Webhook.StepShaped(w, cfg, op);
  }
}
