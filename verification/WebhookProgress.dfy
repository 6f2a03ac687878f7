/** What a webhook delivery gets done when nothing interferes and every call is accepted, and where
    a refused call stops it. */
module WebhookProgress {
  import opened Common
  import opened Webhook

  /** n steps of handler h, answered by answers[0 .. n). */
  function Walk(y: System, cfg: Config, h: nat, answers: nat -> bool, n: nat): (z: System)
    requires Shaped(y) && h in y.handlers
    ensures Shaped(z) && h in z.handlers && |z.orders| == |y.orders|
  {
    if n == 0 then y else StepOf(Walk(y, cfg, h, answers, n - 1), cfg, h, answers(n - 1))
  }

  function StepOf(y: System, cfg: Config, h: nat, ok: bool): (z: System)
    requires Shaped(y) && h in y.handlers
    ensures Shaped(z) && h in z.handlers && |z.orders| == |y.orders|
    ensures z == Step(y, cfg, OpAct(h, ok))
  {
    StepShaped(y, cfg, OpAct(h, ok));
    Act(y, cfg, h, ok)
  }

  // ----- What should become of an order -----

  /** The order is live and its payout is still to be made, or was made already. */
  predicate Serviceable(row: Row, payout: Option<PayoutStatus>) {
    row.status != Cancelled && (payout == Some(PayoutPending) || payout == Some(PayoutCompleted))
  }

  /** Another handler took the publish slot at most 120 seconds ago and has not published yet. */
  predicate ClaimHeld(row: Row, now: Time) {
    !row.published && row.claimAt.Some? && now <= row.claimAt.value + 120
  }

  /** Before and after a delivery that succeeds: a cancelled order is left alone, any other one is
      no longer pending, and a serviceable one is paid out and published. */
  predicate Served(row: Row, payout: Option<PayoutStatus>, row': Row, payout': Option<PayoutStatus>, now: Time) {
    && row'.coupon == row.coupon
    && row'.status == (if row.status == Pending then Paid else row.status)
    && (if Serviceable(row, payout) then
          row'.published && payout' == Some(PayoutCompleted) && row'.claimAt == if row.published then row.claimAt else Some(now)
        else
          row'.published == row.published && payout' == payout && row'.claimAt == row.claimAt)
  }

  /** The transfer with its record, the two commits and the two events, as far as they are due. */
  function EventsFor(cfg: Config, i: nat, row: Row, payout: Option<PayoutStatus>): seq<Event> {
    if !Serviceable(row, payout) then []
    else Paying(i, payout) + Committing(cfg, i, row) + if row.published then [] else [PaidAccepted(i), PayoutAccepted(i)]
  }

  function Paying(i: nat, payout: Option<PayoutStatus>): seq<Event> {
    if payout == Some(PayoutPending) then [Transferred(i), Completed(i)] else []
  }

  function Committing(cfg: Config, i: nat, row: Row): seq<Event> {
    (if cfg.coupons && row.coupon then [CouponCommitted(i)] else []) + (if cfg.loyalty then [LoyaltyCommitted(i)] else [])
  }

  function AllEvents(cfg: Config, orders: seq<Row>, payouts: seq<Option<PayoutStatus>>, n: nat): seq<Event>
    requires n <= |orders| == |payouts|
  {
    if n == 0 then [] else AllEvents(cfg, orders, payouts, n - 1) + EventsFor(cfg, n - 1, orders[n - 1], payouts[n - 1])
  }

  /** Some order's publish slot is taken. */
  predicate Blocked(orders: seq<Row>, payouts: seq<Option<PayoutStatus>>, now: Time)
    requires |orders| == |payouts|
  {
    exists i :: 0 <= i < |orders| && Serviceable(orders[i], payouts[i]) && ClaimHeld(orders[i], now)
  }

  predicate AllServed(orders: seq<Row>, payouts: seq<Option<PayoutStatus>>, orders': seq<Row>, payouts': seq<Option<PayoutStatus>>, now: Time) {
    && |orders| == |payouts| == |orders'| == |payouts'|
    && forall i | 0 <= i < |orders| :: Served(orders[i], payouts[i], orders'[i], payouts'[i], now)
  }

  // ----- One order -----

  function MarkedPaid(row: Row): Row {
    row.(status := if row.status == Pending then Paid else row.status)
  }

  /** The tables of the order at hand, as the handler at `pc` has left them. */
  predicate Reached(row0: Row, payout0: Option<PayoutStatus>, row: Row, payout: Option<PayoutStatus>, now: Time, pc: Pc) {
    match pc
    case AtOrder => row == row0 && payout == payout0
    case AtPayout => row0.status != Cancelled && row == MarkedPaid(row0) && payout == payout0
    case AtTransfer => row0.status != Cancelled && row == MarkedPaid(row0) && payout == payout0 == Some(PayoutPending)
    case AtComplete => row0.status != Cancelled && row == MarkedPaid(row0) && payout == payout0 == Some(PayoutPending)
    case AtCoupon => Serviceable(row0, payout0) && row == MarkedPaid(row0) && payout == Some(PayoutCompleted)
    case AtLoyalty => Serviceable(row0, payout0) && row == MarkedPaid(row0) && payout == Some(PayoutCompleted)
    case AtClaim => Serviceable(row0, payout0) && row == MarkedPaid(row0) && payout == Some(PayoutCompleted)
    case AtFail(_) => false
    case Done(_) => Serviceable(row0, payout0) && ClaimHeld(row0, now)
    case _ =>
      && Serviceable(row0, payout0) && !row0.published && !ClaimHeld(row0, now)
      && row == MarkedPaid(row0).(claimAt := Some(now)) && payout == Some(PayoutCompleted)
  }

  /** What has been accepted for it so far. */
  function SoFar(cfg: Config, i: nat, row: Row, payout: Option<PayoutStatus>, pc: Pc): seq<Event> {
    match pc
    case AtComplete => [Transferred(i)]
    case AtCoupon => Paying(i, payout)
    case AtLoyalty => Paying(i, payout) + if cfg.coupons && row.coupon then [CouponCommitted(i)] else []
    case AtClaim => Paying(i, payout) + Committing(cfg, i, row)
    case AtPublishPaid => Paying(i, payout) + Committing(cfg, i, row)
    case AtPublishPayout => Paying(i, payout) + Committing(cfg, i, row) + [PaidAccepted(i)]
    case AtMark => Paying(i, payout) + Committing(cfg, i, row) + [PaidAccepted(i), PayoutAccepted(i)]
    case _ => []
  }

  function Logged(d: Decision): seq<Event> {
    if d.event.Some? then [d.event.value] else []
  }

  /** An accepted call takes the order one point further, or finishes it. */
  lemma OrderStep(cfg: Config, o: nat, row0: Row, payout0: Option<PayoutStatus>, row: Row, payout: Option<PayoutStatus>,
                  now: Time, pc: Pc) returns (d: Decision, row': Row, payout': Option<PayoutStatus>)
    requires !pc.Done? && Reached(row0, payout0, row, payout, now, pc)
    ensures d == Decide(cfg, o, row0, row, payout, now, pc, true)
    ensures row' == (if d.row.Some? then d.row.value else row) && payout' == if d.payout.Some? && payout.Some? then d.payout else payout
    ensures d.next.GoTo? && d.next.pc != Done(false) ==>
              && !d.next.pc.Done? && d.next.pc != AtOrder && Reached(row0, payout0, row', payout', now, d.next.pc)
              && SoFar(cfg, o, row0, payout0, d.next.pc) == SoFar(cfg, o, row0, payout0, pc) + Logged(d)
    ensures d.next == GoTo(Done(false)) ==> Serviceable(row0, payout0) && ClaimHeld(row0, now)
    ensures d.next.MoveOn? ==>
              && Served(row0, payout0, row', payout', now) && !(Serviceable(row0, payout0) && ClaimHeld(row0, now))
              && EventsFor(cfg, o, row0, payout0) == SoFar(cfg, o, row0, payout0, pc) + Logged(d)
  {
    d := Decide(cfg, o, row0, row, payout, now, pc, true);
    row' := if d.row.Some? then d.row.value else row;
    payout' := if d.payout.Some? && payout.Some? then d.payout else payout;
  }

  // ----- All orders of a payment -----

  /** The orders before the handler's are served, the ones after it untouched. */
  ghost predicate Finished(y: System, z: System, at: nat) {
    && |y.orders| == |y.payouts| == |z.orders| == |z.payouts| && at <= |y.orders|
    && (forall i | 0 <= i < at ::
          && Served(y.orders[i], y.payouts[i], z.orders[i], z.payouts[i], y.now)
          && !(Serviceable(y.orders[i], y.payouts[i]) && ClaimHeld(y.orders[i], y.now)))
    && (forall i | at < i < |y.orders| :: z.orders[i] == y.orders[i] && z.payouts[i] == y.payouts[i])
  }

  /** z is a state of handler h's walk from y. */
  ghost predicate Underway(y: System, z: System, cfg: Config, h: nat) {
    && h in z.handlers && z.now == y.now && Finished(y, z, z.handlers[h].at)
    && var v := z.handlers[h];
    && v.snapshot == y.orders && HandlerShaped(v, |y.orders|)
    && (v.at < |y.orders| ==> Reached(y.orders[v.at], y.payouts[v.at], z.orders[v.at], z.payouts[v.at], y.now, v.pc))
    && (v.pc == Done(true) ==> z.log == y.log + AllEvents(cfg, y.orders, y.payouts, v.at))
    && (!v.pc.Done? ==>
          z.log == y.log + AllEvents(cfg, y.orders, y.payouts, v.at) + SoFar(cfg, v.at, y.orders[v.at], y.payouts[v.at], v.pc))
  }

  lemma StepUnderway(y: System, z: System, cfg: Config, h: nat)
    requires Shaped(z) && h in z.handlers && Underway(y, z, cfg, h)
    ensures Underway(y, StepOf(z, cfg, h, true), cfg, h)
  {
    var v := z.handlers[h];
    if !v.pc.Done? {
      var o := v.at;
      var d, row', payout' := OrderStep(cfg, o, y.orders[o], y.payouts[o], z.orders[o], z.payouts[o], y.now, v.pc);
      Appended(z.log, y.log, AllEvents(cfg, y.orders, y.payouts, o), SoFar(cfg, o, y.orders[o], y.payouts[o], v.pc), Logged(d));
      EventsStep(cfg, y.orders, y.payouts, o);
      assert StepOf(z, cfg, h, true) == Apply(z, h, d);
      if d.next.GoTo? {
        StaysOnOrder(y, z, cfg, h, d, row', payout');
      } else {
        LeavesOrder(y, z, cfg, h, d, row', payout');
      }
    }
  }

  /** What the step at order v.at writes. */
  predicate Writes(z: System, v: Handler, d: Decision, row': Row, payout': Option<PayoutStatus>)
    requires v.at < |z.orders| == |z.payouts|
  {
    && row' == (if d.row.Some? then d.row.value else z.orders[v.at])
    && payout' == (if d.payout.Some? && z.payouts[v.at].Some? then d.payout else z.payouts[v.at])
  }

  lemma StaysOnOrder(y: System, z: System, cfg: Config, h: nat, d: Decision, row': Row, payout': Option<PayoutStatus>)
    requires Shaped(z) && h in z.handlers && Underway(y, z, cfg, h) && !z.handlers[h].pc.Done?
    requires d.next.GoTo? && d.next.pc != Done(true) && Writes(z, z.handlers[h], d, row', payout')
    requires var v := z.handlers[h];
             Reached(y.orders[v.at], y.payouts[v.at], row', payout', y.now, d.next.pc)
    requires var v := z.handlers[h];
             !d.next.pc.Done? ==>
               z.log + Logged(d) == y.log + AllEvents(cfg, y.orders, y.payouts, v.at) + SoFar(cfg, v.at, y.orders[v.at], y.payouts[v.at], d.next.pc)
    ensures Underway(y, Apply(z, h, d), cfg, h)
  {
    ActShaped(z, h, d);
    assert Apply(z, h, d).log == z.log + Logged(d);
  }

  lemma LeavesOrder(y: System, z: System, cfg: Config, h: nat, d: Decision, row': Row, payout': Option<PayoutStatus>)
    requires Shaped(z) && h in z.handlers && Underway(y, z, cfg, h) && !z.handlers[h].pc.Done?
    requires d.next.MoveOn? && Writes(z, z.handlers[h], d, row', payout')
    requires var v := z.handlers[h];
             && Served(y.orders[v.at], y.payouts[v.at], row', payout', y.now)
             && !(Serviceable(y.orders[v.at], y.payouts[v.at]) && ClaimHeld(y.orders[v.at], y.now))
    requires z.log + Logged(d) == y.log + AllEvents(cfg, y.orders, y.payouts, z.handlers[h].at + 1)
    ensures Underway(y, Apply(z, h, d), cfg, h)
  {
    ActShaped(z, h, d);
    OneMoreFinished(y, z, h, d, row', payout');
    OnToNext(y, Apply(z, h, d), cfg, h, z.handlers[h].at + 1);
  }

  /** The handler stands before order `next`, which nobody has touched, or is done. */
  ghost predicate BeforeNext(y: System, z: System, h: nat, next: nat) {
    && h in z.handlers && z.now == y.now && Finished(y, z, next) && z.handlers[h].at == next && z.handlers[h].snapshot == y.orders
    && z.handlers[h].pc == (if next >= |y.orders| then Done(true) else AtOrder)
    && (next < |y.orders| ==> z.orders[next] == y.orders[next] && z.payouts[next] == y.payouts[next])
  }

  lemma OnToNext(y: System, z: System, cfg: Config, h: nat, next: nat)
    requires BeforeNext(y, z, h, next) && Shaped(z)
    requires z.log == y.log + AllEvents(cfg, y.orders, y.payouts, next)
    ensures Underway(y, z, cfg, h)
  {
    assert z.log == z.log + [];
  }

  /** The tables after an order is finished. */
  lemma OneMoreFinished(y: System, z: System, h: nat, d: Decision, row': Row, payout': Option<PayoutStatus>)
    requires h in z.handlers && Finished(y, z, z.handlers[h].at) && z.handlers[h].at < |y.orders| && z.now == y.now
    requires z.handlers[h].snapshot == y.orders && d.next.MoveOn?
    requires Writes(z, z.handlers[h], d, row', payout')
    requires var v := z.handlers[h];
             && Served(y.orders[v.at], y.payouts[v.at], row', payout', y.now)
             && !(Serviceable(y.orders[v.at], y.payouts[v.at]) && ClaimHeld(y.orders[v.at], y.now))
    ensures BeforeNext(y, Apply(z, h, d), h, z.handlers[h].at + 1)
    ensures Apply(z, h, d).log == z.log + Logged(d)
  {
  }

  lemma Appended(log: seq<Event>, old0: seq<Event>, done: seq<Event>, soFar: seq<Event>, e: seq<Event>)
    requires log == old0 + done + soFar
    ensures log + e == old0 + done + (soFar + e)
    ensures log + e == old0 + (done + (soFar + e))
  {
  }

  lemma EventsStep(cfg: Config, orders: seq<Row>, payouts: seq<Option<PayoutStatus>>, n: nat)
    requires n < |orders| == |payouts|
    ensures AllEvents(cfg, orders, payouts, n + 1) == AllEvents(cfg, orders, payouts, n) + EventsFor(cfg, n, orders[n], payouts[n])
  {
  }

  lemma {:induction false} WalkUnderway(y: System, cfg: Config, h: nat, answers: nat -> bool, n: nat)
    requires Shaped(y) && y.orders != [] && h in y.handlers && y.handlers[h] == Handler(y.orders, 0, AtOrder, [])
    requires forall k | 0 <= k < n :: answers(k)
    ensures Underway(y, Walk(y, cfg, h, answers, n), cfg, h)
  {
    if n == 0 {
      StartUnderway(y, cfg, h);
    } else {
      WalkUnderway(y, cfg, h, answers, n - 1);
      StepUnderway(y, Walk(y, cfg, h, answers, n - 1), cfg, h);
    }
  }

  lemma StartUnderway(y: System, cfg: Config, h: nat)
    requires Shaped(y) && y.orders != [] && h in y.handlers && y.handlers[h] == Handler(y.orders, 0, AtOrder, [])
    ensures Underway(y, y, cfg, h)
  {
    assert y.log + [] + [] == y.log;
  }

  /** A delivery whose calls are all accepted, with nothing in between, succeeds exactly when no
      order's publish slot is taken. Then every order is served, and what other systems accepted is
      exactly what the orders were due, in their order. */
  lemma DeliveryServes(y: System, cfg: Config, h: nat, answers: nat -> bool, n: nat, ok: bool)
    requires Shaped(y) && y.orders != [] && h in y.handlers && y.handlers[h] == Handler(y.orders, 0, AtOrder, [])
    requires forall k | 0 <= k < n :: answers(k)
    requires Walk(y, cfg, h, answers, n).handlers[h].pc == Done(ok)
    ensures ok <==> !Blocked(y.orders, y.payouts, y.now)
    ensures var z := Walk(y, cfg, h, answers, n);
            ok ==> AllServed(y.orders, y.payouts, z.orders, z.payouts, y.now)
                   && z.log == y.log + AllEvents(cfg, y.orders, y.payouts, |y.orders|)
  {
    WalkUnderway(y, cfg, h, answers, n);
  }

  // ----- Refused calls -----

  /** The points at which the handler depends on a call's success. */
  predicate Depends(y: System, cfg: Config, h: nat)
    requires h in y.handlers && HandlerShaped(y.handlers[h], |y.orders|)
  {
    var v := y.handlers[h];
    match v.pc
    case AtOrder => v.snapshot[v.at].status != Cancelled
    case AtCoupon => cfg.coupons && v.snapshot[v.at].coupon
    case AtLoyalty => cfg.loyalty
    case AtClaim => !v.snapshot[v.at].published
    case AtPayout => true
    case AtComplete => true
    case AtPublishPaid => true
    case AtPublishPayout => true
    case _ => false
  }

  /** A refused call ends the delivery with an error and leaves every table and other system as it
      was; so does a publish slot that another handler holds. A refused transfer, a payout that
      cannot be marked failed and a stamp that cannot be written let it go on. */
  lemma RefusalStops(y: System, cfg: Config, h: nat)
    requires Shaped(y) && h in y.handlers && !y.handlers[h].pc.Done?
    ensures var z, v := Step(y, cfg, OpAct(h, false)), y.handlers[h];
            && (Depends(y, cfg, h) ==> z == y.(handlers := y.handlers[h := v.(pc := Done(false))]))
            && (v.pc == AtTransfer ==>
                  z == y.(log := y.log + [TransferRefused(v.at)], handlers := y.handlers[h := v.(pc := AtFail(false))]))
            && (v.pc.AtFail? || v.pc == AtMark ==>
                  && z.orders == y.orders && z.payouts == y.payouts && z.log == y.log
                  && z.handlers[h].at == v.at + 1 && z.handlers[h].pc != Done(false))
    ensures var z, v := Step(y, cfg, OpAct(h, true)), y.handlers[h];
            v.pc.AtFail? ==> z.payouts == (if y.payouts[v.at].Some? then y.payouts[v.at := Some(PayoutFailed)] else y.payouts)
                             && z.orders == y.orders && z.log == y.log && z.handlers[h].at == v.at + 1
  {
    assert y.log + [] == y.log && y.claims + [] == y.claims;
  }
}
