/** The payment webhook as a state machine over its atomic steps. One payment intent covers the
    orders 0 .. n-1; any number of deliveries run at once, every call may fail, any handler may
    crash, and other services change orders and payouts in between. */
module Webhook {
  import opened Common

  datatype OrderStatus = Pending | Paid | Cancelled | OtherStatus

  /** `coupon` says the order carries a coupon reservation; `published` is paid_event_published_at. */
  datatype Row = Row(status: OrderStatus, coupon: bool, claimAt: Option<Time>, published: bool)

  datatype PayoutStatus = PayoutPending | PayoutCompleted | PayoutFailed | PayoutReversed

  /** What other systems accepted, in order. */
  datatype Event =
    | Transferred(order: nat)
    | TransferRefused(order: nat)
    | TransferUnanswered(order: nat)    // made, but the call answers with an error
    | Completed(order: nat)
    | CouponCommitted(order: nat)
    | LoyaltyCommitted(order: nat)
    | PaidAccepted(order: nat)
    | PayoutAccepted(order: nat)

  datatype Claim = Claim(order: nat, handler: nat, at: Time)

  /** How a handler left an order behind when it moved on. */
  datatype Outcome = Published | WasCancelled | MissingPayout | StuckPayout(status: PayoutStatus) | TransferFailed

  /** The next call of a handler on its current order. Whether a transfer whose call failed was made
      after all is noted for the statements only; the handler cannot know. */
  datatype Pc =
    | AtOrder | AtPayout | AtTransfer | AtFail(paid: bool) | AtComplete | AtCoupon | AtLoyalty | AtClaim
    | AtPublishPaid | AtPublishPayout | AtMark
    | Done(ok: bool)

  /** One delivery: the rows it read first, the order it is at, and what it did with the others. */
  datatype Handler = Handler(snapshot: seq<Row>, at: nat, pc: Pc, outcomes: seq<Outcome>)

  /** Which of the two reservation services is wired in. */
  datatype Config = Config(coupons: bool, loyalty: bool)

  datatype System = System(orders: seq<Row>, payouts: seq<Option<PayoutStatus>>, handlers: map<nat, Handler>,
                           now: Time, log: seq<Event>, claims: seq<Claim>)

  const PUBLISH_CLAIM_TTL: int := 120

  // ----- Steps -----

  datatype Next = GoTo(pc: Pc) | MoveOn(outcome: Outcome)

  /** What one step does: the writes and the event, if any, and where the handler goes. */
  datatype Decision = Decision(row: Option<Row>, payout: Option<PayoutStatus>, event: Option<Event>, claims: bool, next: Next)

  function Only(next: Next): Decision {
    Decision(None, None, None, false, next)
  }

  function Emit(e: Event, pc: Pc): Decision {
    Decision(None, None, Some(e), false, GoTo(pc))
  }

  const FAIL := Only(GoTo(Done(false)))

  /** May the publish slot be claimed now? */
  predicate ClaimFree(r: Row, now: Time) {
    !r.published && (r.claimAt == None || r.claimAt.value < now - PUBLISH_CLAIM_TTL)
  }

  /** The step of a handler at order o: `seen` is its snapshot of the row, `row` and `payout` are
      the current ones, `ok` is what its call answers. */
  function Decide(cfg: Config, o: nat, seen: Row, row: Row, payout: Option<PayoutStatus>, now: Time, pc: Pc, ok: bool): Decision
    requires !pc.Done?
  {
    match pc
    case AtOrder =>
      if seen.status == Cancelled then Only(MoveOn(WasCancelled))
      else if !ok then FAIL
      else Decision(if row.status == Pending then Some(row.(status := Paid)) else None, None, None, false, GoTo(AtPayout))
    case AtPayout =>
      if !ok then FAIL
      else
        (match payout
         case None => Only(MoveOn(MissingPayout))
         case Some(PayoutPending) => Only(GoTo(AtTransfer))
         case Some(PayoutCompleted) => Only(GoTo(AtCoupon))
         case Some(other) => Only(MoveOn(StuckPayout(other))))
    case AtTransfer => if ok then Emit(Transferred(o), AtComplete) else Emit(TransferRefused(o), AtFail(false))
    case AtFail(_) =>
      // Neither the payout write nor the payout.failed event stops the handler.
      Decision(None, if ok then Some(PayoutFailed) else None, None, false, MoveOn(TransferFailed))
    case AtComplete => if ok then Decision(None, Some(PayoutCompleted), Some(Completed(o)), false, GoTo(AtCoupon)) else FAIL
    case AtCoupon =>
      if !(cfg.coupons && seen.coupon) then Only(GoTo(AtLoyalty))
      else if ok then Emit(CouponCommitted(o), AtLoyalty)
      else FAIL
    case AtLoyalty =>
      if !cfg.loyalty then Only(GoTo(AtClaim))
      else if ok then Emit(LoyaltyCommitted(o), AtClaim)
      else FAIL
    case AtClaim =>
      if seen.published then Only(MoveOn(Published))
      else if !ok then FAIL
      else if ClaimFree(row, now) then Decision(Some(row.(claimAt := Some(now))), None, None, true, GoTo(AtPublishPaid))
      else if row.published then Only(MoveOn(Published))
      else FAIL
    case AtPublishPaid => if ok then Emit(PaidAccepted(o), AtPublishPayout) else FAIL
    case AtPublishPayout => if ok then Emit(PayoutAccepted(o), AtMark) else FAIL
    case AtMark =>
      // A failed stamp is only logged.
      Decision(if ok then Some(row.(published := true)) else None, None, None, false, MoveOn(Published))
  }

  /** Stripe makes the transfer, yet the handler gets an error, as from a timeout. */
  function Unanswered(o: nat): Decision {
    Emit(TransferUnanswered(o), AtFail(true))
  }

  function Moved(v: Handler, next: Next): Handler {
    match next
    case GoTo(pc) => v.(pc := pc)
    case MoveOn(outcome) =>
      v.(at := v.at + 1, pc := if v.at + 1 >= |v.snapshot| then Done(true) else AtOrder, outcomes := v.outcomes + [outcome])
  }

  function Apply(y: System, h: nat, d: Decision): System
    requires h in y.handlers && y.handlers[h].at < |y.orders| == |y.payouts|
  {
    var o := y.handlers[h].at;
    System(if d.row.Some? then y.orders[o := d.row.value] else y.orders,
           if d.payout.Some? && y.payouts[o].Some? then y.payouts[o := d.payout] else y.payouts,
           y.handlers[h := Moved(y.handlers[h], d.next)], y.now,
           y.log + (if d.event.Some? then [d.event.value] else []),
           y.claims + (if d.claims then [Claim(o, h, y.now)] else []))
  }

  function DecisionOf(y: System, cfg: Config, h: nat, ok: bool): Decision
    requires h in y.handlers && !y.handlers[h].pc.Done? && y.handlers[h].at < |y.handlers[h].snapshot| == |y.orders| == |y.payouts|
  {
    var v := y.handlers[h];
    Decide(cfg, v.at, v.snapshot[v.at], y.orders[v.at], y.payouts[v.at], y.now, v.pc, ok)
  }

  /** The next step of handler h; `ok` is what its call answers. */
  function Act(y: System, cfg: Config, h: nat, ok: bool): System
    requires h in y.handlers && HandlerShaped(y.handlers[h], |y.orders|) && |y.orders| == |y.payouts|
  {
    if y.handlers[h].pc.Done? then y else Apply(y, h, DecisionOf(y, cfg, h, ok))
  }

  datatype Op =
    | OpDeliver(h: nat)                            // a new delivery reads the orders
    | OpAct(h: nat, ok: bool)                      // a handler makes its next call
    | OpTimeout(h: nat)                            // its transfer is made, but the call fails
    | OpCrash(h: nat)
    | OpTick(delta: nat)
    | OpStatus(order: nat, status: OrderStatus)    // cancellation or fulfilment
    | OpReverse(order: nat)                        // an approved cancellation reverses a completed payout

  ghost function Step(y: System, cfg: Config, op: Op): System
    requires Shaped(y)
  {
    match op
    case OpDeliver(h) =>
      if y.orders == [] || h in y.handlers then y
      else y.(handlers := y.handlers[h := Handler(y.orders, 0, AtOrder, [])])
    case OpAct(h, ok) => if h in y.handlers then Act(y, cfg, h, ok) else y
    case OpTimeout(h) => if h in y.handlers && y.handlers[h].pc == AtTransfer then Apply(y, h, Unanswered(y.handlers[h].at)) else y
    case OpCrash(h) => y.(handlers := y.handlers - {h})
    case OpTick(delta) => y.(now := y.now + delta)
    case OpStatus(o, status) => if o < |y.orders| then y.(orders := y.orders[o := y.orders[o].(status := status)]) else y
    case OpReverse(o) =>
      if o < |y.payouts| && y.payouts[o] == Some(PayoutCompleted) then y.(payouts := y.payouts[o := Some(PayoutReversed)]) else y
  }

  predicate HandlerShaped(v: Handler, n: nat) {
    && |v.snapshot| == n && |v.outcomes| == v.at
    && (if v.pc == Done(true) then v.at == n else v.at < n)
  }

  ghost predicate Shaped(y: System) {
    |y.orders| == |y.payouts| && forall h | h in y.handlers :: HandlerShaped(y.handlers[h], |y.orders|)
  }

  /** Decisions never name a final success themselves. */
  lemma ActShaped(y: System, h: nat, d: Decision)
    requires Shaped(y) && h in y.handlers && !y.handlers[h].pc.Done? && d.next != GoTo(Done(true))
    ensures Shaped(Apply(y, h, d)) && |Apply(y, h, d).orders| == |y.orders|
  {
  }

  lemma StepShaped(y: System, cfg: Config, op: Op)
    requires Shaped(y)
    ensures Shaped(Step(y, cfg, op)) && |Step(y, cfg, op).orders| == |y.orders|
  {
    if op.OpAct? && op.h in y.handlers && !y.handlers[op.h].pc.Done? {
      ActShaped(y, op.h, DecisionOf(y, cfg, op.h, op.ok));
    } else if op.OpTimeout? && op.h in y.handlers && y.handlers[op.h].pc == AtTransfer {
      ActShaped(y, op.h, Unanswered(y.handlers[op.h].at));
    }
  }

  ghost function Run(y: System, cfg: Config, ops: seq<Op>): (z: System)
    requires Shaped(y)
    ensures Shaped(z) && |z.orders| == |y.orders|
  {
    if ops == [] then y
    else
      var mid := Run(y, cfg, ops[..|ops| - 1]);
      StepShaped(mid, cfg, ops[|ops| - 1]);
      Step(mid, cfg, ops[|ops| - 1])
  }

  lemma RunOne(y: System, cfg: Config, ops: seq<Op>, mid: System, op: Op) returns (all: seq<Op>, z: System)
    requires Shaped(y) && mid == Run(y, cfg, ops)
    ensures all == ops + [op] && z == Run(y, cfg, all) && z == Step(mid, cfg, op)
  {
    all := ops + [op];
    assert all[..|ops|] == ops;
    z := Step(mid, cfg, op);
  }

  // ----- What must have happened -----

  /** Everything order o must have behind it before its events go out. */
  predicate Ready(log: seq<Event>, cfg: Config, o: nat, coupon: bool) {
    && Completed(o) in log
    && (cfg.coupons && coupon ==> CouponCommitted(o) in log)
    && (cfg.loyalty ==> LoyaltyCommitted(o) in log)
  }

  /** order.paid was accepted at position p, when the order was ready. */
  predicate PaidAt(log: seq<Event>, cfg: Config, o: nat, coupon: bool, p: nat) {
    p < |log| && log[p] == PaidAccepted(o) && Ready(log[..p], cfg, o, coupon)
  }

  ghost predicate PaidOut(log: seq<Event>, cfg: Config, o: nat, coupon: bool) {
    exists p: nat :: PaidAt(log, cfg, o, coupon, p)
  }

  /** Both events of order o were accepted, after its payout had completed and its required
      coupon and loyalty commits had succeeded. */
  ghost predicate Settled(log: seq<Event>, cfg: Config, o: nat, coupon: bool) {
    exists p: nat, q: nat :: PaidAt(log, cfg, o, coupon, p) && p < q < |log| && log[q] == PayoutAccepted(o)
  }

  /** A transfer call for order o answered with an error. */
  predicate TransferErred(log: seq<Event>, o: nat) {
    TransferRefused(o) in log || TransferUnanswered(o) in log
  }

  /** What a handler knows at each point of its walk over order v.at. */
  ghost predicate Knows(v: Handler, log: seq<Event>, cfg: Config)
    requires v.pc.Done? || v.at < |v.snapshot|
  {
    v.pc.Done? ||
    var o, coupon := v.at, v.snapshot[v.at].coupon;
    match v.pc
    case AtCoupon => Completed(o) in log
    case AtLoyalty => Completed(o) in log && (cfg.coupons && coupon ==> CouponCommitted(o) in log)
    case AtClaim => Ready(log, cfg, o, coupon)
    case AtPublishPaid => Ready(log, cfg, o, coupon)
    case AtPublishPayout => PaidOut(log, cfg, o, coupon)
    case AtMark => Settled(log, cfg, o, coupon)
    case AtFail(_) => TransferErred(log, o)
    case _ => true
  }

  ghost predicate OutcomeOk(y: System, cfg: Config, v: Handler, i: nat)
    requires i < |v.outcomes| && i < |v.snapshot| == |y.orders| == |y.payouts|
  {
    match v.outcomes[i]
    case Published => Settled(y.log, cfg, i, y.orders[i].coupon)
    case WasCancelled => v.snapshot[i].status == Cancelled
    case MissingPayout => y.payouts[i] == None
    case StuckPayout(status) => status == PayoutFailed || status == PayoutReversed
    case TransferFailed => TransferErred(y.log, i)
  }

  ghost predicate HandlerOk(y: System, cfg: Config, v: Handler)
    requires HandlerShaped(v, |y.orders|) && |y.orders| == |y.payouts|
  {
    && Knows(v, y.log, cfg)
    && (forall i | 0 <= i < |v.snapshot| :: v.snapshot[i].coupon == y.orders[i].coupon)
    && (forall i | 0 <= i < |v.snapshot| && v.snapshot[i].published :: Settled(y.log, cfg, i, y.orders[i].coupon))
    && (forall i | 0 <= i < |v.outcomes| :: OutcomeOk(y, cfg, v, i))
  }

  ghost predicate Inv(y: System, cfg: Config) {
    && Shaped(y)
    && (forall o | 0 <= o < |y.orders| && y.payouts[o] == Some(PayoutCompleted) :: Completed(o) in y.log)
    && (forall o | 0 <= o < |y.orders| && y.orders[o].published :: Settled(y.log, cfg, o, y.orders[o].coupon))
    && (forall h | h in y.handlers :: HandlerOk(y, cfg, y.handlers[h]))
  }

  // ----- The log only grows -----

  lemma ReadyGrows(log: seq<Event>, log': seq<Event>, cfg: Config, o: nat, coupon: bool)
    requires log <= log'
    ensures Ready(log, cfg, o, coupon) ==> Ready(log', cfg, o, coupon)
  {
    InGrows(log, log', Completed(o));
    InGrows(log, log', CouponCommitted(o));
    InGrows(log, log', LoyaltyCommitted(o));
  }

  lemma InGrows(log: seq<Event>, log': seq<Event>, e: Event)
    requires log <= log'
    ensures e in log ==> e in log'
  {
    if e in log {
      var i :| 0 <= i < |log| && log[i] == e;
      assert log'[i] == e;
    }
  }

  lemma SettledGrows(log: seq<Event>, log': seq<Event>, cfg: Config, o: nat, coupon: bool)
    requires log <= log'
    ensures PaidOut(log, cfg, o, coupon) ==> PaidOut(log', cfg, o, coupon)
    ensures Settled(log, cfg, o, coupon) ==> Settled(log', cfg, o, coupon)
  {
    forall p: nat | PaidAt(log, cfg, o, coupon, p)
      ensures PaidAt(log', cfg, o, coupon, p)
    {
      assert log'[..p] == log[..p];
    }
    if Settled(log, cfg, o, coupon) {
      var p: nat, q: nat :| PaidAt(log, cfg, o, coupon, p) && p < q < |log| && log[q] == PayoutAccepted(o);
      assert PaidAt(log', cfg, o, coupon, p) && log'[q] == PayoutAccepted(o);
    }
  }

  lemma KnowsGrows(v: Handler, log: seq<Event>, log': seq<Event>, cfg: Config)
    requires (v.pc.Done? || v.at < |v.snapshot|) && log <= log' && Knows(v, log, cfg)
    ensures Knows(v, log', cfg)
  {
    if !v.pc.Done? {
      var o, coupon := v.at, v.snapshot[v.at].coupon;
      ReadyGrows(log, log', cfg, o, coupon);
      SettledGrows(log, log', cfg, o, coupon);
      InGrows(log, log', Completed(o));
      InGrows(log, log', CouponCommitted(o));
      InGrows(log, log', TransferRefused(o));
      InGrows(log, log', TransferUnanswered(o));
    }
  }

  /** A step of someone else leaves what a handler knows true. */
  predicate Extends(y: System, y': System) {
    && |y'.orders| == |y.orders| && |y'.payouts| == |y.payouts| && y.log <= y'.log
    && (forall o | 0 <= o < |y.orders| :: y'.orders[o].coupon == y.orders[o].coupon)
    && (forall o | 0 <= o < |y.payouts| :: (y'.payouts[o] == None) == (y.payouts[o] == None))
  }

  lemma HandlerSurvives(y: System, y': System, cfg: Config, v: Handler)
    requires |y.orders| == |y.payouts| && HandlerShaped(v, |y.orders|) && HandlerOk(y, cfg, v) && Extends(y, y')
    ensures HandlerOk(y', cfg, v)
  {
    KnowsGrows(v, y.log, y'.log, cfg);
    forall i | 0 <= i < |v.snapshot|
      ensures v.snapshot[i].published ==> Settled(y'.log, cfg, i, y'.orders[i].coupon)
      ensures i < |v.outcomes| ==> OutcomeOk(y', cfg, v, i)
    {
      SettledGrows(y.log, y'.log, cfg, i, y.orders[i].coupon);
      InGrows(y.log, y'.log, TransferRefused(i));
      InGrows(y.log, y'.log, TransferUnanswered(i));
      if i < |v.outcomes| {
        assert OutcomeOk(y, cfg, v, i);
      }
    }
  }

  /** The protocol, read off the decisions: which step and which accepted call lead to which
      point, and what each outcome and each write needs. */
  ghost predicate Sound(d: Decision, cfg: Config, o: nat, seen: Row, row: Row, payout: Option<PayoutStatus>, now: Time, pc: Pc) {
    && (d.row.Some? ==> d.row.value.coupon == row.coupon && (d.row.value.published ==> row.published || pc == AtMark))
    && (d.row.Some? && !d.claims ==> d.row.value.claimAt == row.claimAt)
    && (d.claims ==> ClaimFree(row, now) && d.row == Some(row.(claimAt := Some(now))))
    && (d.payout == Some(PayoutCompleted) ==> d.event == Some(Completed(o)))
    && (match d.next
        case GoTo(AtCoupon) => payout == Some(PayoutCompleted) || d.event == Some(Completed(o))
        case GoTo(AtLoyalty) => pc == AtCoupon && (cfg.coupons && seen.coupon ==> d.event == Some(CouponCommitted(o)))
        case GoTo(AtClaim) => pc == AtLoyalty && (cfg.loyalty ==> d.event == Some(LoyaltyCommitted(o)))
        case GoTo(AtPublishPaid) => pc == AtClaim
        case GoTo(AtPublishPayout) => pc == AtPublishPaid && d.event == Some(PaidAccepted(o))
        case GoTo(AtMark) => pc == AtPublishPayout && d.event == Some(PayoutAccepted(o))
        case GoTo(AtFail(_)) => d.event == Some(TransferRefused(o)) || d.event == Some(TransferUnanswered(o))
        case GoTo(Done(b)) => !b
        case GoTo(_) => true
        case MoveOn(Published) => pc == AtMark || seen.published || row.published
        case MoveOn(WasCancelled) => seen.status == Cancelled
        case MoveOn(MissingPayout) => payout == None
        case MoveOn(StuckPayout(status)) => status == PayoutFailed || status == PayoutReversed
        case MoveOn(TransferFailed) => pc.AtFail?)
  }

  lemma DecisionsSound(cfg: Config, o: nat, seen: Row, row: Row, payout: Option<PayoutStatus>, now: Time, pc: Pc, ok: bool)
    requires !pc.Done?
    ensures Sound(Decide(cfg, o, seen, row, payout, now, pc, ok), cfg, o, seen, row, payout, now, pc)
  {
  }

  lemma ApplyExtends(y: System, h: nat, d: Decision)
    requires h in y.handlers && y.handlers[h].at < |y.orders| == |y.payouts|
    requires d.row.Some? ==> d.row.value.coupon == y.orders[y.handlers[h].at].coupon
    ensures Extends(y, Apply(y, h, d))
  {
  }

  /** What the log says after an event, at the point the handler reaches by it. */
  lemma EventKnown(log: seq<Event>, log': seq<Event>, cfg: Config, o: nat, coupon: bool, e: Event)
    requires log' == log + [e]
    ensures e in log'
    ensures e == PaidAccepted(o) && Ready(log, cfg, o, coupon) ==> PaidOut(log', cfg, o, coupon)
    ensures e == PayoutAccepted(o) && PaidOut(log, cfg, o, coupon) ==> Settled(log', cfg, o, coupon)
  {
    assert log'[|log|] == e;
    if e == PaidAccepted(o) && Ready(log, cfg, o, coupon) {
      assert log'[..|log|] == log;
      assert PaidAt(log', cfg, o, coupon, |log|);
    }
    if e == PayoutAccepted(o) && PaidOut(log, cfg, o, coupon) {
      var p: nat :| PaidAt(log, cfg, o, coupon, p);
      assert log'[..p] == log[..p];
      assert PaidAt(log', cfg, o, coupon, p) && p < |log| && log'[|log|] == PayoutAccepted(o);
    }
  }

  /** What a handler knows after its own step. */
  lemma MoveKnows(v: Handler, d: Decision, cfg: Config, row: Row, payout: Option<PayoutStatus>, now: Time,
                  log: seq<Event>, log': seq<Event>)
    requires !v.pc.Done? && v.at < |v.snapshot| && Knows(v, log, cfg) && v.snapshot[v.at].coupon == row.coupon
    requires Sound(d, cfg, v.at, v.snapshot[v.at], row, payout, now, v.pc)
    requires log' == log + (if d.event.Some? then [d.event.value] else [])
    requires payout == Some(PayoutCompleted) ==> Completed(v.at) in log
    ensures var v' := Moved(v, d.next); (v'.pc.Done? || v'.at < |v'.snapshot|) && Knows(v', log', cfg)
  {
    var o, coupon := v.at, v.snapshot[v.at].coupon;
    KnowsGrows(v, log, log', cfg);
    InGrows(log, log', Completed(o));
    ReadyGrows(log, log', cfg, o, coupon);
    if d.event.Some? {
      EventKnown(log, log', cfg, o, coupon, d.event.value);
    }
  }

  lemma ActRows(y: System, cfg: Config, h: nat, d: Decision)
    requires Inv(y, cfg) && h in y.handlers && !y.handlers[h].pc.Done?
    requires var v := y.handlers[h]; Sound(d, cfg, v.at, v.snapshot[v.at], y.orders[v.at], y.payouts[v.at], y.now, v.pc)
    ensures var y' := Apply(y, h, d);
            && (forall o | 0 <= o < |y'.orders| && y'.payouts[o] == Some(PayoutCompleted) :: Completed(o) in y'.log)
            && (forall o | 0 <= o < |y'.orders| && y'.orders[o].published :: Settled(y'.log, cfg, o, y'.orders[o].coupon))
  {
    var y', v := Apply(y, h, d), y.handlers[h];
    assert HandlerOk(y, cfg, v);
    forall o | 0 <= o < |y'.orders|
      ensures y'.payouts[o] == Some(PayoutCompleted) ==> Completed(o) in y'.log
      ensures y'.orders[o].published ==> Settled(y'.log, cfg, o, y'.orders[o].coupon)
    {
      InGrows(y.log, y'.log, Completed(o));
      SettledGrows(y.log, y'.log, cfg, o, y.orders[o].coupon);
      if d.event.Some? {
        EventKnown(y.log, y'.log, cfg, o, false, d.event.value);
      }
    }
  }

  lemma ActHandler(y: System, cfg: Config, h: nat, d: Decision)
    requires Inv(y, cfg) && h in y.handlers && !y.handlers[h].pc.Done? && d.next != GoTo(Done(true))
    requires var v := y.handlers[h]; Sound(d, cfg, v.at, v.snapshot[v.at], y.orders[v.at], y.payouts[v.at], y.now, v.pc)
    ensures var y' := Apply(y, h, d);
            HandlerShaped(y'.handlers[h], |y'.orders|) && |y'.orders| == |y'.payouts| && HandlerOk(y', cfg, y'.handlers[h])
  {
    var y', v := Apply(y, h, d), y.handlers[h];
    var v' := y'.handlers[h];
    assert HandlerOk(y, cfg, v);
    ApplyExtends(y, h, d);
    HandlerSurvives(y, y', cfg, v);
    MoveKnows(v, d, cfg, y.orders[v.at], y.payouts[v.at], y.now, y.log, y'.log);
    ActOutcomes(y, cfg, h, d);
  }

  lemma ActOutcomes(y: System, cfg: Config, h: nat, d: Decision)
    requires Inv(y, cfg) && h in y.handlers && !y.handlers[h].pc.Done? && d.next != GoTo(Done(true))
    requires var v := y.handlers[h]; Sound(d, cfg, v.at, v.snapshot[v.at], y.orders[v.at], y.payouts[v.at], y.now, v.pc)
    ensures var y' := Apply(y, h, d);
            var v' := y'.handlers[h];
            && |y'.orders| == |y'.payouts| == |v'.snapshot| && |v'.outcomes| <= |y'.orders|
            && forall i | 0 <= i < |v'.outcomes| :: OutcomeOk(y', cfg, v', i)
  {
    var y', v := Apply(y, h, d), y.handlers[h];
    var v' := y'.handlers[h];
    assert HandlerOk(y, cfg, v);
    ApplyExtends(y, h, d);
    HandlerSurvives(y, y', cfg, v);
    forall i | 0 <= i < |v.outcomes|
      ensures OutcomeOk(y', cfg, v', i)
    {
      assert OutcomeOk(y', cfg, v, i);
    }
    if d.next.MoveOn? {
      NewOutcome(y, cfg, h, d);
    }
  }

  /** How the handler left its order behind. */
  lemma NewOutcome(y: System, cfg: Config, h: nat, d: Decision)
    requires Inv(y, cfg) && h in y.handlers && !y.handlers[h].pc.Done? && d.next.MoveOn?
    requires var v := y.handlers[h]; Sound(d, cfg, v.at, v.snapshot[v.at], y.orders[v.at], y.payouts[v.at], y.now, v.pc)
    ensures var y' := Apply(y, h, d);
            && |y'.orders| == |y'.payouts| == |y.orders|
            && OutcomeOk(y', cfg, y'.handlers[h], y.handlers[h].at)
  {
    var y', v := Apply(y, h, d), y.handlers[h];
    assert HandlerOk(y, cfg, v);
    SettledGrows(y.log, y'.log, cfg, v.at, y.orders[v.at].coupon);
    InGrows(y.log, y'.log, TransferRefused(v.at));
    InGrows(y.log, y'.log, TransferUnanswered(v.at));
  }

  lemma ActKeepsInv(y: System, cfg: Config, h: nat, d: Decision)
    requires Inv(y, cfg) && h in y.handlers && !y.handlers[h].pc.Done? && d.next != GoTo(Done(true))
    requires var v := y.handlers[h]; Sound(d, cfg, v.at, v.snapshot[v.at], y.orders[v.at], y.payouts[v.at], y.now, v.pc)
    ensures Inv(Apply(y, h, d), cfg)
  {
    var y' := Apply(y, h, d);
    ActShaped(y, h, d);
    ApplyExtends(y, h, d);
    ActRows(y, cfg, h, d);
    ActHandler(y, cfg, h, d);
    forall g | g in y'.handlers
      ensures HandlerOk(y', cfg, y'.handlers[g])
    {
      if g != h {
        HandlerSurvives(y, y', cfg, y.handlers[g]);
      }
    }
  }

  lemma StepKeepsInv(y: System, cfg: Config, op: Op)
    requires Inv(y, cfg)
    ensures Inv(Step(y, cfg, op), cfg)
  {
    if op.OpAct? {
      if op.h in y.handlers && !y.handlers[op.h].pc.Done? {
        var v := y.handlers[op.h];
        DecisionsSound(cfg, v.at, v.snapshot[v.at], y.orders[v.at], y.payouts[v.at], y.now, v.pc, op.ok);
        ActKeepsInv(y, cfg, op.h, DecisionOf(y, cfg, op.h, op.ok));
      }
    } else if op.OpTimeout? {
      if op.h in y.handlers && y.handlers[op.h].pc == AtTransfer {
        ActKeepsInv(y, cfg, op.h, Unanswered(y.handlers[op.h].at));
      }
    } else {
      var y' := Step(y, cfg, op);
      forall g | g in y'.handlers
        ensures HandlerShaped(y'.handlers[g], |y'.orders|) && HandlerOk(y', cfg, y'.handlers[g])
      {
        if g in y.handlers {
          HandlerSurvives(y, y', cfg, y.handlers[g]);
        }
      }
    }
  }

  lemma {:induction false} RunKeepsInv(y: System, cfg: Config, ops: seq<Op>)
    requires Inv(y, cfg)
    ensures Inv(Run(y, cfg, ops), cfg)
  {
    if ops != [] {
      RunKeepsInv(y, cfg, ops[..|ops| - 1]);
      StepKeepsInv(Run(y, cfg, ops[..|ops| - 1]), cfg, ops[|ops| - 1]);
    }
  }

  /** Right after a checkout: nothing delivered, nothing claimed, nothing paid out. */
  predicate Fresh(y: System) {
    && |y.orders| == |y.payouts| && y.handlers == map[] && y.log == [] && y.claims == []
    && (forall o | 0 <= o < |y.orders| :: !y.orders[o].published && y.orders[o].claimAt == None)
    && (forall o | 0 <= o < |y.payouts| :: y.payouts[o] == None || y.payouts[o] == Some(PayoutPending))
  }
}
