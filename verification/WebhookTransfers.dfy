/** How often sellers are paid, over every run of the payment webhook, and what stands between a
    cancellation and a transfer. */
module WebhookTransfers {
  import opened Common
  import opened Webhook

  function Count(log: seq<Event>, e: Event): nat {
    if log == [] then 0 else Count(log[..|log| - 1], e) + Bit(log[|log| - 1] == e)
  }

  function Bit(b: bool): nat {
    if b then 1 else 0
  }

  /** The transfers Stripe made for order o, also those whose call answered with an error. */
  function Transfers(log: seq<Event>, o: nat): nat {
    Count(log, Transferred(o)) + Count(log, TransferUnanswered(o))
  }

  lemma CountAppend(log: seq<Event>, last: Event, e: Event)
    ensures Count(log + [last], e) == Count(log, e) + Bit(last == e)
  {
    assert (log + [last])[..|log|] == log;
  }

  // ----- Every transfer is accounted for -----

  /** Handler h stands between its transfer of order o and the write that records it, as completed
      or, when the call failed, as failed. */
  predicate Recording(y: System, h: nat, o: nat) {
    h in y.handlers && y.handlers[h].at == o && (y.handlers[h].pc == AtComplete || y.handlers[h].pc == AtFail(true))
  }

  function Recorders(y: System, o: nat): set<nat> {
    set h | h in y.handlers && Recording(y, h, o)
  }

  /** Stripe makes a transfer for order o, whatever the call answers. */
  predicate Pays(y: System, op: Op, o: nat) {
    ((op.OpAct? && op.ok) || op.OpTimeout?) && op.h in y.handlers && y.handlers[op.h].pc == AtTransfer && y.handlers[op.h].at == o
  }

  /** The write that records a transfer of order o goes through. */
  predicate Records(y: System, op: Op, o: nat) {
    op.OpAct? && op.ok && Recording(y, op.h, o)
  }

  /** It is lost: it fails, or its handler crashes before it. */
  predicate Loses(y: System, op: Op, o: nat) {
    (op.OpCrash? || (op.OpAct? && !op.ok)) && Recording(y, op.h, o)
  }

  ghost function Recorded(y: System, cfg: Config, ops: seq<Op>, o: nat): nat
    requires Shaped(y)
  {
    if ops == [] then 0
    else
      var init := ops[..|ops| - 1];
      Recorded(y, cfg, init, o) + Bit(Records(Run(y, cfg, init), ops[|ops| - 1], o))
  }

  ghost function Lost(y: System, cfg: Config, ops: seq<Op>, o: nat): nat
    requires Shaped(y)
  {
    if ops == [] then 0
    else
      var init := ops[..|ops| - 1];
      Lost(y, cfg, init, o) + Bit(Loses(Run(y, cfg, init), ops[|ops| - 1], o))
  }

  /** What a step may do about transfers. */
  ghost predicate TransferRule(d: Decision, o: nat, seen: Row, row: Row, payout: Option<PayoutStatus>, pc: Pc, ok: bool, timeout: bool) {
    && (forall x: nat :: d.event == Some(Transferred(x)) <==> pc == AtTransfer && ok && x == o)
    && (forall x: nat :: d.event == Some(TransferUnanswered(x)) <==> timeout && x == o)
    && (d.next == GoTo(AtComplete) <==> pc == AtTransfer && ok)
    && (d.next == GoTo(AtFail(true)) <==> timeout)
    && (d.next == GoTo(AtTransfer) ==> payout == Some(PayoutPending) && d.payout == None)
    && (d.payout.Some? ==> pc == AtComplete || pc.AtFail?)
    && d.payout != Some(PayoutPending)
    && (ok && (pc == AtComplete || pc.AtFail?) ==> d.payout.Some?)
    && (pc == AtOrder && d.next.GoTo? && !d.next.pc.Done? ==> seen.status != Cancelled)
    && (d.next.GoTo? ==> d.next.pc != AtOrder && d.next.pc != Done(true))
    && (d.row.Some? ==> (d.row.value.status == Cancelled <==> row.status == Cancelled))
  }

  lemma DecisionsObeyTransferRule(cfg: Config, o: nat, seen: Row, row: Row, payout: Option<PayoutStatus>, now: Time, pc: Pc, ok: bool)
    requires !pc.Done?
    ensures TransferRule(Decide(cfg, o, seen, row, payout, now, pc, ok), o, seen, row, payout, pc, ok, false)
  {
  }

  /** The operation makes handler h take a step. */
  predicate Moves(y: System, op: Op) {
    (op.OpAct? && Busy(y, op.h)) || (op.OpTimeout? && op.h in y.handlers && y.handlers[op.h].pc == AtTransfer)
  }

  /** The step of a handler, as far as transfers go. */
  lemma MoveRule(y: System, cfg: Config, op: Op) returns (v: Handler, d: Decision, y': System)
    requires Shaped(y) && Moves(y, op)
    ensures v == y.handlers[op.h] && y' == Step(y, cfg, op) && y' == Apply(y, op.h, d) && Shaped(y')
    ensures TransferRule(d, v.at, v.snapshot[v.at], y.orders[v.at], y.payouts[v.at], v.pc, op.OpAct? && op.ok, op.OpTimeout?)
  {
    v, y' := y.handlers[op.h], Step(y, cfg, op);
    if op.OpAct? {
      d := DecisionOf(y, cfg, op.h, op.ok);
      DecisionsObeyTransferRule(cfg, v.at, v.snapshot[v.at], y.orders[v.at], y.payouts[v.at], y.now, v.pc, op.ok);
    } else {
      d := Unanswered(v.at);
    }
    ActShaped(y, op.h, d);
  }

  /** One transfer at most is made by a step, and only by a handler's. */
  lemma StepCounts(y: System, cfg: Config, op: Op, o: nat)
    requires Shaped(y)
    ensures Transfers(Step(y, cfg, op).log, o) == Transfers(y.log, o) + Bit(Pays(y, op, o))
  {
    if Moves(y, op) {
      var v, d, y' := MoveRule(y, cfg, op);
      if d.event.Some? {
        CountAppend(y.log, d.event.value, Transferred(o));
        CountAppend(y.log, d.event.value, TransferUnanswered(o));
      } else {
        assert y'.log == y.log;
      }
    }
  }

  /** The recorders change by the handler that steps or crashes. */
  lemma StepRecorders(y: System, cfg: Config, op: Op, o: nat)
    requires Shaped(y)
    ensures |Recorders(Step(y, cfg, op), o)| + Bit(Records(y, op, o)) + Bit(Loses(y, op, o)) == |Recorders(y, o)| + Bit(Pays(y, op, o))
  {
    if Moves(y, op) {
      MoveRecorders(y, cfg, op, o);
      OneElement(Recorders(y, o), Recorders(Step(y, cfg, op), o), op.h);
    } else if op.OpCrash? {
      CrashRecorders(y, cfg, op.h, o);
    } else {
      OthersStand(y, cfg, op, o);
    }
  }

  lemma CrashRecorders(y: System, cfg: Config, h: nat, o: nat)
    requires Shaped(y)
    ensures |Recorders(Step(y, cfg, OpCrash(h)), o)| + Bit(Recording(y, h, o)) == |Recorders(y, o)|
  {
    assert Recorders(Step(y, cfg, OpCrash(h)), o) == Recorders(y, o) - {h};
    OneElement(Recorders(y, o), Recorders(Step(y, cfg, OpCrash(h)), o), h);
  }

  lemma OthersStand(y: System, cfg: Config, op: Op, o: nat)
    requires Shaped(y) && !op.OpCrash? && !Moves(y, op)
    ensures Recorders(Step(y, cfg, op), o) == Recorders(y, o)
  {
  }

  lemma MoveRecorders(y: System, cfg: Config, op: Op, o: nat)
    requires Shaped(y) && Moves(y, op)
    ensures var before, after := Recorders(y, o), Recorders(Step(y, cfg, op), o);
            && (forall g | g != op.h :: g in after <==> g in before)
            && (op.h in after <==> Pays(y, op, o)) && (op.h in before <==> Recording(y, op.h, o))
  {
    var v, d, y' := MoveRule(y, cfg, op);
    assert y'.handlers == y.handlers[op.h := Moved(v, d.next)];
  }

  lemma OneElement(before: set<nat>, after: set<nat>, h: nat)
    requires forall g | g != h :: g in after <==> g in before
    ensures |after| + Bit(h in before) == |before| + Bit(h in after)
  {
    var rest := before - {h};
    assert after - {h} == rest;
    assert h in before ==> before == rest + {h};
    assert h in after ==> after == rest + {h};
    assert h !in before ==> before == rest;
    assert h !in after ==> after == rest;
  }

  /** Whatever interleaves, fails or is not answered: the transfers of an order are those whose
      record was written, those whose record was lost, and those whose record is still to come. */
  lemma {:induction false} TransfersAccounted(y: System, cfg: Config, ops: seq<Op>, o: nat)
    requires Fresh(y)
    ensures var z := Run(y, cfg, ops);
            Transfers(z.log, o) == Recorded(y, cfg, ops, o) + Lost(y, cfg, ops, o) + |Recorders(z, o)|
  {
    if ops != [] {
      var init, last := ops[..|ops| - 1], ops[|ops| - 1];
      TransfersAccounted(y, cfg, init, o);
      StepCounts(Run(y, cfg, init), cfg, last, o);
      StepRecorders(Run(y, cfg, init), cfg, last, o);
    } else {
      assert Recorders(y, o) == {};
    }
  }

  /** A recorded payout is never pending again. */
  lemma StepSettles(y: System, cfg: Config, op: Op, o: nat)
    requires Shaped(y) && o < |y.payouts|
    ensures |Step(y, cfg, op).payouts| == |y.payouts|
    ensures Records(y, op, o) || y.payouts[o] != Some(PayoutPending) ==> Step(y, cfg, op).payouts[o] != Some(PayoutPending)
  {
    StepShaped(y, cfg, op);
    if Moves(y, op) {
      var v, d, y' := MoveRule(y, cfg, op);
    }
  }

  lemma {:induction false} RecordedSettles(y: System, cfg: Config, ops: seq<Op>, o: nat)
    requires Fresh(y) && o < |y.payouts| && Recorded(y, cfg, ops, o) > 0
    ensures |Run(y, cfg, ops).payouts| == |y.payouts| && Run(y, cfg, ops).payouts[o] != Some(PayoutPending)
  {
    var init, last := ops[..|ops| - 1], ops[|ops| - 1];
    if Recorded(y, cfg, init, o) > 0 {
      RecordedSettles(y, cfg, init, o);
    }
    StepSettles(Run(y, cfg, init), cfg, last, o);
  }

  // ----- Paid twice -----

  predicate Busy(y: System, h: nat) {
    h in y.handlers && !y.handlers[h].pc.Done?
  }

  /** No delivery starts while another runs. */
  ghost predicate Sequential(y: System, op: Op) {
    op.OpDeliver? ==> forall g | g in y.handlers :: !Busy(y, g)
  }

  ghost predicate AllSequential(y: System, cfg: Config, ops: seq<Op>)
    requires Shaped(y)
  {
    forall k: nat | k < |ops| :: Sequential(Run(y, cfg, ops[..k]), ops[k])
  }

  lemma SequentialPrefix(y: System, cfg: Config, ops: seq<Op>)
    requires Shaped(y) && ops != [] && AllSequential(y, cfg, ops)
    ensures AllSequential(y, cfg, ops[..|ops| - 1]) && Sequential(Run(y, cfg, ops[..|ops| - 1]), ops[|ops| - 1])
  {
    var init := ops[..|ops| - 1];
    forall k: nat | k < |init|
      ensures Sequential(Run(y, cfg, init[..k]), init[k])
    {
      assert init[..k] == ops[..k];
    }
  }

  /** One handler at a time: the payout it is about to transfer is pending. */
  ghost predicate SequentialOk(y: System) {
    && Shaped(y)
    && (forall g, h | Busy(y, g) && Busy(y, h) :: g == h)
    && (forall h | h in y.handlers && y.handlers[h].pc == AtTransfer :: y.payouts[y.handlers[h].at] == Some(PayoutPending))
  }

  lemma StepKeepsSequential(y: System, cfg: Config, op: Op)
    requires SequentialOk(y) && Sequential(y, op)
    ensures SequentialOk(Step(y, cfg, op))
  {
    StepShaped(y, cfg, op);
    var y' := Step(y, cfg, op);
    if Moves(y, op) {
      var v, d, _ := MoveRule(y, cfg, op);
      forall g | Busy(y', g)
        ensures g == op.h
      {
        assert Busy(y, g) && Busy(y, op.h);
      }
      forall g | g in y'.handlers && y'.handlers[g].pc == AtTransfer
        ensures y'.payouts[y'.handlers[g].at] == Some(PayoutPending)
      {
        assert Busy(y', g);
      }
    } else {
      forall g | Busy(y', g)
        ensures Busy(y, g) || (op.OpDeliver? && g == op.h)
      {
      }
    }
  }

  lemma {:induction false} RunKeepsSequential(y: System, cfg: Config, ops: seq<Op>)
    requires Fresh(y) && AllSequential(y, cfg, ops)
    ensures SequentialOk(Run(y, cfg, ops))
  {
    if ops != [] {
      SequentialPrefix(y, cfg, ops);
      RunKeepsSequential(y, cfg, ops[..|ops| - 1]);
      StepKeepsSequential(Run(y, cfg, ops[..|ops| - 1]), cfg, ops[|ops| - 1]);
    }
  }

  /** Step i loses the record of a transfer of order o and the later step k pays o again. */
  ghost predicate LostThenPaid(y: System, cfg: Config, ops: seq<Op>, o: nat, i: nat, k: nat)
    requires Shaped(y)
  {
    i < k < |ops| && Loses(Run(y, cfg, ops[..i]), ops[i], o) && Pays(Run(y, cfg, ops[..k]), ops[k], o)
  }

  lemma {:induction false} LostSomewhere(y: System, cfg: Config, ops: seq<Op>, o: nat) returns (i: nat)
    requires Shaped(y) && Lost(y, cfg, ops, o) > 0
    ensures i < |ops| && Loses(Run(y, cfg, ops[..i]), ops[i], o)
  {
    var init := ops[..|ops| - 1];
    i := |init|;
    if Lost(y, cfg, init, o) > 0 {
      i := LostSomewhere(y, cfg, init, o);
      assert init[..i] == ops[..i];
    }
  }

  lemma SlicePrefix(ops: seq<Op>, n: nat, i: nat)
    requires i <= n <= |ops|
    ensures ops[..n][..i] == ops[..i]
  {
  }

  lemma {:induction false} TransfersGrow(y: System, cfg: Config, ops: seq<Op>, i: nat, k: nat, o: nat)
    requires Shaped(y) && i <= k <= |ops|
    ensures Transfers(Run(y, cfg, ops[..i]).log, o) <= Transfers(Run(y, cfg, ops[..k]).log, o)
  {
    if i < k {
      TransfersGrow(y, cfg, ops, i, k - 1, o);
      StepTransfers(y, cfg, ops, k - 1, o);
    }
  }

  lemma StepTransfers(y: System, cfg: Config, ops: seq<Op>, k: nat, o: nat)
    requires Shaped(y) && k < |ops|
    ensures Transfers(Run(y, cfg, ops[..k + 1]).log, o) == Transfers(Run(y, cfg, ops[..k]).log, o) + Bit(Pays(Run(y, cfg, ops[..k]), ops[k], o))
  {
    StepCounts(Run(y, cfg, ops[..k]), cfg, ops[k], o);
    SlicePrefix(ops, k + 1, k);
  }

  /** A handler whose record is lost has paid before. */
  lemma PaidBeforeLoss(y: System, cfg: Config, ops: seq<Op>, op: Op, o: nat)
    requires Fresh(y) && Loses(Run(y, cfg, ops), op, o)
    ensures Transfers(Run(y, cfg, ops).log, o) >= 1
  {
    TransfersAccounted(y, cfg, ops, o);
    assert op.h in Recorders(Run(y, cfg, ops), o);
  }

  /** In any run, also an overlapping one, a lost record followed by a transfer pays twice. */
  lemma LossPaysTwice(y: System, cfg: Config, ops: seq<Op>, o: nat, i: nat, k: nat)
    requires Fresh(y) && LostThenPaid(y, cfg, ops, o, i, k)
    ensures Transfers(Run(y, cfg, ops).log, o) >= 2
  {
    PaidBeforeLoss(y, cfg, ops[..i], ops[i], o);
    TransfersGrow(y, cfg, ops, i, k, o);
    PaidOnceMore(y, cfg, ops, k, o);
  }

  lemma PaidOnceMore(y: System, cfg: Config, ops: seq<Op>, k: nat, o: nat)
    requires Shaped(y) && k < |ops| && Pays(Run(y, cfg, ops[..k]), ops[k], o)
    ensures Transfers(Run(y, cfg, ops).log, o) >= Transfers(Run(y, cfg, ops[..k]).log, o) + 1
  {
    StepTransfers(y, cfg, ops, k, o);
    TransfersGrow(y, cfg, ops, k + 1, |ops|, o);
    assert ops[..|ops|] == ops;
  }

  /** The first second transfer of deliveries that do not overlap has a lost record behind it. */
  lemma SecondTransferAfterLoss(y: System, cfg: Config, init: seq<Op>, last: Op, o: nat) returns (i: nat)
    requires Fresh(y) && o < |y.orders| && AllSequential(y, cfg, init)
    requires Pays(Run(y, cfg, init), last, o) && Transfers(Run(y, cfg, init).log, o) == 1
    ensures i < |init| && Loses(Run(y, cfg, init[..i]), init[i], o)
  {
    var mid := Run(y, cfg, init);
    RunKeepsSequential(y, cfg, init);
    TransfersAccounted(y, cfg, init, o);
    if Recorded(y, cfg, init, o) > 0 {
      RecordedSettles(y, cfg, init, o);
    }
    forall h | h in Recorders(mid, o)
      ensures false
    {
      assert Busy(mid, h) && Busy(mid, last.h);
    }
    assert Recorders(mid, o) == {};
    i := LostSomewhere(y, cfg, init, o);
  }

  lemma {:induction false} LossBehindSecond(y: System, cfg: Config, ops: seq<Op>, o: nat) returns (i: nat, k: nat)
    requires Fresh(y) && o < |y.orders| && AllSequential(y, cfg, ops)
    requires Transfers(Run(y, cfg, ops).log, o) >= 2
    ensures LostThenPaid(y, cfg, ops, o, i, k)
  {
    var n := |ops| - 1;
    var init, last := ops[..n], ops[n];
    SequentialPrefix(y, cfg, ops);
    if Transfers(Run(y, cfg, init).log, o) >= 2 {
      i, k := LossBehindSecond(y, cfg, init, o);
      SlicePrefix(ops, n, k);
    } else {
      StepCounts(Run(y, cfg, init), cfg, last, o);
      i := SecondTransferAfterLoss(y, cfg, init, last, o);
      k := n;
    }
    SlicePrefix(ops, n, i);
  }

  /** Deliveries that do not overlap pay an order more than once exactly when the record of a
      transfer was lost and another transfer was made later. */
  lemma {:induction false} PaidTwiceIff(y: System, cfg: Config, ops: seq<Op>, o: nat)
    requires Fresh(y) && o < |y.orders| && AllSequential(y, cfg, ops)
    ensures Transfers(Run(y, cfg, ops).log, o) >= 2 <==> exists i: nat, k: nat :: LostThenPaid(y, cfg, ops, o, i, k)
  {
    if i: nat, k: nat :| LostThenPaid(y, cfg, ops, o, i, k) {
      LossPaysTwice(y, cfg, ops, o, i, k);
    }
    if Transfers(Run(y, cfg, ops).log, o) >= 2 {
      var i, k := LossBehindSecond(y, cfg, ops, o);
    }
  }

  /** Without overlapping deliveries and without a lost record, each order gets at most one
      transfer, however many deliveries there are and whatever the calls answer. */
  lemma AtMostOneTransfer(y: System, cfg: Config, ops: seq<Op>, o: nat)
    requires Fresh(y) && o < |y.orders| && AllSequential(y, cfg, ops)
    requires forall k: nat | k < |ops| :: !Loses(Run(y, cfg, ops[..k]), ops[k], o)
    ensures Transfers(Run(y, cfg, ops).log, o) <= 1
  {
    PaidTwiceIff(y, cfg, ops, o);
  }

  // ----- Transfers and cancellations -----

  /** Past its first step on an order, a handler has read the order as not cancelled. */
  ghost predicate ReadLive(y: System) {
    && Shaped(y)
    && forall h | h in y.handlers && !y.handlers[h].pc.Done? && y.handlers[h].pc != AtOrder ::
         y.handlers[h].snapshot[y.handlers[h].at].status != Cancelled
  }

  lemma StepKeepsReadLive(y: System, cfg: Config, op: Op)
    requires ReadLive(y)
    ensures ReadLive(Step(y, cfg, op))
  {
    StepShaped(y, cfg, op);
    if Moves(y, op) {
      var v, d, y' := MoveRule(y, cfg, op);
    }
  }

  lemma {:induction false} RunKeepsReadLive(y: System, cfg: Config, ops: seq<Op>)
    requires Fresh(y)
    ensures ReadLive(Run(y, cfg, ops))
  {
    if ops != [] {
      RunKeepsReadLive(y, cfg, ops[..|ops| - 1]);
      StepKeepsReadLive(Run(y, cfg, ops[..|ops| - 1]), cfg, ops[|ops| - 1]);
    }
  }

  /** Handler h is the delivery that step j started: what it read are the orders of that moment. */
  ghost predicate StartedAt(y: System, cfg: Config, ops: seq<Op>, h: nat, j: nat)
    requires Shaped(y)
  {
    && j < |ops| && ops[j] == OpDeliver(h)
    && h in Run(y, cfg, ops).handlers && Run(y, cfg, ops).handlers[h].snapshot == Run(y, cfg, ops[..j]).orders
  }

  lemma {:induction false} Started(y: System, cfg: Config, ops: seq<Op>, h: nat) returns (j: nat)
    requires Fresh(y) && h in Run(y, cfg, ops).handlers
    ensures StartedAt(y, cfg, ops, h, j)
  {
    var init, last := ops[..|ops| - 1], ops[|ops| - 1];
    var mid := Run(y, cfg, init);
    j := |init|;
    if h in mid.handlers {
      j := Started(y, cfg, init, h);
      assert init[..j] == ops[..j];
      SnapshotStands(mid, cfg, last, h);
    }
  }

  lemma SnapshotStands(y: System, cfg: Config, op: Op, h: nat)
    requires Shaped(y) && h in y.handlers && h in Step(y, cfg, op).handlers
    ensures Step(y, cfg, op).handlers[h].snapshot == y.handlers[h].snapshot
  {
  }

  lemma {:induction false} RunSplit(y: System, cfg: Config, ops: seq<Op>, j: nat)
    requires Shaped(y) && j <= |ops|
    ensures Run(y, cfg, ops) == Run(Run(y, cfg, ops[..j]), cfg, ops[j..])
  {
    if j == |ops| {
      assert ops[..j] == ops;
    } else {
      var init := ops[..|ops| - 1];
      RunSplit(y, cfg, init, j);
      assert init[..j] == ops[..j] && init[j..] == ops[j..][..|ops[j..]| - 1];
    }
  }

  /** The last status update of order o among these operations cancels it. */
  predicate CancelledBy(ops: seq<Op>, o: nat) {
    ops != [] &&
    var last := ops[|ops| - 1];
    if last.OpStatus? && last.order == o then last.status == Cancelled else CancelledBy(ops[..|ops| - 1], o)
  }

  lemma StepStatus(y: System, cfg: Config, op: Op, o: nat)
    requires Shaped(y) && o < |y.orders|
    ensures Step(y, cfg, op).orders[o].status == Cancelled <==>
              if op.OpStatus? && op.order == o then op.status == Cancelled else y.orders[o].status == Cancelled
  {
    if Moves(y, op) {
      var v, d, y' := MoveRule(y, cfg, op);
    }
  }

  lemma {:induction false} StatusAfter(y: System, cfg: Config, ops: seq<Op>, o: nat)
    requires Shaped(y) && o < |y.orders| && y.orders[o].status != Cancelled
    ensures Run(y, cfg, ops).orders[o].status == Cancelled <==> CancelledBy(ops, o)
  {
    if ops != [] {
      StatusAfter(y, cfg, ops[..|ops| - 1], o);
      StepStatus(Run(y, cfg, ops[..|ops| - 1]), cfg, ops[|ops| - 1], o);
    }
  }

  /** A transfer is made only for an order that the handler's own delivery, step j, read as not
      cancelled; and it is made on an order that is cancelled by now exactly when the last status
      update between that read and the transfer was the cancellation. */
  lemma TransferReadLive(y: System, cfg: Config, ops: seq<Op>, k: nat, o: nat) returns (j: nat)
    requires Fresh(y) && o < |y.orders| && k < |ops| && Pays(Run(y, cfg, ops[..k]), ops[k], o)
    ensures j < k && ops[j] == OpDeliver(ops[k].h) && StartedAt(y, cfg, ops[..k], ops[k].h, j)
    ensures Run(y, cfg, ops[..j]).orders[o].status != Cancelled
    ensures Run(y, cfg, ops[..k]).orders[o].status == Cancelled <==> CancelledBy(ops[j..k], o)
  {
    var before := ops[..k];
    RunKeepsReadLive(y, cfg, before);
    j := Started(y, cfg, before, ops[k].h);
    assert before[..j] == ops[..j] && before[j..] == ops[j..k];
    RunSplit(y, cfg, before, j);
    StatusAfter(Run(y, cfg, ops[..j]), cfg, ops[j..k], o);
  }

  ghost predicate ReadCancelled(y: System, cfg: Config, ops: seq<Op>, o: nat)
    requires Shaped(y) && o < |y.orders|
  {
    forall j: nat | j < |ops| && ops[j].OpDeliver? :: Run(y, cfg, ops[..j]).orders[o].status == Cancelled
  }

  lemma NeverPays(y: System, cfg: Config, ops: seq<Op>, k: nat, o: nat)
    requires Fresh(y) && o < |y.orders| && ReadCancelled(y, cfg, ops, o) && k < |ops|
    ensures !Pays(Run(y, cfg, ops[..k]), ops[k], o)
  {
    if Pays(Run(y, cfg, ops[..k]), ops[k], o) {
      var j := TransferReadLive(y, cfg, ops, k, o);
    }
  }

  /** An order that is cancelled whenever a delivery reads it is never paid out. */
  lemma NoTransferIfReadCancelled(y: System, cfg: Config, ops: seq<Op>, o: nat)
    requires Fresh(y) && o < |y.orders| && ReadCancelled(y, cfg, ops, o)
    ensures Transfers(Run(y, cfg, ops).log, o) == 0
  {
    NothingPaid(y, cfg, ops, |ops|, o);
    assert ops[..|ops|] == ops;
  }

  lemma {:induction false} NothingPaid(y: System, cfg: Config, ops: seq<Op>, n: nat, o: nat)
    requires Fresh(y) && o < |y.orders| && ReadCancelled(y, cfg, ops, o) && n <= |ops|
    ensures Transfers(Run(y, cfg, ops[..n]).log, o) == 0
  {
    if n > 0 {
      NothingPaid(y, cfg, ops, n - 1, o);
      NeverPays(y, cfg, ops, n - 1, o);
      StepTransfers(y, cfg, ops, n - 1, o);
    }
  }

  // ----- Where the code does less than its comments say -----

  const ONE_ORDER := System([Row(Pending, false, None, false)], [Some(PayoutPending)], map[], 0, [], [])

  lemma StepDeliver(y: System, cfg: Config, h: nat)
    requires Shaped(y) && y.orders != [] && h !in y.handlers
    ensures Step(y, cfg, OpDeliver(h)) == y.(handlers := y.handlers[h := Handler(y.orders, 0, AtOrder, [])])
  {
  }

  /** A handler about to mark its order paid goes on, whatever the row's status is by now. */
  lemma StepPaid(y: System, cfg: Config, h: nat, v: Handler)
    requires Shaped(y) && h in y.handlers && y.handlers[h] == v && v.pc == AtOrder && v.snapshot[v.at].status != Cancelled
    ensures var z := Step(y, cfg, OpAct(h, true));
            && z.handlers == y.handlers[h := v.(pc := AtPayout)] && z.payouts == y.payouts && z.log == y.log
            && z.orders[v.at].status == (if y.orders[v.at].status == Pending then Paid else y.orders[v.at].status)
  {
  }

  lemma StepPayout(y: System, cfg: Config, h: nat, v: Handler)
    requires Shaped(y) && h in y.handlers && y.handlers[h] == v && v.pc == AtPayout && y.payouts[v.at] == Some(PayoutPending)
    ensures Step(y, cfg, OpAct(h, true)) == y.(handlers := y.handlers[h := v.(pc := AtTransfer)])
  {
    var d := DecisionOf(y, cfg, h, true);
    assert d == Only(GoTo(AtTransfer));
    assert y.log + [] == y.log && y.claims + [] == y.claims;
  }

  lemma StepTransfer(y: System, cfg: Config, h: nat, v: Handler)
    requires Shaped(y) && h in y.handlers && y.handlers[h] == v && v.pc == AtTransfer
    ensures var z := Step(y, cfg, OpAct(h, true));
            && z.handlers == y.handlers[h := v.(pc := AtComplete)] && z.payouts == y.payouts && z.orders == y.orders
            && z.log == y.log + [Transferred(v.at)]
  {
  }

  predicate Cooperative(ops: seq<Op>) {
    forall op | op in ops :: op.OpDeliver? || (op.OpAct? && op.ok)
  }

  /** Two deliveries of one payment stand at the same point of the same order. */
  predicate SideBySide(y: System, pc: Pc) {
    var v := Handler(ONE_ORDER.orders, 0, pc, []);
    |y.orders| == 1 && y.payouts == [Some(PayoutPending)] && y.handlers == map[0 := v, 1 := v] && y.log == []
  }

  lemma TwoDeliveries(cfg: Config) returns (ops: seq<Op>, y: System)
    ensures Cooperative(ops) && y == Run(ONE_ORDER, cfg, ops) && SideBySide(y, AtOrder)
  {
    StepDeliver(ONE_ORDER, cfg, 0);
    ops, y := RunOne(ONE_ORDER, cfg, [], ONE_ORDER, OpDeliver(0));
    StepDeliver(y, cfg, 1);
    ops, y := RunOne(ONE_ORDER, cfg, ops, y, OpDeliver(1));
  }

  lemma BothMarkPaid(cfg: Config, ops: seq<Op>, y: System) returns (ops': seq<Op>, y': System)
    requires Cooperative(ops) && y == Run(ONE_ORDER, cfg, ops) && SideBySide(y, AtOrder)
    ensures Cooperative(ops') && y' == Run(ONE_ORDER, cfg, ops') && SideBySide(y', AtPayout)
  {
    var v := Handler(ONE_ORDER.orders, 0, AtOrder, []);
    StepPaid(y, cfg, 0, v);
    ops', y' := RunOne(ONE_ORDER, cfg, ops, y, OpAct(0, true));
    StepPaid(y', cfg, 1, v);
    ops', y' := RunOne(ONE_ORDER, cfg, ops', y', OpAct(1, true));
  }

  lemma BothReadPending(cfg: Config, ops: seq<Op>, y: System) returns (ops': seq<Op>, y': System)
    requires Cooperative(ops) && y == Run(ONE_ORDER, cfg, ops) && SideBySide(y, AtPayout)
    ensures Cooperative(ops') && y' == Run(ONE_ORDER, cfg, ops') && SideBySide(y', AtTransfer)
  {
    var v := Handler(ONE_ORDER.orders, 0, AtPayout, []);
    StepPayout(y, cfg, 0, v);
    ops', y' := RunOne(ONE_ORDER, cfg, ops, y, OpAct(0, true));
    StepPayout(y', cfg, 1, v);
    ops', y' := RunOne(ONE_ORDER, cfg, ops', y', OpAct(1, true));
  }

  lemma BothTransfer(cfg: Config, ops: seq<Op>, y: System) returns (ops': seq<Op>, y': System)
    requires Cooperative(ops) && y == Run(ONE_ORDER, cfg, ops) && SideBySide(y, AtTransfer)
    ensures Cooperative(ops') && y' == Run(ONE_ORDER, cfg, ops') && y'.log == [Transferred(0), Transferred(0)]
  {
    var v := Handler(ONE_ORDER.orders, 0, AtTransfer, []);
    StepTransfer(y, cfg, 0, v);
    ops', y' := RunOne(ONE_ORDER, cfg, ops, y, OpAct(0, true));
    StepTransfer(y', cfg, 1, v);
    ops', y' := RunOne(ONE_ORDER, cfg, ops', y', OpAct(1, true));
  }

  /** Two overlapping deliveries of one payment both read the payout as pending, and the seller is
      paid twice though no call fails. */
  lemma OverlapPaysTwice(cfg: Config) returns (ops: seq<Op>)
    ensures Fresh(ONE_ORDER) && Cooperative(ops) && Transfers(Run(ONE_ORDER, cfg, ops).log, 0) == 2
  {
    var y;
    ops, y := TwoDeliveries(cfg);
    ops, y := BothMarkPaid(cfg, ops, y);
    ops, y := BothReadPending(cfg, ops, y);
    ops, y := BothTransfer(cfg, ops, y);
    TransfersOfTwo(y.log);
  }

  lemma TransfersOfTwo(log: seq<Event>)
    requires log == [Transferred(0), Transferred(0)]
    ensures Transfers(log, 0) == 2
  {
    var none: seq<Event>, one := [], [Transferred(0)];
    CountAppend(none, Transferred(0), Transferred(0));
    CountAppend(one, Transferred(0), Transferred(0));
    CountAppend(none, Transferred(0), TransferUnanswered(0));
    CountAppend(one, Transferred(0), TransferUnanswered(0));
    assert none + [Transferred(0)] == one && one + [Transferred(0)] == log;
  }

  /** A completion write that fails is enough, with nothing overlapping and no crash: the next
      delivery finds the payout still pending and pays again. */
  lemma LostWritePaysTwice(cfg: Config) returns (ops: seq<Op>)
    ensures Fresh(ONE_ORDER) && Calm(cfg, ops)
    ensures Transfers(Run(ONE_ORDER, cfg, ops).log, 0) == 2
  {
    var y;
    ops, y := PaidAndLost(cfg);
    ops, y := StartDelivery(cfg, ops, y, 1);
    ops, y := PayOut(cfg, ops, y, 1);
    TransfersOfTwo(y.log);
  }

  lemma PaidAndLost(cfg: Config) returns (ops: seq<Op>, y: System)
    ensures Calm(cfg, ops) && y == Run(ONE_ORDER, cfg, ops) && Idle(y, 1, y.log) && y.log == [Transferred(0)]
  {
    ops, y := StartDelivery(cfg, [], ONE_ORDER, 0);
    ops, y := PayOut(cfg, ops, y, 0);
    ops, y := LoseWrite(cfg, ops, y, 0);
  }

  /** Deliveries of the one order that do not overlap, and no crash. */
  ghost predicate Calm(cfg: Config, ops: seq<Op>) {
    AllSequential(ONE_ORDER, cfg, ops) && forall op | op in ops :: !op.OpCrash?
  }

  lemma CalmOne(cfg: Config, ops: seq<Op>, y: System, op: Op) returns (ops': seq<Op>, y': System)
    requires Calm(cfg, ops) && y == Run(ONE_ORDER, cfg, ops) && Sequential(y, op) && !op.OpCrash?
    ensures ops' == ops + [op] && y' == Run(ONE_ORDER, cfg, ops') && y' == Step(y, cfg, op) && Calm(cfg, ops')
  {
    ops', y' := RunOne(ONE_ORDER, cfg, ops, y, op);
    forall k: nat | k < |ops'|
      ensures Sequential(Run(ONE_ORDER, cfg, ops'[..k]), ops'[k])
    {
      assert ops'[..k] == if k < |ops| then ops[..k] else ops;
    }
  }

  lemma StepLoses(y: System, cfg: Config, h: nat, v: Handler)
    requires Shaped(y) && h in y.handlers && y.handlers[h] == v && v.pc == AtComplete
    ensures Step(y, cfg, OpAct(h, false)) == y.(handlers := y.handlers[h := v.(pc := Done(false))])
  {
    assert DecisionOf(y, cfg, h, false) == FAIL;
    assert y.log + [] == y.log && y.claims + [] == y.claims;
  }

  /** The one order is live with a pending payout, and no delivery runs; the next one is h. */
  ghost predicate Idle(y: System, h: nat, log: seq<Event>) {
    && |y.orders| == 1 && y.orders[0].status != Cancelled && y.payouts == [Some(PayoutPending)] && y.log == log
    && forall g | g in y.handlers :: g < h && !Busy(y, g)
  }

  /** The same with delivery h at `pc`. */
  ghost predicate Running(y: System, h: nat, pc: Pc, log: seq<Event>) {
    && |y.orders| == 1 && y.orders[0].status != Cancelled && y.payouts == [Some(PayoutPending)] && y.log == log
    && h in y.handlers && y.handlers[h].pc == pc && y.handlers[h].at == 0
    && |y.handlers[h].snapshot| == 1 && y.handlers[h].snapshot[0].status != Cancelled
    && forall g | g in y.handlers && g != h :: g < h && !Busy(y, g)
  }

  lemma StartDelivery(cfg: Config, ops: seq<Op>, y: System, h: nat) returns (ops': seq<Op>, y': System)
    requires Calm(cfg, ops) && y == Run(ONE_ORDER, cfg, ops) && Idle(y, h, y.log)
    ensures Calm(cfg, ops') && y' == Run(ONE_ORDER, cfg, ops') && Running(y', h, AtPayout, y.log)
  {
    StepDeliver(y, cfg, h);
    ops', y' := CalmOne(cfg, ops, y, OpDeliver(h));
    StepPaid(y', cfg, h, Handler(y.orders, 0, AtOrder, []));
    ops', y' := CalmOne(cfg, ops', y', OpAct(h, true));
  }

  lemma PayOut(cfg: Config, ops: seq<Op>, y: System, h: nat) returns (ops': seq<Op>, y': System)
    requires Calm(cfg, ops) && y == Run(ONE_ORDER, cfg, ops) && Running(y, h, AtPayout, y.log)
    ensures Calm(cfg, ops') && y' == Run(ONE_ORDER, cfg, ops') && Running(y', h, AtComplete, y.log + [Transferred(0)])
  {
    var v := y.handlers[h];
    StepPayout(y, cfg, h, v);
    ops', y' := CalmOne(cfg, ops, y, OpAct(h, true));
    StepTransfer(y', cfg, h, v.(pc := AtTransfer));
    ops', y' := CalmOne(cfg, ops', y', OpAct(h, true));
  }

  lemma LoseWrite(cfg: Config, ops: seq<Op>, y: System, h: nat) returns (ops': seq<Op>, y': System)
    requires Calm(cfg, ops) && y == Run(ONE_ORDER, cfg, ops) && Running(y, h, AtComplete, y.log)
    ensures Calm(cfg, ops') && y' == Run(ONE_ORDER, cfg, ops') && Idle(y', h + 1, y.log)
  {
    StepLoses(y, cfg, h, y.handlers[h]);
    ops', y' := CalmOne(cfg, ops, y, OpAct(h, false));
  }

  /** The status guard does not cover the gap between reading the order and marking it paid: a
      cancellation in between is overlooked and the transfer is made all the same. */
  lemma TransferAfterCancellation(cfg: Config) returns (ops: seq<Op>)
    ensures var y := Run(ONE_ORDER, cfg, ops); y.orders[0].status == Cancelled && y.log == [Transferred(0)]
  {
    var y := ONE_ORDER;
    var v := Handler(ONE_ORDER.orders, 0, AtOrder, []);
    ops, y := RunOne(ONE_ORDER, cfg, [], y, OpDeliver(0));
    ops, y := RunOne(ONE_ORDER, cfg, ops, y, OpStatus(0, Cancelled));
    StepPaid(y, cfg, 0, v);
    ops, y := RunOne(ONE_ORDER, cfg, ops, y, OpAct(0, true));
    StepPayout(y, cfg, 0, v.(pc := AtPayout));
    ops, y := RunOne(ONE_ORDER, cfg, ops, y, OpAct(0, true));
    StepTransfer(y, cfg, 0, v.(pc := AtTransfer));
    ops, y := RunOne(ONE_ORDER, cfg, ops, y, OpAct(0, true));
  }
}
