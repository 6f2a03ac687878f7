/** What each operation of the loyalty service does to its three tables, on values.
    Infrastructure failures roll the transaction back and so are steps that change nothing. */
module LoyaltySpec {
  import opened Common
  import opened LoyaltyDomain
  import opened EarnBuckets
  import opened BucketGate
  import opened ExpiryPass

  datatype Store = Store(accounts: map<Buyer, Account>, ledger: seq<Row>, reservations: seq<Reservation>)

  /** earnExpiration <= 0 turns expiry stamps off. */
  datatype Config = Config(earnRateBps: int, earnExpiration: int, reservationTTL: int)

  datatype Error = BadRequest | InvalidAmount | InsufficientPoints | ReservationNotFound | AlreadyTerminal | Internal

  datatype Result<+T> = Ok(value: T) | Err(error: Error)

  datatype CommitReply = CommitReply(redeemed: int, earned: int, newBalance: int, alreadyCommitted: bool)

  datatype CancelReply = CancelReply(refunded: int, reversed: int, newBalance: int)

  const EMPTY := Store(map[], [], [])

  /** The account as LockForUpdate returns it: zero on first use. */
  function Acct(s: Store, b: Buyer): Account {
    if b in s.accounts then s.accounts[b] else ZERO_ACCOUNT
  }

  /** LockForUpdate inserts a missing account row. */
  function Ensure(s: Store, b: Buyer): Store {
    s.(accounts := s.accounts[b := Acct(s, b)])
  }

  /** The rows of one buyer, oldest first. */
  function Of(ledger: seq<Row>, b: Buyer): seq<Row> {
    if ledger == [] then []
    else
      var last := ledger[|ledger| - 1];
      Of(ledger[..|ledger| - 1], b) + if last.buyer == b then [last] else []
  }

  /** The row with this idempotency key. */
  function Find(ledger: seq<Row>, source: Source, kind: Kind): (r: Option<Row>)
    ensures r == None ==> forall x | x in ledger :: !(x.source == source && x.kind == kind)
    ensures r.Some? ==> r.value in ledger && r.value.source == source && r.value.kind == kind
  {
    if ledger == [] then None
    else
      var last := ledger[|ledger| - 1];
      if last.source == source && last.kind == kind then Some(last)
      else Find(ledger[..|ledger| - 1], source, kind)
  }

  function Hold(r: Reservation, b: Buyer): int {
    if r.buyer == b && r.status == Pending then r.amount else 0
  }

  /** Sum of the buyer's pending reservations. */
  function Held(rs: seq<Reservation>, b: Buyer): int {
    if rs == [] then 0 else Held(rs[..|rs| - 1], b) + Hold(rs[|rs| - 1], b)
  }

  /** The account after one ledger row: every counter moves with the row's kind. */
  function Bump(a: Account, kind: Kind, amount: int): Account {
    Account(a.balance + amount,
            a.pending + (if kind == Redeem then amount else 0),
            a.earned + (if kind == Earn || kind == ReverseEarn then amount else 0),
            a.redeemed - (if kind == Redeem then amount else 0),
            a.version + 1)
  }

  function NextRow(s: Store, b: Buyer, kind: Kind, amount: int, source: Source, expiresAt: Option<Time>): Row {
    Row(|s.ledger|, b, kind, amount, Acct(s, b).balance + amount, source, expiresAt)
  }

  /** One ledger row together with its account delta. */
  function Post(s: Store, b: Buyer, kind: Kind, amount: int, source: Source, expiresAt: Option<Time>): Store {
    s.(accounts := s.accounts[b := Bump(Acct(s, b), kind, amount)],
       ledger := s.ledger + [NextRow(s, b, kind, amount, source, expiresAt)])
  }

  /** A change of pending_redemption alone. */
  function Shift(s: Store, b: Buyer, delta: int): Store {
    var a := Acct(s, b);
    s.(accounts := s.accounts[b := a.(pending := a.pending + delta, version := a.version + 1)])
  }

  function SetStatus(rs: seq<Reservation>, id: nat, status: Status): seq<Reservation>
    requires id < |rs|
  {
    rs[id := rs[id].(status := status)]
  }

  function ExpirationFor(cfg: Config, now: Time): Option<Time> {
    if cfg.earnExpiration <= 0 then None else Some(now + cfg.earnExpiration)
  }

  // ----- Operations -----

  function AwardEarn(s: Store, cfg: Config, b: Buyer, order: nat, paidSubtotal: int, now: Time): (Store, Result<Option<Row>>) {
    var amount := ComputeEarnAmount(paidSubtotal, cfg.earnRateBps);
    if amount <= 0 then (s, Ok(None))
    else
      match Find(s.ledger, OrderPaid(order), Earn)
      case Some(row) => (Ensure(s, b), Ok(Some(row)))
      case None =>
        (Post(s, b, Earn, amount, OrderPaid(order), ExpirationFor(cfg, now)),
         Ok(Some(NextRow(s, b, Earn, amount, OrderPaid(order), ExpirationFor(cfg, now)))))
  }

  function Reserve(s: Store, cfg: Config, b: Buyer, amount: int, now: Time): (Store, Result<Reservation>) {
    if amount <= 0 then (s, Err(InvalidAmount))
    else if Acct(s, b).Spendable() < amount then (s, Err(InsufficientPoints))
    else
      var r := Reservation(|s.reservations|, b, amount, Pending, now + cfg.reservationTTL);
      (Shift(s, b, amount).(reservations := s.reservations + [r]), Ok(r))
  }

  /** The locked part of a commit. `seen` is the reservation as it was read before the lock. */
  function Commit(s: Store, cfg: Config, seen: Reservation, order: nat, paidSubtotal: int, now: Time): (Store, Result<CommitReply>)
    requires seen.id < |s.reservations|
  {
    var b := seen.buyer;
    var earned := Find(s.ledger, OrderPaid(order), Earn);
    match Find(s.ledger, ReservationCommit(seen.id), Redeem)
    case Some(row) =>
      // The reply repeats the ledger's signed amount.
      (Ensure(s, b), Ok(CommitReply(row.amount, if earned.Some? then earned.value.amount else 0, Acct(s, b).balance, true)))
    case None =>
      if seen.status != Pending || s.reservations[seen.id].status != Pending then (s, Err(AlreadyTerminal))
      else
        var s1 := Post(s.(reservations := SetStatus(s.reservations, seen.id, Committed)), b, Redeem,
                       -seen.amount, ReservationCommit(seen.id), None);
        var earn := ComputeEarnAmount(paidSubtotal, cfg.earnRateBps);
        if earn <= 0 then (s1, Ok(CommitReply(seen.amount, 0, Acct(s1, b).balance, false)))
        else if earned.Some? then (s1, Ok(CommitReply(seen.amount, earned.value.amount, Acct(s1, b).balance, false)))
        else
          var s2 := Post(s1, b, Earn, earn, OrderPaid(order), ExpirationFor(cfg, now));
          (s2, Ok(CommitReply(seen.amount, earn, Acct(s2, b).balance, false)))
  }

  /** A pending reservation leaves the pending state and its points return to the buyer. */
  function Free(s: Store, id: nat, status: Status): Store
    requires id < |s.reservations|
  {
    var r := s.reservations[id];
    Shift(s, r.buyer, -r.amount).(reservations := SetStatus(s.reservations, id, status))
  }

  /** The locked part of a release. */
  function Release(s: Store, seen: Reservation): (Store, Result<bool>)
    requires seen.id < |s.reservations|
  {
    if seen.status != Pending then (s, Ok(false))
    else if s.reservations[seen.id].status != Pending then (Ensure(s, seen.buyer), Ok(false))
    else (Free(s, seen.id, Released), Ok(true))
  }

  function Cancel(s: Store, b: Buyer, order: nat, pointDiscount: int, pointsEarned: int): (Store, Result<CancelReply>) {
    if pointDiscount < 0 || pointsEarned < 0 then (s, Err(BadRequest))
    else if pointDiscount == 0 && pointsEarned == 0 then (s, Ok(CancelReply(0, 0, 0)))
    else
      var source := OrderCancelled(order);
      var refund := if Find(s.ledger, source, Refund) == None then pointDiscount else 0;
      var s1 := if refund > 0 then Post(s, b, Refund, refund, source, None) else Ensure(s, b);
      var reversal := if Find(s.ledger, source, ReverseEarn) == None then Min(pointsEarned, Acct(s1, b).balance) else 0;
      var s2 := if reversal > 0 then Post(s1, b, ReverseEarn, -reversal, source, None) else s1;
      // The table's CHECK (pending_redemption <= balance) aborts the transaction.
      if Acct(s2, b).pending > Acct(s2, b).balance then (s, Err(Internal))
      else (s2, Ok(CancelReply(refund, Pos(reversal), Acct(s2, b).balance)))
  }

  function AdjustBy(s: Store, b: Buyer, amount: int): (Store, Result<Row>) {
    if amount == 0 then (s, Err(InvalidAmount))
    else if amount < 0 && Acct(s, b).Spendable() + amount < 0 then (s, Err(InsufficientPoints))
    else
      (Post(s, b, Adjust, amount, AdminAdjust(|s.ledger|), None),
       Ok(NextRow(s, b, Adjust, amount, AdminAdjust(|s.ledger|), None)))
  }

  /** What ClaimExpired may return: distinct pending rows past their TTL, at most `limit`. */
  predicate Claimable(rs: seq<Reservation>, ids: seq<nat>, now: Time, limit: nat) {
    && |ids| <= limit
    && (forall k | 0 <= k < |ids| :: ids[k] < |rs| && rs[ids[k]].status == Pending && rs[ids[k]].expiresAt < now)
    && (forall j, k | 0 <= j < k < |ids| :: ids[j] != ids[k])
  }

  const BATCH_SIZE := 200

  /** The reaper's batch, one reservation after the other. */
  function ExpireHolds(s: Store, ids: seq<nat>): (s': Store)
    requires forall k | 0 <= k < |ids| :: ids[k] < |s.reservations|
    ensures |s'.reservations| == |s.reservations|
  {
    if ids == [] then s else Free(ExpireHolds(s, ids[..|ids| - 1]), ids[|ids| - 1], Expired)
  }

  /** One buyer's expiration pass; the reply is the number of rows written. */
  function ExpirePoints(s: Store, b: Buyer, now: Time): (Store, Result<nat>) {
    var a, rows := Acct(s, b), Of(s.ledger, b);
    var bs := Rebuild(rows);
    var due, written := DueTotal(bs, now), ExpireRows(bs, now, b, |s.ledger|, a.balance);
    if !GateAccepts(bs, rows, a.balance) then (s, Err(Internal))
    else if due == 0 then (Ensure(s, b).(ledger := s.ledger + written), Ok(|written|))
    else if a.pending > a.balance - due then (s, Err(Internal))
    else
      (s.(accounts := s.accounts[b := a.(balance := a.balance - due, version := a.version + 1)],
          ledger := s.ledger + written),
       Ok(|written|))
  }

  /** The candidate query of the job: an earn row past its expiry with no expire row yet. */
  predicate Candidate(ledger: seq<Row>, b: Buyer, now: Time) {
    exists e :: e in ledger && e.buyer == b && e.kind == Earn && e.expiresAt.Some? && e.expiresAt.value < now
                && Find(ledger, ExpirationJob(e.id), Expire) == None
  }

  // ----- Runs -----

  /** The service: its tables and the reservations that handlers have read before locking. */
  datatype System = System(store: Store, seen: map<nat, Reservation>)

  /** One transaction, or one unlocked read by handler `h`. */
  datatype Op =
    | OpAward(b: Buyer, order: nat, paidSubtotal: int, now: Time)
    | OpReserve(b: Buyer, amount: int, now: Time)
    | OpRead(h: nat, id: nat)
    | OpCommit(h: nat, order: nat, paidSubtotal: int, now: Time)
    | OpRelease(h: nat)
    | OpCancel(b: Buyer, order: nat, pointDiscount: int, pointsEarned: int)
    | OpAdjust(b: Buyer, amount: int)
    | OpExpireHolds(ids: seq<nat>, now: Time)
    | OpExpirePoints(b: Buyer, now: Time)

  function StepStore(s: Store, cfg: Config, seen: map<nat, Reservation>, op: Op): Store
  {
    match op
    case OpAward(b, order, paidSubtotal, now) => AwardEarn(s, cfg, b, order, paidSubtotal, now).0
    case OpReserve(b, amount, now) => Reserve(s, cfg, b, amount, now).0
    case OpRead(_, _) => s
    case OpCommit(h, order, paidSubtotal, now) =>
      if h in seen && seen[h].id < |s.reservations| then Commit(s, cfg, seen[h], order, paidSubtotal, now).0 else s
    case OpRelease(h) => if h in seen && seen[h].id < |s.reservations| then Release(s, seen[h]).0 else s
    case OpCancel(b, order, pointDiscount, pointsEarned) => Cancel(s, b, order, pointDiscount, pointsEarned).0
    case OpAdjust(b, amount) => AdjustBy(s, b, amount).0
    case OpExpireHolds(ids, now) => if Claimable(s.reservations, ids, now, BATCH_SIZE) then ExpireHolds(s, ids) else s
    case OpExpirePoints(b, now) => ExpirePoints(s, b, now).0
  }

  function Step(y: System, cfg: Config, op: Op): System {
    System(StepStore(y.store, cfg, y.seen, op),
           if op.OpRead? && op.id < |y.store.reservations| then y.seen[op.h := y.store.reservations[op.id]] else y.seen)
  }

  function Run(y: System, cfg: Config, ops: seq<Op>): System {
    if ops == [] then y else Step(Run(y, cfg, ops[..|ops| - 1]), cfg, ops[|ops| - 1])
  }
}
