/** What each operation of the coupon service does to its four tables, on values. Codes stand for
    trimmed, case-folded code strings; row ids are table positions. Infrastructure failures roll
    the transaction back and so are steps that change nothing. */
module CouponSpec {
  import opened Common
  import Discount

  type Seller = nat
  type Buyer = nat

  datatype Deal =
    | Fixed(amount: Option<int>)
    | Percent(bps: Option<int>)
    | Unknown

  datatype Coupon = Coupon(code: nat, issuer: Option<Seller>, deal: Deal, currency: nat, minOrder: int,
                           maxDiscount: Option<int>, validFrom: Option<Time>, expiresAt: Option<Time>,
                           limit: Option<int>, perUser: Option<int>, usage: int, revoked: bool) {
    /** The concrete discount on a subtotal. */
    function ComputeDiscount(subtotal: int): (d: int)
      ensures 0 <= d
      ensures subtotal <= 0 ==> d == 0
      ensures subtotal > 0 ==> d <= subtotal
    {
      if subtotal <= 0 then 0
      else
        match deal
        case Fixed(None) => 0
        case Fixed(Some(amount)) => Pos(Min(amount, subtotal))
        case Percent(None) => 0
        case Percent(Some(bps)) =>
          var raw := Discount.Trunc(subtotal * bps, 10000);
          var capped := if maxDiscount.Some? && raw > maxDiscount.value then maxDiscount.value else raw;
          Pos(Min(capped, subtotal))
        case Unknown => 0
    }

    predicate IsWithinValidity(now: Time) {
      !(validFrom.Some? && now < validFrom.value) && !(expiresAt.Some? && now > expiresAt.value)
    }
  }

  datatype Status = Pending | Committed | Released | Expired

  datatype Reservation = Reservation(id: nat, coupon: nat, buyer: Buyer, amount: int, seller: Option<Seller>,
                                     status: Status, expiresAt: Time)

  /** `full` is the refunded_at stamp. */
  datatype Redemption = Redemption(id: nat, coupon: nat, buyer: Buyer, order: nat, applied: int, refunded: int,
                                   reservation: nat, full: bool)

  datatype RefundEvent = RefundEvent(redemption: nat, order: nat, share: int)

  datatype Store = Store(coupons: seq<Coupon>, reservations: seq<Reservation>, redemptions: seq<Redemption>,
                         events: seq<RefundEvent>)

  const EMPTY := Store([], [], [], [])

  datatype Error =
    | CouponNotFound | CouponRevoked | CouponExpired | CouponNotStarted | CurrencyMismatch | MinOrderNotMet
    | PerUserLimit | UsageLimitHit | InvalidCouponInput | ReservationNotFound | AlreadyTerminal | BadRequest | Internal

  datatype Result<+T> = Ok(value: T) | Err(error: Error)

  datatype SellerSubtotal = SellerSubtotal(seller: Seller, subtotal: int)

  datatype Request = Request(code: nat, buyer: Buyer, subtotals: seq<SellerSubtotal>, currency: nat)

  datatype Resolved = Resolved(coupon: nat, seller: Option<Seller>, subtotal: int)

  datatype CommitReply = CommitReply(redemption: nat, alreadyCommitted: bool)

  datatype RefundReply = RefundReply(redemption: Option<nat>, skipped: bool, alreadyRefunded: bool, applied: int, fully: bool)

  // ----- Lookups -----

  function FindCode(coupons: seq<Coupon>, issuer: Option<Seller>, code: nat): (r: Option<nat>)
    ensures r.Some? ==> r.value < |coupons| && coupons[r.value].issuer == issuer && coupons[r.value].code == code
    ensures r == None ==> forall i | 0 <= i < |coupons| :: !(coupons[i].issuer == issuer && coupons[i].code == code)
  {
    if coupons == [] then None
    else
      var n := |coupons| - 1;
      if coupons[n].issuer == issuer && coupons[n].code == code then Some(n) else FindCode(coupons[..n], issuer, code)
  }

  /** The first seller of the cart that issued this code. */
  function FindSellerCode(coupons: seq<Coupon>, subtotals: seq<SellerSubtotal>, code: nat): (r: Option<(nat, Seller)>)
    ensures r.Some? ==> r.value.0 < |coupons| && coupons[r.value.0].issuer == Some(r.value.1)
  {
    if subtotals == [] then None
    else
      var c := FindCode(coupons, Some(subtotals[0].seller), code);
      if c.Some? then Some((c.value, subtotals[0].seller)) else FindSellerCode(coupons, subtotals[1..], code)
  }

  function SubtotalOf(subtotals: seq<SellerSubtotal>, seller: Seller): int {
    if subtotals == [] then 0
    else if subtotals[0].seller == seller then subtotals[0].subtotal
    else SubtotalOf(subtotals[1..], seller)
  }

  function CartTotal(subtotals: seq<SellerSubtotal>): int {
    if subtotals == [] then 0 else CartTotal(subtotals[..|subtotals| - 1]) + subtotals[|subtotals| - 1].subtotal
  }

  /** Redemptions of this coupon by this buyer, whatever was refunded. */
  function UsesBy(rs: seq<Redemption>, buyer: Buyer, coupon: nat): nat {
    if rs == [] then 0
    else
      var r := rs[|rs| - 1];
      UsesBy(rs[..|rs| - 1], buyer, coupon) + if r.buyer == buyer && r.coupon == coupon then 1 else 0
  }

  function RedemptionFor(rs: seq<Redemption>, coupon: nat, order: nat): (r: Option<nat>)
    ensures r.Some? ==> r.value < |rs| && rs[r.value].coupon == coupon && rs[r.value].order == order
    ensures r == None ==> forall i | 0 <= i < |rs| :: !(rs[i].coupon == coupon && rs[i].order == order)
  {
    if rs == [] then None
    else
      var n := |rs| - 1;
      if rs[n].coupon == coupon && rs[n].order == order then Some(n) else RedemptionFor(rs[..n], coupon, order)
  }

  function RedemptionOf(rs: seq<Redemption>, reservation: nat): (r: Option<nat>)
    ensures r.Some? ==> r.value < |rs| && rs[r.value].reservation == reservation
    ensures r == None ==> forall i | 0 <= i < |rs| :: rs[i].reservation != reservation
  {
    if rs == [] then None
    else
      var n := |rs| - 1;
      if rs[n].reservation == reservation then Some(n) else RedemptionOf(rs[..n], reservation)
  }

  predicate Recorded(events: seq<RefundEvent>, redemption: nat, order: nat) {
    exists i :: 0 <= i < |events| && events[i].redemption == redemption && events[i].order == order
  }

  // ----- Operations -----

  function Resolve(s: Store, q: Request, now: Time): (r: Result<Resolved>)
    ensures r.Ok? ==> r.value.coupon < |s.coupons|
  {
    var platform := FindCode(s.coupons, None, q.code);
    var own := FindSellerCode(s.coupons, q.subtotals, q.code);
    if platform == None && own == None then Err(CouponNotFound)
    else
      var id := if platform.Some? then platform.value else own.value.0;
      var seller := if platform.Some? then None else Some(own.value.1);
      var c := s.coupons[id];
      if c.revoked then Err(CouponRevoked)
      else if !c.IsWithinValidity(now) then
        Err(if c.expiresAt.Some? && now > c.expiresAt.value then CouponExpired else CouponNotStarted)
      else if c.currency != q.currency then Err(CurrencyMismatch)
      else
        var subtotal := if seller.Some? then SubtotalOf(q.subtotals, seller.value) else CartTotal(q.subtotals);
        if subtotal < c.minOrder then Err(MinOrderNotMet)
        else if c.perUser.Some? && UsesBy(s.redemptions, q.buyer, id) >= c.perUser.value then Err(PerUserLimit)
        else Ok(Resolved(id, seller, subtotal))
  }

  predicate HasSeat(c: Coupon) {
    c.limit == None || c.usage < c.limit.value
  }

  function AddUse(coupons: seq<Coupon>, id: nat): seq<Coupon>
    requires id < |coupons|
  {
    coupons[id := coupons[id].(usage := coupons[id].usage + 1)]
  }

  /** DecrementUsage: floored at zero. */
  function FreeSeat(coupons: seq<Coupon>, id: nat): seq<Coupon> {
    if id < |coupons| then coupons[id := coupons[id].(usage := Pos(coupons[id].usage - 1))] else coupons
  }

  function SetStatus(rs: seq<Reservation>, id: nat, status: Status): seq<Reservation>
    requires id < |rs|
  {
    rs[id := rs[id].(status := status)]
  }

  function Reserve(s: Store, q: Request, now: Time, ttl: int): (Store, Result<Reservation>) {
    match Resolve(s, q, now)
    case Err(e) => (s, Err(e))
    case Ok(r) =>
      var discount := s.coupons[r.coupon].ComputeDiscount(r.subtotal);
      if discount <= 0 then (s, Err(InvalidCouponInput))
      else if !HasSeat(s.coupons[r.coupon]) then (s, Err(UsageLimitHit))
      else
        var v := Reservation(|s.reservations|, r.coupon, q.buyer, discount, r.seller, Pending, now + ttl);
        (s.(coupons := AddUse(s.coupons, r.coupon), reservations := s.reservations + [v]), Ok(v))
  }

  /** A commit by a handler that read `seen` earlier. `early` says that its check for an existing
      redemption ran before a concurrent commit for the same order became visible: its insert then
      violates the unique key, which aborts the transaction. */
  function Commit(s: Store, seen: Reservation, order: nat, early: bool): (Store, Result<CommitReply>)
    requires seen.id < |s.reservations|
  {
    var existing := RedemptionFor(s.redemptions, seen.coupon, order);
    if existing.Some? && !early then (s, Ok(CommitReply(existing.value, true)))
    else if seen.status != Pending || s.reservations[seen.id].status != Pending then (s, Err(AlreadyTerminal))
    else if existing.Some? then (s, Err(Internal))
    else
      var row := Redemption(|s.redemptions|, seen.coupon, seen.buyer, order, seen.amount, 0, seen.id, false);
      (s.(reservations := SetStatus(s.reservations, seen.id, Committed), redemptions := s.redemptions + [row]),
       Ok(CommitReply(row.id, false)))
  }

  function Release(s: Store, seen: Reservation): (Store, Result<bool>)
    requires seen.id < |s.reservations|
  {
    if seen.status != Pending || s.reservations[seen.id].status != Pending then (s, Ok(false))
    else
      (s.(reservations := SetStatus(s.reservations, seen.id, Released), coupons := FreeSeat(s.coupons, seen.coupon)), Ok(true))
  }

  /** refunded_amount moves by `share`, capped at the discount, unless it is stamped full. */
  function Credit(r: Redemption, share: int): Redemption {
    if r.full then r
    else r.(refunded := Min(r.refunded + share, r.applied), full := r.refunded + share >= r.applied)
  }

  /** One order's share of a cancelled cart. A repeated delivery violates the unique key of the
      refund events, which aborts the transaction. */
  function Refund(s: Store, reservation: nat, order: nat, share: int): (Store, Result<RefundReply>) {
    if share < 0 then (s, Err(BadRequest))
    else
      match RedemptionOf(s.redemptions, reservation)
      case None => (s, Ok(RefundReply(None, true, false, 0, false)))
      case Some(k) =>
        var r := s.redemptions[k];
        if share == 0 then (s, Ok(RefundReply(Some(k), false, false, 0, false)))
        else if Recorded(s.events, k, order) then (s, Err(Internal))
        else
          var r' := Credit(r, share);
          (s.(events := s.events + [RefundEvent(k, order, share)],
              redemptions := s.redemptions[k := r'],
              coupons := if r'.full && !r.full then FreeSeat(s.coupons, r.coupon) else s.coupons),
           Ok(RefundReply(Some(k), false, r.full, r'.refunded - r.refunded, r'.full && !r.full)))
  }

  const BATCH_SIZE := 200

  predicate Claimable(rs: seq<Reservation>, ids: seq<nat>, now: Time, limit: nat) {
    && |ids| <= limit
    && (forall k | 0 <= k < |ids| :: ids[k] < |rs| && rs[ids[k]].status == Pending && rs[ids[k]].expiresAt < now)
    && (forall j, k | 0 <= j < k < |ids| :: ids[j] != ids[k])
  }

  /** The reaper's batch, one reservation after the other. */
  function ExpireAll(s: Store, ids: seq<nat>): (s': Store)
    requires forall k | 0 <= k < |ids| :: ids[k] < |s.reservations|
    ensures |s'.reservations| == |s.reservations|
  {
    if ids == [] then s
    else
      var t, id := ExpireAll(s, ids[..|ids| - 1]), ids[|ids| - 1];
      t.(reservations := SetStatus(t.reservations, id, Expired), coupons := FreeSeat(t.coupons, t.reservations[id].coupon))
  }

  predicate PositiveWhenSet(x: Option<int>) {
    x.Some? ==> x.value > 0
  }

  /** A coupon an administrator or seller may create; its usage starts at zero. */
  predicate Creatable(coupons: seq<Coupon>, c: Coupon) {
    && (match c.deal
        case Fixed(amount) => amount.Some? && amount.value > 0
        case Percent(bps) => bps.Some? && 0 < bps.value <= 10000
        case Unknown => false)
    && c.minOrder >= 0 && PositiveWhenSet(c.limit) && PositiveWhenSet(c.perUser) && c.usage == 0
    && FindCode(coupons, c.issuer, c.code) == None
  }

  datatype Patch = Patch(minOrder: int, maxDiscount: Option<int>, expiresAt: Option<Time>, limit: Option<int>, perUser: Option<int>)

  predicate Acceptable(p: Patch) {
    p.minOrder >= 0 && (p.maxDiscount.Some? ==> p.maxDiscount.value >= 0) && PositiveWhenSet(p.limit) && PositiveWhenSet(p.perUser)
  }

  function Patched(c: Coupon, p: Patch): Coupon {
    c.(minOrder := p.minOrder, maxDiscount := if c.deal.Fixed? then None else p.maxDiscount,
       expiresAt := p.expiresAt, limit := p.limit, perUser := p.perUser)
  }

  // ----- Runs -----

  datatype System = System(store: Store, seen: map<nat, Reservation>)

  /** One transaction, or one unlocked read by handler `h`. */
  datatype Op =
    | OpCreate(coupon: Coupon)
    | OpUpdate(id: nat, patch: Patch)
    | OpRevoke(id: nat)
    | OpReserve(q: Request, now: Time, ttl: int)
    | OpRead(h: nat, id: nat)
    | OpCommit(h: nat, order: nat, early: bool)
    | OpRelease(h: nat)
    | OpRefund(reservation: nat, order: nat, share: int)
    | OpExpire(ids: seq<nat>, now: Time)

  function StepStore(s: Store, seen: map<nat, Reservation>, op: Op): Store {
    match op
    case OpCreate(c) => if Creatable(s.coupons, c) then s.(coupons := s.coupons + [c]) else s
    case OpUpdate(id, p) =>
      if id < |s.coupons| && Acceptable(p) then s.(coupons := s.coupons[id := Patched(s.coupons[id], p)]) else s
    case OpRevoke(id) => if id < |s.coupons| then s.(coupons := s.coupons[id := s.coupons[id].(revoked := true)]) else s
    case OpReserve(q, now, ttl) => Reserve(s, q, now, ttl).0
    case OpRead(_, _) => s
    case OpCommit(h, order, early) => if h in seen && seen[h].id < |s.reservations| then Commit(s, seen[h], order, early).0 else s
    case OpRelease(h) => if h in seen && seen[h].id < |s.reservations| then Release(s, seen[h]).0 else s
    case OpRefund(reservation, order, share) => Refund(s, reservation, order, share).0
    case OpExpire(ids, now) => if Claimable(s.reservations, ids, now, BATCH_SIZE) then ExpireAll(s, ids) else s
  }

  function Step(y: System, op: Op): System {
    System(StepStore(y.store, y.seen, op),
           if op.OpRead? && op.id < |y.store.reservations| then y.seen[op.h := y.store.reservations[op.id]] else y.seen)
  }

  function Run(y: System, ops: seq<Op>): System {
    if ops == [] then y else Step(Run(y, ops[..|ops| - 1]), ops[|ops| - 1])
  }
}
