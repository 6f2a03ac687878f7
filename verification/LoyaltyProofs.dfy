/** Invariants of the loyalty service over every run of its operations. */
module LoyaltyProofs {
  import opened Common
  import opened LoyaltyDomain
  import opened EarnBuckets
  import opened BucketGate
  import opened ExpiryPass
  import opened LoyaltySpec

  // ----- The invariant -----

  function EarnedTotal(rows: seq<Row>): int {
    if rows == [] then 0
    else
      var r := rows[|rows| - 1];
      EarnedTotal(rows[..|rows| - 1]) + if r.kind == Earn || r.kind == ReverseEarn then r.amount else 0
  }

  function RedeemedTotal(rows: seq<Row>): int {
    if rows == [] then 0
    else
      var r := rows[|rows| - 1];
      RedeemedTotal(rows[..|rows| - 1]) - if r.kind == Redeem then r.amount else 0
  }

  /** Every row carries the sum of the ledger up to and including itself. */
  predicate Stamped(rows: seq<Row>) {
    rows == [] || (Stamped(rows[..|rows| - 1]) && rows[|rows| - 1].balanceAfter == Total(rows))
  }

  /** The account counters are what the buyer's ledger and pending reservations say. */
  predicate BuyerOk(a: Account, rows: seq<Row>, held: int) {
    && Replayable(rows)
    && Stamped(rows)
    && a.balance == Total(rows)
    && a.earned == EarnedTotal(rows)
    && a.redeemed == RedeemedTotal(rows)
    && a.pending == held
    && 0 <= a.pending <= a.balance
  }

  predicate SourceOk(rs: seq<Reservation>, r: Row) {
    match r.kind
    case Earn => r.source.OrderPaid?
    case Redeem =>
      && r.source.ReservationCommit? && r.source.reservation < |rs|
      && var v := rs[r.source.reservation]; v.status == Committed && v.buyer == r.buyer && v.amount == -r.amount
    case Refund => r.source.OrderCancelled?
    case ReverseEarn => r.source.OrderCancelled?
    case Adjust => r.source == AdminAdjust(r.id)
    case Expire => r.source.ExpirationJob?
  }

  predicate SameKey(r: Row, q: Row) {
    r.source == q.source && r.kind == q.kind
  }

  predicate UniqueKeys(ledger: seq<Row>) {
    forall i, j | 0 <= i < j < |ledger| :: !SameKey(ledger[i], ledger[j])
  }

  predicate Positioned(ledger: seq<Row>) {
    forall i | 0 <= i < |ledger| :: ledger[i].id == i
  }

  predicate LedgerOk(ledger: seq<Row>, rs: seq<Reservation>) {
    && Positioned(ledger)
    && UniqueKeys(ledger)
    && forall i | 0 <= i < |ledger| :: SourceOk(rs, ledger[i])
  }

  predicate ReservationOk(ledger: seq<Row>, rs: seq<Reservation>, i: nat)
    requires i < |rs|
  {
    && rs[i].id == i
    && rs[i].amount > 0
    && (rs[i].status == Committed ==> Find(ledger, ReservationCommit(i), Redeem).Some?)
  }

  predicate ReservationsOk(ledger: seq<Row>, rs: seq<Reservation>) {
    forall i | 0 <= i < |rs| :: ReservationOk(ledger, rs, i)
  }

  ghost predicate Refined(s: Store, b: Buyer) {
    BuyerOk(Acct(s, b), Of(s.ledger, b), Held(s.reservations, b))
  }

  ghost predicate Inv(s: Store) {
    && (forall b: Buyer :: Refined(s, b))
    && LedgerOk(s.ledger, s.reservations)
    && ReservationsOk(s.ledger, s.reservations)
  }

  /** Reservations only ever leave the pending state, and never change otherwise. */
  predicate Evolves(rs: seq<Reservation>, rs': seq<Reservation>) {
    && |rs| <= |rs'|
    && forall i | 0 <= i < |rs| ::
         && rs'[i] == rs[i].(status := rs'[i].status)
         && (rs[i].status != Pending ==> rs'[i].status == rs[i].status)
  }

  // ----- Filters and sums -----

  lemma OfAppend(ledger: seq<Row>, ledger': seq<Row>, r: Row, b: Buyer)
    requires ledger' == ledger + [r]
    ensures Of(ledger', b) == if r.buyer == b then Of(ledger, b) + [r] else Of(ledger, b)
  {
    assert (ledger + [r])[..|ledger|] == ledger;
  }

  lemma {:induction false} OfSplit(ledger: seq<Row>, rows: seq<Row>, b: Buyer)
    ensures (forall r | r in rows :: r.buyer == b) ==> Of(ledger + rows, b) == Of(ledger, b) + rows
    ensures (forall r | r in rows :: r.buyer != b) ==> Of(ledger + rows, b) == Of(ledger, b)
  {
    if rows == [] {
      assert ledger + rows == ledger;
    } else {
      var init, last := rows[..|rows| - 1], rows[|rows| - 1];
      OfSplit(ledger, init, b);
      assert ledger + rows == ledger + init + [last];
      assert rows == init + [last];
      OfAppend(ledger + init, ledger + rows, last, b);
      assert last in rows;
    }
  }

  lemma {:induction false} OfFacts(ledger: seq<Row>, b: Buyer)
    requires Positioned(ledger)
    ensures forall r :: r in Of(ledger, b) <==> r in ledger && r.buyer == b
    ensures IdsBelow(Of(ledger, b), |ledger|)
    ensures forall i, j | 0 <= i < j < |Of(ledger, b)| :: Of(ledger, b)[i].id < Of(ledger, b)[j].id
    ensures forall i | 0 <= i < |Of(ledger, b)| :: Of(ledger, b)[i].id < |ledger|
  {
    if ledger != [] {
      var init, last := ledger[..|ledger| - 1], ledger[|ledger| - 1];
      OfFacts(init, b);
      assert ledger == init + [last];
      assert forall r :: r in ledger <==> r in init || r == last;
    }
  }

  lemma {:induction false} HeldUpdate(rs: seq<Reservation>, id: nat, status: Status, b: Buyer)
    requires id < |rs|
    ensures Held(SetStatus(rs, id, status), b) == Held(rs, b) - Hold(rs[id], b) + Hold(rs[id].(status := status), b)
  {
    var init := rs[..|rs| - 1];
    if id < |init| {
      HeldUpdate(init, id, status, b);
      assert SetStatus(rs, id, status)[..|init|] == SetStatus(init, id, status);
    } else {
      assert SetStatus(rs, id, status)[..|init|] == init;
    }
  }

  lemma {:induction false} HeldCovers(rs: seq<Reservation>, id: nat, b: Buyer)
    requires id < |rs| && forall i | 0 <= i < |rs| :: rs[i].amount > 0
    ensures 0 <= Hold(rs[id], b) <= Held(rs, b)
  {
    var init := rs[..|rs| - 1];
    if id < |init| {
      HeldCovers(init, id, b);
    } else if init != [] {
      HeldCovers(init, 0, b);
    }
  }

  lemma {:induction false} FindFrame(ledger: seq<Row>, rows: seq<Row>, source: Source, kind: Kind)
    requires Find(ledger, source, kind).Some?
    ensures Find(ledger + rows, source, kind).Some?
  {
    var r := Find(ledger, source, kind).value;
    assert r in ledger + rows;
  }

  // ----- Steps keep the invariant -----

  /** A step that appends rows of one buyer and touches that buyer's account only. */
  lemma Frame(s: Store, s': Store, b: Buyer, rows: seq<Row>)
    requires Inv(s) && Refined(s', b)
    requires s'.ledger == s.ledger + rows && forall r | r in rows :: r.buyer == b
    requires forall c: Buyer | c != b :: Acct(s', c) == Acct(s, c) && Held(s'.reservations, c) == Held(s.reservations, c)
    requires LedgerOk(s'.ledger, s'.reservations) && ReservationsOk(s'.ledger, s'.reservations)
    ensures Inv(s')
  {
    forall c: Buyer
      ensures Refined(s', c)
    {
      if c != b {
        OfSplit(s.ledger, rows, c);
        assert Refined(s, c);
      }
    }
  }

  lemma AppendKeepsLedgerOk(ledger: seq<Row>, rs: seq<Reservation>, rs': seq<Reservation>, r: Row)
    requires LedgerOk(ledger, rs) && Evolves(rs, rs') && r.id == |ledger| && SourceOk(rs', r)
    requires forall q | q in ledger :: !SameKey(q, r)
    ensures LedgerOk(ledger + [r], rs')
  {
    forall i | 0 <= i < |ledger|
      ensures SourceOk(rs', ledger[i]) && !SameKey(ledger[i], r)
    {
      assert SourceOk(rs, ledger[i]);
      assert ledger[i] in ledger;
    }
  }

  /** A buyer's counters follow the ledger through one more row. */
  lemma AppendKeepsBuyerOk(a: Account, rows: seq<Row>, held: int, r: Row)
    requires BuyerOk(a, rows, held) && RowFits(rows, r) && r.kind != Expire
    requires IdsBelow(rows, r.id) && r.balanceAfter == a.balance + r.amount
    requires var a' := Bump(a, r.kind, r.amount); 0 <= a'.pending <= a'.balance
    ensures var a' := Bump(a, r.kind, r.amount); BuyerOk(a', rows + [r], a'.pending)
  {
    assert (rows + [r])[..|rows|] == rows;
  }

  /** Reservations stay well formed, and each newly committed one has its redeem row. */
  predicate CommitsCovered(rs: seq<Reservation>, rs': seq<Reservation>, source: Source, kind: Kind) {
    forall i | 0 <= i < |rs'| ::
      && rs'[i].id == i && rs'[i].amount > 0
      && (rs'[i].status == Committed ==>
            (i < |rs| && rs[i].status == Committed) || (source == ReservationCommit(i) && kind == Redeem))
  }

  lemma AppendKeepsReservationsOk(ledger: seq<Row>, rs: seq<Reservation>, rs': seq<Reservation>, r: Row)
    requires ReservationsOk(ledger, rs) && CommitsCovered(rs, rs', r.source, r.kind)
    ensures ReservationsOk(ledger + [r], rs')
  {
    forall i | 0 <= i < |rs'|
      ensures ReservationOk(ledger + [r], rs', i)
    {
      assert r in ledger + [r];
      if i < |rs| && rs[i].status == Committed {
        assert ReservationOk(ledger, rs, i);
        FindFrame(ledger, [r], ReservationCommit(i), Redeem);
      }
    }
  }

  lemma RefinedIntro(s: Store, b: Buyer, a: Account, rows: seq<Row>, held: int)
    requires a == Acct(s, b) && rows == Of(s.ledger, b) && held == Held(s.reservations, b)
    requires BuyerOk(a, rows, held)
    ensures Refined(s, b)
  {
  }

  lemma PostShape(s: Store, rs': seq<Reservation>, b: Buyer, kind: Kind, amount: int, source: Source, expiresAt: Option<Time>)
    ensures var s' := Post(s.(reservations := rs'), b, kind, amount, source, expiresAt);
            && s'.ledger == s.ledger + [NextRow(s, b, kind, amount, source, expiresAt)]
            && s'.reservations == rs'
            && Acct(s', b) == Bump(Acct(s, b), kind, amount)
            && (forall c: Buyer | c != b :: Acct(s', c) == Acct(s, c))
            && (forall c: Buyer :: Of(s'.ledger, c) ==
                  if c == b then Of(s.ledger, b) + [NextRow(s, b, kind, amount, source, expiresAt)] else Of(s.ledger, c))
  {
    var s' := Post(s.(reservations := rs'), b, kind, amount, source, expiresAt);
    forall c: Buyer
      ensures Of(s'.ledger, c) ==
                if c == b then Of(s.ledger, b) + [NextRow(s, b, kind, amount, source, expiresAt)] else Of(s.ledger, c)
    {
      OfAppend(s.ledger, s'.ledger, NextRow(s, b, kind, amount, source, expiresAt), c);
    }
  }

  lemma PostKeepsInv(s: Store, rs': seq<Reservation>, b: Buyer, kind: Kind, amount: int, source: Source, expiresAt: Option<Time>)
    requires Inv(s) && Evolves(s.reservations, rs') && CommitsCovered(s.reservations, rs', source, kind)
    requires kind != Expire && Find(s.ledger, source, kind) == None
    requires var r := NextRow(s, b, kind, amount, source, expiresAt); RowFits(Of(s.ledger, b), r) && SourceOk(rs', r)
    requires var a' := Bump(Acct(s, b), kind, amount); a'.pending == Held(rs', b) && 0 <= a'.pending <= a'.balance
    requires forall c: Buyer | c != b :: Held(rs', c) == Held(s.reservations, c)
    ensures Inv(Post(s.(reservations := rs'), b, kind, amount, source, expiresAt))
  {
    var r := NextRow(s, b, kind, amount, source, expiresAt);
    var s' := Post(s.(reservations := rs'), b, kind, amount, source, expiresAt);
    PostShape(s, rs', b, kind, amount, source, expiresAt);
    assert Refined(s, b);
    OfFacts(s.ledger, b);
    AppendKeepsBuyerOk(Acct(s, b), Of(s.ledger, b), Held(s.reservations, b), r);
    RefinedIntro(s', b, Bump(Acct(s, b), kind, amount), Of(s.ledger, b) + [r], Held(rs', b));
    AppendKeepsLedgerOk(s.ledger, s.reservations, rs', r);
    AppendKeepsReservationsOk(s.ledger, s.reservations, rs', r);
    Frame(s, s', b, [r]);
  }

  /** A step that leaves the ledger alone and moves one buyer's pending points. */
  lemma ShiftKeepsInv(s: Store, rs': seq<Reservation>, b: Buyer, delta: int)
    requires Inv(s) && Evolves(s.reservations, rs')
    requires forall i | 0 <= i < |rs'| ::
               && rs'[i].id == i && rs'[i].amount > 0
               && (rs'[i].status == Committed ==> i < |s.reservations| && s.reservations[i].status == Committed)
    requires Acct(s, b).pending + delta == Held(rs', b) && 0 <= Held(rs', b) <= Acct(s, b).balance
    requires forall c: Buyer | c != b :: Held(rs', c) == Held(s.reservations, c)
    ensures Inv(Shift(s, b, delta).(reservations := rs'))
  {
    var s' := Shift(s, b, delta).(reservations := rs');
    assert Refined(s, b);
    RefinedIntro(s', b, Acct(s', b), Of(s.ledger, b), Held(rs', b));
    EvolvesKeepsLedgerOk(s.ledger, s.reservations, rs');
    forall i | 0 <= i < |rs'|
      ensures ReservationOk(s.ledger, rs', i)
    {
      assert i < |s.reservations| ==> ReservationOk(s.ledger, s.reservations, i);
    }
    assert s.ledger + [] == s.ledger;
    Frame(s, s', b, []);
  }

  lemma EvolvesKeepsLedgerOk(ledger: seq<Row>, rs: seq<Reservation>, rs': seq<Reservation>)
    requires LedgerOk(ledger, rs) && Evolves(rs, rs')
    ensures LedgerOk(ledger, rs')
  {
    forall i | 0 <= i < |ledger|
      ensures SourceOk(rs', ledger[i])
    {
      assert SourceOk(rs, ledger[i]);
    }
  }

  lemma EnsureKeepsInv(s: Store, b: Buyer)
    requires Inv(s)
    ensures Inv(Ensure(s, b))
  {
    var s' := Ensure(s, b);
    forall c: Buyer
      ensures Refined(s', c)
    {
      assert Refined(s, c);
    }
  }

  lemma FindAppend(ledger: seq<Row>, r: Row, source: Source, kind: Kind)
    ensures Find(ledger + [r], source, kind) ==
              if r.source == source && r.kind == kind then Some(r) else Find(ledger, source, kind)
  {
    assert (ledger + [r])[..|ledger|] == ledger;
  }

  lemma AccountBounds(s: Store, b: Buyer)
    requires Inv(s)
    ensures 0 <= Acct(s, b).pending <= Acct(s, b).balance
  {
    assert Refined(s, b);
  }

  /** Posting a row that is not a redemption. */
  lemma CreditKeepsInv(s: Store, b: Buyer, kind: Kind, amount: int, source: Source, expiresAt: Option<Time>)
    requires Inv(s) && kind != Expire && kind != Redeem && Find(s.ledger, source, kind) == None
    requires var r := NextRow(s, b, kind, amount, source, expiresAt); RowFits([], r) && SourceOk(s.reservations, r)
    requires Acct(s, b).pending <= Acct(s, b).balance + amount
    ensures Inv(Post(s, b, kind, amount, source, expiresAt))
  {
    assert Refined(s, b);
    forall i | 0 <= i < |s.reservations|
      ensures s.reservations[i].id == i && s.reservations[i].amount > 0
    {
      assert ReservationOk(s.ledger, s.reservations, i);
    }
    PostKeepsInv(s, s.reservations, b, kind, amount, source, expiresAt);
  }

  lemma ReservationFacts(s: Store, id: nat, status: Status)
    requires Inv(s) && id < |s.reservations| && s.reservations[id].status == Pending && status != Pending
    ensures var r := s.reservations[id];
            var rs' := SetStatus(s.reservations, id, status);
            && r.id == id && 0 < r.amount <= Acct(s, r.buyer).pending <= Acct(s, r.buyer).balance
            && Held(rs', r.buyer) == Acct(s, r.buyer).pending - r.amount
            && (forall c: Buyer | c != r.buyer :: Held(rs', c) == Held(s.reservations, c))
            && Evolves(s.reservations, rs')
            && (forall i | 0 <= i < |rs'| :: rs'[i].id == i && rs'[i].amount > 0)
  {
    var r := s.reservations[id];
    assert Refined(s, r.buyer);
    forall i | 0 <= i < |s.reservations|
      ensures s.reservations[i].id == i && s.reservations[i].amount > 0
    {
      assert ReservationOk(s.ledger, s.reservations, i);
    }
    HeldCovers(s.reservations, id, r.buyer);
    forall c: Buyer
      ensures Held(SetStatus(s.reservations, id, status), c) ==
                Held(s.reservations, c) - if c == r.buyer then r.amount else 0
    {
      HeldUpdate(s.reservations, id, status, c);
    }
  }

  lemma FreeKeepsInv(s: Store, id: nat, status: Status)
    requires Inv(s) && id < |s.reservations| && s.reservations[id].status == Pending
    requires status == Released || status == Expired
    ensures Inv(Free(s, id, status))
  {
    ReservationFacts(s, id, status);
    var r := s.reservations[id];
    ShiftKeepsInv(s, SetStatus(s.reservations, id, status), r.buyer, -r.amount);
  }

  lemma AwardKeepsInv(s: Store, cfg: Config, b: Buyer, order: nat, paidSubtotal: int, now: Time)
    requires Inv(s)
    ensures Inv(AwardEarn(s, cfg, b, order, paidSubtotal, now).0)
  {
    var amount := ComputeEarnAmount(paidSubtotal, cfg.earnRateBps);
    if amount > 0 {
      AccountBounds(s, b);
      if Find(s.ledger, OrderPaid(order), Earn) == None {
        CreditKeepsInv(s, b, Earn, amount, OrderPaid(order), ExpirationFor(cfg, now));
      } else {
        EnsureKeepsInv(s, b);
      }
    }
  }

  lemma ReserveKeepsInv(s: Store, cfg: Config, b: Buyer, amount: int, now: Time)
    requires Inv(s)
    ensures Inv(Reserve(s, cfg, b, amount, now).0)
  {
    if amount > 0 && Acct(s, b).Spendable() >= amount {
      assert Refined(s, b);
      var r := Reservation(|s.reservations|, b, amount, Pending, now + cfg.reservationTTL);
      var rs' := s.reservations + [r];
      assert rs'[..|s.reservations|] == s.reservations;
      assert forall c: Buyer :: Held(rs', c) == Held(s.reservations, c) + Hold(r, c);
      forall i | 0 <= i < |s.reservations|
        ensures rs'[i].id == i && rs'[i].amount > 0
      {
        assert ReservationOk(s.ledger, s.reservations, i);
      }
      ShiftKeepsInv(s, rs', b, amount);
    }
  }

  /** What a handler read before locking is an earlier version of the current row. */
  predicate SeenOk(rs: seq<Reservation>, v: Reservation) {
    && v.id < |rs|
    && rs[v.id] == v.(status := rs[v.id].status)
    && (v.status != Pending ==> rs[v.id].status == v.status)
  }

  lemma CommitKeepsInv(s: Store, cfg: Config, seen: Reservation, order: nat, paidSubtotal: int, now: Time)
    requires Inv(s) && SeenOk(s.reservations, seen)
    ensures Inv(Commit(s, cfg, seen, order, paidSubtotal, now).0)
  {
    var b, source := seen.buyer, ReservationCommit(seen.id);
    if Find(s.ledger, source, Redeem).Some? {
      EnsureKeepsInv(s, b);
    } else if seen.status == Pending && s.reservations[seen.id].status == Pending {
      ReservationFacts(s, seen.id, Committed);
      var rs' := SetStatus(s.reservations, seen.id, Committed);
      PostKeepsInv(s, rs', b, Redeem, -seen.amount, source, None);
      var s1 := Post(s.(reservations := rs'), b, Redeem, -seen.amount, source, None);
      FindAppend(s.ledger, NextRow(s, b, Redeem, -seen.amount, source, None), OrderPaid(order), Earn);
      AwardKeepsInv(s1, cfg, b, order, paidSubtotal, now);
    }
  }

  lemma ReleaseKeepsInv(s: Store, seen: Reservation)
    requires Inv(s) && SeenOk(s.reservations, seen)
    ensures Inv(Release(s, seen).0)
  {
    if seen.status == Pending {
      if s.reservations[seen.id].status == Pending {
        FreeKeepsInv(s, seen.id, Released);
      } else {
        EnsureKeepsInv(s, seen.buyer);
      }
    }
  }

  lemma AdjustKeyFresh(s: Store)
    requires Inv(s)
    ensures Find(s.ledger, AdminAdjust(|s.ledger|), Adjust) == None
  {
    forall r | r in s.ledger
      ensures !(r.source == AdminAdjust(|s.ledger|) && r.kind == Adjust)
    {
      var i :| 0 <= i < |s.ledger| && s.ledger[i] == r;
      assert SourceOk(s.reservations, s.ledger[i]);
    }
  }

  lemma AdjustKeepsInv(s: Store, b: Buyer, amount: int)
    requires Inv(s)
    ensures Inv(AdjustBy(s, b, amount).0)
  {
    AccountBounds(s, b);
    AdjustKeyFresh(s);
    if AdjustBy(s, b, amount).1.Ok? {
      CreditKeepsInv(s, b, Adjust, amount, AdminAdjust(|s.ledger|), None);
    }
  }

  /** The refund half of a cancellation. */
  function AfterRefund(s: Store, b: Buyer, order: nat, pointDiscount: int): Store {
    if pointDiscount > 0 && Find(s.ledger, OrderCancelled(order), Refund) == None
    then Post(s, b, Refund, pointDiscount, OrderCancelled(order), None) else Ensure(s, b)
  }

  lemma RefundKeepsInv(s: Store, b: Buyer, order: nat, pointDiscount: int)
    requires Inv(s)
    ensures var s1 := AfterRefund(s, b, order, pointDiscount);
            && Inv(s1)
            && Find(s1.ledger, OrderCancelled(order), ReverseEarn) == Find(s.ledger, OrderCancelled(order), ReverseEarn)
  {
    AccountBounds(s, b);
    if pointDiscount > 0 && Find(s.ledger, OrderCancelled(order), Refund) == None {
      CreditKeepsInv(s, b, Refund, pointDiscount, OrderCancelled(order), None);
      FindAppend(s.ledger, NextRow(s, b, Refund, pointDiscount, OrderCancelled(order), None), OrderCancelled(order), ReverseEarn);
    } else {
      EnsureKeepsInv(s, b);
    }
  }

  /** The reversal half of a cancellation, as far as the table's CHECK lets it. */
  function AfterReversal(s: Store, b: Buyer, order: nat, pointsEarned: nat): Store {
    var reversal := Min(pointsEarned, Acct(s, b).balance);
    if Find(s.ledger, OrderCancelled(order), ReverseEarn) == None && reversal > 0
    then Post(s, b, ReverseEarn, -reversal, OrderCancelled(order), None) else s
  }

  lemma ReversalKeepsInv(s: Store, b: Buyer, order: nat, pointsEarned: nat)
    requires Inv(s)
    ensures var s2 := AfterReversal(s, b, order, pointsEarned);
            Acct(s2, b).pending <= Acct(s2, b).balance ==> Inv(s2)
  {
    var reversal := Min(pointsEarned, Acct(s, b).balance);
    AccountBounds(s, b);
    if Find(s.ledger, OrderCancelled(order), ReverseEarn) == None && 0 < reversal <= Acct(s, b).Spendable() {
      CreditKeepsInv(s, b, ReverseEarn, -reversal, OrderCancelled(order), None);
    }
  }

  /** A cancellation is its two halves, or nothing. */
  lemma CancelHalves(s: Store, b: Buyer, order: nat, pointDiscount: nat, pointsEarned: nat)
    requires 0 <= Acct(s, b).pending <= Acct(s, b).balance && (pointDiscount > 0 || pointsEarned > 0)
    requires var s1 := AfterRefund(s, b, order, pointDiscount);
             Find(s1.ledger, OrderCancelled(order), ReverseEarn) == Find(s.ledger, OrderCancelled(order), ReverseEarn)
    ensures var s1 := AfterRefund(s, b, order, pointDiscount);
            var s2 := AfterReversal(s1, b, order, pointsEarned);
            Cancel(s, b, order, pointDiscount, pointsEarned) ==
              if Acct(s2, b).pending > Acct(s2, b).balance then (s, Err(Internal))
              else (s2, Ok(CancelReply(Acct(s1, b).balance - Acct(s, b).balance,
                                       Acct(s1, b).balance - Acct(s2, b).balance, Acct(s2, b).balance)))
  {
  }

  lemma CancelKeepsInv(s: Store, b: Buyer, order: nat, pointDiscount: int, pointsEarned: int)
    requires Inv(s)
    ensures Inv(Cancel(s, b, order, pointDiscount, pointsEarned).0)
  {
    if pointDiscount >= 0 && pointsEarned >= 0 && pointDiscount + pointsEarned > 0 {
      var s1 := AfterRefund(s, b, order, pointDiscount);
      AccountBounds(s, b);
      RefundKeepsInv(s, b, order, pointDiscount);
      ReversalKeepsInv(s1, b, order, pointsEarned);
      CancelHalves(s, b, order, pointDiscount, pointsEarned);
    }
  }

  lemma {:induction false} ExpireHoldsLedger(s: Store, ids: seq<nat>)
    requires forall k | 0 <= k < |ids| :: ids[k] < |s.reservations|
    ensures ExpireHolds(s, ids).ledger == s.ledger
  {
    if ids != [] {
      ExpireHoldsLedger(s, ids[..|ids| - 1]);
    }
  }

  lemma {:induction false} ExpireHoldsKeepsInv(s: Store, ids: seq<nat>, now: Time)
    requires Inv(s) && Claimable(s.reservations, ids, now, |ids|)
    ensures Inv(ExpireHolds(s, ids))
    ensures forall i | 0 <= i < |s.reservations| ::
              ExpireHolds(s, ids).reservations[i] ==
                if i in ids then s.reservations[i].(status := Expired) else s.reservations[i]
  {
    if ids != [] {
      var init, last := ids[..|ids| - 1], ids[|ids| - 1];
      ExpireHoldsKeepsInv(s, init, now);
      assert ids == init + [last];
      assert last !in init;
      FreeKeepsInv(ExpireHolds(s, init), last, Expired);
    }
  }

  // ----- Expiration -----

  /** The rows of a pass carry their prefix sums and move no lifetime counter. */
  lemma {:induction false} ExpireRowsSums(rows: seq<Row>, bs: seq<Bucket>, now: Time, b: Buyer, id: nat)
    returns (out: seq<Row>)
    requires Stamped(rows)
    ensures out == rows + ExpireRows(bs, now, b, id, Total(rows))
    ensures Stamped(out) && Total(out) == Total(rows) - DueTotal(bs, now)
    ensures EarnedTotal(out) == EarnedTotal(rows) && RedeemedTotal(out) == RedeemedTotal(rows)
  {
    if bs == [] {
      out := rows;
    } else {
      var n := |bs| - 1;
      var prev := ExpireRowsSums(rows, bs[..n], now, b, id);
      assert bs[..n + 1] == bs;
      if Due(bs[n], now) {
        var before, r := ExpireRowsNext(bs, n, now, b, id, Total(rows));
        out := prev + [r];
        ExpireRowSums(prev, r, out);
        assert (rows + before) + [r] == rows + (before + [r]);
      } else {
        out := prev;
      }
    }
  }

  lemma ExpireRowSums(prev: seq<Row>, r: Row, out: seq<Row>)
    requires Stamped(prev) && r.kind == Expire && r.balanceAfter == Total(prev) + r.amount && out == prev + [r]
    ensures Stamped(out) && Total(out) == Total(prev) + r.amount
    ensures EarnedTotal(out) == EarnedTotal(prev) && RedeemedTotal(out) == RedeemedTotal(prev)
  {
    assert out[..|prev|] == prev;
  }

  predicate ExpiresOneOf(r: Row, bs: seq<Bucket>, now: Time) {
    r.kind == Expire && r.source.ExpirationJob? && exists i :: 0 <= i < |bs| && bs[i].earn == r.source.earn && Due(bs[i], now)
  }

  lemma {:induction false} ExpireRowsKeys(bs: seq<Bucket>, now: Time, b: Buyer, id: nat, balance: int)
    requires Increasing(bs)
    ensures var written := ExpireRows(bs, now, b, id, balance);
            && (forall k | 0 <= k < |written| :: written[k].id == id + k && written[k].buyer == b && ExpiresOneOf(written[k], bs, now))
            && UniqueKeys(written)
  {
    if bs != [] {
      var init, last := bs[..|bs| - 1], bs[|bs| - 1];
      ExpireRowsKeys(init, now, b, id, balance);
      var before, written := ExpireRows(init, now, b, id, balance), ExpireRows(bs, now, b, id, balance);
      forall k | 0 <= k < |written|
        ensures written[k].id == id + k && written[k].buyer == b && ExpiresOneOf(written[k], bs, now)
        ensures k < |before| ==> written[k].source.earn < last.earn
      {
        if k < |before| {
          var i :| 0 <= i < |init| && init[i].earn == before[k].source.earn && Due(init[i], now);
          assert bs[i] == init[i];
        } else {
          assert bs[|bs| - 1] == last;
        }
      }
    }
  }

  /** An expire row anywhere in the ledger marks the bucket it names. */
  lemma ExpireRowMarks(s: Store, b: Buyer, i: nat, q: Row)
    requires Inv(s) && i < |Rebuild(Of(s.ledger, b))|
    requires q in s.ledger && q.kind == Expire && q.source == ExpirationJob(Rebuild(Of(s.ledger, b))[i].earn)
    ensures Rebuild(Of(s.ledger, b))[i].marked
  {
    var rows, own := Of(s.ledger, b), Of(s.ledger, q.buyer);
    var bucket := Rebuild(rows)[i];
    assert Refined(s, b) && Refined(s, q.buyer);
    OfFacts(s.ledger, b);
    OfFacts(s.ledger, q.buyer);
    ReplayableFacts(rows);
    assert BucketOk(rows, bucket);
    var k :| 0 <= k < |own| && own[k] == q;
    ExpireNeedsEarlierEarn(own, k);
    var e :| e in own && e.kind == Earn && e.id == bucket.earn;
    var e' :| e' in rows && e'.kind == Earn && e'.id == bucket.earn
              && e'.expiresAt == bucket.expiresAt && e'.amount == bucket.original;
    assert e == s.ledger[e.id] == e';
    assert q in rows;
  }

  lemma ExpireKeepsLedgerOk(s: Store, b: Buyer, now: Time, written: seq<Row>)
    requires Inv(s) && written == ExpireRows(Rebuild(Of(s.ledger, b)), now, b, |s.ledger|, Acct(s, b).balance)
    ensures LedgerOk(s.ledger + written, s.reservations)
    ensures ReservationsOk(s.ledger + written, s.reservations)
    ensures forall r | r in written :: r.buyer == b
  {
    var bs := Rebuild(Of(s.ledger, b));
    assert Refined(s, b);
    RebuildShape(Of(s.ledger, b));
    ExpireRowsKeys(bs, now, b, |s.ledger|, Acct(s, b).balance);
    forall k | 0 <= k < |written|
      ensures SourceOk(s.reservations, written[k])
      ensures forall q | q in s.ledger :: !SameKey(q, written[k])
    {
      assert ExpiresOneOf(written[k], bs, now);
      var i :| 0 <= i < |bs| && bs[i].earn == written[k].source.earn && Due(bs[i], now);
      forall q | q in s.ledger
        ensures !SameKey(q, written[k])
      {
        if SameKey(q, written[k]) {
          ExpireRowMarks(s, b, i, q);
          assert false;
        }
      }
    }
    ConcatKeepsLedgerOk(s.ledger, written, s.reservations);
    forall i | 0 <= i < |s.reservations|
      ensures ReservationOk(s.ledger + written, s.reservations, i)
    {
      assert ReservationOk(s.ledger, s.reservations, i);
      if s.reservations[i].status == Committed {
        FindFrame(s.ledger, written, ReservationCommit(i), Redeem);
      }
    }
  }

  lemma ConcatKeepsLedgerOk(ledger: seq<Row>, rows: seq<Row>, rs: seq<Reservation>)
    requires LedgerOk(ledger, rs) && UniqueKeys(rows)
    requires forall k | 0 <= k < |rows| :: rows[k].id == |ledger| + k && SourceOk(rs, rows[k])
    requires forall k | 0 <= k < |rows| :: forall q | q in ledger :: !SameKey(q, rows[k])
    ensures LedgerOk(ledger + rows, rs)
  {
    var all := ledger + rows;
    forall i, j | 0 <= i < j < |all|
      ensures !SameKey(all[i], all[j])
    {
      assert i < |ledger| ==> all[i] in ledger;
    }
  }

  lemma ExpirePointsRefines(s: Store, b: Buyer, now: Time, s': Store)
    requires Inv(s) && GateAccepts(Rebuild(Of(s.ledger, b)), Of(s.ledger, b), Acct(s, b).balance)
    requires Acct(s, b).pending <= Acct(s, b).balance - DueTotal(Rebuild(Of(s.ledger, b)), now)
    requires s'.reservations == s.reservations
    requires s'.ledger == s.ledger + ExpireRows(Rebuild(Of(s.ledger, b)), now, b, |s.ledger|, Acct(s, b).balance)
    requires Acct(s', b) == Acct(s, b).(balance := Acct(s', b).balance, version := Acct(s', b).version)
    requires Acct(s', b).balance == Acct(s, b).balance - DueTotal(Rebuild(Of(s.ledger, b)), now)
    ensures Refined(s', b)
  {
    var a, rows := Acct(s, b), Of(s.ledger, b);
    assert Refined(s, b);
    OfFacts(s.ledger, b);
    var out := PassKeepsBuyerOk(a, rows, Held(s.reservations, b), now, b, |s.ledger|, Acct(s', b));
    ExpireRowsTotal(Rebuild(rows), now, b, |s.ledger|, a.balance);
    OfSplit(s.ledger, ExpireRows(Rebuild(rows), now, b, |s.ledger|, a.balance), b);
    RefinedIntro(s', b, Acct(s', b), out, a.pending);
  }

  /** A buyer's counters and ledger through a pass. */
  lemma PassKeepsBuyerOk(a: Account, rows: seq<Row>, held: int, now: Time, b: Buyer, id: nat, a': Account)
    returns (out: seq<Row>)
    requires BuyerOk(a, rows, held) && IdsBelow(rows, id)
    requires a' == a.(balance := a.balance - DueTotal(Rebuild(rows), now), version := a'.version) && a.pending <= a'.balance
    ensures out == rows + ExpireRows(Rebuild(rows), now, b, id, a.balance) && BuyerOk(a', out, held)
  {
    ReplayCommutesWithExpiry(rows, now, b, id, a.balance, 0, 0);
    out := ExpireRowsSums(rows, Rebuild(rows), now, b, id);
  }

  lemma ExpirePointsKeepsInv(s: Store, b: Buyer, now: Time)
    requires Inv(s)
    ensures Inv(ExpirePoints(s, b, now).0)
  {
    var a, rows := Acct(s, b), Of(s.ledger, b);
    var bs := Rebuild(rows);
    var due, written := DueTotal(bs, now), ExpireRows(bs, now, b, |s.ledger|, a.balance);
    AccountBounds(s, b);
    if GateAccepts(bs, rows, a.balance) && (due == 0 || a.pending <= a.balance - due) {
      var s' := ExpirePoints(s, b, now).0;
      ExpirePointsRefines(s, b, now, s');
      ExpireKeepsLedgerOk(s, b, now, written);
      Frame(s, s', b, written);
    }
  }
}
