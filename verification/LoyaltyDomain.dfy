/** Entities of the loyalty service: accounts, ledger rows, reservations. */
module LoyaltyDomain {
  import opened Common

  type Buyer = nat

  datatype Account = Account(balance: int, pending: int, earned: int, redeemed: int, version: nat) {
    /** What can be redeemed now: the balance minus what checkouts already hold. */
    function Spendable(): int {
      balance - pending
    }
  }

  const ZERO_ACCOUNT := Account(0, 0, 0, 0, 0)

  datatype Kind = Earn | Redeem | Refund | ReverseEarn | Adjust | Expire

  /** source_type together with source_id; with the kind it is the idempotency key of a row. */
  datatype Source =
    | OrderPaid(order: nat)
    | ReservationCommit(reservation: nat)
    | OrderCancelled(order: nat)
    | AdminAdjust(row: nat)
    | ExpirationJob(earn: nat)

  /** One ledger row. `id` is the position the row was inserted at. */
  datatype Row = Row(id: nat, buyer: Buyer, kind: Kind, amount: int, balanceAfter: int,
                     source: Source, expiresAt: Option<Time>)

  datatype Status = Pending | Committed | Released | Expired

  /** One reservation. Its id is its position in the reservation table. */
  datatype Reservation = Reservation(id: nat, buyer: Buyer, amount: int, status: Status, expiresAt: Time)

  /** Points earned on a paid subtotal: the exact floor of subtotal * rate / 10000, never negative. */
  function ComputeEarnAmount(paidSubtotal: int, earnRateBps: int): (points: int)
    ensures paidSubtotal <= 0 || earnRateBps <= 0 ==> points == 0
    ensures paidSubtotal > 0 && earnRateBps > 0 ==>
              0 <= points && 10000 * points <= paidSubtotal * earnRateBps < 10000 * (points + 1)
  {
    if paidSubtotal <= 0 || earnRateBps <= 0 then 0
    else
      assert paidSubtotal * earnRateBps > 0;
      paidSubtotal * earnRateBps / 10000
  }
}
