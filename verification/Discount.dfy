/** Splitting a cart-wide discount over per-seller subtotals in integer yen: floors, a remainder
    for the last positive bucket, and a cap at each subtotal. */
module Discount {
  import opened Common

  function PositiveTotal(subtotals: seq<int>): nat {
    if subtotals == [] then 0
    else PositiveTotal(subtotals[..|subtotals| - 1]) + Pos(subtotals[|subtotals| - 1])
  }

  /** How many buckets are positive. */
  function Positives(subtotals: seq<int>): nat {
    if subtotals == [] then 0
    else Positives(subtotals[..|subtotals| - 1]) + if subtotals[|subtotals| - 1] > 0 then 1 else 0
  }

  /** The index of the last positive bucket, or -1. */
  function LastPositive(subtotals: seq<int>): (i: int)
    ensures -1 <= i < |subtotals|
    ensures i >= 0 ==> subtotals[i] > 0
    ensures forall j | i < j < |subtotals| :: subtotals[j] <= 0
  {
    if subtotals == [] then -1
    else if subtotals[|subtotals| - 1] > 0 then |subtotals| - 1
    else LastPositive(subtotals[..|subtotals| - 1])
  }

  function Floor(discount: nat, s: int, total: nat): nat
    requires total > 0
  {
    if s <= 0 then 0 else
      assert discount * s >= 0;
      discount * s / total
  }

  function Floors(discount: nat, subtotals: seq<int>, total: nat): (fs: seq<int>)
    requires total > 0
    ensures |fs| == |subtotals|
  {
    if subtotals == [] then []
    else Floors(discount, subtotals[..|subtotals| - 1], total) + [Floor(discount, subtotals[|subtotals| - 1], total)]
  }

  /** What the floors leave undistributed. */
  function Remainder(discount: nat, subtotals: seq<int>): int
    requires PositiveTotal(subtotals) > 0
  {
    discount - Sum(Floors(discount, subtotals, PositiveTotal(subtotals)))
  }

  function Share(discount: int, subtotals: seq<int>, i: nat): int
    requires i < |subtotals|
  {
    if discount <= 0 || PositiveTotal(subtotals) == 0 then 0
    else
      var extra := if i == LastPositive(subtotals) then Pos(Remainder(discount, subtotals)) else 0;
      Min(Floors(discount, subtotals, PositiveTotal(subtotals))[i] + extra, subtotals[i])
  }

  function Shares(discount: int, subtotals: seq<int>): (shares: seq<int>)
    ensures |shares| == |subtotals|
    ensures forall i | 0 <= i < |shares| :: shares[i] == Share(discount, subtotals, i)
  {
    seq(|subtotals|, i requires 0 <= i < |subtotals| => Share(discount, subtotals, i))
  }

  /** What the shares fall short of the discount. */
  function Shortfall(discount: int, subtotals: seq<int>): int {
    discount - Sum(Shares(discount, subtotals))
  }

  predicate NonNegative(subtotals: seq<int>) {
    forall i | 0 <= i < |subtotals| :: subtotals[i] >= 0
  }

  // ----- Arithmetic -----

  lemma CancelLess(t: nat, x: int, y: int)
    requires t * x < t * y
    ensures x < y
  {
    if x >= y {
      MulMonotone(t, y, x);
    }
  }

  lemma MulMonotone(t: nat, x: int, y: int)
    requires x <= y
    ensures t * x <= t * y
  {
    assert t * (y - x) >= 0;
  }

  lemma FloorBelow(discount: nat, s: nat, total: nat)
    requires discount < total
    ensures Floor(discount, s, total) <= s && (s > 0 ==> Floor(discount, s, total) < s)
  {
    if s > 0 {
      DivBounds(discount, s, total);
      assert discount * s < total * s;
      CancelLess(total, Floor(discount, s, total), s);
    }
  }

  lemma FloorAbove(discount: nat, s: nat, total: nat)
    requires discount >= total > 0
    ensures Floor(discount, s, total) >= s
    ensures discount == total ==> Floor(discount, s, total) == s
  {
    if s > 0 {
      var f := Floor(discount, s, total);
      DivBounds(discount, s, total);
      MulMonotone(s, total, discount);
      CancelLess(total, s, f + 1);
      if discount == total {
        CancelLess(total, f, s + 1);
      }
    }
  }

  lemma DivBounds(discount: nat, s: nat, total: nat)
    requires total > 0
    ensures 0 <= discount * s - total * Floor(discount, s, total) < total
  {
    var x := discount * s;
    assert x == total * (x / total) + x % total;
  }

  lemma {:induction false} FloorsAt(discount: nat, subtotals: seq<int>, total: nat, i: nat)
    requires total > 0 && i < |subtotals|
    ensures Floors(discount, subtotals, total)[i] == Floor(discount, subtotals[i], total)
  {
    if i < |subtotals| - 1 {
      FloorsAt(discount, subtotals[..|subtotals| - 1], total, i);
    }
  }

  /** Floors stay within their buckets below the cart total, and reach them above it. */
  lemma FloorsBounds(discount: nat, subtotals: seq<int>, total: nat, i: nat)
    requires total > 0 && i < |subtotals| && subtotals[i] >= 0
    ensures var f := Floors(discount, subtotals, total)[i];
            && 0 <= f
            && (discount < total ==> f <= subtotals[i] && (subtotals[i] > 0 ==> f < subtotals[i]))
            && (discount >= total ==> f >= subtotals[i])
            && (discount == total ==> f == subtotals[i])
  {
    FloorsAt(discount, subtotals, total, i);
    if discount < total {
      FloorBelow(discount, subtotals[i], total);
    } else {
      FloorAbove(discount, subtotals[i], total);
    }
  }

  lemma LossStep(d: nat, t: nat, p: nat, f: int, k: nat, s: nat, g: int)
    requires 0 <= d * p - t * f <= k * (t - 1) && 0 <= d * s - t * g <= t - 1
    ensures 0 <= d * (p + s) - t * (f + g) <= (k + 1) * (t - 1)
  {
    assert d * (p + s) == d * p + d * s;
    assert t * (f + g) == t * f + t * g;
    assert (k + 1) * (t - 1) == k * (t - 1) + (t - 1);
  }

  /** The floors lose less than one unit per positive bucket. */
  lemma {:induction false} FloorsLoss(discount: nat, subtotals: seq<int>, total: nat)
    requires total > 0
    ensures 0 <= discount * PositiveTotal(subtotals) - total * Sum(Floors(discount, subtotals, total))
                 <= Positives(subtotals) * (total - 1)
  {
    if subtotals != [] {
      var init, last := subtotals[..|subtotals| - 1], subtotals[|subtotals| - 1];
      FloorsLoss(discount, init, total);
      var f := Floor(discount, last, total);
      SumAppend(Floors(discount, init, total), f);
      if last > 0 {
        DivBounds(discount, last, total);
        LossStep(discount, total, PositiveTotal(init), Sum(Floors(discount, init, total)), Positives(init), last, f);
      }
    }
  }

  lemma {:induction false} PositivesMeaning(subtotals: seq<int>)
    ensures PositiveTotal(subtotals) > 0 <==> LastPositive(subtotals) >= 0
    ensures PositiveTotal(subtotals) > 0 <==> Positives(subtotals) > 0
    ensures LastPositive(subtotals) >= 0 ==> subtotals[LastPositive(subtotals)] <= PositiveTotal(subtotals)
  {
    if subtotals != [] {
      PositivesMeaning(subtotals[..|subtotals| - 1]);
    }
  }

  lemma LossBound(d: int, t: nat, s: int, k: nat)
    requires t > 0 && k > 0 && 0 <= d * t - t * s <= k * (t - 1)
    ensures 0 <= d - s < k
  {
    assert d * t - t * s == t * (d - s);
    assert k * (t - 1) < t * k;
    CancelLess(t, d - s, k);
    CancelLess(t, -1, d - s);
  }

  /** The remainder is smaller than the number of positive buckets. */
  lemma RemainderBounds(discount: nat, subtotals: seq<int>)
    requires PositiveTotal(subtotals) > 0
    ensures 0 <= Remainder(discount, subtotals) < Positives(subtotals)
  {
    var total := PositiveTotal(subtotals);
    PositivesMeaning(subtotals);
    FloorsLoss(discount, subtotals, total);
    LossBound(discount, total, Sum(Floors(discount, subtotals, total)), Positives(subtotals));
  }

  lemma {:induction false} SumUpdate(xs: seq<int>, i: nat, v: int)
    requires i < |xs|
    ensures Sum(xs[i := v]) == Sum(xs) - xs[i] + v
  {
    var init := xs[..|xs| - 1];
    if i < |init| {
      SumUpdate(init, i, v);
      assert xs[i := v][..|init|] == init[i := v];
    } else {
      assert xs[i := v][..|init|] == init;
    }
  }

  lemma {:induction false} SumOfPositive(subtotals: seq<int>)
    requires NonNegative(subtotals)
    ensures Sum(subtotals) == PositiveTotal(subtotals)
  {
    if subtotals != [] {
      SumOfPositive(subtotals[..|subtotals| - 1]);
    }
  }

  lemma {:induction false} SumZeros(xs: seq<int>)
    requires forall i | 0 <= i < |xs| :: xs[i] == 0
    ensures Sum(xs) == 0
  {
    if xs != [] {
      SumZeros(xs[..|xs| - 1]);
    }
  }

  lemma {:induction false} SumBounds(xs: seq<int>, ys: seq<int>)
    requires |xs| == |ys| && forall i | 0 <= i < |xs| :: 0 <= xs[i] <= ys[i]
    ensures 0 <= Sum(xs) <= Sum(ys)
  {
    if xs != [] {
      SumBounds(xs[..|xs| - 1], ys[..|ys| - 1]);
    }
  }

  // ----- What the split promises -----

  /** Each floor is the exact proportional share rounded down. */
  lemma FloorsMeaning(discount: nat, subtotals: seq<int>, total: nat, i: nat)
    requires total > 0 && i < |subtotals|
    ensures var f := Floors(discount, subtotals, total)[i];
            if subtotals[i] <= 0 then f == 0 else 0 <= discount * subtotals[i] - total * f < total
  {
    FloorsAt(discount, subtotals, total, i);
    if subtotals[i] > 0 {
      DivBounds(discount, subtotals[i], total);
    }
  }

  /** Below the cart total, every share but the last positive one is its exact proportional
      floor; the last one takes the remainder, up to its subtotal. */
  lemma ExactFloors(discount: nat, subtotals: seq<int>, i: nat)
    requires NonNegative(subtotals) && 0 < discount < PositiveTotal(subtotals) && i < |subtotals|
    ensures var f := Floors(discount, subtotals, PositiveTotal(subtotals))[i];
            Shares(discount, subtotals)[i] ==
              if i == LastPositive(subtotals) then Min(f + Remainder(discount, subtotals), subtotals[i]) else f
  {
    FloorsBounds(discount, subtotals, PositiveTotal(subtotals), i);
    RemainderBounds(discount, subtotals);
  }

  /** A discount of the whole cart or more takes every subtotal exactly. */
  lemma FullDiscount(discount: nat, subtotals: seq<int>)
    requires NonNegative(subtotals) && discount >= PositiveTotal(subtotals)
    ensures Shares(discount, subtotals) == subtotals
  {
    PositivesMeaning(subtotals);
    SumOfPositive(subtotals);
    forall i | 0 <= i < |subtotals|
      ensures Share(discount, subtotals, i) == subtotals[i]
    {
      if PositiveTotal(subtotals) > 0 {
        FloorsBounds(discount, subtotals, PositiveTotal(subtotals), i);
      }
    }
  }

  /** Every share lies between 0 and its subtotal. */
  lemma ShareBounds(discount: int, subtotals: seq<int>)
    requires NonNegative(subtotals)
    ensures forall i | 0 <= i < |subtotals| :: 0 <= Shares(discount, subtotals)[i] <= subtotals[i]
  {
    forall i | 0 <= i < |subtotals|
      ensures 0 <= Share(discount, subtotals, i) <= subtotals[i]
    {
      if discount > 0 && PositiveTotal(subtotals) > 0 {
        FloorsBounds(discount, subtotals, PositiveTotal(subtotals), i);
      }
    }
  }

  /** The exact shortfall: what the cap cuts off the last positive bucket. */
  lemma ShortfallExact(discount: nat, subtotals: seq<int>)
    requires NonNegative(subtotals) && 0 < discount < PositiveTotal(subtotals)
    ensures LastPositive(subtotals) >= 0
    ensures var last := LastPositive(subtotals);
            Shortfall(discount, subtotals) ==
              Pos(Floors(discount, subtotals, PositiveTotal(subtotals))[last] + Remainder(discount, subtotals) - subtotals[last])
  {
    PositivesMeaning(subtotals);
    var last, fs := LastPositive(subtotals), Floors(discount, subtotals, PositiveTotal(subtotals));
    var shares := Shares(discount, subtotals);
    RemainderBounds(discount, subtotals);
    forall i | 0 <= i < |subtotals| && i != last
      ensures shares[i] == fs[i]
    {
      FloorsBounds(discount, subtotals, PositiveTotal(subtotals), i);
    }
    assert shares == fs[last := shares[last]];
    SumUpdate(fs, last, shares[last]);
  }

  /** The split never gives more than the discount, and at most P - 2 less for P positive
      buckets: nothing is lost with one or two of them, or for a discount of the whole cart. */
  lemma ShortfallBound(discount: nat, subtotals: seq<int>)
    requires NonNegative(subtotals) && discount <= PositiveTotal(subtotals)
    ensures 0 <= Shortfall(discount, subtotals) <= Pos(Positives(subtotals) - 2)
    ensures discount == PositiveTotal(subtotals) ==> Shortfall(discount, subtotals) == 0
  {
    if discount == 0 {
      SumZeros(Shares(discount, subtotals));
    } else if discount == PositiveTotal(subtotals) {
      FullDiscount(discount, subtotals);
      SumOfPositive(subtotals);
    } else {
      ShortfallExact(discount, subtotals);
      RemainderBounds(discount, subtotals);
      FloorsBounds(discount, subtotals, PositiveTotal(subtotals), LastPositive(subtotals));
    }
  }

  /** The split is exact if and only if the last positive subtotal has room for what the exact
      floors of the other buckets leave over. */
  lemma ExactIff(discount: nat, subtotals: seq<int>)
    requires NonNegative(subtotals) && 0 < discount <= PositiveTotal(subtotals)
    ensures LastPositive(subtotals) >= 0
    ensures var last := LastPositive(subtotals);
            var others := Floors(discount, subtotals, PositiveTotal(subtotals))[last := 0];
            Sum(Shares(discount, subtotals)) == discount <==> discount - Sum(others) <= subtotals[last]
  {
    PositivesMeaning(subtotals);
    var last, fs := LastPositive(subtotals), Floors(discount, subtotals, PositiveTotal(subtotals));
    SumUpdate(fs, last, 0);
    if discount == PositiveTotal(subtotals) {
      ShortfallBound(discount, subtotals);
      FullFloors(subtotals);
      SumOfPositive(subtotals);
    } else {
      ShortfallExact(discount, subtotals);
    }
  }

  lemma FullFloors(subtotals: seq<int>)
    requires NonNegative(subtotals) && PositiveTotal(subtotals) > 0
    ensures Floors(PositiveTotal(subtotals), subtotals, PositiveTotal(subtotals)) == subtotals
  {
    forall i | 0 <= i < |subtotals|
      ensures Floors(PositiveTotal(subtotals), subtotals, PositiveTotal(subtotals))[i] == subtotals[i]
    {
      FloorsBounds(PositiveTotal(subtotals), subtotals, PositiveTotal(subtotals), i);
    }
  }

  /** The sum never exceeds the discount, even one larger than the cart. */
  lemma NeverOver(discount: nat, subtotals: seq<int>)
    requires NonNegative(subtotals)
    ensures 0 <= Sum(Shares(discount, subtotals)) <= discount
    ensures Sum(Shares(discount, subtotals)) <= Sum(subtotals)
  {
    ShareBounds(discount, subtotals);
    SumBounds(Shares(discount, subtotals), subtotals);
    if discount <= PositiveTotal(subtotals) {
      ShortfallBound(discount, subtotals);
    } else {
      FullDiscount(discount, subtotals);
      SumOfPositive(subtotals);
    }
  }

  /** p - 1 buckets of 100 and one of 1. */
  function TightCart(p: nat): seq<int>
    requires p >= 1
  {
    if p == 1 then [1] else [100] + TightCart(p - 1)
  }

  /** The bound is tight for every number of sellers: with a discount one yen below the total,
      this cart loses exactly P - 2 yen. With three sellers it is 99 + 99 + 1 for a discount of 200. */
  lemma ShortfallTight(p: nat)
    requires p >= 2
    ensures var cart := TightCart(p);
            && Positives(cart) == p
            && Shortfall(PositiveTotal(cart) - 1, cart) == p - 2
            && (p == 3 ==> cart == [100, 100, 1] && PositiveTotal(cart) == 201 && Shares(200, cart) == [99, 99, 1])
  {
    var cart := TightCart(p);
    TightCartShape(p);
    TightTotals(cart);
    var total := PositiveTotal(cart);
    var d := total - 1;
    var fs := Floors(d, cart, total);
    forall i | 0 <= i < p
      ensures fs[i] == if i < p - 1 then 99 else 0
    {
      FloorsAt(d, cart, total, i);
      TightFloor(total, i < p - 1);
    }
    SumTight(fs);
    ShortfallExact(d, cart);
    if p == 3 {
      ExactFloors(d, cart, 0);
      ExactFloors(d, cart, 1);
      ExactFloors(d, cart, 2);
      assert TightCart(2) == [100, 1];
    }
  }

  lemma TightFloor(total: nat, hundred: bool)
    requires total > 100
    ensures hundred ==> Floor(total - 1, 100, total) == 99
    ensures !hundred ==> Floor(total - 1, 1, total) == 0
  {
    DivBounds(total - 1, 100, total);
    FloorBelow(total - 1, 100, total);
    FloorBelow(total - 1, 1, total);
    CancelLess(total, 98, Floor(total - 1, 100, total));
  }

  lemma {:induction false} TightCartShape(p: nat)
    requires p >= 1
    ensures |TightCart(p)| == p && forall i | 0 <= i < p :: TightCart(p)[i] == if i < p - 1 then 100 else 1
  {
    if p > 1 {
      TightCartShape(p - 1);
    }
  }

  lemma TightTotals(cart: seq<int>)
    requires |cart| >= 1 && forall i | 0 <= i < |cart| :: cart[i] == if i < |cart| - 1 then 100 else 1
    ensures PositiveTotal(cart) == 100 * (|cart| - 1) + 1 && Positives(cart) == |cart|
    ensures LastPositive(cart) == |cart| - 1
  {
    Hundreds(cart[..|cart| - 1]);
  }

  lemma {:induction false} Hundreds(cart: seq<int>)
    requires forall i | 0 <= i < |cart| :: cart[i] == 100
    ensures PositiveTotal(cart) == 100 * |cart| && Positives(cart) == |cart|
  {
    if cart != [] {
      Hundreds(cart[..|cart| - 1]);
    }
  }

  lemma SumTight(fs: seq<int>)
    requires |fs| >= 1 && forall i | 0 <= i < |fs| :: fs[i] == if i < |fs| - 1 then 99 else 0
    ensures Sum(fs) == 99 * (|fs| - 1)
  {
    SumConstant(fs[..|fs| - 1], 99);
  }

  lemma {:induction false} SumConstant(xs: seq<int>, c: int)
    requires forall i | 0 <= i < |xs| :: xs[i] == c
    ensures Sum(xs) == c * |xs|
  {
    if xs != [] {
      SumConstant(xs[..|xs| - 1], c);
      assert c * (|xs| - 1) + c == c * |xs|;
    }
  }

  /** The cap also fires on negative subtotals: such a bucket gets its own negative subtotal as
      its share as soon as anything is distributed, and never a negative share otherwise. */
  lemma NegativeShareIff(discount: int, subtotals: seq<int>, i: nat)
    requires i < |subtotals|
    ensures Shares(discount, subtotals)[i] < 0 <==> subtotals[i] < 0 && discount > 0 && PositiveTotal(subtotals) > 0
    ensures Shares(discount, subtotals)[i] < 0 ==> Shares(discount, subtotals)[i] == subtotals[i]
  {
    if discount > 0 && PositiveTotal(subtotals) > 0 {
      FloorNonNegative(discount, subtotals, PositiveTotal(subtotals), i);
    }
  }

  lemma FloorNonNegative(discount: nat, subtotals: seq<int>, total: nat, i: nat)
    requires total > 0 && i < |subtotals|
    ensures Floors(discount, subtotals, total)[i] >= 0
    ensures subtotals[i] < 0 ==> Floors(discount, subtotals, total)[i] == 0
  {
    FloorsAt(discount, subtotals, total, i);
  }

  // ----- Machine integers -----

  const MAX_INT64 := 9223372036854775807

  /** Two's complement wrap-around of a 64-bit result. */
  function Wrap64(x: int): int {
    (x + 0x8000_0000_0000_0000) % 0x1_0000_0000_0000_0000 - 0x8000_0000_0000_0000
  }

  /** Integer division as the machine does it, towards zero. */
  function Trunc(x: int, y: nat): int
    requires y > 0
  {
    if x >= 0 then x / y else -(-x / y)
  }

  /** Up to a cart total of 3037000499 every product of the split fits 64 bits, so the machine's
      floor is the exact one. */
  lemma Int64Exact(discount: nat, subtotals: seq<int>, i: nat)
    requires NonNegative(subtotals) && discount <= PositiveTotal(subtotals) <= 3037000499
    requires i < |subtotals| && PositiveTotal(subtotals) > 0
    ensures Trunc(Wrap64(discount * subtotals[i]), PositiveTotal(subtotals)) == Floor(discount, subtotals[i], PositiveTotal(subtotals))
  {
    PartOfTotal(subtotals, i);
    if subtotals[i] == 0 {
      assert discount * subtotals[i] == 0;
    }
    ProductFits(discount, subtotals[i], PositiveTotal(subtotals));
  }

  lemma ProductFits(d: nat, s: nat, t: nat)
    requires d <= t <= 3037000499 && s <= t && t > 0
    ensures Trunc(Wrap64(d * s), t) == d * s / t
  {
    MulMonotone(d, s, 3037000499);
    MulMonotone(3037000499, d, 3037000499);
    TruncSmall(d * s, t);
  }

  lemma TruncSmall(x: int, t: nat)
    requires 0 <= x <= MAX_INT64 && t > 0
    ensures Trunc(Wrap64(x), t) == x / t
  {
  }

  lemma {:induction false} PartOfTotal(subtotals: seq<int>, i: nat)
    requires i < |subtotals|
    ensures subtotals[i] <= PositiveTotal(subtotals)
  {
    if i < |subtotals| - 1 {
      PartOfTotal(subtotals[..|subtotals| - 1], i);
    }
  }

  /** One yen more and a full discount of a single order wraps to a negative share. */
  lemma Int64Limit()
    ensures Trunc(Wrap64(3037000500 * 3037000500), 3037000500) < 0
  {
  }

  // ----- The loops -----

  /** The proportional split, filled in place. */
  method DistributeDiscount(discount: int, subtotals: seq<int>) returns (out: array<int>)
    ensures fresh(out) && out[..] == Shares(discount, subtotals)
  {
    var n := |subtotals|;
    out := new int[n](i => 0);
    if discount <= 0 || n == 0 {
      return;
    }
    var total := TotalOfPositive(subtotals);
    if total <= 0 {
      return;
    }
    var given := FillFloors(discount, subtotals, total, out);
    ghost var fs := out[..];
    RemainderAndCap(subtotals, out, discount - given, fs);
    SharesFromFloors(discount, subtotals, fs, Pos(discount - given), out[..]);
  }

  lemma SharesFromFloors(discount: nat, subtotals: seq<int>, fs: seq<int>, extra: nat, shares: seq<int>)
    requires discount > 0 && PositiveTotal(subtotals) > 0
    requires fs == Floors(discount, subtotals, PositiveTotal(subtotals)) && extra == Pos(discount - Sum(fs))
    requires |shares| == |subtotals|
    requires forall i | 0 <= i < |subtotals| ::
               shares[i] == Min(fs[i] + if i == LastPositive(subtotals) then extra else 0, subtotals[i])
    ensures shares == Shares(discount, subtotals)
  {
  }

  method TotalOfPositive(subtotals: seq<int>) returns (total: nat)
    ensures total == PositiveTotal(subtotals)
  {
    total := 0;
    for i := 0 to |subtotals|
      invariant total == PositiveTotal(subtotals[..i])
    {
      assert subtotals[..i + 1][..i] == subtotals[..i];
      if subtotals[i] > 0 {
        total := total + subtotals[i];
      }
    }
    assert subtotals[..|subtotals|] == subtotals;
  }

  /** The floor-divided shares; the result is their sum. */
  method FillFloors(discount: nat, subtotals: seq<int>, total: nat, out: array<int>) returns (given: int)
    requires total > 0 && out.Length == |subtotals| && forall i | 0 <= i < out.Length :: out[i] == 0
    modifies out
    ensures out[..] == Floors(discount, subtotals, total) && given == Sum(out[..])
  {
    ghost var fs := Floors(discount, subtotals, total);
    given := 0;
    for i := 0 to |subtotals|
      invariant forall j | 0 <= j < i :: out[j] == fs[j]
      invariant forall j | i <= j < out.Length :: out[j] == 0
      invariant given == Sum(fs[..i])
    {
      assert fs[..i + 1] == fs[..i] + [fs[i]];
      SumAppend(fs[..i], fs[i]);
      FloorsAt(discount, subtotals, total, i);
      if subtotals[i] <= 0 {
        continue;
      }
      assert discount * subtotals[i] >= 0;
      var share := discount * subtotals[i] / total;
      out[i] := share;
      given := given + share;
    }
    assert out[..] == fs && fs[..|fs|] == fs;
  }

  /** The last positive bucket absorbs the rounding error. */
  method AddRemainder(subtotals: seq<int>, out: array<int>, remainder: int)
    requires out.Length == |subtotals|
    modifies out
    ensures forall i | 0 <= i < out.Length ::
              out[i] == old(out[i]) + if i == LastPositive(subtotals) then remainder else 0
  {
    var i := |subtotals| - 1;
    while i >= 0
      invariant LastPositive(subtotals) <= i < |subtotals|
      invariant forall j | 0 <= j < out.Length :: out[j] == old(out[j])
    {
      if subtotals[i] > 0 {
        out[i] := out[i] + remainder;
        break;
      }
      i := i - 1;
    }
  }

  method RemainderAndCap(subtotals: seq<int>, out: array<int>, remainder: int, ghost fs: seq<int>)
    requires out.Length == |subtotals| && out[..] == fs
    modifies out
    ensures forall i | 0 <= i < |subtotals| ::
              out[..][i] == Min(fs[i] + if i == LastPositive(subtotals) then Pos(remainder) else 0, subtotals[i])
  {
    if remainder > 0 {
      AddRemainder(subtotals, out, remainder);
    }
    CapAtSubtotals(subtotals, out);
  }

  /** A share cannot exceed the order it applies to. */
  method CapAtSubtotals(subtotals: seq<int>, out: array<int>)
    requires out.Length == |subtotals|
    modifies out
    ensures forall i | 0 <= i < out.Length :: out[i] == Min(old(out[i]), subtotals[i])
  {
    for i := 0 to |subtotals|
      invariant forall j | 0 <= j < i :: out[j] == Min(old(out[j]), subtotals[j])
      invariant forall j | i <= j < out.Length :: out[j] == old(out[j])
    {
      if out[i] > subtotals[i] {
        out[i] := subtotals[i];
      }
    }
  }

  // ----- Seller-issued coupons -----

  /** The subtotals of one seller's slots, in order. */
  function Matching(sellers: seq<nat>, subtotals: seq<int>, target: nat): seq<int>
    requires |sellers| == |subtotals|
  {
    if sellers == [] then []
    else
      var n := |sellers| - 1;
      Matching(sellers[..n], subtotals[..n], target) + if sellers[n] == target then [subtotals[n]] else []
  }

  /** How many slots before i are the target seller's. */
  function Rank(sellers: seq<nat>, target: nat, i: nat): nat
    requires i <= |sellers|
  {
    if i == 0 then 0 else Rank(sellers, target, i - 1) + if sellers[i - 1] == target then 1 else 0
  }

  lemma {:induction false} RankInMatching(sellers: seq<nat>, subtotals: seq<int>, target: nat, i: nat)
    requires |sellers| == |subtotals| && i <= |sellers|
    ensures Matching(sellers[..i], subtotals[..i], target) <= Matching(sellers, subtotals, target)
    ensures |Matching(sellers[..i], subtotals[..i], target)| == Rank(sellers, target, i)
    decreases |sellers| - i, i
  {
    if i == |sellers| {
      assert sellers[..i] == sellers && subtotals[..i] == subtotals;
      RankIsLength(sellers, subtotals, target, i);
    } else {
      RankInMatching(sellers, subtotals, target, i + 1);
      assert sellers[..i + 1][..i] == sellers[..i] && subtotals[..i + 1][..i] == subtotals[..i];
    }
  }

  lemma {:induction false} RankIsLength(sellers: seq<nat>, subtotals: seq<int>, target: nat, i: nat)
    requires |sellers| == |subtotals| && i <= |sellers|
    ensures |Matching(sellers[..i], subtotals[..i], target)| == Rank(sellers, target, i)
  {
    if i > 0 {
      RankIsLength(sellers, subtotals, target, i - 1);
      assert sellers[..i][..i - 1] == sellers[..i - 1] && subtotals[..i][..i - 1] == subtotals[..i - 1];
    }
  }

  lemma RankAt(sellers: seq<nat>, subtotals: seq<int>, target: nat, i: nat)
    requires |sellers| == |subtotals| && i < |sellers| && sellers[i] == target
    ensures Rank(sellers, target, i) < |Matching(sellers, subtotals, target)|
    ensures Matching(sellers, subtotals, target)[Rank(sellers, target, i)] == subtotals[i]
  {
    RankInMatching(sellers, subtotals, target, i);
    RankInMatching(sellers, subtotals, target, i + 1);
    assert sellers[..i + 1][..i] == sellers[..i] && subtotals[..i + 1][..i] == subtotals[..i];
  }

  /** The share of slot i: nothing unless it is the target's, else the split over the target's
      slots alone. Lists of different lengths are a caller's bug and get zeros. */
  function SellerShare(discount: int, sellers: seq<nat>, subtotals: seq<int>, target: nat, i: nat): int
    requires i < |subtotals|
  {
    if |sellers| != |subtotals| || sellers[i] != target then 0
    else
      RankAt(sellers, subtotals, target, i);
      Shares(discount, Matching(sellers, subtotals, target))[Rank(sellers, target, i)]
  }

  function SellerShares(discount: int, sellers: seq<nat>, subtotals: seq<int>, target: nat): (shares: seq<int>)
    ensures |shares| == |subtotals|
    ensures forall i | 0 <= i < |shares| :: shares[i] == SellerShare(discount, sellers, subtotals, target, i)
  {
    seq(|subtotals|, i requires 0 <= i < |subtotals| => SellerShare(discount, sellers, subtotals, target, i))
  }

  /** The split over one seller's slots, spliced back into the full list. */
  method DistributeSellerDiscount(discount: int, sellers: seq<nat>, subtotals: seq<int>, target: nat)
    returns (out: array<int>)
    ensures fresh(out) && out[..] == SellerShares(discount, sellers, subtotals, target)
  {
    out := new int[|subtotals|](i => 0);
    if |sellers| != |subtotals| {
      return;
    }
    var matchIndex, matchSubtotals := CollectSlots(sellers, subtotals, target);
    ghost var want := SellerShares(discount, sellers, subtotals, target);
    var matchedShares := DistributeDiscount(discount, matchSubtotals);
    for k := 0 to |matchIndex|
      invariant matchedShares[..] == Shares(discount, matchSubtotals)
      invariant forall i | 0 <= i < out.Length ::
                  out[i] == if sellers[i] == target && Rank(sellers, target, i) < k then want[i] else 0
    {
      RankInjective(sellers, target, matchIndex[k], k);
      assert matchedShares[k] == matchedShares[..][k];
      assert want[matchIndex[k]] == SellerShare(discount, sellers, subtotals, target, matchIndex[k]);
      out[matchIndex[k]] := matchedShares[k];
    }
    forall i | 0 <= i < |sellers| && sellers[i] == target
      ensures Rank(sellers, target, i) < |matchIndex|
    {
      RankAt(sellers, subtotals, target, i);
    }
  }

  /** The target's slots and their subtotals. */
  method CollectSlots(sellers: seq<nat>, subtotals: seq<int>, target: nat)
    returns (matchIndex: seq<nat>, matchSubtotals: seq<int>)
    requires |sellers| == |subtotals|
    ensures matchSubtotals == Matching(sellers, subtotals, target) && |matchIndex| == |matchSubtotals|
    ensures forall k | 0 <= k < |matchIndex| ::
              matchIndex[k] < |sellers| && sellers[matchIndex[k]] == target && Rank(sellers, target, matchIndex[k]) == k
  {
    matchIndex, matchSubtotals := [], [];
    for i := 0 to |sellers|
      invariant matchSubtotals == Matching(sellers[..i], subtotals[..i], target)
      invariant |matchIndex| == |matchSubtotals| == Rank(sellers, target, i)
      invariant forall k | 0 <= k < |matchIndex| ::
                  matchIndex[k] < i && sellers[matchIndex[k]] == target && Rank(sellers, target, matchIndex[k]) == k
    {
      assert sellers[..i + 1][..i] == sellers[..i] && subtotals[..i + 1][..i] == subtotals[..i];
      if sellers[i] == target {
        matchIndex := matchIndex + [i];
        matchSubtotals := matchSubtotals + [subtotals[i]];
      }
    }
    assert sellers[..|sellers|] == sellers && subtotals[..|subtotals|] == subtotals;
  }

  lemma RankInjective(sellers: seq<nat>, target: nat, i: nat, k: nat)
    requires i < |sellers| && sellers[i] == target && Rank(sellers, target, i) == k
    ensures forall j | 0 <= j < |sellers| && sellers[j] == target && Rank(sellers, target, j) == k :: j == i
  {
    forall j | 0 <= j < |sellers| && sellers[j] == target && j != i
      ensures Rank(sellers, target, j) != k
    {
      RankGrows(sellers, target, if j < i then j else i, if j < i then i else j);
    }
  }

  lemma {:induction false} RankGrows(sellers: seq<nat>, target: nat, i: nat, j: nat)
    requires i < j < |sellers| && sellers[i] == target
    ensures Rank(sellers, target, i) < Rank(sellers, target, j)
  {
    if i < j - 1 {
      RankGrows(sellers, target, i, j - 1);
    }
  }

  /** Nothing leaks to other sellers and nothing is lost on the way back: the shares sum to those
      of the target's own split. */
  lemma {:induction false} SellerSharesSum(shares: seq<int>, sellers: seq<nat>, subtotals: seq<int>, target: nat, n: nat)
    requires |sellers| == |subtotals| && n <= |sellers|
    requires |shares| == |Matching(sellers, subtotals, target)|
    ensures Rank(sellers, target, n) <= |shares|
    ensures Sum(seq(n, i requires 0 <= i < n => Spliced(shares, sellers, target, i))) == Sum(shares[..Rank(sellers, target, n)])
  {
    RankInMatching(sellers, subtotals, target, n);
    var f := i requires 0 <= i < n => Spliced(shares, sellers, target, i);
    if n > 0 {
      SellerSharesSum(shares, sellers, subtotals, target, n - 1);
      var m := n - 1;
      assert seq(n, f)[..m] == seq(m, i requires 0 <= i < m => Spliced(shares, sellers, target, i));
      var r := Rank(sellers, target, m);
      if sellers[m] == target {
        assert shares[..r + 1][..r] == shares[..r];
      }
    }
  }

  function Spliced(shares: seq<int>, sellers: seq<nat>, target: nat, i: nat): int {
    if i < |sellers| && sellers[i] == target && Rank(sellers, target, i) < |shares|
    then shares[Rank(sellers, target, i)] else 0
  }

  lemma SellerConserves(discount: int, sellers: seq<nat>, subtotals: seq<int>, target: nat)
    requires |sellers| == |subtotals|
    ensures Sum(SellerShares(discount, sellers, subtotals, target)) == Sum(Shares(discount, Matching(sellers, subtotals, target)))
    ensures forall i | 0 <= i < |sellers| && sellers[i] != target :: SellerShares(discount, sellers, subtotals, target)[i] == 0
  {
    var shares, n := Shares(discount, Matching(sellers, subtotals, target)), |sellers|;
    SellerSharesSum(shares, sellers, subtotals, target, n);
    RankInMatching(sellers, subtotals, target, n);
    assert sellers[..n] == sellers && subtotals[..n] == subtotals;
    assert shares[..|shares|] == shares;
    forall i | 0 <= i < n
      ensures SellerShare(discount, sellers, subtotals, target, i) == Spliced(shares, sellers, target, i)
    {
      if sellers[i] == target {
        RankAt(sellers, subtotals, target, i);
      }
    }
    assert SellerShares(discount, sellers, subtotals, target) == seq(n, i requires 0 <= i < n => Spliced(shares, sellers, target, i));
  }

  lemma SellerShareBounds(discount: int, sellers: seq<nat>, subtotals: seq<int>, target: nat)
    requires NonNegative(subtotals)
    ensures forall i | 0 <= i < |subtotals| :: 0 <= SellerShares(discount, sellers, subtotals, target)[i] <= subtotals[i]
  {
    forall i | 0 <= i < |subtotals|
      ensures 0 <= SellerShare(discount, sellers, subtotals, target, i) <= subtotals[i]
    {
      if |sellers| == |subtotals| && sellers[i] == target {
        RankAt(sellers, subtotals, target, i);
        MatchingNonNegative(sellers, subtotals, target);
        ShareBounds(discount, Matching(sellers, subtotals, target));
      }
    }
  }

  lemma {:induction false} MatchingNonNegative(sellers: seq<nat>, subtotals: seq<int>, target: nat)
    requires |sellers| == |subtotals| && NonNegative(subtotals)
    ensures NonNegative(Matching(sellers, subtotals, target))
  {
    if sellers != [] {
      var n := |sellers| - 1;
      MatchingNonNegative(sellers[..n], subtotals[..n], target);
    }
  }
}
