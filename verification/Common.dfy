/** Small definitions shared by every module of the model. */
module Common {
  datatype Option<+T> = None | Some(value: T)

  /** Wall-clock instants; only comparisons and offsets are used. */
  type Time = int

  function Min(x: int, y: int): int {
    if x < y then x else y
  }

  /** The positive part of x. */
  function Pos(x: int): nat {
    if x > 0 then x else 0
  }

  function Sum(xs: seq<int>): int {
    if xs == [] then 0 else Sum(xs[..|xs| - 1]) + xs[|xs| - 1]
  }

  lemma SumAppend(xs: seq<int>, x: int)
    ensures Sum(xs + [x]) == Sum(xs) + x
  {
    assert (xs + [x])[..|xs|] == xs;
  }

  lemma {:induction false} SumConcat(xs: seq<int>, ys: seq<int>)
    ensures Sum(xs + ys) == Sum(xs) + Sum(ys)
  {
    if ys == [] {
      assert xs + ys == xs;
    } else {
      var init, last := ys[..|ys| - 1], ys[|ys| - 1];
      assert xs + ys == xs + init + [last];
      SumAppend(xs + init, last);
      SumConcat(xs, init);
    }
  }
}
