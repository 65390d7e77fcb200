/** `round(x, 2)`, taken on the exact value of `x`: the nearest hundredth,
    a tie going to the even hundredth as Python's `round` does. */
module Rounding {

  function Abs(x: real): real {
    if x < 0.0 then -x else x
  }

  /** The number of hundredths `round(x, 2)` yields. */
  function Hundredths(x: real): (m: int)
    ensures x * 100.0 - 0.5 <= m as real <= x * 100.0 + 0.5
  {
    var y := x * 100.0;
    var n := y.Floor;
    var f := y - n as real;
    if f > 0.5 then n + 1
    else if f < 0.5 then n
    else if n % 2 == 0 then n
    else n + 1
  }

  function Round2(x: real): (r: real)
    ensures x - 0.005 <= r <= x + 0.005
  {
    Hundredths(x) as real / 100.0
  }

  /** No hundredth is nearer to `x` than `Round2(x)`. */
  lemma Round2Nearest(x: real, k: int)
    ensures Abs(Round2(x) - x) <= Abs(k as real / 100.0 - x)
  {
    var y := x * 100.0;
    var n := y.Floor;
    var m := Hundredths(x);
    assert n as real <= y < n as real + 1.0;
    assert m == n || m == n + 1;
    if k <= n {
      assert k as real <= n as real;
    } else {
      assert k >= n + 1;
    }
  }

  /** A tie goes to the even neighbour. */
  lemma Round2Tie(x: real)
    requires x * 100.0 - (x * 100.0).Floor as real == 0.5
    ensures Hundredths(x) % 2 == 0
    ensures Abs(Round2(x) - x) == 0.005
  {
  }

  /** A value that is already a whole number of hundredths is left alone. */
  lemma Round2Exact(m: int)
    ensures Round2(m as real / 100.0) == m as real / 100.0
  {
    var y := (m as real / 100.0) * 100.0;
    assert y == m as real;
    assert y.Floor == m;
  }

  /** Rounding twice is rounding once. */
  lemma Round2Idempotent(x: real)
    ensures Round2(Round2(x)) == Round2(x)
  {
    Round2Exact(Hundredths(x));
  }
}
