/** Prices are exact reals; Python's `round(x, 2)` becomes rounding to the
    nearest cent, ties going to the even cent. */
module Money {

  function Abs(x: real): real {
    if x < 0.0 then -x else x
  }

  /** The amount is a whole number of cents. */
  predicate IsCents(x: real) {
    (x * 100.0).Floor as real == x * 100.0
  }

  /** Python's `round(y)`: the nearest integer, a tie going to the even one. */
  function RoundHalfEven(y: real): (n: int)
    ensures Abs(n as real - y) <= 0.5
    ensures Abs(n as real - y) == 0.5 ==> n % 2 == 0
    ensures y.Floor as real == y ==> n == y.Floor
  {
    var f := y.Floor;
    var frac := y - f as real;
    if frac < 0.5 then f
    else if frac > 0.5 then f + 1
    else if f % 2 == 0 then f
    else f + 1
  }

  /** No integer is nearer to `y` than the rounded value. */
  lemma RoundHalfEvenIsNearest(y: real, m: int)
    ensures Abs(RoundHalfEven(y) as real - y) <= Abs(m as real - y)
  {
    var f := y.Floor;
    assert f as real <= y < f as real + 1.0;
    if m <= f {
      assert Abs(m as real - y) == y - m as real;
    } else {
      assert m >= f + 1;
      assert Abs(m as real - y) == m as real - y;
    }
  }

  /** `round(x, 2)`: `x` rounded to the nearest cent, ties to the even cent. */
  function Round2(x: real): (r: real)
    ensures IsCents(r)
    ensures Abs(r - x) <= 0.005
    ensures x >= 0.0 ==> r >= 0.0
    ensures IsCents(x) ==> r == x
    ensures Abs(r - x) == 0.005 ==> (r * 100.0).Floor % 2 == 0
  {
    var n := RoundHalfEven(x * 100.0);
    var r := n as real / 100.0;
    assert r * 100.0 == n as real;
    assert r - x == (n as real - x * 100.0) / 100.0;
    assert Abs(r - x) == Abs(n as real - x * 100.0) / 100.0;
    r
  }

  /** No whole number of cents is nearer to `x` than `round(x, 2)`. */
  lemma Round2IsNearestCent(x: real, cents: int)
    ensures Abs(Round2(x) - x) <= Abs(cents as real / 100.0 - x)
  {
    var n := RoundHalfEven(x * 100.0);
    RoundHalfEvenIsNearest(x * 100.0, cents);
    assert Round2(x) - x == (n as real - x * 100.0) / 100.0;
    assert cents as real / 100.0 - x == (cents as real - x * 100.0) / 100.0;
  }
}
