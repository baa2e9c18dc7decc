/**
 Decimal numbers with 8 places. A real is in natural units; ticks count units of
 10^-8. Decimal division is taken as exact.
 */
module Decimals {

  const SCALE: real := 100_000_000.0

  function Dec(ticks: int): real {
    ticks as real / SCALE
  }

  /** Cuts to 8 places, towards zero. */
  function ToTicks(x: real): int {
    if x >= 0.0 then (x * SCALE).Floor else -((-x * SCALE).Floor)
  }

  function ToDecimal(x: real): real {
    Dec(ToTicks(x))
  }

  /** An 8-place number is kept as it is. */
  lemma {:induction false} ToTicksOfDec(n: int)
    ensures ToTicks(Dec(n)) == n
    ensures n <= 0 ==> Dec(n) <= 0.0
    ensures n >= 0 ==> Dec(n) >= 0.0
  {
    assert Dec(n) * SCALE == n as real;
    assert -Dec(n) * SCALE == (-n) as real;
    assert (n as real).Floor == n && ((-n) as real).Floor == -n;
  }

  lemma {:induction false} DecMonotone(a: int, b: int)
    ensures a <= b <==> Dec(a) <= Dec(b)
    ensures a == b <==> Dec(a) == Dec(b)
  {
  }

  /** Cutting loses less than 10^-8, towards zero from both sides, and nothing of an 8-place number. */
  lemma {:induction false} CutLoss(x: real)
    ensures x >= 0.0 ==> 0.0 <= ToDecimal(x) <= x < ToDecimal(x) + 0.00000001
    ensures x <= 0.0 ==> 0.0 >= ToDecimal(x) >= x > ToDecimal(x) - 0.00000001
    ensures ToDecimal(ToDecimal(x)) == ToDecimal(x)
  {
    var y := x * SCALE;
    assert y.Floor as real <= y < y.Floor as real + 1.0;
    assert (-y).Floor as real <= -y < (-y).Floor as real + 1.0;
    assert x == y / SCALE && -x * SCALE == -y;
    ToTicksOfDec(ToTicks(x));
  }

  lemma {:induction false} ToTicksMonotone(x: real, y: real)
    requires x <= y
    ensures ToTicks(x) <= ToTicks(y)
  {
    if 0.0 <= x {
      assert x * SCALE <= y * SCALE;
    } else if y < 0.0 {
      assert -y * SCALE <= -x * SCALE;
    }
  }

  lemma {:induction false} RealProduct(a: int, b: int)
    ensures (a * b) as real == (a as real) * (b as real)
  {
  }
}
