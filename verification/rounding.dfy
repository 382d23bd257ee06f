/** The numeric helpers of bitget/utils.py, in exact real arithmetic. */
module Rounding {
  import opened Results

  function Abs(x: real): real {
    if x < 0.0 then -x else x
  }

  /** Python 3's `round(x)`: the nearest integer, and on an exact tie the even one. */
  function RoundHalfEven(x: real): (n: int)
    ensures n as real - x <= 0.5 && x - n as real <= 0.5
    ensures Abs(x - n as real) == 0.5 ==> n % 2 == 0
  {
    var f := x.Floor;
    var frac := x - f as real;
    if frac < 0.5 then f
    else if frac > 0.5 then f + 1
    else if f % 2 == 0 then f
    else f + 1
  }

  /** The two properties above single out one integer: they are a complete specification of
      Python's rounding. */
  lemma RoundHalfEvenUnique(x: real, m: int)
    requires m as real - x <= 0.5 && x - m as real <= 0.5
    requires Abs(x - m as real) == 0.5 ==> m % 2 == 0
    ensures m == RoundHalfEven(x)
  {
  }

  /** `x` is an integer multiple of the non-zero `increment`. */
  predicate IsMultipleOf(x: real, increment: real) {
    increment != 0.0 && (x / increment).Floor as real == x / increment
  }

  lemma AbsOfProduct(d: real, increment: real)
    ensures Abs(d * increment) == Abs(d) * Abs(increment)
  {
    if d < 0.0 && increment < 0.0 {
      assert d * increment == (-d) * (-increment);
    } else if d < 0.0 {
      assert -(d * increment) == (-d) * increment;
    } else if increment < 0.0 {
      assert -(d * increment) == d * (-increment);
    }
  }

  /** Multiplying back by the increment undoes the division by it. */
  lemma Rescale(value: real, n: int, increment: real)
    requires increment != 0.0
    ensures (n as real * increment) / increment == n as real
    ensures n as real * increment - value == (n as real - value / increment) * increment
  {
    var q := value / increment;
    assert q * increment == value;
  }

  /** A distance that is a fraction `e <= 1/2` of a positive step is at most half the step,
      and exactly half only when `e` is exactly one half. */
  lemma FractionOfStep(dist: real, e: real, step: real)
    requires step > 0.0 && 0.0 <= e <= 0.5 && dist == e * step
    ensures dist <= step / 2.0
    ensures dist == step / 2.0 ==> e == 0.5
  {
    assert step / 2.0 == 0.5 * step;
    assert dist - step / 2.0 == (e - 0.5) * step;
  }

  /** The distance from `n * increment` to `value` is the distance from `n` to
      `value / increment`, scaled by the increment's size. */
  lemma SnapDistance(value: real, increment: real, n: int)
    requires increment != 0.0
    ensures (n as real * increment) / increment == n as real
    ensures Abs(n as real * increment - value) == Abs(n as real - value / increment) * Abs(increment)
  {
    Rescale(value, n, increment);
    AbsOfProduct(n as real - value / increment, increment);
  }

  /** `round(value / increment) * increment` for a non-zero increment. */
  function Snap(value: real, increment: real): (r: real)
    requires increment != 0.0
    ensures IsMultipleOf(r, increment)
    ensures Abs(r - value) <= Abs(increment) / 2.0
    ensures Abs(r - value) == Abs(increment) / 2.0 ==> (r / increment).Floor % 2 == 0
  {
    var n := RoundHalfEven(value / increment);
    var r := n as real * increment;
    SnapDistance(value, increment, n);
    var d := n as real - value / increment;
    assert Abs(d) == Abs(value / increment - n as real);
    FractionOfStep(Abs(r - value), Abs(d), Abs(increment));
    assert (n as real).Floor == n;
    r
  }

  /** `round_to_increment(value, increment)`: the division raises ZeroDivisionError for a zero
      increment; otherwise the nearest multiple of the increment, ties to the even multiple. */
  function RoundToIncrement(value: real, increment: real): (r: Result<real>)
    ensures r.Failure? <==> increment == 0.0
    ensures r.Failure? ==> r.error == ZeroDivision
    ensures r.Success? ==> IsMultipleOf(r.value, increment)
    ensures r.Success? ==> Abs(r.value - value) <= Abs(increment) / 2.0
    ensures r.Success? && Abs(r.value - value) == Abs(increment) / 2.0 ==>
              (r.value / increment).Floor % 2 == 0
  {
    if increment == 0.0 then Failure(ZeroDivision) else Success(Snap(value, increment))
  }

  /** A value already on the grid is left where it is. */
  lemma SnapFixesMultiples(value: real, increment: real)
    requires IsMultipleOf(value, increment)
    ensures Snap(value, increment) == value
  {
    var k := (value / increment).Floor;
    assert RoundHalfEven(value / increment) == k;
    assert value == k as real * increment;
  }

  /** Rounding twice is rounding once. */
  lemma RoundToIncrementIdempotent(value: real, increment: real)
    requires increment != 0.0
    ensures RoundToIncrement(RoundToIncrement(value, increment).value, increment)
            == RoundToIncrement(value, increment)
  {
    SnapFixesMultiples(Snap(value, increment), increment);
  }

  /** Rounding goes to the nearest multiple, so it may go up: 0.6 contracts become 1. */
  lemma RoundToIncrementMayRoundUp()
    ensures RoundToIncrement(0.6, 1.0) == Success(1.0)
    ensures RoundToIncrement(2.5, 1.0) == Success(2.0)
    ensures RoundToIncrement(1.5, 1.0) == Success(2.0)
  {
    assert RoundHalfEven(0.6) == 1;
    assert RoundHalfEven(2.5) == 2;
    assert RoundHalfEven(1.5) == 2;
  }

  /** `format_price(price, tick_size)` and `format_size(size, base_increment)`, which are the
      same function: the value rounded to the increment, as text. How a number is printed is
      the parameter `render`. */
  function FormatRounded(render: real -> string, value: real, increment: real)
    : (r: Result<string>)
    ensures r.Failure? <==> increment == 0.0
    ensures r.Failure? ==> r.error == ZeroDivision
    ensures r.Success? ==>
              exists v :: r.value == render(v) && IsMultipleOf(v, increment)
                          && Abs(v - value) <= Abs(increment) / 2.0
  {
    match RoundToIncrement(value, increment)
    case Failure(e) => Failure(e)
    case Success(v) => Success(render(v))
  }

  /** A value already on the grid is printed as it is. */
  lemma FormatRoundedOnGrid(render: real -> string, value: real, increment: real)
    requires IsMultipleOf(value, increment)
    ensures FormatRounded(render, value, increment) == Success(render(value))
  {
    SnapFixesMultiples(value, increment);
  }

  /** `calculate_position_size`: the first division by the entry price raises for a zero entry;
      otherwise `risk_amount * leverage / entry_price`. */
  function CalculatePositionSize(entry: real, stopLoss: real, riskAmount: real, leverage: real)
    : (r: Result<real>)
    ensures r.Failure? <==> entry == 0.0
    ensures r.Failure? ==> r.error == ZeroDivision
    ensures r.Success? ==> r.value * entry == riskAmount * leverage
  {
    if entry == 0.0 then Failure(ZeroDivision)
    else
      var priceRisk := Abs(entry - stopLoss);
      var riskPercentage := priceRisk / entry;
      Success(riskAmount * leverage / entry)
  }

  /** The stop-loss price is computed with but never used: it cannot change the size. */
  lemma PositionSizeIgnoresStop(entry: real, stop1: real, stop2: real, riskAmount: real, leverage: real)
    ensures CalculatePositionSize(entry, stop1, riskAmount, leverage)
            == CalculatePositionSize(entry, stop2, riskAmount, leverage)
  {
  }
}
