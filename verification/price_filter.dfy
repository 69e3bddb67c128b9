/** The step buttons of the price slider (src/components/PriceFilter.tsx). */
module PriceFilter {
  /** The slider's step and the buttons' step. */
  const STEP: real := 10.0

  datatype Range = Range(low: real, high: real)

  function Max(a: real, b: real): (r: real)
    ensures r >= a && r >= b && (r == a || r == b)
  {
    if a >= b then a else b
  }

  function Min(a: real, b: real): (r: real)
    ensures r <= a && r <= b && (r == a || r == b)
  {
    if a <= b then a else b
  }

  /** The decrease button: the lower thumb moves down one step, not below `min`. */
  function Decrease(min: real, v: Range): (r: Range)
    ensures r.high == v.high
    ensures r.low >= min && r.low >= v.low - STEP
    ensures r.low == min || r.low == v.low - STEP
  {
    Range(Max(min, v.low - STEP), v.high)
  }

  /** The increase button: the upper thumb moves up one step, not above `max`. */
  function Increase(max: real, v: Range): (r: Range)
    ensures r.low == v.low
    ensures r.high <= max && r.high <= v.high + STEP
    ensures r.high == max || r.high == v.high + STEP
  {
    Range(v.low, Min(max, v.high + STEP))
  }

  /** The decrease button is disabled exactly when a press would not lower the thumb. */
  function DecreaseDisabled(min: real, v: Range): (disabled: bool)
    ensures disabled <==> Decrease(min, v).low >= v.low
  {
    v.low <= min
  }

  /** The increase button is disabled exactly when a press would not raise the thumb. */
  function IncreaseDisabled(max: real, v: Range): (disabled: bool)
    ensures disabled <==> Increase(max, v).high <= v.high
  {
    v.high >= max
  }

  predicate WithinBounds(min: real, max: real, v: Range) {
    min <= v.low <= v.high <= max
  }

  /** From a range inside `[min, max]`, both buttons keep the range inside it. */
  lemma ButtonsKeepBounds(min: real, max: real, v: Range)
    requires WithinBounds(min, max, v)
    ensures WithinBounds(min, max, Decrease(min, v))
    ensures WithinBounds(min, max, Increase(max, v))
  {
  }

  /** An enabled button makes progress: the moved thumb strictly moves outwards and
      stops at the bound at the latest; a disabled button's thumb is at (or past) the
      bound already. */
  lemma EnabledButtonsMove(min: real, max: real, v: Range)
    ensures !DecreaseDisabled(min, v) ==> min <= Decrease(min, v).low < v.low
    ensures !IncreaseDisabled(max, v) ==> v.high < Increase(max, v).high <= max
    ensures DecreaseDisabled(min, v) && v.low == min ==> Decrease(min, v) == v
    ensures IncreaseDisabled(max, v) && v.high == max ==> Increase(max, v) == v
  {
  }
}
