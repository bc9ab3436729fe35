/** Failure-compatible results and the few IEEE-754 values the engine can observe. */
module Outcomes {

  /** The run-time errors the Python engine can raise on the paths modelled here. */
  datatype Failure =
    | ZeroDivision      // ZeroDivisionError: a Python division by an int or float zero
    | EmptyRange        // ValueError from random.randint(0, -1) on an empty ensemble
    | TooFewDataPoints  // statistics.StatisticsError: stdev of fewer than two values
    | NotIterable       // TypeError: unpacking a bound method that was never called
    | IndexOutOfRange   // IndexError: a list index outside -len .. len - 1

  datatype Result<T> = Ok(value: T) | Err(error: Failure)

  datatype Option<T> = None | Some(value: T)

  datatype Outcome = Pass | Fail(error: Failure)

  /** A float as the engine sees it: finite, +infinity (math.inf, x/0 for x != 0) or NaN (0/0). */
  datatype Float = Num(value: real) | Inf | NaN

  /** IEEE comparison `f <= t` against a finite threshold: false for +inf and for NaN. */
  predicate AtMost(f: Float, t: real)
  {
    f.Num? && f.value <= t
  }

  function Abs(x: real): (r: real)
    ensures r >= 0.0 && (r == x || r == -x)
  {
    if x < 0.0 then -x else x
  }
}
