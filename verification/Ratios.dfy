/** When two prices count as equal: nearlyEqual in controller/ratio_sync.go, on real numbers. */
module Ratios {

  const EPSILON: real := 0.000000001

  function Distance(a: real, b: real): real {
    if a > b then a - b else b - a
  }

  predicate NearlyEqual(a: real, b: real) {
    Distance(a, b) < EPSILON
  }
}
