/** Optional values: JavaScript's `null` for an absent attribute, timer or position. */
module Wrappers {
  datatype Option<+T> = None | Some(value: T)
}

/**
 * The two-argument `Math.max` / `Math.min` the script uses. JavaScript has a
 * single number type; here the clamps on pixel coordinates and on the frame
 * index work on `int`, and the clamps on speed and duration work on `real`,
 * so each function comes in both types.
 */
module JsMath {
  function MaxInt(a: int, b: int): (r: int)
    ensures r >= a && r >= b && (r == a || r == b)
  {
    if a >= b then a else b
  }

  function MinInt(a: int, b: int): (r: int)
    ensures r <= a && r <= b && (r == a || r == b)
  {
    if a <= b then a else b
  }

  function Max(a: real, b: real): (r: real)
    ensures r >= a && r >= b && (r == a || r == b)
  {
    if a >= b then a else b
  }

  function Min(a: real, b: real): (r: real)
    ensures r <= a && r <= b && (r == a || r == b)
  {
    if a <= b then a else b
  }
}
