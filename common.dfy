/** Types shared by both editors: optional values, results, layer ids and the cursor mode. */
module Common {

  datatype Option<+T> = None | Some(value: T) {
    function GetOr(default: T): T {
      match this
      case Some(v) => v
      case None => default
    }
  }

  datatype Result<+R, +E> = Ok(value: R) | Err(error: E)

  /** A layer id: an opaque string, unique among the live layers. */
  type Id = string

  /** The editing mode shared by both editors. */
  datatype Cursor = Default | Pen | Select | Expand

  /** A 2-D point or offset in screen or canvas space. */
  datatype Point = Point(x: real, y: real)

  /** Width and height of a box. */
  datatype Size = Size(width: real, height: real)

  function Min(a: real, b: real): real { if a <= b then a else b }
  function Max(a: real, b: real): real { if a >= b then a else b }

  /** `Math.min(Math.max(lo, v), hi)`: v clamped into [lo, hi]. */
  function Clamp(lo: real, hi: real, v: real): (r: real)
    requires lo <= hi
    ensures lo <= r <= hi
    ensures lo <= v <= hi ==> r == v
    ensures v < lo ==> r == lo
    ensures v > hi ==> r == hi
  {
    Min(Max(lo, v), hi)
  }

  /** `Math.round`: the nearest integer, halves rounded up. */
  function Round(x: real): (r: int)
    ensures r as real <= x + 0.5 < r as real + 1.0
  {
    (x + 0.5).Floor
  }
}
