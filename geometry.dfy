/** Exact-arithmetic counterparts of the drawing layer's vector and rectangle types
    (DVec2, Vec4, Rect). Coordinates are `real`: floating-point rounding is not modelled. */
module Geometry {

  /** A point or a displacement in the plane. */
  datatype Vec2 = Vec2(x: real, y: real) {
    function Plus(o: Vec2): Vec2 { Vec2(x + o.x, y + o.y) }
    function Minus(o: Vec2): Vec2 { Vec2(x - o.x, y - o.y) }
    function Times(k: real): Vec2 { Vec2(x * k, y * k) }
  }

  /** An RGBA colour; only carried from configuration to the draw call. */
  datatype Vec4 = Vec4(r: real, g: real, b: real, a: real)

  /** An axis-aligned rectangle: top-left corner and size. */
  datatype Rect = Rect(pos: Vec2, size: Vec2)

  /** The axis a diagonal stroke is decomposed along. */
  datatype Axis = XAxis | YAxis

  /** Strictly positive reals (a block size, for instance). */
  type Pos = r: real | r > 0.0 witness 1.0

  function Abs(v: real): (r: real)
    ensures r >= 0.0 && (r == v || r == -v)
  {
    if v < 0.0 then -v else v
  }

  function Min(a: real, b: real): (r: real)
    ensures r <= a && r <= b && (r == a || r == b)
  {
    if a <= b then a else b
  }

  function Max(a: real, b: real): (r: real)
    ensures r >= a && r >= b && (r == a || r == b)
  {
    if a >= b then a else b
  }

  /** The smallest integer not below `v` (f64::ceil). */
  function Ceil(v: real): (n: int)
    ensures n as real - 1.0 < v <= n as real
  {
    -((-v).Floor)
  }

  /** Squared Euclidean length; lengths themselves need a square root, which is not modelled. */
  function SqLen(v: Vec2): (r: real)
    ensures r >= 0.0
  {
    SquareNonNegative(v.x);
    SquareNonNegative(v.y);
    v.x * v.x + v.y * v.y
  }

  lemma SquareNonNegative(v: real)
    ensures v * v >= 0.0
  {
  }

  lemma MulPositive(a: real, b: real)
    requires a > 0.0 && b > 0.0
    ensures a * b > 0.0
  {
  }

  /** The coordinate of `v` along `axis`. */
  function Along(v: Vec2, axis: Axis): real {
    if axis == XAxis then v.x else v.y
  }

  /** The coordinate of `v` across `axis`. */
  function Across(v: Vec2, axis: Axis): real {
    if axis == XAxis then v.y else v.x
  }

  /** The vector with the given coordinates along and across `axis`. */
  function OnAxes(axis: Axis, along: real, across: real): (v: Vec2)
    ensures Along(v, axis) == along && Across(v, axis) == across
  {
    if axis == XAxis then Vec2(along, across) else Vec2(across, along)
  }
}
