/** Two-dimensional vectors over the reals, standing in for danogl's float `Vector2`. */
module Geometry {

  datatype Vec = Vec(x: real, y: real)

  const Zero := Vec(0.0, 0.0)

  function Add(a: Vec, b: Vec): Vec {
    Vec(a.x + b.x, a.y + b.y)
  }

  function Mult(v: Vec, k: real): Vec {
    Vec(v.x * k, v.y * k)
  }

  /** The centre of an axis-aligned box given its top-left corner and its size. */
  function CentreOf(topLeft: Vec, size: Vec): Vec {
    Add(topLeft, Mult(size, 0.5))
  }

  /** The top-left corner that puts the centre of a box of `size` at `centre` (`setCenter`). */
  function TopLeftFor(centre: Vec, size: Vec): (r: Vec)
    ensures CentreOf(r, size) == centre
  {
    Vec(centre.x - size.x * 0.5, centre.y - size.y * 0.5)
  }
}
