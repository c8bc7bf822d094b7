/** Plane vectors over exact reals, used for positions, velocities and
    accelerations (the source keeps them as separate `x`/`y` floats). */
module Vectors {

  datatype Vec = Vec(x: real, y: real)

  function Add(u: Vec, v: Vec): Vec {
    Vec(u.x + v.x, u.y + v.y)
  }

  function Sub(u: Vec, v: Vec): Vec {
    Vec(u.x - v.x, u.y - v.y)
  }

  function Scale(k: real, v: Vec): Vec {
    Vec(k * v.x, k * v.y)
  }

  function Dot(u: Vec, v: Vec): real {
    u.x * v.x + u.y * v.y
  }
}
