/** Three-component vectors and the flat buffer layout that stores them. */
module Vectors {

  datatype Vec3 = Vec3(x: real, y: real, z: real)

  function Add(a: Vec3, b: Vec3): Vec3
  {
    Vec3(a.x + b.x, a.y + b.y, a.z + b.z)
  }

  function Sub(a: Vec3, b: Vec3): Vec3
  {
    Vec3(a.x - b.x, a.y - b.y, a.z - b.z)
  }

  function Scale(a: Vec3, k: real): Vec3
  {
    Vec3(a.x * k, a.y * k, a.z * k)
  }

  /** Squared Euclidean length. */
  function Norm2(a: Vec3): real
  {
    a.x * a.x + a.y * a.y + a.z * a.z
  }

  /** Scaling a vector by `k` scales its squared length by `k * k`. */
  lemma Norm2OfScale(a: Vec3, k: real)
    ensures Norm2(Scale(a, k)) == Norm2(a) * (k * k)
  {
    assert (a.x * k) * (a.x * k) == (a.x * a.x) * (k * k);
    assert (a.y * k) * (a.y * k) == (a.y * a.y) * (k * k);
    assert (a.z * k) * (a.z * k) == (a.z * a.z) * (k * k);
  }

  /** Item `i` of a flat buffer with item size 3, read as components
      `3*i`, `3*i+1`, `3*i+2` (getX/getY/getZ of a buffer attribute). */
  function Item(buf: seq<real>, i: nat): Vec3
    requires 3 * i + 2 < |buf|
  {
    Vec3(buf[3 * i], buf[3 * i + 1], buf[3 * i + 2])
  }
}
