/** Points and vectors on the table: the `Point` and `Vector` types of the
    game, both a pair of real coordinates. */
module Geometry {

  datatype Vec = Vec(x: real, y: real)

  const Zero: Vec := Vec(0.0, 0.0)

  function Add(a: Vec, b: Vec): Vec { Vec(a.x + b.x, a.y + b.y) }

  function Sub(a: Vec, b: Vec): Vec { Vec(a.x - b.x, a.y - b.y) }

  function Scale(k: real, a: Vec): Vec { Vec(k * a.x, k * a.y) }

  function Dot(a: Vec, b: Vec): real { a.x * b.x + a.y * b.y }

  /** The squared Euclidean length; the model compares squared lengths
      where the game compares `Math.sqrt` results. */
  function LenSq(a: Vec): real { a.x * a.x + a.y * a.y }

  /** The squared distance between two centres. */
  function SqDist(p: Vec, q: Vec): real { LenSq(Sub(p, q)) }

  /** `Math.sign`: 1, -1 or 0. */
  function Sign(r: real): real { if r > 0.0 then 1.0 else if r < 0.0 then -1.0 else 0.0 }

  function Abs(r: real): real { if r < 0.0 then -r else r }

  lemma LenSqNonNegative(a: Vec)
    ensures LenSq(a) >= 0.0
  {
    assert a.x * a.x >= 0.0;
    assert a.y * a.y >= 0.0;
  }
}
