/**
 * The constant table of wall normals and tangents (enum `WallVersor`):
 * each wall has a unit normal `en` and a unit tangent `et`.
 */
module WallVersor {
  import opened Vectors

  datatype Wall = Left | Right | Down

  /** `getEn()`: the wall's normal. */
  function En(w: Wall): Vec {
    match w
    case Left => Vec(1.0, 0.0)
    case Right => Vec(-1.0, 0.0)
    case Down => Vec(0.0, 1.0)
  }

  /** `getEt()`: the wall's tangent. */
  function Et(w: Wall): Vec {
    match w
    case Left => Vec(0.0, 1.0)
    case Right => Vec(0.0, -1.0)
    case Down => Vec(-1.0, 0.0)
  }

  /** The tangent convention used for particle pairs: `et = (-en.y, en.x)`. */
  function Perp(en: Vec): Vec {
    Vec(-en.y, en.x)
  }

  /** Every vector of the table is a unit vector. */
  lemma TableIsUnit(w: Wall)
    ensures Dot(En(w), En(w)) == 1.0
    ensures Dot(Et(w), Et(w)) == 1.0
  {
    match w
    case Left =>
    case Right =>
    case Down =>
  }

  /** Normal and tangent are orthogonal, and the tangent is the normal turned
      a quarter turn counter-clockwise, as for particle pairs. */
  lemma TableIsOrthonormalFrame(w: Wall)
    ensures Dot(En(w), Et(w)) == 0.0
    ensures Et(w) == Perp(En(w))
  {
    match w
    case Left =>
    case Right =>
    case Down =>
  }

  /** The normals point into the domain: the left wall pushes towards +x, the
      right wall towards -x and the floor towards +y. */
  lemma NormalsPointInward()
    ensures En(Left).x > 0.0 && En(Left).y == 0.0
    ensures En(Right).x < 0.0 && En(Right).y == 0.0
    ensures En(Down).y > 0.0 && En(Down).x == 0.0
  {
  }
}
