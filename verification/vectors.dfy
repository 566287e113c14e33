/**
 * Planar vectors over exact reals. The engine keeps positions, speeds and
 * forces in two-element `double[]` arrays indexed by X = 0 and Y = 1; here
 * they are values of the datatype `Vec`.
 */
module Vectors {

  datatype Vec = Vec(x: real, y: real)

  const Zero: Vec := Vec(0.0, 0.0)

  function Add(a: Vec, b: Vec): Vec {
    Vec(a.x + b.x, a.y + b.y)
  }

  function Sub(a: Vec, b: Vec): Vec {
    Vec(a.x - b.x, a.y - b.y)
  }

  function Neg(a: Vec): Vec {
    Vec(-a.x, -a.y)
  }

  function Scale(k: real, a: Vec): Vec {
    Vec(k * a.x, k * a.y)
  }

  /** `dotProduct` of the engine: `a[0] * b[0] + a[1] * b[1]`. */
  function Dot(a: Vec, b: Vec): real {
    a.x * b.x + a.y * b.y
  }

  lemma AddZero(a: Vec)
    ensures Add(a, Zero) == a
  {
  }

  lemma AddAssoc(a: Vec, b: Vec, c: Vec)
    ensures Add(Add(a, b), c) == Add(a, Add(b, c))
  {
  }

  lemma AddNegCancels(a: Vec, f: Vec)
    ensures Add(Add(a, f), Neg(f)) == a
  {
  }

  /** The sum of a sequence of vectors, taken from the front. */
  function SumVec(s: seq<Vec>): Vec
    decreases |s|
  {
    if s == [] then Zero else Add(s[0], SumVec(s[1..]))
  }

  lemma {:induction false} SumVecAppend(s: seq<Vec>, t: seq<Vec>)
    ensures SumVec(s + t) == Add(SumVec(s), SumVec(t))
    decreases |s|
  {
    if s == [] {
      assert s + t == t;
    } else {
      assert (s + t)[1..] == s[1..] + t;
      SumVecAppend(s[1..], t);
    }
  }

  /** Replacing one entry changes the sum by exactly the difference. */
  lemma {:induction false} SumVecUpdate(s: seq<Vec>, k: nat, v: Vec)
    requires k < |s|
    ensures SumVec(s[k := v]) == Add(Sub(SumVec(s), s[k]), v)
    decreases |s|
  {
    if k == 0 {
      assert s[k := v][1..] == s[1..];
    } else {
      assert s[k := v][1..] == s[1..][k - 1 := v];
      SumVecUpdate(s[1..], k - 1, v);
    }
  }

  /** A sequence of zero vectors sums to zero. */
  lemma {:induction false} SumVecZeros(n: nat)
    ensures SumVec(seq(n, _ => Zero)) == Zero
    decreases n
  {
    if n > 0 {
      assert seq(n, _ => Zero)[1..] == seq(n - 1, _ => Zero);
      SumVecZeros(n - 1);
    }
  }
}
