// Points in the scene and the trigonometry both scenes use. The values of
// sine, cosine and pi are never fixed: every member that needs them takes a
// Trig record, and every lemma that relies on a trigonometric fact states
// that fact as a precondition.

module Geometry {

  datatype Vec3 = Vec3(x: real, y: real, z: real)

  function Add(a: Vec3, b: Vec3): Vec3 {
    Vec3(a.x + b.x, a.y + b.y, a.z + b.z)
  }

  /** Math.sin, Math.cos and Math.PI, left uninterpreted. */
  datatype Trig = Trig(sin: real -> real, cos: real -> real, pi: real)

  /** The one identity the orbit lemmas rely on. */
  ghost predicate Pythagorean(trig: Trig) {
    forall a :: trig.sin(a) * trig.sin(a) + trig.cos(a) * trig.cos(a) == 1.0
  }

  /** A point at angle a on a circle of radius r about the origin lies at distance r from it. */
  lemma OnCircle(trig: Trig, a: real, r: real)
    requires Pythagorean(trig)
    ensures (trig.cos(a) * r) * (trig.cos(a) * r) + (trig.sin(a) * r) * (trig.sin(a) * r) == r * r
  {
    var c, s := trig.cos(a), trig.sin(a);
    assert s * s + c * c == 1.0;
    calc {
      (c * r) * (c * r) + (s * r) * (s * r);
      (c * c + s * s) * (r * r);
      r * r;
    }
  }

  /** Sine never leaves [-1, 1]. */
  lemma SineBounded(trig: Trig, a: real)
    requires Pythagorean(trig)
    ensures -1.0 <= trig.sin(a) <= 1.0
  {
    var c, s := trig.cos(a), trig.sin(a);
    assert s * s + c * c == 1.0;
    assert 0.0 <= c * c;
  }

  function Max(a: real, b: real): (r: real)
    ensures a <= r && b <= r && (r == a || r == b)
  {
    if a >= b then a else b
  }

  function Min(a: real, b: real): (r: real)
    ensures r <= a && r <= b && (r == a || r == b)
  {
    if a <= b then a else b
  }

  // ---------------------------------------------------------------------
  // Signs of products

  lemma NonNegativeProduct(x: real, y: real)
    requires 0.0 <= x && 0.0 <= y
    ensures 0.0 <= x * y
  {
  }

  lemma ScaleWithin(x: real, t: real)
    requires 0.0 <= x && 0.0 <= t <= 1.0
    ensures 0.0 <= x * t <= x
  {
    NonNegativeProduct(x, t);
    NonNegativeProduct(x, 1.0 - t);
    assert x * (1.0 - t) == x - x * t;
  }

  lemma PositiveProduct(x: real, y: real)
    requires 0.0 < x && 0.0 < y
    ensures 0.0 < x * y
  {
  }
}
