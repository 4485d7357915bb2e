/** Points of the plane and the distance test both circle packers use.
    Coordinates are mathematical reals. */
module Plane {

  datatype Point = Point(x: real, y: real)

  function SqDist(p: Point, q: Point): real {
    (p.x - q.x) * (p.x - q.x) + (p.y - q.y) * (p.y - q.y)
  }

  /** `np.linalg.norm(p - q) <= s`, stated without the square root: a
      negative bound admits no point, a non-negative one is compared
      squared. */
  predicate Within(p: Point, q: Point, s: real) {
    0.0 <= s && SqDist(p, q) <= s * s
  }

  lemma WithinSymmetric(p: Point, q: Point, s: real)
    ensures Within(p, q, s) == Within(q, p, s)
  {
    assert (p.x - q.x) * (p.x - q.x) == (q.x - p.x) * (q.x - p.x);
    assert (p.y - q.y) * (p.y - q.y) == (q.y - p.y) * (q.y - p.y);
  }

  /** A larger bound admits every pair a smaller one admits. */
  lemma WithinGrows(p: Point, q: Point, s: real, t: real)
    requires s <= t
    ensures Within(p, q, s) ==> Within(p, q, t)
  {
    if 0.0 <= s {
      assert s * s <= s * t <= t * t;
    }
  }
}
