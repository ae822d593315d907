/** Axis-aligned rectangle overlap and the absolute value used by the placement rules. */
module Geometry {
  /** Do the rectangles (x1, y1, w1, h1) and (x2, y2, w2, h2) overlap?
      All four comparisons are strict, so rectangles that only touch do not. */
  predicate IsColliding(x1: real, y1: real, w1: real, h1: real,
                        x2: real, y2: real, w2: real, h2: real)
  {
    x1 < x2 + w2 && x1 + w1 > x2 && y1 < y2 + h2 && y1 + h1 > y2
  }

  /** The point (px, py) lies strictly inside the rectangle (x, y, w, h). */
  predicate Inside(px: real, py: real, x: real, y: real, w: real, h: real)
  {
    x < px < x + w && y < py < y + h
  }

  function Abs(v: real): real
  {
    if v < 0.0 then -v else v
  }

  function Min(a: real, b: real): real { if a <= b then a else b }

  function Max(a: real, b: real): real { if a <= b then b else a }

  /** The test does not depend on the order of its two rectangles. */
  lemma CollidingIsSymmetric(x1: real, y1: real, w1: real, h1: real,
                             x2: real, y2: real, w2: real, h2: real)
    ensures IsColliding(x1, y1, w1, h1, x2, y2, w2, h2)
        == IsColliding(x2, y2, w2, h2, x1, y1, w1, h1)
  {
  }

  /** Rectangles that share (part of) an edge, and no more, do not collide. */
  lemma EdgeContactIsNoCollision(x1: real, y1: real, w1: real, h1: real,
                                 x2: real, y2: real, w2: real, h2: real)
    requires x1 + w1 == x2 || x2 + w2 == x1 || y1 + h1 == y2 || y2 + h2 == y1
    ensures !IsColliding(x1, y1, w1, h1, x2, y2, w2, h2)
  {
  }

  /** For rectangles of positive size, the test holds exactly when some point
      lies strictly inside both of them. */
  lemma CollidingIffCommonInteriorPoint(x1: real, y1: real, w1: real, h1: real,
                                        x2: real, y2: real, w2: real, h2: real)
    requires w1 > 0.0 && h1 > 0.0 && w2 > 0.0 && h2 > 0.0
    ensures IsColliding(x1, y1, w1, h1, x2, y2, w2, h2)
        <==> exists px, py :: Inside(px, py, x1, y1, w1, h1) && Inside(px, py, x2, y2, w2, h2)
  {
    if IsColliding(x1, y1, w1, h1, x2, y2, w2, h2) {
      var px := (Max(x1, x2) + Min(x1 + w1, x2 + w2)) / 2.0;
      var py := (Max(y1, y2) + Min(y1 + h1, y2 + h2)) / 2.0;
      assert Inside(px, py, x1, y1, w1, h1) && Inside(px, py, x2, y2, w2, h2);
    }
  }
}
