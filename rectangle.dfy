/** Axis-aligned rectangles over exact reals: the value type `Rectangle[float64]` of the
    rectangle package.

    Go's setters take a pointer receiver and overwrite the receiver's `Min`/`Max` in place.
    `Rectangle` is a plain value type there (copied on assignment), so each setter is modelled
    as a member function returning the rewritten value; the owner of the rectangle stores that
    value back into its field. */
module Rectangle {

  datatype Point = Point(x: real, y: real)

  datatype Rect = Rect(min: Point, max: Point) {

    /** The invariant callers keep (the package itself never checks it). */
    predicate Valid() {
      min.x <= max.x && min.y <= max.y
    }

    function Width(): real
    {
      max.x - min.x
    }

    function Height(): real
    {
      max.y - min.y
    }

    /** `p` lies strictly inside this rectangle: the reference notion behind `Overlaps`. */
    predicate Interior(p: Point) {
      min.x < p.x < max.x && min.y < p.y < max.y
    }

    /** Strict overlap test: rectangles that only share an edge do not overlap. */
    predicate Overlaps(s: Rect) {
      min.x < s.max.x && s.min.x < max.x &&
      min.y < s.max.y && s.min.y < max.y
    }

    /** Moves the left edge to `x`, keeping the width. */
    function SetLeft(x: real): (r: Rect)
      ensures r.min.x == x && r.Width() == Width()
      ensures r.min.y == min.y && r.max.y == max.y
    {
      var w := Width();
      Rect(Point(x, min.y), Point(x + w, max.y))
    }

    /** Moves the right edge to `x`, keeping the width. */
    function SetRight(x: real): (r: Rect)
      ensures r.max.x == x && r.Width() == Width()
      ensures r.min.y == min.y && r.max.y == max.y
    {
      var w := Width();
      Rect(Point(x - w, min.y), Point(x, max.y))
    }

    /** Moves the bottom edge (`Max.Y`) to `y`, keeping the height. */
    function SetBottom(y: real): (r: Rect)
      ensures r.max.y == y && r.Height() == Height()
      ensures r.min.x == min.x && r.max.x == max.x
    {
      var h := Height();
      Rect(Point(min.x, y - h), Point(max.x, y))
    }

    /** Moves the top edge (`Min.Y`) to `y`, keeping the height. */
    function SetTop(y: real): (r: Rect)
      ensures r.min.y == y && r.Height() == Height()
      ensures r.min.x == min.x && r.max.x == max.x
    {
      var h := Height();
      Rect(Point(min.x, y), Point(max.x, y + h))
    }

    function MoveX(dX: real): (r: Rect)
      ensures r.min.x == min.x + dX && r.Width() == Width()
      ensures r.min.y == min.y && r.max.y == max.y
    {
      Rect(Point(min.x + dX, min.y), Point(max.x + dX, max.y))
    }

    function MoveY(dY: real): (r: Rect)
      ensures r.min.y == min.y + dY && r.Height() == Height()
      ensures r.min.x == min.x && r.max.x == max.x
    {
      Rect(Point(min.x, min.y + dY), Point(max.x, max.y + dY))
    }

    /** Squash: shrinks the width about the horizontal centre and the height towards the
        bottom edge `Max.Y`, which stays where it is (the feet stay planted). The Go code
        converts the offsets back to the coordinate type; for float64 that is the identity. */
    function Scale(factor: real): (r: Rect)
      ensures r.max.y == max.y
      ensures r.Width() == Width() * factor && r.Height() == Height() * factor
      ensures r.min.x + r.max.x == min.x + max.x
    {
      var dX := 0.5 * Width() * (1.0 - factor);
      var dY := 0.5 * Height() * (1.0 - factor);
      Rect(Point(min.x + dX, min.y + 2.0 * dY), Point(max.x - dX, max.y))
    }
  }

  /** Go's `Rect(x0, y0, x1, y1)`: `(x0, y0)` becomes `Min` and `(x1, y1)` becomes `Max`. */
  function Make(x0: real, y0: real, x1: real, y1: real): (r: Rect)
    ensures r.min == Point(x0, y0) && r.max == Point(x1, y1)
    ensures r.Width() == x1 - x0 && r.Height() == y1 - y0
  {
    Rect(Point(x0, y0), Point(x1, y1))
  }

  lemma OverlapsSymmetric(r: Rect, s: Rect)
    ensures r.Overlaps(s) == s.Overlaps(r)
  {
  }

  /** For rectangles with positive area, overlap means exactly that the two open interiors
      share a point. (A degenerate or inverted rectangle can pass the test without having
      any interior.) */
  lemma OverlapsIffCommonInterior(r: Rect, s: Rect)
    requires r.min.x < r.max.x && r.min.y < r.max.y
    requires s.min.x < s.max.x && s.min.y < s.max.y
    ensures r.Overlaps(s) <==> exists p :: r.Interior(p) && s.Interior(p)
  {
    if r.Overlaps(s) {
      var lx := if r.min.x < s.min.x then s.min.x else r.min.x;
      var hx := if r.max.x < s.max.x then r.max.x else s.max.x;
      var ly := if r.min.y < s.min.y then s.min.y else r.min.y;
      var hy := if r.max.y < s.max.y then r.max.y else s.max.y;
      var p := Point((lx + hx) / 2.0, (ly + hy) / 2.0);
      assert r.Interior(p) && s.Interior(p);
    }
  }

  /** Rectangles that touch along an edge do not overlap. */
  lemma EdgeContactIsNotOverlap(r: Rect, s: Rect)
    requires r.max.x == s.min.x || s.max.x == r.min.x || r.max.y == s.min.y || s.max.y == r.min.y
    ensures !r.Overlaps(s) && !s.Overlaps(r)
  {
  }

  lemma MoveXInverse(r: Rect, d: real)
    ensures r.MoveX(d).MoveX(-d) == r
  {
  }

  lemma MoveYInverse(r: Rect, d: real)
    ensures r.MoveY(d).MoveY(-d) == r
  {
  }

  lemma ScaleOneIsIdentity(r: Rect)
    ensures r.Scale(1.0) == r
  {
  }

  /** With a factor in [0, 1] a well-formed rectangle stays well-formed, and its top edge
      moves down towards the fixed bottom edge. */
  lemma ScaleKeepsValid(r: Rect, f: real)
    requires r.Valid() && 0.0 <= f <= 1.0
    ensures r.Scale(f).Valid()
    ensures r.min.y <= r.Scale(f).min.y <= r.max.y
  {
    var s := r.Scale(f);
    assert s.Width() == r.Width() * f;
    assert s.Height() == r.Height() * f;
    assert 0.0 <= r.Height() * (1.0 - f);
    assert s.min.y == r.min.y + r.Height() * (1.0 - f);
  }

  /** Squashing by `a` and then by `b` is one squash by `a * b`. */
  lemma ScaleCompose(r: Rect, a: real, b: real)
    ensures r.Scale(a).Scale(b) == r.Scale(a * b)
  {
    var s := r.Scale(a);
    var t := s.Scale(b);
    var u := r.Scale(a * b);
    assert s.Width() == r.Width() * a;
    assert s.Height() == r.Height() * a;
    calc {
      t.min.x;
      s.min.x + 0.5 * (r.Width() * a) * (1.0 - b);
      r.min.x + 0.5 * r.Width() * (1.0 - a) + 0.5 * (r.Width() * a) * (1.0 - b);
      r.min.x + 0.5 * r.Width() * (1.0 - a * b);
      u.min.x;
    }
    calc {
      t.min.y;
      s.min.y + (r.Height() * a) * (1.0 - b);
      r.min.y + r.Height() * (1.0 - a) + (r.Height() * a) * (1.0 - b);
      r.min.y + r.Height() * (1.0 - a * b);
      u.min.y;
    }
    assert t.max.x == u.max.x;
  }
}
