/**
 * Layout, world and device rectangles in euclid's origin-and-size form,
 * with exact real coordinates in place of f32.
 */
module Geometry {
  import opened Common

  datatype Point = Point(x: real, y: real)
  datatype Size = Size(width: real, height: real)
  datatype Rect = Rect(origin: Point, size: Size)

  datatype IntSize = IntSize(width: int, height: int)
  datatype IntRect = IntRect(x: int, y: int, width: int, height: int)

  function MaxX(r: Rect): real { r.origin.x + r.size.width }
  function MaxY(r: Rect): real { r.origin.y + r.size.height }

  function Area(s: Size): real { s.width * s.height }

  /** euclid's `Rect::intersects`: the two rectangles overlap in a region of positive area. */
  predicate Intersects(a: Rect, b: Rect) {
    && a.origin.x < MaxX(b) && b.origin.x < MaxX(a)
    && a.origin.y < MaxY(b) && b.origin.y < MaxY(a)
  }

  /** `inner` lies within `outer`, edge by edge. */
  predicate Contains(outer: Rect, inner: Rect) {
    && outer.origin.x <= inner.origin.x && MaxX(inner) <= MaxX(outer)
    && outer.origin.y <= inner.origin.y && MaxY(inner) <= MaxY(outer)
  }

  /** euclid's `Rect::is_empty`: no positive extent on one of the axes. */
  predicate IsEmpty(r: Rect) {
    !(r.size.width > 0.0 && r.size.height > 0.0)
  }

  /** euclid's `Rect::intersection`: `None` unless the rectangles intersect. */
  function Intersection(a: Rect, b: Rect): (r: Option<Rect>)
    ensures r.Some? <==> Intersects(a, b)
    ensures r.Some? ==>
      && r.value.origin.x == Max(a.origin.x, b.origin.x)
      && r.value.origin.y == Max(a.origin.y, b.origin.y)
      && MaxX(r.value) == Min(MaxX(a), MaxX(b))
      && MaxY(r.value) == Min(MaxY(a), MaxY(b))
    ensures r.Some? ==> Contains(a, r.value) && Contains(b, r.value)
  {
    if !Intersects(a, b) then None
    else
      var x0 := Max(a.origin.x, b.origin.x);
      var y0 := Max(a.origin.y, b.origin.y);
      Some(Rect(Point(x0, y0), Size(Min(MaxX(a), MaxX(b)) - x0, Min(MaxY(a), MaxY(b)) - y0)))
  }

  function Translate(r: Rect, v: Point): Rect {
    Rect(Point(r.origin.x + v.x, r.origin.y + v.y), r.size)
  }

  /** euclid's `Rect::inflate`: grows every edge outwards by the given amounts. */
  function Inflate(r: Rect, w: real, h: real): Rect {
    Rect(Point(r.origin.x - w, r.origin.y - h), Size(r.size.width + w + w, r.size.height + h + h))
  }

  /** Multiplication of a rectangle by a `Scale`: origin and size are both scaled. */
  function ScaleRect(r: Rect, s: real): Rect {
    Rect(Point(r.origin.x * s, r.origin.y * s), Size(r.size.width * s, r.size.height * s))
  }

  /** euclid's `round_out`: the smallest integer rectangle containing `r`. */
  function RoundOut(r: Rect): (o: IntRect)
    ensures o.x as real <= r.origin.x && o.y as real <= r.origin.y
    ensures MaxX(r) <= (o.x + o.width) as real && MaxY(r) <= (o.y + o.height) as real
  {
    var x0 := r.origin.x.Floor;
    var y0 := r.origin.y.Floor;
    IntRect(x0, y0, Ceil(MaxX(r)) - x0, Ceil(MaxY(r)) - y0)
  }

  /** Rounding out grows each side by less than two pixels. */
  lemma {:induction false} RoundOutGrowth(r: Rect)
    ensures (RoundOut(r).width as real) < r.size.width + 2.0
    ensures (RoundOut(r).height as real) < r.size.height + 2.0
  {}

  /** euclid's `to_i32` on a float rectangle: origin and size are cast separately. */
  function TruncRect(r: Rect): IntRect {
    IntRect(Trunc(r.origin.x), Trunc(r.origin.y), Trunc(r.size.width), Trunc(r.size.height))
  }
}
