/** Hit testing: whether a point lies on a thumb, and which thumb a click on
    the empty track is routed to. */
module HitTest {
  import opened Widgets
  import opened IntMath

  /** The toolkit's half-open rectangle containment. */
  predicate Contains(r: Rect, p: Point) {
    r.x <= p.x < r.x + r.width && r.y <= p.y < r.y + r.height
  }

  /** Start and end of a rectangle along the track's axis. */
  function NearEdge(o: Orientation, r: Rect): int {
    if o == Horizontal then r.x else r.y
  }

  function FarEdge(o: Orientation, r: Rect): int {
    if o == Horizontal then r.RightEdge() else r.BottomEdge()
  }

  /** The point's coordinate along the track's axis. */
  function MainCoordinate(o: Orientation, p: Point): int {
    if o == Horizontal then p.x else p.y
  }

  /** `GetClosestSlider`: the right thumb is chosen only when BOTH of the
      left thumb's edges are strictly farther from the point along the axis
      than the right thumb's matching edges; every other case, ties
      included, goes to the left thumb. */
  function ClosestSlider(o: Orientation, rects: ThumbRects, p: Point): (t: Thumb)
    ensures t == LeftThumb || t == RightThumb
    ensures t == RightThumb <==>
      && Abs(NearEdge(o, rects.left) - MainCoordinate(o, p)) > Abs(NearEdge(o, rects.right) - MainCoordinate(o, p))
      && Abs(FarEdge(o, rects.left) - MainCoordinate(o, p)) > Abs(FarEdge(o, rects.right) - MainCoordinate(o, p))
  {
    if o == Horizontal then
      if Abs(rects.left.x - p.x) > Abs(rects.right.x - p.x)
         && Abs(rects.left.RightEdge() - p.x) > Abs(rects.right.RightEdge() - p.x)
      then RightThumb else LeftThumb
    else if Abs(rects.left.y - p.y) > Abs(rects.right.y - p.y)
         && Abs(rects.left.BottomEdge() - p.y) > Abs(rects.right.BottomEdge() - p.y)
    then RightThumb else LeftThumb
  }

  /** The choice depends only on the coordinate along the track. */
  lemma ClosestIgnoresCrossAxis(o: Orientation, rects: ThumbRects, p: Point, q: Point)
    requires MainCoordinate(o, p) == MainCoordinate(o, q)
    ensures ClosestSlider(o, rects, p) == ClosestSlider(o, rects, q)
  {
  }

  /** Co-located thumbs always resolve to the left one. */
  lemma ClosestTieIsLeft(o: Orientation, r: Rect, p: Point)
    ensures ClosestSlider(o, ThumbRects(r, r), p) == LeftThumb
  {
  }

  /** With the left thumb before the right one on both edges, a point past
      both far edges goes to the right thumb, and a point before both near
      edges goes to the left thumb. */
  lemma ClosestBeyondEnds(o: Orientation, rects: ThumbRects, p: Point)
    requires NearEdge(o, rects.left) < NearEdge(o, rects.right)
    requires FarEdge(o, rects.left) < FarEdge(o, rects.right)
    requires NearEdge(o, rects.right) <= FarEdge(o, rects.right)
    ensures MainCoordinate(o, p) >= FarEdge(o, rects.right) ==> ClosestSlider(o, rects, p) == RightThumb
    ensures MainCoordinate(o, p) <= NearEdge(o, rects.left) ==> ClosestSlider(o, rects, p) == LeftThumb
  {
  }

  /** A point on the left edge of the right thumb can still go to the left
      thumb when the two touch: here the thumbs span 0..10 and 10..20 and
      the point is at 10. */
  lemma ClosestCanPickFartherThumb()
    ensures ClosestSlider(Horizontal, ThumbRects(Rect(0, 0, 10, 10), Rect(10, 0, 10, 10)), Point(10, 5)) == LeftThumb
    ensures Contains(Rect(10, 0, 10, 10), Point(10, 5))
  {
  }
}
