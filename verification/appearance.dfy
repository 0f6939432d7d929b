/** The appearance properties that feed layout decisions: the tick style, the
    orientation and the thumb directions derived from both. */
module Appearance {
  import opened Widgets
  import opened IntMath

  /** A direction that points to the top or left side of the track. */
  predicate PointsTowardTopLeft(d: Direction) {
    d == Top || d == Left
  }

  /** The direction both thumbs take for a tick style: across the track,
      and toward the top/left side exactly when ticks are drawn there. */
  function TickDirection(o: Orientation, ts: TickStyle): (d: Direction)
    ensures o == Horizontal <==> (d == Top || d == Bottom)
    ensures PointsTowardTopLeft(d) <==> (ts == TopLeft || ts == Both)
  {
    match ts
    case NoTicks => if o == Horizontal then Bottom else Right
    case TopLeft => if o == Horizontal then Top else Left
    case BottomRight => if o == Horizontal then Bottom else Right
    case Both => if o == Horizontal then Top else Left
  }

  /** The two properties above pin the table down: any direction with them
      is the table's entry. */
  lemma TickDirectionUnique(o: Orientation, ts: TickStyle, d: Direction)
    requires o == Horizontal <==> (d == Top || d == Bottom)
    requires PointsTowardTopLeft(d) <==> (ts == TopLeft || ts == Both)
    ensures d == TickDirection(o, ts)
  {
  }

  /** Re-deriving the thumb directions from the current orientation and tick
      style; explicitly set directions are overwritten. */
  function AdjustDirections(w: Widget): (r: Widget)
    ensures r.leftDirection == r.rightDirection
    ensures r.leftDirection == TickDirection(w.orientation, w.tickStyle)
    ensures r == w.(leftDirection := r.leftDirection, rightDirection := r.rightDirection)
  {
    var d := TickDirection(w.orientation, w.tickStyle);
    w.(leftDirection := d, rightDirection := d)
  }

  /** The `TickStyle` setter: stores the style and re-derives the directions. */
  function SetTickStyle(w: Widget, ts: TickStyle): (r: Widget)
    ensures r.tickStyle == ts
    ensures r.leftDirection == r.rightDirection == TickDirection(w.orientation, ts)
    ensures r == w.(tickStyle := ts, leftDirection := r.leftDirection, rightDirection := r.rightDirection)
  {
    AdjustDirections(w.(tickStyle := ts))
  }

  /** The `LeftThumbDirection` override: only the left direction changes. */
  function SetLeftDirection(w: Widget, d: Direction): (r: Widget)
    ensures r.leftDirection == d
    ensures r == w.(leftDirection := d)
  {
    w.(leftDirection := d)
  }

  /** The `RightThumbDirection` override: only the right direction changes. */
  function SetRightDirection(w: Widget, d: Direction): (r: Widget)
    ensures r.rightDirection == d
    ensures r == w.(rightDirection := d)
  {
    w.(rightDirection := d)
  }

  /** An explicit direction lasts only until the tick style is set again. */
  lemma TickStyleDiscardsOverride(w: Widget, d: Direction, ts: TickStyle)
    ensures SetTickStyle(SetLeftDirection(w, d), ts) == SetTickStyle(w, ts)
    ensures SetTickStyle(SetRightDirection(w, d), ts) == SetTickStyle(w, ts)
  {
  }

  /** The midpoint the control computes from its bounds, with truncating
      division: within one pixel of the exact centre, at or before it for
      non-negative sizes. */
  function Center(b: Bounds): (c: Point)
    ensures b.width >= 0 ==> 0 <= (2 * b.left + b.width) - 2 * c.x <= 1
    ensures b.height >= 0 ==> 0 <= (2 * b.top + b.height) - 2 * c.y <= 1
    ensures b.width < 0 ==> -1 <= (2 * b.left + b.width) - 2 * c.x <= 0
    ensures b.height < 0 ==> -1 <= (2 * b.top + b.height) - 2 * c.y <= 0
  {
    Point(b.left + Half(b.width), b.top + Half(b.height))
  }

  /** The `Orientation` setter: width and height are exchanged about the old
      midpoint and the directions re-derived. It does so even when the new
      orientation equals the old one. */
  function SetOrientation(w: Widget, o: Orientation): (r: Widget)
    ensures r.orientation == o
    ensures r.bounds.width == w.bounds.height && r.bounds.height == w.bounds.width
    ensures Center(r.bounds) == Center(w.bounds)
    ensures r.leftDirection == r.rightDirection == TickDirection(o, w.tickStyle)
    ensures r == w.(orientation := o, bounds := r.bounds,
                    leftDirection := r.leftDirection, rightDirection := r.rightDirection)
  {
    var mid := Center(w.bounds);
    var swapped := w.(orientation := o,
                      bounds := w.bounds.(width := w.bounds.height, height := w.bounds.width));
    var directed := AdjustDirections(swapped);
    directed.(bounds := directed.bounds.(left := mid.x - Half(directed.bounds.width),
                                         top := mid.y - Half(directed.bounds.height)))
  }

  /** Setting the orientation twice restores the original position and
      size, whatever the two values set. */
  lemma OrientationTwiceRestoresBounds(w: Widget, o1: Orientation, o2: Orientation)
    ensures SetOrientation(SetOrientation(w, o1), o2).bounds == w.bounds
    ensures SetOrientation(SetOrientation(w, o1), o2).orientation == o2
  {
  }

  /** Setting the orientation it already has still exchanges width and
      height; a non-square control changes shape. */
  lemma SameOrientationStillSwaps(w: Widget)
    requires w.bounds.width != w.bounds.height
    ensures SetOrientation(w, w.orientation).bounds != w.bounds
  {
  }
}
