/** The integer layout decisions of painting: the track rectangle, the tick
    strips for each tick style, and the thumb glyph with the reshaping the
    double-pointed thumb gets. Thumb sizes and rectangles come from the
    renderer and are inputs. */
module Layout {
  import opened Widgets
  import opened IntMath
  import Appearance

  /** Half the thumb width as the control rounds `width / 2.0`: to the
      nearest integer, ties to even. */
  function ThumbBorder(thumbWidth: int): (b: int)
    ensures -1 <= 2 * b - thumbWidth <= 1
    ensures 2 * b - thumbWidth != 0 ==> b % 2 == 0
  {
    RoundHalf(thumbWidth)
  }

  /** `GetTrackRectangle`: horizontally a 4-pixel strip inset by the border
      on the left and by the border plus one on the right, centred on the
      rounded half height less three; vertically a 4-pixel strip at the
      truncated half width running from 8 to 7 pixels short of the bottom. */
  function TrackRectangle(o: Orientation, b: Bounds, border: int): (r: Rect)
    ensures o == Horizontal ==> r.x == border && r.RightEdge() == b.width - border - 1
    ensures o == Horizontal ==> r.height == 4 && r.y + 3 == RoundHalf(b.height)
    ensures o == Vertical ==> r.x == Half(b.width) && r.width == 4
    ensures o == Vertical ==> r.y == 8 && r.BottomEdge() == b.height - 7
  {
    if o == Horizontal then Rect(border, RoundHalf(b.height) - 3, b.width - 2 * border - 1, 4)
    else Rect(Half(b.width), 8, 4, b.height - 15)
  }

  /** A strip of tick marks: its rectangle and the number of ticks. */
  datatype TickStrip = TickStrip(area: Rect, count: int)

  /** Distance between the track and the strips, across the track. */
  const TickDistance := 15

  /** Displacement of a rectangle from the track across the track's axis,
      and along it. */
  function CrossOffset(o: Orientation, track: Rect, area: Rect): int {
    if o == Horizontal then area.y - track.y else area.x - track.x
  }

  function AlongOffset(o: Orientation, track: Rect, area: Rect): int {
    if o == Horizontal then area.x - track.x else area.y - track.y
  }

  /** The tick strips `OnPaint` draws: none, one toward the top/left, one
      toward the bottom/right, or for `Both` first the bottom/right one and
      then the top/left one. Each is the track moved 15 pixels across the
      axis, and each has one tick per integer from minimum to maximum. */
  function TickStrips(o: Orientation, ts: TickStyle, track: Rect, minimum: int, maximum: int): (s: seq<TickStrip>)
    ensures |s| == (if ts == NoTicks then 0 else if ts == Both then 2 else 1)
    ensures forall i :: 0 <= i < |s| ==> s[i].count == maximum - minimum + 1
    ensures forall i :: 0 <= i < |s| ==>
      s[i].area.width == track.width && s[i].area.height == track.height && AlongOffset(o, track, s[i].area) == 0
    ensures forall i :: 0 <= i < |s| ==> Abs(CrossOffset(o, track, s[i].area)) == TickDistance
    ensures ts == TopLeft ==> CrossOffset(o, track, s[0].area) < 0
    ensures ts == BottomRight ==> CrossOffset(o, track, s[0].area) > 0
    ensures ts == Both ==> CrossOffset(o, track, s[0].area) > 0 && CrossOffset(o, track, s[1].area) < 0
  {
    var count := maximum - minimum + 1;
    var dx := if o == Horizontal then 0 else TickDistance;
    var dy := if o == Horizontal then TickDistance else 0;
    match ts
    case NoTicks => []
    case TopLeft => [TickStrip(track.Offset(dx * -1, dy * -1), count)]
    case BottomRight => [TickStrip(track.Offset(dx, dy), count)]
    case Both =>
      var first := track.Offset(dx, dy);
      [TickStrip(first, count), TickStrip(first.Offset(dx * -2, dy * -2), count)]
  }

  /** With ticks on one side, the thumbs the direction table picks point at
      the ticks; with ticks on both sides, the strips mirror each other. */
  lemma ThumbsPointAtTicks(o: Orientation, ts: TickStyle, track: Rect, minimum: int, maximum: int)
    requires ts == TopLeft || ts == BottomRight
    ensures var s := TickStrips(o, ts, track, minimum, maximum);
      CrossOffset(o, track, s[0].area) < 0 <==> Appearance.PointsTowardTopLeft(Appearance.TickDirection(o, ts))
  {
  }

  lemma BothStripsMirror(o: Orientation, track: Rect, minimum: int, maximum: int)
    ensures var s := TickStrips(o, Both, track, minimum, maximum);
      CrossOffset(o, track, s[0].area) == -CrossOffset(o, track, s[1].area)
  {
  }

  /** Track and tick strips of one paint. */
  datatype TickLayout = TickLayout(track: Rect, strips: seq<TickStrip>)

  /** The track and tick part of `OnPaint`, for the measured thumb width. On
      a valid widget every strip has at least two ticks. */
  function PaintTicks(w: Widget, thumbWidth: int): (plan: TickLayout)
    ensures plan.track == TrackRectangle(w.orientation, w.bounds, ThumbBorder(thumbWidth))
    ensures plan.strips == TickStrips(w.orientation, w.tickStyle, plan.track, w.minimum, w.maximum)
    ensures Valid(w) ==> forall i :: 0 <= i < |plan.strips| ==> plan.strips[i].count >= 2
  {
    var track := TrackRectangle(w.orientation, w.bounds, ThumbBorder(thumbWidth));
    TickLayout(track, TickStrips(w.orientation, w.tickStyle, track, w.minimum, w.maximum))
  }

  /** The double-pointed thumb's rectangle: width and height exchanged when
      needed so that the long side runs across the track. The position and
      the pair of side lengths are kept. */
  function ReshapeForBoth(o: Orientation, r: Rect): (s: Rect)
    ensures s.x == r.x && s.y == r.y
    ensures (s.width == r.width && s.height == r.height) || (s.width == r.height && s.height == r.width)
    ensures o == Horizontal ==> s.width <= s.height
    ensures o == Vertical ==> s.height <= s.width
  {
    if o == Horizontal then
      if r.width > r.height then r.(width := r.height, height := r.width) else r
    else
      if r.height > r.width then r.(width := r.height, height := r.width) else r
  }

  /** Reshaping is idempotent, and leaves an already well-shaped rectangle
      alone. */
  lemma ReshapeIdempotent(o: Orientation, r: Rect)
    ensures ReshapeForBoth(o, ReshapeForBoth(o, r)) == ReshapeForBoth(o, r)
    ensures o == Horizontal && r.width <= r.height ==> ReshapeForBoth(o, r) == r
    ensures o == Vertical && r.height <= r.width ==> ReshapeForBoth(o, r) == r
  {
  }

  /** What the renderer is asked to draw for one thumb; the recolour fill
      covers `area`. */
  datatype Glyph =
    | Directed(area: Rect, state: ThumbState, direction: Direction)
    | DoublePointed(area: Rect, state: ThumbState)

  /** `DrawThumb`: a directed thumb in its own rectangle, except that with
      ticks on both sides a double-pointed thumb is drawn in the reshaped
      rectangle and the direction is ignored. */
  function DrawThumb(w: Widget, rect: Rect, direction: Direction, state: ThumbState): (g: Glyph)
    ensures g.DoublePointed? <==> w.tickStyle == Both
    ensures g.state == state
    ensures g.Directed? ==> g.area == rect && g.direction == direction
    ensures g.DoublePointed? ==> g.area == ReshapeForBoth(w.orientation, rect)
  {
    if w.tickStyle != Both then Directed(rect, state, direction)
    else DoublePointed(ReshapeForBoth(w.orientation, rect), state)
  }

  /** The two thumbs of one paint, left first, each with its own visual
      state; both are double-pointed exactly when ticks are on both sides,
      and otherwise each points its own way in its own rectangle. */
  function PaintThumbs(w: Widget, rects: ThumbRects): (glyphs: (Glyph, Glyph))
    ensures glyphs.0.state == w.leftState && glyphs.1.state == w.rightState
    ensures glyphs.0.DoublePointed? <==> w.tickStyle == Both
    ensures glyphs.1.DoublePointed? <==> w.tickStyle == Both
    ensures glyphs.0.Directed? ==> glyphs.0.direction == w.leftDirection && glyphs.0.area == rects.left
    ensures glyphs.1.Directed? ==> glyphs.1.direction == w.rightDirection && glyphs.1.area == rects.right
    ensures glyphs.0.DoublePointed? ==> glyphs.0.area == ReshapeForBoth(w.orientation, rects.left)
    ensures glyphs.1.DoublePointed? ==> glyphs.1.area == ReshapeForBoth(w.orientation, rects.right)
  {
    (DrawThumb(w, rects.left, w.leftDirection, w.leftState),
     DrawThumb(w, rects.right, w.rightDirection, w.rightState))
  }
}
