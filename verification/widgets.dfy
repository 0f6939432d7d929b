/** The data model of the dual-thumb track bar: the control's enumerations,
    the integer geometry records it works with, and the immutable widget state
    that every property setter and event handler maps to a new state. */
module Widgets {

  /** Which thumb: the control's `Thumbs` enumeration. */
  datatype Thumb = NoThumb | LeftThumb | RightThumb

  /** Where a thumb points, in the control's declaration order. */
  datatype Direction = Bottom | Right | Top | Left

  /** Which side(s) of the track carry tick marks. */
  datatype TickStyle = NoTicks | TopLeft | BottomRight | Both

  datatype Orientation = Horizontal | Vertical

  /** Visual state of one thumb. `Unset` is the numeric zero the state fields
      hold from construction until the first pointer event; the toolkit's
      thumb-state enumeration names no member for it. */
  datatype ThumbState = Unset | Normal | Hot | Pressed

  datatype Point = Point(x: int, y: int)

  /** A rectangle with the toolkit's half-open containment. */
  datatype Rect = Rect(x: int, y: int, width: int, height: int) {
    function RightEdge(): int { x + width }
    function BottomEdge(): int { y + height }

    /** The rectangle moved by (dx, dy), size kept. */
    function Offset(dx: int, dy: int): (r: Rect)
      ensures r.width == width && r.height == height
      ensures r.x - x == dx && r.y - y == dy
    {
      Rect(x + dx, y + dy, width, height)
    }
  }

  /** Position and size of the control inside its parent. */
  datatype Bounds = Bounds(left: int, top: int, width: int, height: int)

  /** The three change notifications the control raises. */
  datatype Change = ValueChanged | LeftValueChanged | RightValueChanged

  /** The exceptions the control throws. An `ArgumentError` carries the
      parameter name and the rejected value its message quotes. The control
      builds its `ArgumentOutOfRange` from one string, which that exception
      keeps as its parameter name, and quotes no value. `Overflow` is the
      exception of a failed conversion to a 32-bit integer. */
  datatype Error =
    | ArgumentError(param: string, value: int)
    | ArgumentOutOfRange(param: string)
    | Overflow

  /** Everything the control's logic reads or writes. Thumb rectangles are not
      stored: they are recomputed from this state on demand. */
  datatype Widget = Widget(
    minimum: int,
    maximum: int,
    valueLeft: int,
    valueRight: int,
    smallChange: int,
    orientation: Orientation,
    tickStyle: TickStyle,
    leftDirection: Direction,
    rightDirection: Direction,
    leftState: ThumbState,
    rightState: ThumbState,
    selected: Thumb,
    draggingLeft: bool,
    draggingRight: bool,
    bounds: Bounds)

  /** The result of one call into the control: the state the widget is left
      in, the notifications raised (in order), and for `Thrown` the exception
      that escaped. A thrown setter may still have changed the state. */
  datatype Outcome =
    | Ok(w: Widget, events: seq<Change>)
    | Thrown(w: Widget, events: seq<Change>, error: Error)
  {
    /** Runs `f` on the resulting widget unless an exception escaped,
        concatenating the notifications of both calls. */
    function Then(f: Widget -> Outcome): (r: Outcome)
      ensures Thrown? ==> r == this
      ensures Ok? ==> r.w == f(w).w && r.events == events + f(w).events
      ensures Ok? ==> (r.Ok? <==> f(w).Ok?)
    {
      if Thrown? then this
      else
        var next := f(w);
        next.(events := events + next.events)
    }
  }

  /** The two thumb rectangles as the renderer measured them for the current
      state. They are computed with floating point and are inputs here. */
  datatype ThumbRects = ThumbRects(left: Rect, right: Rect)

  /** The value invariant the setters are meant to keep. */
  predicate Valid(w: Widget) {
    && w.minimum < w.maximum
    && w.minimum <= w.valueLeft <= w.valueRight <= w.maximum
    && w.smallChange >= 1
  }

  /** A freshly allocated control before its constructor body runs: every
      field at its type's zero value. */
  function Zero(bounds: Bounds): (w: Widget)
    ensures w.minimum == w.maximum == w.valueLeft == w.valueRight == w.smallChange == 0
    ensures !Valid(w)
  {
    Widget(0, 0, 0, 0, 0, Horizontal, NoTicks, Bottom, Bottom,
           Unset, Unset, NoThumb, false, false, bounds)
  }

  /** Notification traces made only of complete pairs: a `ValueChanged`
      directly followed by `LeftValueChanged` or `RightValueChanged`. */
  predicate WellPaired(events: seq<Change>)
    decreases |events|
  {
    || events == []
    || (&& |events| >= 2
        && events[0] == ValueChanged
        && events[1] != ValueChanged
        && WellPaired(events[2..]))
  }

  lemma {:induction false} WellPairedConcat(a: seq<Change>, b: seq<Change>)
    requires WellPaired(a) && WellPaired(b)
    ensures WellPaired(a + b)
    decreases |a|
  {
    if a != [] {
      var c := a + b;
      WellPairedConcat(a[2..], b);
      assert c[2..] == a[2..] + b;
      assert c[0] == a[0] && c[1] == a[1];
    } else {
      assert a + b == b;
    }
  }
}
