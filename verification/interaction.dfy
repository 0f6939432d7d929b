/** The pointer and wheel handlers: per-thumb visual state, dragging, clicks
    on the empty track and wheel steps. Thumb rectangles are supplied by the
    caller for the state the handler starts from; the drag offset, computed
    by the control with floating point, is supplied too. */
module Interaction {
  import opened Widgets
  import opened IntMath
  import ValueModel
  import HitTest

  /** `SetThumbState`: each thumb independently takes `newState` when the
      point is on it, otherwise stays lit (`Hot`) when it is the selected
      thumb, otherwise goes back to `Normal`. Nothing else changes. */
  function SetThumbState(w: Widget, p: Point, rects: ThumbRects, newState: ThumbState): (r: Widget)
    ensures r == w.(leftState := r.leftState, rightState := r.rightState)
    ensures HitTest.Contains(rects.left, p) ==> r.leftState == newState
    ensures !HitTest.Contains(rects.left, p) ==> r.leftState == (if w.selected == LeftThumb then Hot else Normal)
    ensures HitTest.Contains(rects.right, p) ==> r.rightState == newState
    ensures !HitTest.Contains(rects.right, p) ==> r.rightState == (if w.selected == RightThumb then Hot else Normal)
  {
    var left :=
      if HitTest.Contains(rects.left, p) then newState
      else if w.selected == LeftThumb then Hot
      else Normal;
    var right :=
      if HitTest.Contains(rects.right, p) then newState
      else if w.selected == RightThumb then Hot
      else Normal;
    w.(leftState := left, rightState := right)
  }

  /** A thumb's visual state is decided by its own rectangle only. */
  lemma ThumbStatesIndependent(w: Widget, p: Point, rects: ThumbRects, other: Rect, s: ThumbState)
    ensures SetThumbState(w, p, rects.(right := other), s).leftState == SetThumbState(w, p, rects, s).leftState
    ensures SetThumbState(w, p, rects.(left := other), s).rightState == SetThumbState(w, p, rects, s).rightState
  {
  }

  /** Under a hover or press update the selected thumb stays lit wherever
      the pointer is, and a thumb that is neither selected nor under the
      pointer is `Normal`. */
  lemma SelectedThumbStaysLit(w: Widget, p: Point, rects: ThumbRects, s: ThumbState)
    requires s == Hot || s == Pressed
    ensures w.selected == LeftThumb ==> SetThumbState(w, p, rects, s).leftState in {Hot, Pressed}
    ensures w.selected == RightThumb ==> SetThumbState(w, p, rects, s).rightState in {Hot, Pressed}
    ensures w.selected != LeftThumb && !HitTest.Contains(rects.left, p) ==> SetThumbState(w, p, rects, s).leftState == Normal
    ensures w.selected != RightThumb && !HitTest.Contains(rects.right, p) ==> SetThumbState(w, p, rects, s).rightState == Normal
  {
  }

  /** The drag offset `OnMouseMove` computes on every move: the pointer's
      coordinate along the track over the control's length along it, times
      `Maximum - Minimum`, rounded. That product is floating point and is an
      input: either the rounded value, or not a finite number (a control of
      zero length). */
  datatype Projection = Projected(rounded: int) | NotFinite

  /** `Convert.ToInt32` accepts a finite value that rounds into the 32-bit
      range and throws otherwise. */
  predicate Converts(proj: Projection) {
    proj.Projected? && FitsInt32(proj.rounded)
  }

  /** `OnMouseMove` as the control writes it: a hover update, then the
      conversion of the projection, which throws when it fails, even when no
      thumb is dragged; then, while dragging, the value `minimum + offset` is
      applied to the dragged thumb if the strict test accepts it. The left
      thumb takes precedence when both flags are set. */
  function MouseMoveAsWritten(w: Widget, p: Point, rects: ThumbRects, proj: Projection): (r: Outcome)
    ensures r.Ok? <==> Converts(proj)
    ensures r.Thrown? ==> r.error == Overflow
    ensures r.w.leftState == SetThumbState(w, p, rects, Hot).leftState
    ensures r.w.rightState == SetThumbState(w, p, rects, Hot).rightState
    ensures r.w == SetThumbState(w, p, rects, Hot).(valueLeft := r.w.valueLeft, valueRight := r.w.valueRight)
    ensures r.events == [] ==> r.w.valueLeft == w.valueLeft && r.w.valueRight == w.valueRight
    ensures w.draggingLeft ==> r.w.valueRight == w.valueRight
    ensures Converts(proj) && w.draggingLeft ==>
      (r.events != [] <==> ValueModel.IsValidValueLeft(w, w.minimum + proj.rounded))
    ensures Converts(proj) && w.draggingLeft && r.events != [] ==>
      r.w.valueLeft == w.minimum + proj.rounded && r.events == [ValueChanged, LeftValueChanged]
    ensures !w.draggingLeft && w.draggingRight ==> r.w.valueLeft == w.valueLeft
    ensures Converts(proj) && !w.draggingLeft && w.draggingRight ==>
      (r.events != [] <==> ValueModel.IsValidValueRight(w, w.minimum + proj.rounded))
    ensures Converts(proj) && !w.draggingLeft && w.draggingRight && r.events != [] ==>
      r.w.valueRight == w.minimum + proj.rounded && r.events == [ValueChanged, RightValueChanged]
    ensures !w.draggingLeft && !w.draggingRight ==> r.events == []
    ensures r.events != [] ==> r.w.valueLeft < r.w.valueRight
    ensures Valid(w) ==> Valid(r.w)
  {
    var hovered := SetThumbState(w, p, rects, Hot);
    if !Converts(proj) then Thrown(hovered, [], Overflow)
    else
      var next := hovered.minimum + proj.rounded;
      if hovered.draggingLeft then
        if ValueModel.IsValidValueLeft(hovered, next) then ValueModel.SetValueLeft(hovered, next) else Ok(hovered, [])
      else if hovered.draggingRight then
        if ValueModel.IsValidValueRight(hovered, next) then ValueModel.SetValueRight(hovered, next) else Ok(hovered, [])
      else Ok(hovered, [])
  }

  /** A move whose projection does not convert throws, whatever the drag
      state: with range 0 to 2,000,000,000, a pointer held at x 300 on a
      control 145 wide projects to about 4.1e9. The thumb values are
      untouched; only the hover update has happened. */
  lemma MoveAsWrittenCanThrow(w: Widget, p: Point, rects: ThumbRects, proj: Projection)
    requires !Converts(proj)
    ensures MouseMoveAsWritten(w, p, rects, proj) == Thrown(SetThumbState(w, p, rects, Hot), [], Overflow)
  {
  }

  /** `OnMouseMove` with the conversion failure treated as every other
      unacceptable drag is: the move is dropped after the hover update. It
      never throws, and it agrees with the handler as written whenever that
      does not throw. */
  function MouseMove(w: Widget, p: Point, rects: ThumbRects, proj: Projection): (r: Outcome)
    ensures r.Ok?
    ensures Converts(proj) ==> r == MouseMoveAsWritten(w, p, rects, proj)
    ensures !Converts(proj) ==> r == Ok(MouseMoveAsWritten(w, p, rects, proj).w, [])
    ensures Valid(w) ==> Valid(r.w)
  {
    if Converts(proj) then MouseMoveAsWritten(w, p, rects, proj)
    else Ok(SetThumbState(w, p, rects, Hot), [])
  }

  /** The stepper a click on the empty track runs for the chosen thumb:
      down when the pointer's x is left of the thumb rectangle's x, up
      otherwise. The x coordinate is compared in both orientations. */
  function ClickStep(w: Widget, t: Thumb, p: Point, rects: ThumbRects): (r: Outcome)
    requires t == LeftThumb || t == RightThumb
    ensures r.Ok?
    ensures t == LeftThumb ==> r.w == w.(valueLeft := r.w.valueLeft)
    ensures t == RightThumb ==> r.w == w.(valueRight := r.w.valueRight)
    ensures t == LeftThumb && p.x < rects.left.x ==> r == ValueModel.DecrementLeft(w)
    ensures t == LeftThumb && p.x >= rects.left.x ==> r == ValueModel.IncrementLeft(w)
    ensures t == RightThumb && p.x < rects.right.x ==> r == ValueModel.DecrementRight(w)
    ensures t == RightThumb && p.x >= rects.right.x ==> r == ValueModel.IncrementRight(w)
  {
    if t == LeftThumb then
      if p.x < rects.left.x then ValueModel.DecrementLeft(w) else ValueModel.IncrementLeft(w)
    else
      if p.x < rects.right.x then ValueModel.DecrementRight(w) else ValueModel.IncrementRight(w)
  }

  /** The first half of `OnMouseDown`: a press update; a press on the left
      thumb starts a left drag, otherwise a press on the right thumb starts a
      right drag (the right flag is left as it was when the left thumb is
      hit); the dragged thumb becomes selected. */
  function Press(w: Widget, p: Point, rects: ThumbRects): (r: Widget)
    ensures r.leftState == SetThumbState(w, p, rects, Pressed).leftState
    ensures r.rightState == SetThumbState(w, p, rects, Pressed).rightState
    ensures r.draggingLeft == HitTest.Contains(rects.left, p)
    ensures r.draggingRight == if HitTest.Contains(rects.left, p) then w.draggingRight else HitTest.Contains(rects.right, p)
    ensures r.selected == if r.draggingLeft then LeftThumb else if r.draggingRight then RightThumb else w.selected
    ensures r == w.(leftState := r.leftState, rightState := r.rightState, selected := r.selected,
                    draggingLeft := r.draggingLeft, draggingRight := r.draggingRight)
  {
    var pressed := SetThumbState(w, p, rects, Pressed);
    var dragLeft := pressed.leftState == Pressed;
    var dragRight := if !dragLeft then pressed.rightState == Pressed else pressed.draggingRight;
    pressed.(draggingLeft := dragLeft, draggingRight := dragRight,
             selected := if dragLeft then LeftThumb else if dragRight then RightThumb else pressed.selected)
  }

  /** `OnMouseDown`: the press of `Press`; when it started no drag, the
      click landed on the empty track and the closest thumb is stepped and
      selected. */
  function MouseDown(w: Widget, p: Point, rects: ThumbRects): (r: Outcome)
    ensures r.Ok?
    ensures r.w.leftState == Press(w, p, rects).leftState && r.w.rightState == Press(w, p, rects).rightState
    ensures r.w.draggingLeft == Press(w, p, rects).draggingLeft
    ensures r.w.draggingRight == Press(w, p, rects).draggingRight
    ensures r.w.draggingLeft || r.w.draggingRight ==> r == Ok(Press(w, p, rects), [])
    ensures !r.w.draggingLeft && !r.w.draggingRight ==>
      && r.w.selected == HitTest.ClosestSlider(w.orientation, rects, p)
      && r.w == ClickStep(Press(w, p, rects), r.w.selected, p, rects).w.(selected := r.w.selected)
      && r.events == ClickStep(Press(w, p, rects), r.w.selected, p, rects).events
    ensures Valid(w) ==> Valid(r.w)
  {
    var flagged := Press(w, p, rects);
    if !flagged.draggingLeft && !flagged.draggingRight then
      var t := HitTest.ClosestSlider(flagged.orientation, rects, p);
      var stepped := ClickStep(flagged, t, p, rects);
      Ok(stepped.w.(selected := t), stepped.events)
    else Ok(flagged, [])
  }

  /** Starting with neither thumb dragged, a press starts at most one drag. */
  lemma MouseDownStartsAtMostOneDrag(w: Widget, p: Point, rects: ThumbRects)
    requires !w.draggingLeft && !w.draggingRight
    ensures !(MouseDown(w, p, rects).w.draggingLeft && MouseDown(w, p, rects).w.draggingRight)
  {
  }

  /** A second press on the left thumb while a right drag is still flagged
      leaves both flags set; the move handler then drags the left thumb. */
  lemma MouseDownCanFlagBothDrags(w: Widget, p: Point, rects: ThumbRects)
    requires w.draggingRight && HitTest.Contains(rects.left, p)
    ensures MouseDown(w, p, rects).w.draggingLeft && MouseDown(w, p, rects).w.draggingRight
  {
  }

  /** In vertical orientation the closest thumb is found along y but the
      step direction still follows x: a click left of the thumb rectangle
      steps down even when it lies below the thumb, that is, past it along
      the track. */
  lemma VerticalClickStepsByX(w: Widget, p: Point, rects: ThumbRects)
    requires Valid(w) && w.orientation == Vertical
    requires w.minimum < w.valueRight
    requires !HitTest.Contains(rects.left, p) && !HitTest.Contains(rects.right, p)
    requires HitTest.ClosestSlider(Vertical, rects, p) == LeftThumb
    requires p.x < rects.left.x && p.y >= rects.left.BottomEdge()
    ensures MouseDown(w, p, rects).events == [ValueChanged, LeftValueChanged]
    ensures MouseDown(w, p, rects).w.valueLeft <= w.valueLeft
  {
  }

  /** `OnMouseUp`: both drags end. */
  function MouseUp(w: Widget): (r: Widget)
    ensures !r.draggingLeft && !r.draggingRight
    ensures r == w.(draggingLeft := false, draggingRight := false)
  {
    w.(draggingLeft := false, draggingRight := false)
  }

  /** `OnMouseWheel`: a zero delta or no selected thumb does nothing;
      otherwise the selected thumb steps up for a positive delta and down
      for a negative one. */
  function MouseWheel(w: Widget, delta: int): (r: Outcome)
    ensures r.Ok?
    ensures delta == 0 || w.selected == NoThumb ==> r == Ok(w, [])
    ensures delta > 0 && w.selected == LeftThumb ==> r == ValueModel.IncrementLeft(w)
    ensures delta < 0 && w.selected == LeftThumb ==> r == ValueModel.DecrementLeft(w)
    ensures delta > 0 && w.selected == RightThumb ==> r == ValueModel.IncrementRight(w)
    ensures delta < 0 && w.selected == RightThumb ==> r == ValueModel.DecrementRight(w)
    ensures Valid(w) ==> Valid(r.w)
  {
    if delta == 0 then Ok(w, [])
    else if w.selected == LeftThumb then
      if delta > 0 then ValueModel.IncrementLeft(w) else ValueModel.DecrementLeft(w)
    else if w.selected == RightThumb then
      if delta > 0 then ValueModel.IncrementRight(w) else ValueModel.DecrementRight(w)
    else Ok(w, [])
  }

  /** `OnMouseLeave`: the selection is dropped and the thumbs are updated
      with `Normal` at the given pointer position, so both end `Normal`
      whatever that position is. */
  function MouseLeave(w: Widget, p: Point, rects: ThumbRects): (r: Widget)
    ensures r.selected == NoThumb
    ensures r.leftState == Normal && r.rightState == Normal
    ensures r == w.(selected := NoThumb, leftState := Normal, rightState := Normal)
  {
    SetThumbState(w.(selected := NoThumb), p, rects, Normal)
  }
}
