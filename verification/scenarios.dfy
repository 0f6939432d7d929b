/** Worked scenarios on the default control: crossing prevention, a click
    past the right thumb followed by wheel steps, a left drag into the right
    thumb, and an orientation change. */
module Scenarios {
  import opened Widgets
  import ValueModel
  import Appearance
  import HitTest
  import Interaction
  import Defaults

  /** The state the constructor leaves. */
  function DefaultWidget(): (w: Widget)
    ensures Valid(w)
    ensures w.minimum == 0 && w.maximum == 10 && w.valueLeft == 0 && w.valueRight == 7 && w.smallChange == 1
    ensures w.selected == NoThumb && !w.draggingLeft && !w.draggingRight
  {
    Defaults.ConstructDefaults();
    Defaults.Construct().w
  }

  /** With thumbs at 3 and 7 the right thumb cannot be set to 2 (nothing
      changes), while the left thumb may be set onto the right one. */
  lemma CrossPrevention()
    ensures var w := DefaultWidget().(valueLeft := 3);
      && ValueModel.SetValueRight(w, 2) == Thrown(w, [], ArgumentError("ValueLeft", 2))
      && ValueModel.SetValueLeft(w, 7) == Ok(w.(valueLeft := 7), [ValueChanged, LeftValueChanged])
  {
  }

  /** A click at (140, 22), past both thumbs, steps the right thumb from 7
      to 8 and selects it. Three wheel steps up then bring it to 9, 10 and
      10 again (the last re-assigns the maximum and still notifies), and a
      step down brings it back to 9. */
  lemma ClickPastRightThenWheel(rects: ThumbRects)
    requires rects.left.x < rects.right.x && rects.left.RightEdge() < rects.right.RightEdge()
    requires 0 <= rects.right.width && rects.right.RightEdge() <= 140
    ensures var click := Interaction.MouseDown(DefaultWidget(), Point(140, 22), rects);
      && click.w.valueRight == 8 && click.w.valueLeft == 0
      && click.events == [ValueChanged, RightValueChanged]
      && click.w.selected == RightThumb
      && var up1 := Interaction.MouseWheel(click.w, 120);
      && up1.w.valueRight == 9
      && var up2 := Interaction.MouseWheel(up1.w, 120);
      && up2.w.valueRight == 10
      && var up3 := Interaction.MouseWheel(up2.w, 120);
      && up3.w.valueRight == 10 && up3.events == [ValueChanged, RightValueChanged]
      && Interaction.MouseWheel(up3.w, -120).w.valueRight == 9
  {
  }

  /** Dragging the left thumb from 0: a move to 9 is refused (beyond the
      right thumb at 7), a move to 6 is applied, and a move to 7 is refused
      because the thumbs would coincide. */
  lemma DragLeftIntoRight(p: Point, rects: ThumbRects, q: Point)
    requires HitTest.Contains(rects.left, p)
    ensures var down := Interaction.MouseDown(DefaultWidget(), p, rects);
      && down.w.draggingLeft && down.w.selected == LeftThumb && down.events == []
      && var to9 := Interaction.MouseMove(down.w, q, rects, Interaction.Projected(9));
      && to9.w.valueLeft == 0 && to9.events == []
      && var to6 := Interaction.MouseMove(to9.w, q, rects, Interaction.Projected(6));
      && to6.w.valueLeft == 6 && to6.events == [ValueChanged, LeftValueChanged]
      && var to7 := Interaction.MouseMove(to6.w, q, rects, Interaction.Projected(7));
      && to7.w.valueLeft == 6 && to7.events == []
  {
  }

  /** With the range widened to 0..2,000,000,000 and the left thumb
      dragged, a pointer held at x 300 on the 145-wide control projects to
      4,137,931,034, beyond the 32-bit range: the move as written throws
      with the values unchanged, and the corrected move drops it. */
  lemma CapturedDragOverflows(p: Point, rects: ThumbRects, q: Point)
    requires HitTest.Contains(rects.left, p)
    ensures var wide := DefaultWidget().(maximum := 2_000_000_000);
      && var down := Interaction.MouseDown(wide, p, rects);
      && down.w.draggingLeft
      && var thrown := Interaction.MouseMoveAsWritten(down.w, q, rects, Interaction.Projected(4_137_931_034));
      && thrown.Thrown? && thrown.error == Overflow
      && thrown.w.valueLeft == 0 && thrown.w.valueRight == 7
      && Interaction.MouseMove(down.w, q, rects, Interaction.Projected(4_137_931_034)) == Ok(thrown.w, [])
  {
  }

  /** A 145 by 45 control centred on (100, 100) turned vertical is 45 by
      145, still centred on (100, 100), with both thumbs pointing right. */
  lemma OrientationSwap()
    ensures var w := DefaultWidget().(bounds := Bounds(28, 78, 145, 45));
      && Appearance.Center(w.bounds) == Point(100, 100)
      && var v := Appearance.SetOrientation(w, Vertical);
      && v.bounds == Bounds(78, 28, 45, 145)
      && Appearance.Center(v.bounds) == Point(100, 100)
      && v.leftDirection == Right && v.rightDirection == Right
  {
  }
}
