# DoubleTrackBar: a Dafny model of the dual-thumb range slider

DoubleTrackBar is a WinForms control with two thumbs on one track. The user
picks a sub-range `[ValueLeft, ValueRight]` of `[Minimum, Maximum]` by
dragging, clicking or wheeling. This project models the control's integer
logic with the drawing calls removed. The model is an immutable `Widget`
record, and every property setter and event handler is a pure function of
it. Those that can throw or raise a notification return an `Outcome`:

- `Ok(w, events)`: the call finished. `w` is the new state and `events` are
  the change notifications raised, in order.
- `Thrown(w, events, error)`: an exception escaped. `w` is the state the
  widget was left in.

The handlers that can do neither return the new `Widget` directly:
`MouseUp`, `MouseLeave`, and the `TickStyle`, `Orientation`,
`LeftThumbDirection` and `RightThumbDirection` setters.

The modules follow the control's parts:

| module | file | what it holds |
|---|---|---|
| `Widgets` | widgets.dfy | enumerations, `Rect`/`Bounds`, the widget record, `Outcome`, the value invariant `Valid` |
| `IntMath` | int_math.dfy | C# truncating `/ 2`, `Convert.ToInt32(n / 2.0)` (ties to even), min/max |
| `ValueModel` | value_model.dfy | the `ValueLeft`/`ValueRight`/`Minimum`/`Maximum`/`SmallChange` setters, `IsValidValue*`, the four steppers |
| `Appearance` | appearance.dfy | the tick-style → thumb-direction table, the `TickStyle` and `Orientation` setters |
| `Defaults` | defaults.dfy | `SetDefaults` and the constructor |
| `HitTest` | hit_test.dfy | rectangle containment, `GetClosestSlider` |
| `Interaction` | interaction.dfy | `SetThumbState` and the mouse move/down/up/wheel/leave handlers |
| `Layout` | layout.dfy | track rectangle, tick strips, the double-pointed thumb reshape, the thumb glyph |
| `Host` | host.dfy | inputs, runs of inputs, the run invariant |
| `Scenarios` | scenarios.dfy | worked examples on the default control |

Thumb rectangles and the drag offset are computed with floating point.
They enter the model as inputs. The thumb size comes from the toolkit's
renderer and is also an input.

The setters allow the two thumbs to be equal (`ValueLeft <= ValueRight`).
Interactive movement forbids it: the steppers and drags go through
`IsValidValueLeft`/`IsValidValueRight`, which demand `ValueLeft < ValueRight`.
`ValueModel.StrictValidityVersusSetters` states the difference exactly: the
strict test accepts what the setter accepts, minus the one value that would
make the thumbs coincide.

Where the code departs from what the property names suggest, the model
follows the code:

- A step that lands on the value the thumb already has still raises
  `ValueChanged` and the thumb's own notification. This happens to
  `IncrementRight` at the maximum and `DecrementLeft` at the minimum, so a
  wheel step at the end of the range is not silent.
- `GetClosestSlider` picks the right thumb only when both of the left
  thumb's edge distances are strictly greater than the right thumb's. It
  does not compare the smaller of the two distances.
- The track's vertical position and the thumb half-width use
  `Convert.ToInt32(x / 2.0)`, which rounds ties to even. They do not use the
  floor or the ceiling.
- In vertical orientation, a click on the empty track compares the
  pointer's x with the thumb rectangle's x. The closest thumb is still found
  along y (`Interaction.VerticalClickStepsByX`).
- `OnMouseDown` leaves `draggingRight` untouched when the left thumb is hit.
  A second press on the left thumb while a right drag is flagged therefore
  sets both flags, and the move handler then drags the left thumb
  (`Interaction.MouseDownCanFlagBothDrags`).
- The `Orientation` setter swaps width and height even when it is given the
  orientation the control already has.
- A pointer move can throw. `OnMouseMove` converts the drag projection with
  `Convert.ToInt32` on every move, dragging or not. That conversion throws
  when the projection is not finite (a control of zero length) or lies
  outside the 32-bit range (a captured pointer far past the control with a
  wide range). Every other unacceptable drag is dropped silently, so this
  is the one way a drag raises an exception. See the third row under
  "## Findings".

## Model

| member | source | states |
|---|---|---|
| Widgets.Zero | DoubleTrackBar/DoubleTrackBar.cs:14-25 | before the constructor body runs, every value is zero, so the value invariant does not hold yet |
| Widgets.WellPairedConcat | DoubleTrackBar/DoubleTrackBar.cs:773-786 | joining two traces, each made of `ValueChanged` directly followed by `LeftValueChanged` or `RightValueChanged`, gives another such trace |
| IntMath.Half | DoubleTrackBar/DoubleTrackBar.cs:257-263 | C# integer halving is within one of the exact half and rounds toward zero for negative sizes |
| IntMath.RoundHalf | DoubleTrackBar/DoubleTrackBar.cs:500 | `Convert.ToInt32(n / 2.0)` is within one half of `n / 2` and is even on a tie |
| IntMath.RoundHalfUnique | DoubleTrackBar/DoubleTrackBar.cs:500 | the nearest-integer and ties-to-even conditions fix the rounded value uniquely |
| IntMath.RoundHalfVersusTruncation | DoubleTrackBar/DoubleTrackBar.cs:500 | rounding equals truncation on even sizes; on odd sizes it is the floor or the ceiling, whichever is even |
| ValueModel.SetValueLeft | DoubleTrackBar/DoubleTrackBar.cs:105-124 | accepted iff inside [Minimum, Maximum] and not above ValueRight (equal allowed); an accepted value is stored exactly and raises ValueChanged then LeftValueChanged; a rejected one changes nothing; validity is kept |
| ValueModel.SetValueRight | DoubleTrackBar/DoubleTrackBar.cs:161-180 | mirror image of the left setter; the crossing error carries the left value's parameter name |
| ValueModel.ReassignStillNotifies | DoubleTrackBar/DoubleTrackBar.cs:111-123 | re-assigning the current value succeeds, leaves the state the same and still raises both notifications |
| ValueModel.IsValidValueLeft | DoubleTrackBar/DoubleTrackBar.cs:411-414 | a left value the strict test accepts is accepted by the setter and leaves the thumbs strictly apart |
| ValueModel.IsValidValueRight | DoubleTrackBar/DoubleTrackBar.cs:416-419 | a right value the strict test accepts is accepted by the setter and leaves the thumbs strictly apart |
| ValueModel.StrictValidityVersusSetters | DoubleTrackBar/DoubleTrackBar.cs:411-419 | the strict tests hold iff the matching setter would accept the value and the value is not the other thumb's |
| ValueModel.SetMinimumAsWritten | DoubleTrackBar/DoubleTrackBar.cs:195-203 | rejects v ≥ Maximum without change; otherwise stores v and raises ValueLeft to it; when v is above ValueRight the nested setter throws with v already stored |
| ValueModel.MinimumAsWrittenBreaksValid | DoubleTrackBar/DoubleTrackBar.cs:199-201 | on a valid widget with ValueRight < v < Maximum the setter throws and leaves Minimum above ValueLeft |
| ValueModel.SetMinimum | DoubleTrackBar/DoubleTrackBar.cs:195-203 | accepts exactly what the code accepts and then does the same; a rejection leaves the widget untouched; validity is kept |
| ValueModel.SetMaximumAsWritten | DoubleTrackBar/DoubleTrackBar.cs:228-236 | rejects v ≤ Minimum without change; otherwise stores v and lowers ValueRight to it; when v is below ValueLeft the nested setter throws with v already stored |
| ValueModel.MaximumAsWrittenBreaksValid | DoubleTrackBar/DoubleTrackBar.cs:232-234 | on a valid widget with Minimum < v < ValueLeft the setter throws and leaves Maximum below ValueRight |
| ValueModel.SetMaximum | DoubleTrackBar/DoubleTrackBar.cs:228-236 | accepts exactly what the code accepts and then does the same; a rejection leaves the widget untouched; validity is kept |
| ValueModel.SetSmallChange | DoubleTrackBar/DoubleTrackBar.cs:276-290 | accepted iff positive; raises no notification; a rejection changes nothing and throws the out-of-range exception built from the control's one message string |
| ValueModel.IncrementLeft | DoubleTrackBar/DoubleTrackBar.cs:325-331 | on a valid widget the left thumb moves up by exactly SmallChange when that stays below ValueRight, and otherwise is untouched with no notification; only ValueLeft changes |
| ValueModel.DecrementLeft | DoubleTrackBar/DoubleTrackBar.cs:347-353 | the left thumb moves down by SmallChange, saturating at Minimum; refused only when ValueRight is at Minimum |
| ValueModel.IncrementRight | DoubleTrackBar/DoubleTrackBar.cs:336-342 | the right thumb moves up by SmallChange, saturating at Maximum; refused only when ValueLeft is at Maximum |
| ValueModel.DecrementRight | DoubleTrackBar/DoubleTrackBar.cs:358-364 | the right thumb moves down by exactly SmallChange when that stays above ValueLeft, otherwise untouched with no notification |
| ValueModel.StepsAreMonotoneAndKeepGap | DoubleTrackBar/DoubleTrackBar.cs:325-364 | increments never lower a value, decrements never raise one, and ValueLeft < ValueRight survives every step |
| ValueModel.SetterAllowsWhatStepsForbid | DoubleTrackBar/DoubleTrackBar.cs:411-419 | the setter may put the left thumb onto the right one, but no step can make the thumbs coincide |
| ValueModel.IncrementThenDecrementLeft | DoubleTrackBar/DoubleTrackBar.cs:325-353 | an accepted step up of the left thumb followed by a step down restores the widget, with two notification pairs |
| ValueModel.DecrementThenIncrementLeft | DoubleTrackBar/DoubleTrackBar.cs:325-353 | a step down of the left thumb that hits no clamp, followed by a step up, restores the widget |
| ValueModel.IncrementThenDecrementRight | DoubleTrackBar/DoubleTrackBar.cs:336-364 | a step up of the right thumb that hits no clamp, followed by a step down, restores the widget |
| ValueModel.DecrementThenIncrementRight | DoubleTrackBar/DoubleTrackBar.cs:336-364 | an accepted step down of the right thumb followed by a step up restores the widget |
| Appearance.TickDirection | DoubleTrackBar/DoubleTrackBar.cs:369-388 | the thumbs point across the track, toward the top/left exactly for TopLeft and Both |
| Appearance.TickDirectionUnique | DoubleTrackBar/DoubleTrackBar.cs:369-388 | those two properties determine the table entry |
| Appearance.AdjustDirections | DoubleTrackBar/DoubleTrackBar.cs:369-388 | both thumbs get the same direction, taken from the table; nothing else changes |
| Appearance.SetTickStyle | DoubleTrackBar/DoubleTrackBar.cs:81-90 | stores the style and re-derives both directions from it |
| Appearance.SetLeftDirection | DoubleTrackBar/DoubleTrackBar.cs:96 | the left direction takes the given value and nothing else changes |
| Appearance.SetRightDirection | DoubleTrackBar/DoubleTrackBar.cs:93 | the right direction takes the given value and nothing else changes |
| Appearance.TickStyleDiscardsOverride | DoubleTrackBar/DoubleTrackBar.cs:81-96 | an explicitly set thumb direction is lost when the tick style is set again |
| Appearance.Center | DoubleTrackBar/DoubleTrackBar.cs:257 | the midpoint is the edge plus half the size truncated toward zero: within one pixel of the exact centre, and never past it for non-negative sizes |
| Appearance.SetOrientation | DoubleTrackBar/DoubleTrackBar.cs:255-266 | width and height are swapped, the integer midpoint is kept, and both directions are re-derived; the values are untouched |
| Appearance.OrientationTwiceRestoresBounds | DoubleTrackBar/DoubleTrackBar.cs:255-266 | setting the orientation twice restores location and size exactly |
| Appearance.SameOrientationStillSwaps | DoubleTrackBar/DoubleTrackBar.cs:255-266 | re-setting the current orientation still reshapes a non-square control |
| Defaults.SetDefaults | DoubleTrackBar/DoubleTrackBar.cs:312-321 | when it succeeds, the widget is valid with step 1, range 0..10, thumbs 0 and 7, ticks BottomRight |
| Defaults.Construct | DoubleTrackBar/DoubleTrackBar.cs:52-56 | construction does not throw, leaves a valid widget, and keeps the default size |
| Defaults.ConstructDefaults | DoubleTrackBar/DoubleTrackBar.cs:52-56 | construction succeeds with exactly the default state, both thumbs pointing down, and the notifications ValueChanged, LeftValueChanged, ValueChanged, RightValueChanged |
| Defaults.ConstructionNeverReachesNonAtomicPath | DoubleTrackBar/DoubleTrackBar.cs:314-316 | during construction the as-written bound setters succeed and agree with the checked ones |
| HitTest.ClosestSlider | DoubleTrackBar/DoubleTrackBar.cs:509-525 | Right iff both of the left thumb's edge distances along the axis strictly exceed the right thumb's; ties go Left |
| HitTest.ClosestIgnoresCrossAxis | DoubleTrackBar/DoubleTrackBar.cs:509-525 | only the coordinate along the track matters |
| HitTest.ClosestTieIsLeft | DoubleTrackBar/DoubleTrackBar.cs:509-525 | co-located thumbs always resolve to Left |
| HitTest.ClosestBeyondEnds | DoubleTrackBar/DoubleTrackBar.cs:509-525 | with the left thumb first, a point past both far edges goes Right and a point before both near edges goes Left |
| HitTest.ClosestCanPickFartherThumb | DoubleTrackBar/DoubleTrackBar.cs:516-519 | a point on the right thumb's near edge can resolve to the touching left thumb |
| Interaction.SetThumbState | DoubleTrackBar/DoubleTrackBar.cs:569-587 | a thumb under the point takes the new state, otherwise Hot if selected, else Normal; only visual states change |
| Interaction.ThumbStatesIndependent | DoubleTrackBar/DoubleTrackBar.cs:569-587 | each thumb's state does not depend on the other thumb's rectangle |
| Interaction.SelectedThumbStaysLit | DoubleTrackBar/DoubleTrackBar.cs:569-587 | under a hover or press the selected thumb is Hot or Pressed, and an unselected thumb off the pointer is Normal |
| Interaction.MouseMoveAsWritten | DoubleTrackBar/DoubleTrackBar.cs:592-622 | hover update; throws an overflow iff the projection does not convert to a 32-bit integer, with the values untouched; otherwise, while dragging, Minimum + offset is applied to the dragged thumb iff its strict test accepts it, with the left thumb taking precedence; an applied drag leaves the thumbs strictly apart; validity is kept |
| Interaction.MoveAsWrittenCanThrow | DoubleTrackBar/DoubleTrackBar.cs:597-606 | any projection outside the 32-bit range, or not finite, makes the move throw after the hover update, dragging or not |
| Interaction.MouseMove | DoubleTrackBar/DoubleTrackBar.cs:592-622 | never throws; equals the handler as written whenever the projection converts, and otherwise keeps only the hover update; validity is kept |
| Interaction.ClickStep | DoubleTrackBar/DoubleTrackBar.cs:641-656 | the chosen thumb steps down when the pointer's x is left of its rectangle's x, up otherwise, and only that thumb changes |
| Interaction.Press | DoubleTrackBar/DoubleTrackBar.cs:628-637 | draggingLeft iff the left rectangle holds the point; draggingRight is re-decided only when the left thumb is not hit; the dragged thumb becomes selected |
| Interaction.MouseDown | DoubleTrackBar/DoubleTrackBar.cs:624-660 | a press on a thumb changes no value; a press on neither steps the closest thumb and selects it; validity is kept |
| Interaction.MouseDownStartsAtMostOneDrag | DoubleTrackBar/DoubleTrackBar.cs:630-632 | from no drag, a press starts at most one |
| Interaction.MouseDownCanFlagBothDrags | DoubleTrackBar/DoubleTrackBar.cs:630-632 | a press on the left thumb while a right drag is flagged leaves both flags set |
| Interaction.VerticalClickStepsByX | DoubleTrackBar/DoubleTrackBar.cs:641-648 | vertically, a click left of and below the left thumb still steps it down |
| Interaction.MouseUp | DoubleTrackBar/DoubleTrackBar.cs:662-668 | both drag flags are cleared and nothing else changes |
| Interaction.MouseWheel | DoubleTrackBar/DoubleTrackBar.cs:670-690 | zero delta or no selection does nothing; otherwise the selected thumb steps up on positive and down on negative delta |
| Interaction.MouseLeave | DoubleTrackBar/DoubleTrackBar.cs:697-703 | the selection is dropped and both thumbs end Normal wherever the pointer is |
| Layout.ThumbBorder | DoubleTrackBar/DoubleTrackBar.cs:709 | half the thumb width, nearest integer with ties to even |
| Layout.TrackRectangle | DoubleTrackBar/DoubleTrackBar.cs:495-507 | horizontally the track is 4 high, inset by the border on the left and the border plus one on the right, with its top 3 above the rounded half height; vertically it is 4 wide at the truncated half width, from 8 to 7 short of the bottom |
| Layout.TickStrips | DoubleTrackBar/DoubleTrackBar.cs:714-761 | 0, 1 or 2 strips by style, each the track moved 15 across the axis (negative for TopLeft, positive for BottomRight, positive then negative for Both), each with Maximum − Minimum + 1 ticks |
| Layout.ThumbsPointAtTicks | DoubleTrackBar/DoubleTrackBar.cs:714-761 | with ticks on one side, the direction table points the thumbs toward that side |
| Layout.BothStripsMirror | DoubleTrackBar/DoubleTrackBar.cs:730-735 | with ticks on both sides the two strips sit symmetrically about the track |
| Layout.PaintTicks | DoubleTrackBar/DoubleTrackBar.cs:705-761 | on a valid widget every strip painted has at least two ticks |
| Layout.ReshapeForBoth | DoubleTrackBar/DoubleTrackBar.cs:545-562 | keeps position and side lengths, and makes the side across the track the long one |
| Layout.ReshapeIdempotent | DoubleTrackBar/DoubleTrackBar.cs:545-562 | reshaping twice equals reshaping once, and a well-shaped rectangle is left alone |
| Layout.DrawThumb | DoubleTrackBar/DoubleTrackBar.cs:534-567 | double-pointed exactly for Both, in the reshaped rectangle; otherwise directed in the given rectangle |
| Layout.PaintThumbs | DoubleTrackBar/DoubleTrackBar.cs:762-763 | each thumb is drawn in its own visual state; both are double-pointed exactly when ticks are on both sides, and otherwise each points in its own direction within its own rectangle |
| Host.Handle | DoubleTrackBar/DoubleTrackBar.cs:592-703 | with the corrected move handler and bound setters, pointer, wheel and stepper inputs never throw; every input keeps validity and raises whole notification pairs |
| Host.RunKeepsValid | DoubleTrackBar/DoubleTrackBar.cs:105-364 | with the corrected `SetMinimum`/`SetMaximum` (the setters as written break it), any sequence of inputs from a valid widget ends valid, with every ValueChanged directly followed by LeftValueChanged or RightValueChanged |
| Host.InteractiveRunNeverThrows | DoubleTrackBar/DoubleTrackBar.cs:592-703 | with the corrected move handler (the one as written can throw), a sequence of pointer, wheel and stepper inputs never throws at any step |
| Scenarios.DefaultWidget | DoubleTrackBar/DoubleTrackBar.cs:312-321 | the constructed widget is valid with range 0..10, thumbs 0 and 7, step 1, and no selection or drag |
| Scenarios.CrossPrevention | DoubleTrackBar/DoubleTrackBar.cs:111-180 | with thumbs 3 and 7, setting the right thumb to 2 throws with nothing changed; setting the left thumb to 7 succeeds |
| Scenarios.ClickPastRightThenWheel | DoubleTrackBar/DoubleTrackBar.cs:624-690 | a click at (140, 22) moves the right thumb 7→8 and selects it; the wheel then gives 9, 10, 10 (still notifying) and back to 9 |
| Scenarios.DragLeftIntoRight | DoubleTrackBar/DoubleTrackBar.cs:592-660 | dragging the left thumb to 9 is refused, to 6 is applied, to 7 is refused |
| Scenarios.CapturedDragOverflows | DoubleTrackBar/DoubleTrackBar.cs:597-606 | with range 0..2,000,000,000 and a left drag, the projection 4,137,931,034 makes the move as written throw with the values 0 and 7 kept; the corrected move drops it |
| Scenarios.OrientationSwap | DoubleTrackBar/DoubleTrackBar.cs:255-266 | a 145×45 control centred on (100, 100) becomes 45×145 with the same centre, thumbs pointing right |

## Left out

- Thumb placement (`GetThumbRectangle`, lines 451-474), the relative values (lines 292-308) and the drag offset projection (lines 596-606) use floating-point arithmetic. Thumb rectangles are inputs to the handlers. The projection is an input too: either its rounded value or "not finite". Only its conversion to a 32-bit integer is modelled. The zero-denominator branch of `RelativeValueRight` (line 306) returns the left value, but it cannot be reached while Minimum < Maximum.
- `GetThumbSize`, `DrawDirectedThumb`, the track and tick drawing, and `DrawVerticalThumb` are calls into the toolkit's renderer. The thumb width used for painting is an input.
- The `_renderingthumb` side effect of the thumb-rectangle getters only decides which thumb's size `OnPaint` measures. It is folded into the thumb-width input.
- `Invalidate`, `Focus`, `CreateGraphics`/`Dispose`, the border drawing and the colour fills are host plumbing. The colour slots, `BorderStyle` and `TickEdgeStyle` are only passed to the renderer, so no decision depends on them. They are not part of the widget record, and `SetDefaults` setting `TickEdgeStyle` is not modelled.
- `MousePosition` in `OnMouseLeave` is the system's pointer position. It is an input, and the result does not depend on it.
- `AutoSize`/`SetStyle` (lines 126-152), the designer hit test (lines 790-801) and the attributes are toolkit integration. So is any clamping the host applies to Width and Height, which are plain integers here.
- The mouse handlers never look at which button was pressed, so the model has no button parameter.
- ValueModel.IncrementLeft: uses unbounded integers. C#'s 32-bit `ValueLeft + SmallChange` would wrap near `int.MaxValue`, which this does not model. The same holds for ValueModel.IncrementRight, ValueModel.DecrementLeft and ValueModel.DecrementRight.
- ValueModel.IncrementRight: does not model 32-bit wrap-around of `ValueRight + SmallChange`. Only values near `int.MaxValue` can reach it.
- ValueModel.DecrementLeft: does not model 32-bit wrap-around of `ValueLeft - SmallChange`. Only values near `int.MinValue` can reach it.
- ValueModel.DecrementRight: does not model 32-bit wrap-around of `ValueRight - SmallChange`. Only values near `int.MinValue` can reach it.
- Layout.TickStrips: the tick count `Maximum - Minimum + 1` is unbounded here, while C# wraps it for ranges near the full 32-bit span.
- Interaction.MouseMove: `Minimum + offset` is unbounded here, while C# wraps it for extreme minima. The same holds for Interaction.MouseMoveAsWritten.
- Host.Handle: notification subscribers are assumed not to call back into the control. The source raises `ValueChanged` synchronously after storing a value and before the thumb's own notification (lines 119 and 175). A subscriber that assigns a value from its `ValueChanged` handler would interleave a second pair, and the whole-pairs clause depends on that not happening.
- Host.RunKeepsValid: its whole-pairs clause rests on the same assumption: subscribers do not call back into the control. Nested notifications from re-entrant assignments are not modelled.
- Host.Handle: its never-throws clause holds because a move input goes to the corrected Interaction.MouseMove. The handler as written throws on a projection that does not convert (Interaction.MoveAsWrittenCanThrow).
- Host.InteractiveRunNeverThrows: it holds for the corrected move handler only. With the handler as written, one move with a non-finite or out-of-range projection throws.
- Interaction.SetThumbState: its contract spells out the per-thumb decision. Its meaning is stated by Interaction.ThumbStatesIndependent and Interaction.SelectedThumbStaysLit.

## Findings

| source | as written | input that shows it | evidently intended | confidence | as-written member | corrected member |
|---|---|---|---|---|---|---|
| DoubleTrackBar/DoubleTrackBar.cs:195-203 | the `Minimum` setter stores the new bound before assigning `ValueLeft`. That assignment throws when the bound exceeds `ValueRight`, and the bound stays stored | defaults (0, 10, 0, 7), set `Minimum = 8`: an exception is thrown, and the widget is left with Minimum 8 and ValueLeft 0 | reject with the widget unchanged, like every other setter | medium; not executed | ValueModel.SetMinimumAsWritten (counterexample ValueModel.MinimumAsWrittenBreaksValid) | ValueModel.SetMinimum |
| DoubleTrackBar/DoubleTrackBar.cs:228-236 | the `Maximum` setter stores the new bound before assigning `ValueRight`. That assignment throws when the bound is below `ValueLeft`, and the bound stays stored | thumbs at 5 and 7 in 0..10, set `Maximum = 3`: an exception is thrown, and the widget is left with Maximum 3 and ValueRight 7 | reject with the widget unchanged | medium; not executed | ValueModel.SetMaximumAsWritten (counterexample ValueModel.MaximumAsWrittenBreaksValid) | ValueModel.SetMaximum |
| DoubleTrackBar/DoubleTrackBar.cs:597-606 | `OnMouseMove` passes the drag projection to `Convert.ToInt32` on every move. That conversion throws for a non-finite or out-of-range value | range 0 to 2,000,000,000, control 145 wide, pointer captured at x 300 during a left drag: the projection is about 4,137,931,034 and the move throws | drop the move, as every other unacceptable drag is dropped, so that a drag never raises an exception | low; not executed | Interaction.MouseMoveAsWritten (counterexample Interaction.MoveAsWrittenCanThrow, Scenarios.CapturedDragOverflows) | Interaction.MouseMove |

The corrected bound setters are the ones `Defaults.SetDefaults` and `Host.Handle` use, and `Host.Handle` uses the corrected move handler. `Host.RunKeepsValid` therefore holds for every sequence of inputs. With the bound setters as written it fails, as the two counterexample lemmas show. With the move handler as written, `Host.InteractiveRunNeverThrows` fails.
