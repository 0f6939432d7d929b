/** Construction: the constructor runs `SetDefaults` on a control whose
    fields all hold their zero values and whose size is the default size. */
module Defaults {
  import opened Widgets
  import ValueModel
  import Appearance

  /** The control's default size, placed at the origin. */
  const DefaultBounds := Bounds(0, 0, 145, 45)

  /** `SetDefaults`: step 1, bounds 0..10, thumbs at 0 and 7, ticks below or
      to the right, through the public setters and in the control's order. */
  function SetDefaults(w: Widget): (r: Outcome)
    ensures r.Ok? ==> r.w.smallChange == 1 && r.w.minimum == 0 && r.w.maximum == 10
    ensures r.Ok? ==> r.w.valueLeft == 0 && r.w.valueRight == 7 && r.w.tickStyle == BottomRight
    ensures r.Ok? ==> Valid(r.w)
  {
    ValueModel.SetSmallChange(w, 1)
      .Then(x => ValueModel.SetMaximum(x, 10))
      .Then(x => ValueModel.SetMinimum(x, 0))
      .Then(x => ValueModel.SetValueLeft(x, 0))
      .Then(x => ValueModel.SetValueRight(x, 7))
      .Then(x => Ok(Appearance.SetTickStyle(x, BottomRight), []))
  }

  /** The constructor: `SetDefaults` on a zeroed control of the default
      size. It does not throw and leaves a valid widget. */
  function Construct(): (r: Outcome)
    ensures r.Ok? && Valid(r.w)
    ensures r.w.bounds == DefaultBounds
  {
    SetDefaults(Zero(DefaultBounds))
  }

  /** Construction succeeds with a valid widget whose thumbs both point
      down, raises one notification pair per thumb, and leaves the
      interaction state idle. */
  lemma ConstructDefaults()
    ensures Construct().Ok?
    ensures Valid(Construct().w)
    ensures Construct().w == Widget(0, 10, 0, 7, 1, Horizontal, BottomRight, Bottom, Bottom,
                                    Unset, Unset, NoThumb, false, false, DefaultBounds)
    ensures Construct().events == [ValueChanged, LeftValueChanged, ValueChanged, RightValueChanged]
  {
  }

  /** The setters as written agree with the checked ones during
      construction: nothing is thrown on either path. */
  lemma ConstructionNeverReachesNonAtomicPath()
    ensures ValueModel.SetMaximumAsWritten(Zero(DefaultBounds).(smallChange := 1), 10)
         == ValueModel.SetMaximum(Zero(DefaultBounds).(smallChange := 1), 10)
    ensures ValueModel.SetMaximumAsWritten(Zero(DefaultBounds).(smallChange := 1), 10).Ok?
    ensures ValueModel.SetMinimumAsWritten(Zero(DefaultBounds).(smallChange := 1, maximum := 10), 0).Ok?
  {
  }
}
