/** The value model: the guarded property setters for the two thumb values,
    the bounds and the step, the strict validity tests used by interactive
    movement, and the four saturating steppers. */
module ValueModel {
  import opened Widgets
  import opened IntMath

  /** The `ValueLeft` setter: range check, then the no-crossing check (equal
      thumbs are allowed); on success the value is stored and both
      notifications are raised even when the value did not change. */
  function SetValueLeft(w: Widget, v: int): (r: Outcome)
    ensures r.Ok? <==> w.minimum <= v <= w.maximum && v <= w.valueRight
    ensures r.Ok? ==> r.w == w.(valueLeft := v) && r.events == [ValueChanged, LeftValueChanged]
    ensures r.Thrown? ==> r.w == w && r.events == [] && r.error == ArgumentError("ValueLeft", v)
    ensures Valid(w) ==> Valid(r.w)
  {
    if v < w.minimum || v > w.maximum then Thrown(w, [], ArgumentError("ValueLeft", v))
    else if v > w.valueRight then Thrown(w, [], ArgumentError("ValueLeft", v))
    else Ok(w.(valueLeft := v), [ValueChanged, LeftValueChanged])
  }

  /** The `ValueRight` setter. Its crossing error carries the parameter name
      of the left value, as the control's own exception does. */
  function SetValueRight(w: Widget, v: int): (r: Outcome)
    ensures r.Ok? <==> w.minimum <= v <= w.maximum && v >= w.valueLeft
    ensures r.Ok? ==> r.w == w.(valueRight := v) && r.events == [ValueChanged, RightValueChanged]
    ensures r.Thrown? ==> r.w == w && r.events == []
    ensures r.Thrown? ==> r.error == ArgumentError(if v < w.minimum || v > w.maximum then "ValueRight" else "ValueLeft", v)
    ensures Valid(w) ==> Valid(r.w)
  {
    if v < w.minimum || v > w.maximum then Thrown(w, [], ArgumentError("ValueRight", v))
    else if v < w.valueLeft then Thrown(w, [], ArgumentError("ValueLeft", v))
    else Ok(w.(valueRight := v), [ValueChanged, RightValueChanged])
  }

  /** Re-assigning the current value is accepted and still notifies. */
  lemma ReassignStillNotifies(w: Widget)
    requires Valid(w)
    ensures SetValueLeft(w, w.valueLeft) == Ok(w, [ValueChanged, LeftValueChanged])
    ensures SetValueRight(w, w.valueRight) == Ok(w, [ValueChanged, RightValueChanged])
  {
  }

  /** The strict test interactive movement applies to a new left value: a
      value it accepts is one the setter accepts and leaves the thumbs
      strictly apart. */
  function IsValidValueLeft(w: Widget, v: int): (ok: bool)
    ensures ok ==> SetValueLeft(w, v).Ok? && SetValueLeft(w, v).w.valueLeft < w.valueRight
  {
    v >= w.minimum && v <= w.maximum && v < w.valueRight
  }

  /** The strict test interactive movement applies to a new right value: a
      value it accepts is one the setter accepts and leaves the thumbs
      strictly apart. */
  function IsValidValueRight(w: Widget, v: int): (ok: bool)
    ensures ok ==> SetValueRight(w, v).Ok? && w.valueLeft < SetValueRight(w, v).w.valueRight
  {
    v >= w.minimum && v <= w.maximum && v > w.valueLeft
  }

  /** The strict tests are the setters' acceptance minus exactly the case
      where the two thumbs would coincide. */
  lemma StrictValidityVersusSetters(w: Widget, v: int)
    ensures IsValidValueLeft(w, v) <==> SetValueLeft(w, v).Ok? && v != w.valueRight
    ensures IsValidValueRight(w, v) <==> SetValueRight(w, v).Ok? && v != w.valueLeft
  {
  }

  /** The `Minimum` setter as the control writes it: the new bound is stored
      before the left value is raised to it, so when that nested assignment
      throws the bound stays stored and the left value is left below it. */
  function SetMinimumAsWritten(w: Widget, v: int): (r: Outcome)
    ensures r.Ok? <==> v < w.maximum && (w.valueLeft >= v || v <= w.valueRight)
    ensures r.Ok? ==> r.w == w.(minimum := v, valueLeft := Max(w.valueLeft, v))
    ensures r.Ok? ==> r.events == (if w.valueLeft < v then [ValueChanged, LeftValueChanged] else [])
    ensures r.Thrown? && v < w.maximum ==> r.w == w.(minimum := v) && r.events == []
    ensures r.Thrown? && v >= w.maximum ==> r.w == w && r.events == []
    ensures Valid(w) && r.Ok? ==> Valid(r.w)
  {
    if v >= w.maximum then Thrown(w, [], ArgumentError("Minimum", v))
    else
      var stored := w.(minimum := v);
      if stored.valueLeft < v then SetValueLeft(stored, v) else Ok(stored, [])
  }

  /** Raising the minimum above the right value breaks the invariant: the
      exception escapes with the new minimum stored and the left value
      below it. With the default values (0, 10, 0, 7) and a new minimum of
      8 this leaves minimum 8 and left value 0. */
  lemma MinimumAsWrittenBreaksValid(w: Widget, v: int)
    requires Valid(w) && w.valueRight < v < w.maximum
    ensures SetMinimumAsWritten(w, v).Thrown?
    ensures SetMinimumAsWritten(w, v).w.minimum == v
    ensures SetMinimumAsWritten(w, v).w.valueLeft == w.valueLeft
    ensures !Valid(SetMinimumAsWritten(w, v).w)
  {
  }

  /** The `Minimum` setter with the check done before anything is stored: it
      behaves as written whenever that succeeds, and a rejected call leaves
      the widget untouched. */
  function SetMinimum(w: Widget, v: int): (r: Outcome)
    ensures r.Ok? <==> SetMinimumAsWritten(w, v).Ok?
    ensures r.Ok? ==> r == SetMinimumAsWritten(w, v)
    ensures r.Thrown? ==> r.w == w && r.events == []
    ensures Valid(w) ==> Valid(r.w)
  {
    if v >= w.maximum then Thrown(w, [], ArgumentError("Minimum", v))
    else if w.valueLeft < v && v > w.valueRight then Thrown(w, [], ArgumentError("ValueLeft", v))
    else SetMinimumAsWritten(w, v)
  }

  /** The `Maximum` setter as written: the bound is stored before the right
      value is lowered to it. The nested assignment's crossing error names
      the left value, as the `ValueRight` setter's does. */
  function SetMaximumAsWritten(w: Widget, v: int): (r: Outcome)
    ensures r.Ok? <==> v > w.minimum && (w.valueRight <= v || v >= w.valueLeft)
    ensures r.Ok? ==> r.w == w.(maximum := v, valueRight := Min(w.valueRight, v))
    ensures r.Ok? ==> r.events == (if w.valueRight > v then [ValueChanged, RightValueChanged] else [])
    ensures r.Thrown? && v > w.minimum ==> r.w == w.(maximum := v) && r.events == []
    ensures r.Thrown? && v <= w.minimum ==> r.w == w && r.events == []
    ensures Valid(w) && r.Ok? ==> Valid(r.w)
  {
    if v <= w.minimum then Thrown(w, [], ArgumentError("Maximum", v))
    else
      var stored := w.(maximum := v);
      if stored.valueRight > v then SetValueRight(stored, v) else Ok(stored, [])
  }

  /** Lowering the maximum below the left value breaks the invariant. */
  lemma MaximumAsWrittenBreaksValid(w: Widget, v: int)
    requires Valid(w) && w.minimum < v < w.valueLeft
    ensures SetMaximumAsWritten(w, v).Thrown?
    ensures SetMaximumAsWritten(w, v).w.maximum == v
    ensures SetMaximumAsWritten(w, v).w.valueRight == w.valueRight
    ensures !Valid(SetMaximumAsWritten(w, v).w)
  {
  }

  /** The `Maximum` setter with the check done before anything is stored. */
  function SetMaximum(w: Widget, v: int): (r: Outcome)
    ensures r.Ok? <==> SetMaximumAsWritten(w, v).Ok?
    ensures r.Ok? ==> r == SetMaximumAsWritten(w, v)
    ensures r.Thrown? ==> r.w == w && r.events == []
    ensures Valid(w) ==> Valid(r.w)
  {
    if v <= w.minimum then Thrown(w, [], ArgumentError("Maximum", v))
    else if w.valueRight > v && v < w.valueLeft then Thrown(w, [], ArgumentError("ValueLeft", v))
    else SetMaximumAsWritten(w, v)
  }

  /** The one string the `SmallChange` setter's exception is built from. */
  const SmallChangeRejection := "SmallChange cannot be or less than 0"

  /** The `SmallChange` setter: only positive steps are accepted; it raises
      no notification. */
  function SetSmallChange(w: Widget, v: int): (r: Outcome)
    ensures r.Ok? <==> v > 0
    ensures r.Ok? ==> r.w == w.(smallChange := v)
    ensures r.Thrown? ==> r.w == w && r.error == ArgumentOutOfRange(SmallChangeRejection)
    ensures r.events == []
    ensures Valid(w) ==> Valid(r.w)
  {
    if v <= 0 then Thrown(w, [], ArgumentOutOfRange(SmallChangeRejection))
    else Ok(w.(smallChange := v), [])
  }

  /** `IncrementLeft`: on a valid widget the left thumb moves up by exactly
      one step when that keeps it strictly below the right thumb, and
      otherwise stays put without notifying. The clamp to the maximum never
      matters because the right thumb is already at or below it. */
  function IncrementLeft(w: Widget): (r: Outcome)
    ensures r.Ok? && r.w == w.(valueLeft := r.w.valueLeft)
    ensures r.events == [] || r.events == [ValueChanged, LeftValueChanged]
    ensures Valid(w) ==> Valid(r.w)
    ensures Valid(w) ==> r.w.valueLeft == (if w.valueLeft + w.smallChange < w.valueRight then w.valueLeft + w.smallChange else w.valueLeft)
    ensures Valid(w) ==> (r.events != [] <==> w.valueLeft + w.smallChange < w.valueRight)
  {
    var next := Min(w.valueLeft + w.smallChange, w.maximum);
    if IsValidValueLeft(w, next) then SetValueLeft(w, next) else Ok(w, [])
  }

  /** `DecrementLeft`: the left thumb goes down one step, saturating at the
      minimum; it only refuses when the right thumb sits on the minimum.
      At the minimum it re-assigns the same value and still notifies. */
  function DecrementLeft(w: Widget): (r: Outcome)
    ensures r.Ok? && r.w == w.(valueLeft := r.w.valueLeft)
    ensures r.events == [] || r.events == [ValueChanged, LeftValueChanged]
    ensures Valid(w) ==> Valid(r.w)
    ensures Valid(w) ==> r.w.valueLeft == (if w.minimum < w.valueRight then Max(w.valueLeft - w.smallChange, w.minimum) else w.valueLeft)
    ensures Valid(w) ==> (r.events != [] <==> w.minimum < w.valueRight)
  {
    var next := Max(w.valueLeft - w.smallChange, w.minimum);
    if IsValidValueLeft(w, next) then SetValueLeft(w, next) else Ok(w, [])
  }

  /** `IncrementRight`: the right thumb goes up one step, saturating at the
      maximum; it only refuses when the left thumb sits on the maximum.
      At the maximum it re-assigns the same value and still notifies. */
  function IncrementRight(w: Widget): (r: Outcome)
    ensures r.Ok? && r.w == w.(valueRight := r.w.valueRight)
    ensures r.events == [] || r.events == [ValueChanged, RightValueChanged]
    ensures Valid(w) ==> Valid(r.w)
    ensures Valid(w) ==> r.w.valueRight == (if w.valueLeft < w.maximum then Min(w.valueRight + w.smallChange, w.maximum) else w.valueRight)
    ensures Valid(w) ==> (r.events != [] <==> w.valueLeft < w.maximum)
  {
    var next := Min(w.valueRight + w.smallChange, w.maximum);
    if IsValidValueRight(w, next) then SetValueRight(w, next) else Ok(w, [])
  }

  /** `DecrementRight`: the right thumb moves down by exactly one step when
      that keeps it strictly above the left thumb, and otherwise stays put
      without notifying. */
  function DecrementRight(w: Widget): (r: Outcome)
    ensures r.Ok? && r.w == w.(valueRight := r.w.valueRight)
    ensures r.events == [] || r.events == [ValueChanged, RightValueChanged]
    ensures Valid(w) ==> Valid(r.w)
    ensures Valid(w) ==> r.w.valueRight == (if w.valueRight - w.smallChange > w.valueLeft then w.valueRight - w.smallChange else w.valueRight)
    ensures Valid(w) ==> (r.events != [] <==> w.valueRight - w.smallChange > w.valueLeft)
  {
    var next := Max(w.valueRight - w.smallChange, w.minimum);
    if IsValidValueRight(w, next) then SetValueRight(w, next) else Ok(w, [])
  }

  /** Increment never lowers a value and decrement never raises one, and a
      strict gap between the thumbs survives every step. */
  lemma StepsAreMonotoneAndKeepGap(w: Widget)
    requires Valid(w)
    ensures IncrementLeft(w).w.valueLeft >= w.valueLeft
    ensures IncrementRight(w).w.valueRight >= w.valueRight
    ensures DecrementLeft(w).w.valueLeft <= w.valueLeft
    ensures DecrementRight(w).w.valueRight <= w.valueRight
    ensures w.valueLeft < w.valueRight ==>
      && IncrementLeft(w).w.valueLeft < IncrementLeft(w).w.valueRight
      && IncrementRight(w).w.valueLeft < IncrementRight(w).w.valueRight
      && DecrementLeft(w).w.valueLeft < DecrementLeft(w).w.valueRight
      && DecrementRight(w).w.valueLeft < DecrementRight(w).w.valueRight
  {
  }

  /** The setter accepts equal thumbs, but no step ever makes the thumbs
      equal: a step that would is refused. */
  lemma SetterAllowsWhatStepsForbid(w: Widget)
    requires Valid(w) && w.valueLeft < w.valueRight
    ensures SetValueLeft(w, w.valueRight).Ok?
    ensures SetValueLeft(w, w.valueRight).w.valueLeft == SetValueLeft(w, w.valueRight).w.valueRight
    ensures IncrementLeft(w).w.valueLeft != IncrementLeft(w).w.valueRight
    ensures DecrementRight(w).w.valueLeft != DecrementRight(w).w.valueRight
  {
  }

  /** A step up followed by a step down returns the left thumb to where it
      was, when the step up was not refused. */
  lemma IncrementThenDecrementLeft(w: Widget)
    requires Valid(w) && w.valueLeft + w.smallChange < w.valueRight
    ensures DecrementLeft(IncrementLeft(w).w).w == w
    ensures IncrementLeft(w).events + DecrementLeft(IncrementLeft(w).w).events
      == [ValueChanged, LeftValueChanged, ValueChanged, LeftValueChanged]
  {
  }

  /** A step down followed by a step up returns the right thumb to where it
      was, when the step down was not refused. */
  lemma DecrementThenIncrementRight(w: Widget)
    requires Valid(w) && w.valueRight - w.smallChange > w.valueLeft
    ensures IncrementRight(DecrementRight(w).w).w == w
  {
  }

  /** A step up followed by a step down returns the right thumb to where it
      was, when the step up hit no clamp and the thumbs were apart. */
  lemma IncrementThenDecrementRight(w: Widget)
    requires Valid(w) && w.valueLeft < w.valueRight && w.valueRight + w.smallChange <= w.maximum
    ensures DecrementRight(IncrementRight(w).w).w == w
  {
  }

  /** A step down followed by a step up returns the left thumb to where it
      was, when the step down hit no clamp and the thumbs were apart. */
  lemma DecrementThenIncrementLeft(w: Widget)
    requires Valid(w) && w.valueLeft < w.valueRight && w.valueLeft - w.smallChange >= w.minimum
    ensures IncrementLeft(DecrementLeft(w).w).w == w
  {
  }
}
